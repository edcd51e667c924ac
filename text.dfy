/**
 * The string operations the core relies on: Python's `str.strip`,
 * `str.replace(' ', '')` and `str.upper`, JavaScript's `toLowerCase`,
 * `includes` and `slice(0, n)`.
 *
 * Case mapping covers the ASCII letters only; whitespace is Python's full
 * `str.isspace` set.
 */
module Text {
  import Seqs

  /** Python's `str.isspace()` for one character: what `str.strip()` removes. */
  predicate IsWhitespace(c: char) {
    var n := c as int;
    (9 <= n <= 13) || (28 <= n <= 32) || n == 0x85 || n == 0xA0 || n == 0x1680
    || (0x2000 <= n <= 0x200A) || n == 0x2028 || n == 0x2029 || n == 0x202F
    || n == 0x205F || n == 0x3000
  }

  /** Drops the leading whitespace: `str.lstrip()`. */
  function StripStart(s: string): (r: string)
    ensures |r| <= |s| && r == s[|s| - |r|..]
    ensures forall i :: 0 <= i < |s| - |r| ==> IsWhitespace(s[i])
    ensures |r| > 0 ==> !IsWhitespace(r[0])
    decreases |s|
  {
    if |s| > 0 && IsWhitespace(s[0]) then StripStart(s[1..]) else s
  }

  /** Drops the trailing whitespace: `str.rstrip()`. */
  function StripEnd(s: string): (r: string)
    ensures |r| <= |s| && r == s[..|r|]
    ensures forall i :: |r| <= i < |s| ==> IsWhitespace(s[i])
    ensures |r| > 0 ==> !IsWhitespace(r[|r| - 1])
    decreases |s|
  {
    if |s| > 0 && IsWhitespace(s[|s| - 1]) then StripEnd(s[..|s| - 1]) else s
  }

  /**
   * `str.strip()`: the slice of `s` left once the whitespace at both ends is
   * dropped; everything outside the slice is whitespace and neither end of
   * the slice is.
   */
  function Strip(s: string): (r: string)
    ensures exists i, j ::
      && 0 <= i <= j <= |s| && r == s[i..j]
      && (forall k :: 0 <= k < i ==> IsWhitespace(s[k]))
      && (forall k :: j <= k < |s| ==> IsWhitespace(s[k]))
    ensures |r| > 0 ==> !IsWhitespace(r[0]) && !IsWhitespace(r[|r| - 1])
  {
    var t := StripStart(s);
    var r := StripEnd(t);
    StripSlice(s, t, r);
    assert |r| > 0 ==> r[0] == t[0] && !IsWhitespace(t[0]);
    r
  }

  /** A prefix of a suffix of `s`, both cut at whitespace, is a slice of `s` with whitespace outside it. */
  lemma StripSlice(s: string, t: string, r: string)
    requires |t| <= |s| && t == s[|s| - |t|..]
    requires forall k :: 0 <= k < |s| - |t| ==> IsWhitespace(s[k])
    requires |r| <= |t| && r == t[..|r|]
    requires forall k :: |r| <= k < |t| ==> IsWhitespace(t[k])
    ensures exists i, j ::
      && 0 <= i <= j <= |s| && r == s[i..j]
      && (forall k :: 0 <= k < i ==> IsWhitespace(s[k]))
      && (forall k :: j <= k < |s| ==> IsWhitespace(s[k]))
  {
    var i := |s| - |t|;
    var j := i + |r|;
    assert r == s[i..j];
    forall k | j <= k < |s| ensures IsWhitespace(s[k]) {
      assert s[k] == t[k - i];
    }
  }

  /** `s.replace(' ', '')`: the characters other than the space, each kept, in order. */
  function RemoveSpaces(s: string): (r: string)
    ensures Seqs.IsSubsequence(r, s)
    ensures multiset(r) == multiset(s)[' ' := 0]
    ensures forall c :: c in r <==> c in s && c != ' '
  {
    if s == [] then []
    else
      var rest := RemoveSpaces(s[1..]);
      assert s == [s[0]] + s[1..];
      if s[0] == ' ' then
        assert rest != [] ==> rest[0] in rest;
        rest
      else
        assert ([s[0]] + rest)[1..] == rest;
        [s[0]] + rest
  }

  function UpperChar(c: char): char {
    if 'a' <= c <= 'z' then (c as int - 32) as char else c
  }

  function LowerChar(c: char): char {
    if 'A' <= c <= 'Z' then (c as int + 32) as char else c
  }

  /** `str.upper()` on ASCII letters: the result has the input's length and maps it character by character. */
  function Upper(s: string): (r: string)
    ensures |r| == |s|
    ensures forall i :: 0 <= i < |s| ==> r[i] == UpperChar(s[i])
  {
    if s == [] then [] else [UpperChar(s[0])] + Upper(s[1..])
  }

  /** `String.prototype.toLowerCase()` on ASCII letters. */
  function Lower(s: string): (r: string)
    ensures |r| == |s|
    ensures forall i :: 0 <= i < |s| ==> r[i] == LowerChar(s[i])
  {
    if s == [] then [] else [LowerChar(s[0])] + Lower(s[1..])
  }

  /** `s.includes(sub)` in JavaScript and `sub in s` in Python. */
  predicate Contains(s: string, sub: string) {
    exists i :: 0 <= i <= |s| - |sub| && OccursAt(s, sub, i)
  }

  predicate OccursAt(s: string, sub: string, i: int)
    requires 0 <= i <= |s| - |sub|
  {
    s[i..i + |sub|] == sub
  }

  /** `s.slice(0, n)`: the first `n` characters, or all of a shorter string. */
  function Take(s: string, n: nat): (r: string)
    ensures |r| == if |s| <= n then |s| else n
    ensures r <= s
  {
    if |s| <= n then s else s[..n]
  }

  // ----- Lemmas -----

  lemma {:induction false} RemoveSpacesAppend(a: string, b: string)
    ensures RemoveSpaces(a + b) == RemoveSpaces(a) + RemoveSpaces(b)
    decreases |a|
  {
    if a == [] {
      assert a + b == b;
    } else {
      assert (a + b)[0] == a[0];
      assert (a + b)[1..] == a[1..] + b;
      RemoveSpacesAppend(a[1..], b);
    }
  }

  lemma {:induction false} RemoveSpacesStripStart(s: string)
    ensures RemoveSpaces(StripStart(s)) == StripStart(RemoveSpaces(s))
    decreases |s|
  {
    if s != [] {
      var x, rest := s[0], RemoveSpaces(s[1..]);
      if IsWhitespace(x) {
        assert StripStart(s) == StripStart(s[1..]);
        RemoveSpacesStripStart(s[1..]);
        if x == ' ' {
          assert RemoveSpaces(s) == rest;
        } else {
          assert RemoveSpaces(s) == [x] + rest;
          assert ([x] + rest)[0] == x && ([x] + rest)[1..] == rest;
        }
      } else {
        assert StripStart(s) == s;
        assert RemoveSpaces(s) == [x] + rest;
        assert ([x] + rest)[0] == x;
      }
    }
  }

  lemma {:induction false} RemoveSpacesStripEnd(s: string)
    ensures RemoveSpaces(StripEnd(s)) == StripEnd(RemoveSpaces(s))
    decreases |s|
  {
    if s != [] {
      var p, c := s[..|s| - 1], s[|s| - 1];
      assert s == p + [c];
      RemoveSpacesAppend(p, [c]);
      assert RemoveSpaces([c]) == if c == ' ' then [] else [c];
      if IsWhitespace(c) {
        RemoveSpacesStripEnd(p);
        if c != ' ' {
          var q := RemoveSpaces(p) + [c];
          assert q[..|q| - 1] == RemoveSpaces(p);
        } else {
          assert RemoveSpaces(s) == RemoveSpaces(p);
        }
      }
    }
  }

  lemma {:induction false} UpperStripStart(s: string)
    ensures Upper(StripStart(s)) == StripStart(Upper(s))
    decreases |s|
  {
    if s != [] {
      assert Upper(s)[1..] == Upper(s[1..]);
      assert IsWhitespace(UpperChar(s[0])) == IsWhitespace(s[0]);
      if IsWhitespace(s[0]) {
        UpperStripStart(s[1..]);
      }
    }
  }

  lemma {:induction false} UpperStripEnd(s: string)
    ensures Upper(StripEnd(s)) == StripEnd(Upper(s))
    decreases |s|
  {
    if s != [] {
      var p := s[..|s| - 1];
      assert Upper(s)[..|s| - 1] == Upper(p);
      assert IsWhitespace(UpperChar(s[|s| - 1])) == IsWhitespace(s[|s| - 1]);
      if IsWhitespace(s[|s| - 1]) {
        UpperStripEnd(p);
      }
    }
  }

  lemma {:induction false} UpperRemoveSpaces(s: string)
    ensures Upper(RemoveSpaces(s)) == RemoveSpaces(Upper(s))
    decreases |s|
  {
    if s != [] {
      UpperRemoveSpaces(s[1..]);
      assert Upper(s) == [UpperChar(s[0])] + Upper(s[1..]);
      assert (UpperChar(s[0]) == ' ') == (s[0] == ' ');
      UpperAppend(if s[0] == ' ' then [] else [s[0]], RemoveSpaces(s[1..]));
    }
  }

  lemma UpperAppend(a: string, b: string)
    ensures Upper(a + b) == Upper(a) + Upper(b)
  {
  }

  /** Upper-casing forgets which letters were lower case. */
  lemma UpperOfLower(s: string)
    ensures Upper(Lower(s)) == Upper(s)
  {
  }

  /** Lower-casing forgets which letters were upper case. */
  lemma LowerOfUpper(s: string)
    ensures Lower(Upper(s)) == Lower(s)
  {
  }

  /** The normalisation `upper(replace(' ', '', strip(s)))` depends only on `upper(replace(' ', '', s))`. */
  lemma NormalisedStrip(s: string)
    ensures Upper(RemoveSpaces(Strip(s))) == Strip(Upper(RemoveSpaces(s)))
  {
    var t := StripStart(s);
    calc {
      Upper(RemoveSpaces(StripEnd(t)));
      { RemoveSpacesStripEnd(t); }
      Upper(StripEnd(RemoveSpaces(t)));
      { UpperStripEnd(RemoveSpaces(t)); }
      StripEnd(Upper(RemoveSpaces(StripStart(s))));
      { RemoveSpacesStripStart(s); }
      StripEnd(Upper(StripStart(RemoveSpaces(s))));
      { UpperStripStart(RemoveSpaces(s)); }
      StripEnd(StripStart(Upper(RemoveSpaces(s))));
    }
  }

  /** `str.strip()` is idempotent: stripping a stripped string changes nothing. */
  lemma StripIdempotent(s: string)
    ensures Strip(Strip(s)) == Strip(s)
  {
    var t := StripStart(s);
    var u := StripEnd(t);
    if u != [] {
      assert u[0] == t[0];
    }
    assert StripStart(u) == u;
    if u != [] {
      assert StripEnd(u) == u;
    }
  }
}
