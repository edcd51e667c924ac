/**
 * The JavaScript value semantics the client relies on: truthiness of a
 * possibly missing string, `a || b`, `a ?? b` and `<=` on a possibly missing
 * number, and `Number(s)` on decimal strings with an optional exponent.
 */
module Js {
  import opened Wrappers

  /** Truthiness of a string that may be `undefined` or `null`: present and non-empty. */
  predicate Truthy(v: Option<string>) {
    v.Some? && v.value != ""
  }

  /** `a || b` on strings. */
  function Or(a: Option<string>, b: Option<string>): (r: Option<string>)
    ensures Truthy(a) ==> r == a
    ensures !Truthy(a) ==> r == b
    ensures Truthy(r) <==> Truthy(a) || Truthy(b)
  {
    if Truthy(a) then a else b
  }

  /** A field read as a number: missing, `null`, or a number. */
  datatype Number = Undefined | Null | Num(value: real)

  /** `a ?? b`: `b` exactly when `a` is `undefined` or `null`. */
  function Coalesce(a: Number, b: Number): (r: Number)
    ensures a.Num? ==> r == a
    ensures !a.Num? ==> r == b
  {
    if a.Num? then a else b
  }

  /**
   * `a <= b` where `b` came from `Number(...)` (`None` is `NaN`): `undefined`
   * and `NaN` compare false, and `null` compares as 0.
   */
  predicate LessEq(a: Number, b: Option<real>) {
    b.Some? &&
    match a
    case Undefined => false
    case Null => 0.0 <= b.value
    case Num(v) => v <= b.value
  }

  // ----- Number(s) on decimal strings -----

  predicate IsDigit(c: char) {
    '0' <= c <= '9'
  }

  predicate AllDigits(s: string) {
    forall i :: 0 <= i < |s| ==> IsDigit(s[i])
  }

  function DigitsValue(s: string): nat
    requires AllDigits(s)
  {
    if s == [] then 0 else DigitsValue(s[..|s| - 1]) * 10 + (s[|s| - 1] as int - '0' as int)
  }

  function Pow10(n: nat): (p: nat)
    ensures p >= 1
  {
    if n == 0 then 1 else 10 * Pow10(n - 1)
  }

  /** The position of the first character of `s` in `marks`, if any. */
  function IndexOfAny(s: string, marks: set<char>): (r: Option<nat>)
    ensures r.Some? ==> r.value < |s| && s[r.value] in marks
    ensures r.Some? ==> forall i :: 0 <= i < r.value ==> s[i] !in marks
    ensures r.None? ==> forall i :: 0 <= i < |s| ==> s[i] !in marks
  {
    if s == [] then None
    else if s[0] in marks then Some(0)
    else
      var r := IndexOfAny(s[1..], marks);
      if r.None? then None else Some(r.value + 1)
  }

  /** The value of the digits after a `.`: `0.b`. */
  function Fraction(b: string): (v: real)
    requires AllDigits(b)
    ensures 0.0 <= v
  {
    var p := Pow10(|b|) as real;
    assert p >= 1.0;
    DigitsValue(b) as real / p
  }

  /** `0.b` times ten to the number of digits of `b` is the value of `b`, and it is below 1. */
  lemma FractionScales(b: string)
    requires AllDigits(b)
    ensures Fraction(b) * Pow10(|b|) as real == DigitsValue(b) as real
    ensures Fraction(b) < 1.0
  {
    var p := Pow10(|b|) as real;
    var d := DigitsValue(b) as real;
    assert Fraction(b) == d / p && p >= 1.0;
    DigitsBelowPow10(b);
    DivideBelow(d, p);
  }

  /** For `0 <= d < p`, `d / p` is below 1 and multiplies back to `d`. */
  lemma DivideBelow(d: real, p: real)
    requires 0.0 <= d < p
    ensures d / p < 1.0 && d / p * p == d
  {
  }

  /** A string of `n` digits has a value below ten to the `n`. */
  lemma {:induction false} DigitsBelowPow10(b: string)
    requires AllDigits(b)
    ensures DigitsValue(b) < Pow10(|b|)
  {
    if b != [] {
      DigitsBelowPow10(b[..|b| - 1]);
    }
  }

  /** An unsigned decimal with no exponent: digits with at most one `.`, and at least one digit. */
  function Decimal(s: string): (r: Option<real>)
    ensures r.Some? ==> r.value >= 0.0
    ensures AllDigits(s) && s != "" ==> r == Some(DigitsValue(s) as real)
  {
    if AllDigits(s) then
      if s == [] then None else Some(DigitsValue(s) as real)
    else
      var dot := IndexOfAny(s, {'.'});
      if dot.None? then None
      else
        var whole, fraction := s[..dot.value], s[dot.value + 1..];
        if AllDigits(whole) && AllDigits(fraction) && |whole| + |fraction| > 0 then
          Some(DigitsValue(whole) as real + Fraction(fraction))
        else None
  }

  /** The exponent after `e`: an optional sign and at least one digit. */
  function Exponent(s: string): (r: Option<int>)
    ensures AllDigits(s) && s != "" ==> r == Some(DigitsValue(s))
    ensures |s| > 1 && s[0] == '-' && AllDigits(s[1..]) ==> r == Some(-(DigitsValue(s[1..]) as int))
    ensures |s| > 1 && s[0] == '+' && AllDigits(s[1..]) ==> r == Some(DigitsValue(s[1..]))
  {
    if s != [] && (s[0] == '+' || s[0] == '-') then
      var digits := s[1..];
      if digits != [] && AllDigits(digits) then
        var magnitude: int := DigitsValue(digits);
        Some(if s[0] == '-' then -magnitude else magnitude)
      else None
    else if s != [] && AllDigits(s) then Some(DigitsValue(s))
    else None
  }

  /** `m` times ten to the power `e`. */
  function Scale(m: real, e: int): real {
    if e >= 0 then m * Pow10(e) as real else m / Pow10(-e) as real
  }

  lemma ScaleNonNegative(m: real, e: int)
    requires m >= 0.0
    ensures Scale(m, e) >= 0.0
  {
    var p := (if e >= 0 then Pow10(e) else Pow10(-e)) as real;
    assert p >= 1.0;
  }

  /** An unsigned number: a decimal, optionally followed by `e` or `E` and an exponent. */
  function Unsigned(s: string): (r: Option<real>)
    ensures r.Some? ==> r.value >= 0.0
  {
    var e := IndexOfAny(s, {'e', 'E'});
    if e.None? then Decimal(s)
    else
      var mantissa, exponent := Decimal(s[..e.value]), Exponent(s[e.value + 1..]);
      if mantissa.Some? && exponent.Some? then
        ScaleNonNegative(mantissa.value, exponent.value);
        Some(Scale(mantissa.value, exponent.value))
      else None
  }

  /**
   * `Number(s)` for an optionally signed decimal with an optional exponent;
   * the empty string is 0, and every other string is `NaN`, here `None`.
   */
  function ToNumber(s: string): (r: Option<real>)
    ensures s == "" ==> r == Some(0.0)
    ensures r.Some? && s != "" && s[0] == '-' ==> r.value <= 0.0
    ensures r.Some? && s != "" && s[0] != '-' ==> r.value >= 0.0
  {
    if s == [] then Some(0.0)
    else if s[0] == '-' then
      var u := Unsigned(s[1..]);
      if u.None? then None else Some(-u.value)
    else if s[0] == '+' then Unsigned(s[1..])
    else Unsigned(s)
  }

  /** The decimal digits of `n`, as `String(n)` writes them. */
  function NatString(n: nat): string
    decreases n
  {
    (if n < 10 then "" else NatString(n / 10)) + [('0' as int + n % 10) as char]
  }

  lemma DigitsValueSnoc(p: string, c: char)
    requires AllDigits(p) && IsDigit(c)
    ensures AllDigits(p + [c])
    ensures DigitsValue(p + [c]) == DigitsValue(p) * 10 + (c as int - '0' as int)
  {
    assert (p + [c])[..|p|] == p;
  }

  lemma {:induction false} NatStringDigits(n: nat)
    ensures |NatString(n)| > 0 && AllDigits(NatString(n))
    ensures DigitsValue(NatString(n)) == n
    decreases n
  {
    var c := ('0' as int + n % 10) as char;
    if n < 10 {
      DigitsValueSnoc("", c);
      assert NatString(n) == "" + [c];
    } else {
      NatStringDigits(n / 10);
      DigitsValueSnoc(NatString(n / 10), c);
      assert NatString(n) == NatString(n / 10) + [c];
      assert DigitsValue(NatString(n)) == (n / 10) * 10 + n % 10;
    }
  }

  /** `Number` reads back the decimal string of every natural number. */
  lemma ToNumberOfNatString(n: nat)
    ensures ToNumber(NatString(n)) == Some(n as real)
  {
    NatStringDigits(n);
    var s := NatString(n);
    assert IsDigit(s[0]);
  }

  /** Text with no exponent mark reads as a plain decimal. */
  lemma UnsignedWithoutExponent(s: string)
    requires forall i :: 0 <= i < |s| ==> s[i] != 'e' && s[i] != 'E'
    ensures Unsigned(s) == Decimal(s)
  {
    assert IndexOfAny(s, {'e', 'E'}).None?;
  }

  /** The mantissa `a.b` reads as the whole part plus the fraction. */
  lemma DecimalOfForm(a: string, b: string)
    requires AllDigits(a) && AllDigits(b) && |a| + |b| > 0
    ensures Decimal(a + "." + b) == Some(DigitsValue(a) as real + Fraction(b))
  {
    DotIsNotDigit(a, b);
    FirstDot(a, b);
    SplitAtDot(a, b);
    DecimalSplit(a + "." + b, |a|, a, b);
  }

  /** Cutting `a.b` around the `.` after `a` gives back `a` and `b`. */
  lemma SplitAtDot(a: string, b: string)
    ensures (a + "." + b)[..|a|] == a && (a + "." + b)[|a| + 1..] == b
  {
    var s := a + "." + b;
    assert s[..|a|] == a;
    assert s[|a| + 1..] == b;
  }

  /** `a.b` is not all digits. */
  lemma DotIsNotDigit(a: string, b: string)
    ensures !AllDigits(a + "." + b)
  {
    assert (a + "." + b)[|a|] == '.';
  }

  /** A mantissa whose first `.` is at `k` reads as the digits before it plus the fraction after it. */
  lemma DecimalSplit(s: string, k: nat, a: string, b: string)
    requires !AllDigits(s) && IndexOfAny(s, {'.'}) == Some(k)
    requires s[..k] == a && s[k + 1..] == b
    requires AllDigits(a) && AllDigits(b) && |a| + |b| > 0
    ensures Decimal(s) == Some(DigitsValue(a) as real + Fraction(b))
  {
  }

  /** The first `.` of `a.b` is the one after `a` when `a` has none. */
  lemma FirstDot(a: string, b: string)
    requires AllDigits(a)
    ensures IndexOfAny(a + "." + b, {'.'}) == Some(|a|)
  {
    var s := a + "." + b;
    assert s[|a|] in {'.'};
    forall i | 0 <= i < |a| ensures s[i] !in {'.'} {
      assert s[i] == a[i];
    }
  }

  /** Digits, `.` and digits, with at least one digit, read as the whole part plus the fraction. */
  lemma ToNumberOfDecimalForm(a: string, b: string)
    requires AllDigits(a) && AllDigits(b) && |a| + |b| > 0
    ensures ToNumber(a + "." + b) == Some(DigitsValue(a) as real + Fraction(b))
  {
    DecimalFormShape(a, b);
    UnsignedWithoutExponent(a + "." + b);
    DecimalOfForm(a, b);
  }

  /** `a.b` starts with no sign and holds no exponent mark. */
  lemma DecimalFormShape(a: string, b: string)
    requires AllDigits(a) && AllDigits(b)
    ensures (a + "." + b)[0] != '-' && (a + "." + b)[0] != '+'
    ensures forall i :: 0 <= i < |a + "." + b| ==> (a + "." + b)[i] != 'e' && (a + "." + b)[i] != 'E'
  {
    var s := a + "." + b;
    forall i | 0 <= i < |s| ensures IsDigit(s[i]) || s[i] == '.' {
      if i < |a| { assert s[i] == a[i]; } else if i > |a| { assert s[i] == b[i - |a| - 1]; }
    }
  }

  /**
   * A leading `-` negates what the rest reads as, and a leading `+` changes
   * nothing; the rest must be non-empty and carry no sign of its own.
   */
  lemma ToNumberOfSigned(s: string)
    requires s != "" && s[0] != '-' && s[0] != '+'
    ensures ToNumber("+" + s) == ToNumber(s)
    ensures ToNumber("-" + s) == if ToNumber(s).None? then None else Some(-ToNumber(s).value)
  {
    assert ("+" + s)[1..] == s && ("-" + s)[1..] == s;
  }

  /** Digits, `e` and digits read as the first number times ten to the second. */
  lemma ToNumberOfExponentForm(a: string, b: string)
    requires a != "" && AllDigits(a) && b != "" && AllDigits(b)
    ensures ToNumber(a + "e" + b) == Some(Scale(DigitsValue(a) as real, DigitsValue(b)))
  {
    var s := a + "e" + b;
    assert s[|a|] == 'e';
    assert forall i :: 0 <= i < |a| ==> s[i] == a[i];
    assert IndexOfAny(s, {'e', 'E'}) == Some(|a|);
    assert s[..|a|] == a && s[|a| + 1..] == b;
    assert IsDigit(s[0]);
    assert ToNumber(s) == Unsigned(s);
  }

  /**
   * A mantissa `m`, an exponent mark `e` or `E`, and an exponent `x` read as
   * the mantissa scaled by ten to the exponent, when both parts are well
   * formed; otherwise the text is not a number.
   */
  lemma ToNumberOfScientific(m: string, mark: char, x: string)
    requires mark == 'e' || mark == 'E'
    requires m != "" && m[0] != '-' && m[0] != '+'
    requires forall i :: 0 <= i < |m| ==> m[i] != 'e' && m[i] != 'E'
    ensures ToNumber(m + [mark] + x) ==
      if Decimal(m).Some? && Exponent(x).Some? then Some(Scale(Decimal(m).value, Exponent(x).value))
      else None
  {
    ScientificShape(m, mark, x);
    UnsignedSplit(m + [mark] + x, |m|, m, x);
  }

  /** `m`, a mark and `x` start as `m` does, and their first mark is the one after `m`. */
  lemma ScientificShape(m: string, mark: char, x: string)
    requires mark == 'e' || mark == 'E'
    requires m != ""
    requires forall i :: 0 <= i < |m| ==> m[i] != 'e' && m[i] != 'E'
    ensures (m + [mark] + x)[0] == m[0]
    ensures IndexOfAny(m + [mark] + x, {'e', 'E'}) == Some(|m|)
    ensures (m + [mark] + x)[..|m|] == m && (m + [mark] + x)[|m| + 1..] == x
  {
    var s := m + [mark] + x;
    assert s[|m|] in {'e', 'E'};
    forall i | 0 <= i < |m| ensures s[i] !in {'e', 'E'} {
      assert s[i] == m[i];
    }
    assert s[..|m|] == m;
    assert s[|m| + 1..] == x;
  }

  /** Text whose first exponent mark is at `k` scales the mantissa before it by the exponent after it. */
  lemma UnsignedSplit(s: string, k: nat, m: string, x: string)
    requires IndexOfAny(s, {'e', 'E'}) == Some(k)
    requires s[..k] == m && s[k + 1..] == x
    requires s != "" && s[0] != '-' && s[0] != '+'
    ensures ToNumber(s) ==
      if Decimal(m).Some? && Exponent(x).Some? then Some(Scale(Decimal(m).value, Exponent(x).value))
      else None
  {
  }

  /** A negative exponent divides: scaling by ten to `-k` and multiplying by `10^k` gives back `m`. */
  lemma ScaleOfNegative(m: real, k: nat)
    ensures Scale(m, -(k as int)) * Pow10(k) as real == m
  {
    var p := Pow10(k) as real;
    assert p >= 1.0;
    if k > 0 {
      assert Scale(m, -(k as int)) == m / p;
    }
  }

  /** `Number("1.5e3")` is 1500: a fraction in the mantissa is scaled too. */
  lemma ScientificWithFraction()
    ensures ToNumber("1.5e3") == Some(1500.0)
  {
    assert Decimal("1.5") == Some(1.5) by {
      assert "1" + "." + "5" == "1.5";
      DecimalOfForm("1", "5");
      FractionScales("5");
    }
    assert Exponent("3") == Some(3);
    assert "1.5" + ['e'] + "3" == "1.5e3";
    ToNumberOfScientific("1.5", 'e', "3");
  }

  /** `Number("1E-3")` is a thousandth: an upper-case mark and a negative exponent. */
  lemma ScientificWithNegativeExponent()
    ensures ToNumber("1E-3") == Some(0.001)
  {
    assert Decimal("1") == Some(1.0);
    assert Exponent("-3") == Some(-3);
    assert "1" + ['E'] + "-3" == "1E-3";
    ToNumberOfScientific("1", 'E', "-3");
  }

  /** Scaling a whole number by a non-negative exponent gives the whole number `m * 10^k`. */
  lemma ScaleOfNat(m: nat, k: nat)
    ensures Scale(m as real, k) == (m * Pow10(k)) as real
  {
  }

  /** `Number` reads `m` followed by `e` and `k` as `m` times ten to the `k`: `Number("1e3")` is 1000. */
  lemma ToNumberOfExponent(m: nat, k: nat)
    ensures ToNumber(NatString(m) + "e" + NatString(k)) == Some(Scale(m as real, k))
  {
    var a, b := NatString(m), NatString(k);
    assert ToNumber(a + "e" + b) == Some(Scale(m as real, k)) by {
      NatStringDigits(m);
      NatStringDigits(k);
      ToNumberOfExponentForm(a, b);
    }
  }
}
