/**
 * MongoDB object ids as they appear in the API: `ObjectId.is_valid(s)`,
 * `ObjectId(s)` and `str(oid)` for text ids.
 */
module Bson {
  import Text

  predicate IsHexDigit(c: char) {
    '0' <= c <= '9' || 'a' <= c <= 'f' || 'A' <= c <= 'F'
  }

  /** `ObjectId.is_valid(s)` for a text id: exactly 24 hexadecimal digits, in either case. */
  predicate IsValidObjectId(s: string) {
    |s| == 24 && forall i :: 0 <= i < |s| ==> IsHexDigit(s[i])
  }

  predicate IsCanonical(s: string) {
    |s| == 24 && forall i :: 0 <= i < |s| ==> '0' <= s[i] <= '9' || 'a' <= s[i] <= 'f'
  }

  /** An object id, written as `str(oid)` writes it: 24 lower-case hexadecimal digits. */
  type ObjectId = s: string | IsCanonical(s) witness "000000000000000000000000"

  /** `str(ObjectId(s))`: the id a valid text id denotes; the digits are kept and their case is folded. */
  function Parse(s: string): (id: ObjectId)
    requires IsValidObjectId(s)
    ensures forall i :: 0 <= i < 24 ==> id[i] == Text.LowerChar(s[i])
  {
    Text.Lower(s)
  }
}
