/**
 * The database identifier `ObjectId`, seen through its two conversions:
 * `new ObjectId(s)` (parse a 24-digit hexadecimal string) and `toString()`
 * (print the 24 lower-case hexadecimal digits).
 */
module ObjectIds {
  import opened Options

  predicate IsHexDigit(c: char) {
    '0' <= c <= '9' || 'a' <= c <= 'f' || 'A' <= c <= 'F'
  }

  predicate IsLowerHexDigit(c: char) {
    '0' <= c <= '9' || 'a' <= c <= 'f'
  }

  /** A string that `new ObjectId(s)` accepts: 24 hexadecimal digits of either case. */
  predicate IsHexId(s: string) {
    |s| == 24 && forall i :: 0 <= i < |s| ==> IsHexDigit(s[i])
  }

  /** The printed form of an identifier: 24 lower-case hexadecimal digits. */
  predicate IsCanonicalId(s: string) {
    IsHexId(s) && forall i :: 0 <= i < |s| ==> IsLowerHexDigit(s[i])
  }

  datatype Oid = Oid(hex: string)

  /** An identifier, represented by its canonical printed form. */
  type ObjectId = o: Oid | IsCanonicalId(o.hex) witness Oid("000000000000000000000000")

  function LowerHexDigit(c: char): (d: char)
    ensures IsHexDigit(c) ==> IsLowerHexDigit(d)
    ensures IsLowerHexDigit(c) ==> d == c
  {
    if 'A' <= c <= 'F' then (c as int + 32) as char else c
  }

  /** `new ObjectId(s)`. */
  function FromString(s: string): (o: ObjectId)
    requires IsHexId(s)
    ensures IsCanonicalId(s) ==> o.hex == s
    ensures forall i :: 0 <= i < 24 ==> o.hex[i] == LowerHexDigit(s[i])
  {
    Oid(seq(|s|, i requires 0 <= i < |s| => LowerHexDigit(s[i])))
  }

  /** `ObjectId.prototype.toString()`. */
  function ToString(o: ObjectId): (s: string)
    ensures IsCanonicalId(s)
    ensures FromString(s) == o
  {
    o.hex
  }

  /**
   * The cast `findById(s)` applies before it queries: a string of 24
   * hexadecimal digits of either case is read as the identifier it spells,
   * and the query compares printed forms; any other string makes the cast
   * throw (`None`).
   */
  function CastId(s: string): (r: Option<string>)
    ensures r.Some? <==> IsHexId(s)
    ensures r.Some? ==> IsCanonicalId(r.value) && FromString(r.value) == FromString(s)
    ensures IsCanonicalId(s) ==> r == Some(s)
  {
    if IsHexId(s) then Some(ToString(FromString(s))) else None
  }

  /** Printing then parsing any string the printer can produce gives it back. */
  lemma PrintParse(s: string)
    requires IsCanonicalId(s)
    ensures ToString(FromString(s)) == s
  {
  }

  /** Two identifiers print alike only if they are the same identifier. */
  lemma ToStringInjective(a: ObjectId, b: ObjectId)
    ensures ToString(a) == ToString(b) ==> a == b
  {
  }
}
