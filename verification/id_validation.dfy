/**
 * The identifier check every `findById` runs first: the Joi schema
 * `{ id: Joi.string().length(24).required() }` applied to `{ id }`.
 */
module IdValidation {
  import opened Options
  import opened ObjectIds

  /** The message for an empty string, which Joi strings refuse before any other rule. */
  const IdEmptyMessage := "\"id\" is not allowed to be empty"

  /** The message for a non-empty string of the wrong length. */
  const IdLengthMessage := "\"id\" length must be 24 characters long"

  /** How many UTF-16 code units `c` takes: two outside the Basic Multilingual Plane. */
  function Utf16Units(c: char): nat {
    if c as int < 0x1_0000 then 1 else 2
  }

  /** The `length` of a JavaScript string: its UTF-16 code units. */
  function Utf16Length(s: string): (n: nat)
    ensures |s| <= n <= 2 * |s|
    ensures n == 0 <==> |s| == 0
    ensures (forall i :: 0 <= i < |s| ==> s[i] as int < 0x1_0000) ==> n == |s|
  {
    if |s| == 0 then 0 else Utf16Units(s[0]) + Utf16Length(s[1..])
  }

  /** The first message the schema reports for `id`, or `None` when it accepts it. */
  function IdRejection(id: string): (r: Option<string>)
    ensures r.None? <==> Utf16Length(id) == 24
    ensures |id| == 0 ==> r == Some(IdEmptyMessage)
    ensures 0 < |id| && Utf16Length(id) != 24 ==> r == Some(IdLengthMessage)
  {
    if |id| == 0 then Some(IdEmptyMessage)
    else if Utf16Length(id) != 24 then Some(IdLengthMessage)
    else None
  }

  /** Every string the identifier cast accepts passes the length check. */
  lemma CastableIdAccepted(id: string)
    requires IsHexId(id)
    ensures IdRejection(id).None?
  {
  }

  /**
   * Length is counted in UTF-16 code units: 22 characters of the Basic
   * Multilingual Plane and one character outside it make 23 characters but
   * 24 units, so the check accepts them, and the cast that follows refuses
   * them.
   */
  lemma AstralIdPassesLengthCheck(a: string, c: char)
    requires |a| == 22 && forall i :: 0 <= i < |a| ==> a[i] as int < 0x1_0000
    requires c as int >= 0x1_0000
    ensures |a + [c]| == 23
    ensures IdRejection(a + [c]).None?
    ensures CastId(a + [c]).None?
  {
    assert Utf16Length([c]) == 2 by {
      assert [c][1..] == [];
    }
    Utf16LengthAppend(a, [c]);
  }

  /** The length of a concatenation is the sum of the lengths. */
  lemma {:induction false} Utf16LengthAppend(a: string, b: string)
    ensures Utf16Length(a + b) == Utf16Length(a) + Utf16Length(b)
    decreases |a|
  {
    if |a| > 0 {
      assert (a + b)[0] == a[0];
      assert (a + b)[1..] == a[1..] + b;
      Utf16LengthAppend(a[1..], b);
    } else {
      assert a + b == b;
    }
  }
}
