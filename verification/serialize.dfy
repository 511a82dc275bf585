/**
 * Key-case conversion between the database's snake_case field names and the
 * API's camelCase names (src/shared/serialize.ts): the two string rewrites
 * and the generic object mappers `serialize`/`deSerialize` built on them.
 */
module Serialize {
  import opened Options
  import opened ObjectIds
  import opened Sequences

  predicate IsAsciiLower(c: char) { 'a' <= c <= 'z' }
  predicate IsAsciiUpper(c: char) { 'A' <= c <= 'Z' }
  predicate IsAsciiLetter(c: char) { IsAsciiLower(c) || IsAsciiUpper(c) }
  predicate IsSeparator(c: char) { c == '-' || c == '_' }

  function ToUpper(c: char): (u: char)
    ensures IsAsciiLetter(c) ==> IsAsciiUpper(u)
  {
    if IsAsciiLower(c) then (c as int - 32) as char else c
  }

  function ToLower(c: char): (l: char)
    ensures IsAsciiUpper(c) ==> IsAsciiLower(l) && ToUpper(l) == c
  {
    if IsAsciiUpper(c) then (c as int + 32) as char else c
  }

  predicate NoSeparators(s: string) {
    forall i :: 0 <= i < |s| ==> !IsSeparator(s[i])
  }

  function CountUpper(s: string): nat {
    if |s| == 0 then 0 else (if IsAsciiUpper(s[0]) then 1 else 0) + CountUpper(s[1..])
  }

  /**
   * `camelCase`: scanning left to right, every '-' or '_' immediately
   * followed by an ASCII letter is dropped and the letter upper-cased (the
   * regular expression /([-_][a-z])/ig); every other character is kept.
   */
  function CamelCase(s: string): (r: string)
    ensures |r| <= |s|
    ensures NoSeparators(s) ==> r == s
    decreases |s|
  {
    if |s| == 0 then []
    else if |s| >= 2 && IsSeparator(s[0]) && IsAsciiLetter(s[1]) then [ToUpper(s[1])] + CamelCase(s[2..])
    else [s[0]] + CamelCase(s[1..])
  }

  function SnakeChar(c: char): string {
    if IsAsciiUpper(c) then ['_', ToLower(c)] else [c]
  }

  /**
   * `snakeCase`: every ASCII capital becomes '_' followed by its lower-case
   * form (the regular expression /([A-Z])/g); every other character is kept.
   */
  function SnakeCase(s: string): (r: string)
    ensures |r| == |s| + CountUpper(s)
    ensures forall i :: 0 <= i < |r| ==> !IsAsciiUpper(r[i])
    ensures CountUpper(s) == 0 ==> r == s
  {
    if |s| == 0 then [] else SnakeChar(s[0]) + SnakeCase(s[1..])
  }

  /** Camel-casing keeps a leading character that does not open a separator-letter pair. */
  lemma CamelCaseKeep(c: char, rest: string)
    requires !(IsSeparator(c) && |rest| > 0 && IsAsciiLetter(rest[0]))
    ensures CamelCase([c] + rest) == [c] + CamelCase(rest)
  {
    assert ([c] + rest)[1..] == rest;
  }

  /** Camel-casing drops a leading separator before a letter and capitalises the letter. */
  lemma CamelCaseJoin(c: char, d: char, rest: string)
    requires IsSeparator(c) && IsAsciiLetter(d)
    ensures CamelCase([c, d] + rest) == [ToUpper(d)] + CamelCase(rest)
  {
    assert ([c, d] + rest)[2..] == rest;
  }

  /** Snake-casing works character by character. */
  lemma SnakeCaseCons(c: char, rest: string)
    ensures SnakeCase([c] + rest) == SnakeChar(c) + SnakeCase(rest)
  {
    assert ([c] + rest)[1..] == rest;
  }

  /** A key without separators survives snake-casing then camel-casing. */
  lemma {:induction false} CamelAfterSnake(k: string)
    requires NoSeparators(k)
    ensures CamelCase(SnakeCase(k)) == k
    decreases |k|
  {
    if |k| > 0 {
      var c, tail := k[0], k[1..];
      assert k == [c] + tail;
      assert NoSeparators(tail);
      CamelAfterSnake(tail);
      SnakeCaseCons(c, tail);
      var rest := SnakeCase(tail);
      if IsAsciiUpper(c) {
        CamelCaseJoin('_', ToLower(c), rest);
        assert SnakeChar(c) == ['_', ToLower(c)] && ToUpper(ToLower(c)) == c;
      } else {
        CamelCaseKeep(c, rest);
      }
    }
  }

  /**
   * The shape of a database field name: no capitals, no '-', and every '_'
   * followed by a lower-case letter (`created_at`, `is_alcohol`, `id`).
   */
  predicate IsSnakeKey(k: string) {
    && (forall i :: 0 <= i < |k| ==> !IsAsciiUpper(k[i]) && k[i] != '-')
    && (forall i :: 0 <= i < |k| && k[i] == '_' ==> i + 1 < |k| && IsAsciiLower(k[i + 1]))
  }

  /** A name with one '_' before a letter, and no other separator, loses the '_' and capitalises the letter. */
  lemma {:induction false} CamelCaseOneSeparator(a: string, c: char, b: string)
    requires NoSeparators(a) && IsAsciiLetter(c) && NoSeparators(b)
    ensures CamelCase(a + ['_', c] + b) == a + [ToUpper(c)] + b
    decreases |a|
  {
    if |a| == 0 {
      assert a + ['_', c] + b == ['_', c] + b;
      CamelCaseJoin('_', c, b);
    } else {
      assert NoSeparators(a[1..]);
      CamelCaseOneSeparator(a[1..], c, b);
      CamelCaseOneSeparatorStep(a, c, b);
    }
  }

  /** The inductive step of `CamelCaseOneSeparator`: the first character of `a` is kept in front. */
  lemma CamelCaseOneSeparatorStep(a: string, c: char, b: string)
    requires |a| > 0 && !IsSeparator(a[0])
    requires CamelCase(a[1..] + ['_', c] + b) == a[1..] + [ToUpper(c)] + b
    ensures CamelCase(a + ['_', c] + b) == a + [ToUpper(c)] + b
  {
    var t, u := a[1..] + ['_', c] + b, a[1..] + [ToUpper(c)] + b;
    CamelCaseConsKeep(a[0], t, u);
    assert a == [a[0]] + a[1..];
    ConcatAssociative([a[0]], a[1..], ['_', c]);
    ConcatAssociative([a[0]], a[1..] + ['_', c], b);
    ConcatAssociative([a[0]], a[1..], [ToUpper(c)]);
    ConcatAssociative([a[0]], a[1..] + [ToUpper(c)], b);
  }

  /** A leading character that is not a separator is kept in front of the rest's camel-cased form. */
  lemma CamelCaseConsKeep(x: char, t: string, u: string)
    requires !IsSeparator(x) && CamelCase(t) == u
    ensures CamelCase([x] + t) == [x] + u
  {
    CamelCaseKeep(x, t);
  }

  /** Dropping a first character that is not '_' keeps a database field name. */
  lemma SnakeKeyTail(k: string)
    requires IsSnakeKey(k) && |k| > 0 && k[0] != '_'
    ensures IsSnakeKey(k[1..])
  {
    var t := k[1..];
    forall i | 0 <= i < |t| && t[i] == '_'
      ensures i + 1 < |t| && IsAsciiLower(t[i + 1])
    {
      assert k[i + 1] == '_';
    }
  }

  /** Dropping a leading '_' and the letter after it keeps a database field name. */
  lemma SnakeKeyTail2(k: string)
    requires IsSnakeKey(k) && |k| > 0 && k[0] == '_'
    ensures |k| >= 2 && IsAsciiLower(k[1])
    ensures IsSnakeKey(k[2..])
  {
    var t := k[2..];
    forall i | 0 <= i < |t| && t[i] == '_'
      ensures i + 1 < |t| && IsAsciiLower(t[i + 1])
    {
      assert k[i + 2] == '_';
    }
  }

  /** A database field name survives camel-casing then snake-casing. */
  lemma {:induction false} SnakeAfterCamel(k: string)
    requires IsSnakeKey(k)
    ensures SnakeCase(CamelCase(k)) == k
    decreases |k|
  {
    if |k| > 0 {
      if k[0] == '_' {
        SnakeKeyTail2(k);
        var t := k[2..];
        assert k == [k[0], k[1]] + t;
        SnakeAfterCamel(t);
        CamelCaseJoin(k[0], k[1], t);
        var u := ToUpper(k[1]);
        assert IsAsciiUpper(u) && ToLower(u) == k[1];
        SnakeCaseCons(u, CamelCase(t));
      } else {
        SnakeKeyTail(k);
        var t := k[1..];
        assert k == [k[0]] + t;
        SnakeAfterCamel(t);
        CamelCaseKeep(k[0], t);
        SnakeCaseCons(k[0], CamelCase(t));
      }
    }
  }

  /** Distinct database field names have distinct API names. */
  lemma CamelCaseInjectiveOnSnakeKeys(a: string, b: string)
    requires IsSnakeKey(a) && IsSnakeKey(b) && a != b
    ensures CamelCase(a) != CamelCase(b)
  {
    SnakeAfterCamel(a);
    SnakeAfterCamel(b);
  }

  // ---------------------------------------------------------------------
  // Objects

  /** The field values the generic mappers move around. */
  datatype Value = IdValue(oid: ObjectId) | Text(text: string) | Number(number: real) | Boolean(flag: bool) | Null

  /** A plain object: its own keys in insertion order, each with its value. */
  type Object = seq<(string, Value)>

  predicate DistinctKeys(o: Object) {
    forall i, j :: 0 <= i < j < |o| ==> o[i].0 != o[j].0
  }

  /** The keys of `o` after renaming each with `rename`. */
  function Images(o: Object, rename: string -> string): set<string> {
    set i | 0 <= i < |o| :: rename(o[i].0)
  }

  function Keys(o: Object): set<string> {
    Images(o, k => k)
  }

  lemma ImagesCons(p: (string, Value), o: Object, rename: string -> string)
    ensures Images([p] + o, rename) == {rename(p.0)} + Images(o, rename)
  {
    var w := [p] + o;
    assert w[0] == p;
    assert rename(p.0) in Images(w, rename);
    forall x | x in Images(w, rename)
      ensures x in {rename(p.0)} + Images(o, rename)
    {
      var i :| 0 <= i < |w| && rename(w[i].0) == x;
      if i == 0 {
        assert w[0] == p;
      } else {
        assert w[i] == o[i - 1];
      }
    }
    forall x | x in Images(o, rename)
      ensures x in Images(w, rename)
    {
      var i :| 0 <= i < |o| && rename(o[i].0) == x;
      assert w[i + 1] == o[i];
    }
  }

  lemma ImagesSnoc(o: Object, rename: string -> string)
    requires |o| > 0
    ensures Images(o, rename) == Images(o[..|o| - 1], rename) + {rename(o[|o| - 1].0)}
  {
    var n := |o| - 1;
    forall x | x in Images(o, rename)
      ensures x in Images(o[..n], rename) + {rename(o[n].0)}
    {
      var i :| 0 <= i < |o| && rename(o[i].0) == x;
      if i < n {
        assert o[..n][i] == o[i];
      }
    }
    forall x | x in Images(o[..n], rename)
      ensures x in Images(o, rename)
    {
      var i :| 0 <= i < n && rename(o[..n][i].0) == x;
      assert o[..n][i] == o[i];
    }
  }

  /** `o[k]`, `None` when `k` is not a key. */
  function Get(o: Object, k: string): (v: Option<Value>)
    ensures v.Some? <==> k in Keys(o)
  {
    if |o| == 0 then None
    else
      assert o == [o[0]] + o[1..];
      ImagesCons(o[0], o[1..], k => k);
      if o[0].0 == k then Some(o[0].1) else Get(o[1..], k)
  }

  /** With distinct keys, reading the key at position `i` gives the value at position `i`. */
  lemma {:induction false} GetAt(o: Object, i: int)
    requires DistinctKeys(o) && 0 <= i < |o|
    ensures Get(o, o[i].0) == Some(o[i].1)
  {
    if i > 0 {
      assert o[0].0 != o[i].0;
      assert o[1..][i - 1] == o[i];
      GetAt(o[1..], i - 1);
    }
  }

  /** `{ ...o, [k]: v }`: an existing key keeps its place and takes the new value; a new key goes last. */
  function Put(o: Object, k: string, v: Value): (r: Object)
    requires DistinctKeys(o)
    ensures DistinctKeys(r)
    ensures Keys(r) == Keys(o) + {k}
    ensures Get(r, k) == Some(v)
    ensures forall k' :: k' != k ==> Get(r, k') == Get(o, k')
    ensures k !in Keys(o) ==> r == o + [(k, v)]
  {
    if |o| == 0 then
      ImagesCons((k, v), [], k => k);
      assert [(k, v)] + [] == [(k, v)];
      [(k, v)]
    else
      assert o == [o[0]] + o[1..];
      ImagesCons(o[0], o[1..], k => k);
      if o[0].0 == k then
        assert k !in Keys(o[1..]);
        ImagesCons((k, v), o[1..], k => k);
        assert ([(k, v)] + o[1..])[1..] == o[1..];
        [(k, v)] + o[1..]
      else
        var rest := Put(o[1..], k, v);
        assert o[0].0 !in Keys(rest);
        ImagesCons(o[0], rest, k => k);
        assert ([o[0]] + rest)[1..] == rest;
        [o[0]] + rest
  }

  /**
   * The fold of `serialize` and `deSerialize`: for each key in order, the
   * accumulator takes the converted value under the renamed key.
   */
  function Fold(o: Object, rename: string -> string, conv: (string, Value) --> Value): (r: Object)
    requires forall i :: 0 <= i < |o| ==> conv.requires(o[i].0, o[i].1)
    ensures DistinctKeys(r)
    ensures Keys(r) == Images(o, rename)
    decreases |o|
  {
    if |o| == 0 then []
    else
      var n := |o| - 1;
      ImagesSnoc(o, rename);
      assert forall i :: 0 <= i < n ==> o[..n][i] == o[i];
      Put(Fold(o[..n], rename, conv), rename(o[n].0), conv(o[n].0, o[n].1))
  }

  /** No two keys of `o` are renamed to the same key. */
  predicate RenamingInjective(o: Object, rename: string -> string) {
    forall i, j :: 0 <= i < j < |o| ==> rename(o[i].0) != rename(o[j].0)
  }

  /** No key after index `i` is renamed to the same key as `o[i]`. */
  predicate LastWithImage(o: Object, i: int, rename: string -> string)
    requires 0 <= i < |o|
  {
    forall j :: i < j < |o| ==> rename(o[j].0) != rename(o[i].0)
  }

  /** One step of the fold: the fold of all but the last pair, then the last pair put in. */
  lemma FoldSnoc(init: Object, p: (string, Value), rename: string -> string, conv: (string, Value) --> Value)
    requires forall i :: 0 <= i < |init| ==> conv.requires(init[i].0, init[i].1)
    requires conv.requires(p.0, p.1)
    ensures forall i :: 0 <= i < |init + [p]| ==> conv.requires((init + [p])[i].0, (init + [p])[i].1)
    ensures Fold(init + [p], rename, conv) == Put(Fold(init, rename, conv), rename(p.0), conv(p.0, p.1))
  {
    var o := init + [p];
    assert o[..|o| - 1] == init;
  }

  /** A last pair whose renamed key is new is appended by the fold. */
  lemma FoldSnocAppends(init: Object, p: (string, Value), rename: string -> string, conv: (string, Value) --> Value)
    requires forall i :: 0 <= i < |init| ==> conv.requires(init[i].0, init[i].1)
    requires conv.requires(p.0, p.1)
    requires rename(p.0) !in Images(init, rename)
    ensures forall i :: 0 <= i < |init + [p]| ==> conv.requires((init + [p])[i].0, (init + [p])[i].1)
    ensures Fold(init + [p], rename, conv) == Fold(init, rename, conv) + [(rename(p.0), conv(p.0, p.1))]
  {
    FoldSnoc(init, p, rename, conv);
  }

  /** Dropping the last pair keeps the renaming injective, and the last renamed key is new. */
  lemma InjectiveSnoc(init: Object, p: (string, Value), rename: string -> string)
    requires RenamingInjective(init + [p], rename)
    ensures RenamingInjective(init, rename)
    ensures rename(p.0) !in Images(init, rename)
  {
    var o := init + [p];
    forall i, j | 0 <= i < j < |init|
      ensures rename(init[i].0) != rename(init[j].0)
    {
      assert init[i] == o[i] && init[j] == o[j];
    }
    forall j | 0 <= j < |init|
      ensures rename(init[j].0) != rename(p.0)
    {
      assert init[j] == o[j] && p == o[|init|];
    }
  }

  /** Dropping a later pair keeps a pair the last with its renamed key. */
  lemma LastWithImageSnoc(init: Object, p: (string, Value), rename: string -> string, i: int)
    requires 0 <= i < |init| && LastWithImage(init + [p], i, rename)
    ensures LastWithImage(init, i, rename)
    ensures rename(p.0) != rename(init[i].0)
  {
    var o := init + [p];
    assert o[i] == init[i] && o[|init|] == p;
    forall j | i < j < |init|
      ensures rename(init[j].0) != rename(init[i].0)
    {
      assert init[j] == o[j];
    }
  }

  /** When several keys are renamed alike, the value of the last one is kept. */
  lemma {:induction false} FoldLastWins(o: Object, rename: string -> string, conv: (string, Value) --> Value, i: int)
    requires forall i :: 0 <= i < |o| ==> conv.requires(o[i].0, o[i].1)
    requires 0 <= i < |o| && LastWithImage(o, i, rename)
    ensures Get(Fold(o, rename, conv), rename(o[i].0)) == Some(conv(o[i].0, o[i].1))
    decreases |o|
  {
    var n := |o| - 1;
    var init, p := o[..n], o[n];
    assert o == init + [p];
    assert forall j :: 0 <= j < n ==> init[j] == o[j];
    FoldSnoc(init, p, rename, conv);
    if i < n {
      LastWithImageSnoc(init, p, rename, i);
      FoldLastWins(init, rename, conv, i);
    }
  }

  /** Without clashes the fold renames and converts pair by pair, keeping the order. */
  lemma {:induction false} FoldPairwise(o: Object, rename: string -> string, conv: (string, Value) --> Value)
    requires forall i :: 0 <= i < |o| ==> conv.requires(o[i].0, o[i].1)
    requires RenamingInjective(o, rename)
    ensures |Fold(o, rename, conv)| == |o|
    ensures forall i :: 0 <= i < |o| ==> Fold(o, rename, conv)[i] == (rename(o[i].0), conv(o[i].0, o[i].1))
    decreases |o|
  {
    if |o| > 0 {
      var n := |o| - 1;
      var init, p := o[..n], o[n];
      assert o == init + [p];
      assert forall j :: 0 <= j < n ==> init[j] == o[j];
      InjectiveSnoc(init, p, rename);
      FoldPairwise(init, rename, conv);
      FoldSnocAppends(init, p, rename, conv);
    }
  }

  /** A property every converted value renamed to `k` has, the fold's value under `k` has too. */
  lemma {:induction false} FoldGetHolds(o: Object, rename: string -> string, conv: (string, Value) --> Value, k: string, P: Value -> bool)
    requires forall i :: 0 <= i < |o| ==> conv.requires(o[i].0, o[i].1)
    requires forall i :: 0 <= i < |o| && rename(o[i].0) == k ==> P(conv(o[i].0, o[i].1))
    ensures Get(Fold(o, rename, conv), k).Some? ==> P(Get(Fold(o, rename, conv), k).value)
    decreases |o|
  {
    if |o| > 0 {
      var n := |o| - 1;
      var init, p := o[..n], o[n];
      assert o == init + [p];
      assert forall j :: 0 <= j < n ==> init[j] == o[j];
      FoldSnoc(init, p, rename, conv);
      FoldGetHolds(init, rename, conv, k, P);
    }
  }

  /** The `id` field's value can be printed by `toString()`: an identifier or already a string. */
  predicate PrintableIds(o: Object) {
    forall i :: 0 <= i < |o| && o[i].0 == "id" ==> o[i].1.IdValue? || o[i].1.Text?
  }

  /**
   * A value `new ObjectId(..)` accepts: an identifier, 24 hexadecimal digits,
   * or null or a number, from which it makes a new identifier. A boolean or
   * any other string makes it throw.
   */
  predicate Parsable(v: Value) {
    v.IdValue? || v.Null? || v.Number? || (v.Text? && IsHexId(v.text))
  }

  /** The `id` field's value can be given to `new ObjectId(..)`. */
  predicate ParsableIds(o: Object) {
    forall i :: 0 <= i < |o| && o[i].0 == "id" ==> Parsable(o[i].1)
  }

  /** `new ObjectId(v)`: `minted` is the identifier it makes from null or a number. */
  function ParseId(v: Value, minted: ObjectId): ObjectId
    requires Parsable(v)
  {
    match v
    case IdValue(o) => o
    case Text(s) => FromString(s)
    case _ => minted
  }

  /** The value `serialize` stores for `key`: `(value as ObjectId).toString()` under `id`. */
  function SerializeValue(key: string, v: Value): Value
    requires key == "id" ==> v.IdValue? || v.Text?
  {
    if key != "id" then v
    else match v
      case IdValue(o) => Text(ToString(o))
      case Text(s) => Text(s)
  }

  /** The value `deSerialize` stores for `key`: `new ObjectId(value as string)` under `id`. */
  function DeSerializeValue(key: string, v: Value, minted: ObjectId): Value
    requires key == "id" ==> Parsable(v)
  {
    if key != "id" then v else IdValue(ParseId(v, minted))
  }

  /** `serialize`: every key camel-cased, every value kept except `id`, which is printed. */
  function SerializeObject(o: Object): (r: Object)
    requires PrintableIds(o)
    ensures DistinctKeys(r)
    ensures Keys(r) == Images(o, CamelCase)
    ensures forall i :: 0 <= i < |o| && LastWithImage(o, i, CamelCase) ==>
      Get(r, CamelCase(o[i].0)) == Some(SerializeValue(o[i].0, o[i].1))
    ensures RenamingInjective(o, CamelCase) ==>
      |r| == |o| && forall i :: 0 <= i < |o| ==> r[i] == (CamelCase(o[i].0), SerializeValue(o[i].0, o[i].1))
  {
    var r := Fold(o, CamelCase, SerializeValue);
    assert forall i :: 0 <= i < |o| && LastWithImage(o, i, CamelCase) ==>
      Get(r, CamelCase(o[i].0)) == Some(SerializeValue(o[i].0, o[i].1)) by {
      forall i | 0 <= i < |o| && LastWithImage(o, i, CamelCase)
        ensures Get(r, CamelCase(o[i].0)) == Some(SerializeValue(o[i].0, o[i].1))
      {
        FoldLastWins(o, CamelCase, SerializeValue, i);
      }
    }
    assert RenamingInjective(o, CamelCase) ==>
      |r| == |o| && forall i :: 0 <= i < |o| ==> r[i] == (CamelCase(o[i].0), SerializeValue(o[i].0, o[i].1)) by {
      if RenamingInjective(o, CamelCase) {
        FoldPairwise(o, CamelCase, SerializeValue);
      }
    }
    r
  }

  /**
   * `deSerialize`: every key snake-cased, every value kept except `id`,
   * which goes through `new ObjectId(..)`; `None` where that throws. `minted`
   * is the identifier it makes from null or a number.
   */
  function DeSerializeObject(o: Object, minted: ObjectId): (r: Option<Object>)
    ensures r.Some? <==> ParsableIds(o)
    ensures r.Some? ==> DistinctKeys(r.value) && Keys(r.value) == Images(o, SnakeCase)
    ensures r.Some? ==> forall i :: 0 <= i < |o| && LastWithImage(o, i, SnakeCase) ==>
      Get(r.value, SnakeCase(o[i].0)) == Some(DeSerializeValue(o[i].0, o[i].1, minted))
    ensures r.Some? && RenamingInjective(o, SnakeCase) ==>
      |r.value| == |o| && forall i :: 0 <= i < |o| ==> r.value[i] == (SnakeCase(o[i].0), DeSerializeValue(o[i].0, o[i].1, minted))
    ensures r.Some? ==> forall i :: 0 <= i < |r.value| && r.value[i].0 == "id" ==> r.value[i].1.IdValue?
  {
    if !ParsableIds(o) then None
    else
      DeSerializedFold(o, minted);
      Some(Fold(o, SnakeCase, DeSerializer(minted)))
  }

  /** The conversion `deSerialize` folds with. */
  function DeSerializer(minted: ObjectId): (string, Value) --> Value {
    (k: string, v: Value) requires k == "id" ==> Parsable(v) => DeSerializeValue(k, v, minted)
  }

  /** Every pair of a parsable object meets the conversion's precondition. */
  lemma DeSerializerApplies(o: Object, minted: ObjectId)
    requires ParsableIds(o)
    ensures forall i :: 0 <= i < |o| ==> DeSerializer(minted).requires(o[i].0, o[i].1)
  {
  }

  /** The facts `DeSerializeObject` states, about the fold it computes. */
  lemma DeSerializedFold(o: Object, minted: ObjectId)
    requires ParsableIds(o)
    ensures forall i :: 0 <= i < |o| ==> DeSerializer(minted).requires(o[i].0, o[i].1)
    ensures var r := Fold(o, SnakeCase, DeSerializer(minted));
      && (forall i :: 0 <= i < |o| && LastWithImage(o, i, SnakeCase) ==>
            Get(r, SnakeCase(o[i].0)) == Some(DeSerializeValue(o[i].0, o[i].1, minted)))
      && (RenamingInjective(o, SnakeCase) ==>
            |r| == |o| && forall i :: 0 <= i < |o| ==> r[i] == (SnakeCase(o[i].0), DeSerializeValue(o[i].0, o[i].1, minted)))
      && (forall i :: 0 <= i < |r| && r[i].0 == "id" ==> r[i].1.IdValue?)
  {
    DeSerializerApplies(o, minted);
    DeSerializedLastWins(o, minted);
    DeSerializedPairwise(o, minted);
    DeSerializedIds(o, minted);
  }

  lemma DeSerializedLastWins(o: Object, minted: ObjectId)
    requires ParsableIds(o)
    ensures forall i :: 0 <= i < |o| ==> DeSerializer(minted).requires(o[i].0, o[i].1)
    ensures forall i :: 0 <= i < |o| && LastWithImage(o, i, SnakeCase) ==>
      Get(Fold(o, SnakeCase, DeSerializer(minted)), SnakeCase(o[i].0)) == Some(DeSerializeValue(o[i].0, o[i].1, minted))
  {
    DeSerializerApplies(o, minted);
    forall i | 0 <= i < |o| && LastWithImage(o, i, SnakeCase)
      ensures Get(Fold(o, SnakeCase, DeSerializer(minted)), SnakeCase(o[i].0)) == Some(DeSerializeValue(o[i].0, o[i].1, minted))
    {
      FoldLastWins(o, SnakeCase, DeSerializer(minted), i);
    }
  }

  lemma DeSerializedPairwise(o: Object, minted: ObjectId)
    requires ParsableIds(o)
    ensures forall i :: 0 <= i < |o| ==> DeSerializer(minted).requires(o[i].0, o[i].1)
    ensures var r := Fold(o, SnakeCase, DeSerializer(minted));
      RenamingInjective(o, SnakeCase) ==>
        |r| == |o| && forall i :: 0 <= i < |o| ==> r[i] == (SnakeCase(o[i].0), DeSerializeValue(o[i].0, o[i].1, minted))
  {
    DeSerializerApplies(o, minted);
    if RenamingInjective(o, SnakeCase) {
      FoldPairwise(o, SnakeCase, DeSerializer(minted));
    }
  }

  lemma DeSerializedIds(o: Object, minted: ObjectId)
    requires ParsableIds(o)
    ensures forall i :: 0 <= i < |o| ==> DeSerializer(minted).requires(o[i].0, o[i].1)
    ensures var r := Fold(o, SnakeCase, DeSerializer(minted));
      forall i :: 0 <= i < |r| && r[i].0 == "id" ==> r[i].1.IdValue?
  {
    DeSerializerApplies(o, minted);
    var conv := DeSerializer(minted);
    var r := Fold(o, SnakeCase, conv);
    forall i | 0 <= i < |o| && SnakeCase(o[i].0) == "id"
      ensures conv(o[i].0, o[i].1).IdValue?
    {
      SnakeCaseToId(o[i].0);
    }
    FoldGetHolds(o, SnakeCase, conv, "id", (v: Value) => v.IdValue?);
    forall i | 0 <= i < |r| && r[i].0 == "id"
      ensures r[i].1.IdValue?
    {
      GetAt(r, i);
    }
  }

  /** A database record as stored: distinct snake_case keys, and `id`, if present, an identifier. */
  predicate IsRecord(o: Object) {
    && DistinctKeys(o)
    && (forall i :: 0 <= i < |o| ==> IsSnakeKey(o[i].0))
    && (forall i :: 0 <= i < |o| && o[i].0 == "id" ==> o[i].1.IdValue?)
  }

  /** The only database field name whose API name is `id` is `id` itself. */
  lemma IdKeyKeepsItsName(k: string)
    requires IsSnakeKey(k)
    ensures CamelCase(k) == "id" <==> k == "id"
  {
    assert NoSeparators("id");
    assert CountUpper("id") == 0 by {
      assert "id"[1..] == "d";
      assert "d"[1..] == "";
    }
    SnakeAfterCamel(k);
  }

  /** Camel-casing introduces a capital wherever it changes anything: a result without capitals is the input. */
  lemma {:induction false} CamelCaseWithoutCapitals(s: string)
    ensures (forall i :: 0 <= i < |CamelCase(s)| ==> !IsAsciiUpper(CamelCase(s)[i])) ==> CamelCase(s) == s
    decreases |s|
  {
    if |s| > 0 {
      var r := CamelCase(s);
      if |s| >= 2 && IsSeparator(s[0]) && IsAsciiLetter(s[1]) {
        assert IsAsciiUpper(r[0]);
      } else {
        CamelCaseWithoutCapitals(s[1..]);
        assert r[1..] == CamelCase(s[1..]);
        assert s == [s[0]] + s[1..];
      }
    }
  }

  /** Only `id` itself is camel-cased to `id`. */
  lemma CamelCaseToId(s: string)
    ensures CamelCase(s) == "id" <==> s == "id"
  {
    CamelCaseWithoutCapitals(s);
    assert NoSeparators("id");
  }

  /** Only `id` itself is snake-cased to `id`. */
  lemma SnakeCaseToId(s: string)
    ensures SnakeCase(s) == "id" <==> s == "id"
  {
    assert CountUpper("id") == 0 by {
      assert "id"[1..] == "d";
      assert "d"[1..] == "";
    }
    if SnakeCase(s) == "id" {
      assert SnakeCase(s) == SnakeChar(s[0]) + SnakeCase(s[1..]);
      assert !IsAsciiUpper(s[0]);
      var t := s[1..];
      assert SnakeCase(t) == "d";
      assert SnakeCase(t) == SnakeChar(t[0]) + SnakeCase(t[1..]);
      assert !IsAsciiUpper(t[0]);
      assert |t[1..]| == 0;
      assert s == [s[0], t[0]];
    }
  }

  /** Serializing a record renames it pair by pair into API names that snake-case back. */
  lemma SerializedRecord(o: Object)
    requires IsRecord(o)
    ensures PrintableIds(o)
    ensures RenamingInjective(o, CamelCase)
    ensures |SerializeObject(o)| == |o|
    ensures forall i :: 0 <= i < |o| ==> SerializeObject(o)[i] == (CamelCase(o[i].0), SerializeValue(o[i].0, o[i].1))
    ensures forall i :: 0 <= i < |o| ==> SnakeCase(CamelCase(o[i].0)) == o[i].0
    ensures forall i :: 0 <= i < |o| ==> (CamelCase(o[i].0) == "id" <==> o[i].0 == "id")
  {
    forall i, j | 0 <= i < j < |o|
      ensures CamelCase(o[i].0) != CamelCase(o[j].0)
    {
      CamelCaseInjectiveOnSnakeKeys(o[i].0, o[j].0);
    }
    forall i | 0 <= i < |o|
      ensures SnakeCase(CamelCase(o[i].0)) == o[i].0
      ensures CamelCase(o[i].0) == "id" <==> o[i].0 == "id"
    {
      SnakeAfterCamel(o[i].0);
      IdKeyKeepsItsName(o[i].0);
    }
  }

  /** `deSerialize(serialize(o)) == o` for every database record, whatever identifier it could make. */
  lemma {:induction false} RecordRoundTrip(o: Object, minted: ObjectId)
    requires IsRecord(o)
    ensures PrintableIds(o)
    ensures DeSerializeObject(SerializeObject(o), minted) == Some(o)
  {
    SerializedRecord(o);
    var s := SerializeObject(o);
    SerializedRecordParses(o);
    var d := DeSerializeObject(s, minted).value;
    assert |d| == |o|;
    forall i | 0 <= i < |o|
      ensures d[i] == o[i]
    {
      assert d[i] == (SnakeCase(s[i].0), DeSerializeValue(s[i].0, s[i].1, minted));
      if o[i].0 == "id" {
        assert s[i].1 == Text(ToString(o[i].1.oid));
      }
    }
    assert d == o;
  }

  /** A serialized record gives `deSerialize` a printed `id` and API names that snake-case back without clashes. */
  lemma SerializedRecordParses(o: Object)
    requires IsRecord(o)
    ensures PrintableIds(o)
    ensures ParsableIds(SerializeObject(o))
    ensures RenamingInjective(SerializeObject(o), SnakeCase)
  {
    SerializedRecord(o);
    var s := SerializeObject(o);
    forall i | 0 <= i < |s| && s[i].0 == "id"
      ensures s[i].1.Text? && IsHexId(s[i].1.text)
    {
      assert o[i].0 == "id";
    }
    forall i, j | 0 <= i < j < |s|
      ensures SnakeCase(s[i].0) != SnakeCase(s[j].0)
    {
      assert SnakeCase(s[i].0) == o[i].0 && SnakeCase(s[j].0) == o[j].0;
    }
  }

  /** `serializes`: `serialize` on every element, in order. */
  function SerializeObjects(os: seq<Object>): (r: seq<Object>)
    requires forall i :: 0 <= i < |os| ==> PrintableIds(os[i])
    ensures |r| == |os|
    ensures forall i :: 0 <= i < |os| ==> r[i] == SerializeObject(os[i])
  {
    seq(|os|, i requires 0 <= i < |os| => SerializeObject(os[i]))
  }

  /**
   * `deSerializes`: `deSerialize` on every element, in order, the `i`-th
   * making `minted(i)` where it makes an identifier; `None` when any of them
   * throws.
   */
  function DeSerializeObjects(os: seq<Object>, minted: nat -> ObjectId): (r: Option<seq<Object>>)
    ensures r.Some? <==> forall i :: 0 <= i < |os| ==> ParsableIds(os[i])
    ensures r.Some? ==> |r.value| == |os|
    ensures r.Some? ==> forall i :: 0 <= i < |os| ==> DeSerializeObject(os[i], minted(i)) == Some(r.value[i])
  {
    if forall i :: 0 <= i < |os| ==> ParsableIds(os[i]) then
      Some(seq(|os|, i requires 0 <= i < |os| => DeSerializeObject(os[i], minted(i)).value))
    else None
  }

  /** The list mappers compose to the identity on database records. */
  lemma RecordsRoundTrip(os: seq<Object>, minted: nat -> ObjectId)
    requires forall i :: 0 <= i < |os| ==> IsRecord(os[i])
    ensures forall i :: 0 <= i < |os| ==> PrintableIds(os[i])
    ensures DeSerializeObjects(SerializeObjects(os), minted) == Some(os)
  {
    forall i | 0 <= i < |os|
      ensures PrintableIds(os[i])
      ensures DeSerializeObject(SerializeObject(os[i]), minted(i)) == Some(os[i])
    {
      RecordRoundTrip(os[i], minted(i));
    }
    var r := DeSerializeObjects(SerializeObjects(os), minted);
    assert r.Some?;
    assert r.value == os;
  }
}
