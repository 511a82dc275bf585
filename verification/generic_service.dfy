/**
 * The generic CRUD service (src/shared/service.ts) over one collection of
 * plain records, each carrying its identifier under `_id`. Payloads and
 * answers go through the generic key-renaming mappers.
 */
module GenericService {
  import opened Options
  import opened ObjectIds
  import opened Errors
  import opened IdValidation
  import opened Stores
  import opened Sorting
  import opened Sequences
  import opened Serialize

  const IdField: string := "_id"

  /**
   * A stored record: distinct keys, among them `_id`, which holds an
   * identifier; an `id` field, if any, holds something `toString()` prints.
   */
  predicate Stored(o: Object) {
    && DistinctKeys(o)
    && IdField in Keys(o)
    && (forall i :: 0 <= i < |o| && o[i].0 == IdField ==> o[i].1.IdValue?)
    && PrintableIds(o)
  }

  predicate StoreShaped(store: seq<Object>) {
    forall i :: 0 <= i < |store| ==> Stored(store[i])
  }

  /** A stored record's `_id` reads as an identifier, and its `id`, if any, as something printable. */
  lemma StoredId(o: Object)
    requires Stored(o)
    ensures Get(o, IdField).Some? && Get(o, IdField).value.IdValue?
    ensures Get(o, "id").Some? ==> Get(o, "id").value.IdValue? || Get(o, "id").value.Text?
  {
    var k :| 0 <= k < |o| && o[k].0 == IdField;
    GetAt(o, k);
    if k' :| 0 <= k' < |o| && o[k'].0 == "id" {
      GetAt(o, k');
    }
  }

  /** A record with distinct keys whose `_id` and `id` read as `Stored` asks is a stored record. */
  lemma StoredByGet(o: Object)
    requires DistinctKeys(o) && Get(o, IdField).Some? && Get(o, IdField).value.IdValue?
    requires Get(o, "id").Some? ==> Get(o, "id").value.IdValue? || Get(o, "id").value.Text?
    ensures Stored(o)
  {
    forall i | 0 <= i < |o| && (o[i].0 == IdField || o[i].0 == "id")
      ensures o[i].0 == IdField ==> o[i].1.IdValue?
      ensures o[i].0 == "id" ==> o[i].1.IdValue? || o[i].1.Text?
    {
      GetAt(o, i);
    }
  }

  /** The printed identifier a record is found by. */
  function RecordKey(o: Object): string {
    match Get(o, IdField)
    case Some(IdValue(oid)) => ToString(oid)
    case _ => ""
  }

  /** `camelCase` turns `_id` into `Id`. */
  lemma IdFieldRenamed()
    ensures CamelCase(IdField) == "Id"
  {
    assert IdField == ['_', 'i'] + "d";
    CamelCaseJoin('_', 'i', "d");
  }

  /** No field but `_id` takes the API name `Id`. */
  predicate IdNamedOnce(o: Object) {
    forall i :: 0 <= i < |o| && o[i].0 != IdField ==> CamelCase(o[i].0) != "Id"
  }

  // ---------------------------------------------------------------------
  // find

  const UpdatedAtField: string := "updated_at"

  /** The sort key of `find`: the record's `updated_at`; a record without one sorts first. */
  function UpdatedAtKey(o: Object): SortKey {
    match Get(o, UpdatedAtField)
    case Some(Number(n)) => Present(n)
    case _ => Absent
  }

  /** `sort === 'desc' ? -1 : 1`: descending exactly for "desc". */
  function SortDirection(sort: string): (d: Direction)
    ensures d == Desc <==> sort == "desc"
  {
    if sort == "desc" then Desc else Asc
  }

  /** The stored records in `updated_at` order, as the query returns them. */
  function Sorted(store: seq<Object>, sort: string): (r: seq<Object>)
    requires StoreShaped(store)
    ensures StoreShaped(r)
    ensures multiset(r) == multiset(store)
    ensures SortedBy(r, UpdatedAtKey, SortDirection(sort))
  {
    var r := SortBy(store, UpdatedAtKey, SortDirection(sort));
    assert StoreShaped(r) by {
      forall i | 0 <= i < |r|
        ensures Stored(r[i])
      {
        PermutationKeepsMembers(r, store, r[i]);
      }
    }
    r
  }

  /** `serialize` as a value, for mapping over lists. */
  const Serializer: Object --> Object := o requires PrintableIds(o) => SerializeObject(o)

  lemma SerializeAsMap(os: seq<Object>)
    requires StoreShaped(os)
    ensures SerializeObjects(os) == Map(os, Serializer)
  {
  }

  /** The decimal digits of `n`: the key JavaScript gives the `n`-th element of an array. */
  function Decimal(n: nat): (r: string)
    ensures |r| > 0
    ensures forall i :: 0 <= i < |r| ==> '0' <= r[i] <= '9'
  {
    if n < 10 then [('0' as int + n) as char] else Decimal(n / 10) + [('0' as int + n % 10) as char]
  }

  /**
   * `find` as written: it hands the whole array to `serialize`, which folds
   * over the array's own keys "0", "1", ..., so the answer is an object whose
   * entries are the raw records under their positions.
   */
  function FindAsWritten(store: seq<Object>, sort: string): (r: seq<(string, Object)>)
    requires StoreShaped(store)
    ensures |r| == |store|
    ensures forall i :: 0 <= i < |r| ==> r[i] == (Decimal(i), Sorted(store, sort)[i])
    ensures forall i :: 0 <= i < |r| ==> CamelCase(r[i].0) == r[i].0 && r[i].0 != "id"
  {
    var sorted := Sorted(store, sort);
    forall i: nat | i < |sorted|
      ensures CamelCase(Decimal(i)) == Decimal(i) && Decimal(i) != "id"
    {
      DecimalKeyUnchanged(i);
    }
    seq(|sorted|, i requires 0 <= i < |sorted| => (Decimal(i), sorted[i]))
  }

  /**
   * An array position is a string of digits: `camelCase` leaves it as it is
   * and it is not `id`, so the fold of `serialize` neither renames it nor
   * converts its value.
   */
  lemma DecimalKeyUnchanged(n: nat)
    ensures CamelCase(Decimal(n)) == Decimal(n) && Decimal(n) != "id"
  {
    assert NoSeparators(Decimal(n));
    assert Decimal(n)[0] != 'i';
  }

  /** `find` as intended (`serializes`): every stored record in `updated_at` order, each through `serialize`. */
  function Find(store: seq<Object>, sort: string): (r: seq<Object>)
    requires StoreShaped(store)
    ensures |r| == |store|
    ensures multiset(r) == multiset(SerializeObjects(store))
  {
    var sorted := Sorted(store, sort);
    MapPermutation(sorted, store, Serializer);
    SerializeAsMap(sorted);
    SerializeAsMap(store);
    SerializeObjects(sorted)
  }

  /** `serialize` turns `updated_at` into `updatedAt`. */
  lemma UpdatedAtRenamed()
    ensures CamelCase(UpdatedAtField) == "updatedAt"
  {
    UpdatedAtSplit();
    CamelCaseOneSeparator("updated", 'a', "t");
    UpdatedAtJoin();
  }

  lemma UpdatedAtSplit()
    ensures UpdatedAtField == "updated" + ['_', 'a'] + "t"
    ensures NoSeparators("updated") && IsAsciiLetter('a') && NoSeparators("t")
  {
  }

  lemma UpdatedAtJoin()
    ensures "updated" + [ToUpper('a')] + "t" == "updatedAt"
  {
  }

  lemma UpdatedAtIsSnakeKey()
    ensures IsSnakeKey(UpdatedAtField)
  {
  }

  /** The API sort key: the answer's `updatedAt`. */
  function ApiUpdatedAtKey(o: Object): SortKey {
    match Get(o, "updatedAt")
    case Some(Number(n)) => Present(n)
    case _ => Absent
  }

  /** On a record, `serialize` moves `updated_at` to `updatedAt` and keeps its value. */
  lemma SerializedUpdatedAt(o: Object)
    requires IsRecord(o)
    ensures PrintableIds(o)
    ensures ApiUpdatedAtKey(SerializeObject(o)) == UpdatedAtKey(o)
  {
    if k :| 0 <= k < |o| && o[k].0 == UpdatedAtField {
      UpdatedAtPresent(o, k);
    } else {
      UpdatedAtAbsent(o);
    }
  }

  lemma UpdatedAtPresent(o: Object, k: int)
    requires IsRecord(o)
    requires 0 <= k < |o| && o[k].0 == UpdatedAtField
    ensures PrintableIds(o)
    ensures Get(SerializeObject(o), "updatedAt") == Get(o, UpdatedAtField)
  {
    SerializedRecord(o);
    UpdatedAtRenamed();
    GetAt(o, k);
    GetAt(SerializeObject(o), k);
  }

  lemma UpdatedAtAbsent(o: Object)
    requires IsRecord(o)
    requires forall k :: 0 <= k < |o| ==> o[k].0 != UpdatedAtField
    ensures PrintableIds(o)
    ensures Get(SerializeObject(o), "updatedAt") == None
    ensures Get(o, UpdatedAtField) == None
  {
    SerializedRecord(o);
    UpdatedAtRenamed();
    UpdatedAtIsSnakeKey();
    var r := SerializeObject(o);
    forall k | 0 <= k < |r|
      ensures r[k].0 != "updatedAt"
    {
      CamelCaseInjectiveOnSnakeKeys(o[k].0, UpdatedAtField);
    }
  }

  /** The records `find` answers with come in `updated_at` order: descending exactly when asked for "desc". */
  lemma FindOrdered(store: seq<Object>, sort: string)
    requires StoreShaped(store)
    requires forall i :: 0 <= i < |store| ==> IsRecord(store[i])
    ensures var r := Find(store, sort);
      forall i, j :: 0 <= i < j < |r| ==> InOrder(ApiUpdatedAtKey(r[i]), ApiUpdatedAtKey(r[j]), SortDirection(sort))
  {
    var sorted := Sorted(store, sort);
    var r := Find(store, sort);
    forall i | 0 <= i < |sorted|
      ensures ApiUpdatedAtKey(r[i]) == UpdatedAtKey(sorted[i])
    {
      PermutationKeepsMembers(sorted, store, sorted[i]);
      SerializedUpdatedAt(sorted[i]);
    }
  }

  const IsAlcoholField: string := "is_alcohol"

  /** `serialize` turns `is_alcohol` into `isAlcohol`. */
  lemma IsAlcoholRenamed()
    ensures CamelCase(IsAlcoholField) == "isAlcohol"
  {
    IsAlcoholSplit();
    CamelCaseOneSeparator("is", 'a', "lcohol");
    IsAlcoholJoin();
  }

  lemma IsAlcoholSplit()
    ensures IsAlcoholField == "is" + ['_', 'a'] + "lcohol"
    ensures NoSeparators("is") && IsAsciiLetter('a') && NoSeparators("lcohol")
  {
  }

  lemma IsAlcoholJoin()
    ensures "is" + [ToUpper('a')] + "lcohol" == "isAlcohol"
  {
  }

  lemma IsAlcoholIsSnakeKey()
    ensures IsSnakeKey(IsAlcoholField)
  {
  }

  /** The two-field record of the discrepancy below, and its serialized form. */
  lemma SerializedSample(x: ObjectId)
    ensures var rec: Object := [(IdField, IdValue(x)), (IsAlcoholField, Boolean(true))];
      && Stored(rec)
      && SerializeObject(rec) == [("Id", IdValue(x)), ("isAlcohol", Boolean(true))]
  {
    var rec: Object := [(IdField, IdValue(x)), (IsAlcoholField, Boolean(true))];
    SampleIsRecord(x);
    SerializedRecord(rec);
    IsAlcoholRenamed();
    IdFieldRenamed();
    var r := SerializeObject(rec);
    assert r[0] == ("Id", IdValue(x));
    assert r[1] == ("isAlcohol", Boolean(true));
  }

  lemma SampleIsRecord(x: ObjectId)
    ensures var rec: Object := [(IdField, IdValue(x)), (IsAlcoholField, Boolean(true))];
      IsRecord(rec) && Stored(rec)
  {
    var rec: Object := [(IdField, IdValue(x)), (IsAlcoholField, Boolean(true))];
    IsAlcoholIsSnakeKey();
    assert IsSnakeKey(IdField);
    assert rec[0].0 == IdField && rec[1].0 == IsAlcoholField;
    assert IdField in Keys(rec);
  }

  /**
   * The discrepancy: on a one-record store the written `find` answers the
   * raw record under key "0", with its database field name `is_alcohol`,
   * where `serializes` answers the renamed record.
   */
  lemma FindAsWrittenLeaksRawRecords(x: ObjectId)
    ensures var rec: Object := [(IdField, IdValue(x)), (IsAlcoholField, Boolean(true))];
      && StoreShaped([rec])
      && FindAsWritten([rec], "asc") == [("0", rec)]
      && Find([rec], "asc") == [[("Id", IdValue(x)), ("isAlcohol", Boolean(true))]]
  {
    var rec: Object := [(IdField, IdValue(x)), (IsAlcoholField, Boolean(true))];
    SerializedSample(x);
    var sorted := Sorted([rec], "asc");
    PermutationKeepsMembers(sorted, [rec], sorted[0]);
    assert sorted == [rec];
    assert Decimal(0) == "0";
  }

  // ---------------------------------------------------------------------
  // findById

  /**
   * `findById`: an identifier the validator refuses (empty, or not 24 UTF-16
   * units long) is incorrect input; one the identifier cast refuses throws;
   * an unknown one is not found; a found record is answered through
   * `serialize`, which leaves its `_id` unprinted under `Id`.
   */
  function FindById(store: seq<Object>, id: string): (r: Reply<Object>)
    requires StoreShaped(store)
    ensures IdRejection(id).Some? ==> r == Err(NewIncorrectInputError(IdRejection(id).value, ErrIncorrectInput))
    ensures IdRejection(id).None? && !IsHexId(id) ==> r == Thrown
    ensures IsHexId(id) && Lookup(store, RecordKey, CastId(id).value).None? ==>
      r == Err(NewNotFoundError("Data not found", ErrDataNotFound))
    ensures r.Ok? <==> IsHexId(id) && Lookup(store, RecordKey, CastId(id).value).Some?
    ensures r.Ok? ==>
      var found := Lookup(store, RecordKey, CastId(id).value).value;
      && Stored(found) && Get(found, IdField) == Some(IdValue(FromString(id)))
      && r.value == SerializeObject(found)
    ensures r.Ok? && IdNamedOnce(Lookup(store, RecordKey, CastId(id).value).value) ==>
      Get(r.value, "Id") == Some(IdValue(FromString(id)))
  {
    if IdRejection(id).Some? then Err(NewIncorrectInputError(IdRejection(id).value, ErrIncorrectInput))
    else if !IsHexId(id) then Thrown
    else
      match IndexOf(store, RecordKey, CastId(id).value)
      case None => Err(NewNotFoundError("Data not found", ErrDataNotFound))
      case Some(i) =>
        KeyedBy(store[i], id);
        assert IdNamedOnce(store[i]) ==> Get(SerializeObject(store[i]), "Id") == Get(store[i], IdField) by {
          if IdNamedOnce(store[i]) {
            SerializedIdField(store[i]);
          }
        }
        Ok(SerializeObject(store[i]))
  }

  /** A stored record found by the cast of `id` holds that identifier in `_id`. */
  lemma KeyedBy(o: Object, id: string)
    requires Stored(o) && IsHexId(id) && RecordKey(o) == CastId(id).value
    ensures Get(o, IdField) == Some(IdValue(FromString(id)))
  {
    StoredId(o);
  }

  /** Where only `_id` takes the API name `Id`, `serialize` keeps its identifier there, unprinted. */
  lemma SerializedIdField(o: Object)
    requires Stored(o) && IdNamedOnce(o)
    ensures Get(SerializeObject(o), "Id") == Get(o, IdField)
  {
    var k :| 0 <= k < |o| && o[k].0 == IdField;
    GetAt(o, k);
    IdFieldRenamed();
    assert LastWithImage(o, k, CamelCase);
  }

  /**
   * As written, `serialize` prints only a key named `id`; a database
   * document has `_id`, so its identifier comes out unprinted under `Id`
   * and the answer has no `id` at all.
   */
  lemma IdLeftUnprinted(o: Object)
    requires Stored(o) && IdNamedOnce(o) && "id" !in Keys(o)
    ensures Get(SerializeObject(o), "Id") == Get(o, IdField)
    ensures Get(o, IdField).Some? && Get(o, IdField).value.IdValue?
    ensures Get(SerializeObject(o), "id") == None
  {
    SerializedIdField(o);
    StoredId(o);
    if "id" in Images(o, CamelCase) {
      var i :| 0 <= i < |o| && CamelCase(o[i].0) == "id";
      CamelCaseToId(o[i].0);
    }
  }

  /** The API name the per-model mappers give a document field: `_id` becomes `id`, every other key is camel-cased. */
  function DocumentKey(k: string): string {
    if k == IdField then "id" else CamelCase(k)
  }

  /** The value under it: the identifier under `_id` or `id` printed, every other value kept. */
  function DocumentValue(k: string, v: Value): Value
    requires k == IdField || k == "id" ==> v.IdValue? || v.Text?
  {
    if k != IdField && k != "id" then v
    else match v
      case IdValue(o) => Text(ToString(o))
      case Text(s) => Text(s)
  }

  /**
   * `serialize` as evidently intended for documents: the identifier `_id`
   * printed under `id`, as the per-model mappers (`serializeIngredient` and
   * the others) answer it.
   */
  function SerializeDocument(o: Object): (r: Object)
    requires Stored(o)
    ensures DistinctKeys(r) && Keys(r) == Images(o, DocumentKey)
    ensures "id" !in Keys(o) ==> Get(r, "id") == Some(Text(RecordKey(o)))
  {
    var r := Fold(o, DocumentKey, DocumentValue);
    assert "id" !in Keys(o) ==> Get(r, "id") == Some(Text(RecordKey(o))) by {
      if "id" !in Keys(o) {
        DocumentIdPrinted(o);
      }
    }
    r
  }

  lemma DocumentIdPrinted(o: Object)
    requires Stored(o) && "id" !in Keys(o)
    ensures Get(Fold(o, DocumentKey, DocumentValue), "id") == Some(Text(RecordKey(o)))
  {
    var k :| 0 <= k < |o| && o[k].0 == IdField;
    GetAt(o, k);
    forall j | k < j < |o|
      ensures DocumentKey(o[j].0) != "id"
    {
      CamelCaseToId(o[j].0);
      assert o[j].0 != "id" by {
        assert o[j].0 in Keys(o);
      }
    }
    assert LastWithImage(o, k, DocumentKey);
    FoldLastWins(o, DocumentKey, DocumentValue, k);
  }

  /**
   * With the corrected mapper the answer's `id` is the record's printed
   * identifier, and `findById` of it finds the record again.
   */
  lemma DocumentIdFindable(store: seq<Object>, i: nat)
    requires StoreShaped(store) && i < |store| && "id" !in Keys(store[i])
    requires forall j :: 0 <= j < i ==> RecordKey(store[j]) != RecordKey(store[i])
    ensures Get(SerializeDocument(store[i]), "id") == Some(Text(RecordKey(store[i])))
    ensures FindById(store, RecordKey(store[i])) == Ok(SerializeObject(store[i]))
  {
    StoredId(store[i]);
    FoundAt(store, RecordKey(store[i]), i);
  }

  // ---------------------------------------------------------------------
  // create, update, delete

  datatype Outcome<T> = Outcome(reply: Reply<T>, store: seq<Object>)

  /**
   * The identifier Mongoose saves a new record under: the payload's own
   * `_id`, cast (an identifier, or 24 hexadecimal digits), or `minted` when
   * the payload has none. `None` when the cast fails, which `save()` reports
   * by throwing.
   */
  function NewRecordId(d: Object, minted: ObjectId): (r: Option<ObjectId>)
    ensures Get(d, IdField).None? ==> r == Some(minted)
    ensures Get(d, IdField).Some? ==>
      (r.Some? <==> Get(d, IdField).value.IdValue? || (Get(d, IdField).value.Text? && IsHexId(Get(d, IdField).value.text)))
    ensures forall o: ObjectId :: Get(d, IdField) == Some(IdValue(o)) || Get(d, IdField) == Some(Text(ToString(o))) ==> r == Some(o)
  {
    match Get(d, IdField)
    case None => Some(minted)
    case Some(IdValue(o)) => Some(o)
    case Some(Text(s)) => if IsHexId(s) then Some(FromString(s)) else None
    case Some(_) => None
  }

  /** With distinct keys, an `id` held only as identifiers reads as an identifier. */
  lemma IdReadsAsIdentifier(d: Object)
    requires DistinctKeys(d)
    requires forall i :: 0 <= i < |d| && d[i].0 == "id" ==> d[i].1.IdValue?
    ensures Get(d, "id").Some? ==> Get(d, "id").value.IdValue?
  {
    if Get(d, "id").Some? {
      var i :| 0 <= i < |d| && d[i].0 == "id";
      GetAt(d, i);
    }
  }

  /**
   * The record `create` saves: the deserialized payload, its `id` made with
   * `mint(1)` where `new ObjectId` makes one, with `_id` set, to `mint(0)`
   * where the payload has none. `None` where `deSerialize` throws or the
   * `_id` cast fails.
   */
  function NewRecord(data: Object, mint: nat -> ObjectId): (r: Option<Object>)
    ensures r.Some? <==> ParsableIds(data) && NewRecordId(DeSerializeObject(data, mint(1)).value, mint(0)).Some?
    ensures r.Some? ==> Stored(r.value)
    ensures r.Some? ==>
      var d := DeSerializeObject(data, mint(1)).value;
      && Get(r.value, IdField) == Some(IdValue(NewRecordId(d, mint(0)).value))
      && (forall k :: k != IdField ==> Get(r.value, k) == Get(d, k))
  {
    match DeSerializeObject(data, mint(1))
    case None => None
    case Some(d) =>
      match NewRecordId(d, mint(0))
      case None => None
      case Some(oid) =>
        var record := Put(d, IdField, IdValue(oid));
        IdReadsAsIdentifier(d);
        StoredByGet(record);
        Some(record)
  }

  /**
   * `create`. `rejection` is the payload validator's first message, if it
   * rejects the payload; `mint` supplies the identifiers made on the way.
   * `deSerialize` throws on an `id` `new ObjectId` refuses, and `save()`
   * throws when the `_id` cast fails or the `_id` is already taken.
   */
  function Create(store: seq<Object>, data: Object, rejection: Option<string>, mint: nat -> ObjectId): (out: Outcome<Object>)
    requires StoreShaped(store)
    ensures StoreShaped(out.store)
    ensures rejection.Some? ==> out == Outcome(Err(NewIncorrectInputError(rejection.value, ErrIncorrectInput)), store)
    ensures rejection.None? && NewRecord(data, mint).None? ==> out == Outcome(Thrown, store)
    ensures rejection.None? && NewRecord(data, mint).Some? && IndexOf(store, RecordKey, RecordKey(NewRecord(data, mint).value)).Some? ==>
      out == Outcome(Thrown, store)
    ensures out.reply.Ok? <==>
      rejection.None? && NewRecord(data, mint).Some? &&
      IndexOf(store, RecordKey, RecordKey(NewRecord(data, mint).value)).None?
    ensures out.reply.Ok? ==>
      && out.store == store + [NewRecord(data, mint).value]
      && out.reply.value == SerializeObject(out.store[|store|])
    ensures out.reply.Ok? && Get(DeSerializeObject(data, mint(1)).value, IdField).None? ==>
      Get(out.store[|store|], IdField) == Some(IdValue(mint(0)))
    ensures out.reply.Ok? && IdNamedOnce(out.store[|store|]) ==>
      Get(out.reply.value, "Id") == Get(out.store[|store|], IdField)
  {
    if rejection.Some? then Outcome(Err(NewIncorrectInputError(rejection.value, ErrIncorrectInput)), store)
    else
      match NewRecord(data, mint)
      case None => Outcome(Thrown, store)
      case Some(record) =>
        if IndexOf(store, RecordKey, RecordKey(record)).Some? then Outcome(Thrown, store)
        else
          AppendShaped(store, record);
          assert IdNamedOnce(record) ==> Get(SerializeObject(record), "Id") == Get(record, IdField) by {
            if IdNamedOnce(record) {
              SerializedIdField(record);
            }
          }
          Outcome(Ok(SerializeObject(record)), store + [record])
  }

  /** A created record is found under its identifier, and `findById` answers what `create` answered. */
  lemma CreateThenFindById(store: seq<Object>, data: Object, mint: nat -> ObjectId)
    requires StoreShaped(store)
    requires Create(store, data, None, mint).reply.Ok?
    ensures var out := Create(store, data, None, mint);
      |out.store| == |store| + 1 && FindById(out.store, RecordKey(out.store[|store|])) == out.reply
  {
    var out := Create(store, data, None, mint);
    var record := out.store[|store|];
    StoredId(record);
    IndexOfAppended(store, record, RecordKey, RecordKey(record));
    FoundAt(out.store, RecordKey(record), |store|);
  }

  lemma AppendShaped(store: seq<Object>, record: Object)
    requires StoreShaped(store) && Stored(record)
    ensures StoreShaped(store + [record])
  {
    var r := store + [record];
    forall j | 0 <= j < |r|
      ensures Stored(r[j])
    {
      if j < |store| {
        assert r[j] == store[j];
      }
    }
  }

  lemma ReplaceShaped(store: seq<Object>, i: nat, record: Object)
    requires StoreShaped(store) && Stored(record) && i < |store|
    ensures StoreShaped(Replace(store, i, record))
  {
    var r := Replace(store, i, record);
    forall j | 0 <= j < |r|
      ensures Stored(r[j])
    {
      if j != i {
        assert r[j] == store[j];
      }
    }
  }

  /** A created record holds each payload field other than the identifiers under its snake_case name, unchanged. */
  lemma CreatedFields(store: seq<Object>, data: Object, mint: nat -> ObjectId, i: int)
    requires StoreShaped(store)
    requires Create(store, data, None, mint).reply.Ok?
    requires 0 <= i < |data| && LastWithImage(data, i, SnakeCase)
    requires SnakeCase(data[i].0) != "id" && SnakeCase(data[i].0) != IdField
    ensures var out := Create(store, data, None, mint);
      Get(out.store[|store|], SnakeCase(data[i].0)) == Some(data[i].1)
  {
    SnakeCaseToId(data[i].0);
  }

  /** `o` without key `k`: what assigning `undefined` to a field does to the saved record. */
  function Remove(o: Object, k: string): (r: Object)
    requires DistinctKeys(o)
    ensures DistinctKeys(r)
    ensures Keys(r) == Keys(o) - {k}
    ensures Get(r, k) == None
    ensures forall k' :: k' != k ==> Get(r, k') == Get(o, k')
  {
    if |o| == 0 then o
    else
      assert o == [o[0]] + o[1..];
      ImagesCons(o[0], o[1..], x => x);
      var rest := Remove(o[1..], k);
      if o[0].0 == k then rest
      else
        assert o[0].0 !in Keys(o[1..]);
        ImagesCons(o[0], rest, x => x);
        assert ([o[0]] + rest)[1..] == rest;
        [o[0]] + rest
  }

  /** Sets field `k` to `v`, or removes it when `v` is absent. */
  function Assign(o: Object, k: string, v: Option<Value>): (r: Object)
    requires DistinctKeys(o)
    ensures DistinctKeys(r)
    ensures Get(r, k) == v
    ensures forall k' :: k' != k ==> Get(r, k') == Get(o, k')
  {
    if v.Some? then Put(o, k, v.value) else Remove(o, k)
  }

  /** Assigns each of `fields` in turn from `d`: afterwards those fields read as in `d`, every other as in `o`. */
  function AssignAll(o: Object, d: Object, fields: seq<string>): (r: Object)
    requires DistinctKeys(o)
    ensures DistinctKeys(r)
    ensures forall k :: k in fields ==> Get(r, k) == Get(d, k)
    ensures forall k :: k !in fields ==> Get(r, k) == Get(o, k)
    decreases |fields|
  {
    if |fields| == 0 then o
    else
      var r := AssignAll(Assign(o, fields[0], Get(d, fields[0])), d, fields[1..]);
      assert forall k :: k in fields ==> k == fields[0] || k in fields[1..];
      r
  }

  /** The four fields `update` assigns. */
  const UpdatedFields: seq<string> := ["name", "is_alcohol", "alcohol_degree", "viscosity"]

  /**
   * `update(id, data)`: validation, then the lookup, then `deSerialize`
   * (`minted` is the identifier `new ObjectId` makes from a null or numeric
   * `id`), then the four fields `name`, `is_alcohol`, `alcohol_degree` and
   * `viscosity` of the record are set from the deserialized payload, or
   * removed where the payload has none.
   */
  function Update(store: seq<Object>, id: string, data: Object, rejection: Option<string>, minted: ObjectId): (out: Outcome<Object>)
    requires StoreShaped(store)
    ensures StoreShaped(out.store)
    ensures rejection.Some? ==> out == Outcome(Err(NewIncorrectInputError(rejection.value, ErrIncorrectInput)), store)
    ensures rejection.None? && !IsHexId(id) ==> out == Outcome(Thrown, store)
    ensures rejection.None? && IsHexId(id) && IndexOf(store, RecordKey, CastId(id).value).None? ==>
      out == Outcome(Err(NewNotFoundError("Data not found", ErrIngredientNotFound)), store)
    ensures rejection.None? && IsHexId(id) && IndexOf(store, RecordKey, CastId(id).value).Some? && !ParsableIds(data) ==>
      out == Outcome(Thrown, store)
    ensures out.reply.Ok? <==>
      rejection.None? && IsHexId(id) && IndexOf(store, RecordKey, CastId(id).value).Some? && ParsableIds(data)
    ensures |out.store| == |store| && forall j :: 0 <= j < |store| ==> RecordKey(out.store[j]) == RecordKey(store[j])
    ensures out.reply.Ok? ==>
      var i := IndexOf(store, RecordKey, CastId(id).value).value;
      var d := DeSerializeObject(data, minted).value;
      && (forall j :: 0 <= j < |store| && j != i ==> out.store[j] == store[j])
      && (forall k :: k in UpdatedFields ==> Get(out.store[i], k) == Get(d, k))
      && (forall k :: k !in UpdatedFields ==> Get(out.store[i], k) == Get(store[i], k))
      && out.reply.value == SerializeObject(out.store[i])
  {
    if rejection.Some? then Outcome(Err(NewIncorrectInputError(rejection.value, ErrIncorrectInput)), store)
    else if !IsHexId(id) then Outcome(Thrown, store)
    else
      match IndexOf(store, RecordKey, CastId(id).value)
      case None => Outcome(Err(NewNotFoundError("Data not found", ErrIngredientNotFound)), store)
      case Some(i) =>
        match DeSerializeObject(data, minted)
        case None => Outcome(Thrown, store)
        case Some(d) =>
          var updated := AssignAll(store[i], d, UpdatedFields);
          UpdatedRecord(store[i], d);
          ReplaceShaped(store, i, updated);
          ReplaceKeepsKeys(store, i, updated, RecordKey);
          Outcome(Ok(SerializeObject(updated)), Replace(store, i, updated))
  }

  /** The fields `update` assigns leave a stored record stored, under the same identifier. */
  lemma UpdatedRecord(o: Object, d: Object)
    requires Stored(o)
    ensures Stored(AssignAll(o, d, UpdatedFields))
    ensures RecordKey(AssignAll(o, d, UpdatedFields)) == RecordKey(o)
  {
    StoredId(o);
    assert IdField !in UpdatedFields && "id" !in UpdatedFields;
    StoredByGet(AssignAll(o, d, UpdatedFields));
  }

  /** After a successful `update`, `findById` answers what `update` answered. */
  lemma UpdateThenFindById(store: seq<Object>, id: string, data: Object, rejection: Option<string>, minted: ObjectId)
    requires StoreShaped(store)
    requires Update(store, id, data, rejection, minted).reply.Ok?
    ensures var out := Update(store, id, data, rejection, minted);
      FindById(out.store, id) == out.reply
  {
    var out := Update(store, id, data, rejection, minted);
    IndexOfSameKeys(out.store, store, RecordKey, CastId(id).value);
    FoundAt(out.store, id, IndexOf(store, RecordKey, CastId(id).value).value);
  }

  /** `findById` on an identifier first held at position `i` answers that record, serialized. */
  lemma FoundAt(store: seq<Object>, id: string, i: nat)
    requires StoreShaped(store)
    requires IsHexId(id)
    requires IndexOf(store, RecordKey, CastId(id).value) == Some(i)
    ensures i < |store| && FindById(store, id) == Ok(SerializeObject(store[i]))
  {
    CastableIdAccepted(id);
  }

  /**
   * `delete(id)`: an identifier the cast refuses throws; an unknown one is
   * not found; in both cases nothing changes. Otherwise exactly that record
   * is removed.
   */
  function Delete(store: seq<Object>, id: string): (out: Outcome<()>)
    ensures StoreShaped(store) ==> StoreShaped(out.store)
    ensures !IsHexId(id) ==> out == Outcome(Thrown, store)
    ensures IsHexId(id) && IndexOf(store, RecordKey, CastId(id).value).None? ==>
      out == Outcome(Err(NewNotFoundError("Data not found", ErrIngredientNotFound)), store)
    ensures out.reply.Ok? <==> IsHexId(id) && IndexOf(store, RecordKey, CastId(id).value).Some?
    ensures out.reply.Ok? ==>
      var i := IndexOf(store, RecordKey, CastId(id).value).value;
      && |out.store| == |store| - 1
      && multiset(out.store) + multiset{store[i]} == multiset(store)
      && (forall j :: 0 <= j < i ==> out.store[j] == store[j])
      && (forall j :: i <= j < |out.store| ==> out.store[j] == store[j + 1])
  {
    if !IsHexId(id) then Outcome(Thrown, store)
    else
      match IndexOf(store, RecordKey, CastId(id).value)
      case None => Outcome(Err(NewNotFoundError("Data not found", ErrIngredientNotFound)), store)
      case Some(i) =>
        var r := RemoveAt(store, i);
        assert StoreShaped(store) ==> StoreShaped(r) by {
          if StoreShaped(store) {
            forall j | 0 <= j < |r|
              ensures Stored(r[j])
            {
              if j < i {
                assert r[j] == store[j];
              } else {
                assert r[j] == store[j + 1];
              }
            }
          }
        }
        Outcome(Ok(()), r)
  }
}
