/**
 * The dispenser-slot store (src/services/machineConfiguration/machineConfiguration.ts):
 * a listing ordered by slot, and an update of one slot's ingredient, volume
 * and slot number.
 */
module MachineConfigurationService {
  import opened Options
  import opened ObjectIds
  import opened Errors
  import opened Stores
  import opened Sorting
  import opened Sequences
  import opened References
  import opened MachineConfigurationModel
  import IM = IngredientModel

  /** Stored slots reference their ingredient by identifier. */
  predicate StoreShaped(store: seq<ConfigurationDoc>) {
    forall i :: 0 <= i < |store| ==> DocShaped(store[i], false)
  }

  function SlotKey(d: ConfigurationDoc): SortKey { Present(d.slot) }

  function ConfigurationKey(d: ConfigurationDoc): string { ToString(d.id) }

  /** The mapper with identifiers, as a value. */
  const Serializer: ConfigurationDoc --> Configuration := d requires DocShaped(d, false) => SerializeConfiguration(d, false)

  lemma SerializeAsMap(xs: seq<ConfigurationDoc>)
    requires StoreShaped(xs)
    ensures SerializeConfigurations(xs, false) == Map(xs, Serializer)
  {
  }

  /** `find`: every stored slot, in non-decreasing slot order, through the mapper with identifiers. */
  function Find(store: seq<ConfigurationDoc>): (r: seq<Configuration>)
    requires StoreShaped(store)
    ensures |r| == |store|
    ensures forall i, j :: 0 <= i < j < |r| ==> r[i].slot <= r[j].slot
    ensures multiset(r) == multiset(SerializeConfigurations(store, false))
  {
    var sorted := SortBy(store, SlotKey, Asc);
    PermutationShaped(sorted, store);
    MapPermutation(sorted, store, Serializer);
    SerializeAsMap(sorted);
    SerializeAsMap(store);
    SortedSlots(sorted);
    SerializeConfigurations(sorted, false)
  }

  /** A permutation of a well-shaped store is well shaped. */
  lemma PermutationShaped(xs: seq<ConfigurationDoc>, ys: seq<ConfigurationDoc>)
    requires multiset(xs) == multiset(ys)
    requires StoreShaped(ys)
    ensures StoreShaped(xs)
  {
    forall i | 0 <= i < |xs|
      ensures DocShaped(xs[i], false)
    {
      PermutationKeepsMembers(xs, ys, xs[i]);
    }
  }

  /** Slots sorted by slot number keep that order through the mapper. */
  lemma SortedSlots(sorted: seq<ConfigurationDoc>)
    requires StoreShaped(sorted)
    requires SortedBy(sorted, SlotKey, Asc)
    ensures var r := SerializeConfigurations(sorted, false);
      forall i, j :: 0 <= i < j < |r| ==> r[i].slot <= r[j].slot
  {
    var r := SerializeConfigurations(sorted, false);
    forall i, j | 0 <= i < j < |r|
      ensures r[i].slot <= r[j].slot
    {
      assert InOrder(SlotKey(sorted[i]), SlotKey(sorted[j]), Asc);
    }
  }

  /** The `update` payload: the slot's identifier, its new ingredient's identifier or null, slot and volume. */
  datatype ConfigurationRequest = ConfigurationRequest(id: string, ingredient: Option<string>, slot: real, measureVolume: Option<real>)

  datatype Outcome = Outcome(reply: Reply<Configuration>, store: seq<ConfigurationDoc>)

  /** The payload names its identifiers so that the identifier constructor accepts them. */
  predicate Parsable(p: ConfigurationRequest) {
    IsHexId(p.id) && (p.ingredient.Some? ==> IsHexId(p.ingredient.value))
  }

  /** The ingredient reference a payload asks for. */
  function RequestedIngredient(p: ConfigurationRequest): (r: Ref<IM.IngredientDoc>)
    requires Parsable(p)
    ensures r.NoRef? <==> p.ingredient.None?
    ensures r.RefId? && IsCanonicalId(p.ingredient.value) ==> ToString(r.oid) == p.ingredient.value
  {
    if p.ingredient.None? then NoRef else RefId(FromString(p.ingredient.value))
  }

  /**
   * `update(id, payload)`. `rejection` is the payload validator's first
   * message, if it rejects the payload. Validation comes first, then the
   * lookup of `id`, whose cast to an identifier throws when it is not
   * hexadecimal; building the identifiers of the payload then throws when
   * they are not hexadecimal.
   */
  function Update(store: seq<ConfigurationDoc>, id: string, p: ConfigurationRequest, rejection: Option<string>): (out: Outcome)
    requires StoreShaped(store)
    ensures StoreShaped(out.store)
    ensures rejection.Some? ==> out == Outcome(Err(NewIncorrectInputError(rejection.value, ErrIncorrectInput)), store)
    ensures rejection.None? && !IsHexId(id) ==> out == Outcome(Thrown, store)
    ensures rejection.None? && IsHexId(id) && IndexOf(store, ConfigurationKey, CastId(id).value).None? ==>
      out == Outcome(Err(NewNotFoundError("MachineConfiguration not found", ErrMachineConfigurationNotFound)), store)
    ensures out.reply.Ok? <==>
      rejection.None? && IsHexId(id) && IndexOf(store, ConfigurationKey, CastId(id).value).Some? && Parsable(p)
    ensures !out.reply.Ok? ==> out.store == store
    ensures out.reply.Ok? ==>
      var i := IndexOf(store, ConfigurationKey, CastId(id).value).value;
      && |out.store| == |store|
      && out.store[i].id == store[i].id && out.store[i].position == store[i].position
      && out.store[i].ingredient == RequestedIngredient(p)
      && out.store[i].measureVolume == p.measureVolume && out.store[i].slot == p.slot
      && (forall j :: 0 <= j < |store| && j != i ==> out.store[j] == store[j])
      && out.reply.value == SerializeConfiguration(out.store[i], false)
  {
    if rejection.Some? then
      Outcome(Err(NewIncorrectInputError(rejection.value, ErrIncorrectInput)), store)
    else if !IsHexId(id) then Outcome(Thrown, store)
    else
      match IndexOf(store, ConfigurationKey, CastId(id).value)
      case None => Outcome(Err(NewNotFoundError("MachineConfiguration not found", ErrMachineConfigurationNotFound)), store)
      case Some(i) =>
        if !Parsable(p) then Outcome(Thrown, store)
        else
          var updated := store[i].(ingredient := RequestedIngredient(p), measureVolume := p.measureVolume, slot := p.slot);
          Outcome(Ok(SerializeConfiguration(updated, false)), Replace(store, i, updated))
  }

  /** The slot a successful `update` answers with is listed by the next `find`. */
  lemma UpdatedIsListed(store: seq<ConfigurationDoc>, id: string, p: ConfigurationRequest, rejection: Option<string>)
    requires StoreShaped(store)
    requires Update(store, id, p, rejection).reply.Ok?
    ensures var out := Update(store, id, p, rejection);
      out.reply.value in Find(out.store)
  {
    var out := Update(store, id, p, rejection);
    var i := IndexOf(store, ConfigurationKey, CastId(id).value).value;
    var listed := SerializeConfigurations(out.store, false);
    assert listed[i] == out.reply.value;
    assert out.reply.value in multiset(listed);
    assert out.reply.value in multiset(Find(out.store));
  }
}
