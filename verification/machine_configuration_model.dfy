/** The dispenser-slot document and its API mappers (src/models/MachineConfiguration.ts). */
module MachineConfigurationModel {
  import opened Options
  import opened ObjectIds
  import opened References
  import IM = IngredientModel

  /** A slot: its (possibly null, possibly populated) ingredient, slot number, measuring volume and position. */
  datatype ConfigurationDoc = ConfigurationDoc(
    id: ObjectId, ingredient: Ref<IM.IngredientDoc>, slot: real, measureVolume: Option<real>, position: Option<real>)

  datatype Configuration = Configuration(id: string, ingredient: Link<IM.Ingredient>, slot: real, measureVolume: Option<real>)

  predicate DocShaped(d: ConfigurationDoc, withIngredients: bool) {
    RefShaped(d.ingredient, withIngredients)
  }

  /** An API slot `deSerializeMachineConfiguration` accepts without throwing. */
  predicate Shaped(c: Configuration, withIngredients: bool) {
    && IsHexId(c.id)
    && LinkShaped(c.ingredient, withIngredients)
    && (c.ingredient.LinkObj? ==> IM.WellFormed(c.ingredient.obj))
  }

  predicate Canonical(c: Configuration) {
    && IsCanonicalId(c.id)
    && LinkCanonical(c.ingredient)
    && (c.ingredient.LinkObj? ==> IM.Canonical(c.ingredient.obj))
  }

  /** `serializeMachineConfiguration`: the position is not carried. */
  function SerializeConfiguration(d: ConfigurationDoc, withIngredients: bool): (c: Configuration)
    requires DocShaped(d, withIngredients)
    ensures Shaped(c, withIngredients) && Canonical(c)
    ensures c.ingredient.NoLink? <==> d.ingredient.NoRef?
    ensures !d.ingredient.NoRef? ==> (c.ingredient.LinkObj? <==> withIngredients)
    ensures c.slot == d.slot && c.measureVolume == d.measureVolume
  {
    var ingredient :=
      if d.ingredient.NoRef? then NoLink
      else if withIngredients then LinkObj(IM.SerializeIngredient(d.ingredient.doc))
      else LinkId(ToString(d.ingredient.oid));
    Configuration(ToString(d.id), ingredient, d.slot, d.measureVolume)
  }

  function SerializeConfigurations(ds: seq<ConfigurationDoc>, withIngredients: bool): (r: seq<Configuration>)
    requires forall i :: 0 <= i < |ds| ==> DocShaped(ds[i], withIngredients)
    ensures |r| == |ds|
    ensures forall i :: 0 <= i < |ds| ==> r[i] == SerializeConfiguration(ds[i], withIngredients)
  {
    seq(|ds|, i requires 0 <= i < |ds| => SerializeConfiguration(ds[i], withIngredients))
  }

  /** `deSerializeMachineConfiguration`: the result has no position. */
  function DeSerializeConfiguration(c: Configuration, withIngredients: bool): (d: ConfigurationDoc)
    requires Shaped(c, withIngredients)
    ensures DocShaped(d, withIngredients)
    ensures d.ingredient.NoRef? <==> c.ingredient.NoLink?
    ensures d.position == None
    ensures d.slot == c.slot && d.measureVolume == c.measureVolume
  {
    var ingredient :=
      if c.ingredient.NoLink? then NoRef
      else if withIngredients then RefDoc(IM.DeSerializeIngredient(c.ingredient.obj))
      else RefId(FromString(c.ingredient.id));
    ConfigurationDoc(FromString(c.id), ingredient, c.slot, c.measureVolume, None)
  }

  function DeSerializeConfigurations(cs: seq<Configuration>, withIngredients: bool): (r: seq<ConfigurationDoc>)
    requires forall i :: 0 <= i < |cs| ==> Shaped(cs[i], withIngredients)
    ensures |r| == |cs|
    ensures forall i :: 0 <= i < |cs| ==> r[i] == DeSerializeConfiguration(cs[i], withIngredients)
  {
    seq(|cs|, i requires 0 <= i < |cs| => DeSerializeConfiguration(cs[i], withIngredients))
  }

  /** With unpopulated ingredients, document to API and back keeps everything but the position. */
  lemma DocRoundTrip(d: ConfigurationDoc)
    requires DocShaped(d, false)
    ensures DeSerializeConfiguration(SerializeConfiguration(d, false), false) == d.(position := None)
  {
  }

  /** API to document and back is the identity on slots with printed identifiers. */
  lemma ApiRoundTrip(c: Configuration, withIngredients: bool)
    requires Shaped(c, withIngredients) && Canonical(c)
    ensures SerializeConfiguration(DeSerializeConfiguration(c, withIngredients), withIngredients) == c
  {
  }

  /** The list mappers are inverse on lists of API slots with printed identifiers. */
  lemma ListRoundTrip(cs: seq<Configuration>, withIngredients: bool)
    requires forall i :: 0 <= i < |cs| ==> Shaped(cs[i], withIngredients) && Canonical(cs[i])
    ensures SerializeConfigurations(DeSerializeConfigurations(cs, withIngredients), withIngredients) == cs
  {
  }
}
