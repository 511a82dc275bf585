/** The ingredient document and its API mappers (src/models/Ingredient.ts). */
module IngredientModel {
  import opened Options
  import opened ObjectIds

  /** An ingredient document; viscosity and timestamps may be absent. */
  datatype IngredientDoc = IngredientDoc(
    id: ObjectId, name: string, isAlcohol: bool, alcoholDegree: real,
    viscosity: Option<real>, createdAt: Option<int>, updatedAt: Option<int>)

  /** An ingredient as the API returns it. */
  datatype Ingredient = Ingredient(id: string, name: string, isAlcohol: bool, alcoholDegree: real)

  predicate WellFormed(a: Ingredient) { IsHexId(a.id) }

  predicate Canonical(a: Ingredient) { IsCanonicalId(a.id) }

  function SerializeIngredient(d: IngredientDoc): (a: Ingredient)
    ensures Canonical(a) && WellFormed(a)
  {
    Ingredient(ToString(d.id), d.name, d.isAlcohol, d.alcoholDegree)
  }

  function DeSerializeIngredient(a: Ingredient): (d: IngredientDoc)
    requires WellFormed(a)
    ensures d.viscosity == None && d.createdAt == None && d.updatedAt == None
  {
    IngredientDoc(FromString(a.id), a.name, a.isAlcohol, a.alcoholDegree, None, None, None)
  }

  /** The part of a document the mappers carry: viscosity and timestamps dropped. */
  function Carried(d: IngredientDoc): IngredientDoc {
    d.(viscosity := None, createdAt := None, updatedAt := None)
  }

  /** Document to API and back keeps identifier, name, alcohol flag and degree, and nothing else. */
  lemma DocRoundTrip(d: IngredientDoc)
    ensures DeSerializeIngredient(SerializeIngredient(d)) == Carried(d)
    ensures DeSerializeIngredient(SerializeIngredient(d)) == d <==>
      d.viscosity == None && d.createdAt == None && d.updatedAt == None
  {
  }

  /** API to document and back is the identity on objects with printed identifiers. */
  lemma ApiRoundTrip(a: Ingredient)
    requires Canonical(a)
    ensures SerializeIngredient(DeSerializeIngredient(a)) == a
  {
  }

  function SerializeIngredients(ds: seq<IngredientDoc>): (r: seq<Ingredient>)
    ensures |r| == |ds|
    ensures forall i :: 0 <= i < |ds| ==> r[i] == SerializeIngredient(ds[i])
  {
    seq(|ds|, i requires 0 <= i < |ds| => SerializeIngredient(ds[i]))
  }

  function DeSerializeIngredients(as_: seq<Ingredient>): (r: seq<IngredientDoc>)
    requires forall i :: 0 <= i < |as_| ==> WellFormed(as_[i])
    ensures |r| == |as_|
    ensures forall i :: 0 <= i < |as_| ==> r[i] == DeSerializeIngredient(as_[i])
  {
    seq(|as_|, i requires 0 <= i < |as_| => DeSerializeIngredient(as_[i]))
  }

  /** The list mappers are inverse on lists of API objects with printed identifiers. */
  lemma ListRoundTrip(as_: seq<Ingredient>)
    requires forall i :: 0 <= i < |as_| ==> Canonical(as_[i])
    ensures forall i :: 0 <= i < |as_| ==> WellFormed(as_[i])
    ensures SerializeIngredients(DeSerializeIngredients(as_)) == as_
  {
  }
}
