/**
 * The recipe document and its API mappers (src/models/Recipe.ts). The
 * picture and each step's ingredient are references that a query may have
 * populated; the flags `withIngredients` and `withPictures` tell the mappers
 * which form to expect.
 */
module RecipeModel {
  import opened Options
  import opened ObjectIds
  import opened References
  import IM = IngredientModel
  import FM = FileModel

  datatype RecipeStepDoc = RecipeStepDoc(id: ObjectId, ingredient: Ref<IM.IngredientDoc>, proportion: real, orderIndex: real)

  /** The description is optional in the schema: `None` when the document has none. */
  datatype RecipeDoc = RecipeDoc(
    id: ObjectId, name: string, description: Option<string>, picture: Ref<FM.FileDoc>,
    alcoholLevel: real, alcoholMinLevel: real, alcoholMaxLevel: real, isAvailable: bool,
    defaultGlassVolume: Option<real>, steps: seq<RecipeStepDoc>, createdAt: int, updatedAt: int)

  datatype RecipeStep = RecipeStep(id: string, ingredient: Link<IM.Ingredient>, proportion: real, orderIndex: real)

  datatype Recipe = Recipe(
    id: string, name: string, description: Option<string>, picture: Link<FM.File>,
    alcoholLevel: real, alcoholMinLevel: real, alcoholMaxLevel: real, isAvailable: bool,
    steps: seq<RecipeStep>, createdAt: int, updatedAt: int)

  // ---------------------------------------------------------------------
  // The shapes each mapper expects

  /** A step ingredient is never null, and is populated exactly when asked for. */
  predicate StepDocShaped(s: RecipeStepDoc, withIngredients: bool) {
    !s.ingredient.NoRef? && RefShaped(s.ingredient, withIngredients)
  }

  predicate DocShaped(r: RecipeDoc, withIngredients: bool, withPictures: bool) {
    && RefShaped(r.picture, withPictures)
    && forall i :: 0 <= i < |r.steps| ==> StepDocShaped(r.steps[i], withIngredients)
  }

  predicate StepShaped(s: RecipeStep, withIngredients: bool) {
    && IsHexId(s.id)
    && !s.ingredient.NoLink?
    && LinkShaped(s.ingredient, withIngredients)
    && (s.ingredient.LinkObj? ==> IM.WellFormed(s.ingredient.obj))
  }

  /** An API recipe `deSerializeRecipe` accepts without throwing. */
  predicate Shaped(a: Recipe, withIngredients: bool, withPictures: bool) {
    && IsHexId(a.id)
    && LinkShaped(a.picture, withPictures)
    && (a.picture.LinkObj? ==> FM.WellFormed(a.picture.obj))
    && forall i :: 0 <= i < |a.steps| ==> StepShaped(a.steps[i], withIngredients)
  }

  predicate StepCanonical(s: RecipeStep) {
    && IsCanonicalId(s.id)
    && LinkCanonical(s.ingredient)
    && (s.ingredient.LinkObj? ==> IM.Canonical(s.ingredient.obj))
  }

  /** Every identifier string of the API recipe is in printed form. */
  predicate Canonical(a: Recipe) {
    && IsCanonicalId(a.id)
    && LinkCanonical(a.picture)
    && (a.picture.LinkObj? ==> FM.Canonical(a.picture.obj))
    && forall i :: 0 <= i < |a.steps| ==> StepCanonical(a.steps[i])
  }

  // ---------------------------------------------------------------------
  // Document to API

  function SerializePicture(p: Ref<FM.FileDoc>, withPictures: bool): (l: Link<FM.File>)
    requires RefShaped(p, withPictures)
    ensures l.NoLink? <==> p.NoRef?
    ensures !p.NoRef? ==> (l.LinkObj? <==> withPictures)
  {
    if p.NoRef? then NoLink
    else if withPictures then LinkObj(FM.SerializeFile(p.doc))
    else LinkId(ToString(p.oid))
  }

  function SerializeStep(s: RecipeStepDoc, withIngredients: bool): RecipeStep
    requires StepDocShaped(s, withIngredients)
  {
    RecipeStep(
      ToString(s.id),
      if withIngredients then LinkObj(IM.SerializeIngredient(s.ingredient.doc)) else LinkId(ToString(s.ingredient.oid)),
      s.proportion,
      s.orderIndex)
  }

  function SerializeSteps(ss: seq<RecipeStepDoc>, withIngredients: bool): (r: seq<RecipeStep>)
    requires forall i :: 0 <= i < |ss| ==> StepDocShaped(ss[i], withIngredients)
    ensures |r| == |ss|
    ensures forall i :: 0 <= i < |ss| ==> r[i] == SerializeStep(ss[i], withIngredients)
  {
    seq(|ss|, i requires 0 <= i < |ss| => SerializeStep(ss[i], withIngredients))
  }

  /**
   * `serializeRecipe`: identifiers printed, the references mapped according
   * to the flags, the remaining fields copied; the default glass volume is
   * not carried.
   */
  function SerializeRecipe(r: RecipeDoc, withIngredients: bool, withPictures: bool): (a: Recipe)
    requires DocShaped(r, withIngredients, withPictures)
    ensures Shaped(a, withIngredients, withPictures) && Canonical(a)
    ensures |a.steps| == |r.steps|
    ensures forall i :: 0 <= i < |r.steps| ==>
      a.steps[i].proportion == r.steps[i].proportion && a.steps[i].orderIndex == r.steps[i].orderIndex
    ensures a.name == r.name && a.description == r.description && a.isAvailable == r.isAvailable
    ensures a.alcoholLevel == r.alcoholLevel && a.alcoholMinLevel == r.alcoholMinLevel && a.alcoholMaxLevel == r.alcoholMaxLevel
  {
    Recipe(
      ToString(r.id), r.name, r.description, SerializePicture(r.picture, withPictures),
      r.alcoholLevel, r.alcoholMinLevel, r.alcoholMaxLevel, r.isAvailable,
      SerializeSteps(r.steps, withIngredients), r.createdAt, r.updatedAt)
  }

  function SerializeRecipes(rs: seq<RecipeDoc>, withIngredients: bool, withPictures: bool): (r: seq<Recipe>)
    requires forall i :: 0 <= i < |rs| ==> DocShaped(rs[i], withIngredients, withPictures)
    ensures |r| == |rs|
    ensures forall i :: 0 <= i < |rs| ==> r[i] == SerializeRecipe(rs[i], withIngredients, withPictures)
  {
    seq(|rs|, i requires 0 <= i < |rs| => SerializeRecipe(rs[i], withIngredients, withPictures))
  }

  // ---------------------------------------------------------------------
  // API to document

  function DeSerializePicture(l: Link<FM.File>, withPictures: bool): (p: Ref<FM.FileDoc>)
    requires LinkShaped(l, withPictures)
    requires l.LinkObj? ==> FM.WellFormed(l.obj)
    ensures p.NoRef? <==> l.NoLink?
    ensures !l.NoLink? ==> (p.RefDoc? <==> withPictures)
  {
    if l.NoLink? then NoRef
    else if withPictures then RefDoc(FM.DeSerializeFile(l.obj))
    else RefId(FromString(l.id))
  }

  function DeSerializeStep(s: RecipeStep, withIngredients: bool): RecipeStepDoc
    requires StepShaped(s, withIngredients)
  {
    RecipeStepDoc(
      FromString(s.id),
      if withIngredients then RefDoc(IM.DeSerializeIngredient(s.ingredient.obj)) else RefId(FromString(s.ingredient.id)),
      s.proportion,
      s.orderIndex)
  }

  function DeSerializeSteps(ss: seq<RecipeStep>, withIngredients: bool): (r: seq<RecipeStepDoc>)
    requires forall i :: 0 <= i < |ss| ==> StepShaped(ss[i], withIngredients)
    ensures |r| == |ss|
    ensures forall i :: 0 <= i < |ss| ==> r[i] == DeSerializeStep(ss[i], withIngredients)
  {
    seq(|ss|, i requires 0 <= i < |ss| => DeSerializeStep(ss[i], withIngredients))
  }

  /** `deSerializeRecipe`: identifiers parsed, the references mapped according to the flags. */
  function DeSerializeRecipe(a: Recipe, withIngredients: bool, withPictures: bool): (r: RecipeDoc)
    requires Shaped(a, withIngredients, withPictures)
    ensures DocShaped(r, withIngredients, withPictures)
    ensures r.defaultGlassVolume == None
    ensures |r.steps| == |a.steps|
  {
    RecipeDoc(
      FromString(a.id), a.name, a.description, DeSerializePicture(a.picture, withPictures),
      a.alcoholLevel, a.alcoholMinLevel, a.alcoholMaxLevel, a.isAvailable,
      None, DeSerializeSteps(a.steps, withIngredients), a.createdAt, a.updatedAt)
  }

  function DeSerializeRecipes(as_: seq<Recipe>, withIngredients: bool, withPictures: bool): (r: seq<RecipeDoc>)
    requires forall i :: 0 <= i < |as_| ==> Shaped(as_[i], withIngredients, withPictures)
    ensures |r| == |as_|
    ensures forall i :: 0 <= i < |as_| ==> r[i] == DeSerializeRecipe(as_[i], withIngredients, withPictures)
  {
    seq(|as_|, i requires 0 <= i < |as_| => DeSerializeRecipe(as_[i], withIngredients, withPictures))
  }

  // ---------------------------------------------------------------------
  // Round trips

  function CarriedStep(s: RecipeStepDoc): RecipeStepDoc {
    if s.ingredient.RefDoc? then s.(ingredient := RefDoc(IM.Carried(s.ingredient.doc))) else s
  }

  /** The part of a recipe document the mappers carry. */
  function Carried(r: RecipeDoc): (c: RecipeDoc) {
    r.(defaultGlassVolume := None, steps := seq(|r.steps|, i requires 0 <= i < |r.steps| => CarriedStep(r.steps[i])))
  }

  /** Document to API and back loses only the default glass volume and the uncarried ingredient fields. */
  lemma DocRoundTrip(r: RecipeDoc, withIngredients: bool, withPictures: bool)
    requires DocShaped(r, withIngredients, withPictures)
    ensures DeSerializeRecipe(SerializeRecipe(r, withIngredients, withPictures), withIngredients, withPictures) == Carried(r)
  {
    var a := SerializeRecipe(r, withIngredients, withPictures);
    var d := DeSerializeRecipe(a, withIngredients, withPictures);
    assert d.steps == Carried(r).steps by {
      forall i | 0 <= i < |r.steps|
        ensures d.steps[i] == CarriedStep(r.steps[i])
      {
        assert a.steps[i] == SerializeStep(r.steps[i], withIngredients);
      }
    }
  }

  /** With unpopulated references the round trip keeps every field but the default glass volume. */
  lemma UnpopulatedRoundTrip(r: RecipeDoc)
    requires DocShaped(r, false, false)
    ensures DeSerializeRecipe(SerializeRecipe(r, false, false), false, false) == r.(defaultGlassVolume := None)
  {
    DocRoundTrip(r, false, false);
    assert forall i :: 0 <= i < |r.steps| ==> CarriedStep(r.steps[i]) == r.steps[i];
  }

  /** API to document and back is the identity on recipes with printed identifiers. */
  lemma ApiRoundTrip(a: Recipe, withIngredients: bool, withPictures: bool)
    requires Shaped(a, withIngredients, withPictures) && Canonical(a)
    ensures SerializeRecipe(DeSerializeRecipe(a, withIngredients, withPictures), withIngredients, withPictures) == a
  {
    var d := DeSerializeRecipe(a, withIngredients, withPictures);
    var b := SerializeRecipe(d, withIngredients, withPictures);
    assert b.steps == a.steps by {
      forall i | 0 <= i < |a.steps|
        ensures b.steps[i] == a.steps[i]
      {
        assert d.steps[i] == DeSerializeStep(a.steps[i], withIngredients);
      }
    }
  }

  /** The list mappers are inverse on lists of API recipes with printed identifiers. */
  lemma ListRoundTrip(as_: seq<Recipe>, withIngredients: bool, withPictures: bool)
    requires forall i :: 0 <= i < |as_| ==> Shaped(as_[i], withIngredients, withPictures) && Canonical(as_[i])
    ensures SerializeRecipes(DeSerializeRecipes(as_, withIngredients, withPictures), withIngredients, withPictures) == as_
  {
    forall i | 0 <= i < |as_|
      ensures SerializeRecipe(DeSerializeRecipe(as_[i], withIngredients, withPictures), withIngredients, withPictures) == as_[i]
    {
      ApiRoundTrip(as_[i], withIngredients, withPictures);
    }
  }
}
