/**
 * The recipe catalog (src/services/recipe/recipe.ts). Recipes, their steps
 * and the files they use as pictures are rows of an abstract relational
 * store, joined to the recipe document shape the mappers expect when a
 * query asks for pictures or ingredients.
 */
module RecipeService {
  import opened Options
  import opened ObjectIds
  import opened Errors
  import opened IdValidation
  import opened References
  import opened Stores
  import opened Sorting
  import opened Sequences
  import IM = IngredientModel
  import FM = FileModel
  import RM = RecipeModel

  datatype RecipeRow = RecipeRow(
    id: ObjectId, name: string, description: Option<string>, pictureId: Option<ObjectId>,
    alcoholLevel: real, alcoholMinLevel: real, alcoholMaxLevel: real, isAvailable: bool,
    defaultGlassVolume: Option<real>, createdAt: int, updatedAt: int)

  /** A step row names its recipe and its ingredient. */
  datatype StepRow = StepRow(id: ObjectId, recipeId: ObjectId, ingredientId: ObjectId, proportion: real, orderIndex: real)

  datatype Store = Store(recipes: seq<RecipeRow>, steps: seq<StepRow>, files: seq<FM.FileDoc>, ingredients: seq<IM.IngredientDoc>)

  function RecipeKey(r: RecipeRow): string { ToString(r.id) }
  function StepKey(s: StepRow): string { ToString(s.id) }
  function FileKey(f: FM.FileDoc): string { ToString(f.id) }
  function IngredientKey(d: IM.IngredientDoc): string { ToString(d.id) }

  // ---------------------------------------------------------------------
  // Joining rows into the document the mappers read

  /** The step rows of recipe `rid`, in store order. */
  function StepsOf(steps: seq<StepRow>, rid: ObjectId): (r: seq<StepRow>)
    ensures forall s :: s in r <==> s in steps && s.recipeId == rid
  {
    Filter(steps, (s: StepRow) => s.recipeId == rid)
  }

  /** The picture reference: the file itself when asked for and stored, null when asked for and missing. */
  function JoinPicture(files: seq<FM.FileDoc>, pictureId: Option<ObjectId>, withPictures: bool): (p: Ref<FM.FileDoc>)
    ensures RefShaped(p, withPictures)
    ensures p.NoRef? <==> pictureId.None? || (withPictures && Lookup(files, FileKey, ToString(pictureId.value)).None?)
    ensures p.RefId? ==> p.oid == pictureId.value
    ensures p.RefDoc? ==> p.doc.id == pictureId.value
  {
    match pictureId
    case None => NoRef
    case Some(pid) =>
      if !withPictures then RefId(pid)
      else
        match Lookup(files, FileKey, ToString(pid))
        case None => NoRef
        case Some(f) =>
          ToStringInjective(f.id, pid);
          RefDoc(f)
  }

  /** A step's ingredient reference; `None` when it is asked for and not stored. */
  function JoinIngredient(ingredients: seq<IM.IngredientDoc>, s: StepRow, withIngredients: bool): (r: Option<RM.RecipeStepDoc>)
    ensures r.None? <==> withIngredients && Lookup(ingredients, IngredientKey, ToString(s.ingredientId)).None?
    ensures r.Some? ==> RM.StepDocShaped(r.value, withIngredients)
    ensures r.Some? ==> r.value.id == s.id && r.value.proportion == s.proportion && r.value.orderIndex == s.orderIndex
  {
    if !withIngredients then Some(RM.RecipeStepDoc(s.id, RefId(s.ingredientId), s.proportion, s.orderIndex))
    else
      match Lookup(ingredients, IngredientKey, ToString(s.ingredientId))
      case None => None
      case Some(d) => Some(RM.RecipeStepDoc(s.id, RefDoc(d), s.proportion, s.orderIndex))
  }

  function JoinSteps(ingredients: seq<IM.IngredientDoc>, rows: seq<StepRow>, withIngredients: bool): (r: Option<seq<RM.RecipeStepDoc>>)
    ensures r.None? <==> exists i :: 0 <= i < |rows| && JoinIngredient(ingredients, rows[i], withIngredients).None?
    ensures r.Some? ==> |r.value| == |rows|
    ensures r.Some? ==> forall i :: 0 <= i < |rows| ==> Some(r.value[i]) == JoinIngredient(ingredients, rows[i], withIngredients)
  {
    if forall i :: 0 <= i < |rows| ==> JoinIngredient(ingredients, rows[i], withIngredients).Some? then
      Some(seq(|rows|, i requires 0 <= i < |rows| => JoinIngredient(ingredients, rows[i], withIngredients).value))
    else None
  }

  /**
   * The recipe document a query returns for `row`: its picture and steps
   * joined as asked. `None` when a populated step ingredient is not stored,
   * where the mapper would throw on the null ingredient.
   */
  function Join(s: Store, row: RecipeRow, withIngredients: bool, withPictures: bool): (d: Option<RM.RecipeDoc>)
    ensures d.Some? ==> RM.DocShaped(d.value, withIngredients, withPictures)
    ensures d.Some? ==> d.value.id == row.id && d.value.isAvailable == row.isAvailable && d.value.updatedAt == row.updatedAt
    ensures d.Some? ==> |d.value.steps| == |StepsOf(s.steps, row.id)|
    ensures !withIngredients ==> d.Some?
  {
    match JoinSteps(s.ingredients, StepsOf(s.steps, row.id), withIngredients)
    case None => None
    case Some(steps) =>
      Some(RM.RecipeDoc(row.id, row.name, row.description, JoinPicture(s.files, row.pictureId, withPictures),
                        row.alcoholLevel, row.alcoholMinLevel, row.alcoholMaxLevel, row.isAvailable,
                        row.defaultGlassVolume, steps, row.createdAt, row.updatedAt))
  }

  /** The document of `row` with step rows `rows` when neither pictures nor ingredients are populated. */
  function UnpopulatedDoc(row: RecipeRow, rows: seq<StepRow>): (d: RM.RecipeDoc)
    ensures RM.DocShaped(d, false, false)
  {
    RM.RecipeDoc(row.id, row.name, row.description, if row.pictureId.Some? then RefId(row.pictureId.value) else NoRef,
                 row.alcoholLevel, row.alcoholMinLevel, row.alcoholMaxLevel, row.isAvailable, row.defaultGlassVolume,
                 seq(|rows|, i requires 0 <= i < |rows| =>
                   RM.RecipeStepDoc(rows[i].id, RefId(rows[i].ingredientId), rows[i].proportion, rows[i].orderIndex)),
                 row.createdAt, row.updatedAt)
  }

  /** Without population the join never fails: it is the row with its steps, references left as identifiers. */
  lemma JoinUnpopulated(s: Store, row: RecipeRow)
    ensures Join(s, row, false, false) == Some(UnpopulatedDoc(row, StepsOf(s.steps, row.id)))
  {
    var rows := StepsOf(s.steps, row.id);
    var steps := JoinSteps(s.ingredients, rows, false).value;
    assert steps == UnpopulatedDoc(row, rows).steps;
  }

  function JoinAll(s: Store, rows: seq<RecipeRow>, withIngredients: bool, withPictures: bool): (r: Option<seq<RM.RecipeDoc>>)
    ensures r.Some? ==> |r.value| == |rows|
    ensures r.Some? ==> forall i :: 0 <= i < |rows| ==> Some(r.value[i]) == Join(s, rows[i], withIngredients, withPictures)
    ensures !withIngredients ==> r.Some?
  {
    if forall i :: 0 <= i < |rows| ==> Join(s, rows[i], withIngredients, withPictures).Some? then
      Some(seq(|rows|, i requires 0 <= i < |rows| => Join(s, rows[i], withIngredients, withPictures).value))
    else None
  }

  // ---------------------------------------------------------------------
  // checkIngredientsExist

  /**
   * The lookup `checkIngredientsExist` performs for each step: as written it
   * is a placeholder object, never null, whatever the identifier.
   */
  predicate PlaceholderFound(ingredientId: string) {
    true
  }

  /**
   * `checkIngredientsExist`: the identifiers whose lookup came back null,
   * joined into one not-found error when there are any.
   */
  function CheckIngredientsExist(ingredientIds: seq<string>): (e: Option<Error>)
    ensures e.None?
  {
    var missing := Filter(ingredientIds, (id: string) => !PlaceholderFound(id));
    if |missing| > 0 then Some(NewNotFoundError("Ingredient not found", ErrIngredientNotFound)) else None
  }

  // ---------------------------------------------------------------------
  // find

  predicate Matches(isAvailable: Option<bool>, row: RecipeRow) {
    isAvailable.None? || row.isAvailable == isAvailable.value
  }

  function UpdatedAtKey(r: RecipeRow): SortKey { Present(r.updatedAt as real) }

  /**
   * The rows `find` returns: those whose availability equals `isAvailable`
   * (all of them without it), ordered by `updated_at` in the requested
   * direction; without a direction the store's order is kept.
   */
  function Selected(s: Store, isAvailable: Option<bool>, sort: Option<Direction>): (r: seq<RecipeRow>)
    ensures forall row :: row in r <==> row in s.recipes && Matches(isAvailable, row)
    ensures forall row :: multiset(r)[row] == if Matches(isAvailable, row) then multiset(s.recipes)[row] else 0
    ensures sort.Some? ==> SortedBy(r, UpdatedAtKey, sort.value)
  {
    var matching := Filter(s.recipes, (row: RecipeRow) => Matches(isAvailable, row));
    if sort.None? then matching
    else
      var sorted := SortBy(matching, UpdatedAtKey, sort.value);
      assert forall row :: row in sorted <==> row in matching by {
        forall row
          ensures row in sorted <==> row in matching
        {
          PermutationKeepsMembers(sorted, matching, row);
        }
      }
      sorted
  }

  /** `find`: the selected rows, joined and mapped. A missing populated ingredient throws. */
  function Find(s: Store, isAvailable: Option<bool>, sort: Option<Direction>, withIngredients: bool, withPictures: bool): (r: Reply<seq<RM.Recipe>>)
    ensures !r.Err?
    ensures !withIngredients ==> r.Ok?
    ensures r.Ok? ==> |r.value| == |Selected(s, isAvailable, sort)|
    ensures r.Ok? ==> forall i :: 0 <= i < |r.value| ==>
      && r.value[i].id == ToString(Selected(s, isAvailable, sort)[i].id)
      && r.value[i].isAvailable == Selected(s, isAvailable, sort)[i].isAvailable
      && r.value[i].updatedAt == Selected(s, isAvailable, sort)[i].updatedAt
  {
    match JoinAll(s, Selected(s, isAvailable, sort), withIngredients, withPictures)
    case None => Thrown
    case Some(docs) => Ok(RM.SerializeRecipes(docs, withIngredients, withPictures))
  }

  /** Every recipe `find` returns with a filter has the requested availability, and they come in `updated_at` order. */
  lemma FindFiltersAndOrders(s: Store, isAvailable: Option<bool>, sort: Option<Direction>, withIngredients: bool, withPictures: bool)
    requires Find(s, isAvailable, sort, withIngredients, withPictures).Ok?
    ensures var recipes := Find(s, isAvailable, sort, withIngredients, withPictures).value;
      && (isAvailable.Some? ==> forall i :: 0 <= i < |recipes| ==> recipes[i].isAvailable == isAvailable.value)
      && (sort.Some? ==> forall i, j :: 0 <= i < j < |recipes| ==>
            InOrder(Present(recipes[i].updatedAt as real), Present(recipes[j].updatedAt as real), sort.value))
  {
    var sel := Selected(s, isAvailable, sort);
    var recipes := Find(s, isAvailable, sort, withIngredients, withPictures).value;
    forall i | 0 <= i < |recipes|
      ensures isAvailable.Some? ==> recipes[i].isAvailable == isAvailable.value
    {
      assert sel[i] in sel;
    }
    if sort.Some? {
      forall i, j | 0 <= i < j < |recipes|
        ensures InOrder(Present(recipes[i].updatedAt as real), Present(recipes[j].updatedAt as real), sort.value)
      {
        assert InOrder(UpdatedAtKey(sel[i]), UpdatedAtKey(sel[j]), sort.value);
      }
    }
  }

  // ---------------------------------------------------------------------
  // findById

  /**
   * `findById`: an identifier the validator refuses (empty, or not 24 UTF-16
   * units long) is incorrect input; one that is not hexadecimal cannot be
   * cast to an identifier and throws; an unknown one is not found. A found
   * recipe is joined and mapped as the flags ask.
   */
  function FindById(s: Store, id: string, withIngredients: bool, withPictures: bool): (r: Reply<RM.Recipe>)
    ensures IdRejection(id).Some? ==> r == Err(NewIncorrectInputError(IdRejection(id).value, ErrIncorrectInput))
    ensures IdRejection(id).None? && !IsHexId(id) ==> r == Thrown
    ensures IsHexId(id) && Lookup(s.recipes, RecipeKey, CastId(id).value).None? ==>
      r == Err(NewNotFoundError("Recipe not found", ErrRecipeNotFound))
    ensures r.Ok? ==> IsHexId(id) && Lookup(s.recipes, RecipeKey, CastId(id).value).Some? && r.value.id == CastId(id).value
    ensures IsHexId(id) && Lookup(s.recipes, RecipeKey, CastId(id).value).Some? ==>
      var row := Lookup(s.recipes, RecipeKey, CastId(id).value).value;
      && (r.Ok? <==> Join(s, row, withIngredients, withPictures).Some?)
      && (r.Ok? ==> r.value == RM.SerializeRecipe(Join(s, row, withIngredients, withPictures).value, withIngredients, withPictures))
    ensures IsHexId(id) && Lookup(s.recipes, RecipeKey, CastId(id).value).Some? && !withIngredients ==> r.Ok?
  {
    if IdRejection(id).Some? then Err(NewIncorrectInputError(IdRejection(id).value, ErrIncorrectInput))
    else if !IsHexId(id) then Thrown
    else
      match Lookup(s.recipes, RecipeKey, CastId(id).value)
      case None => Err(NewNotFoundError("Recipe not found", ErrRecipeNotFound))
      case Some(row) =>
        match Join(s, row, withIngredients, withPictures)
        case None => Thrown
        case Some(doc) => Ok(RM.SerializeRecipe(doc, withIngredients, withPictures))
  }

  // ---------------------------------------------------------------------
  // create

  datatype StepRequest = StepRequest(ingredient: string, proportion: real, orderIndex: real)

  /** The `create` payload: no identifier, no availability; description and picture are optional. */
  datatype RecipeRequest = RecipeRequest(
    name: string, description: Option<string>, picture: Option<string>,
    alcoholLevel: real, alcoholMinLevel: real, alcoholMaxLevel: real, steps: seq<StepRequest>)

  datatype Outcome<T> = Outcome(reply: Reply<T>, store: Store)

  /** Every identifier string of the payload is hexadecimal, so building its identifiers does not throw. */
  predicate CreateParsable(p: RecipeRequest) {
    && (p.picture.Some? ==> IsHexId(p.picture.value))
    && forall i :: 0 <= i < |p.steps| ==> IsHexId(p.steps[i].ingredient)
  }

  /** The picture identifier a payload names, if any. */
  function PayloadPicture(picture: Option<string>): (r: Option<ObjectId>)
    requires picture.Some? ==> IsHexId(picture.value)
    ensures r.Some? <==> picture.Some?
    ensures r.Some? && IsCanonicalId(picture.value) ==> ToString(r.value) == picture.value
  {
    if picture.Some? then Some(FromString(picture.value)) else None
  }

  /** The recipe row `create` inserts: a new recipe is not available and has no default glass volume. */
  function NewRecipeRow(p: RecipeRequest, rid: ObjectId, now: int): RecipeRow
    requires CreateParsable(p)
  {
    RecipeRow(rid, p.name, p.description, PayloadPicture(p.picture), p.alcoholLevel, p.alcoholMinLevel,
              p.alcoholMaxLevel, false, None, now, now)
  }

  function IngredientIds<S>(steps: seq<S>, ingredientOf: S -> string): (r: seq<string>)
    ensures |r| == |steps|
    ensures forall i :: 0 <= i < |steps| ==> r[i] == ingredientOf(steps[i])
  {
    seq(|steps|, i requires 0 <= i < |steps| => ingredientOf(steps[i]))
  }

  function NewStepRows(rid: ObjectId, steps: seq<StepRequest>, mint: nat -> ObjectId): (r: seq<StepRow>)
    requires forall i :: 0 <= i < |steps| ==> IsHexId(steps[i].ingredient)
    ensures |r| == |steps|
    ensures forall i :: 0 <= i < |steps| ==>
      && r[i].recipeId == rid && r[i].id == mint(i + 1)
      && r[i].ingredientId == FromString(steps[i].ingredient)
      && r[i].proportion == steps[i].proportion && r[i].orderIndex == steps[i].orderIndex
  {
    seq(|steps|, i requires 0 <= i < |steps| =>
      StepRow(mint(i + 1), rid, FromString(steps[i].ingredient), steps[i].proportion, steps[i].orderIndex))
  }

  /**
   * `create`. `rejection` is the payload validator's first message, if it
   * rejects the payload; `mint` supplies fresh identifiers (the recipe's
   * first, then one per step) and `now` the clock. A new recipe is not
   * available. `deSerializeRecipe` casts the picture and every step's
   * ingredient, so a payload the validator admits but the cast refuses throws.
   */
  function Create(s: Store, p: RecipeRequest, rejection: Option<string>, mint: nat -> ObjectId, now: int): (out: Outcome<RM.Recipe>)
    ensures rejection.Some? ==> out == Outcome(Err(NewIncorrectInputError(rejection.value, ErrIncorrectInput)), s)
    ensures out.reply.Ok? <==> rejection.None? && CreateParsable(p)
    ensures rejection.None? && !CreateParsable(p) ==> out == Outcome(Thrown, s)
    ensures !out.reply.Ok? ==> out.store == s
    ensures out.store.files == s.files && out.store.ingredients == s.ingredients
    ensures out.reply.Ok? ==>
      && out.store.recipes == s.recipes + [NewRecipeRow(p, mint(0), now)]
      && out.store.steps == s.steps + NewStepRows(mint(0), p.steps, mint)
      && out.reply.value.id == ToString(mint(0))
      && out.reply.value.name == p.name && out.reply.value.description == p.description
      && !out.reply.value.isAvailable
      && |out.reply.value.steps| == |p.steps|
      && (forall i :: 0 <= i < |p.steps| ==>
            && out.reply.value.steps[i].id == ToString(mint(i + 1))
            && out.reply.value.steps[i].proportion == p.steps[i].proportion
            && out.reply.value.steps[i].orderIndex == p.steps[i].orderIndex)
  {
    if rejection.Some? then Outcome(Err(NewIncorrectInputError(rejection.value, ErrIncorrectInput)), s)
    else
      match CheckIngredientsExist(IngredientIds(p.steps, (st: StepRequest) => st.ingredient))
      case Some(e) => Outcome(Err(e), s)
      case None =>
        if !CreateParsable(p) then Outcome(Thrown, s)
        else
          var row := NewRecipeRow(p, mint(0), now);
          var stepRows := NewStepRows(mint(0), p.steps, mint);
          var doc := UnpopulatedDoc(row, stepRows);
          var recipes := s.recipes + [row];
          Outcome(Ok(RM.SerializeRecipe(doc, false, false)), s.(recipes := recipes, steps := s.steps + stepRows))
  }

  /** `create` never fails because of a step's ingredient, stored or not. */
  lemma CreateIgnoresIngredientStore(s: Store, p: RecipeRequest, mint: nat -> ObjectId, now: int, ingredients: seq<IM.IngredientDoc>)
    requires CreateParsable(p)
    ensures Create(s.(ingredients := ingredients), p, None, mint, now).reply.Ok?
    ensures Create(s.(ingredients := ingredients), p, None, mint, now).reply == Create(s, p, None, mint, now).reply
  {
  }

  /**
   * With fresh identifiers, `findById` on the new recipe answers what
   * `create` answered.
   */
  lemma CreateThenFindById(s: Store, p: RecipeRequest, mint: nat -> ObjectId, now: int)
    requires CreateParsable(p)
    requires forall j :: 0 <= j < |s.recipes| ==> s.recipes[j].id != mint(0)
    requires forall j :: 0 <= j < |s.steps| ==> s.steps[j].recipeId != mint(0)
    ensures var out := Create(s, p, None, mint, now);
      out.reply.Ok? && FindById(out.store, ToString(mint(0)), false, false) == out.reply
  {
    var out := Create(s, p, None, mint, now);
    var rid := mint(0);
    var key := ToString(rid);
    var row := NewRecipeRow(p, rid, now);
    var stepRows := NewStepRows(rid, p.steps, mint);
    assert IndexOf(out.store.recipes, RecipeKey, key) == Some(|s.recipes|) by {
      FreshKeyAbsent(s.recipes, rid);
      IndexOfAppended(s.recipes, row, RecipeKey, key);
    }
    assert StepsOf(out.store.steps, rid) == stepRows by {
      FreshStepsOf(s.steps, stepRows, rid);
    }
    JoinUnpopulated(out.store, row);
    CastableIdAccepted(key);
  }

  /** No recipe row answers to the printed form of an identifier none of them has. */
  lemma FreshKeyAbsent(recipes: seq<RecipeRow>, rid: ObjectId)
    requires forall j :: 0 <= j < |recipes| ==> recipes[j].id != rid
    ensures forall j :: 0 <= j < |recipes| ==> RecipeKey(recipes[j]) != ToString(rid)
  {
    forall j | 0 <= j < |recipes|
      ensures RecipeKey(recipes[j]) != ToString(rid)
    {
      ToStringInjective(recipes[j].id, rid);
    }
  }

  /** Appending the steps of a recipe no stored step belongs to makes them exactly that recipe's steps. */
  lemma FreshStepsOf(steps: seq<StepRow>, added: seq<StepRow>, rid: ObjectId)
    requires forall j :: 0 <= j < |steps| ==> steps[j].recipeId != rid
    requires forall j :: 0 <= j < |added| ==> added[j].recipeId == rid
    ensures StepsOf(steps + added, rid) == added
  {
    var mine := (st: StepRow) => st.recipeId == rid;
    FilterAppend(steps, added, mine);
    assert Filter(steps, mine) == [];
    FilterKeepsAll(added, mine);
    assert [] + added == added;
  }

  // ---------------------------------------------------------------------
  // update

  /** A step of the `update` payload: the step it changes, if named, and the new values. */
  datatype StepPatch = StepPatch(id: Option<string>, ingredient: string, proportion: real, orderIndex: real)

  /** The `update` payload: the recipe's own `id`, which the validator requires, and fields left as they are when absent. */
  datatype RecipePatch = RecipePatch(
    id: string, name: Option<string>, description: Option<string>, picture: Option<string>,
    alcoholLevel: Option<real>, alcoholMinLevel: Option<real>, alcoholMaxLevel: Option<real>,
    steps: Option<seq<StepPatch>>)

  /** A step patch naming its step by a hexadecimal identifier, with a hexadecimal ingredient. */
  predicate PatchWellFormed(sp: StepPatch) {
    sp.id.Some? && IsHexId(sp.id.value) && IsHexId(sp.ingredient)
  }

  /** A well-formed step patch that names a step of recipe `rid`. */
  predicate StepPatchApplies(steps: seq<StepRow>, rid: ObjectId, sp: StepPatch) {
    && PatchWellFormed(sp)
    && exists j :: 0 <= j < |steps| && steps[j].recipeId == rid && steps[j].id == FromString(sp.id.value)
  }

  /**
   * The payload can be applied to recipe `rid` without anything throwing:
   * `deSerializeRecipe` parses the payload's `id`, its picture and every
   * step's identifier and ingredient, and the steps are required.
   */
  predicate UpdateApplies(s: Store, rid: ObjectId, p: RecipePatch) {
    && IsHexId(p.id)
    && p.steps.Some?
    && (p.picture.Some? ==> IsHexId(p.picture.value))
    && forall i :: 0 <= i < |p.steps.value| ==> StepPatchApplies(s.steps, rid, p.steps.value[i])
  }

  /** A patched step keeps its identity and recipe, and takes the patch's ingredient, proportion and index. */
  function PatchStep(row: StepRow, sp: StepPatch): (r: StepRow)
    requires IsHexId(sp.ingredient)
    ensures r.id == row.id && r.recipeId == row.recipeId
    ensures r.ingredientId == FromString(sp.ingredient) && r.proportion == sp.proportion && r.orderIndex == sp.orderIndex
  {
    row.(ingredientId := FromString(sp.ingredient), proportion := sp.proportion, orderIndex := sp.orderIndex)
  }

  /** `after` is `before` with the values of patch `sp`: same identity and recipe, the patch's ingredient, proportion and index. */
  predicate PatchedBy(before: StepRow, after: StepRow, sp: StepPatch) {
    && IsHexId(sp.ingredient)
    && after == StepRow(before.id, before.recipeId, FromString(sp.ingredient), sp.proportion, sp.orderIndex)
  }

  /** The step patch names the step row by a hexadecimal identifier. */
  predicate Names(sp: StepPatch, row: StepRow) {
    sp.id.Some? && IsHexId(sp.id.value) && row.id == FromString(sp.id.value)
  }

  /** Applies one step patch to every row of recipe `rid` it names. */
  function ApplyStepPatch(steps: seq<StepRow>, rid: ObjectId, sp: StepPatch): (r: seq<StepRow>)
    requires PatchWellFormed(sp)
    ensures |r| == |steps|
    ensures forall j :: 0 <= j < |steps| ==> r[j].id == steps[j].id && r[j].recipeId == steps[j].recipeId
    ensures forall j :: 0 <= j < |steps| && (steps[j].recipeId != rid || steps[j].id != FromString(sp.id.value)) ==> r[j] == steps[j]
    ensures forall j :: 0 <= j < |steps| && steps[j].recipeId == rid && steps[j].id == FromString(sp.id.value) ==>
      r[j] == PatchStep(steps[j], sp)
  {
    seq(|steps|, j requires 0 <= j < |steps| =>
      if steps[j].recipeId == rid && steps[j].id == FromString(sp.id.value) then PatchStep(steps[j], sp) else steps[j])
  }

  /**
   * Applies the step patches in payload order, each to the step it names:
   * a step of recipe `rid` takes the values of the last patch naming it,
   * and every other step is left as it is.
   */
  function ApplyStepPatches(steps: seq<StepRow>, rid: ObjectId, sps: seq<StepPatch>): (r: seq<StepRow>)
    requires forall i :: 0 <= i < |sps| ==> PatchWellFormed(sps[i])
    ensures |r| == |steps|
    ensures forall j :: 0 <= j < |steps| ==> r[j].id == steps[j].id && r[j].recipeId == steps[j].recipeId
    ensures forall j :: 0 <= j < |steps| && steps[j].recipeId != rid ==> r[j] == steps[j]
    ensures forall j :: 0 <= j < |steps| && (forall i :: 0 <= i < |sps| ==> !Names(sps[i], steps[j])) ==> r[j] == steps[j]
    ensures forall i, j ::
      (&& 0 <= i < |sps| && 0 <= j < |steps| && steps[j].recipeId == rid && Names(sps[i], steps[j])
       && (forall k :: i < k < |sps| ==> !Names(sps[k], steps[j])))
      ==> PatchedBy(steps[j], r[j], sps[i])
    decreases |sps|
  {
    if |sps| == 0 then steps
    else
      var once := ApplyStepPatch(steps, rid, sps[0]);
      var r := ApplyStepPatches(once, rid, sps[1..]);
      LastPatchWins(steps, once, r, rid, sps);
      r
  }

  /** The step-by-step argument behind the last two clauses of `ApplyStepPatches`. */
  lemma LastPatchWins(steps: seq<StepRow>, once: seq<StepRow>, r: seq<StepRow>, rid: ObjectId, sps: seq<StepPatch>)
    requires |sps| > 0 && PatchWellFormed(sps[0])
    requires once == ApplyStepPatch(steps, rid, sps[0]) && |r| == |steps|
    requires forall j :: 0 <= j < |once| && (forall i :: 0 <= i < |sps[1..]| ==> !Names(sps[1..][i], once[j])) ==> r[j] == once[j]
    requires forall i, j ::
      (&& 0 <= i < |sps[1..]| && 0 <= j < |once| && once[j].recipeId == rid && Names(sps[1..][i], once[j])
       && (forall k :: i < k < |sps[1..]| ==> !Names(sps[1..][k], once[j])))
      ==> PatchedBy(once[j], r[j], sps[1..][i])
    ensures forall j :: 0 <= j < |steps| && (forall i :: 0 <= i < |sps| ==> !Names(sps[i], steps[j])) ==> r[j] == steps[j]
    ensures forall i, j ::
      (&& 0 <= i < |sps| && 0 <= j < |steps| && steps[j].recipeId == rid && Names(sps[i], steps[j])
       && (forall k :: i < k < |sps| ==> !Names(sps[k], steps[j])))
      ==> PatchedBy(steps[j], r[j], sps[i])
  {
    var rest := sps[1..];
    forall j | 0 <= j < |steps| && (forall i :: 0 <= i < |sps| ==> !Names(sps[i], steps[j]))
      ensures r[j] == steps[j]
    {
      assert !Names(sps[0], steps[j]);
      forall i | 0 <= i < |rest|
        ensures !Names(rest[i], once[j])
      {
        assert !Names(sps[i + 1], steps[j]);
        assert once[j].id == steps[j].id;
      }
    }
    forall i, j | 0 <= i < |sps| && 0 <= j < |steps| && steps[j].recipeId == rid && Names(sps[i], steps[j])
                  && (forall k :: i < k < |sps| ==> !Names(sps[k], steps[j]))
      ensures PatchedBy(steps[j], r[j], sps[i])
    {
      assert once[j].id == steps[j].id && once[j].recipeId == steps[j].recipeId;
      forall k | i <= k < |rest|
        ensures !Names(rest[k], once[j])
      {
        assert !Names(sps[k + 1], steps[j]);
      }
      if i == 0 {
        assert once[j] == PatchStep(steps[j], sps[0]);
      } else {
        assert rest[i - 1] == sps[i];
        assert Names(rest[i - 1], once[j]);
      }
    }
  }

  function PatchRow(row: RecipeRow, p: RecipePatch, now: int): (r: RecipeRow)
    requires p.picture.Some? ==> IsHexId(p.picture.value)
    ensures r.id == row.id && r.isAvailable == row.isAvailable && r.defaultGlassVolume == row.defaultGlassVolume
    ensures r.createdAt == row.createdAt && r.updatedAt == now
    ensures r.name == (if p.name.Some? then p.name.value else row.name)
    ensures r.description == (if p.description.Some? then p.description else row.description)
    ensures r.pictureId == (if p.picture.Some? then PayloadPicture(p.picture) else row.pictureId)
    ensures r.alcoholLevel == (if p.alcoholLevel.Some? then p.alcoholLevel.value else row.alcoholLevel)
    ensures r.alcoholMinLevel == (if p.alcoholMinLevel.Some? then p.alcoholMinLevel.value else row.alcoholMinLevel)
    ensures r.alcoholMaxLevel == (if p.alcoholMaxLevel.Some? then p.alcoholMaxLevel.value else row.alcoholMaxLevel)
  {
    row.(name := if p.name.Some? then p.name.value else row.name,
         description := if p.description.Some? then p.description else row.description,
         pictureId := if p.picture.Some? then PayloadPicture(p.picture) else row.pictureId,
         alcoholLevel := if p.alcoholLevel.Some? then p.alcoholLevel.value else row.alcoholLevel,
         alcoholMinLevel := if p.alcoholMinLevel.Some? then p.alcoholMinLevel.value else row.alcoholMinLevel,
         alcoholMaxLevel := if p.alcoholMaxLevel.Some? then p.alcoholMaxLevel.value else row.alcoholMaxLevel,
         updatedAt := now)
  }

  /**
   * `update(id, payload)`: validation, then the lookup (an identifier that
   * is not hexadecimal cannot be cast and throws), then the (never failing)
   * ingredient check. `deSerializeRecipe` then parses the payload's own
   * `id`, which must be hexadecimal; the payload's steps are required, and
   * each must name an existing step of this recipe; otherwise the update
   * throws and nothing changes. Steps are only ever changed, never added or
   * removed.
   */
  function Update(s: Store, id: string, p: RecipePatch, rejection: Option<string>, now: int): (out: Outcome<RM.Recipe>)
    ensures rejection.Some? ==> out == Outcome(Err(NewIncorrectInputError(rejection.value, ErrIncorrectInput)), s)
    ensures rejection.None? && !IsHexId(id) ==> out == Outcome(Thrown, s)
    ensures rejection.None? && IsHexId(id) && Lookup(s.recipes, RecipeKey, CastId(id).value).None? ==>
      out == Outcome(Err(NewNotFoundError("Recipe not found", ErrRecipeNotFound)), s)
    ensures rejection.None? && IsHexId(id) && Lookup(s.recipes, RecipeKey, CastId(id).value).Some? && !IsHexId(p.id) ==>
      out == Outcome(Thrown, s)
    ensures out.reply.Ok? <==>
      && rejection.None? && IsHexId(id) && Lookup(s.recipes, RecipeKey, CastId(id).value).Some?
      && UpdateApplies(s, Lookup(s.recipes, RecipeKey, CastId(id).value).value.id, p)
    ensures !out.reply.Ok? ==> out.store == s
    ensures out.store.files == s.files && out.store.ingredients == s.ingredients
    ensures |out.store.recipes| == |s.recipes| && |out.store.steps| == |s.steps|
    ensures forall j :: 0 <= j < |s.recipes| ==> out.store.recipes[j].id == s.recipes[j].id
    ensures forall j :: 0 <= j < |s.steps| ==> out.store.steps[j].id == s.steps[j].id && out.store.steps[j].recipeId == s.steps[j].recipeId
    ensures out.reply.Ok? ==>
      var i := IndexOf(s.recipes, RecipeKey, CastId(id).value).value;
      && out.store.recipes[i] == PatchRow(s.recipes[i], p, now)
      && (forall j :: 0 <= j < |s.recipes| && j != i ==> out.store.recipes[j] == s.recipes[j])
      && out.store.steps == ApplyStepPatches(s.steps, s.recipes[i].id, p.steps.value)
  {
    if rejection.Some? then Outcome(Err(NewIncorrectInputError(rejection.value, ErrIncorrectInput)), s)
    else if !IsHexId(id) then Outcome(Thrown, s)
    else
      match IndexOf(s.recipes, RecipeKey, CastId(id).value)
      case None => Outcome(Err(NewNotFoundError("Recipe not found", ErrRecipeNotFound)), s)
      case Some(i) =>
        var row := s.recipes[i];
        var ids := if p.steps.Some? then IngredientIds(p.steps.value, (sp: StepPatch) => sp.ingredient) else [];
        match CheckIngredientsExist(ids)
        case Some(e) => Outcome(Err(e), s)
        case None =>
          if !UpdateApplies(s, row.id, p) then Outcome(Thrown, s)
          else
            var updated := PatchRow(row, p, now);
            var s' := s.(recipes := Replace(s.recipes, i, updated), steps := ApplyStepPatches(s.steps, row.id, p.steps.value));
            match Join(s', updated, false, false)
            case None => assert false; Outcome(Thrown, s)
            case Some(doc) => Outcome(Ok(RM.SerializeRecipe(doc, false, false)), s')
  }

  /** A successful `update` changes only the target recipe, and only the steps of that recipe. */
  lemma UpdateTouchesOnlyTarget(s: Store, id: string, p: RecipePatch, rejection: Option<string>, now: int)
    requires Update(s, id, p, rejection, now).reply.Ok?
    ensures var out := Update(s, id, p, rejection, now);
      var i := IndexOf(s.recipes, RecipeKey, CastId(id).value).value;
      && out.store.recipes[i] == PatchRow(s.recipes[i], p, now)
      && (forall j :: 0 <= j < |s.recipes| && j != i ==> out.store.recipes[j] == s.recipes[j])
      && (forall j :: 0 <= j < |s.steps| && s.steps[j].recipeId != s.recipes[i].id ==> out.store.steps[j] == s.steps[j])
  {
    UpdatedStore(s, id, p, rejection, now);
  }

  /** The store a successful `update` leaves: the target row patched and the payload's steps applied. */
  lemma UpdatedStore(s: Store, id: string, p: RecipePatch, rejection: Option<string>, now: int)
    requires Update(s, id, p, rejection, now).reply.Ok?
    ensures var i := IndexOf(s.recipes, RecipeKey, CastId(id).value);
      && rejection.None? && i.Some?
      && UpdateApplies(s, s.recipes[i.value].id, p)
      && Update(s, id, p, rejection, now).store
         == s.(recipes := Replace(s.recipes, i.value, PatchRow(s.recipes[i.value], p, now)),
               steps := ApplyStepPatches(s.steps, s.recipes[i.value].id, p.steps.value))
  {
  }

  /** After a successful `update`, `findById` answers what `update` answered. */
  lemma UpdateThenFindById(s: Store, id: string, p: RecipePatch, rejection: Option<string>, now: int)
    requires Update(s, id, p, rejection, now).reply.Ok?
    ensures var out := Update(s, id, p, rejection, now);
      FindById(out.store, id, false, false) == out.reply
  {
    var out := Update(s, id, p, rejection, now);
    var i := IndexOf(s.recipes, RecipeKey, CastId(id).value).value;
    assert forall j :: 0 <= j < |s.recipes| ==> RecipeKey(out.store.recipes[j]) == RecipeKey(s.recipes[j]);
    IndexOfSameKeys(out.store.recipes, s.recipes, RecipeKey, CastId(id).value);
    CastableIdAccepted(id);
  }

  // ---------------------------------------------------------------------
  // delete

  /**
   * `delete(id)`: an identifier that is not hexadecimal cannot be cast and
   * throws; an unknown recipe is not found; in both cases nothing changes.
   * Otherwise its picture file (if it has one and it is stored), its steps
   * and the recipe itself are removed.
   */
  function Delete(s: Store, id: string): (out: Outcome<()>)
    ensures !IsHexId(id) ==> out == Outcome(Thrown, s)
    ensures IsHexId(id) && Lookup(s.recipes, RecipeKey, CastId(id).value).None? ==>
      out == Outcome(Err(NewNotFoundError("Recipe not found", ErrRecipeNotFound)), s)
    ensures out.reply.Ok? <==> IsHexId(id) && Lookup(s.recipes, RecipeKey, CastId(id).value).Some?
    ensures out.store.ingredients == s.ingredients
    ensures out.reply.Ok? ==>
      var target := Lookup(s.recipes, RecipeKey, CastId(id).value).value;
      && (forall r :: r in out.store.recipes <==> r in s.recipes && r.id != target.id)
      && (forall st :: st in out.store.steps <==> st in s.steps && st.recipeId != target.id)
      && (forall f :: f in out.store.files <==> f in s.files && (target.pictureId.None? || f.id != target.pictureId.value))
  {
    if !IsHexId(id) then Outcome(Thrown, s)
    else
    match Lookup(s.recipes, RecipeKey, CastId(id).value)
    case None => Outcome(Err(NewNotFoundError("Recipe not found", ErrRecipeNotFound)), s)
    case Some(target) =>
      var files :=
        if target.pictureId.Some? && Lookup(s.files, FileKey, ToString(target.pictureId.value)).Some? then
          Filter(s.files, (f: FM.FileDoc) => f.id != target.pictureId.value)
        else s.files;
      assert forall f :: f in files <==> f in s.files && (target.pictureId.None? || f.id != target.pictureId.value) by {
        if target.pictureId.Some? && Lookup(s.files, FileKey, ToString(target.pictureId.value)).None? {
          forall f | f in s.files
            ensures f.id != target.pictureId.value
          {
            var k :| 0 <= k < |s.files| && s.files[k] == f;
            assert FileKey(s.files[k]) != ToString(target.pictureId.value);
          }
        }
      }
      Outcome(Ok(()), Store(Filter(s.recipes, (r: RecipeRow) => r.id != target.id),
                            Filter(s.steps, (st: StepRow) => st.recipeId != target.id),
                            files, s.ingredients))
  }

  /** After a successful `delete`, the recipe is no longer found, by the store or by `findById`, and no step refers to it. */
  lemma DeleteThenNotFound(s: Store, id: string)
    requires Delete(s, id).reply.Ok?
    ensures var after := Delete(s, id).store;
      && Lookup(after.recipes, RecipeKey, CastId(id).value).None?
      && (forall st :: st in after.steps ==> ToString(st.recipeId) != CastId(id).value)
      && FindById(after, id, false, false) == Err(NewNotFoundError("Recipe not found", ErrRecipeNotFound))
  {
    var key := CastId(id).value;
    var target := Lookup(s.recipes, RecipeKey, key).value;
    var after := Delete(s, id).store;
    forall j | 0 <= j < |after.recipes|
      ensures RecipeKey(after.recipes[j]) != key
    {
      assert after.recipes[j] in after.recipes;
      ToStringInjective(after.recipes[j].id, target.id);
    }
    forall st | st in after.steps
      ensures ToString(st.recipeId) != key
    {
      ToStringInjective(st.recipeId, target.id);
    }
    CastableIdAccepted(id);
  }
}
