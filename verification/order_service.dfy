/**
 * Order admission (src/services/order/order.ts): a fixed sequence of checks
 * over the stored orders, recipes and ingredients, then a snapshotting insert.
 */
module OrderService {
  import opened Options
  import opened ObjectIds
  import opened Errors
  import opened Stores
  import opened OrderModel
  import IM = IngredientModel
  import RM = RecipeModel
  import RF = References

  /** A requested step: the ingredient is named by the printed form of its identifier. */
  datatype StepRequest = StepRequest(status: OrderStatus, orderIndex: real, quantity: real, ingredient: string)

  /** The `create` payload: the recipe is named by its identifier; the order and its steps carry no identifier yet. */
  datatype OrderRequest = OrderRequest(status: OrderStatus, progress: real, recipe: string, steps: seq<StepRequest>)

  datatype Store = Store(orders: seq<OrderDoc>, recipes: seq<RM.RecipeDoc>, ingredients: seq<IM.IngredientDoc>)

  /** A reply together with the store it leaves behind. */
  datatype Outcome = Outcome(reply: Reply<Order>, store: Store)

  /** Stored orders embed unpopulated recipes, and stored recipes reference their picture and ingredients by identifier. */
  predicate StoreShaped(s: Store) {
    && (forall i :: 0 <= i < |s.orders| ==> DocShaped(s.orders[i]))
    && (forall i :: 0 <= i < |s.recipes| ==> RM.DocShaped(s.recipes[i], false, false))
  }

  /** The store-wide invariant: no two stored orders are both in status CREATED. */
  predicate AtMostOneCreated(orders: seq<OrderDoc>) {
    forall i, j :: 0 <= i < |orders| && 0 <= j < |orders| && orders[i].status == Created && orders[j].status == Created ==> i == j
  }

  predicate HasCreated(orders: seq<OrderDoc>) {
    exists i :: 0 <= i < |orders| && orders[i].status == Created
  }

  function RecipeKey(r: RM.RecipeDoc): string { ToString(r.id) }

  function IngredientKey(d: IM.IngredientDoc): string { ToString(d.id) }

  /** `find`: every stored order, in store order, through the order mapper. */
  function Find(s: Store): (r: seq<Order>)
    requires StoreShaped(s)
    ensures |r| == |s.orders|
    ensures forall i :: 0 <= i < |r| ==> r[i].status == s.orders[i].status && r[i].id == ToString(s.orders[i].id)
  {
    SerializeOrders(s.orders)
  }

  /** The ingredient named `id` is found: the identifier casts and a stored ingredient has it. */
  predicate Stocked(ingredients: seq<IM.IngredientDoc>, id: string) {
    LookupById(ingredients, IngredientKey, id).Some?
  }

  /** The stored ingredient that `id` names. */
  function Found(ingredients: seq<IM.IngredientDoc>, id: string): (d: IM.IngredientDoc)
    requires Stocked(ingredients, id)
    ensures IsHexId(id) && IngredientKey(d) == CastId(id).value
  {
    LookupById(ingredients, IngredientKey, id).value
  }

  /** The ingredient as an order step records it: the API form of the stored ingredient. */
  function Snapshot(ingredients: seq<IM.IngredientDoc>, id: string): IM.Ingredient
    requires Stocked(ingredients, id)
  {
    IM.SerializeIngredient(Found(ingredients, id))
  }

  /** The position of the first step whose ingredient is not stored, or the step count when all are. */
  function FirstMissing(ingredients: seq<IM.IngredientDoc>, steps: seq<StepRequest>): (k: nat)
    ensures k <= |steps|
    ensures forall j :: 0 <= j < k ==> Stocked(ingredients, steps[j].ingredient)
    ensures k < |steps| ==> !Stocked(ingredients, steps[k].ingredient)
  {
    if |steps| == 0 then 0
    else if !Stocked(ingredients, steps[0].ingredient) then 0
    else 1 + FirstMissing(ingredients, steps[1..])
  }

  /**
   * The loop of `create` as written: it looks the ingredients up one step at
   * a time and stops at the first that is missing, or throws there when its
   * identifier cannot be cast. `lookups` counts the lookups attempted.
   */
  method CollectSnapshots(ingredients: seq<IM.IngredientDoc>, steps: seq<StepRequest>)
    returns (missing: bool, thrown: bool, snapshots: seq<IM.Ingredient>, lookups: nat)
    ensures missing <==> FirstMissing(ingredients, steps) < |steps|
    ensures thrown <==> missing && !IsHexId(steps[FirstMissing(ingredients, steps)].ingredient)
    ensures lookups == if missing then FirstMissing(ingredients, steps) + 1 else |steps|
    ensures !missing ==> |snapshots| == |steps|
    ensures !missing ==> forall j :: 0 <= j < |steps| ==>
      snapshots[j] == Snapshot(ingredients, steps[j].ingredient)
  {
    missing, thrown := false, false;
    snapshots := [];
    lookups := 0;
    var i := 0;
    while i < |steps|
      invariant 0 <= i <= |steps|
      invariant lookups == i && |snapshots| == i
      invariant forall j :: 0 <= j < i ==> Stocked(ingredients, steps[j].ingredient)
      invariant forall j :: 0 <= j < i ==>
        snapshots[j] == Snapshot(ingredients, steps[j].ingredient)
    {
      var found := LookupById(ingredients, IngredientKey, steps[i].ingredient);
      lookups := lookups + 1;
      if found.None? {
        FirstMissingIsFirst(ingredients, steps, i);
        missing, thrown := true, !IsHexId(steps[i].ingredient);
        return;
      }
      var snapshot := IM.SerializeIngredient(found.value);
      SnapshotsExtend(ingredients, steps, snapshots, i);
      snapshots := snapshots + [snapshot];
      i := i + 1;
    }
    FirstMissingIsFirst(ingredients, steps, i);
  }

  /** One more found ingredient extends the snapshots taken so far. */
  lemma SnapshotsExtend(ingredients: seq<IM.IngredientDoc>, steps: seq<StepRequest>, snapshots: seq<IM.Ingredient>, i: nat)
    requires i < |steps| && |snapshots| == i
    requires forall j :: 0 <= j < i ==> Stocked(ingredients, steps[j].ingredient)
    requires forall j :: 0 <= j < i ==> snapshots[j] == Snapshot(ingredients, steps[j].ingredient)
    requires Stocked(ingredients, steps[i].ingredient)
    ensures var more := snapshots + [Snapshot(ingredients, steps[i].ingredient)];
      && (forall j :: 0 <= j < i + 1 ==> Stocked(ingredients, steps[j].ingredient))
      && (forall j :: 0 <= j < i + 1 ==> more[j] == Snapshot(ingredients, steps[j].ingredient))
  {
  }

  /** `FirstMissing` is the one position where every earlier ingredient is stored and its own is not. */
  lemma FirstMissingIsFirst(ingredients: seq<IM.IngredientDoc>, steps: seq<StepRequest>, i: nat)
    requires i <= |steps|
    requires forall j :: 0 <= j < i ==> Stocked(ingredients, steps[j].ingredient)
    requires i < |steps| ==> !Stocked(ingredients, steps[i].ingredient)
    ensures FirstMissing(ingredients, steps) == i
  {
  }

  /** The stored step: a fresh identifier, the requested fields, and the ingredient's snapshot. */
  function NewStep(req: StepRequest, id: ObjectId, ingredient: IM.IngredientDoc): OrderStepDoc {
    OrderStepDoc(id, req.status, req.orderIndex, req.quantity, IM.DeSerializeIngredient(IM.SerializeIngredient(ingredient)))
  }

  /** The stored order: fresh identifiers from `mint`, the recipe snapshot, and the clock's `now` as both timestamps. */
  function NewOrder(req: OrderRequest, recipe: RM.RecipeDoc, ingredients: seq<IM.IngredientDoc>, mint: nat -> ObjectId, now: int): (o: OrderDoc)
    requires RM.DocShaped(recipe, false, false)
    requires FirstMissing(ingredients, req.steps) == |req.steps|
    ensures DocShaped(o)
    ensures |o.steps| == |req.steps|
  {
    var snapshot := RM.DeSerializeRecipe(RM.SerializeRecipe(recipe, false, false), false, false);
    OrderDoc(mint(0), req.status, req.progress, snapshot, NewSteps(req.steps, ingredients, mint), now, now)
  }

  /** The stored steps: identifiers `mint(1)`, `mint(2)`, ... and each ingredient's snapshot. */
  function NewSteps(steps: seq<StepRequest>, ingredients: seq<IM.IngredientDoc>, mint: nat -> ObjectId): (r: seq<OrderStepDoc>)
    requires FirstMissing(ingredients, steps) == |steps|
    ensures |r| == |steps|
    ensures forall i :: 0 <= i < |steps| ==> r[i] == NewStep(steps[i], mint(i + 1), Found(ingredients, steps[i].ingredient))
  {
    seq(|steps|, i requires 0 <= i < |steps| =>
      NewStep(steps[i], mint(i + 1), Found(ingredients, steps[i].ingredient)))
  }

  /**
   * `create`. `rejection` is the payload validator's first message, if it
   * rejects the payload; `mint` supplies fresh identifiers and `now` the clock.
   * The validator only asks for strings as the recipe and ingredient
   * identifiers, so a lookup whose identifier cannot be cast throws.
   */
  function Create(s: Store, req: OrderRequest, rejection: Option<string>, mint: nat -> ObjectId, now: int): (out: Outcome)
    requires StoreShaped(s)
    ensures StoreShaped(out.store)
    ensures out.store.recipes == s.recipes && out.store.ingredients == s.ingredients
    ensures HasCreated(s.orders) ==>
      out.reply == Err(NewForbiddenError("There is already an order in status created", ErrOrderAlreadyInStatusCreated))
    ensures !HasCreated(s.orders) && rejection.Some? ==>
      out.reply == Err(NewIncorrectInputError(rejection.value, ErrIncorrectInput))
    ensures !HasCreated(s.orders) && rejection.None? && !IsHexId(req.recipe) ==> out.reply == Thrown
    ensures !HasCreated(s.orders) && rejection.None? && IsHexId(req.recipe) && LookupById(s.recipes, RecipeKey, req.recipe).None? ==>
      out.reply == Err(NewNotFoundError("Recipe not found", ErrRecipeNotFound))
    ensures (&& !HasCreated(s.orders) && rejection.None? && LookupById(s.recipes, RecipeKey, req.recipe).Some?
             && FirstMissing(s.ingredients, req.steps) < |req.steps|) ==>
      out.reply == if IsHexId(req.steps[FirstMissing(s.ingredients, req.steps)].ingredient)
                   then Err(NewNotFoundError("Ingredient not found", ErrIngredientNotFound))
                   else Thrown
    ensures out.reply.Ok? <==>
      !HasCreated(s.orders) && rejection.None? && LookupById(s.recipes, RecipeKey, req.recipe).Some?
      && FirstMissing(s.ingredients, req.steps) == |req.steps|
    ensures !out.reply.Ok? ==> out.store == s
    ensures out.reply.Ok? ==> |out.store.orders| == |s.orders| + 1 && out.store.orders[..|s.orders|] == s.orders
    ensures out.reply.Thrown? <==>
      && !HasCreated(s.orders) && rejection.None?
      && (|| !IsHexId(req.recipe)
          || (&& LookupById(s.recipes, RecipeKey, req.recipe).Some?
              && FirstMissing(s.ingredients, req.steps) < |req.steps|
              && !IsHexId(req.steps[FirstMissing(s.ingredients, req.steps)].ingredient)))
  {
    if HasCreated(s.orders) then
      Outcome(Err(NewForbiddenError("There is already an order in status created", ErrOrderAlreadyInStatusCreated)), s)
    else if rejection.Some? then
      Outcome(Err(NewIncorrectInputError(rejection.value, ErrIncorrectInput)), s)
    else if !IsHexId(req.recipe) then Outcome(Thrown, s)
    else
      match LookupById(s.recipes, RecipeKey, req.recipe)
      case None => Outcome(Err(NewNotFoundError("Recipe not found", ErrRecipeNotFound)), s)
      case Some(recipe) =>
        var k := FirstMissing(s.ingredients, req.steps);
        if k < |req.steps| && !IsHexId(req.steps[k].ingredient) then Outcome(Thrown, s)
        else if k < |req.steps| then
          Outcome(Err(NewNotFoundError("Ingredient not found", ErrIngredientNotFound)), s)
        else Insert(s, NewOrder(req, recipe, s.ingredients, mint, now))
  }

  /** `save()` of a new order, answered with its serialized form. */
  function Insert(s: Store, doc: OrderDoc): (out: Outcome)
    requires StoreShaped(s) && DocShaped(doc)
    ensures StoreShaped(out.store)
    ensures out.store == s.(orders := s.orders + [doc])
    ensures |out.store.orders| == |s.orders| + 1 && out.store.orders[..|s.orders|] == s.orders
    ensures out.reply == Ok(SerializeOrder(doc))
  {
    var orders := s.orders + [doc];
    assert orders[..|s.orders|] == s.orders;
    Outcome(Ok(SerializeOrder(doc)), s.(orders := orders))
  }

  /** A successful `create` appends the new order and answers with its serialized form. */
  lemma CreateAppends(s: Store, req: OrderRequest, rejection: Option<string>, mint: nat -> ObjectId, now: int)
    requires StoreShaped(s)
    requires Create(s, req, rejection, mint, now).reply.Ok?
    ensures var out := Create(s, req, rejection, mint, now);
      var recipe := LookupById(s.recipes, RecipeKey, req.recipe).value;
      && RM.DocShaped(recipe, false, false)
      && FirstMissing(s.ingredients, req.steps) == |req.steps|
      && out.store.orders[|s.orders|] == NewOrder(req, recipe, s.ingredients, mint, now)
      && out.reply.value == SerializeOrder(NewOrder(req, recipe, s.ingredients, mint, now))
  {
    var out := Create(s, req, rejection, mint, now);
    var recipe := LookupById(s.recipes, RecipeKey, req.recipe).value;
    var doc := NewOrder(req, recipe, s.ingredients, mint, now);
    assert out.store.orders == s.orders + [doc];
  }

  /** The new order copies the request's fields and carries what the mappers keep of the recipe and of each ingredient. */
  lemma NewOrderContents(req: OrderRequest, recipe: RM.RecipeDoc, ingredients: seq<IM.IngredientDoc>, mint: nat -> ObjectId, now: int)
    requires RM.DocShaped(recipe, false, false)
    requires FirstMissing(ingredients, req.steps) == |req.steps|
    ensures var doc := NewOrder(req, recipe, ingredients, mint, now);
      && doc.status == req.status && doc.progress == req.progress
      && doc.recipe == RM.Carried(recipe)
      && |doc.steps| == |req.steps|
      && (forall i :: 0 <= i < |req.steps| ==>
            && doc.steps[i].status == req.steps[i].status
            && doc.steps[i].orderIndex == req.steps[i].orderIndex
            && doc.steps[i].quantity == req.steps[i].quantity
            && doc.steps[i].ingredient == IM.Carried(Found(ingredients, req.steps[i].ingredient)))
  {
    NewOrderRecipe(req, recipe, ingredients, mint, now);
    NewOrderSteps(req, recipe, ingredients, mint, now);
  }

  lemma NewOrderRecipe(req: OrderRequest, recipe: RM.RecipeDoc, ingredients: seq<IM.IngredientDoc>, mint: nat -> ObjectId, now: int)
    requires RM.DocShaped(recipe, false, false)
    requires FirstMissing(ingredients, req.steps) == |req.steps|
    ensures NewOrder(req, recipe, ingredients, mint, now).recipe == RM.Carried(recipe)
  {
    RM.DocRoundTrip(recipe, false, false);
  }

  lemma NewOrderSteps(req: OrderRequest, recipe: RM.RecipeDoc, ingredients: seq<IM.IngredientDoc>, mint: nat -> ObjectId, now: int)
    requires RM.DocShaped(recipe, false, false)
    requires FirstMissing(ingredients, req.steps) == |req.steps|
    ensures var doc := NewOrder(req, recipe, ingredients, mint, now);
      forall i :: 0 <= i < |req.steps| ==>
        && doc.steps[i].status == req.steps[i].status
        && doc.steps[i].orderIndex == req.steps[i].orderIndex
        && doc.steps[i].quantity == req.steps[i].quantity
        && doc.steps[i].ingredient == IM.Carried(Found(ingredients, req.steps[i].ingredient))
  {
    assert NewOrder(req, recipe, ingredients, mint, now).steps == NewSteps(req.steps, ingredients, mint);
    NewStepsCarry(req.steps, ingredients, mint);
  }

  lemma NewStepsCarry(steps: seq<StepRequest>, ingredients: seq<IM.IngredientDoc>, mint: nat -> ObjectId)
    requires FirstMissing(ingredients, steps) == |steps|
    ensures var r := NewSteps(steps, ingredients, mint);
      forall i :: 0 <= i < |steps| ==>
        && r[i].status == steps[i].status
        && r[i].orderIndex == steps[i].orderIndex
        && r[i].quantity == steps[i].quantity
        && r[i].ingredient == IM.Carried(Found(ingredients, steps[i].ingredient))
  {
    var r := NewSteps(steps, ingredients, mint);
    forall i | 0 <= i < |steps|
      ensures && r[i].status == steps[i].status
              && r[i].orderIndex == steps[i].orderIndex
              && r[i].quantity == steps[i].quantity
              && r[i].ingredient == IM.Carried(Found(ingredients, steps[i].ingredient))
    {
      NewStepCarries(steps[i], mint(i + 1), Found(ingredients, steps[i].ingredient));
    }
  }

  /** A stored step's ingredient is what the ingredient mappers carry of the looked-up ingredient. */
  lemma NewStepCarries(req: StepRequest, id: ObjectId, ingredient: IM.IngredientDoc)
    ensures NewStep(req, id, ingredient).ingredient == IM.Carried(ingredient)
  {
    IM.DocRoundTrip(ingredient);
  }

  /**
   * The successful reply carries the serialized snapshot of the looked-up
   * recipe, and each step the serialized snapshot of its ingredient.
   */
  lemma CreateReplySnapshots(s: Store, req: OrderRequest, rejection: Option<string>, mint: nat -> ObjectId, now: int)
    requires StoreShaped(s)
    requires Create(s, req, rejection, mint, now).reply.Ok?
    ensures var a := Create(s, req, rejection, mint, now).reply.value;
      && a.recipe == RM.SerializeRecipe(LookupById(s.recipes, RecipeKey, req.recipe).value, false, false)
      && |a.steps| == |req.steps|
      && forall i :: 0 <= i < |req.steps| ==>
           a.steps[i].ingredient == Snapshot(s.ingredients, req.steps[i].ingredient)
  {
    CreateAppends(s, req, rejection, mint, now);
    NewOrderSnapshots(req, LookupById(s.recipes, RecipeKey, req.recipe).value, s.ingredients, mint, now);
  }

  /** The serialized new order shows the recipe and each ingredient exactly as their own mappers show them. */
  lemma NewOrderSnapshots(req: OrderRequest, recipe: RM.RecipeDoc, ingredients: seq<IM.IngredientDoc>, mint: nat -> ObjectId, now: int)
    requires RM.DocShaped(recipe, false, false)
    requires FirstMissing(ingredients, req.steps) == |req.steps|
    ensures var a := SerializeOrder(NewOrder(req, recipe, ingredients, mint, now));
      && a.recipe == RM.SerializeRecipe(recipe, false, false)
      && |a.steps| == |req.steps|
      && forall i :: 0 <= i < |req.steps| ==>
           a.steps[i].ingredient == Snapshot(ingredients, req.steps[i].ingredient)
  {
    var doc := NewOrder(req, recipe, ingredients, mint, now);
    var a := SerializeOrder(doc);
    RM.ApiRoundTrip(RM.SerializeRecipe(recipe, false, false), false, false);
    forall i | 0 <= i < |req.steps|
      ensures a.steps[i].ingredient == Snapshot(ingredients, req.steps[i].ingredient)
    {
      var found := Found(ingredients, req.steps[i].ingredient);
      assert doc.steps[i] == NewStep(req.steps[i], mint(i + 1), found);
      assert a.steps[i] == SerializeStep(doc.steps[i]);
      IM.ApiRoundTrip(IM.SerializeIngredient(found));
    }
  }

  /** `create` keeps at most one order in status CREATED, on every path. */
  lemma CreatePreservesAtMostOneCreated(s: Store, req: OrderRequest, rejection: Option<string>, mint: nat -> ObjectId, now: int)
    requires StoreShaped(s)
    requires AtMostOneCreated(s.orders)
    ensures AtMostOneCreated(Create(s, req, rejection, mint, now).store.orders)
  {
    var out := Create(s, req, rejection, mint, now);
    if out.reply.Ok? {
      var orders := out.store.orders;
      assert !HasCreated(s.orders);
      assert forall i :: 0 <= i < |s.orders| ==> orders[..|s.orders|][i] == orders[i];
      assert forall i :: 0 <= i < |s.orders| ==> orders[i].status != Created;
    }
  }

  /** Only the steps up to the first missing ingredient decide where the scan stops. */
  lemma {:induction false} FirstMissingPrefix(ingredients: seq<IM.IngredientDoc>, steps: seq<StepRequest>, other: seq<StepRequest>)
    requires FirstMissing(ingredients, steps) < |steps|
    requires FirstMissing(ingredients, steps) < |other|
    requires other[..FirstMissing(ingredients, steps) + 1] == steps[..FirstMissing(ingredients, steps) + 1]
    ensures FirstMissing(ingredients, other) == FirstMissing(ingredients, steps)
    decreases |steps|
  {
    var k := FirstMissing(ingredients, steps);
    assert steps[0] == steps[..k + 1][0] == other[..k + 1][0] == other[0];
    if k > 0 {
      assert steps[1..][..k] == steps[..k + 1][1..];
      assert other[1..][..k] == other[..k + 1][1..];
      FirstMissingPrefix(ingredients, steps[1..], other[1..]);
    }
  }

  /**
   * The steps after the first missing ingredient are never looked up: any
   * request that agrees up to and including that step gets the same outcome.
   */
  lemma LaterStepsIrrelevant(s: Store, req: OrderRequest, other: seq<StepRequest>, rejection: Option<string>, mint: nat -> ObjectId, now: int)
    requires StoreShaped(s)
    requires FirstMissing(s.ingredients, req.steps) < |req.steps|
    requires FirstMissing(s.ingredients, req.steps) < |other|
    requires other[..FirstMissing(s.ingredients, req.steps) + 1] == req.steps[..FirstMissing(s.ingredients, req.steps) + 1]
    ensures Create(s, req.(steps := other), rejection, mint, now) == Create(s, req, rejection, mint, now)
  {
    var k := FirstMissing(s.ingredients, req.steps);
    FirstMissingPrefix(s.ingredients, req.steps, other);
    assert other[k] == other[..k + 1][k] == req.steps[..k + 1][k] == req.steps[k];
    var a, b := Create(s, req.(steps := other), rejection, mint, now), Create(s, req, rejection, mint, now);
    assert a.store == s && b.store == s;
    if !HasCreated(s.orders) && rejection.None? && IsHexId(req.recipe) && LookupById(s.recipes, RecipeKey, req.recipe).Some? {
      assert a.reply == b.reply;
    }
  }

  /**
   * `create` as written. The payload validator asks each step for its
   * position under the key `order` and admits no other key, while
   * `deSerializeOrder` copies the step's `orderIndex` into `order_index`,
   * which the order schema requires. A step that passes the validator thus
   * reaches `save()` without `order_index`, and the save throws: only an
   * order without steps is ever stored. `Create` is the intended behaviour,
   * where each step's position arrives as `orderIndex`.
   */
  function CreateAsWritten(s: Store, req: OrderRequest, rejection: Option<string>, mint: nat -> ObjectId, now: int): (out: Outcome)
    requires StoreShaped(s)
    ensures out.reply.Ok? ==> |req.steps| == 0
    ensures out.store.orders != s.orders ==> |req.steps| == 0
    ensures !Create(s, req, rejection, mint, now).reply.Ok? ==> out == Create(s, req, rejection, mint, now)
  {
    var intended := Create(s, req, rejection, mint, now);
    if intended.reply.Ok? && |req.steps| > 0 then Outcome(Thrown, s) else intended
  }

  /** The identifier that the witness below gives to its recipe and to its ingredient. */
  const WitnessHex: string := "0123456789abcdef01234567"

  function WitnessId(n: nat): (o: ObjectId)
    ensures ToString(o) == WitnessHex
  {
    assert IsCanonicalId(WitnessHex);
    PrintParse(WitnessHex);
    FromString(WitnessHex)
  }

  /** A store with no orders, one recipe and one ingredient, both named `WitnessHex`. */
  function WitnessStore(): (s: Store)
    ensures StoreShaped(s) && s.orders == []
    ensures LookupById(s.recipes, RecipeKey, WitnessHex).Some?
    ensures Stocked(s.ingredients, WitnessHex)
  {
    var oid := WitnessId(0);
    var s := Store([], [RM.RecipeDoc(oid, "Mojito", None, RF.NoRef, 10.0, 5.0, 15.0, true, None, [], 0, 0)],
                   [IM.IngredientDoc(oid, "Rum", true, 40.0, None, None, None)]);
    assert IsCanonicalId(WitnessHex);
    assert s.recipes[0].id == oid;
    assert s.ingredients[0].id == oid;
    s
  }

  /** A one-step order for the recipe and the ingredient of `WitnessStore`. */
  function WitnessRequest(): (req: OrderRequest)
    ensures |req.steps| == 1 && req.recipe == WitnessHex && req.steps[0].ingredient == WitnessHex
  {
    OrderRequest(Created, 0.0, WitnessHex, [StepRequest(Created, 0.0, 50.0, WitnessHex)])
  }

  /**
   * An order that `Create` accepts and stores, with one step whose recipe
   * and ingredient are both stored, is refused by `CreateAsWritten`: the
   * save throws and nothing is stored.
   */
  lemma CreateAsWrittenRejectsSteps()
    ensures Create(WitnessStore(), WitnessRequest(), None, WitnessId, 0).reply.Ok?
    ensures |Create(WitnessStore(), WitnessRequest(), None, WitnessId, 0).store.orders| == 1
    ensures CreateAsWritten(WitnessStore(), WitnessRequest(), None, WitnessId, 0) == Outcome(Thrown, WitnessStore())
  {
    var s, req := WitnessStore(), WitnessRequest();
    assert !HasCreated(s.orders);
    FirstMissingIsFirst(s.ingredients, req.steps, 1);
  }
}
