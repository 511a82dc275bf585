/**
 * The order document and its API mappers (src/models/Order.ts). An order
 * embeds a snapshot of its recipe and of each step's ingredient.
 */
module OrderModel {
  import opened ObjectIds
  import IM = IngredientModel
  import RM = RecipeModel

  /** The statuses of src/services/order/types.ts. */
  datatype OrderStatus = Created | InProgress | Done | Canceled

  datatype OrderStepDoc = OrderStepDoc(id: ObjectId, status: OrderStatus, orderIndex: real, quantity: real, ingredient: IM.IngredientDoc)

  datatype OrderDoc = OrderDoc(
    id: ObjectId, status: OrderStatus, progress: real, recipe: RM.RecipeDoc,
    steps: seq<OrderStepDoc>, createdAt: int, updatedAt: int)

  datatype OrderStep = OrderStep(id: string, status: OrderStatus, orderIndex: real, quantity: real, ingredient: IM.Ingredient)

  datatype Order = Order(
    id: string, status: OrderStatus, progress: real, recipe: RM.Recipe,
    steps: seq<OrderStep>, createdAt: int, updatedAt: int)

  /** The embedded recipe holds its references as identifiers, which is what the recipe mappers are called with. */
  predicate DocShaped(o: OrderDoc) {
    RM.DocShaped(o.recipe, false, false)
  }

  /** An API order `deSerializeOrder` accepts without throwing. */
  predicate Shaped(o: Order) {
    && IsHexId(o.id)
    && RM.Shaped(o.recipe, false, false)
    && forall i :: 0 <= i < |o.steps| ==> IsHexId(o.steps[i].id) && IM.WellFormed(o.steps[i].ingredient)
  }

  /** Every identifier string of the API order is in printed form. */
  predicate Canonical(o: Order) {
    && IsCanonicalId(o.id)
    && RM.Canonical(o.recipe)
    && forall i :: 0 <= i < |o.steps| ==> IsCanonicalId(o.steps[i].id) && IM.Canonical(o.steps[i].ingredient)
  }

  function SerializeStep(s: OrderStepDoc): OrderStep {
    OrderStep(ToString(s.id), s.status, s.orderIndex, s.quantity, IM.SerializeIngredient(s.ingredient))
  }

  function SerializeSteps(ss: seq<OrderStepDoc>): (r: seq<OrderStep>)
    ensures |r| == |ss|
    ensures forall i :: 0 <= i < |ss| ==> r[i] == SerializeStep(ss[i])
  {
    seq(|ss|, i requires 0 <= i < |ss| => SerializeStep(ss[i]))
  }

  /** `serializeOrder`: status and progress copied, recipe and ingredients through their own mappers. */
  function SerializeOrder(o: OrderDoc): (a: Order)
    requires DocShaped(o)
    ensures Shaped(a) && Canonical(a)
    ensures a.status == o.status && a.progress == o.progress
    ensures |a.steps| == |o.steps|
    ensures forall i :: 0 <= i < |o.steps| ==>
      a.steps[i].status == o.steps[i].status && a.steps[i].orderIndex == o.steps[i].orderIndex
      && a.steps[i].quantity == o.steps[i].quantity
  {
    Order(ToString(o.id), o.status, o.progress, RM.SerializeRecipe(o.recipe, false, false),
          SerializeSteps(o.steps), o.createdAt, o.updatedAt)
  }

  function SerializeOrders(os: seq<OrderDoc>): (r: seq<Order>)
    requires forall i :: 0 <= i < |os| ==> DocShaped(os[i])
    ensures |r| == |os|
    ensures forall i :: 0 <= i < |os| ==> r[i] == SerializeOrder(os[i])
  {
    seq(|os|, i requires 0 <= i < |os| => SerializeOrder(os[i]))
  }

  function DeSerializeStep(s: OrderStep): OrderStepDoc
    requires IsHexId(s.id) && IM.WellFormed(s.ingredient)
  {
    OrderStepDoc(FromString(s.id), s.status, s.orderIndex, s.quantity, IM.DeSerializeIngredient(s.ingredient))
  }

  function DeSerializeSteps(ss: seq<OrderStep>): (r: seq<OrderStepDoc>)
    requires forall i :: 0 <= i < |ss| ==> IsHexId(ss[i].id) && IM.WellFormed(ss[i].ingredient)
    ensures |r| == |ss|
    ensures forall i :: 0 <= i < |ss| ==> r[i] == DeSerializeStep(ss[i])
  {
    seq(|ss|, i requires 0 <= i < |ss| => DeSerializeStep(ss[i]))
  }

  /** `deSerializeOrder`: the field-wise inverse of `serializeOrder`. */
  function DeSerializeOrder(a: Order): (o: OrderDoc)
    requires Shaped(a)
    ensures DocShaped(o)
    ensures o.status == a.status && o.progress == a.progress
    ensures |o.steps| == |a.steps|
  {
    OrderDoc(FromString(a.id), a.status, a.progress, RM.DeSerializeRecipe(a.recipe, false, false),
             DeSerializeSteps(a.steps), a.createdAt, a.updatedAt)
  }

  function DeSerializeOrders(as_: seq<Order>): (r: seq<OrderDoc>)
    requires forall i :: 0 <= i < |as_| ==> Shaped(as_[i])
    ensures |r| == |as_|
    ensures forall i :: 0 <= i < |as_| ==> r[i] == DeSerializeOrder(as_[i])
  {
    seq(|as_|, i requires 0 <= i < |as_| => DeSerializeOrder(as_[i]))
  }

  /** The part of an order document the mappers carry. */
  function Carried(o: OrderDoc): OrderDoc {
    o.(recipe := RM.Carried(o.recipe),
       steps := seq(|o.steps|, i requires 0 <= i < |o.steps| => o.steps[i].(ingredient := IM.Carried(o.steps[i].ingredient))))
  }

  /** Document to API and back keeps status, progress, step quantities and indexes, and the carried snapshots. */
  lemma DocRoundTrip(o: OrderDoc)
    requires DocShaped(o)
    ensures DeSerializeOrder(SerializeOrder(o)) == Carried(o)
  {
    var a := SerializeOrder(o);
    var d := DeSerializeOrder(a);
    RM.UnpopulatedRoundTrip(o.recipe);
    RM.DocRoundTrip(o.recipe, false, false);
    assert d.steps == Carried(o).steps by {
      forall i | 0 <= i < |o.steps|
        ensures d.steps[i] == Carried(o).steps[i]
      {
        assert a.steps[i] == SerializeStep(o.steps[i]);
      }
    }
  }

  /** API to document and back is the identity on orders with printed identifiers. */
  lemma ApiRoundTrip(a: Order)
    requires Shaped(a) && Canonical(a)
    ensures SerializeOrder(DeSerializeOrder(a)) == a
  {
    var d := DeSerializeOrder(a);
    RM.ApiRoundTrip(a.recipe, false, false);
    var b := SerializeOrder(d);
    assert b.steps == a.steps by {
      forall i | 0 <= i < |a.steps|
        ensures b.steps[i] == a.steps[i]
      {
        assert d.steps[i] == DeSerializeStep(a.steps[i]);
      }
    }
  }

  /** The list mappers are inverse on lists of API orders with printed identifiers. */
  lemma ListRoundTrip(as_: seq<Order>)
    requires forall i :: 0 <= i < |as_| ==> Shaped(as_[i]) && Canonical(as_[i])
    ensures SerializeOrders(DeSerializeOrders(as_)) == as_
  {
    forall i | 0 <= i < |as_|
      ensures SerializeOrder(DeSerializeOrder(as_[i])) == as_[i]
    {
      ApiRoundTrip(as_[i]);
    }
  }
}
