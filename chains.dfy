/** The middleware chains the orders router mounts, and what each of them
    decides for every request and every state of the collection. */
module Chains {
  import opened OrderData
  import opened Validation

  const CreateChain: seq<Stage> :=
    [HasProperty(DeliverTo), HasProperty(MobileNumber), HasProperty(Dishes), HasDishArray, QuantitiesValid]

  const ReadChain: seq<Stage> := [OrderFound]

  const UpdateChain: seq<Stage> :=
    [OrderFound, IdMatchesRoute,
     HasProperty(DeliverTo), HasProperty(MobileNumber), HasProperty(Dishes), HasDishArray, QuantitiesValid,
     StatusValidForUpdate]

  const DeleteChain: seq<Stage> := [OrderFound, StatusValidForDelete]

  /** A body the create chain accepts: a delivery address and a phone number,
      and a non-empty array of dishes each ordered a whole number of times. */
  predicate AcceptableBody(b: Body) {
    && Truthy(b.deliverTo)
    && Truthy(b.mobileNumber)
    && b.dishes.Arr?
    && |b.dishes.items| > 0
    && forall i :: 0 <= i < |b.dishes.items| ==> ValidQuantity(b.dishes.items[i].quantity)
  }

  /** Running two chains one after the other is running their concatenation. */
  lemma {:induction false} RunChainAppend(a: seq<Stage>, b: seq<Stage>, orders: seq<Order>, req: Request)
    ensures RunChain(a + b, orders, req) ==
      if RunChain(a, orders, req).Fail? then RunChain(a, orders, req) else RunChain(b, orders, req)
  {
    if a == [] {
      assert a + b == b;
    } else {
      assert (a + b)[0] == a[0];
      assert (a + b)[1..] == a[1..] + b;
      RunChainAppend(a[1..], b, orders, req);
    }
  }

  /** A chain runs its first stage and, when that passes, the rest. */
  lemma RunChainStep(stages: seq<Stage>, orders: seq<Order>, req: Request)
    requires stages != []
    ensures RunChain(stages, orders, req) ==
      if Check(stages[0], orders, req).Fail? then Check(stages[0], orders, req)
      else RunChain(stages[1..], orders, req)
  {
  }

  /** The create chain reports the first of its five defects in the listed
      order, whatever the collection holds and whatever the route says. */
  lemma CreateChainOutcome(orders: seq<Order>, req: Request)
    ensures var r, b := RunChain(CreateChain, orders, req), req.body;
      && (r.Pass? <==> AcceptableBody(b))
      && (!Truthy(b.deliverTo) ==> r == Fail(MissingProperty(DeliverTo)))
      && (Truthy(b.deliverTo) && !Truthy(b.mobileNumber) ==> r == Fail(MissingProperty(MobileNumber)))
      && (Truthy(b.deliverTo) && Truthy(b.mobileNumber) && !Truthy(b.dishes) ==>
            r == Fail(MissingProperty(Dishes)))
      && ((Truthy(b.deliverTo) && Truthy(b.mobileNumber) && Truthy(b.dishes) &&
           !(b.dishes.Arr? && |b.dishes.items| > 0)) ==> r == Fail(NoDishes))
      && (Truthy(b.deliverTo) && Truthy(b.mobileNumber) && b.dishes.Arr? && |b.dishes.items| > 0 ==>
            r == QuantityIsValidNumber(b.dishes.items))
  {
    var s1: seq<Stage> := [HasProperty(MobileNumber), HasProperty(Dishes), HasDishArray, QuantitiesValid];
    var s2: seq<Stage> := [HasProperty(Dishes), HasDishArray, QuantitiesValid];
    var s3: seq<Stage> := [HasDishArray, QuantitiesValid];
    var s4: seq<Stage> := [QuantitiesValid];
    assert CreateChain[1..] == s1 && s1[1..] == s2 && s2[1..] == s3 && s3[1..] == s4 && s4[1..] == [];
    RunChainStep(CreateChain, orders, req);
    RunChainStep(s1, orders, req);
    RunChainStep(s2, orders, req);
    RunChainStep(s3, orders, req);
    RunChainStep(s4, orders, req);
  }

  /** The read chain is the existence check alone. */
  lemma ReadChainOutcome(orders: seq<Order>, req: Request)
    ensures var r := RunChain(ReadChain, orders, req);
      && (r.Pass? <==> FindOrder(orders, req.routeId).Some?)
      && (r.Fail? ==> r == Fail(NoSuchOrder(req.routeId)))
  {
  }

  /** The update chain after its first two stages: the create checks, then
      the status guard. */
  lemma UpdateBodyChecks(orders: seq<Order>, req: Request)
    ensures var created := RunChain(CreateChain, orders, req);
      RunChain(CreateChain + [StatusValidForUpdate], orders, req) ==
        if created.Fail? then created else StatusIsValidForUpdate(req.body.status)
  {
    var tail: seq<Stage> := [StatusValidForUpdate];
    assert tail[1..] == [];
    RunChainStep(tail, orders, req);
    RunChainAppend(CreateChain, tail, orders, req);
  }

  /** The update chain: first the order must exist, then the body id must
      agree with the route, then the body must pass the create checks, and
      last the incoming status is checked. */
  lemma UpdateChainOutcome(orders: seq<Order>, req: Request)
    ensures RunChain(UpdateChain, orders, req) ==
      if FindIndex(orders, req.routeId).None? then Fail(NoSuchOrder(req.routeId))
      else if OrderIdMatches(req.routeId, req.body.id).Fail? then Fail(IdMismatch(req.body.id, req.routeId))
      else if RunChain(CreateChain, orders, req).Fail? then RunChain(CreateChain, orders, req)
      else StatusIsValidForUpdate(req.body.status)
  {
    var rest: seq<Stage> := CreateChain + [StatusValidForUpdate];
    var second: seq<Stage> := [IdMatchesRoute] + rest;
    var found := Check(OrderFound, orders, req);
    var idOk := Check(IdMatchesRoute, orders, req);
    assert found == if FindIndex(orders, req.routeId).None? then Fail(NoSuchOrder(req.routeId)) else Pass;
    assert idOk == OrderIdMatches(req.routeId, req.body.id);
    assert RunChain(second, orders, req) == if idOk.Fail? then idOk else RunChain(rest, orders, req) by {
      assert second[1..] == rest;
      RunChainStep(second, orders, req);
    }
    assert RunChain(UpdateChain, orders, req) == if found.Fail? then found else RunChain(second, orders, req) by {
      assert UpdateChain[1..] == second;
      RunChainStep(UpdateChain, orders, req);
    }
    UpdateBodyChecks(orders, req);
  }

  /** An update is accepted exactly when the order exists, the body id agrees
      with the route, the body is acceptable for creation and the incoming
      status is `pending` or `out-for-delivery`. */
  lemma UpdateChainAccepts(orders: seq<Order>, req: Request)
    ensures RunChain(UpdateChain, orders, req).Pass? <==>
      && FindIndex(orders, req.routeId).Some?
      && OrderIdMatches(req.routeId, req.body.id).Pass?
      && AcceptableBody(req.body)
      && (req.body.status == Str("pending") || req.body.status == Str("out-for-delivery"))
  {
    UpdateChainOutcome(orders, req);
    CreateChainOutcome(orders, req);
  }

  /** Any update carrying `status: "delivered"` is rejected. */
  lemma UpdateRejectsDelivered(orders: seq<Order>, req: Request)
    requires req.body.status == Str("delivered")
    ensures RunChain(UpdateChain, orders, req).Fail?
    ensures var r := RunChain(UpdateChain, orders, req);
      r.failure.Code() == 400 || r.failure == NoSuchOrder(req.routeId)
  {
    UpdateChainOutcome(orders, req);
    CreateChainOutcome(orders, req);
  }

  /** Two collections whose orders have the same ids, position by position,
      give the same lookup result. */
  lemma {:induction false} FindIndexOnlyReadsIds(a: seq<Order>, b: seq<Order>, routeId: Option<string>)
    requires |a| == |b|
    requires forall i :: 0 <= i < |a| ==> a[i].id == b[i].id
    ensures FindIndex(a, routeId) == FindIndex(b, routeId)
  {
    if a != [] && !HasId(a[0], routeId) {
      FindIndexOnlyReadsIds(a[1..], b[1..], routeId);
    }
  }

  /** The update guard never looks at the stored order's current status (nor
      at any stored field but the ids): changing those changes nothing. */
  lemma UpdateIgnoresStoredStatus(a: seq<Order>, b: seq<Order>, req: Request)
    requires |a| == |b|
    requires forall i :: 0 <= i < |a| ==> a[i].id == b[i].id
    ensures RunChain(UpdateChain, a, req) == RunChain(UpdateChain, b, req)
  {
    FindIndexOnlyReadsIds(a, b, req.routeId);
    UpdateChainOutcome(a, req);
    UpdateChainOutcome(b, req);
    CreateChainOutcome(a, req);
    CreateChainOutcome(b, req);
  }

  /** The delete chain: the order must exist, and then the order it found must
      still be `pending`. */
  lemma DeleteChainOutcome(orders: seq<Order>, req: Request)
    ensures var r, found := RunChain(DeleteChain, orders, req), FindOrder(orders, req.routeId);
      && (found.None? ==> r == Fail(NoSuchOrder(req.routeId)))
      && (found.Some? && found.value.status != Str("pending") ==> r == Fail(NotPending))
      && (r.Pass? <==> found.Some? && found.value.status == Str("pending"))
  {
  }

  /** Every chain the router mounts runs each stage only after the stages it
      relies on: no request makes a chain report `OutOfOrder`. */
  lemma ChainsNeverOutOfOrder(orders: seq<Order>, req: Request)
    ensures RunChain(CreateChain, orders, req) != Fail(OutOfOrder)
    ensures RunChain(ReadChain, orders, req) != Fail(OutOfOrder)
    ensures RunChain(UpdateChain, orders, req) != Fail(OutOfOrder)
    ensures RunChain(DeleteChain, orders, req) != Fail(OutOfOrder)
  {
    CreateChainOutcome(orders, req);
    ReadChainOutcome(orders, req);
    UpdateChainOutcome(orders, req);
    DeleteChainOutcome(orders, req);
  }
}
