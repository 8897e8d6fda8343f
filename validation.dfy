/** The validation stages of the orders controller and the runner that applies
    a chain of them, stopping at the first stage that reports a failure. */
module Validation {
  import opened OrderData

  /** What a failing stage hands to `next(...)`. */
  datatype Failure =
    | MissingProperty(property: Property)        // "Order must include a <property>"
    | NoDishes                                   // "Order must include at least one dish"
    | BadQuantity(index: nat)                    // "dish <index> must have a quantity ..."
    | NoSuchOrder(routeId: Option<string>)       // "Order does not exist: <orderId>"
    | IdMismatch(bodyId: Value, routeId: Option<string>)
    | DeliveredUnchangeable                      // "A delivered order cannot be changed"
    | InvalidStatus                              // "Invalid status"
    | StatusRequired                             // "Order must have a status of ..."
    | NotPending                                 // "An order cannot be deleted unless it is pending."
    | OutOfOrder                                 // a stage ran before the stage it relies on
  {
    /** The HTTP status the error handler answers with. `OutOfOrder` stands
        for the exception the source would throw. */
    function Code(): int {
      match this
      case NoSuchOrder(_) => 404
      case OutOfOrder => 500
      case _ => 400
    }
  }

  /** `next()` or `next(error)`. */
  datatype Outcome = Pass | Fail(failure: Failure)

  /** The parts of an Express request the stages read. */
  datatype Request = Request(routeId: Option<string>, body: Body)

  /** `bodyDataHas(propertyName)`. */
  function BodyDataHas(body: Body, p: Property): (r: Outcome)
    ensures r.Pass? <==> Truthy(body.Get(p))
    ensures r.Fail? ==> r.failure == MissingProperty(p) && r.failure.Code() == 400
  {
    if Truthy(body.Get(p)) then Pass else Fail(MissingProperty(p))
  }

  /** `bodyDataHasArray()`: `dishes` must be an array with at least one element. */
  function BodyDataHasArray(body: Body): (r: Outcome)
    ensures r.Pass? <==> body.dishes.Arr? && |body.dishes.items| > 0
    ensures r.Fail? ==> r.failure == NoDishes
  {
    if body.dishes.Arr? && |body.dishes.items| > 0 then Pass else Fail(NoDishes)
  }

  /** The negation of `quantity <= 0 || !Number.isInteger(quantity)`: only a
      whole number above zero passes; strings, `undefined`, `null` and the
      other non-numbers fail `Number.isInteger`. */
  predicate ValidQuantity(q: Value) {
    q.Num? && q.x > 0.0 && q.x == q.x.Floor as real
  }

  /** `quantityIsValidNumber` on an array of dishes: passes when every quantity
      is valid, otherwise fails naming the smallest index whose quantity is not. */
  function QuantityIsValidNumber(dishes: seq<Dish>): (r: Outcome)
    ensures r.Pass? <==> forall i :: 0 <= i < |dishes| ==> ValidQuantity(dishes[i].quantity)
    ensures r.Fail? ==> r.failure.BadQuantity? && r.failure.index < |dishes|
    ensures r.Fail? ==> !ValidQuantity(dishes[r.failure.index].quantity)
    ensures r.Fail? ==> forall j :: 0 <= j < r.failure.index ==> ValidQuantity(dishes[j].quantity)
  {
    if dishes == [] then Pass
    else if !ValidQuantity(dishes[0].quantity) then Fail(BadQuantity(0))
    else match QuantityIsValidNumber(dishes[1..])
      case Pass => Pass
      case Fail(f) => Fail(BadQuantity(f.index + 1))
  }

  /** The `for` loop of `quantityIsValidNumber`, returning at the first dish
      whose quantity is invalid. */
  method ScanQuantities(dishes: seq<Dish>) returns (r: Outcome)
    ensures r == QuantityIsValidNumber(dishes)
  {
    for index := 0 to |dishes|
      invariant forall j :: 0 <= j < index ==> ValidQuantity(dishes[j].quantity)
    {
      var quantity := dishes[index].quantity;
      if !ValidQuantity(quantity) {
        return Fail(BadQuantity(index));
      }
    }
    r := Pass;
  }

  /** The dishes after the first invalid one are not inspected: replacing
      them changes nothing. */
  lemma QuantityScanStopsAtFirstInvalid(dishes: seq<Dish>, later: seq<Dish>)
    requires QuantityIsValidNumber(dishes).Fail?
    ensures var i := QuantityIsValidNumber(dishes).failure.index;
      QuantityIsValidNumber(dishes[..i + 1] + later) == QuantityIsValidNumber(dishes)
  {
    var i := QuantityIsValidNumber(dishes).failure.index;
    var changed := dishes[..i + 1] + later;
    assert forall j :: 0 <= j <= i ==> changed[j] == dishes[j];
  }

  /** `orderExists`: some stored order carries the route id. */
  function OrderExists(orders: seq<Order>, routeId: Option<string>): (r: Outcome)
    ensures r.Pass? <==> exists i :: 0 <= i < |orders| && HasId(orders[i], routeId)
    ensures r.Fail? ==> r.failure == NoSuchOrder(routeId) && r.failure.Code() == 404
  {
    if FindIndex(orders, routeId).Some? then Pass else Fail(NoSuchOrder(routeId))
  }

  /** `orderIdMatches`: a falsy body id passes, a truthy one must be the very
      string the route carries. */
  function OrderIdMatches(routeId: Option<string>, bodyId: Value): (r: Outcome)
    ensures r.Pass? <==> !Truthy(bodyId) || (routeId.Some? && bodyId == Str(routeId.value))
    ensures r.Fail? ==> r.failure == IdMismatch(bodyId, routeId)
  {
    if !Truthy(bodyId) then Pass
    else if routeId.Some? && bodyId == Str(routeId.value) then Pass
    else Fail(IdMismatch(bodyId, routeId))
  }

  /** `statusIsValidForUpdate`, on the incoming status alone. Only the first
      error it reports is modelled. */
  function StatusIsValidForUpdate(status: Value): (r: Outcome)
    ensures r.Pass? <==> status == Str("pending") || status == Str("out-for-delivery")
    ensures status == Str("delivered") ==> r == Fail(DeliveredUnchangeable)
    ensures r == Fail(InvalidStatus) <==>
      Truthy(status) && status !in {Str("pending"), Str("out-for-delivery"), Str("delivered")}
    ensures r == Fail(StatusRequired) <==> !Truthy(status)
  {
    if Truthy(status) then
      if status == Str("pending") || status == Str("out-for-delivery") then Pass
      else if status == Str("delivered") then Fail(DeliveredUnchangeable)
      else Fail(InvalidStatus)
    else Fail(StatusRequired)
  }

  /** `statusIsValidForDelete`, on the order `orderExists` bound. */
  function StatusIsValidForDelete(order: Order): (r: Outcome)
    ensures r.Pass? <==> order.status == Str("pending")
    ensures r.Fail? ==> r.failure == NotPending && r.failure.Code() == 400
  {
    if order.status == Str("pending") then Pass else Fail(NotPending)
  }

  /** One middleware function of a chain. */
  datatype Stage =
    | HasProperty(property: Property)   // bodyDataHas(property)
    | HasDishArray                      // bodyDataHasArray("dishes")
    | QuantitiesValid                   // quantityIsValidNumber
    | OrderFound                        // orderExists
    | IdMatchesRoute                    // orderIdMatches
    | StatusValidForUpdate              // statusIsValidForUpdate
    | StatusValidForDelete              // statusIsValidForDelete

  /** What one stage reports for a request against the stored orders. The
      quantity scan needs `dishes` to be an array and the delete guard needs
      a bound order; without them it reports `OutOfOrder`. */
  function Check(stage: Stage, orders: seq<Order>, req: Request): Outcome {
    match stage
    case HasProperty(p) => BodyDataHas(req.body, p)
    case HasDishArray => BodyDataHasArray(req.body)
    case QuantitiesValid =>
      if req.body.dishes.Arr? then QuantityIsValidNumber(req.body.dishes.items) else Fail(OutOfOrder)
    case OrderFound => OrderExists(orders, req.routeId)
    case IdMatchesRoute => OrderIdMatches(req.routeId, req.body.id)
    case StatusValidForUpdate => StatusIsValidForUpdate(req.body.status)
    case StatusValidForDelete =>
      match FindOrder(orders, req.routeId)
      case Some(o) => StatusIsValidForDelete(o)
      case None => Fail(OutOfOrder)
  }

  /** Running a chain: it passes when every stage passes, and otherwise
      reports what the first failing stage reported; later stages do not run. */
  function RunChain(stages: seq<Stage>, orders: seq<Order>, req: Request): (r: Outcome)
    ensures r.Pass? <==> forall k :: 0 <= k < |stages| ==> Check(stages[k], orders, req).Pass?
    ensures r.Fail? ==> exists k :: 0 <= k < |stages| && Check(stages[k], orders, req) == r &&
                                 forall j :: 0 <= j < k ==> Check(stages[j], orders, req).Pass?
  {
    if stages == [] then Pass
    else match Check(stages[0], orders, req)
      case Fail(f) => Fail(f)
      case Pass =>
        var rest := RunChain(stages[1..], orders, req);
        assert forall k :: 1 <= k < |stages| ==> stages[k] == stages[1..][k - 1];
        rest
  }

  /** One stage, run the way the controller runs it. */
  method CheckStage(stage: Stage, orders: seq<Order>, req: Request) returns (r: Outcome)
    ensures r == Check(stage, orders, req)
  {
    if stage == QuantitiesValid && req.body.dishes.Arr? {
      r := ScanQuantities(req.body.dishes.items);
    } else {
      r := Check(stage, orders, req);
    }
  }

  /** Express handing the request from one middleware function to the next
      until one of them calls `next` with an error. */
  method RunStages(stages: seq<Stage>, orders: seq<Order>, req: Request) returns (r: Outcome)
    ensures r == RunChain(stages, orders, req)
  {
    for i := 0 to |stages|
      invariant forall k :: 0 <= k < i ==> Check(stages[k], orders, req).Pass?
    {
      r := CheckStage(stages[i], orders, req);
      if r.Fail? {
        return;
      }
    }
    r := Pass;
  }
}
