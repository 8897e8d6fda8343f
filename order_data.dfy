/** The values the orders controller works on: JSON values as they arrive in a
    request body, the order records kept in the in-memory collection, and the
    lookup by id that every route with an `:orderId` parameter performs. */
module OrderData {

  datatype Option<+T> = None | Some(value: T)

  /** A JSON value as it can stand in a request body or in a stored order.
      `Num` is a finite number; `Other` covers `null`, booleans, `NaN`, the
      infinities and plain objects, remembering only whether JavaScript treats
      the value as truthy. */
  datatype Value =
    | Undefined
    | Str(s: string)
    | Num(x: real)
    | Arr(items: seq<Dish>)
    | Other(truthy: bool)

  /** One element of an order's `dishes` array. An element that is not an
      object reads every property as `Undefined`. */
  datatype Dish = Dish(name: Value, description: Value, imageUrl: Value, price: Value, quantity: Value)

  /** JavaScript truthiness: the empty string and zero are falsy, every array
      (even an empty one) is truthy. */
  predicate Truthy(v: Value) {
    match v
    case Undefined => false
    case Str(s) => s != ""
    case Num(x) => x != 0.0
    case Arr(_) => true
    case Other(t) => t
  }

  /** The properties of `req.body.data` the controller reads. */
  datatype Property = Id | DeliverTo | MobileNumber | Status | Dishes

  /** `req.body.data`; a property the client did not send is `Undefined`. */
  datatype Body = Body(id: Value, deliverTo: Value, mobileNumber: Value, status: Value, dishes: Value) {
    function Get(p: Property): Value {
      match p
      case Id => id
      case DeliverTo => deliverTo
      case MobileNumber => mobileNumber
      case Status => status
      case Dishes => dishes
    }
  }

  /** A stored order. Its id is a string; the other fields hold whatever the
      request that created or last updated it carried. */
  datatype Order = Order(id: string, deliverTo: Value, mobileNumber: Value, status: Value, dishes: Value)

  /** `order.id === orderId` with `orderId` taken from the route (absent on
      routes without an `:orderId` parameter). */
  predicate HasId(o: Order, routeId: Option<string>) {
    routeId == Some(o.id)
  }

  /** The position of the order `orders.find(order => order.id === orderId)`
      returns: the first order whose id is the route id. */
  function FindIndex(orders: seq<Order>, routeId: Option<string>): (r: Option<nat>)
    ensures r.None? <==> forall i :: 0 <= i < |orders| ==> !HasId(orders[i], routeId)
    ensures r.Some? ==> r.value < |orders| && HasId(orders[r.value], routeId)
    ensures r.Some? ==> forall j :: 0 <= j < r.value ==> !HasId(orders[j], routeId)
  {
    if orders == [] then None
    else if HasId(orders[0], routeId) then Some(0)
    else match FindIndex(orders[1..], routeId)
      case None => None
      case Some(i) => Some(i + 1)
  }

  /** The order `orderExists` binds into `res.locals.order`. */
  function FindOrder(orders: seq<Order>, routeId: Option<string>): (r: Option<Order>)
    ensures r.None? <==> forall i :: 0 <= i < |orders| ==> !HasId(orders[i], routeId)
    ensures r.Some? ==> r.value in orders && HasId(r.value, routeId)
    ensures r.Some? ==> FindIndex(orders, routeId).Some? && r.value == orders[FindIndex(orders, routeId).value]
  {
    match FindIndex(orders, routeId)
    case None => None
    case Some(i) => Some(orders[i])
  }

  /** No two stored orders share an id. */
  ghost predicate UniqueIds(orders: seq<Order>) {
    forall i, j :: 0 <= i < j < |orders| ==> orders[i].id != orders[j].id
  }
}
