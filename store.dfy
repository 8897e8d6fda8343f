/** The in-memory collection of orders and the route handlers that change it:
    create appends, update overwrites the bound order in place, delete splices
    it out. Each handler first runs its middleware chain and leaves the
    collection alone when the chain reports a failure. */
module OrderStore {
  import opened OrderData
  import opened Validation
  import opened Chains

  datatype Result<T> = Ok(value: T) | Err(failure: Failure)

  /** The body of a request that carries none (read and delete ignore it). */
  const NoBody := Body(Undefined, Undefined, Undefined, Undefined, Undefined)

  /** The record `create` pushes: a fresh id and the body's fields, verbatim. */
  function NewOrder(id: string, body: Body): (o: Order)
    ensures HasId(o, Some(id))
    ensures o.deliverTo == body.deliverTo && o.mobileNumber == body.mobileNumber
    ensures o.status == body.status && o.dishes == body.dishes
  {
    Order(id, body.deliverTo, body.mobileNumber, body.status, body.dishes)
  }

  /** The four assignments of `update`; the id stays. */
  function Overwrite(o: Order, body: Body): (r: Order)
    ensures r.id == o.id
    ensures r.deliverTo == body.deliverTo && r.mobileNumber == body.mobileNumber
    ensures r.status == body.status && r.dishes == body.dishes
  {
    o.(deliverTo := body.deliverTo, mobileNumber := body.mobileNumber, status := body.status, dishes := body.dishes)
  }

  /** `Array.prototype.splice(start, 1)` on its result array: a negative start
      counts from the end, and a start at or past the end removes nothing. */
  function Splice(s: seq<Order>, start: int): (r: seq<Order>)
    ensures |r| == |s| - 1 || r == s
  {
    var at := if start < 0 then (if |s| + start < 0 then 0 else |s| + start)
              else if start > |s| then |s| else start;
    if at < |s| then s[..at] + s[at + 1..] else s
  }

  /** Deleting by route id, looking the order up the same way `orderExists`
      does, so that the order removed is the one the chain checked. */
  function Destroy(orders: seq<Order>, routeId: string): (r: seq<Order>)
    ensures FindIndex(orders, Some(routeId)).None? ==> r == orders
    ensures FindIndex(orders, Some(routeId)).Some? ==>
      var i := FindIndex(orders, Some(routeId)).value;
      r == orders[..i] + orders[i + 1..]
  {
    match FindIndex(orders, Some(routeId))
    case Some(i) => Splice(orders, i)
    case None => orders
  }

  /** Deleting removes exactly the first order with the route id; the others
      keep their relative order. */
  lemma DestroyRemovesFound(orders: seq<Order>, routeId: string)
    requires FindIndex(orders, Some(routeId)).Some?
    ensures var i := FindIndex(orders, Some(routeId)).value;
      && Destroy(orders, routeId) == orders[..i] + orders[i + 1..]
      && |Destroy(orders, routeId)| == |orders| - 1
      && multiset(Destroy(orders, routeId)) + multiset{orders[i]} == multiset(orders)
  {
    var i := FindIndex(orders, Some(routeId)).value;
    var rest := orders[..i] + orders[i + 1..];
    assert Destroy(orders, routeId) == rest;
    assert multiset(rest) + multiset{orders[i]} == multiset(orders) by {
      assert orders == orders[..i] + [orders[i]] + orders[i + 1..];
      assert multiset(orders) == multiset(orders[..i]) + multiset{orders[i]} + multiset(orders[i + 1..]);
    }
  }

  /** With distinct ids, once an order is deleted its id is no longer found,
      and the ids stay distinct. */
  lemma DestroyThenNotFound(orders: seq<Order>, routeId: string)
    requires UniqueIds(orders)
    requires FindIndex(orders, Some(routeId)).Some?
    ensures FindIndex(Destroy(orders, routeId), Some(routeId)).None?
    ensures UniqueIds(Destroy(orders, routeId))
  {
    var i := FindIndex(orders, Some(routeId)).value;
    var rest := Destroy(orders, routeId);
    DestroyRemovesFound(orders, routeId);
    forall k | 0 <= k < |rest|
      ensures rest[k] == orders[if k < i then k else k + 1]
    {
    }
  }

  /** A created order is found by its id, provided the id is new. */
  lemma {:induction false} CreateThenFound(orders: seq<Order>, o: Order)
    requires forall i :: 0 <= i < |orders| ==> orders[i].id != o.id
    ensures FindIndex(orders + [o], Some(o.id)) == Some(|orders|)
  {
    if orders != [] {
      assert (orders + [o])[1..] == orders[1..] + [o];
      CreateThenFound(orders[1..], o);
    }
  }

  /** After an update the same id finds the overwritten order, and the ids
      stay distinct. */
  lemma UpdateThenFound(orders: seq<Order>, routeId: string, body: Body)
    requires FindIndex(orders, Some(routeId)).Some?
    ensures var i := FindIndex(orders, Some(routeId)).value;
      var updated := orders[i := Overwrite(orders[i], body)];
      && FindOrder(updated, Some(routeId)) == Some(Overwrite(orders[i], body))
      && (UniqueIds(orders) ==> UniqueIds(updated))
  {
    var i := FindIndex(orders, Some(routeId)).value;
    var updated := orders[i := Overwrite(orders[i], body)];
    assert HasId(updated[i], Some(routeId));
  }

  /** `orders.findIndex((order) => order.id === Number(orderId))` as the
      delete handler writes it. `routeNumber` is `Number(orderId)`, whatever
      number that is; the stored id is a string, and `===` between a string
      and a number is false. */
  function FindIndexAsWritten(orders: seq<Order>, routeNumber: real): (r: int)
    ensures -1 <= r < |orders|
  {
    if orders == [] then -1
    else if Str(orders[0].id) == Num(routeNumber) then 0
    else
      var k := FindIndexAsWritten(orders[1..], routeNumber);
      if k < 0 then -1 else k + 1
  }

  /** The numeric comparison never matches a stored order. */
  lemma {:induction false} FindIndexAsWrittenMisses(orders: seq<Order>, routeNumber: real)
    ensures FindIndexAsWritten(orders, routeNumber) == -1
  {
    if orders != [] {
      FindIndexAsWrittenMisses(orders[1..], routeNumber);
    }
  }

  /** The delete handler as written, `orders.splice(index, 1)` with that
      index: it removes the last order, whichever order the route names. */
  function DestroyAsWritten(orders: seq<Order>, routeNumber: real): (r: seq<Order>)
    ensures orders == [] ==> r == []
    ensures orders != [] ==> r == orders[..|orders| - 1]
  {
    FindIndexAsWrittenMisses(orders, routeNumber);
    Splice(orders, FindIndexAsWritten(orders, routeNumber))
  }

  /** A store of a pending order "a" followed by a delivered order "b":
      deleting "a" passes the delete chain, yet the handler as written removes
      "b" and keeps "a", which is still found afterwards. `Destroy` removes "a". */
  lemma DestroyAsWrittenKeepsTarget(routeNumber: real)
    ensures var a := Order("a", Str("1 Main St"), Str("555-0100"), Str("pending"), Arr([]));
      var b := Order("b", Str("2 Main St"), Str("555-0101"), Str("delivered"), Arr([]));
      && RunChain(DeleteChain, [a, b], Request(Some("a"), NoBody)).Pass?
      && DestroyAsWritten([a, b], routeNumber) == [a]
      && FindOrder(DestroyAsWritten([a, b], routeNumber), Some("a")) == Some(a)
      && Destroy([a, b], "a") == [b]
  {
    var a := Order("a", Str("1 Main St"), Str("555-0100"), Str("pending"), Arr([]));
    var b := Order("b", Str("2 Main St"), Str("555-0101"), Str("delivered"), Arr([]));
    DeleteChainOutcome([a, b], Request(Some("a"), NoBody));
    assert FindIndex([a, b], Some("a")) == Some(0);
    assert [a, b][..1] == [a];
  }

  /** The orders collection of the controller module. */
  class Store {
    var orders: seq<Order>

    /** The collection as loaded from the seed data. */
    constructor (seed: seq<Order>)
      ensures orders == seed
    {
      orders := seed;
    }

    /** The create route: on success the collection grows by the new order at
        its end and nothing else changes; on failure it is left alone.
        `newId` is what `nextId()` returns: an id no stored order has. */
    method Create(body: Body, newId: string) returns (r: Result<Order>)
      requires newId != ""
      requires forall i :: 0 <= i < |orders| ==> orders[i].id != newId
      modifies this
      ensures var verdict := RunChain(CreateChain, old(orders), Request(None, body));
        && (verdict.Fail? ==> r == Err(verdict.failure) && orders == old(orders))
        && (verdict.Pass? ==> r == Ok(NewOrder(newId, body)) && orders == old(orders) + [NewOrder(newId, body)])
      ensures r.Ok? ==> FindOrder(orders, Some(newId)) == Some(r.value)
      ensures UniqueIds(old(orders)) ==> UniqueIds(orders)
    {
      var verdict := RunStages(CreateChain, orders, Request(None, body));
      if verdict.Fail? {
        return Err(verdict.failure);
      }
      var created := NewOrder(newId, body);
      CreateThenFound(orders, created);
      orders := orders + [created];
      r := Ok(created);
    }

    /** The read route: the first order with the route id, or a 404. */
    method Read(routeId: string) returns (r: Result<Order>)
      ensures r.Err? <==> forall i :: 0 <= i < |orders| ==> orders[i].id != routeId
      ensures r.Err? ==> r.failure == NoSuchOrder(Some(routeId)) && r.failure.Code() == 404
      ensures r.Ok? ==> exists i :: 0 <= i < |orders| && orders[i] == r.value && orders[i].id == routeId &&
                                    forall j :: 0 <= j < i ==> orders[j].id != routeId
    {
      var verdict := RunStages(ReadChain, orders, Request(Some(routeId), NoBody));
      ReadChainOutcome(orders, Request(Some(routeId), NoBody));
      if verdict.Fail? {
        return Err(verdict.failure);
      }
      var i := FindIndex(orders, Some(routeId)).value;
      r := Ok(orders[i]);
    }

    /** The update route: on success the bound order gets the body's four
        fields and keeps its id, and every other order stays as it was. */
    method Update(routeId: string, body: Body) returns (r: Result<Order>)
      modifies this
      ensures var verdict := RunChain(UpdateChain, old(orders), Request(Some(routeId), body));
        && (verdict.Fail? ==> r == Err(verdict.failure) && orders == old(orders))
        && (verdict.Pass? ==> FindIndex(old(orders), Some(routeId)).Some?)
        && (verdict.Pass? ==>
              var i := FindIndex(old(orders), Some(routeId)).value;
              && orders == old(orders)[i := Overwrite(old(orders)[i], body)]
              && r == Ok(orders[i]))
      ensures r.Ok? ==> r.value.id == routeId && FindOrder(orders, Some(routeId)) == Some(r.value)
      ensures UniqueIds(old(orders)) ==> UniqueIds(orders)
    {
      var verdict := RunStages(UpdateChain, orders, Request(Some(routeId), body));
      if verdict.Fail? {
        return Err(verdict.failure);
      }
      UpdateChainAccepts(orders, Request(Some(routeId), body));
      var i := FindIndex(orders, Some(routeId)).value;
      UpdateThenFound(orders, routeId, body);
      orders := orders[i := Overwrite(orders[i], body)];
      r := Ok(orders[i]);
    }

    /** The delete route: on success exactly the order the chain checked (a
        pending one) is removed; on failure nothing changes. */
    method Delete(routeId: string) returns (r: Outcome)
      modifies this
      ensures var verdict := RunChain(DeleteChain, old(orders), Request(Some(routeId), NoBody));
        && r == verdict
        && (verdict.Fail? ==> orders == old(orders))
        && (verdict.Pass? ==> orders == Destroy(old(orders), routeId))
      ensures r.Pass? ==> |orders| == |old(orders)| - 1
      ensures r.Pass? && UniqueIds(old(orders)) ==> UniqueIds(orders) && FindOrder(orders, Some(routeId)).None?
    {
      var req := Request(Some(routeId), NoBody);
      r := RunStages(DeleteChain, orders, req);
      if r.Fail? {
        return;
      }
      DeleteChainOutcome(orders, req);
      DestroyRemovesFound(orders, routeId);
      if UniqueIds(orders) {
        DestroyThenNotFound(orders, routeId);
      }
      orders := Destroy(orders, routeId);
    }
  }
}
