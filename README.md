# Orders controller: validation chains and in-memory store

This project models the orders controller of a food-delivery back end.
The controller serves five routes over one resource: list, create, read, update and delete.
It keeps orders in a process-local array.
Every route that changes the array first runs a fixed chain of Express middleware checks.
The first check that fails decides the error, and no later check runs.

The model has four modules:

- `OrderData` (order_data.dfy): the values the controller handles.
  - A JSON value type (`Value`) keeps JavaScript truthiness exact. The empty string is falsy, and an empty array is truthy.
  - Body `data` has five properties. A property the client did not send is `Undefined`.
  - Dishes and stored orders are values too.
  - `FindIndex`/`FindOrder` is the `orders.find(order => order.id === orderId)` lookup. It returns the first order whose id is the route id.
- `Validation` (validation.dfy): the middleware functions and the runner.
  - Each middleware function is a function returning `Pass` (`next()`) or `Fail(failure)` (`next(error)`). Every failure has its HTTP code.
  - The `for` loop of `quantityIsValidNumber` is a method, `ScanQuantities`.
  - `RunChain` is the runner, specified as a function. `RunStages` is the method that runs the stages one after another and stops at the first failure.
- `Chains` (chains.dfy): the four chains of `module.exports`. Lemmas state what each chain decides for every request and every collection.
- `OrderStore` (store.dfy): the `orders` array as a `Store` class with an `orders: seq<Order>` field.
  - Its `Create`, `Read`, `Update` and `Delete` methods run their chain.
  - Each method changes the collection only when its chain passes.
  - The module also holds the delete handler as written, next to the corrected `Destroy` (see Findings).

Where `orderExists` binds `res.locals.order`, the model uses `FindOrder(orders, routeId)`: the same first match, recomputed.
The create route has no `:orderId` parameter, so its request carries no route id (`None`).

A check can run before the check it relies on. This happens when the quantity scan meets a `dishes` that is not an array, or the delete guard has no bound order.
The model then reports `OutOfOrder` (code 500). In those cases the source passes, scans, or throws, depending on the value's type (see Left out).
`Chains.ChainsNeverOutOfOrder` proves that no mounted chain ever does this.

Two external inputs become parameters:
- The seed data is the `Store` constructor's argument.
- `nextId()` is the `newId` argument of `Create`, which must be non-empty and not already stored.

Two behaviours of the code are kept as written:
- Create does not validate `status` and stores whatever `status` was sent (`Store.Create`, `NewOrder`).
- The delete handler as written removes the last order instead of the one the route names. Only `FindIndexAsWritten` and `DestroyAsWritten` model that code. `Store.Delete` uses the corrected `Destroy`, which removes the order `orderExists` found (see Findings).

## Model

| member | source | states |
|---|---|---|
| `OrderData.FindIndex` | src/orders/orders.controller.js:70-75 | no index exactly when no stored id equals the route id; otherwise the index of the first order carrying it |
| `OrderData.FindOrder` | src/orders/orders.controller.js:72-74 | there is no bound order exactly when no stored order has the route id; otherwise it is the order at `FindIndex`, the first one carrying that id |
| `Validation.BodyDataHas` | src/orders/orders.controller.js:14-25 | passes exactly when the named body property is truthy; otherwise a 400 naming that property |
| `Validation.BodyDataHasArray` | src/orders/orders.controller.js:27-39 | passes exactly when `dishes` is an array of at least one element; otherwise the "at least one dish" 400 |
| `Validation.QuantityIsValidNumber` | src/orders/orders.controller.js:41-55 | passes exactly when every quantity is a whole number above zero; otherwise fails with the smallest index whose quantity is not |
| `Validation.ScanQuantities` | src/orders/orders.controller.js:44-54 | the early-returning loop over the dishes reports exactly what `QuantityIsValidNumber` specifies |
| `Validation.QuantityScanStopsAtFirstInvalid` | src/orders/orders.controller.js:44-51 | dishes after the first invalid one are not inspected: replacing them leaves the verdict unchanged |
| `Validation.OrderExists` | src/orders/orders.controller.js:70-81 | passes exactly when some stored order has the route id; otherwise a 404 carrying the route id |
| `Validation.OrderIdMatches` | src/orders/orders.controller.js:87-100 | passes exactly when the body id is falsy or is the route id as a string; otherwise the id-mismatch 400 |
| `Validation.StatusIsValidForUpdate` | src/orders/orders.controller.js:102-126 | passes only for `pending` and `out-for-delivery`; `delivered` gets its own rejection, any other truthy status "Invalid status", a falsy one the generic status message |
| `Validation.StatusIsValidForDelete` | src/orders/orders.controller.js:141-150 | passes exactly when the bound order's stored status is `pending`; otherwise a 400 |
| `Validation.RunChain` | src/orders/orders.controller.js:160-185 | a chain passes exactly when every stage passes; otherwise it reports the failure of the first failing stage, all earlier stages having passed |
| `Validation.CheckStage` | src/orders/orders.controller.js:160-185 | running one stage (the quantity stage through the loop) gives what that stage specifies |
| `Validation.RunStages` | src/orders/orders.controller.js:160-185 | handing the request from stage to stage until one fails gives the runner's specified verdict |
| `Chains.RunChainAppend` | src/orders/orders.controller.js:171-181 | running a concatenated chain is running the first part and, only if it passes, the second |
| `Chains.CreateChainOutcome` | src/orders/orders.controller.js:161-166 | the create chain passes exactly for an acceptable body, and otherwise reports the first defect in the order deliverTo, mobileNumber, dishes present, dishes non-empty array, quantities; the collection and route play no part |
| `Chains.ReadChainOutcome` | src/orders/orders.controller.js:170 | read passes exactly when the route id is found, otherwise 404 |
| `Chains.UpdateChainOutcome` | src/orders/orders.controller.js:171-180 | update reports, in this order: unknown id 404, id mismatch, the create chain's failure, then the status guard's verdict |
| `Chains.UpdateChainAccepts` | src/orders/orders.controller.js:171-180 | update is accepted exactly when the order exists, the ids agree, the body is acceptable and the incoming status is `pending` or `out-for-delivery` |
| `Chains.UpdateRejectsDelivered` | src/orders/orders.controller.js:109-114 | every update carrying `status: "delivered"` is rejected, with a 400 or the not-found 404 |
| `Chains.UpdateIgnoresStoredStatus` | src/orders/orders.controller.js:102-126 | the update verdict depends on the stored orders only through their ids, so never on an order's current status |
| `Chains.DeleteChainOutcome` | src/orders/orders.controller.js:182-184 | delete passes exactly when the route id is found and that order's status is `pending`; otherwise 404 or the not-pending 400 |
| `Chains.ChainsNeverOutOfOrder` | src/orders/orders.controller.js:160-185 | in every mounted chain the quantity scan only meets an array and the delete guard always has a bound order |
| `OrderStore.NewOrder` | src/orders/orders.controller.js:57-64 | the pushed record carries the supplied id and the body's `deliverTo`, `mobileNumber`, `status` and `dishes` verbatim |
| `OrderStore.Overwrite` | src/orders/orders.controller.js:130-136 | the updated record keeps its id and takes the body's `deliverTo`, `mobileNumber`, `status` and `dishes` |
| `OrderStore.Destroy` | src/orders/orders.controller.js:152-158 | corrected delete: when the route id is found at index i the result is `orders[..i] + orders[i+1..]`; when it is not found the collection is unchanged |
| `OrderStore.Splice` | src/orders/orders.controller.js:156 | `splice(start, 1)` removes one element or none |
| `OrderStore.DestroyRemovesFound` | src/orders/orders.controller.js:152-158 | deleting a found id removes exactly the first order with it: length drops by one, the rest keep their relative order, and the multiset loses just that order |
| `OrderStore.DestroyThenNotFound` | src/orders/orders.controller.js:152-158 | with distinct ids, a deleted id is no longer found and ids stay distinct |
| `OrderStore.CreateThenFound` | src/orders/orders.controller.js:57-68 | an order appended with a fresh id is the one found under that id |
| `OrderStore.UpdateThenFound` | src/orders/orders.controller.js:128-139 | after overwriting the bound order, its id finds the overwritten record and ids stay distinct |
| `OrderStore.FindIndexAsWritten` | src/orders/orders.controller.js:154 | the as-written `findIndex` returns -1 or a valid index |
| `OrderStore.FindIndexAsWrittenMisses` | src/orders/orders.controller.js:154 | comparing string ids with `Number(orderId)` never matches, so the as-written index is always -1 |
| `OrderStore.DestroyAsWritten` | src/orders/orders.controller.js:152-158 | the delete handler as written (`splice` at the as-written index) removes the last order of any non-empty collection and leaves an empty one empty |
| `OrderStore.DestroyAsWrittenKeepsTarget` | src/orders/orders.controller.js:152-158 | concrete store where delete of a pending order passes its chain, yet the as-written handler keeps it and removes another; `Destroy` removes it |
| `OrderStore.Store.constructor` | src/orders/orders.controller.js:4 | the collection starts as the seed data |
| `OrderStore.Store.Create` | src/orders/orders.controller.js:57-68 | on a passing create chain the collection becomes the old one plus the new order (fresh id, body fields verbatim) at its end, and that order is returned and found by id; on failure the collection is unchanged and the first failure is returned; distinct ids stay distinct |
| `OrderStore.Store.Read` | src/orders/orders.controller.js:83-85 | returns the first stored order with the route id, or the 404 exactly when none has it |
| `OrderStore.Store.Update` | src/orders/orders.controller.js:128-139 | on a passing update chain only the bound order changes: its four fields become the body's and its id stays; other orders and the length are unchanged; on failure nothing changes |
| `OrderStore.Store.Delete` | src/orders/orders.controller.js:152-158 | reports the delete chain's verdict; on success removes exactly the checked order (length minus one, the id no longer found when ids are distinct); on failure nothing changes |

## Left out

- `list` (line 10) returns the whole array and is not modelled.
- Express transport is not modelled: `req`, `res`, `res.locals`, `res.json`, `res.status(201)` and `res.sendStatus(204)`. Failures keep only their HTTP code (`Failure.Code`) and a tag, not the wording of the message.
- Seed loading (line 4) is I/O. The seed is the `Store` constructor's argument.
- `nextId` (line 7) is not part of this model. `Store.Create` takes the new id as an argument. Its precondition is that the id is non-empty and not already stored, which is what the id supplier is relied on to provide.
- JavaScript id coercion is not modelled: ids are strings throughout. The corrected `Destroy` looks ids up exactly as `orderExists` does. The numeric comparison of line 154 appears only in the as-written members.
- `statusIsValidForUpdate` calls `next` a second time after its `delivered` and invalid-status branches (lines 109-125). Only the first error is modelled. What Express does with the second call is out of scope.
- A `null` `data` and a `null` element of `dishes` make the source throw. Neither is modelled. A `data` that is a string, number or boolean reads every property as `undefined`; the model covers it as a `Body` whose properties are all `Undefined`. An array element that is not an object is likewise a dish whose properties are all `Undefined`.
- Numbers are modelled as reals. `NaN` and the infinities are `Other` values, and they fail the quantity check as in JavaScript.
- Order objects are values: `update` writes a new record into the collection. The aliasing between `res.locals.order`, the response and the array element is not modelled.
- The quantity stage running on a `dishes` that is not an array, and the delete guard running without a bound order, are reported as `OutOfOrder`. The source behaves differently by type there. For a number or boolean `dishes`, `index < dishes.length` is false at once and the stage passes. For a string it scans the characters, each of which has an `undefined` quantity. For `undefined` or `null` it throws at `.length`, and for an object with a positive `length` and no indexed entries it throws at `["quantity"]`. A missing bound order makes the delete guard throw. The exported chains never reach any of these cases (`Chains.ChainsNeverOutOfOrder`).
- `OrderStore.Splice`: its contract states only that one element or none is removed. Which element is removed is stated by `Destroy`, `DestroyRemovesFound` and `DestroyAsWritten`.

## Findings

| source | as written | input that shows it | evidently intended | confidence | as-written member | corrected member |
|---|---|---|---|---|---|---|
| src/orders/orders.controller.js:152-158 | `destroy` finds the index with `order.id === Number(orderId)`. Stored ids are strings, so no order matches and the index is -1. `splice(-1, 1)` then removes the last order. | Orders `a` (pending) then `b`, and `DELETE /orders/a`: the chain passes, `b` is removed and `a` stays | remove the order `orderExists` found and checked | not executed; assumes stored ids are strings, as the string comparison in `orderExists` requires for any order to be found | `OrderStore.DestroyAsWrittenKeepsTarget` | `OrderStore.DestroyThenNotFound` |
