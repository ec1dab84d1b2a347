# Order selection: the reviewed service and the code before review

This project models the order-writing logic of a small C# code-review
exercise, in two versions.

- **`OrdersService`** (the reviewed version). It reads the current orders from an order store. It keeps the orders whose size is above 10 (small orders) or above 100 (large orders). It sorts them by ascending price with a stable sort and hands the result to an order writer in exactly one call.
- **The code before review.** It has an `OrderManager`, a `LargeOrderFilter` whose threshold is the text `"100"`, and a `SmallOrderFilter` subclass that overwrites the threshold with `"10"`. `Order.toNumber` converts the text to a number and swallows every conversion failure.
  - Its filter loop always reads one element past the end of the list. No operation of the manager ever returns normally.
  - It also discards the price ordering it computes.
  - The model proves both defects. It also gives corrected versions of both methods, with their intended properties proved.

Modules:

- `OrderModel` (`order_model.dfy`): the `Order` record, and the `.NET` exceptions the code throws. The store is a class whose `GetOrders` returns its current list. The writer is a recorder whose ghost log `written` receives every sequence passed to `WriteOrders`.
- `Selection` (`selection.dfy`): the business logic as functions.
  - `Where` is LINQ `Where(order => order.Size > threshold)`.
  - `SortByPrice` is LINQ `OrderBy(order => order.Price)`, a stable insertion sort.
  - `Selected` is the two composed.
  - `IsPriceOrderedSelection` states what the written sequence must be, without reference to the sort. Its tie-order clause uses the filter `Where`, which `WhereCount` and `WhereSnoc` pin down. `Selected` is proved to be the one and only sequence meeting it.
- `Services` (`orders_service.dfy`): the `OrdersService` class. `Create` models the public constructor's null guards, because a Dafny constructor cannot fail.
- `Conversion` (`conversion.dfy`): `Convert.ToInt32(string)` as a decimal Int32 parser, with its formatting round trip.
- `Original` (`original.dfy`): `toNumber`, `LargeOrderFilter`, `SmallOrderFilter` and `OrderManager`. `SmallOrderFilter` is the named constructor `LargeOrderFilter.Small`.
- `Outcomes` (`outcomes.dfy`): `Option`, `Result` and `Outcome`. These stand for conversion failures and for thrown exceptions.

The unit tests use distinct prices, so they do not show what happens to equal prices. The code uses `Enumerable.OrderBy`, which is a stable sort, so the model follows the code: ties keep their store order (`SortByPriceStable`).

## Model

| member | source | states |
|---|---|---|
| `OrderModel.OrderStore.GetOrders` | Original.cs:241-244 | returns the store's current list of orders |
| `OrderModel.OrderWriter.WriteOrders` | Core/Display/IOrderWriter.cs:7-10 | each call appends the received sequence, as is, to the writer's log |
| `Selection.Where` | Core/Services/OrdersService.cs:22 | the kept orders are no more than the input, all have size above the threshold, and all come from the input |
| `Selection.WhereCount` | Core/Services/OrdersService.cs:22 | each order with size above the threshold is kept exactly as often as it occurs in the store; no other order is kept |
| `Selection.WhereMembership` | Core/Services/OrdersService.cs:22 | an order is kept if and only if it is in the store and its size is above the threshold (size equal to the threshold is excluded) |
| `Selection.WhereSnoc` | Original.cs:127-145 | filtering a list extended by one order appends that order exactly when its size exceeds the threshold (the filter reads front to back, as the loop does) |
| `Selection.SortByPrice` | Core/Services/OrdersService.cs:22 | the result is ascending by price and a permutation of the input |
| `Selection.InsertSorted` | Core/Services/OrdersService.cs:22 | inserting into a price-sorted sequence keeps it sorted |
| `Selection.SortByPriceStable` | Core/Services/OrdersService.cs:22 | for every price, the orders of that price appear in the output in their input order (the sort is stable) |
| `Selection.StableSortUnique` | Core/Services/OrdersService.cs:22 | two price-sorted sequences with the same orders that agree on the order within each price are equal: a stable sort by price has one result |
| `Selection.WhereWithPriceCommute` | Core/Services/OrdersService.cs:22 | selecting one price after filtering by size equals filtering the orders of that price |
| `Selection.Selected` | Core/Services/OrdersService.cs:22 | the LINQ `Where(...).OrderBy(...)` pipeline: no longer than the store's list, every order above the threshold, ascending by price |
| `Selection.SelectedIsPriceOrderedSelection` | Core/Services/OrdersService.cs:19-31 | the written sequence contains only orders above the threshold; it has each qualifying store order exactly as often as the store; it is ascending by price; ties keep store order |
| `Selection.SelectedIsUnique` | Core/Services/OrdersService.cs:19-31 | any sequence with those four properties is the written sequence |
| `Selection.SelectedMembership` | Core/Services/OrdersService.cs:22 | an order is written if and only if it is in the store and its size is above the threshold |
| `Selection.SelectedEmpty` | Core.Tests/Services/OrdersServiceTests.cs:26-49 | when no order exceeds the threshold, the writer receives the empty sequence |
| `Selection.NoSmallOrdersScenario` | Core.Tests/Services/OrdersServiceTests.cs:26-49 | orders of sizes 8, 9 and 10 give the empty sequence for small orders |
| `Selection.SomeSmallOrdersScenario` | Core.Tests/Services/OrdersServiceTests.cs:51-79 | orders of sizes 10, 12 and 11 give the orders 11 then 12 for small orders |
| `Selection.NoLargeOrdersScenario` | Core.Tests/Services/OrdersServiceTests.cs:81-104 | orders of sizes 98, 99 and 100 give the empty sequence for large orders |
| `Selection.SomeLargeOrdersScenario` | Core.Tests/Services/OrdersServiceTests.cs:106-134 | orders of sizes 100, 102 and 101 give the orders 101 then 102 for large orders |
| `Services.OrdersService.constructor` | Core/Services/OrdersService.cs:13-17 | both collaborators are stored unchanged in read-only fields |
| `Services.OrdersService.Create` | Core/Services/OrdersService.cs:13-17 | a null store fails with ArgumentException("orderStore"), checked first; a null writer then fails with ArgumentException("orderWriter"); otherwise a new service holds both as given |
| `Services.OrdersService.WriteOutSmallOrders` | Core/Services/OrdersService.cs:19-24 | the writer is called exactly once, even with the empty sequence; it receives the price-ordered selection of size above 10 from the store's orders; the store is unchanged |
| `Services.OrdersService.WriteOutLargeOrders` | Core/Services/OrdersService.cs:26-31 | the same as WriteOutSmallOrders, with size above 100 |
| `Conversion.ParseInt32` | Original.cs:210 | a successful conversion is a value in the Int32 range, and its text holds a digit |
| `Conversion.DigitsValueOfDecimalDigits` | Original.cs:210 | the decimal digits of a natural number read back as that number |
| `Conversion.ParseFormatRoundTrip` | Original.cs:210 | every Int32 converts back from its decimal text |
| `Original.ToInt32OrZero` | Original.cs:201-227 | the value `toNumber` yields: the converted Int32 when the text converts, 0 when it does not; always within the Int32 range |
| `Original.ToNumber` | Original.cs:201-227 | never fails; returns the converted value when the text converts, and 0 when it does not |
| `Original.FilterThresholds` | Original.cs:156-163 | the threshold texts "100" and "10" convert to 100 and 10, the thresholds of the reviewed service |
| `Original.LargeOrderFilter.constructor` | Original.cs:76-81 | stores the writer and the list; the threshold text is "100" |
| `Original.LargeOrderFilter.Small` | Original.cs:156-163 | the SmallOrderFilter constructor: as the base constructor, but the threshold text is "10" |
| `Original.LargeOrderFilter.FilterOrdersSmallerThan` | Original.cs:123-147 | as written, always throws ArgumentOutOfRangeException at the index min(field count, argument count); never returns a list, even for an empty list |
| `Original.LargeOrderFilter.FilterOrdersSmallerThanFixed` | Original.cs:123-147 | with the bound `i < Count`, returns exactly the orders with size above the converted threshold, in source order |
| `Original.LargeOrderFilter.WriteOutFiltrdAndPriceSortedOrders` | Original.cs:89-119 | as written, always throws at index Count of its list; the writer is never called |
| `Original.LargeOrderFilter.ForwardFiltered` | Original.cs:98-118 | the ordering result is discarded; the writer receives the filtered orders in their original order, copied one by one |
| `Original.LargeOrderFilter.WriteOutWithCorrectedBound` | Original.cs:89-119 | with only the loop bound corrected, the writer is called once and receives the filtered orders in store order, not sorted by price |
| `Original.LargeOrderFilter.WriteOutFiltrdAndPriceSortedOrdersFixed` | Original.cs:89-119 | with both defects corrected, the writer receives the price-ordered selection of the list under the converted threshold |
| `Original.DiscardedOrderByExample` | Original.cs:100 | with the bound corrected, a small-order filter over (size 20, price 2) then (size 15, price 1) hands the writer exactly that sequence, which is not ascending by price |
| `Original.DiscardedOrderByLeavesPriceOrder` | Original.cs:100 | on the input of DiscardedOrderByExample, the filter keeps both orders out of price order, while the reviewed service's selection reverses them |
| `Original.OrderManager.constructor` | Original.cs:21-24 | stores the order store |
| `Original.OrderManager.WriteOutSmallOrders` | Original.cs:33-50 | always fails with ArgumentOutOfRangeException at index equal to the number of stored orders |
| `Original.OrderManager.WriteOutLargeOrders` | Original.cs:53-58 | always fails in the same way |

## Left out

- Price is a real number, not an IEEE double. NaN ordering and negative zero are not modelled; only the comparison matters.
- Size is an unbounded integer, not a 32-bit one. It is only compared, so wrap-around cannot arise.
- Conversion.ParseInt32: accepts only an optional `+` or `-` followed by ASCII digits. The white space and the culture-specific signs that `Convert.ToInt32` also accepts are not modelled. A null text (which `Convert.ToInt32` converts to 0) cannot arise, because strings here are values.
- The store and the writer never fail in the model. The repository shows no implementation of the store. The writer's only implementation has an empty body. A failure raised by a real collaborator would propagate unchanged, and the model has no such failures.
- LINQ deferred execution is not modelled. The filtered orders are a materialised sequence, not one the writer enumerates lazily. `ObservableCollection` change notifications are not modelled either.
- The lists are sequence values. The field `orders` of LargeOrderFilter and the argument `allOrders` are the same list in the source. The model passes the field as the argument, and nothing mutates the list, so aliasing makes no difference.
- Null values inside the data are not modelled, in either version. Lists, orders and symbols are values here and cannot be null.
  - The reviewed service would throw ArgumentNullException from `Where` if `GetOrders` returned null; that check is eager. A null order raises NullReferenceException only when the sequence handed to the writer is enumerated, because of deferred execution. The service's single call to the writer still happens.
  - The before-review code has no null guards, and would throw NullReferenceException for a null store, list or order.
  - The unit tests leave `Symbol` unset, which makes it null. The scenario lemmas use the empty symbol `""` in its place. The symbol is never read, so this changes nothing.
- The `orderWriter` field of LargeOrderFilter is stored but never used by the source. It is kept as a field only.
- `Order.toNumber` does not read the order it is called on, so it is a module-level method.
- The review commentary in Original.cs has no behaviour, and is not modelled.

## Findings

| source | as written | input that shows it | evidently intended | confidence | as-written member | corrected member |
|---|---|---|---|---|---|---|
| Original.cs:130 | the loop runs while `i <= allOrders.Count`, so it reads `orders[Count]` | any list, including the empty list: index 0 is out of range | `i < allOrders.Count`, returning the orders with size above the threshold | high (not executed) | `Original.LargeOrderFilter.FilterOrdersSmallerThan` | `Original.LargeOrderFilter.FilterOrdersSmallerThanFixed` |
| Original.cs:100 | the result of `Enumerable.OrderBy` is discarded, and the unsorted filtered list is written | once the bound at line 130 is corrected, orders (size 20, price 2) then (size 15, price 1) under threshold 10 are written in that order | write the price-ordered sequence | high (not executed) | `Original.DiscardedOrderByExample` | `Original.LargeOrderFilter.WriteOutFiltrdAndPriceSortedOrdersFixed` |
