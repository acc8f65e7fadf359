# Top countries of a product, over the `Orders` table

This project models the read side of the order store in
`orders_database/OrdersQuery.py`, with the top-countries report at its centre:

- `query_orders_by_gsi` and `scan_orders_filter`: the secondary-index query
  and the filtered scan. Each dispatches on its operator string and fails on
  the operators it does not handle.
- `query_orders_product_and_timerange`: the product query that feeds the
  report.
- `calc_top_countries`: sums `product_quantity` per country and hands the
  result to `calc_top_parallel`.
- `calc_top_parallel` keeps the three largest distinct totals in a min-heap.
  It lists, under each, every country with that total.
- `calc_top_no_parallel` keeps the three largest `(total, country)` pairs.

Both selection helpers return a dict of at most three countries unchanged.

The model is split by concern:

- `Heapq` holds Python's `heapq` (`heappush`, `heappushpop`, `_siftdown`,
  `_siftup`, as CPython implements them). Each is a specification function
  plus a method with the library's loop, proved equal to it.
- `BoundedTop` is the "push below three, else push-pop" heap the two
  helpers share. Its main result is that the heap ends with the three
  largest items fed to it.
- `OrderedDicts` holds Python's insertion-ordered dict.
- `Seqs` and `Strings` hold duplicate-freedom, first-occurrence
  de-duplication, `reversed`, and Python's string order.
- `OrdersQuery` holds the order records and the three read paths.
- `Aggregation` holds the per-country sums.
- `TopCountries` holds the two helpers, as written and as specification
  functions, and `calc_top_countries` end to end.

A few points where the model follows the code rather than what its names
suggest:

- **The parallel report is not always in descending order.** The code fills
  the result from `reversed(minheap)`, which suggests the author expected the
  largest total first, but a heap list is not sorted. Nothing in the
  repository documents an output order. For US 10, CA 10, FR 7, DE 3 the
  keys come out as 7, 10, 3; the model proves exactly that.
  What holds in general, and is proved, is that the smallest retained total
  comes last.
- **Ties are broken differently in the two helpers.** `calc_top_no_parallel`
  compares `(total, country)` tuples, so on equal totals the country name
  decides. `calc_top_parallel` groups all countries sharing a total.
- **The time range is ignored.** Its docstring promises a range with
  inclusive bounds, but the key condition on `order_time` is commented out.
  The model ignores the range and returns every order of the product in the
  index.
- **Non-`eq` operators in `query_orders_by_gsi` fail.** With such an
  operator, `response` is never assigned and the `return` fails. The model
  returns the error `ResponseUnbound(op)` for this case.
- **The aggregation loop is nested.** It runs the whole pass once per order,
  each time from an empty dict. `AggregateNested` keeps that nesting and is
  proved to give the same dict as one pass.

## Model

| member | source | states |
|---|---|---|
| Heapq.SiftedDown | orders_database/OrdersQuery.py:71 | No contract. `_siftdown(heap, 0, pos)`: the list after moving the item from `pos` towards the root past every larger parent. |
| Heapq.SiftedUp | orders_database/OrdersQuery.py:73 | No contract. `_siftup(heap, 0)`: the list after the hole walks down the smaller children to a leaf and the item is sifted back up. |
| Heapq.Pushed | orders_database/OrdersQuery.py:86 | No contract. `heappush`: append the item, then sift it down from the last slot. |
| Heapq.PushPopped | orders_database/OrdersQuery.py:88 | No contract. `heappushpop`: when the root is below the item, the root is returned and the item sifted up from slot 0. Otherwise the list and item come back unchanged. |
| Heapq.SiftDown | orders_database/OrdersQuery.py:71 | The `_siftdown` loop behind `heappush` returns the list `SiftedDown` describes: the new item moves towards the root past every larger parent. |
| Heapq.SiftUp | orders_database/OrdersQuery.py:73 | The `_siftup(heap, 0)` loop behind `heappushpop` moves the smaller child up until the hole reaches a leaf (the right child wins ties), then sifts the item down; it returns what `SiftedUp` describes. |
| Heapq.HeapPush | orders_database/OrdersQuery.py:86 | `heappush` appends the item and sifts it down from the last slot, giving `Pushed`. |
| Heapq.HeapPushPop | orders_database/OrdersQuery.py:88 | `heappushpop` swaps in the item and sifts it up only when the root is smaller than the item. Otherwise it returns the list and the item unchanged. Either way the result is `PushPopped`. |
| Heapq.SiftedDownSpec | orders_database/OrdersQuery.py:71 | Sifting an item down into a heap with one hole gives a heap of the same length whose multiset is the old one with the item in the hole. |
| Heapq.SiftedUpSpec | orders_database/OrdersQuery.py:73 | Sifting up from a hole gives a heap of the same length, with the item in place of the element that was at the hole. |
| Heapq.PushedSpec | orders_database/OrdersQuery.py:86 | `heappush` keeps the heap property, adds exactly the pushed item to the multiset, and grows the list by one. |
| Heapq.PushPoppedSpec | orders_database/OrdersQuery.py:88 | `heappushpop` keeps the heap property and the length. When the root is smaller than the item, it returns the root and the multiset swaps the root for the item. Otherwise list and item come back unchanged. |
| Heapq.HeapMin | orders_database/OrdersQuery.py:88 | In a heap nothing is smaller than the root, the entry `heappushpop` compares against. |
| BoundedTop.Feed | orders_database/OrdersQuery.py:70-73 | No contract. One loop step: `heappush` below three entries, else the list `heappushpop` leaves. |
| BoundedTop.KeepTop | orders_database/OrdersQuery.py:68-73 | No contract. The heap after feeding the items in order, starting from the empty list. |
| BoundedTop.Offer | orders_database/OrdersQuery.py:70-73 | The loop body: `heappush` while the heap holds fewer than three entries, else `heappushpop`, dropping the popped item. This is the function `Feed`. |
| BoundedTop.FeedFull | orders_database/OrdersQuery.py:85-88 | Offered to a full heap, an item replaces the minimum exactly when it is greater than the minimum; otherwise the heap is unchanged. The heap stays a heap of three entries. |
| BoundedTop.KeepTopIsTop | orders_database/OrdersQuery.py:83-88 | Feeding distinct items one by one leaves a heap of the min(3, n) largest of them, each once. Every item left out is smaller than every item kept. |
| BoundedTop.RootLeast | orders_database/OrdersQuery.py:91 | In a heap without repeats the root is strictly below every other entry, so `reversed(minheap)` ends with the smallest one. |
| OrdersQuery.Attr | orders_database/OrdersQuery.py:34 | No contract. An item's attribute by its table name; absent for any other name. |
| OrdersQuery.Greater | orders_database/OrdersQuery.py:38 | No contract. `>` on attribute values: numbers by value, strings lexicographically, mixed types never. |
| OrdersQuery.Satisfies | orders_database/OrdersQuery.py:32-39 | No contract. `Attr(name).eq(v)` or `.gt(v)`; an item without the attribute never matches. |
| OrdersQuery.Select | orders_database/OrdersQuery.py:31-42 | No contract. The items that satisfy the condition, in store order. |
| OrdersQuery.SelectCount | orders_database/OrdersQuery.py:32-39 | A filtered read returns each matching item as often as the store holds it, and no item that does not match. |
| OrdersQuery.SelectAppend | orders_database/OrdersQuery.py:33-35 | Filtering distributes over concatenation, so items come back in store order. |
| OrdersQuery.QueryOrdersByGsi | orders_database/OrdersQuery.py:11-23 | `'eq'` yields exactly the index items whose attribute equals the value. Any other operator yields `ResponseUnbound`. |
| OrdersQuery.ScanOrdersFilter | orders_database/OrdersQuery.py:26-42 | `'eq'` yields exactly the items whose attribute equals the value; `'gt'` yields those whose attribute is greater (numbers by value, strings lexicographically, an absent attribute never matches). Any other operator yields `UnsupportedFilterOp`, the `ValueError`. |
| OrdersQuery.QueryOrdersProductAndTimerange | orders_database/OrdersQuery.py:45-59 | Yields exactly the product's orders in the index, each as often as stored, whatever the time range. |
| OrderedDicts.Put | orders_database/OrdersQuery.py:102 | No contract. `d[k] = v`: an existing key keeps its place, a new key is appended. |
| OrderedDicts.Get | orders_database/OrdersQuery.py:102 | No contract. `d.get(k, default)`. |
| OrderedDicts.Empty | orders_database/OrdersQuery.py:100 | `dict()`: a well-formed dict with no keys and no entries. |
| OrderedDicts.PutValid | orders_database/OrdersQuery.py:102 | `d[k] = v` keeps the dict well-formed and sets exactly the value under `k`. An existing key keeps its place; a new key goes to the end, and the order of the others does not change. |
| Seqs.Dedup | orders_database/OrdersQuery.py:84 | No contract. The elements in order of first occurrence. |
| Seqs.Reverse | orders_database/OrdersQuery.py:91 | No contract. `reversed`. |
| Seqs.DedupSpec | orders_database/OrdersQuery.py:84 | Skipping totals already in `quantity_to_country` leaves each total once, and no total is lost. |
| Seqs.ReverseSpec | orders_database/OrdersQuery.py:91 | `reversed` keeps the length, puts position i at n-1-i, and keeps the same elements. |
| Strings.StrLess | orders_database/OrdersQuery.py:69 | No contract. Python's `<` on `str`: code points in turn, a proper prefix smaller. |
| Strings.StrLessTotal | orders_database/OrdersQuery.py:69 | Python's string order ranks any two different countries, which makes `(total, country)` tuples totally ordered. |
| Strings.StrLessTransitive | orders_database/OrdersQuery.py:69 | Python's string order is transitive. |
| TopCountries.PairLess | orders_database/OrdersQuery.py:69 | No contract. Python's `<` on `(quantity, country)` tuples: by total, ties by name. |
| TopCountries.IntLess | orders_database/OrdersQuery.py:86 | No contract. Python's `<` on totals. |
| TopCountries.PairLessOrder | orders_database/OrdersQuery.py:69 | Tuple comparison on `(quantity, country)`, by total and then by name, is a strict total order, as `heapq` needs. |
| TopCountries.IntLessOrder | orders_database/OrdersQuery.py:86 | `<` on totals is a strict total order. |
| TopCountries.Quantities | orders_database/OrdersQuery.py:83 | No contract. The totals of the given countries, in dict order. |
| TopCountries.CountriesWith | orders_database/OrdersQuery.py:89 | No contract. The countries with a given total, in dict order: the list `quantity_to_country[quantity]` ends with. |
| TopCountries.Retained | orders_database/OrdersQuery.py:83-88 | No contract. The heap the first pass ends with: each distinct total once, in first-seen order, fed to the bounded heap. |
| TopCountries.Grouped | orders_database/OrdersQuery.py:90-92 | No contract. The dict the second pass builds from a heap, walking `reversed(minheap)`. |
| TopCountries.TopParallel | orders_database/OrdersQuery.py:77-93 | No contract. The input for at most three countries, else the groups of the retained heap. |
| TopCountries.QuantitiesSpec | orders_database/OrdersQuery.py:83 | The dict gives one total per country, and a total occurs exactly when some country has it. |
| TopCountries.CountriesWithSpec | orders_database/OrdersQuery.py:89 | The list under a total holds exactly the countries with that total (each once, for a dict's distinct keys). |
| TopCountries.CountriesWithNone | orders_database/OrdersQuery.py:84 | A total has no countries listed exactly when it is not among the totals seen, which is the `not in quantity_to_country` test. |
| TopCountries.CountriesWithAppend | orders_database/OrdersQuery.py:89 | The lists keep the dict's order: appending countries run by run is the same as appending them all. |
| TopCountries.RetainedIsTop | orders_database/OrdersQuery.py:83-88 | The final heap is a heap of the min(3, distinct) largest distinct totals, each once and each some country's total. Every total left out is smaller than every total kept. |
| TopCountries.GroupedSpec | orders_database/OrdersQuery.py:90-92 | The result dict has the heap's totals as keys in `reversed` order, each mapped to the countries with that total. |
| TopCountries.LastKeySmallest | orders_database/OrdersQuery.py:91 | The last total of `reversed(minheap)` is smaller than every other. |
| TopCountries.GroupsOf | orders_database/OrdersQuery.py:90-92 | For any heap of distinct totals, the second pass yields a well-formed dict keyed in reversed heap order, smallest last, with each key's countries listed once. |
| TopCountries.GroupMembers | orders_database/OrdersQuery.py:89-92 | A country is listed under a total exactly when the input dict gives it that total, and it is listed once. |
| TopCountries.GroupsLargest | orders_database/OrdersQuery.py:83-92 | Every grouped total is some country's total, and every total of the input without a group is below every total with one. |
| TopCountries.GroupsKeys | orders_database/OrdersQuery.py:90-92 | The grouped dict has a key exactly for each heap entry. |
| TopCountries.TopParallelSpec | orders_database/OrdersQuery.py:77-93 | At most three countries: the input comes back unchanged. Otherwise the keys are min(3, distinct) countries' totals, in `reversed(minheap)` order with the smallest last, each above every total left out. Each maps to exactly the countries having it, each once. |
| TopCountries.HeapStep | orders_database/OrdersQuery.py:84-88 | A total already seen leaves the heap alone; a new one is offered to it. |
| TopCountries.TableStep | orders_database/OrdersQuery.py:89 | Appending the country to its total's list keeps `quantity_to_country` mapping each total seen to the countries with it. |
| TopCountries.ParallelStep | orders_database/OrdersQuery.py:83-89 | One country of the first loop keeps both invariants: the heap is the bounded heap of the distinct totals so far, and the table maps each total so far to its countries. |
| TopCountries.RetainedInTable | orders_database/OrdersQuery.py:92 | Every total left in the heap has its list in the finished table, so the lookup on line 92 never falls back to the default. |
| TopCountries.VisitCountry | orders_database/OrdersQuery.py:84-89 | The body of the first loop, as written, moves the heap and the table from the countries before `i` to those up to `i`. |
| TopCountries.EmitGroups | orders_database/OrdersQuery.py:90-92 | The loop over `reversed(minheap)` builds the grouped dict. |
| TopCountries.CalcTopParallel | orders_database/OrdersQuery.py:77-93 | `calc_top_parallel` as written returns `TopParallel`, whose properties `TopParallelSpec` states. |
| TopCountries.Pairs | orders_database/OrdersQuery.py:68-69 | No contract. `(quantity, country)` for each country, in dict order. |
| TopCountries.ByCountryOf | orders_database/OrdersQuery.py:74 | No contract. `{country: quantity for quantity, country in reversed(h)}`. |
| TopCountries.TopNoParallel | orders_database/OrdersQuery.py:63-75 | No contract. The input for at most three countries, else the comprehension over the retained pair heap. |
| TopCountries.PairsSpec | orders_database/OrdersQuery.py:68-69 | There is one `(quantity, country)` pair per country, with the country's own total and no repeats. |
| TopCountries.ByCountryOfSpec | orders_database/OrdersQuery.py:74 | The comprehension over `reversed(minheap)` lists the countries in reverse heap order. Each country maps to its pair's total, and only the heap's countries appear. |
| TopCountries.NoParallelNames | orders_database/OrdersQuery.py:68-74 | The pairs kept in the heap name distinct countries, so the comprehension loses none. |
| TopCountries.PairsHeapStep | orders_database/OrdersQuery.py:68-73 | One country of the loop offers its pair to the heap. |
| TopCountries.TopNoParallelSpec | orders_database/OrdersQuery.py:63-75 | At most three countries: the input comes back unchanged. Otherwise exactly three countries come back, each with its own total. Every dropped country's pair is below every kept one's (ties on the total broken by name), and the smallest kept pair is listed last. |
| TopCountries.CalcTopNoParallel | orders_database/OrdersQuery.py:63-75 | `calc_top_no_parallel` as written returns `TopNoParallel`, whose properties `TopNoParallelSpec` states. |
| Aggregation.Countries | orders_database/OrdersQuery.py:102 | No contract. The country of each order, in order. |
| Aggregation.SumQuantity | orders_database/OrdersQuery.py:101-103 | No contract. The sum of `product_quantity` over the orders placed from a country. |
| Aggregation.Aggregate | orders_database/OrdersQuery.py:101-103 | No contract. The dict after one pass of lines 101-103, starting from an empty dict. |
| Aggregation.AggregateSpec | orders_database/OrdersQuery.py:100-103 | The countries dict is well-formed and lists the countries in first-seen order, each with the sum of its orders' quantities. A missing country reads as 0. |
| Aggregation.AggregateNested | orders_database/OrdersQuery.py:98-103 | For a non-empty list of orders (the guard on line 96 rules out the empty one, for which line 105 would read an unassigned dict), the nested loop as written ends with the dict of one pass. It repeats the whole pass once per order, each time from an empty dict. |
| Aggregation.CountriesMember | orders_database/OrdersQuery.py:102 | A country gets an entry exactly when some order is placed from it. |
| Aggregation.SumQuantityPermutation | orders_database/OrdersQuery.py:101-103 | A country's total does not depend on the order in which the orders come back. |
| Aggregation.AggregatePermutation | orders_database/OrdersQuery.py:101-103 | Reordering the orders leaves every country's total unchanged; only the key order may differ. |
| TopCountries.CalcTopCountries | orders_database/OrdersQuery.py:95-105 | `calc_top_countries` returns `calc_top_parallel` of the aggregated product orders, and an empty dict when the product has no orders. |
| TopCountries.TopCountriesTotals | orders_database/OrdersQuery.py:95-105 | End to end: a country appears under a reported total exactly when it has orders of the product and they sum to that total. |
| TopCountries.KeepTop10_10_7_3 | orders_database/OrdersQuery.py:83-88 | For the totals 10, 10, 7, 3 the heap ends as the list `[3, 10, 7]`. |
| TopCountries.RetainedUnsorted | orders_database/OrdersQuery.py:83-88 | For US 10, CA 10, FR 7, DE 3 the first pass of `calc_top_parallel` leaves the heap `[3, 10, 7]`. |
| TopCountries.GroupedUnsorted | orders_database/OrdersQuery.py:90-92 | For that example the second pass yields 7 → [FR], 10 → [US, CA], 3 → [DE], in that order. |
| TopCountries.ParallelExampleUnsorted | orders_database/OrdersQuery.py:77-93 | For US 10, CA 10, FR 7, DE 3, `calc_top_parallel` returns the totals in the order 7, 10, 3, which is not descending. |
| TopCountries.KeepTop5_5_3_9 | orders_database/OrdersQuery.py:83-88 | For the totals 5, 5, 3, 9 the heap ends as `[3, 5, 9]`. |
| TopCountries.RetainedTie | orders_database/OrdersQuery.py:83-88 | For A 5, B 5, C 3, D 9 the first pass leaves the heap `[3, 5, 9]`. |
| TopCountries.GroupedTie | orders_database/OrdersQuery.py:90-92 | For that example the second pass yields 9 → [D], 5 → [A, B], 3 → [C]. |
| TopCountries.ParallelExampleTie | orders_database/OrdersQuery.py:77-93 | For A 5, B 5, C 3, D 9, `calc_top_parallel` groups A and B under their shared total 5. |
| TopCountries.KeepTopPairs | orders_database/OrdersQuery.py:68-73 | The pairs (10, US), (10, CA), (7, FR), (3, DE) leave the heap `[(7, FR), (10, US), (10, CA)]`. (3, DE) is rejected because it is below the root. |
| TopCountries.RetainedPairs | orders_database/OrdersQuery.py:68-73 | For US 10, CA 10, FR 7, DE 3 the loop of `calc_top_no_parallel` leaves that heap. |
| TopCountries.NoParallelExample | orders_database/OrdersQuery.py:63-75 | For US 10, CA 10, FR 7, DE 3, `calc_top_no_parallel` returns CA 10, US 10, FR 7 in that order. |

## Left out

- The DynamoDB resource, the `Orders` table handle and the network are not modelled. A read is a function of an in-memory sequence of orders standing for the table or for the queried index's items.
- Pagination (`LastEvaluatedKey`), index projections and validation of index names are not modelled: one call returns every matching item. Nor is the key-schema check of `query_orders_by_gsi`. DynamoDB rejects `Key(query_attr).eq(...)` when `query_attr` is not the index's partition key, while `QueryOrdersByGsi` filters on any attribute.
- The time window of `query_orders_product_and_timerange` is not modelled, because the code does not apply it.
- Non-integer `Decimal` values are not modelled: quantities, prices and tax are whole numbers, and `int(quantity)` is the identity.
- Heapq.SiftUp: models `_siftup` only from position 0. There the final `_siftdown` runs to the root. From any other start CPython stops that sift at the start position, and the model does not; `heappushpop` never starts anywhere but 0.
- `heapq` is not part of the repository. It is modelled on CPython's algorithm, with `_siftdown`'s start position fixed at 0, the only value the callers reach.
- The heap and the dicts are modelled as values (`seq`, and `keys` plus `map`) that each step returns updated. In-place mutation of the Python lists and dicts, and their aliasing, is not captured. No alias is ever observed in the modelled code.
- `collections.defaultdict(list)` is modelled as a `map` with an explicit default of an empty list on the one lookup that needs it.
- The ordering of the whole result is not proved independent of the order of the orders. Only the per-country totals are (`AggregatePermutation`). The keys follow first-seen order, as Python's dict does.
- The `__main__` demonstration block and `pprint` output are not modelled, since they are I/O.
- `orders_database/OrdersCreateTable.py`, `OrdersItemOps.py`, `OrdersLoadData.py` and `OrdersDeleteTable.py` are not part of this model. Only the attribute names of an order item are taken from `OrdersItemOps.py`.
