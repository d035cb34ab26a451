# Grocery store ordering, modelled in Dafny

This project models the list logic of the grocery stores REST API: the part of
the three mutating route handlers that works on the store document after it
has been loaded and before it is written back.

A **store** holds an ordered list of **categories** `{name, order, groceries}`.
Each category holds an ordered list of **groceries** `{groceryName, order}`.
Names are lookup keys. `order` is an explicit integer rank, not the array
position.

- **AddGrocery** (`POST /:storeId/grocery`) is an upsert. If the requested
  category is missing, it is appended to the store with the new grocery at
  order 1; a missing or empty category name becomes `"Uncategorized"`. If the
  category already holds a grocery of that name, the request is rejected.
  Otherwise the grocery is appended with the category's largest order plus one.
- **MoveGrocery** (`PUT /:storeId/grocery`) is a rank-shift reinsertion.
  Moving up (requested order below the current one), every grocery with
  `order >= target` gains one. Moving down or staying, every grocery with
  `order <= target` loses one. Then the named grocery is set to the target.
- **MoveCategory** (`PUT /:storeId/category`) runs the same rank shift over
  the store's categories.

Files:

- `wrappers.dfy`: `Option` and `Result`.
- `stores.dfy` (module `Stores`): the records, the `find` lookups, `MaxOrder`, the shift
  loops (in place on arrays, like the source's loops over the document's array), the three
  handler methods, the functions that specify the two moves, and the document invariants.
- `store_properties.dfy` (module `StoreProperties`): what a move does to each element and
  what it leaves alone, the invariants every handler keeps, when a move keeps the orders
  a permutation of 1..n, and the concrete cases.

Each handler takes the document the database lookup returned, as
`loaded: Option<Store>`. It returns `Ok(store)` with the document that would be
written back, or `Err(NotFound)` / `Err(DuplicateItem)` when nothing is written.

Behaviour of the code worth noting:

- The rank shift is not a general permutation-preserving move. For any
  requested orders it keeps each uniqueness invariant that held before, each on
  its own and with no assumption about names (`MoveGroceryKeepsConsistent`,
  `MoveCategoryKeepsConsistent`).
  It keeps them a **permutation of 1..n** when the last-ranked item moves up,
  or the first-ranked item moves down, to any rank within 1..n
  (`MoveGroceryLastUp`, `MoveGroceryFirstDown` and the category versions).
  Other moves can break it. With orders 1..4, moving 3 to 1 leaves 2, 3, 1, 5
  (`MoveThirdToFirstLeavesGap`). Moving 2 to 3 leaves 0, 3, 2, 4
  (`MoveSecondToThirdLeavesZero`). Even leaving 2 at rank 2 shifts the others
  down and leaves 0, 2, 3, 4 (`StaySecondLeavesZero`).
- An add request without a category is never matched against `"Uncategorized"`.
  The lookup compares stored names with the absent value, which none equals.
  So every such request appends another `"Uncategorized"` category, and
  category names need not stay unique. The last `ensures` of `AddGrocery`
  states this.
- A category created by AddGrocery has no `order` (`None` here). The move loops
  compare an absent order false both ways, so such a category is never shifted.
- The move handlers choose the direction from the request's `current.order`,
  not from the order stored for the grocery or category.

## Model

| member | source | states |
|---|---|---|
| `Stores.FindCategory` | endpoints/stores.js:126 | the result is the index of the first category with that name, and it is `None` exactly when no category has that name |
| `Stores.FindGrocery` | endpoints/stores.js:76 | the result is the index of the first grocery with that name, and it is `None` exactly when no grocery has that name |
| `Stores.FindGroceryIgnoresOrders` | endpoints/stores.js:132-140 | the lookup after the shift loop finds the same grocery as before it, because the loop changes no names |
| `Stores.FindCategoryIgnoresOrders` | endpoints/stores.js:191-199 | the lookup after the shift loop finds the same category as before it, because the loop changes no names |
| `Stores.RequestedCategory` | endpoints/stores.js:59 | with no category requested nothing matches; otherwise the result is the first category with the requested name, and it is found whenever some category has that name |
| `Stores.NewCategoryName` | endpoints/stores.js:65 | a created category is named by the request when a non-empty name is given and `"Uncategorized"` otherwise, so its name is never empty |
| `Stores.MaxOrder` | endpoints/stores.js:89 | the result is at least every order in the non-empty list and equals one of them |
| `Stores.AddGrocery` | endpoints/stores.js:51-95 | store missing: `NotFound`. Category missing: exactly one category appended at the end (requested name, or `"Uncategorized"`; no order; one grocery at order 1), earlier categories unchanged. Name already in the category: `DuplicateItem`, nothing written. Otherwise: one grocery appended to that category only, with an order above every existing order and one more than one of them; the earlier groceries and the other categories are unchanged. Grocery-key uniqueness and category-order uniqueness are kept. Category-name uniqueness is kept when a non-empty category is named, and broken when none is named and `"Uncategorized"` exists |
| `Stores.ShiftGroceries` | endpoints/stores.js:131-149 | each grocery of the array ends with its order shifted by the rank-shift rule, and keeps its name |
| `Stores.ShiftCategories` | endpoints/stores.js:190-208 | each category of the array ends with its order shifted by the rank-shift rule; absent orders stay absent; names and groceries are kept |
| `Stores.MoveGroceryResult` | endpoints/stores.js:117-159 | a grocery move fails only with `NotFound`, and succeeds only on a loaded store, keeping its id and its number of categories |
| `Stores.MoveCategoryResult` | endpoints/stores.js:177-217 | a category move fails only with `NotFound`, and succeeds only on a loaded store, keeping its id and its number of categories |
| `Stores.MoveGrocery` | endpoints/stores.js:117-159 | the method (lookup, in-place shift loop, lookup, placement) returns exactly `MoveGroceryResult`: `NotFound` when the store, category or grocery is missing, else the store with only that category's grocery list replaced by the reinserted list |
| `Stores.MoveCategory` | endpoints/stores.js:177-217 | the method returns exactly `MoveCategoryResult`: `NotFound` when the store or category is missing, else the store with its category list replaced by the reinserted list |
| `StoreProperties.MoveGroceryFailsIffMissing` | endpoints/stores.js:117-152 | a grocery move fails exactly when the store, the category or the grocery is missing, and then with `NotFound` |
| `StoreProperties.MoveGroceryUp` | endpoints/stores.js:125-141 | moving up, every other grocery with an order at or above the target gains one, every other keeps its order and name, and the moved grocery ends with exactly the target order |
| `StoreProperties.MoveGroceryDown` | endpoints/stores.js:142-152 | moving down or staying, every other grocery with an order at or below the target loses one, every other keeps its order and name, and the moved grocery ends with exactly the target order |
| `StoreProperties.MoveGroceryOnlyReorders` | endpoints/stores.js:132-159 | a grocery move keeps the store id, the number of categories, every other category, the addressed category's name and order, its list length and every grocery's name at its position |
| `StoreProperties.MoveGroceryKeepsConsistent` | endpoints/stores.js:131-152 | for any requested orders, a grocery move keeps each invariant that held before, each on its own: grocery names and orders unique within every list, category names unique, category orders unique |
| `StoreProperties.MoveGroceryLastUp` | endpoints/stores.js:131-141 | with orders a permutation of 1..n, moving the grocery ranked n up to any rank in 1..n-1 leaves a permutation of 1..n |
| `StoreProperties.MoveGroceryFirstDown` | endpoints/stores.js:142-152 | with orders a permutation of 1..n, moving the grocery ranked 1 down to any rank in 1..n leaves a permutation of 1..n |
| `StoreProperties.MoveMilkToBottom` | endpoints/stores.js:142-152 | Milk 1, Eggs 2, Butter 3 with Milk moved to 3 gives Milk 3, Eggs 1, Butter 2, and nothing else changes |
| `StoreProperties.MoveThirdToFirstLeavesGap` | endpoints/stores.js:131-141 | orders 1..4 with the third moved to 1 give 2, 3, 1, 5, which is not a ranking |
| `StoreProperties.MoveSecondToThirdLeavesZero` | endpoints/stores.js:142-152 | orders 1..4 with the second moved to 3 give 0, 3, 2, 4, which is not a ranking |
| `StoreProperties.StaySecondLeavesZero` | endpoints/stores.js:142-152 | orders 1..4 with the second "moved" to its own rank 2 give 0, 2, 3, 4, which is not a ranking |
| `StoreProperties.MoveCategoryFailsIffMissing` | endpoints/stores.js:177-211 | a category move fails exactly when the store or the named category is missing, and then with `NotFound` |
| `StoreProperties.MoveCategoryUp` | endpoints/stores.js:185-200 | moving up, every other category with an order at or above the target gains one, categories without an order keep none, the rest keep theirs, the moved one ends at the target |
| `StoreProperties.MoveCategoryDown` | endpoints/stores.js:201-211 | moving down or staying, every other category with an order at or below the target loses one, categories without an order keep none, the rest keep theirs, the moved one ends at the target |
| `StoreProperties.MoveCategoryOnlyReorders` | endpoints/stores.js:190-217 | a category move keeps the store id, the number of categories, and every category's name and grocery list at its position |
| `StoreProperties.MoveCategoryKeepsConsistent` | endpoints/stores.js:190-211 | for any requested orders, a category move keeps each invariant that held before, each on its own: category orders unique, category names unique, grocery names and orders unique within every list |
| `StoreProperties.MoveCategoryLastUp` | endpoints/stores.js:190-200 | with category orders a permutation of 1..n, moving the category ranked n up to any rank in 1..n-1 leaves a permutation of 1..n |
| `StoreProperties.MoveCategoryFirstDown` | endpoints/stores.js:201-211 | with category orders a permutation of 1..n, moving the category ranked 1 down to any rank in 1..n leaves a permutation of 1..n |
| `StoreProperties.ShiftLeavesGapAtTarget` | endpoints/stores.js:135-147 | the shift never yields the target order and never merges two different orders |
| `StoreProperties.ReinsertKeepsOrdersUnique` | endpoints/stores.js:131-152 | placing one element at the target and shifting the others keeps all orders distinct |
| `StoreProperties.RankingIsPermutation` | endpoints/stores.js:131-152 | orders that are distinct and lie in 1..n are exactly the ranks 1..n |
| `StoreProperties.AddAfterThreeGetsFour` | endpoints/stores.js:89-94 | adding Cheese to a category ranked Milk 1, Eggs 2, Butter 3 appends Cheese at order 4 |

## Left out

- HTTP routing, the request-time logging middleware and the text responses (`OK`, `BAD!`, `duplicate grocery`): plumbing around the logic.
- The database calls (`findOne`, `find`, `insertOne`, `updateOne` with `$set` and the positional `categories.$` update): the loaded document is a parameter, and the written one is the returned `Store`.
- Listing stores and creating a store: the database does that work; no local logic.
- The missing `return` after `BAD!` and the crashes on a missing category or grocery: they end the request before any write, so they are `Err(NotFound)` here.
- `Stores.AddGrocery`: requires the requested category, when found, to hold at least one grocery. The source would take `Math.max` of nothing (`-Infinity`, floating point).
- Values outside the records' types: `null` orders, orders that are not numbers, and JavaScript's loose `==`. Names are strings and orders are exact integers, so only absent category orders are modelled.
- `Stores.AddGrocery`: orders are exact unbounded integers, while the source computes with double-precision numbers. Past 2^53 the `order + 1` of endpoints/stores.js:90 can round back to an existing order, so the "one more than an existing order" and uniqueness promises hold here but not for such orders in the source.
- `Stores.MaxOrder`: `Math.max.apply` at endpoints/stores.js:89 passes every order as a separate argument and throws a `RangeError` beyond the engine's argument limit; the model has no such limit.
- `Stores.ShiftGroceries`, `Stores.ShiftCategories`: the `+ 1` and `- 1` of endpoints/stores.js:136, 147, 195 and 206 are exact here; on doubles past 2^53 they are not, and the uniqueness the move lemmas prove would not hold.
- The add handler also writes the computed order into the request object. That object is not persisted.
- Aliasing: the source mutates the category object reached through `find`, which lives inside the store's array. Here that category is replaced at the found index of a new list. The shift loops do mutate an array in place.
- The lost update between concurrent read-modify-write requests: concurrency is outside the model.
