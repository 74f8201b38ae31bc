# Shop storage — a verified Dafny model

This project models the in-memory storage behind a small shop HTTP API
(`lecture_2/hw/shop_api/storage.py`) and the cart records it builds
(`lecture_2/hw/shop_api/models/cart_models.py`).

The storage keeps two dictionaries, carts and items, keyed by integer ids.
Both kinds of entity take their ids from one generator, `range(999999)`.
Items are created, read, listed with price filters and pagination, patched,
fully updated and soft-deleted. Carts are created, read, listed with price
and quantity filters and pagination, and receive items one unit at a time.

## Layout

- `wrappers.dfy` — `Option` (Python's `None`) and `Result` (a value, or the
  error the storage raises).
- `seqs.dfy` — list comprehensions with a condition (`Filter`), Python
  slicing `s[offset:offset + limit]` (`Page`) and dictionary values in
  insertion order (`Values`), with their lemmas.
- `item_models.dfy`, `cart_models.dfy` — the records and their defaults.
- `cart_lines.dfy` — what adding one unit does to a cart's lines and price,
  and the cart invariant `Consistent`.
- `selection.dfy` — the filter conditions of the two list queries.
- `storage.dfy` — class `Repository`: the two dictionaries (`map` plus a
  `seq` of keys in insertion order), the shared generator `nextId`, and one
  method or function per storage operation. The invariant `Valid()` says:
  - key orders are exact and ascending;
  - every entity is stored under its own id, below `nextId`;
  - no id is both a cart's and an item's;
  - every cart is consistent with the ghost log `adds`. This log holds the
    items added to the cart, each as it was at the moment it was added.
- `scenarios.dfy` — three client runs whose outcomes follow from the
  contracts alone.

How the model maps the source:

- A raised `ValueError` becomes `Failure(InvalidArgument)` for a bad offset,
  limit or bound.
- It becomes `Failure(NotFound)` for a missing cart or item, and for patching
  a deleted item.
- Running out of ids (`StopIteration` from `next(id_generator)`) becomes
  `Failure(IdsExhausted)`.
- Prices are exact `real`s.

Behaviours of the code the model keeps:

- carts and items share ONE id generator, so ids are unique across both kinds.
  Creating two items and then a cart gives ids 0, 1 and 2;
- `create_item` does not reject a negative price;
- `get_item` returns a deleted item. `add_item_to_cart` therefore accepts a
  deleted item, and the new line is still marked available;
- `get_carts` returns an empty list when no cart matches.

## Model

| member | source | states |
|---|---|---|
| `Seqs.Filter` | lecture_2/hw/shop_api/storage.py:85-86 | every kept element is in the input and satisfies the condition; every input element that satisfies it is kept; never longer than the input |
| `Seqs.FilterAppend` | lecture_2/hw/shop_api/storage.py:85-86 | filtering a concatenation is the concatenation of the filtered parts (the comprehension keeps the dictionary's order) |
| `Seqs.FilterAll` | lecture_2/hw/shop_api/storage.py:36-44 | a condition every element meets keeps the sequence unchanged (a skipped quantity stage changes nothing) |
| `Seqs.FilterConjunction` | lecture_2/hw/shop_api/storage.py:33-44 | filtering by one condition and then another equals filtering once by both |
| `Seqs.FilterKeepsIncreasing` | lecture_2/hw/shop_api/storage.py:85-87 | filtering keeps strictly increasing keys strictly increasing |
| `Seqs.Page` | lecture_2/hw/shop_api/storage.py:87 | the slice `[offset:offset+limit]` holds at most `limit` elements, exactly `min(limit, len - offset)` of them (none past the end), and element `i` is input element `offset + i` |
| `Seqs.AdjacentPages` | lecture_2/hw/shop_api/storage.py:87 | the pages at offsets 0 and k of size k together are the first 2k elements; over increasing keys every key of the first page is below every key of the second, so they share nothing |
| `Seqs.Values` | lecture_2/hw/shop_api/storage.py:33 | dictionary values listed in key-insertion order: element `i` is the value stored under the `i`-th key |
| `Seqs.ValuesAppend` | lecture_2/hw/shop_api/storage.py:67 | storing under a new key appended to the order appends the value to the listing and leaves earlier values in place |
| `ItemModels.NewItem` | lecture_2/hw/shop_api/storage.py:66 | a created item has the given id, name and price and is not deleted |
| `CartModels.NewCartItem` | lecture_2/hw/shop_api/models/cart_models.py:5-9 | a new line has the given id and name, quantity 1 and available true |
| `CartModels.NewCart` | lecture_2/hw/shop_api/models/cart_models.py:11-14 | a new cart has the given id, no lines and price 0 |
| `CartLines.AddUnitSkips` | lecture_2/hw/shop_api/storage.py:55-56 | lines before the first line for the item pass through unchanged |
| `CartLines.AddUnitIncrements` | lecture_2/hw/shop_api/storage.py:55-59 | when line `i` is the first line for the item, the result is the lines with only that line's quantity raised by one |
| `CartLines.AddUnitAppends` | lecture_2/hw/shop_api/storage.py:61 | when no line is for the item, the result is the old lines followed by one new line `(item.id, item.name)` |
| `CartLines.AddUnitTotal` | lecture_2/hw/shop_api/storage.py:55-61 | one add raises the total quantity by exactly 1 |
| `CartLines.AddUnitQuantityOf` | lecture_2/hw/shop_api/storage.py:55-61 | one add raises the added item's units by 1 and leaves every other item's units unchanged |
| `CartLines.AddUnitKeepsIdsUnique` | lecture_2/hw/shop_api/storage.py:55-61 | if no two lines share an item id before an add, none do after it |
| `CartLines.AddUnitKeepsLinesWellFormed` | lecture_2/hw/shop_api/models/cart_models.py:8-9 | lines keep a positive quantity and stay available through an add (no add sets `available` otherwise) |
| `CartLines.NewCartConsistent` | lecture_2/hw/shop_api/storage.py:11 | a new cart is consistent with an empty add history |
| `CartLines.AddKeepsConsistent` | lecture_2/hw/shop_api/storage.py:48-63 | one add keeps the cart invariant: unique lines, price = sum of the prices added (each at add time), total quantity = number of adds, each item's units = times it was added |
| `CartLines.QuantityOfLine` | lecture_2/hw/shop_api/storage.py:55-57 | with unique line ids, an item's units are the quantity of its line |
| `CartLines.QuantityOfAbsent` | lecture_2/hw/shop_api/storage.py:61 | an item without a line has no units |
| `CartLines.LineCountsAdds` | lecture_2/hw/shop_api/storage.py:55-62 | in a consistent cart each line's quantity equals the number of successful adds of its item |
| `Selection.CartsInStagesMatch` | lecture_2/hw/shop_api/storage.py:33-44 | the three comprehensions (price, then minimum quantity, then maximum quantity, each quantity stage only when its bound is given) keep exactly the carts meeting all bounds at once, in order |
| `Selection.ListingAfterAppend` | lecture_2/hw/shop_api/storage.py:85-86 | appending an item to the stored items appends it to a listing exactly when it meets the listing's conditions |
| `Storage.OrderedKeysAppend` | lecture_2/hw/shop_api/storage.py:12 | a key larger than all stored ones can be appended to the insertion order, keeping it exact and ascending |
| `Storage.CartIdsAfterInsert` | lecture_2/hw/shop_api/storage.py:11-12 | storing a cart under the drawn id keeps every cart under its own id below the advanced generator |
| `Storage.ItemIdsAfterInsert` | lecture_2/hw/shop_api/storage.py:66-67 | storing an item under the drawn id keeps every item under its own id below the advanced generator |
| `Storage.CartsConsistentAfterStore` | lecture_2/hw/shop_api/storage.py:57-62 | replacing one cart by a cart consistent with its new history keeps all carts consistent |
| `Storage.DrawKeepsInvariant` | lecture_2/hw/shop_api/storage.py:8 | advancing the generator within its range keeps the storage invariant |
| `Storage.CreateCartKeepsInvariant` | lecture_2/hw/shop_api/storage.py:10-13 | storing a new empty cart under the drawn id keeps the storage invariant |
| `Storage.CreateItemKeepsInvariant` | lecture_2/hw/shop_api/storage.py:65-68 | storing a new item under the drawn id keeps the storage invariant |
| `Storage.StoreCartKeepsInvariant` | lecture_2/hw/shop_api/storage.py:48-63 | updating a stored cart consistently with its extended history keeps the storage invariant |
| `Storage.StoreItemKeepsInvariant` | lecture_2/hw/shop_api/storage.py:94-97 | overwriting a stored item's fields (same id) keeps the storage invariant |
| `Storage.Repository.constructor` | lecture_2/hw/shop_api/storage.py:5-8 | the storage starts with two empty dictionaries and an unstarted generator, and satisfies the invariant |
| `Storage.Repository.NextId` | lecture_2/hw/shop_api/storage.py:8 | `next(id_generator)` returns the current id and advances by one while below 999999, and fails with `IdsExhausted` (changing nothing) after that |
| `Storage.Repository.AllCarts` | lecture_2/hw/shop_api/storage.py:33 | the stored carts in insertion order, with strictly increasing ids |
| `Storage.Repository.AllItems` | lecture_2/hw/shop_api/storage.py:85 | the stored items in insertion order, with strictly increasing ids |
| `Storage.Repository.CreateCart` | lecture_2/hw/shop_api/storage.py:10-13 | fails only when ids are exhausted, changing nothing; otherwise stores `Cart(id)` (no lines, price 0) under the drawn id, which is above every cart and item id so far; `GetCart` then returns it; no item changes |
| `Storage.Repository.GetCart` | lecture_2/hw/shop_api/storage.py:15-16 | `Some` exactly when the id is stored, with the stored cart, whose id is the key and which is consistent with its add history |
| `Storage.Repository.GetCarts` | lecture_2/hw/shop_api/storage.py:18-46 | fails iff offset < 0, limit <= 0 or any supplied bound is negative; otherwise at most `limit` stored carts, all within the inclusive price and total-quantity bounds, in ascending id order, exactly the page `[offset, offset+limit)` of all matching carts |
| `Storage.Repository.AddItemToCart` | lecture_2/hw/shop_api/storage.py:48-63 | fails with `NotFound` iff the cart or the item is absent (a deleted item is accepted), changing nothing; otherwise the cart becomes `WithUnit(cart, item)`: price up by the item's price, total quantity up by 1, the item logged; items and orders unchanged |
| `Storage.Repository.CreateItem` | lecture_2/hw/shop_api/storage.py:65-68 | fails only when ids are exhausted; otherwise stores an undeleted item with the given name and price (unvalidated) under the drawn id, which is above every cart and item id so far; carts unchanged |
| `Storage.Repository.GetItem` | lecture_2/hw/shop_api/storage.py:70-71 | `Some` exactly when the id is stored, deleted or not, with the stored item whose id is the key |
| `Storage.Repository.GetItems` | lecture_2/hw/shop_api/storage.py:73-87 | fails iff offset < 0, limit <= 0 or a supplied price bound is negative; otherwise at most `limit` stored items, each within the inclusive price bounds and not deleted unless `showDeleted`, in ascending id order, exactly the page `[offset, offset+limit)` of the matching items |
| `Storage.Repository.PatchItem` | lecture_2/hw/shop_api/storage.py:89-99 | fails with `NotFound` iff the item is absent or deleted, changing nothing; otherwise overwrites exactly the supplied fields, keeps id and deleted flag, and changes nothing else |
| `Storage.Repository.UpdateItem` | lecture_2/hw/shop_api/storage.py:101-102 | same failure cases as patching; otherwise the item becomes `(id, name, price, not deleted)` |
| `Storage.Repository.DeleteItem` | lecture_2/hw/shop_api/storage.py:104-110 | fails with `NotFound` only when the id is absent; otherwise the item stays stored with deleted set, and deleting an already deleted item changes nothing |
| `Scenarios.AddTwoItemsToCart` | lecture_2/hw/shop_api/storage.py:48-63 | items "pen" 1.5 and "cup" 3.0 get ids 0 and 1 and the cart gets id 2; adding pen, pen, cup yields lines `[(0, pen, 2), (1, cup, 1)]` and price 6.0 |
| `Scenarios.DeleteThenQuery` | lecture_2/hw/shop_api/storage.py:104-110 | after deleting the only item, the default listing is empty, the listing with deleted items shows it, patching it fails with `NotFound`, and adding it to a cart still succeeds |
| `Scenarios.RejectedCalls` | lecture_2/hw/shop_api/storage.py:79-80 | a negative offset fails with `InvalidArgument`; adding to a missing cart fails with `NotFound` |

Invariants that every mutating method keeps (as `Valid()`, together with
`ItemsKept` on the item operations):

- ids are unique across carts and items, and each is below the generator's
  next value;
- nothing is ever removed;
- a deleted item stays deleted;
- each cart's lines are unique per item id. Each line has a positive quantity
  and is available;
- each cart's price equals the sum of the prices its items had when added;
- each cart's total quantity equals the number of adds.

## Left out

- Object aliasing. In the source, `get_cart`, `get_item`, the create
  functions and the list functions return the stored objects themselves, so a
  caller that mutates a returned object changes the storage. The model returns
  values, and carts and items are datatypes in maps. An in-place field update is
  a map update.
- Python float arithmetic. Prices are exact reals, so rounding in
  `cart.price += item.price` and in the bound comparisons is not modelled.
- `lecture_2/hw/shop_api/models/item_models.py` is not part of this model.
  `Item` has the fields the storage reads and writes. A created item is taken
  to be not deleted. Any validation pydantic performs in `Item`, `ItemRequest`
  or `ItemPatchRequest` (for example on negative prices) is not modelled.
- Runtime type checks. Pydantic's checks on the `Cart` and `CartItem` records,
  and Python's dynamic typing of arguments, are not modelled: the arguments are
  typed.
- Concurrency between request handlers. Each operation is modelled as one
  atomic step.
- The HTTP layer (`routers/item_routers.py`, `routers/cart_routers.py`,
  `main.py`) and the ASGI calculator of `lecture_1`. They are transport and
  wiring. The cart routes, `create_item`, `get_items` and `update_item` map a
  `ValueError` from storage to status 422; the create routes do not catch the
  `StopIteration` of an exhausted generator (`IdsExhausted` here), and the
  `get_cart` route returns nothing for a missing cart, since storage's
  `get_cart` does not raise. The `get_item` route answers 404 itself, the
  `patch_item` route maps any error to 304 and the `delete_item` route maps
  any error to 404.
- The distinct error kinds `InvalidArgument` and `NotFound` are the model's.
  The source raises a plain `ValueError` for both.
