/** The in-memory shop storage: two dictionaries, carts and items, both keyed
    by ids drawn from one shared generator, and the operations on them. */
module Storage {
  import opened Wrappers
  import opened Seqs
  import opened ItemModels
  import opened CartModels
  import opened CartLines
  import opened Selection

  /** What the storage raises: a rejected argument or a missing (or, for
      patching, deleted) entity — both `ValueError` — and the end of the id
      generator (`StopIteration`). */
  datatype Error = InvalidArgument | NotFound | IdsExhausted

  /** `range(999999)`: the generator yields the ids 0 .. 999998. */
  const IdLimit := 999999

  /** `order` lists the keys of `m` in insertion order; ids are handed out in
      increasing order, so that order is also ascending. */
  ghost predicate OrderedKeys<T>(m: map<int, T>, order: seq<int>)
  {
    && (forall i :: 0 <= i < |order| ==> order[i] in m)
    && (forall k :: k in m ==> k in order)
    && (forall i, j :: 0 <= i < j < |order| ==> order[i] < order[j])
  }

  /** Nothing stored is removed, ids stay, and a deleted item stays deleted. */
  ghost predicate ItemsKept(before: map<int, Item>, after: map<int, Item>)
  {
    forall k :: k in before ==> k in after && after[k].id == before[k].id && (before[k].deleted ==> after[k].deleted)
  }

  /** Every cart is stored under its own id, below the next id. */
  ghost predicate CartIdsBelow(carts: map<int, Cart>, nextId: int)
  {
    forall k :: k in carts ==> 0 <= k < nextId && carts[k].id == k
  }

  /** Every item is stored under its own id, below the next id. */
  ghost predicate ItemIdsBelow(items: map<int, Item>, nextId: int)
  {
    forall k :: k in items ==> 0 <= k < nextId && items[k].id == k
  }

  /** Every cart is consistent with the items added to it. */
  ghost predicate CartsConsistent(carts: map<int, Cart>, adds: map<int, seq<Item>>)
  {
    && adds.Keys == carts.Keys
    && forall k {:trigger Consistent(carts[k], adds[k])} :: k in carts ==> Consistent(carts[k], adds[k])
  }

  /** A key above every key stored so far can be appended to the order. */
  lemma OrderedKeysAppend<T>(m: map<int, T>, order: seq<int>, k: int, v: T)
    requires OrderedKeys(m, order)
    requires forall j :: j in m ==> j < k
    ensures OrderedKeys(m[k := v], order + [k])
  {
    assert forall i :: 0 <= i < |order| ==> order[i] < k;
  }

  /** Storing a cart under the next id keeps ids below the advanced generator. */
  lemma CartIdsAfterInsert(carts: map<int, Cart>, nextId: nat, c: Cart)
    requires CartIdsBelow(carts, nextId) && c.id == nextId
    ensures CartIdsBelow(carts[nextId := c], nextId + 1)
  {
  }

  /** Storing an item under the next id keeps ids below the advanced generator. */
  lemma ItemIdsAfterInsert(items: map<int, Item>, nextId: nat, it: Item)
    requires ItemIdsBelow(items, nextId) && it.id == nextId
    ensures ItemIdsBelow(items[nextId := it], nextId + 1)
  {
  }

  /** Replacing one cart by one consistent with its new history keeps all carts consistent. */
  lemma CartsConsistentAfterStore(carts: map<int, Cart>, adds: map<int, seq<Item>>, k: int, c: Cart, h: seq<Item>)
    requires CartsConsistent(carts, adds) && Consistent(c, h)
    ensures CartsConsistent(carts[k := c], adds[k := h])
  {
    var carts', adds' := carts[k := c], adds[k := h];
    forall j | j in carts'
      ensures Consistent(carts'[j], adds'[j])
    {
      if j != k {
        assert Consistent(carts[j], adds[j]);
      }
    }
  }

  /** The storage invariant, on the values of its fields: the generator has
      not run past its range; each dictionary's key order lists exactly its
      keys, ascending; every entity is stored under its own id, below the
      next id; no id is both a cart's and an item's; and every cart is
      consistent with the items added to it. */
  ghost predicate Invariant(carts: map<int, Cart>, cartOrder: seq<int>, items: map<int, Item>,
                            itemOrder: seq<int>, nextId: int, adds: map<int, seq<Item>>)
  {
    && 0 <= nextId <= IdLimit
    && OrderedKeys(carts, cartOrder)
    && OrderedKeys(items, itemOrder)
    && CartIdsBelow(carts, nextId)
    && ItemIdsBelow(items, nextId)
    && carts.Keys !! items.Keys
    && CartsConsistent(carts, adds)
  }

  /** Drawing an id keeps the invariant. */
  lemma DrawKeepsInvariant(carts: map<int, Cart>, cartOrder: seq<int>, items: map<int, Item>,
                           itemOrder: seq<int>, nextId: int, adds: map<int, seq<Item>>)
    requires Invariant(carts, cartOrder, items, itemOrder, nextId, adds) && nextId < IdLimit
    ensures Invariant(carts, cartOrder, items, itemOrder, nextId + 1, adds)
  {
  }

  /** Storing a new empty cart under a freshly drawn id keeps the invariant. */
  lemma CreateCartKeepsInvariant(carts: map<int, Cart>, cartOrder: seq<int>, items: map<int, Item>,
                                 itemOrder: seq<int>, nextId: int, adds: map<int, seq<Item>>)
    requires Invariant(carts, cartOrder, items, itemOrder, nextId, adds) && nextId < IdLimit
    ensures Invariant(carts[nextId := NewCart(nextId)], cartOrder + [nextId], items, itemOrder,
                      nextId + 1, adds[nextId := []])
  {
    OrderedKeysAppend(carts, cartOrder, nextId, NewCart(nextId));
    CartIdsAfterInsert(carts, nextId, NewCart(nextId));
    NewCartConsistent(nextId);
    CartsConsistentAfterStore(carts, adds, nextId, NewCart(nextId), []);
  }

  /** Storing a new item under a freshly drawn id keeps the invariant. */
  lemma CreateItemKeepsInvariant(carts: map<int, Cart>, cartOrder: seq<int>, items: map<int, Item>,
                                 itemOrder: seq<int>, nextId: int, adds: map<int, seq<Item>>, it: Item)
    requires Invariant(carts, cartOrder, items, itemOrder, nextId, adds) && nextId < IdLimit
    requires it.id == nextId
    ensures Invariant(carts, cartOrder, items[nextId := it], itemOrder + [nextId], nextId + 1, adds)
  {
    OrderedKeysAppend(items, itemOrder, nextId, it);
    ItemIdsAfterInsert(items, nextId, it);
  }

  /** Replacing a stored cart by one consistent with its extended history keeps the invariant. */
  lemma StoreCartKeepsInvariant(carts: map<int, Cart>, cartOrder: seq<int>, items: map<int, Item>,
                                itemOrder: seq<int>, nextId: int, adds: map<int, seq<Item>>,
                                c: Cart, h: seq<Item>)
    requires Invariant(carts, cartOrder, items, itemOrder, nextId, adds)
    requires c.id in carts && Consistent(c, h)
    ensures Invariant(carts[c.id := c], cartOrder, items, itemOrder, nextId, adds[c.id := h])
  {
    CartsConsistentAfterStore(carts, adds, c.id, c, h);
  }

  /** Replacing a stored item by one with the same id keeps the invariant. */
  lemma StoreItemKeepsInvariant(carts: map<int, Cart>, cartOrder: seq<int>, items: map<int, Item>,
                                itemOrder: seq<int>, nextId: int, adds: map<int, seq<Item>>, it: Item)
    requires Invariant(carts, cartOrder, items, itemOrder, nextId, adds)
    requires it.id in items
    ensures Invariant(carts, cartOrder, items[it.id := it], itemOrder, nextId, adds)
  {
  }

  class Repository {
    var carts: map<int, Cart>
    var cartOrder: seq<int>
    var items: map<int, Item>
    var itemOrder: seq<int>
    /** The next value of the shared id generator. */
    var nextId: nat
    /** For each cart, the items added to it so far, each as it was when added. */
    ghost var adds: map<int, seq<Item>>

    ghost predicate Valid()
      reads this
    {
      Invariant(carts, cartOrder, items, itemOrder, nextId, adds)
    }

    /** Empty dictionaries and a generator that has not started. */
    constructor ()
      ensures Valid()
      ensures carts == map[] && cartOrder == [] && items == map[] && itemOrder == []
      ensures nextId == 0
    {
      carts, cartOrder, items, itemOrder := map[], [], map[], [];
      nextId := 0;
      adds := map[];
    }

    /** `next(id_generator)`: the next id, or the end of the generator. */
    method NextId() returns (r: Result<int, Error>)
      requires Valid()
      modifies this`nextId
      ensures Valid()
      ensures old(nextId) < IdLimit ==> r == Success(old(nextId)) && nextId == old(nextId) + 1
      ensures old(nextId) == IdLimit ==> r == Failure(IdsExhausted) && nextId == old(nextId)
    {
      if nextId < IdLimit {
        DrawKeepsInvariant(carts, cartOrder, items, itemOrder, nextId, adds);
        r := Success(nextId);
        nextId := nextId + 1;
      } else {
        r := Failure(IdsExhausted);
      }
    }

    /** The stored carts in insertion order (`__carts.values()`). */
    function AllCarts(): (cs: seq<Cart>)
      reads this
      requires Valid()
      ensures forall i, j :: 0 <= i < j < |cs| ==> cs[i].id < cs[j].id
    {
      Values(carts, cartOrder)
    }

    /** The stored items in insertion order (`__items.values()`). */
    function AllItems(): (its: seq<Item>)
      reads this
      requires Valid()
      ensures forall i, j :: 0 <= i < j < |its| ==> its[i].id < its[j].id
    {
      Values(items, itemOrder)
    }

    /** `create_cart`: a new empty cart under the next id. */
    method CreateCart() returns (r: Result<Cart, Error>)
      requires Valid()
      modifies this
      ensures Valid()
      ensures r.Success? <==> old(nextId) < IdLimit
      ensures r.Failure? ==> r.error == IdsExhausted && unchanged(this)
      ensures r.Success? ==>
        && r.value == NewCart(old(nextId))
        && r.value.id !in old(carts) && r.value.id !in old(items)
        && (forall k :: k in old(carts) || k in old(items) ==> k < r.value.id)
        && nextId == old(nextId) + 1
        && carts == old(carts)[r.value.id := r.value]
        && cartOrder == old(cartOrder) + [r.value.id]
        && adds == old(adds)[r.value.id := []]
        && GetCart(r.value.id) == Some(r.value)
      ensures items == old(items) && itemOrder == old(itemOrder)
    {
      var id := NextId();
      if id.Failure? {
        return Failure(id.error);
      }
      var cart := NewCart(id.value);
      CreateCartKeepsInvariant(carts, cartOrder, items, itemOrder, cart.id, adds);
      carts := carts[cart.id := cart];
      cartOrder := cartOrder + [cart.id];
      adds := adds[cart.id := []];
      r := Success(cart);
    }

    /** `get_cart`: the cart stored under `id`, if any. */
    function GetCart(id: int): (r: Option<Cart>)
      reads this
      ensures r.Some? <==> id in carts
      ensures r.Some? ==> r.value == carts[id]
      ensures Valid() && r.Some? ==> r.value.id == id && Consistent(r.value, adds[id])
    {
      if id in carts then Some(carts[id]) else None
    }

    /** `get_carts`: the page `[offset, offset + limit)` of the carts, in
        insertion order, whose cached price and total quantity lie within the
        supplied inclusive bounds; a negative offset, a non-positive limit or
        a negative bound is rejected. */
    function GetCarts(offset: int, limit: int, minPrice: Option<real>, maxPrice: Option<real>,
                      minQuantity: Option<int>, maxQuantity: Option<int>): (r: Result<seq<Cart>, Error>)
      reads this
      requires Valid()
      ensures r.Failure? <==>
        offset < 0 || limit <= 0 || NegativePrice(minPrice) || NegativePrice(maxPrice)
        || NegativeCount(minQuantity) || NegativeCount(maxQuantity)
      ensures r.Failure? ==> r.error == InvalidArgument
      ensures r.Success? ==> |r.value| <= limit
      ensures r.Success? ==> forall i :: 0 <= i < |r.value| ==>
        && r.value[i].id in carts && carts[r.value[i].id] == r.value[i]
        && CartMatches(r.value[i], minPrice, maxPrice, minQuantity, maxQuantity)
      ensures r.Success? ==> forall i, j :: 0 <= i < j < |r.value| ==> r.value[i].id < r.value[j].id
      ensures r.Success? ==>
        r.value == Page(Filter(AllCarts(), CartSelector(minPrice, maxPrice, minQuantity, maxQuantity)), offset, limit)
    {
      if offset < 0 || limit <= 0 then Failure(InvalidArgument)
      else if NegativePrice(minPrice) || NegativePrice(maxPrice)
           || NegativeCount(minQuantity) || NegativeCount(maxQuantity) then Failure(InvalidArgument)
      else
        CartsInStagesMatch(AllCarts(), minPrice, maxPrice, minQuantity, maxQuantity);
        FilterKeepsIncreasing(AllCarts(), CartSelector(minPrice, maxPrice, minQuantity, maxQuantity), (c: Cart) => c.id);
        Success(Page(CartsInStages(AllCarts(), minPrice, maxPrice, minQuantity, maxQuantity), offset, limit))
    }

    /** `add_item_to_cart`: one unit of the item goes into the cart — the
        item's line gets one more unit, or a new line `(item.id, item.name)`
        is appended — and the cart's price grows by the item's price. A
        missing cart or item is rejected; a deleted item is not. */
    method AddItemToCart(cartId: int, itemId: int) returns (r: Result<Cart, Error>)
      requires Valid()
      modifies this
      ensures Valid()
      ensures r.Failure? <==> cartId !in old(carts) || itemId !in old(items)
      ensures r.Failure? ==> r.error == NotFound && unchanged(this)
      ensures r.Success? ==>
        && r.value == WithUnit(old(carts)[cartId], old(items)[itemId])
        && r.value.price == old(carts)[cartId].price + old(items)[itemId].price
        && TotalQuantity(r.value.items) == TotalQuantity(old(carts)[cartId].items) + 1
        && carts == old(carts)[cartId := r.value]
        && adds == old(adds)[cartId := old(adds)[cartId] + [old(items)[itemId]]]
      ensures items == old(items) && itemOrder == old(itemOrder)
      ensures cartOrder == old(cartOrder) && nextId == old(nextId)
    {
      var found := GetCart(cartId);
      var stored := GetItem(itemId);
      if found.None? || stored.None? {
        return Failure(NotFound);
      }
      var cart, item := found.value, stored.value;
      AddKeepsConsistent(cart, adds[cartId], item);
      StoreCartKeepsInvariant(carts, cartOrder, items, itemOrder, nextId, adds, WithUnit(cart, item), adds[cartId] + [item]);
      AddUnitTotal(cart.items, item.id, item.name);
      var lines := cart.items;
      var i := 0;
      while i < |lines|
        invariant 0 <= i <= |lines|
        invariant forall j :: 0 <= j < i ==> lines[j].id != itemId
      {
        if lines[i].id == itemId {
          AddUnitIncrements(lines, item.id, item.name, i);
          lines := lines[i := lines[i].(quantity := lines[i].quantity + 1)];
          cart := cart.(items := lines, price := cart.price + item.price);
          carts := carts[cartId := cart];
          adds := adds[cartId := adds[cartId] + [item]];
          return Success(cart);
        }
        i := i + 1;
      }
      AddUnitAppends(lines, item.id, item.name);
      lines := lines + [NewCartItem(item.id, item.name)];
      cart := cart.(items := lines, price := cart.price + item.price);
      carts := carts[cartId := cart];
      adds := adds[cartId := adds[cartId] + [item]];
      r := Success(cart);
    }

    /** `create_item`: a new, not deleted item under the next id, with the
        given name and price taken as they are. */
    method CreateItem(name: string, price: real) returns (r: Result<Item, Error>)
      requires Valid()
      modifies this
      ensures Valid()
      ensures r.Success? <==> old(nextId) < IdLimit
      ensures r.Failure? ==> r.error == IdsExhausted && unchanged(this)
      ensures r.Success? ==>
        && r.value == NewItem(old(nextId), name, price)
        && r.value.id !in old(items) && r.value.id !in old(carts)
        && (forall k :: k in old(carts) || k in old(items) ==> k < r.value.id)
        && nextId == old(nextId) + 1
        && items == old(items)[r.value.id := r.value]
        && itemOrder == old(itemOrder) + [r.value.id]
        && GetItem(r.value.id) == Some(r.value)
      ensures carts == old(carts) && cartOrder == old(cartOrder) && adds == old(adds)
    {
      var id := NextId();
      if id.Failure? {
        return Failure(id.error);
      }
      var item := NewItem(id.value, name, price);
      CreateItemKeepsInvariant(carts, cartOrder, items, itemOrder, item.id, adds, item);
      items := items[item.id := item];
      itemOrder := itemOrder + [item.id];
      r := Success(item);
    }

    /** `get_item`: the item stored under `id`, deleted or not. */
    function GetItem(id: int): (r: Option<Item>)
      reads this
      ensures r.Some? <==> id in items
      ensures r.Some? ==> r.value == items[id]
      ensures Valid() && r.Some? ==> r.value.id == id
    {
      if id in items then Some(items[id]) else None
    }

    /** `get_items`: the page `[offset, offset + limit)` of the items, in
        insertion order, whose price lies within the supplied inclusive
        bounds and that are not deleted unless `showDeleted`; a negative
        offset, a non-positive limit or a negative bound is rejected. */
    function GetItems(offset: int, limit: int, minPrice: Option<real>, maxPrice: Option<real>,
                      showDeleted: bool): (r: Result<seq<Item>, Error>)
      reads this
      requires Valid()
      ensures r.Failure? <==> offset < 0 || limit <= 0 || NegativePrice(minPrice) || NegativePrice(maxPrice)
      ensures r.Failure? ==> r.error == InvalidArgument
      ensures r.Success? ==> |r.value| <= limit
      ensures r.Success? ==> forall i :: 0 <= i < |r.value| ==>
        && r.value[i].id in items && items[r.value[i].id] == r.value[i]
        && ItemMatches(r.value[i], minPrice, maxPrice, showDeleted)
      ensures r.Success? ==> forall i, j :: 0 <= i < j < |r.value| ==> r.value[i].id < r.value[j].id
      ensures r.Success? ==>
        r.value == Page(Filter(AllItems(), ItemSelector(minPrice, maxPrice, showDeleted)), offset, limit)
    {
      if offset < 0 || limit <= 0 then Failure(InvalidArgument)
      else if NegativePrice(minPrice) || NegativePrice(maxPrice) then Failure(InvalidArgument)
      else
        FilterKeepsIncreasing(AllItems(), ItemSelector(minPrice, maxPrice, showDeleted), (it: Item) => it.id);
        Success(Page(Filter(AllItems(), ItemSelector(minPrice, maxPrice, showDeleted)), offset, limit))
    }

    /** `patch_item`: overwrite the supplied fields of a stored, not deleted
        item; a missing or deleted item is rejected. */
    method PatchItem(id: int, name: Option<string>, price: Option<real>) returns (r: Result<Item, Error>)
      requires Valid()
      modifies this
      ensures Valid()
      ensures r.Failure? <==> id !in old(items) || old(items)[id].deleted
      ensures r.Failure? ==> r.error == NotFound && unchanged(this)
      ensures r.Success? ==>
        && r.value.id == id && !r.value.deleted
        && r.value.name == name.GetOr(old(items)[id].name)
        && r.value.price == price.GetOr(old(items)[id].price)
        && items == old(items)[id := r.value]
      ensures ItemsKept(old(items), items)
      ensures itemOrder == old(itemOrder) && nextId == old(nextId)
      ensures carts == old(carts) && cartOrder == old(cartOrder) && adds == old(adds)
    {
      var stored := GetItem(id);
      if stored.None? || stored.value.deleted {
        return Failure(NotFound);
      }
      var item := stored.value;
      if name.Some? {
        item := item.(name := name.value);
      }
      if price.Some? {
        item := item.(price := price.value);
      }
      StoreItemKeepsInvariant(carts, cartOrder, items, itemOrder, nextId, adds, item);
      items := items[id := item];
      r := Success(item);
    }

    /** `update_item`: a patch that supplies both the name and the price. */
    method UpdateItem(id: int, name: string, price: real) returns (r: Result<Item, Error>)
      requires Valid()
      modifies this
      ensures Valid()
      ensures r.Failure? <==> id !in old(items) || old(items)[id].deleted
      ensures r.Failure? ==> r.error == NotFound && unchanged(this)
      ensures r.Success? ==>
        && r.value == Item(id, name, price, false)
        && items == old(items)[id := r.value]
      ensures ItemsKept(old(items), items)
      ensures itemOrder == old(itemOrder) && nextId == old(nextId)
      ensures carts == old(carts) && cartOrder == old(cartOrder) && adds == old(adds)
    {
      r := PatchItem(id, Some(name), Some(price));
    }

    /** `delete_item`: mark a stored item deleted and keep it stored; a
        missing item is rejected, an already deleted one is left as it is. */
    method DeleteItem(id: int) returns (r: Result<Item, Error>)
      requires Valid()
      modifies this
      ensures Valid()
      ensures r.Failure? <==> id !in old(items)
      ensures r.Failure? ==> r.error == NotFound && unchanged(this)
      ensures r.Success? ==>
        && r.value == old(items)[id].(deleted := true)
        && items == old(items)[id := r.value]
        && (old(items)[id].deleted ==> items == old(items))
      ensures ItemsKept(old(items), items)
      ensures itemOrder == old(itemOrder) && nextId == old(nextId)
      ensures carts == old(carts) && cartOrder == old(cartOrder) && adds == old(adds)
    {
      if id !in items {
        return Failure(NotFound);
      }
      var item := items[id].(deleted := true);
      StoreItemKeepsInvariant(carts, cartOrder, items, itemOrder, nextId, adds, item);
      items := items[id := item];
      r := Success(item);
    }
  }
}
