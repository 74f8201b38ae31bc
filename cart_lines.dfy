/** What `add_item_to_cart` does to a cart's lines and price, as functions on
    values, and the invariant that ties a cart to the units added to it. */
module CartLines {
  import opened ItemModels
  import opened CartModels

  /** `sum(item.quantity for item in lines)`: the cart's total quantity. */
  function TotalQuantity(lines: seq<CartItem>): int
  {
    if lines == [] then 0 else lines[0].quantity + TotalQuantity(lines[1..])
  }

  /** Units of item `id` across the lines: the quantity of its line, 0 when it has none. */
  function QuantityOf(lines: seq<CartItem>, id: int): int
  {
    if lines == [] then 0
    else (if lines[0].id == id then lines[0].quantity else 0) + QuantityOf(lines[1..], id)
  }

  /** No two lines refer to the same item. */
  predicate UniqueIds(lines: seq<CartItem>)
  {
    forall i, j :: 0 <= i < j < |lines| ==> lines[i].id != lines[j].id
  }

  /** Every line holds at least one unit and is marked available. */
  predicate WellFormedLines(lines: seq<CartItem>)
  {
    forall i :: 0 <= i < |lines| ==> lines[i].quantity >= 1 && lines[i].available
  }

  /** The lines after one unit of item `id` (named `name`) is added: the first
      line with that id gets one more unit, or, when there is none, a new line
      is appended. */
  function AddUnit(lines: seq<CartItem>, id: int, name: string): seq<CartItem>
  {
    if lines == [] then [NewCartItem(id, name)]
    else if lines[0].id == id then [lines[0].(quantity := lines[0].quantity + 1)] + lines[1..]
    else [lines[0]] + AddUnit(lines[1..], id, name)
  }

  /** The cart after one unit of `item` is added: lines as `AddUnit` says,
      price raised by the item's current price. */
  function WithUnit(c: Cart, item: Item): Cart
  {
    c.(items := AddUnit(c.items, item.id, item.name), price := c.price + item.price)
  }

  /** Lines before the first one for `id` are passed over unchanged. */
  lemma {:induction false} AddUnitSkips(lines: seq<CartItem>, id: int, name: string, i: nat)
    requires i <= |lines|
    requires forall j :: 0 <= j < i ==> lines[j].id != id
    ensures AddUnit(lines, id, name) == lines[..i] + AddUnit(lines[i..], id, name)
  {
    if i > 0 {
      AddUnitSkips(lines[1..], id, name, i - 1);
      assert lines[1..][..i - 1] == lines[1..i];
      assert lines[1..][i - 1..] == lines[i..];
      assert [lines[0]] + lines[1..i] == lines[..i];
    }
  }

  /** When line `i` is the first line for `id`, only its quantity changes, by one. */
  lemma AddUnitIncrements(lines: seq<CartItem>, id: int, name: string, i: nat)
    requires i < |lines| && lines[i].id == id
    requires forall j :: 0 <= j < i ==> lines[j].id != id
    ensures AddUnit(lines, id, name) == lines[i := lines[i].(quantity := lines[i].quantity + 1)]
  {
    AddUnitSkips(lines, id, name, i);
    assert lines[i..][1..] == lines[i + 1..];
  }

  /** When no line is for `id`, one new line `(id, name)` is appended and the others stay. */
  lemma AddUnitAppends(lines: seq<CartItem>, id: int, name: string)
    requires forall j :: 0 <= j < |lines| ==> lines[j].id != id
    ensures AddUnit(lines, id, name) == lines + [NewCartItem(id, name)]
  {
    AddUnitSkips(lines, id, name, |lines|);
    assert lines[..|lines|] == lines;
  }

  /** Adding a unit raises the total quantity by exactly one. */
  lemma {:induction false} AddUnitTotal(lines: seq<CartItem>, id: int, name: string)
    ensures TotalQuantity(AddUnit(lines, id, name)) == TotalQuantity(lines) + 1
  {
    if lines != [] && lines[0].id != id {
      AddUnitTotal(lines[1..], id, name);
      assert AddUnit(lines, id, name)[1..] == AddUnit(lines[1..], id, name);
    } else if lines != [] {
      assert AddUnit(lines, id, name)[1..] == lines[1..];
    }
  }

  /** Adding a unit of `id` raises the units of `id` by one and no other item's. */
  lemma {:induction false} AddUnitQuantityOf(lines: seq<CartItem>, id: int, name: string, x: int)
    ensures QuantityOf(AddUnit(lines, id, name), x) == QuantityOf(lines, x) + (if x == id then 1 else 0)
  {
    if lines != [] && lines[0].id != id {
      AddUnitQuantityOf(lines[1..], id, name, x);
      assert AddUnit(lines, id, name)[1..] == AddUnit(lines[1..], id, name);
    } else if lines != [] {
      assert AddUnit(lines, id, name)[1..] == lines[1..];
    }
  }

  /** Adding a unit never creates a second line for an item. */
  lemma AddUnitKeepsIdsUnique(lines: seq<CartItem>, id: int, name: string)
    requires UniqueIds(lines)
    ensures UniqueIds(AddUnit(lines, id, name))
  {
    if i :| 0 <= i < |lines| && lines[i].id == id {
      AddUnitIncrements(lines, id, name, i);
    } else {
      AddUnitAppends(lines, id, name);
    }
  }

  /** Adding a unit keeps every line's quantity positive and every line available. */
  lemma {:induction false} AddUnitKeepsLinesWellFormed(lines: seq<CartItem>, id: int, name: string)
    requires WellFormedLines(lines)
    ensures WellFormedLines(AddUnit(lines, id, name))
  {
    if lines != [] && lines[0].id != id {
      AddUnitKeepsLinesWellFormed(lines[1..], id, name);
    }
  }

  /** Number of units of item `id` among the items added, in order, to a cart. */
  function AddedUnits(adds: seq<Item>, id: int): nat
  {
    if adds == [] then 0
    else AddedUnits(adds[..|adds| - 1], id) + (if adds[|adds| - 1].id == id then 1 else 0)
  }

  /** Sum of the prices the added items had when each was added. */
  function AddedPrice(adds: seq<Item>): real
  {
    if adds == [] then 0.0 else AddedPrice(adds[..|adds| - 1]) + adds[|adds| - 1].price
  }

  /** The cart invariant, against the items added to the cart so far (each as
      it was at the moment it was added): lines are unique per item, each holds
      a positive quantity and is available, the cached price is the sum of the
      prices added, the total quantity is the number of adds, and each item's
      units equal the number of times it was added. */
  ghost predicate Consistent(c: Cart, adds: seq<Item>)
  {
    && UniqueIds(c.items)
    && WellFormedLines(c.items)
    && c.price == AddedPrice(adds)
    && TotalQuantity(c.items) == |adds|
    && forall x :: QuantityOf(c.items, x) == AddedUnits(adds, x)
  }

  /** A new cart is consistent with an empty history. */
  lemma NewCartConsistent(id: int)
    ensures Consistent(NewCart(id), [])
  {
  }

  /** Adding one unit of an item keeps a cart consistent with its history
      extended by that item. */
  lemma AddKeepsConsistent(c: Cart, adds: seq<Item>, item: Item)
    requires Consistent(c, adds)
    ensures Consistent(WithUnit(c, item), adds + [item])
  {
    var adds' := adds + [item];
    assert adds'[..|adds'| - 1] == adds;
    AddUnitKeepsIdsUnique(c.items, item.id, item.name);
    AddUnitKeepsLinesWellFormed(c.items, item.id, item.name);
    AddUnitTotal(c.items, item.id, item.name);
    forall x ensures QuantityOf(AddUnit(c.items, item.id, item.name), x) == AddedUnits(adds', x) {
      AddUnitQuantityOf(c.items, item.id, item.name, x);
    }
  }

  /** With unique ids, an item's units are the quantity of its line. */
  lemma {:induction false} QuantityOfLine(lines: seq<CartItem>, i: nat)
    requires UniqueIds(lines) && i < |lines|
    ensures QuantityOf(lines, lines[i].id) == lines[i].quantity
  {
    if i == 0 {
      QuantityOfAbsent(lines[1..], lines[0].id);
    } else {
      QuantityOfLine(lines[1..], i - 1);
    }
  }

  /** An item without a line has no units. */
  lemma {:induction false} QuantityOfAbsent(lines: seq<CartItem>, x: int)
    requires forall j :: 0 <= j < |lines| ==> lines[j].id != x
    ensures QuantityOf(lines, x) == 0
  {
    if lines != [] {
      QuantityOfAbsent(lines[1..], x);
    }
  }

  /** In a consistent cart each line's quantity is the number of times its item was added. */
  lemma LineCountsAdds(c: Cart, adds: seq<Item>, i: nat)
    requires Consistent(c, adds) && i < |c.items|
    ensures c.items[i].quantity == AddedUnits(adds, c.items[i].id)
  {
    QuantityOfLine(c.items, i);
  }
}
