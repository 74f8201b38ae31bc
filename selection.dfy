/** The conditions `get_items` and `get_carts` filter by, with the staged
    filtering of `get_carts` shown equal to one filter by all bounds. */
module Selection {
  import opened Wrappers
  import opened Seqs
  import opened ItemModels
  import opened CartModels
  import opened CartLines

  /** A supplied price bound below zero (the queries reject it). */
  predicate NegativePrice(bound: Option<real>)
  {
    bound.Some? && bound.value < 0.0
  }

  /** A supplied quantity bound below zero (`get_carts` rejects it). */
  predicate NegativeCount(bound: Option<int>)
  {
    bound.Some? && bound.value < 0
  }

  /** `x` lies within the inclusive bounds; a missing bound does not restrict. */
  predicate InPriceRange(x: real, minPrice: Option<real>, maxPrice: Option<real>)
  {
    (minPrice.None? || x >= minPrice.value) && (maxPrice.None? || x <= maxPrice.value)
  }

  /** An item is listed when its price is within the bounds and it is not
      deleted, unless deleted items are asked for. */
  predicate ItemMatches(it: Item, minPrice: Option<real>, maxPrice: Option<real>, showDeleted: bool)
  {
    InPriceRange(it.price, minPrice, maxPrice) && (showDeleted || !it.deleted)
  }

  function ItemSelector(minPrice: Option<real>, maxPrice: Option<real>, showDeleted: bool): Item -> bool
  {
    (it: Item) => ItemMatches(it, minPrice, maxPrice, showDeleted)
  }

  /** A cart is listed when its cached price and its total quantity are within the bounds. */
  predicate CartMatches(c: Cart, minPrice: Option<real>, maxPrice: Option<real>,
                        minQuantity: Option<int>, maxQuantity: Option<int>)
  {
    && InPriceRange(c.price, minPrice, maxPrice)
    && (minQuantity.None? || TotalQuantity(c.items) >= minQuantity.value)
    && (maxQuantity.None? || TotalQuantity(c.items) <= maxQuantity.value)
  }

  function CartSelector(minPrice: Option<real>, maxPrice: Option<real>,
                        minQuantity: Option<int>, maxQuantity: Option<int>): Cart -> bool
  {
    (c: Cart) => CartMatches(c, minPrice, maxPrice, minQuantity, maxQuantity)
  }

  /** The first comprehension of `get_carts`: the price bounds. */
  function PriceSelector(minPrice: Option<real>, maxPrice: Option<real>): Cart -> bool
  {
    (c: Cart) => InPriceRange(c.price, minPrice, maxPrice)
  }

  /** The minimum-quantity comprehension. */
  function AtLeastSelector(minQuantity: int): Cart -> bool
  {
    (c: Cart) => TotalQuantity(c.items) >= minQuantity
  }

  /** The maximum-quantity comprehension. */
  function AtMostSelector(maxQuantity: int): Cart -> bool
  {
    (c: Cart) => TotalQuantity(c.items) <= maxQuantity
  }

  /** The carts `get_carts` keeps before slicing, computed as it does: first
      by price, then by minimum quantity and then by maximum quantity, each
      quantity stage only when its bound is supplied. */
  function CartsInStages(all: seq<Cart>, minPrice: Option<real>, maxPrice: Option<real>,
                         minQuantity: Option<int>, maxQuantity: Option<int>): seq<Cart>
  {
    var byPrice := Filter(all, PriceSelector(minPrice, maxPrice));
    var byMin := if minQuantity.Some? then Filter(byPrice, AtLeastSelector(minQuantity.value)) else byPrice;
    if maxQuantity.Some? then Filter(byMin, AtMostSelector(maxQuantity.value)) else byMin
  }

  /** The price and minimum-quantity conditions together. */
  function PriceAndAtLeast(minPrice: Option<real>, maxPrice: Option<real>, minQuantity: Option<int>): Cart -> bool
  {
    (c: Cart) => InPriceRange(c.price, minPrice, maxPrice) && (minQuantity.None? || TotalQuantity(c.items) >= minQuantity.value)
  }

  /** The staged filtering keeps exactly the carts that meet all bounds at once, in their order. */
  lemma CartsInStagesMatch(all: seq<Cart>, minPrice: Option<real>, maxPrice: Option<real>,
                           minQuantity: Option<int>, maxQuantity: Option<int>)
    ensures CartsInStages(all, minPrice, maxPrice, minQuantity, maxQuantity)
         == Filter(all, CartSelector(minPrice, maxPrice, minQuantity, maxQuantity))
  {
    var byPrice := Filter(all, PriceSelector(minPrice, maxPrice));
    var both := PriceAndAtLeast(minPrice, maxPrice, minQuantity);
    var byMin := if minQuantity.Some? then Filter(byPrice, AtLeastSelector(minQuantity.value)) else byPrice;
    if minQuantity.Some? {
      FilterConjunction(all, PriceSelector(minPrice, maxPrice), AtLeastSelector(minQuantity.value), both);
    } else {
      FilterConjunction(all, PriceSelector(minPrice, maxPrice), both, both);
      FilterAll(byPrice, both);
    }
    assert byMin == Filter(all, both);
    var sel := CartSelector(minPrice, maxPrice, minQuantity, maxQuantity);
    if maxQuantity.Some? {
      FilterConjunction(all, both, AtMostSelector(maxQuantity.value), sel);
    } else {
      FilterConjunction(all, both, sel, sel);
      FilterAll(byMin, sel);
    }
  }

  /** Appending an item to the stored items appends it to a listing exactly
      when it meets the listing's conditions. */
  lemma ListingAfterAppend(all: seq<Item>, it: Item, minPrice: Option<real>, maxPrice: Option<real>, showDeleted: bool)
    ensures Filter(all + [it], ItemSelector(minPrice, maxPrice, showDeleted))
         == Filter(all, ItemSelector(minPrice, maxPrice, showDeleted))
            + (if ItemMatches(it, minPrice, maxPrice, showDeleted) then [it] else [])
  {
    FilterAppend(all, [it], ItemSelector(minPrice, maxPrice, showDeleted));
    assert [it][1..] == [];
  }
}
