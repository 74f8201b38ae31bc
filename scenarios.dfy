/** Client runs of the storage: what its contracts alone let a caller conclude. */
module Scenarios {
  import opened Wrappers
  import opened ItemModels
  import opened CartModels
  import opened Storage

  /** Two items then a cart draw ids 0, 1 and 2 from the one generator; two
      units of the first item and one of the second give two lines and the
      sum of the three prices. */
  method AddTwoItemsToCart() returns (c: Result<Cart, Error>)
    ensures c == Success(Cart(2, [CartItem(0, "pen", 2, true), CartItem(1, "cup", 1, true)], 6.0))
  {
    var repo := new Repository();
    var pen := repo.CreateItem("pen", 1.5);
    var cup := repo.CreateItem("cup", 3.0);
    var cart := repo.CreateCart();
    assert cart == Success(NewCart(2));
    var first := repo.AddItemToCart(2, 0);
    assert first.value.items == [CartItem(0, "pen", 1, true)];
    var second := repo.AddItemToCart(2, 0);
    assert second.value.items == [CartItem(0, "pen", 2, true)];
    c := repo.AddItemToCart(2, 1);
    assert c.value.items == [CartItem(0, "pen", 2, true), CartItem(1, "cup", 1, true)];
    assert c.value.price == 1.5 + 1.5 + 3.0;
  }

  /** A deleted item stays stored: it leaves the default listing, appears
      when deleted items are asked for, can no longer be patched, and can
      still be added to a cart. */
  method DeleteThenQuery() returns (hidden: Result<seq<Item>, Error>, shown: Result<seq<Item>, Error>,
                                    patched: Result<Item, Error>, added: Result<Cart, Error>)
    ensures hidden == Success([])
    ensures shown == Success([Item(0, "pen", 1.5, true)])
    ensures patched == Failure(NotFound)
    ensures added.Success? && added.value.price == 1.5
  {
    var repo := new Repository();
    var pen := repo.CreateItem("pen", 1.5);
    var deleted := repo.DeleteItem(0);
    assert repo.AllItems() == [Item(0, "pen", 1.5, true)];
    hidden := repo.GetItems(0, 10, None, None, false);
    shown := repo.GetItems(0, 10, None, None, true);
    patched := repo.PatchItem(0, Some("x"), None);
    var cart := repo.CreateCart();
    added := repo.AddItemToCart(1, 0);
  }

  /** A negative offset is rejected, and so is adding to a cart that does not exist. */
  method RejectedCalls() returns (listed: Result<seq<Item>, Error>, added: Result<Cart, Error>)
    ensures listed == Failure(InvalidArgument)
    ensures added == Failure(NotFound)
  {
    var repo := new Repository();
    var pen := repo.CreateItem("pen", 1.5);
    listed := repo.GetItems(-1, 10, None, None, false);
    added := repo.AddItemToCart(999, 0);
  }
}
