/** The cart records: a cart line (`CartItem`) and a cart (`Cart`), with the
    default field values a fresh record gets. */
module CartModels {

  /** One line of a cart: the item's id and name as copied when the line was
      made, how many units were added, and an availability flag. */
  datatype CartItem = CartItem(id: int, name: string, quantity: int, available: bool)

  /** A cart: its id, its lines in the order first added, and its cached price. */
  datatype Cart = Cart(id: int, items: seq<CartItem>, price: real)

  /** `CartItem(id=..., name=...)`: quantity and availability take their defaults. */
  function NewCartItem(id: int, name: string): (line: CartItem)
    ensures line.id == id && line.name == name
    ensures line.quantity == 1
    ensures line.available
  {
    CartItem(id, name, 1, true)
  }

  /** `Cart(id=...)`: no lines and price 0. */
  function NewCart(id: int): (c: Cart)
    ensures c.id == id
    ensures c.items == []
    ensures c.price == 0.0
  {
    Cart(id, [], 0.0)
  }
}
