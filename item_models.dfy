/** The item record the storage keeps. Its declaring file (models/item_models.py)
    is not part of this model: the fields are the ones the storage reads and
    writes, and a newly created item is taken to be not deleted. */
module ItemModels {

  datatype Item = Item(id: int, name: string, price: real, deleted: bool)

  /** An item as `create_item` builds it: the given id, name and price, not deleted. */
  function NewItem(id: int, name: string, price: real): (it: Item)
    ensures it.id == id && it.name == name && it.price == price
    ensures !it.deleted
  {
    Item(id, name, price, false)
  }
}
