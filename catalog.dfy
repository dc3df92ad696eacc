/** The `products` table that `CategoryModel` and `CartModel` read. No file of this
    model writes it, so it is passed to them as a value. */
module Catalog {
  import opened Wrappers
  import Seqs

  /** The columns of a `products` row that the models look at. */
  datatype Product = Product(id: int, categoryId: int, status: string)

  /** `SELECT … FROM products WHERE id = ?`. */
  function FindProduct(products: seq<Product>, id: int): (r: Option<Product>)
    ensures r.Some? ==> r.value in products && r.value.id == id
    ensures r.None? <==> forall i :: 0 <= i < |products| ==> products[i].id != id
  {
    match Seqs.FirstIndex(products, (p: Product) => p.id == id)
    case None => None
    case Some(k) => Some(products[k])
  }
}
