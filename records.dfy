/** The records kept in the storefront's local database "CoffeeShopDB". */
module Records {

  /** Key of both object stores: their keyPath is the record's `id`. */
  type Id = string

  datatype Option<T> = None | Some(value: T)

  /** A catalog record, as fetched from the coffee API and cached in the "products" store. */
  datatype Product = Product(id: Id, name: string, description: string, price: real, imageUrl: string)

  /** A record of the "cart" store: a copy of some fields of a product, taken when it was added,
      and the quantity the shopper chose. */
  datatype CartEntry = CartEntry(id: Id, imageUrl: string, name: string, price: real, quantity: int)

  /** The cart record that addToCart builds for `id` from the product found in the catalog. */
  function Snapshot(id: Id, p: Product): (e: CartEntry)
    ensures e.id == id && e.quantity == 1
    ensures e.imageUrl == p.imageUrl && e.name == p.name && e.price == p.price
  {
    CartEntry(id, p.imageUrl, p.name, p.price, 1)
  }

  /** The "total" column of a cart row. */
  function LineTotal(e: CartEntry): (t: real)
    ensures e.quantity == 1 ==> t == e.price
    ensures e.price >= 0.0 && e.quantity >= 0 ==> t >= 0.0
    ensures e.quantity == 0 ==> t == 0.0
  {
    e.price * e.quantity as real
  }

  function ProductIds(ps: seq<Product>): seq<Id>
  {
    seq(|ps|, i requires 0 <= i < |ps| => ps[i].id)
  }

  function CartIds(es: seq<CartEntry>): seq<Id>
  {
    seq(|es|, i requires 0 <= i < |es| => es[i].id)
  }
}
