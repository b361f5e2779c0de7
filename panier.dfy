/** The cart page: every handler reads and writes the "cart" store and, when it changed
    something, reloads the whole cart into the table. */
module Panier {
  import opened Records
  import Store
  import Cart

  class CartPage {
    const db: Store.ShopDB
    /** The records last handed to displayCartItem. */
    var rendered: seq<CartEntry>

    ghost predicate Valid()
      reads this, db
    {
      db.Valid() && db.version == Store.DbVersion
    }

    /** Page load: the cart page's `openDB` creates or upgrades the database. */
    constructor (db: Store.ShopDB)
      requires db.Valid() && db.version <= Store.DbVersion
      modifies db
      ensures Valid() && this.db == db && rendered == []
      ensures db.storeNames == if old(db.version) < Store.DbVersion then Store.CartUpgrade(old(db.storeNames)) else old(db.storeNames)
      ensures db.products == old(db.products) && db.cart == old(db.cart)
    {
      this.db := db;
      rendered := [];
      new;
      db.OpenFromCart();
    }

    /** loadProductsFromCart: show every record of the cart, one per id. */
    method LoadProductsFromCart()
      requires Valid()
      modifies this
      ensures Valid()
      ensures Store.CartStore in db.storeNames ==> Store.IsListing(db.cart, CartIds(rendered), rendered)
      ensures Store.CartStore !in db.storeNames ==> rendered == old(rendered)
    {
      if Store.CartStore !in db.storeNames {
        return;
      }
      var items := db.GetAllCart();
      rendered := items;
    }

    /** updateQuantity: an existing entry gets the new quantity, unchecked, and the cart is
        reloaded; for an absent id nothing happens. */
    method UpdateQuantity(itemId: Id, newQuantity: int)
      requires Valid()
      modifies this, db
      ensures Valid()
      ensures db.cart == Cart.WithQuantity(old(db.cart), itemId, newQuantity)
      ensures db.products == old(db.products) && db.storeNames == old(db.storeNames)
      ensures itemId in old(db.cart) ==> Store.IsListing(db.cart, CartIds(rendered), rendered)
      ensures itemId !in old(db.cart) ==> rendered == old(rendered)
    {
      if Store.CartStore !in db.storeNames {
        return;
      }
      var product := db.GetCart(itemId);
      if product.Some? {
        db.PutCart(product.value.(quantity := newQuantity));
        LoadProductsFromCart();
      }
    }

    /** removeFromCart: delete the entry, present or not, and reload the cart. */
    method RemoveFromCart(itemId: Id)
      requires Valid()
      modifies this, db
      ensures Valid()
      ensures db.cart == Cart.Removed(old(db.cart), itemId)
      ensures db.products == old(db.products) && db.storeNames == old(db.storeNames)
      ensures Store.CartStore in db.storeNames ==> Store.IsListing(db.cart, CartIds(rendered), rendered)
      ensures Store.CartStore !in db.storeNames ==> rendered == old(rendered)
    {
      if Store.CartStore !in db.storeNames {
        return;
      }
      db.DeleteCart(itemId);
      LoadProductsFromCart();
    }

    /** increaseQuantity: one more unit of an existing entry, then reload; absent id: nothing. */
    method IncreaseQuantity(itemId: Id)
      requires Valid()
      modifies this, db
      ensures Valid()
      ensures db.cart == Cart.Increased(old(db.cart), itemId)
      ensures db.products == old(db.products) && db.storeNames == old(db.storeNames)
      ensures itemId in old(db.cart) ==> Store.IsListing(db.cart, CartIds(rendered), rendered)
      ensures itemId !in old(db.cart) ==> rendered == old(rendered)
    {
      if Store.CartStore !in db.storeNames {
        return;
      }
      var product := db.GetCart(itemId);
      if product.Some? {
        db.PutCart(product.value.(quantity := product.value.quantity + 1));
        LoadProductsFromCart();
      }
    }

    /** decreaseQuantity: one unit fewer only while the quantity is above 1, then reload; at 1, or
        for an absent id, nothing changes and nothing is reloaded. */
    method DecreaseQuantity(itemId: Id)
      requires Valid()
      modifies this, db
      ensures Valid()
      ensures db.cart == Cart.Decreased(old(db.cart), itemId)
      ensures db.products == old(db.products) && db.storeNames == old(db.storeNames)
      ensures itemId in old(db.cart) && old(db.cart)[itemId].quantity > 1 ==>
        Store.IsListing(db.cart, CartIds(rendered), rendered)
      ensures !(itemId in old(db.cart) && old(db.cart)[itemId].quantity > 1) ==> rendered == old(rendered)
    {
      if Store.CartStore !in db.storeNames {
        return;
      }
      var product := db.GetCart(itemId);
      if product.Some? && product.value.quantity > 1 {
        db.PutCart(product.value.(quantity := product.value.quantity - 1));
        LoadProductsFromCart();
      }
    }
  }
}
