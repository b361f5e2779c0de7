/** The shop page: the catalog held in the page-wide `products` list, the catalog cache in the
    "products" store, the search box and the "+" button that puts a product in the cart. */
module Shop {
  import opened Records
  import Store
  import Catalog
  import Cart

  /** What came back from the catalog endpoint: parsed data, or a network or parse failure. */
  datatype FetchOutcome = Fetched(data: seq<Product>) | FetchFailed

  /** `products.find(p => p.id == id)`: the first product with that id, if any. */
  function Find(ps: seq<Product>, id: Id): (r: Option<Product>)
    ensures r.None? <==> forall i :: 0 <= i < |ps| ==> ps[i].id != id
    ensures r.Some? ==> exists i :: (0 <= i < |ps| && ps[i] == r.value && r.value.id == id &&
      forall j :: 0 <= j < i ==> ps[j].id != id)
  {
    if ps == [] then None
    else if ps[0].id == id then Some(ps[0])
    else
      var rest := Find(ps[1..], id);
      if rest.Some? then
        ghost var i :| 0 <= i < |ps| - 1 && ps[1..][i] == rest.value && rest.value.id == id &&
          forall j :: 0 <= j < i ==> ps[1..][j].id != id;
        assert ps[i + 1] == rest.value && forall j :: 0 <= j < i + 1 ==> ps[j].id != id;
        rest
      else
        None
  }

  class ShopPage {
    /** The page-wide catalog: the last successfully fetched data. */
    var products: seq<Product>
    const db: Store.ShopDB

    ghost predicate Valid()
      reads this, db
    {
      db.Valid() && db.version == Store.DbVersion
    }

    /** Page load: the catalog is empty and the first `openDB` creates or upgrades the database. */
    constructor (db: Store.ShopDB)
      requires db.Valid() && db.version <= Store.DbVersion
      modifies db
      ensures Valid() && this.db == db && products == []
      ensures db.storeNames == if old(db.version) < Store.DbVersion then Store.ShopUpgrade(old(db.storeNames)) else old(db.storeNames)
      ensures db.products == old(db.products) && db.cart == old(db.cart)
    {
      this.db := db;
      products := [];
      new;
      db.OpenFromShop();
    }

    /** getProducts, given what the fetch produced. On success the catalog becomes the fetched
        data, which is shown and cached; on failure the catalog is untouched and the cache is
        read and shown instead. `shown` is what reached displayProducts, if anything did. */
    method GetProducts(outcome: FetchOutcome) returns (shown: Option<seq<Product>>)
      requires Valid()
      modifies this, db
      ensures Valid()
      ensures db.cart == old(db.cart) && db.storeNames == old(db.storeNames)
      ensures outcome.Fetched? ==>
        && products == outcome.data && shown == Some(outcome.data)
        && db.products == if Store.ProductsStore in db.storeNames then Store.PutAll(map[], outcome.data) else old(db.products)
      ensures outcome.FetchFailed? ==>
        && products == old(products) && db.products == old(db.products)
        && (shown.Some? <==> Store.ProductsStore in db.storeNames)
        && (shown.Some? ==> Store.IsListing(db.products, ProductIds(shown.value), shown.value))
    {
      match outcome
      case Fetched(data) =>
        products := data;
        shown := Some(products);
        AddProductsToDB(products);
      case FetchFailed =>
        shown := LoadProductsFromDB();
    }

    /** addProductsToDB: clear the "products" store, then put every product in turn. If the store
        does not exist, opening the transaction throws and the error is caught. */
    method AddProductsToDB(ps: seq<Product>)
      requires Valid()
      modifies db
      ensures Valid()
      ensures db.products == if Store.ProductsStore in db.storeNames then Store.PutAll(map[], ps) else old(db.products)
      ensures db.cart == old(db.cart) && db.storeNames == old(db.storeNames)
    {
      if Store.ProductsStore !in db.storeNames {
        return;
      }
      db.ClearProducts();
      var i := 0;
      while i < |ps|
        invariant 0 <= i <= |ps|
        invariant db.Valid() && db.version == Store.DbVersion
        invariant db.products == Store.PutAll(map[], ps[..i])
        invariant db.cart == old(db.cart) && db.storeNames == old(db.storeNames)
      {
        db.PutProduct(ps[i]);
        assert ps[..i + 1][..i] == ps[..i];
        i := i + 1;
      }
      assert ps[..|ps|] == ps;
    }

    /** loadProductsFromDB: walk the "products" store with a cursor into a local list and show
        it. The page-wide catalog is not touched. Nothing is shown if the store is missing. */
    method LoadProductsFromDB() returns (shown: Option<seq<Product>>)
      requires Valid()
      ensures shown.Some? <==> Store.ProductsStore in db.storeNames
      ensures shown.Some? ==> Store.IsListing(db.products, ProductIds(shown.value), shown.value)
    {
      if Store.ProductsStore !in db.storeNames {
        return None;
      }
      var cached := db.GetAllProducts();
      shown := Some(cached);
    }

    /** filterProducts: the catalog entries whose lower-cased name or description contains the
        lower-cased query, in catalog order. */
    method FilterProducts(searchValue: string) returns (shown: seq<Product>)
      ensures shown == Catalog.Filter(products, Catalog.Lower(searchValue))
      ensures forall p :: p in shown <==> p in products && Catalog.Matches(p, Catalog.Lower(searchValue))
    {
      var needle := Catalog.Lower(searchValue);
      shown := Catalog.Filter(products, needle);
    }

    /** addToCart: put a snapshot of the catalog product with quantity 1 under `productId`,
        replacing any entry there. An id not in the catalog makes the field access throw; the
        error is caught and the cart is unchanged. */
    method AddToCart(productId: Id)
      requires Valid()
      modifies db
      ensures Valid()
      ensures db.cart == if Store.CartStore in db.storeNames && Find(products, productId).Some?
        then Cart.Added(old(db.cart), productId, Find(products, productId).value)
        else old(db.cart)
      ensures db.products == old(db.products) && db.storeNames == old(db.storeNames)
    {
      if Store.CartStore !in db.storeNames {
        return;
      }
      var detail := Find(products, productId);
      if detail.None? {
        return;
      }
      db.PutCart(Snapshot(productId, detail.value));
    }
  }

  /** After a failed fetch the page-wide catalog stays empty: the fallback shows the cached
      products from a list of its own, so "+" on one of them finds nothing in `products`, the
      lookup throws, and the cart is left as it was. */
  method FailedFetchAddsNothing(db: Store.ShopDB, productId: Id) returns (shown: Option<seq<Product>>)
    requires db.Valid() && db.version <= Store.DbVersion
    modifies db
    ensures db.cart == old(db.cart) && db.products == old(db.products)
    ensures shown.Some? <==> Store.ProductsStore in db.storeNames
    ensures shown.Some? ==> Store.IsListing(db.products, ProductIds(shown.value), shown.value)
  {
    var page := new ShopPage(db);
    shown := page.GetProducts(FetchFailed);
    page.AddToCart(productId);
  }

  /** After a failed fetch, any search filters the still empty page-wide catalog: whatever is
      typed, the cached products shown by the fallback are replaced by an empty list. */
  method FailedFetchSearchShowsNothing(db: Store.ShopDB, searchValue: string) returns (shown: seq<Product>)
    requires db.Valid() && db.version <= Store.DbVersion
    modifies db
    ensures shown == []
    ensures db.cart == old(db.cart) && db.products == old(db.products)
  {
    var page := new ShopPage(db);
    var cached := page.GetProducts(FetchFailed);
    shown := page.FilterProducts(searchValue);
  }
}
