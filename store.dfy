/** The local database "CoffeeShopDB": a versioned set of object stores, "products" and
    "cart", each holding records under their `id`. Each request is one atomic step. */
module Store {
  import opened Records
  import Cart

  /** The version both pages pass to `indexedDB.open`. */
  const DbVersion: nat := 1
  const ProductsStore: string := "products"
  const CartStore: string := "cart"

  ghost predicate KeyedProducts(m: map<Id, Product>)
  {
    forall k :: k in m ==> m[k].id == k
  }

  /** The store names after the shop page's upgrade step. */
  function ShopUpgrade(names: set<string>): (r: set<string>)
    ensures names <= r
    ensures ProductsStore in r && CartStore in r
    ensures forall n :: n in r ==> n in names || n == ProductsStore || n == CartStore
  {
    var withProducts := if ProductsStore !in names then names + {ProductsStore} else names;
    if CartStore !in withProducts then withProducts + {CartStore} else withProducts
  }

  /** The store names after the cart page's upgrade step, which knows only "cart". */
  function CartUpgrade(names: set<string>): (r: set<string>)
    ensures names <= r
    ensures CartStore in r
    ensures forall n :: n in r ==> n in names || n == CartStore
  {
    if CartStore !in names then names + {CartStore} else names
  }

  lemma UpgradesIdempotent(names: set<string>)
    ensures ShopUpgrade(ShopUpgrade(names)) == ShopUpgrade(names)
    ensures CartUpgrade(CartUpgrade(names)) == CartUpgrade(names)
  {
  }

  /** The cart page's upgrade step adds nothing to the stores the shop page's step created. The
      shop page's step, when it runs after the cart page's (only after a version bump: at
      version 1 the second open runs no upgrade, see CartPageOpensFirst), adds "products". */
  lemma UpgradesCombined(names: set<string>)
    ensures CartUpgrade(ShopUpgrade(names)) == ShopUpgrade(names)
    ensures ShopUpgrade(CartUpgrade(names)) == ShopUpgrade(names)
  {
  }

  /** `rs` lists the records of `m`, one per key, `ks[i]` being the key of `rs[i]`; the order is
      the one the database chooses. */
  ghost predicate IsListing<R>(m: map<Id, R>, ks: seq<Id>, rs: seq<R>)
  {
    && |ks| == |rs| == |m|
    && (forall i :: 0 <= i < |ks| ==> ks[i] in m && rs[i] == m[ks[i]])
    && (forall i, j :: 0 <= i < j < |ks| ==> ks[i] != ks[j])
    && (forall k :: k in m ==> k in ks)
  }

  /** A cursor walk over a store: visit each key once, pushing its record. */
  method Enumerate<R>(m: map<Id, R>) returns (ks: seq<Id>, rs: seq<R>)
    ensures IsListing(m, ks, rs)
  {
    ks, rs := [], [];
    var pending := m.Keys;
    while pending != {}
      invariant pending <= m.Keys
      invariant |ks| == |rs| && |ks| + |pending| == |m|
      invariant forall i :: 0 <= i < |ks| ==> ks[i] in m && rs[i] == m[ks[i]] && ks[i] !in pending
      invariant forall i, j :: 0 <= i < j < |ks| ==> ks[i] != ks[j]
      invariant forall k :: k in m && k !in pending ==> k in ks
      decreases |pending|
    {
      var k :| k in pending;
      ks, rs := ks + [k], rs + [m[k]];
      pending := pending - {k};
    }
  }

  /** `store.put` of each product in turn, into a store holding `m`. */
  function PutAll(m: map<Id, Product>, ps: seq<Product>): (r: map<Id, Product>)
    ensures KeyedProducts(m) ==> KeyedProducts(r)
    decreases |ps|
  {
    if ps == [] then m
    else
      var last := ps[|ps| - 1];
      PutAll(m, ps[..|ps| - 1])[last.id := last]
  }

  /** The keys after the puts are the old keys and the ids put. */
  lemma {:induction false} PutAllKeys(m: map<Id, Product>, ps: seq<Product>)
    ensures PutAll(m, ps).Keys == m.Keys + (set p | p in ps :: p.id)
    decreases |ps|
  {
    if ps != [] {
      var n := |ps| - 1;
      PutAllKeys(m, ps[..n]);
      assert ps == ps[..n] + [ps[n]];
      assert (set p | p in ps :: p.id) == (set p | p in ps[..n] :: p.id) + {ps[n].id};
    }
  }

  /** For a repeated id, the last product put with it is the one stored. */
  lemma {:induction false} PutAllLastWins(m: map<Id, Product>, ps: seq<Product>, j: int)
    requires 0 <= j < |ps|
    requires forall i :: j < i < |ps| ==> ps[i].id != ps[j].id
    ensures ps[j].id in PutAll(m, ps) && PutAll(m, ps)[ps[j].id] == ps[j]
    decreases |ps|
  {
    var n := |ps| - 1;
    if j < n {
      PutAllLastWins(m, ps[..n], j);
    }
  }

  /** A stored record either was put or was there before. */
  lemma {:induction false} PutAllValues(m: map<Id, Product>, ps: seq<Product>)
    ensures forall k :: k in PutAll(m, ps) ==> PutAll(m, ps)[k] in ps || (k in m && PutAll(m, ps)[k] == m[k])
    decreases |ps|
  {
    if ps != [] {
      var n := |ps| - 1;
      PutAllValues(m, ps[..n]);
      assert ps == ps[..n] + [ps[n]];
    }
  }

  /** Clearing and then putting `ps` leaves exactly the ids of `ps` (so no id of the earlier
      cache survives), the last record winning for a repeated id. */
  lemma Restock(ps: seq<Product>)
    ensures PutAll(map[], ps).Keys == set p | p in ps :: p.id
    ensures forall j :: 0 <= j < |ps| && (forall i :: j < i < |ps| ==> ps[i].id != ps[j].id) ==>
      PutAll(map[], ps)[ps[j].id] == ps[j]
  {
    PutAllKeys(map[], ps);
    forall j | 0 <= j < |ps| && (forall i :: j < i < |ps| ==> ps[i].id != ps[j].id)
      ensures PutAll(map[], ps)[ps[j].id] == ps[j]
    {
      PutAllLastWins(map[], ps, j);
    }
  }

  ghost predicate DistinctIds(ps: seq<Product>)
  {
    forall i, j :: 0 <= i < j < |ps| ==> ps[i].id != ps[j].id
  }

  lemma {:induction false} DistinctIdsCount(ps: seq<Product>)
    requires DistinctIds(ps)
    ensures |set p | p in ps :: p.id| == |ps|
    decreases |ps|
  {
    if ps != [] {
      var n := |ps| - 1;
      DistinctIdsCount(ps[..n]);
      assert ps == ps[..n] + [ps[n]];
      assert (set p | p in ps :: p.id) == (set p | p in ps[..n] :: p.id) + {ps[n].id};
      assert ps[n].id !in (set p | p in ps[..n] :: p.id);
    }
  }

  /** Round trip of the catalog cache: after caching a catalog with distinct ids, reading the
      whole store back yields the same products, each once (in the database's order). */
  lemma CacheRoundTrip(ps: seq<Product>, ks: seq<Id>, rs: seq<Product>)
    requires DistinctIds(ps)
    requires IsListing(PutAll(map[], ps), ks, rs)
    ensures |rs| == |ps|
    ensures forall p :: p in rs <==> p in ps
  {
    var cache := PutAll(map[], ps);
    CachedCount(ps);
    forall p | p in rs ensures p in ps {
      var i :| 0 <= i < |rs| && rs[i] == p;
      CachedValue(ps, ks[i]);
    }
    forall p | p in ps ensures p in rs {
      var j :| 0 <= j < |ps| && ps[j] == p;
      PutAllLastWins(map[], ps, j);
      assert p.id in cache;
      var i :| 0 <= i < |ks| && ks[i] == p.id;
      assert rs[i] == p;
    }
  }

  lemma CachedCount(ps: seq<Product>)
    requires DistinctIds(ps)
    ensures |PutAll(map[], ps)| == |ps|
  {
    var cache := PutAll(map[], ps);
    PutAllKeys(map[], ps);
    DistinctIdsCount(ps);
    assert cache.Keys == set p | p in ps :: p.id;
    assert |cache| == |cache.Keys|;
  }

  lemma CachedValue(ps: seq<Product>, k: Id)
    requires k in PutAll(map[], ps)
    ensures PutAll(map[], ps)[k] in ps
  {
  }

  class ShopDB {
    var version: nat
    var storeNames: set<string>
    var products: map<Id, Product>
    var cart: map<Id, CartEntry>

    /** A store that does not exist holds nothing, and records sit under their ids. */
    ghost predicate Valid()
      reads this
    {
      && (version == 0 ==> storeNames == {})
      && (ProductsStore !in storeNames ==> products == map[])
      && (CartStore !in storeNames ==> cart == map[])
      && KeyedProducts(products)
      && Cart.Keyed(cart)
    }

    /** A database the browser has not created yet. */
    constructor ()
      ensures Valid()
      ensures version == 0 && storeNames == {} && products == map[] && cart == map[]
    {
      version, storeNames, products, cart := 0, {}, map[], map[];
    }

    /** `db.createObjectStore(name, { keyPath: "id" })`: a new, empty store. */
    method CreateObjectStore(name: string)
      requires Valid() && name !in storeNames && version > 0
      modifies this
      ensures Valid()
      ensures storeNames == old(storeNames) + {name}
      ensures version == old(version) && products == old(products) && cart == old(cart)
    {
      storeNames := storeNames + {name};
    }

    /** `openDB` of the shop page: the upgrade step runs when the database is older than DbVersion. */
    method OpenFromShop()
      requires Valid() && version <= DbVersion
      modifies this
      ensures Valid() && version == DbVersion
      ensures storeNames == if old(version) < DbVersion then ShopUpgrade(old(storeNames)) else old(storeNames)
      ensures products == old(products) && cart == old(cart)
    {
      if version < DbVersion {
        version := DbVersion;
        if ProductsStore !in storeNames {
          CreateObjectStore(ProductsStore);
        }
        if CartStore !in storeNames {
          CreateObjectStore(CartStore);
        }
      }
    }

    /** `openDB` of the cart page, whose upgrade step creates only "cart". */
    method OpenFromCart()
      requires Valid() && version <= DbVersion
      modifies this
      ensures Valid() && version == DbVersion
      ensures storeNames == if old(version) < DbVersion then CartUpgrade(old(storeNames)) else old(storeNames)
      ensures products == old(products) && cart == old(cart)
    {
      if version < DbVersion {
        version := DbVersion;
        if CartStore !in storeNames {
          CreateObjectStore(CartStore);
        }
      }
    }

    method ClearProducts()
      requires Valid() && ProductsStore in storeNames
      modifies this
      ensures Valid()
      ensures products == map[]
      ensures version == old(version) && storeNames == old(storeNames) && cart == old(cart)
    {
      products := map[];
    }

    /** `store.put(p)` on "products": insert or replace under `p.id`. */
    method PutProduct(p: Product)
      requires Valid() && ProductsStore in storeNames
      modifies this
      ensures Valid()
      ensures products == old(products)[p.id := p]
      ensures version == old(version) && storeNames == old(storeNames) && cart == old(cart)
    {
      products := products[p.id := p];
    }

    /** A cursor over "products". */
    method GetAllProducts() returns (rs: seq<Product>)
      requires Valid() && ProductsStore in storeNames
      ensures IsListing(products, ProductIds(rs), rs)
    {
      var ks;
      ks, rs := Enumerate(products);
      assert ks == ProductIds(rs);
    }

    /** `store.get(id)` on "cart". */
    method GetCart(id: Id) returns (r: Option<CartEntry>)
      requires Valid() && CartStore in storeNames
      ensures id in cart ==> r == Some(cart[id]) && r.value.id == id
      ensures id !in cart ==> r == None
    {
      r := if id in cart then Some(cart[id]) else None;
    }

    /** `store.put(e)` on "cart". */
    method PutCart(e: CartEntry)
      requires Valid() && CartStore in storeNames
      modifies this
      ensures Valid()
      ensures cart == old(cart)[e.id := e]
      ensures version == old(version) && storeNames == old(storeNames) && products == old(products)
    {
      cart := cart[e.id := e];
    }

    /** `store.delete(id)` on "cart"; an absent key is not an error. */
    method DeleteCart(id: Id)
      requires Valid() && CartStore in storeNames
      modifies this
      ensures Valid()
      ensures cart == old(cart) - {id}
      ensures version == old(version) && storeNames == old(storeNames) && products == old(products)
    {
      cart := cart - {id};
    }

    /** `store.getAll()` on "cart". */
    method GetAllCart() returns (rs: seq<CartEntry>)
      requires Valid() && CartStore in storeNames
      ensures IsListing(cart, CartIds(rs), rs)
    {
      var ks;
      ks, rs := Enumerate(cart);
      assert ks == CartIds(rs);
    }
  }

  /** Both pages open version 1, so only the first open upgrades. When the cart page opens a
      new database first, the shop page's later open creates nothing and "products" never
      exists: the catalog cache then neither stores nor reads anything. */
  method CartPageOpensFirst() returns (db: ShopDB)
    ensures db.Valid() && db.version == DbVersion
    ensures CartStore in db.storeNames && ProductsStore !in db.storeNames
  {
    db := new ShopDB();
    db.OpenFromCart();
    db.OpenFromShop();
  }
}
