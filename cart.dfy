/** The cart engine as pure updates of the "cart" store's contents, a map from product id to
    cart record. The handlers of Shop and Panier perform these updates on the database. */
module Cart {
  import opened Records

  /** Every record sits under its own `id` (the store's keyPath). */
  ghost predicate Keyed(cart: map<Id, CartEntry>)
  {
    forall k :: k in cart ==> cart[k].id == k
  }

  ghost predicate QuantitiesPositive(cart: map<Id, CartEntry>)
  {
    forall k :: k in cart ==> cart[k].quantity >= 1
  }

  /** addToCart: store a fresh snapshot of `p` with quantity 1, replacing any entry for `id`. */
  function Added(cart: map<Id, CartEntry>, id: Id, p: Product): (r: map<Id, CartEntry>)
    ensures r.Keys == cart.Keys + {id}
    ensures r[id].quantity == 1 && r[id].id == id
    ensures r[id].name == p.name && r[id].price == p.price && r[id].imageUrl == p.imageUrl
    ensures forall k :: k in cart && k != id ==> r[k] == cart[k]
  {
    cart[id := Snapshot(id, p)]
  }

  /** updateQuantity: an existing entry gets quantity `n`, whatever `n` is; an absent id changes nothing. */
  function WithQuantity(cart: map<Id, CartEntry>, id: Id, n: int): (r: map<Id, CartEntry>)
    ensures r.Keys == cart.Keys
    ensures id in cart ==> r[id].quantity == n && r[id] == cart[id].(quantity := n)
    ensures forall k :: k in cart && k != id ==> r[k] == cart[k]
    ensures id !in cart ==> r == cart
  {
    if id in cart then cart[id := cart[id].(quantity := n)] else cart
  }

  /** increaseQuantity: one more unit of an existing entry. */
  function Increased(cart: map<Id, CartEntry>, id: Id): (r: map<Id, CartEntry>)
    ensures r.Keys == cart.Keys
    ensures id in cart ==> r[id] == cart[id].(quantity := cart[id].quantity + 1)
    ensures forall k :: k in cart && k != id ==> r[k] == cart[k]
  {
    if id in cart then WithQuantity(cart, id, cart[id].quantity + 1) else cart
  }

  /** decreaseQuantity: one unit fewer, but only while the quantity is above 1. */
  function Decreased(cart: map<Id, CartEntry>, id: Id): (r: map<Id, CartEntry>)
    ensures r.Keys == cart.Keys
    ensures id in cart && cart[id].quantity > 1 ==> r[id] == cart[id].(quantity := cart[id].quantity - 1)
    ensures id in cart && cart[id].quantity <= 1 ==> r == cart
    ensures forall k :: k in cart && k != id ==> r[k] == cart[k]
  {
    if id in cart && cart[id].quantity > 1 then WithQuantity(cart, id, cart[id].quantity - 1) else cart
  }

  /** removeFromCart: the entry is gone; deleting an absent key is not an error. */
  function Removed(cart: map<Id, CartEntry>, id: Id): (r: map<Id, CartEntry>)
    ensures id !in r
    ensures forall k :: k != id ==> (k in r <==> k in cart)
    ensures forall k :: k in r ==> r[k] == cart[k]
  {
    cart - {id}
  }

  /** Every cart update keeps each record under its own id. */
  lemma UpdatesKeepKeys(cart: map<Id, CartEntry>, id: Id, p: Product, n: int)
    requires Keyed(cart)
    ensures Keyed(Added(cart, id, p)) && Keyed(WithQuantity(cart, id, n))
    ensures Keyed(Increased(cart, id)) && Keyed(Decreased(cart, id)) && Keyed(Removed(cart, id))
  {
  }

  /** Re-adding a product resets its entry to quantity 1, whatever was done to it before. */
  lemma ReAddResets(cart: map<Id, CartEntry>, id: Id, p: Product, n: int)
    ensures Added(WithQuantity(cart, id, n), id, p) == Added(cart, id, p)
    ensures Added(Increased(cart, id), id, p) == Added(cart, id, p)
    ensures Added(Added(cart, id, p), id, p) == Added(cart, id, p)
  {
  }

  /** One more and then one fewer restores the entry (the floor is not hit from n + 1 >= 2). */
  lemma IncreaseThenDecrease(cart: map<Id, CartEntry>, id: Id)
    requires id in cart ==> cart[id].quantity >= 1
    ensures Decreased(Increased(cart, id), id) == cart
  {
  }

  /** Decreasing never takes a quantity of at least 1 below 1; at 1 it is a no-op. */
  lemma DecreaseKeepsFloor(cart: map<Id, CartEntry>, id: Id)
    ensures id in cart && cart[id].quantity >= 1 ==> Decreased(cart, id)[id].quantity >= 1
    ensures QuantitiesPositive(cart) ==> QuantitiesPositive(Decreased(cart, id))
    ensures id in cart && cart[id].quantity == 1 ==> Decreased(cart, id) == cart
  {
  }

  /** Removing twice is removing once. */
  lemma RemoveIdempotent(cart: map<Id, CartEntry>, id: Id)
    ensures Removed(Removed(cart, id), id) == Removed(cart, id)
  {
  }

  /** After one more unit, the row total grows by exactly one unit price. */
  lemma IncreaseAddsOnePrice(cart: map<Id, CartEntry>, id: Id)
    requires id in cart
    ensures LineTotal(Increased(cart, id)[id]) == LineTotal(cart[id]) + cart[id].price
  {
  }

  /** A user action on one cart row. `Add` carries the product found in the catalog. */
  datatype CartOp = Add(p: Product) | SetQuantity(n: int) | Increase | Decrease | Remove

  function Step(cart: map<Id, CartEntry>, id: Id, op: CartOp): map<Id, CartEntry>
  {
    match op
    case Add(p) => Added(cart, id, p)
    case SetQuantity(n) => WithQuantity(cart, id, n)
    case Increase => Increased(cart, id)
    case Decrease => Decreased(cart, id)
    case Remove => Removed(cart, id)
  }

  function Run(cart: map<Id, CartEntry>, id: Id, ops: seq<CartOp>): map<Id, CartEntry>
    decreases |ops|
  {
    if ops == [] then cart else Run(Step(cart, id, ops[0]), id, ops[1..])
  }

  /** The life cycle of one entry on its own: absent (None) or present with a quantity. */
  function QuantityStep(q: Option<int>, op: CartOp): Option<int>
  {
    match op
    case Add(_) => Some(1)
    case SetQuantity(n) => if q.Some? then Some(n) else None
    case Increase => if q.Some? then Some(q.value + 1) else None
    case Decrease => if q.Some? && q.value > 1 then Some(q.value - 1) else q
    case Remove => None
  }

  function QuantityRun(q: Option<int>, ops: seq<CartOp>): Option<int>
    decreases |ops|
  {
    if ops == [] then q else QuantityRun(QuantityStep(q, ops[0]), ops[1..])
  }

  function QuantityOf(cart: map<Id, CartEntry>, id: Id): Option<int>
  {
    if id in cart then Some(cart[id].quantity) else None
  }

  /** Any sequence of actions on one row moves that row's quantity exactly as the one-entry
      life cycle says, and leaves every other row as it was. */
  lemma {:induction false} RunFollowsLifeCycle(cart: map<Id, CartEntry>, id: Id, ops: seq<CartOp>)
    ensures QuantityOf(Run(cart, id, ops), id) == QuantityRun(QuantityOf(cart, id), ops)
    ensures forall k :: k != id ==> (k in Run(cart, id, ops) <==> k in cart)
    ensures forall k :: k != id && k in cart ==> Run(cart, id, ops)[k] == cart[k]
    decreases |ops|
  {
    if ops != [] {
      var next := Step(cart, id, ops[0]);
      assert QuantityOf(next, id) == QuantityStep(QuantityOf(cart, id), ops[0]);
      RunFollowsLifeCycle(next, id, ops[1..]);
    }
  }

  /** Without setting a quantity below 1, an entry that is absent or at least 1 stays so. */
  lemma {:induction false} LifeCycleKeepsFloor(q: Option<int>, ops: seq<CartOp>)
    requires q.Some? ==> q.value >= 1
    requires forall i :: 0 <= i < |ops| ==> (ops[i].SetQuantity? ==> ops[i].n >= 1)
    ensures QuantityRun(q, ops).Some? ==> QuantityRun(q, ops).value >= 1
    decreases |ops|
  {
    if ops != [] {
      LifeCycleKeepsFloor(QuantityStep(q, ops[0]), ops[1..]);
    }
  }

  /** Whatever came before, a final `Remove` leaves the row absent. */
  lemma {:induction false} RemoveLast(cart: map<Id, CartEntry>, id: Id, ops: seq<CartOp>)
    ensures id !in Run(cart, id, ops + [Remove])
    decreases |ops|
  {
    if ops == [] {
      assert Run(cart, id, [Remove]) == Run(Removed(cart, id), id, []);
    } else {
      assert (ops + [Remove])[1..] == ops[1..] + [Remove];
      RemoveLast(Step(cart, id, ops[0]), id, ops[1..]);
    }
  }

  /** A product at 25 is added (quantity 1), increased (2), decreased twice (floors at 1) and
      removed (absent). */
  lemma Walkthrough(p: Product)
    requires p.price == 25.0
    ensures Run(map[], p.id, [Add(p)]) == map[p.id := CartEntry(p.id, p.imageUrl, p.name, 25.0, 1)]
    ensures QuantityOf(Run(map[], p.id, [Add(p), Increase]), p.id) == Some(2)
    ensures QuantityOf(Run(map[], p.id, [Add(p), Increase, Decrease, Decrease]), p.id) == Some(1)
    ensures QuantityOf(Run(map[], p.id, [Add(p), Increase, Decrease, Decrease, Remove]), p.id) == None
  {
    var ops := [Add(p), Increase, Decrease, Decrease, Remove];
    assert Run(map[], p.id, [Add(p)]) == Run(Added(map[], p.id, p), p.id, []);
    RunFollowsLifeCycle(map[], p.id, ops[..2]);
    RunFollowsLifeCycle(map[], p.id, ops[..4]);
    RunFollowsLifeCycle(map[], p.id, ops);
    assert ops[..2] == [Add(p), Increase];
    assert ops[..4] == [Add(p), Increase, Decrease, Decrease];
    assert QuantityRun(None, ops[..2]) == QuantityRun(Some(1), [Increase]) == Some(2);
    assert QuantityRun(None, ops[..4]) == QuantityRun(Some(2), [Decrease, Decrease])
      == QuantityRun(Some(1), [Decrease]) == Some(1);
    assert ops[1..] == [Increase, Decrease, Decrease, Remove];
    assert QuantityRun(None, ops) == QuantityRun(Some(1), [Increase, Decrease, Decrease, Remove])
      == QuantityRun(Some(2), [Decrease, Decrease, Remove]) == QuantityRun(Some(1), [Decrease, Remove])
      == QuantityRun(Some(1), [Remove]) == None;
  }
}
