/** The per-user shopping cart of `server/routes/cart.js`: get-or-create,
    add, update, remove and clear, each followed by a recomputation of the
    cart's totals. */
module Carts {
  import opened Common
  import opened Catalog

  /** One line of a cart: the product, how many, and the unit price
      captured when the line was first added. */
  datatype Line = Line(product: ProductId, quantity: nat, price: real)

  datatype Cart = Cart(user: UserId, items: seq<Line>, totalItems: nat, totalPrice: real)

  /** All carts, at most one per user. */
  type CartStore = map<UserId, Cart>

  /** What a handler answers, and the store it leaves behind. */
  datatype Reply = Reply(result: Result<Cart>, carts: CartStore)

  // ---------------------------------------------------------------------
  // Totals

  function ItemCount(items: seq<Line>): nat {
    if |items| == 0 then 0 else items[0].quantity + ItemCount(items[1..])
  }

  /** What one line costs: its captured unit price times its quantity. */
  function LineTotal(l: Line): real {
    l.price * l.quantity as real
  }

  function Subtotal(items: seq<Line>): real {
    if |items| == 0 then 0.0
    else LineTotal(items[0]) + Subtotal(items[1..])
  }

  /** The totals agree with the lines. */
  predicate TotalsMatch(c: Cart) {
    c.totalItems == ItemCount(c.items) && c.totalPrice == Subtotal(c.items)
  }

  /** `cart.calculateTotals()`: the item count and the price sum over the
      current lines; the lines themselves are left alone. */
  function CalculateTotals(c: Cart): (r: Cart)
    ensures r.user == c.user && r.items == c.items
    ensures TotalsMatch(r)
  {
    c.(totalItems := ItemCount(c.items), totalPrice := Subtotal(c.items))
  }

  lemma {:induction false} TotalsAppend(a: seq<Line>, b: seq<Line>)
    ensures ItemCount(a + b) == ItemCount(a) + ItemCount(b)
    ensures Subtotal(a + b) == Subtotal(a) + Subtotal(b)
  {
    if |a| > 0 {
      TotalsAppend(a[1..], b);
      assert (a + b)[1..] == a[1..] + b;
    } else {
      assert a + b == b;
    }
  }

  /** Replacing one line changes the totals by exactly the difference
      between the new line and the old one. */
  lemma {:induction false} TotalsReplace(items: seq<Line>, i: nat, l: Line)
    requires i < |items|
    ensures ItemCount(items[i := l]) == ItemCount(items) - items[i].quantity + l.quantity
    ensures Subtotal(items[i := l])
         == Subtotal(items) - LineTotal(items[i]) + LineTotal(l)
  {
    if i > 0 {
      TotalsReplace(items[1..], i - 1, l);
      assert items[i := l][1..] == items[1..][i - 1 := l];
    }
  }

  /** Totals of a cart whose line `i` was replaced by `l`, relative to the
      consistent totals of the cart before. */
  lemma ReplacedTotals(before: Cart, after: Cart, i: nat, l: Line)
    requires TotalsMatch(before) && TotalsMatch(after)
    requires i < |before.items| && after.items == before.items[i := l]
    ensures after.totalItems == before.totalItems - before.items[i].quantity + l.quantity
    ensures after.totalPrice == before.totalPrice - LineTotal(before.items[i]) + LineTotal(l)
  {
    TotalsReplace(before.items, i, l);
  }

  /** A line grown by `q` units costs its old total plus `q` units at its
      price. */
  lemma MergedLine(l: Line, q: nat)
    ensures LineTotal(l.(quantity := l.quantity + q))
         == LineTotal(l) + LineTotal(Line(l.product, q, l.price))
  {
    assert (l.quantity + q) as real == l.quantity as real + q as real;
  }

  // ---------------------------------------------------------------------
  // Lines

  predicate InCart(items: seq<Line>, id: ProductId) {
    exists i :: 0 <= i < |items| && items[i].product == id
  }

  ghost predicate UniqueProducts(items: seq<Line>) {
    forall i, j :: 0 <= i < j < |items| ==> items[i].product != items[j].product
  }

  /** `items.findIndex(item => item.product === id)`. */
  function FindLine(items: seq<Line>, id: ProductId): (r: int)
    ensures -1 <= r < |items|
    ensures r == -1 <==> !InCart(items, id)
    ensures r >= 0 ==> items[r].product == id
    ensures r >= 0 ==> forall j :: 0 <= j < r ==> items[j].product != id
  {
    if |items| == 0 then -1
    else if items[0].product == id then 0
    else
      var k := FindLine(items[1..], id);
      assert forall j :: 1 <= j < |items| ==> items[j] == items[1..][j - 1];
      if k == -1 then -1 else k + 1
  }

  /** `items.filter(item => item.product !== id)`. */
  function Without(items: seq<Line>, id: ProductId): (r: seq<Line>)
    ensures |r| <= |items|
    ensures forall l :: l in r <==> l in items && l.product != id
    ensures !InCart(items, id) ==> r == items
  {
    if |items| == 0 then []
    else
      var rest := Without(items[1..], id);
      assert items == [items[0]] + items[1..];
      assert !InCart(items, id) ==> !InCart(items[1..], id) by {
        if InCart(items[1..], id) {
          var j :| 0 <= j < |items[1..]| && items[1..][j].product == id;
          assert items[j + 1].product == id;
        }
      }
      if items[0].product != id then [items[0]] + rest else rest
  }

  /** In a cart whose products are unique, filtering out the product of
      line `i` removes exactly that line and keeps the others in order. */
  lemma {:induction false} WithoutUniqueAt(items: seq<Line>, i: nat)
    requires UniqueProducts(items) && i < |items|
    ensures Without(items, items[i].product) == items[..i] + items[i + 1..]
  {
    var id := items[i].product;
    if i == 0 {
      UniqueHead(items);
    } else {
      UniqueTail(items);
      WithoutUniqueAt(items[1..], i - 1);
      assert items[1..][i - 1] == items[i];
      SpliceCons(items, i);
    }
  }

  /** The first product of a cart with unique products is not in the rest. */
  lemma UniqueHead(items: seq<Line>)
    requires UniqueProducts(items) && |items| > 0
    ensures Without(items, items[0].product) == items[1..]
  {
    forall j | 0 <= j < |items[1..]| ensures items[1..][j].product != items[0].product {
      assert items[1..][j] == items[j + 1];
    }
  }

  lemma UniqueTail(items: seq<Line>)
    requires UniqueProducts(items) && |items| > 0
    ensures UniqueProducts(items[1..])
  {
    var tail := items[1..];
    forall a, b | 0 <= a < b < |tail| ensures tail[a].product != tail[b].product {
      assert tail[a] == items[a + 1] && tail[b] == items[b + 1];
    }
  }

  /** Dropping line `i > 0` keeps the first line in front of the tail with
      its line `i - 1` dropped. */
  lemma SpliceCons(items: seq<Line>, i: nat)
    requires UniqueProducts(items) && 0 < i < |items|
    ensures Without(items, items[i].product)
         == [items[0]] + Without(items[1..], items[i].product)
    ensures [items[0]] + (items[1..][..i - 1] + items[1..][i..]) == items[..i] + items[i + 1..]
  {
    WithoutKeepsHead(items, items[i].product);
    DropInTail(items, i);
  }

  lemma WithoutKeepsHead(items: seq<Line>, id: ProductId)
    requires |items| > 0 && items[0].product != id
    ensures Without(items, id) == [items[0]] + Without(items[1..], id)
  {
  }

  lemma DropInTail(items: seq<Line>, i: nat)
    requires 0 < i < |items|
    ensures [items[0]] + (items[1..][..i - 1] + items[1..][i..]) == items[..i] + items[i + 1..]
  {
    assert items[1..][..i - 1] == items[1..i];
    assert items[1..][i..] == items[i + 1..];
    assert items[..i] == [items[0]] + items[1..i];
  }

  lemma UniqueSubsequence(items: seq<Line>, id: ProductId)
    ensures UniqueProducts(items) ==> UniqueProducts(Without(items, id))
  {
    if |items| > 0 && UniqueProducts(items) {
      UniqueSubsequence(items[1..], id);
      var rest := Without(items[1..], id);
      if items[0].product != id {
        forall j | 0 <= j < |rest|
          ensures rest[j].product != items[0].product
        {
          assert rest[j] in items[1..];
        }
      }
    }
  }

  // ---------------------------------------------------------------------
  // The operations

  function EmptyCart(user: UserId): (c: Cart)
    ensures c.user == user && c.items == [] && TotalsMatch(c)
  {
    Cart(user, [], 0, 0.0)
  }

  /** The cart a user would work on: the stored one, or a fresh empty one. */
  function CartOf(carts: CartStore, user: UserId): Cart {
    if user in carts then carts[user] else EmptyCart(user)
  }

  /** GET /api/cart: returns the user's cart, creating an empty one first
      when the user has none. */
  function GetOrCreate(carts: CartStore, user: UserId): (r: Reply)
    ensures user in r.carts && r.result == Ok(r.carts[user])
    ensures user in carts ==> r.carts == carts
    ensures user !in carts ==> r.carts == carts[user := EmptyCart(user)]
  {
    if user in carts then Reply(Ok(carts[user]), carts)
    else
      var c := EmptyCart(user);
      Reply(Ok(c), carts[user := c])
  }

  /** Asking twice is the same as asking once. */
  lemma GetOrCreateIdempotent(carts: CartStore, user: UserId)
    ensures GetOrCreate(GetOrCreate(carts, user).carts, user) == GetOrCreate(carts, user)
  {
  }

  /** Line `i` of `a` had `q` more units added and nothing else changed. */
  predicate Incremented(a: seq<Line>, b: seq<Line>, i: int, q: nat) {
    && |b| == |a| && 0 <= i < |a|
    && b[i] == a[i].(quantity := a[i].quantity + q)
    && forall j :: 0 <= j < |a| && j != i ==> b[j] == a[j]
  }

  /** POST /api/cart/items. */
  function AddItem(products: ProductStore, carts: CartStore, user: UserId,
                   productId: ProductId, quantity: nat): (r: Reply)
    ensures productId !in products ==> r == Reply(Err(ProductNotFound), carts)
    ensures productId in products && products[productId].stock < quantity
            ==> r == Reply(Err(InsufficientStock), carts)
    ensures r.result.Ok? <==> productId in products && quantity <= products[productId].stock
    ensures r.result.Ok? ==>
      var before := CartOf(carts, user).items;
      var after := r.result.value;
      && r.carts == carts[user := after]
      && after.user == CartOf(carts, user).user
      && TotalsMatch(after)
      && (InCart(before, productId) ==>
            Incremented(before, after.items, FindLine(before, productId), quantity))
      && (!InCart(before, productId) ==>
            after.items == before + [Line(productId, quantity, products[productId].price)])
      && (UniqueProducts(before) ==> UniqueProducts(after.items))
  {
    if productId !in products then Reply(Err(ProductNotFound), carts)
    else
      var p := products[productId];
      if p.stock < quantity then Reply(Err(InsufficientStock), carts)
      else
        var cart := CartOf(carts, user);
        var updated := CalculateTotals(cart.(items := AddLine(cart.items, productId, quantity, p.price)));
        Reply(Ok(updated), carts[user := updated])
  }

  /** The lines after adding `q` units of `id` at current price `price`: an
      existing line of the product grows, otherwise a new line is appended. */
  function AddLine(items: seq<Line>, id: ProductId, q: nat, price: real): (r: seq<Line>)
    ensures InCart(items, id) ==> Incremented(items, r, FindLine(items, id), q)
    ensures !InCart(items, id) ==> r == items + [Line(id, q, price)]
    ensures UniqueProducts(items) ==> UniqueProducts(r)
  {
    var i := FindLine(items, id);
    if i >= 0 then
      var r := items[i := items[i].(quantity := items[i].quantity + q)];
      assert Incremented(items, r, i, q);
      r
    else items + [Line(id, q, price)]
  }

  /** The unit price the added units are charged at: the captured price of
      the product's line when there is one, else the current price. */
  function UnitPrice(items: seq<Line>, id: ProductId, price: real): real {
    var i := FindLine(items, id);
    if i >= 0 then items[i].price else price
  }

  /** Adding moves the line totals by exactly the added units at their
      unit price. */
  lemma AddLineTotals(items: seq<Line>, id: ProductId, q: nat, price: real)
    ensures ItemCount(AddLine(items, id, q, price)) == ItemCount(items) + q
    ensures Subtotal(AddLine(items, id, q, price))
         == Subtotal(items) + LineTotal(Line(id, q, UnitPrice(items, id, price)))
  {
    var i := FindLine(items, id);
    if i >= 0 {
      GrowLine(items, i, q);
    } else {
      TotalsAppend(items, [Line(id, q, price)]);
    }
  }

  /** Growing line `i` by `q` units adds them at the line's price. */
  lemma GrowLine(items: seq<Line>, i: nat, q: nat)
    requires i < |items|
    ensures var grown := items[i := items[i].(quantity := items[i].quantity + q)];
            && ItemCount(grown) == ItemCount(items) + q
            && Subtotal(grown) == Subtotal(items) + LineTotal(Line(items[i].product, q, items[i].price))
  {
    TotalsReplace(items, i, items[i].(quantity := items[i].quantity + q));
    MergedLine(items[i], q);
  }

  /** Adding moves the totals by exactly the added units and their price:
      the captured price of a merged line, the product's current price for a
      new one. */
  lemma AddItemTotals(products: ProductStore, carts: CartStore, user: UserId,
                      productId: ProductId, quantity: nat)
    requires TotalsMatch(CartOf(carts, user))
    requires AddItem(products, carts, user, productId, quantity).result.Ok?
    ensures var before := CartOf(carts, user);
            var after := AddItem(products, carts, user, productId, quantity).result.value;
            var unit := if InCart(before.items, productId)
                        then before.items[FindLine(before.items, productId)].price
                        else products[productId].price;
            && after.totalItems == before.totalItems + quantity
            && after.totalPrice == before.totalPrice + LineTotal(Line(productId, quantity, unit))
  {
    var before := CartOf(carts, user);
    AddLineTotals(before.items, productId, quantity, products[productId].price);
  }

  /** The stock check looks only at the requested increment: with one unit
      in stock, two successful adds of one unit leave a line of two. */
  lemma StockCheckIsIncremental(p: Product, user: UserId)
    requires p.stock == 1
    ensures var products := map[p.id := p];
            var first := AddItem(products, map[], user, p.id, 1);
            var second := AddItem(products, first.carts, user, p.id, 1);
            && first.result.Ok? && second.result.Ok?
            && second.result.value.items == [Line(p.id, 2, p.price)]
            && second.result.value.items[0].quantity > p.stock
  {
    var products := map[p.id := p];
    var first := AddItem(products, map[], user, p.id, 1);
    assert first.result.value.items == [Line(p.id, 1, p.price)];
    assert InCart(first.result.value.items, p.id);
  }

  /** PUT /api/cart/items/:productId. A product deleted from the catalog
      after it was added makes the handler read `stock` of null, which
      throws and is answered with a server error. */
  function UpdateItem(products: ProductStore, carts: CartStore, user: UserId,
                      productId: ProductId, quantity: nat): (r: Reply)
    ensures r.result.Err? ==> r.carts == carts
    ensures user !in carts ==> r.result == Err(CartNotFound)
    ensures user in carts && !InCart(carts[user].items, productId) ==> r.result == Err(ItemNotFound)
    ensures user in carts && InCart(carts[user].items, productId) && productId !in products
            ==> r.result == Err(ServerError)
    ensures (user in carts && InCart(carts[user].items, productId) && productId in products
             && products[productId].stock < quantity) ==> r.result == Err(InsufficientStock)
    ensures r.result.Ok? <==>
      user in carts && InCart(carts[user].items, productId)
      && productId in products && quantity <= products[productId].stock
    ensures r.result.Ok? ==>
      var before := carts[user].items;
      var after := r.result.value;
      && r.carts == carts[user := after]
      && after.user == carts[user].user
      && TotalsMatch(after)
      && |after.items| == |before|
      && var i := FindLine(before, productId);
      && 0 <= i
      && after.items[i] == before[i].(quantity := quantity)
      && (forall j :: 0 <= j < |before| && j != i ==> after.items[j] == before[j])
      && (UniqueProducts(before) ==> UniqueProducts(after.items))
  {
    if user !in carts then Reply(Err(CartNotFound), carts)
    else
      var cart := carts[user];
      var i := FindLine(cart.items, productId);
      if i == -1 then Reply(Err(ItemNotFound), carts)
      else if productId !in products then Reply(Err(ServerError), carts)
      else if products[productId].stock < quantity then Reply(Err(InsufficientStock), carts)
      else
        var items := cart.items[i := cart.items[i].(quantity := quantity)];
        var updated := CalculateTotals(cart.(items := items));
        Reply(Ok(updated), carts[user := updated])
  }

  lemma UpdateItemTotals(products: ProductStore, carts: CartStore, user: UserId,
                         productId: ProductId, quantity: nat)
    requires user in carts && TotalsMatch(carts[user])
    requires UpdateItem(products, carts, user, productId, quantity).result.Ok?
    ensures var before := carts[user];
            var prior := before.items[FindLine(before.items, productId)];
            var after := UpdateItem(products, carts, user, productId, quantity).result.value;
            && after.totalItems == before.totalItems - prior.quantity + quantity
            && after.totalPrice
               == before.totalPrice - LineTotal(prior) + LineTotal(prior.(quantity := quantity))
  {
    var before := carts[user];
    var after := UpdateItem(products, carts, user, productId, quantity).result.value;
    var i := FindLine(before.items, productId);
    assert after.items == before.items[i := before.items[i].(quantity := quantity)];
    ReplacedTotals(before, after, i, before.items[i].(quantity := quantity));
  }

  /** DELETE /api/cart/items/:productId. */
  function RemoveItem(carts: CartStore, user: UserId, productId: ProductId): (r: Reply)
    ensures user !in carts ==> r == Reply(Err(CartNotFound), carts)
    ensures user in carts ==>
      && r.result.Ok?
      && var after := r.result.value;
      && r.carts == carts[user := after]
      && after.user == carts[user].user
      && TotalsMatch(after)
      && (forall l :: l in after.items <==> l in carts[user].items && l.product != productId)
      && (!InCart(carts[user].items, productId) ==> after.items == carts[user].items)
      && (UniqueProducts(carts[user].items) ==> UniqueProducts(after.items))
  {
    if user !in carts then Reply(Err(CartNotFound), carts)
    else
      var cart := carts[user];
      UniqueSubsequence(cart.items, productId);
      var updated := CalculateTotals(cart.(items := Without(cart.items, productId)));
      Reply(Ok(updated), carts[user := updated])
  }

  /** Removing a line of a cart with unique products takes out exactly that
      line, in place, and its units and price from the totals. */
  lemma RemoveItemExact(carts: CartStore, user: UserId, i: nat)
    requires user in carts && UniqueProducts(carts[user].items) && TotalsMatch(carts[user])
    requires i < |carts[user].items|
    ensures var before := carts[user];
            var l := before.items[i];
            var after := RemoveItem(carts, user, l.product).result.value;
            && after.items == before.items[..i] + before.items[i + 1..]
            && after.totalItems == before.totalItems - l.quantity
            && after.totalPrice == before.totalPrice - LineTotal(l)
  {
    var before := carts[user];
    var l := before.items[i];
    var after := RemoveItem(carts, user, l.product).result.value;
    assert after == CalculateTotals(before.(items := Without(before.items, l.product)));
    WithoutUniqueAt(before.items, i);
    TotalsDropAt(before.items, i);
  }

  /** Dropping line `i` takes its units and its price out of the totals. */
  lemma TotalsDropAt(items: seq<Line>, i: nat)
    requires i < |items|
    ensures ItemCount(items[..i] + items[i + 1..]) == ItemCount(items) - items[i].quantity
    ensures Subtotal(items[..i] + items[i + 1..])
         == Subtotal(items) - LineTotal(items[i])
  {
    var front, back := items[..i], items[i + 1..];
    TotalsAppend(front, back);
    TotalsAppend(front, [items[i]] + back);
    TotalsAppend([items[i]], back);
    SplitAt(items, i);
  }

  lemma SplitAt(items: seq<Line>, i: nat)
    requires i < |items|
    ensures items == items[..i] + ([items[i]] + items[i + 1..])
  {
  }

  /** DELETE /api/cart. */
  function ClearCart(carts: CartStore, user: UserId): (r: Reply)
    ensures user !in carts ==> r == Reply(Err(CartNotFound), carts)
    ensures user in carts ==>
      && r.result.Ok?
      && r.carts == carts[user := r.result.value]
      && r.result.value.user == carts[user].user
      && r.result.value.items == []
      && r.result.value.totalItems == 0 && r.result.value.totalPrice == 0.0
  {
    if user !in carts then Reply(Err(CartNotFound), carts)
    else
      var updated := CalculateTotals(carts[user].(items := []));
      Reply(Ok(updated), carts[user := updated])
  }

  // ---------------------------------------------------------------------
  // The store invariant

  /** Each cart is filed under its owner, lists each product once, and its
      totals agree with its lines. */
  ghost predicate Valid(carts: CartStore) {
    forall u :: u in carts ==>
      carts[u].user == u && UniqueProducts(carts[u].items) && TotalsMatch(carts[u])
  }

  /** Every cart operation, successful or not, keeps the store valid. */
  lemma OperationsKeepValid(products: ProductStore, carts: CartStore, user: UserId,
                            productId: ProductId, quantity: nat)
    requires Valid(carts)
    ensures Valid(GetOrCreate(carts, user).carts)
    ensures Valid(AddItem(products, carts, user, productId, quantity).carts)
    ensures Valid(UpdateItem(products, carts, user, productId, quantity).carts)
    ensures Valid(RemoveItem(carts, user, productId).carts)
    ensures Valid(ClearCart(carts, user).carts)
  {
    AddKeepsValid(products, carts, user, productId, quantity);
    UpdateKeepsValid(products, carts, user, productId, quantity);
  }

  lemma AddKeepsValid(products: ProductStore, carts: CartStore, user: UserId,
                      productId: ProductId, quantity: nat)
    requires Valid(carts)
    ensures Valid(AddItem(products, carts, user, productId, quantity).carts)
  {
  }

  lemma UpdateKeepsValid(products: ProductStore, carts: CartStore, user: UserId,
                         productId: ProductId, quantity: nat)
    requires Valid(carts)
    ensures Valid(UpdateItem(products, carts, user, productId, quantity).carts)
  {
  }
}
