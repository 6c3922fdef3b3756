/** The server-side cart service (Back-end/.../service/CartService.java) over its
    repository: a map from item id to item plus the next generated id, with products looked
    up in the catalogue repository. */
module CartService {
  import opened Wrappers
  import opened MapSum
  import opened ProductService

  /** A cart line: the id of the product it refers to, the quantity, and the stored line
      price. The product itself is read through the reference whenever it is needed, so a
      later change to the product is seen. */
  datatype CartItem = CartItem(id: int, productId: int, quantity: int, totalPrice: int)

  datatype CartRepo = CartRepo(items: map<int, CartItem>, nextId: int)

  datatype CartError = ProductNotFound | ItemNotFound

  predicate ValidCart(cart: CartRepo) {
    forall k :: k in cart.items ==> k < cart.nextId && cart.items[k].id == k
  }

  function LinePrices(items: map<int, CartItem>): map<int, int> {
    map k | k in items :: items[k].totalPrice
  }

  /** The sum of every stored line price. */
  ghost function Total(cart: CartRepo): int {
    Sum(LinePrices(cart.items))
  }

  /** `addItem`: an unknown product throws and nothing is stored; a known one gets exactly
      one new line, under a fresh id, for that product and quantity, priced at price times
      quantity. */
  function AddItem(products: ProductRepo, cart: CartRepo, productId: int, quantity: int): (r: Result<(CartRepo, CartItem), CartError>)
    requires ValidCart(cart)
    ensures r.Err? <==> productId !in products.rows
    ensures r.Err? ==> r.error == ProductNotFound
    ensures r.Ok? ==>
              var (cart', item) := r.value;
              && ValidCart(cart')
              && item.id !in cart.items
              && cart'.items == cart.items[item.id := item]
              && item.productId == productId
              && item.quantity == quantity
              && item.totalPrice == products.rows[productId].price * quantity
              && Total(cart') == Total(cart) + item.totalPrice
  {
    if productId !in products.rows then Err(ProductNotFound)
    else
      var product := products.rows[productId];
      var item := CartItem(cart.nextId, productId, quantity, product.price * quantity);
      assert LinePrices(cart.items[item.id := item]) == LinePrices(cart.items)[item.id := item.totalPrice];
      SumUpdate(LinePrices(cart.items), item.id, item.totalPrice);
      Ok((CartRepo(cart.items[item.id := item], cart.nextId + 1), item))
  }

  /** `updateQuantity`: a missing id throws and changes nothing; otherwise that line alone
      gets the new quantity and the product's current price times that quantity. A line
      whose product row no longer exists cannot be priced, and fails. */
  function UpdateQuantity(products: ProductRepo, cart: CartRepo, id: int, quantity: int): (r: Result<(CartRepo, CartItem), CartError>)
    requires ValidCart(cart)
    ensures r.Err? <==> id !in cart.items || cart.items[id].productId !in products.rows
    ensures r.Err? ==> r.error == (if id !in cart.items then ItemNotFound else ProductNotFound)
    ensures r.Ok? ==>
              var (cart', item) := r.value;
              && ValidCart(cart')
              && item == cart.items[id].(quantity := quantity, totalPrice := products.rows[cart.items[id].productId].price * quantity)
              && cart'.items == cart.items[id := item]
              && Total(cart') == Total(cart) - cart.items[id].totalPrice + item.totalPrice
  {
    if id !in cart.items then Err(ItemNotFound)
    else if cart.items[id].productId !in products.rows then Err(ProductNotFound)
    else
      var prev := cart.items[id];
      var item := prev.(quantity := quantity, totalPrice := products.rows[prev.productId].price * quantity);
      assert LinePrices(cart.items[id := item]) == LinePrices(cart.items)[id := item.totalPrice];
      SumUpdate(LinePrices(cart.items), id, item.totalPrice);
      Ok((cart.(items := cart.items[id := item]), item))
  }

  /** A price change made through `updateProduct` reaches the cart: the next quantity update
      of a line for that product prices it at the new price, not the one it was added at. */
  lemma UpdateQuantityUsesCurrentPrice(products: ProductRepo, cart: CartRepo, id: int, quantity: int, upd: Product)
    requires Valid(products) && ValidCart(cart)
    requires id in cart.items && cart.items[id].productId in products.rows
    ensures var products' := UpdateProduct(products, cart.items[id].productId, upd).0;
            var r := UpdateQuantity(products', cart, id, quantity);
            r.Ok? && r.value.1.totalPrice == upd.price * quantity
  {
  }

  /** `removeItem`: only that line goes, and the total drops by its price. */
  function RemoveItem(cart: CartRepo, id: int): (r: CartRepo)
    requires ValidCart(cart)
    ensures ValidCart(r)
    ensures id !in r.items
    ensures forall k :: k != id ==> (k in r.items <==> k in cart.items) && (k in r.items ==> r.items[k] == cart.items[k])
    ensures Total(r) == Total(cart) - (if id in cart.items then cart.items[id].totalPrice else 0)
  {
    assert LinePrices(cart.items - {id}) == LinePrices(cart.items) - {id};
    SumDelete(LinePrices(cart.items), id);
    cart.(items := cart.items - {id})
  }

  /** `clearCart`: no lines remain, so the total is 0. */
  function ClearCart(cart: CartRepo): (r: CartRepo)
    requires ValidCart(cart)
    ensures ValidCart(r)
    ensures |r.items| == 0 && Total(r) == 0
  {
    cart.(items := map[])
  }

  /** `calculateTotal`: the sum of all stored line prices, whatever order `findAll` returns
      them in. */
  method CalculateTotal(cart: CartRepo) returns (total: int)
    ensures total == Total(cart)
  {
    total := 0;
    var rest := cart.items;
    while |rest| != 0
      invariant total + Sum(LinePrices(rest)) == Total(cart)
      decreases |rest|
    {
      // Pick's postcondition is what shows that some key of the non-empty map exists.
      ghost var anyKey := Pick(rest);
      var k :| k in rest;
      SumRemove(LinePrices(rest), k);
      assert LinePrices(rest - {k}) == LinePrices(rest) - {k};
      total := total + rest[k].totalPrice;
      RemoveSize(rest, k);
      rest := rest - {k};
    }
  }
}
