/** The product listing page's cart logic (Front-end/scripts/products.js): the product
    cache built from the catalogue response, the local cart update, and `addToCart`,
    whose server request is a foreign call whose outcome never touches local state. */
module ProductsPage {
  import opened Wrappers
  import opened JsValues
  import opened CartStore
  import opened CartPreview

  /** A product object of the `GET /products` response, as far as the page reads it. */
  datatype ApiProduct = ApiProduct(id: JsId, name: Option<string>, price: Option<int>, imageUrl: Option<string>, description: Option<string>)

  /** Element `p` of the response (`None` for a `null` element) is cached under key `k`. */
  predicate KeyedBy(p: Option<ApiProduct>, k: string) {
    p.Some? && p.value.id != Undefined && IdString(p.value.id) == k
  }

  /** The cached projection: exactly `{id, name, price, imageUrl}`. */
  function Project(p: ApiProduct): (e: CatalogEntry)
    ensures e.id == p.id && e.name == p.name && e.price == p.price && e.imageUrl == p.imageUrl
  {
    CatalogEntry(p.id, p.name, p.price, p.imageUrl)
  }

  /** Element `i` is the last one of `products` cached under `k`. */
  predicate LastKeyed(products: seq<Option<ApiProduct>>, i: int, k: string) {
    && 0 <= i < |products|
    && KeyedBy(products[i], k)
    && forall j :: i < j < |products| ==> !KeyedBy(products[j], k)
  }

  /** `m` holds exactly the keys of the products with a defined id, each with the
      projection of the last product cached under it. */
  ghost predicate CachesExactly(products: seq<Option<ApiProduct>>, m: Catalog) {
    && (forall k :: k in m <==> exists i :: 0 <= i < |products| && KeyedBy(products[i], k))
    && (forall k :: k in m ==> exists i :: LastKeyed(products, i, k) && m[k] == Project(products[i].value))
  }

  /** The `products.reduce(...)` in `loadProducts`: one entry per product with a defined id,
      under `String(id)`; `null` elements and products without an id are skipped; when two
      products share an id the later one wins. */
  function ProductMap(products: seq<Option<ApiProduct>>): (m: Catalog)
    ensures CachesExactly(products, m)
    decreases |products|
  {
    if |products| == 0 then map[]
    else
      var prefix := products[..|products| - 1];
      var m := ProductMap(prefix);
      var p := products[|products| - 1];
      var r := if p.Some? && p.value.id != Undefined then m[IdString(p.value.id) := Project(p.value)] else m;
      ProductMapStep(products, m, r);
      r
  }

  /** Folding one more product into a cache that is exact for the prefix gives a cache
      that is exact for the whole list. */
  lemma ProductMapStep(products: seq<Option<ApiProduct>>, m: Catalog, r: Catalog)
    requires |products| > 0
    requires CachesExactly(products[..|products| - 1], m)
    requires var p := products[|products| - 1];
             r == if p.Some? && p.value.id != Undefined then m[IdString(p.value.id) := Project(p.value)] else m
    ensures CachesExactly(products, r)
  {
    StepValues(products, m, r);
    StepKeys(products, m, r);
  }

  lemma StepValues(products: seq<Option<ApiProduct>>, m: Catalog, r: Catalog)
    requires |products| > 0
    requires CachesExactly(products[..|products| - 1], m)
    requires var p := products[|products| - 1];
             r == if p.Some? && p.value.id != Undefined then m[IdString(p.value.id) := Project(p.value)] else m
    ensures forall k :: k in r ==> exists i :: LastKeyed(products, i, k) && r[k] == Project(products[i].value)
  {
    var n := |products| - 1;
    forall k | k in r
      ensures exists i :: LastKeyed(products, i, k) && r[k] == Project(products[i].value)
    {
      if KeyedBy(products[n], k) {
        assert LastKeyed(products, n, k);
      } else {
        assert k in m && r[k] == m[k];
        var i :| LastKeyed(products[..n], i, k) && m[k] == Project(products[..n][i].value);
        LastKeyedExtends(products, i, k);
      }
    }
  }

  /** A product that is last under `k` in the prefix stays last when the new element is not
      cached under `k`. */
  lemma LastKeyedExtends(products: seq<Option<ApiProduct>>, i: int, k: string)
    requires |products| > 0
    requires LastKeyed(products[..|products| - 1], i, k)
    requires !KeyedBy(products[|products| - 1], k)
    ensures LastKeyed(products, i, k)
    ensures products[..|products| - 1][i] == products[i]
  {
    var n := |products| - 1;
    forall j | i < j < |products|
      ensures !KeyedBy(products[j], k)
    {
      if j < n {
        assert products[..n][j] == products[j];
      }
    }
  }

  lemma StepKeys(products: seq<Option<ApiProduct>>, m: Catalog, r: Catalog)
    requires |products| > 0
    requires CachesExactly(products[..|products| - 1], m)
    requires var p := products[|products| - 1];
             r == if p.Some? && p.value.id != Undefined then m[IdString(p.value.id) := Project(p.value)] else m
    ensures forall k :: k in r <==> exists i :: 0 <= i < |products| && KeyedBy(products[i], k)
  {
    var n := |products| - 1;
    var prefix := products[..n];
    forall k | exists i :: 0 <= i < |products| && KeyedBy(products[i], k)
      ensures k in r
    {
      var i :| 0 <= i < |products| && KeyedBy(products[i], k);
      if i < n {
        assert prefix[i] == products[i];
      }
    }
    forall k | k in r
      ensures exists i :: 0 <= i < |products| && KeyedBy(products[i], k)
    {
      if KeyedBy(products[n], k) {
        assert KeyedBy(products[n], k);
      } else {
        var i :| 0 <= i < n && KeyedBy(prefix[i], k);
        assert prefix[i] == products[i];
      }
    }
  }

  /** Every cache entry sits under the string form of its own id. */
  lemma ProductMapKeys(products: seq<Option<ApiProduct>>)
    ensures forall k :: k in ProductMap(products) ==>
              ProductMap(products)[k].id != Undefined && IdString(ProductMap(products)[k].id) == k
  {
  }

  /** `updateLocalCart`: the quantity under `String(productId)` grows by `qty`, or by 1 when
      `qty` is absent, 0 or NaN; no other key changes; the cart is written, and only then
      `{productId, qty}` is broadcast as given. */
  function UpdateLocalCart(s: Stored<Record>, productId: JsId, qty: Option<JsNumber>, now: int): (r: (Stored<Record>, CartEvent))
    ensures var key := IdString(productId);
            && key in GetCart(r.0).items
            && GetCart(r.0).items[key] == Int(Current(GetCart(s).items, key) + QtyOrOne(qty))
            && SameExcept(GetCart(s).items, GetCart(r.0).items, key)
    ensures r.1 == DeltaEvent(productId, qty)
  {
    var items := GetLocalCart(s).items.value;
    var key := IdString(productId);
    (SetCart(items[key := Int(Current(items, key) + QtyOrOne(qty))], now), DeltaEvent(productId, qty))
  }

  /** `addToCart` (local part): the cart gains one of the product before the server request,
      and whatever that request returns (`serverAccepted`) the local change stays. */
  function AddToCart(s: Stored<Record>, productId: JsId, now: int, serverAccepted: bool): (r: (Stored<Record>, CartEvent))
    ensures Current(GetCart(r.0).items, IdString(productId)) == Current(GetCart(s).items, IdString(productId)) + 1
    ensures SameExcept(GetCart(s).items, GetCart(r.0).items, IdString(productId))
    ensures r.1 == DeltaEvent(productId, Some(Int(1)))
  {
    UpdateLocalCart(s, productId, Some(Int(1)), now)
  }

  /** A click on "Agregar al carrito" on a page that also runs the cart preview: the local
      write, then the preview's listener handling the broadcast, as the two scripts are
      written. */
  function AddToCartOnPage(s: Stored<Record>, productId: JsId, t1: int, t2: int, serverAccepted: bool): Stored<Record> {
    var (s1, ev) := AddToCart(s, productId, t1, serverAccepted);
    HandleCartUpdated(s1, ev, t2)
  }

  /** As written, one click adds the product twice: `updateLocalCart` has already stored
      the increment, and the listener adds the broadcast `qty` again on top of it. Only an
      undefined id escapes, because the listener ignores it. */
  lemma AddToCartCountsTwice(s: Stored<Record>, productId: JsId, t1: int, t2: int, serverAccepted: bool)
    ensures var key := IdString(productId);
            var after := GetCart(AddToCartOnPage(s, productId, t1, t2, serverAccepted)).items;
            Current(after, key) == Current(GetCart(s).items, key) + (if productId == Undefined then 1 else 2)
    ensures productId != Undefined ==>
              ItemCount(GetCart(AddToCartOnPage(s, productId, t1, t2, serverAccepted)).items) == ItemCount(GetCart(s).items) + 2
  {
    var key := IdString(productId);
    var items0 := GetCart(s).items;
    var (s1, ev) := AddToCart(s, productId, t1, serverAccepted);
    var items1 := GetCart(s1).items;
    assert items1 == items0[key := Int(Current(items0, key) + 1)];
    ItemCountUpdate(items0, key, Int(Current(items0, key) + 1));
    if productId != Undefined {
      var items2 := GetCart(HandleCartUpdated(s1, ev, t2)).items;
      assert items2 == items1[key := Int(Current(items1, key) + 1)];
      ItemCountUpdate(items1, key, Int(Current(items1, key) + 1));
    }
  }

  /** The local update as evidently intended: after writing, broadcast the whole new
      mapping (as the popover does), so the listener stores it instead of adding again. */
  function UpdateLocalCartNotifying(s: Stored<Record>, productId: JsId, qty: Option<JsNumber>, now: int): (r: (Stored<Record>, CartEvent))
    ensures var key := IdString(productId);
            && key in GetCart(r.0).items
            && GetCart(r.0).items[key] == Int(Current(GetCart(s).items, key) + QtyOrOne(qty))
            && SameExcept(GetCart(s).items, GetCart(r.0).items, key)
    ensures r.1 == ItemsEvent(GetCart(r.0).items)
  {
    var (s1, _) := UpdateLocalCart(s, productId, qty, now);
    (s1, ItemsEvent(GetCart(s1).items))
  }

  /** With the corrected broadcast, one click on a page running the preview adds the
      product exactly once, for every id, and leaves every other line alone. */
  function AddToCartOnPageFixed(s: Stored<Record>, productId: JsId, t1: int, t2: int, serverAccepted: bool): (r: Stored<Record>)
    ensures Current(GetCart(r).items, IdString(productId)) == Current(GetCart(s).items, IdString(productId)) + 1
    ensures SameExcept(GetCart(s).items, GetCart(r).items, IdString(productId))
    ensures ItemCount(GetCart(r).items) == ItemCount(GetCart(s).items) + 1
  {
    var (s1, ev) := UpdateLocalCartNotifying(s, productId, Some(Int(1)), t1);
    var r := HandleCartUpdated(s1, ev, t2);
    var key := IdString(productId);
    ItemCountUpdate(GetCart(s).items, key, Int(Current(GetCart(s).items, key) + 1));
    assert GetCart(s1).items == GetCart(s).items[key := Int(Current(GetCart(s).items, key) + 1)];
    r
  }
}
