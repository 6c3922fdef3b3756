/** The browser-side cart kept under the `hbspa_cart` storage key, and the product cache
    kept under `hbspa_products` (Front-end/scripts/cart-preview.js and
    Front-end/scripts/products.js). Storage is an explicit value: readers take a
    `Stored<...>`, writers return the new one. */
module CartStore {
  import opened Wrappers
  import opened JsValues
  import opened MapSum

  /** Product id (already `String`-coerced) to quantity. */
  type Items = map<string, JsNumber>

  /** The parsed `hbspa_cart` object; either field may be missing or falsy. */
  datatype Record = Record(items: Option<Items>, updatedAt: Option<int>)

  /** The normalised cart the popover works on. */
  datatype Cart = Cart(items: Items, updatedAt: int)

  /** One cached product: the projection `{id, name, price, imageUrl}` of a backend product.
      Prices are exact integers (cents). */
  datatype CatalogEntry = CatalogEntry(id: JsId, name: Option<string>, price: Option<int>, imageUrl: Option<string>)

  type Catalog = map<string, CatalogEntry>

  /** The `detail` of a `cart:updated` event: a whole replacement mapping (sent by the
      popover), a single product delta (sent by the product page), or neither. */
  datatype CartEvent = ItemsEvent(items: Items) | DeltaEvent(productId: JsId, qty: Option<JsNumber>) | NoDetail

  /** `a` and `b` agree on every key except possibly `key`. */
  ghost predicate SameExcept(a: Items, b: Items, key: string) {
    forall k :: k != key ==> (k in a <==> k in b) && (k in a ==> a[k] == b[k])
  }

  /** `getCart`: a missing or unreadable record is the empty cart; missing fields default
      to `{}` and `0`. */
  function GetCart(s: Stored<Record>): (c: Cart)
    ensures !s.Parsed? ==> c == Cart(map[], 0)
    ensures s.Parsed? ==> c.items == s.value.items.GetOr(map[]) && c.updatedAt == s.value.updatedAt.GetOr(0)
  {
    match s
    case Parsed(r) => Cart(r.items.GetOr(map[]), r.updatedAt.GetOr(0))
    case _ => Cart(map[], 0)
  }

  /** `setCart` / `setLocalCart`: both write `{items, updatedAt: Date.now()}`; the clock
      reading is the argument `now`. Reading back returns exactly what was written. */
  function SetCart(items: Items, now: int): (s: Stored<Record>)
    ensures GetCart(s) == Cart(items, now)
    ensures GetLocalCart(s).items == Some(items)
  {
    Parsed(Record(Some(items), Some(now)))
  }

  /** `getLocalCart` (products.js): like `getCart`, but a stored record keeps its own
      `updatedAt` as it is, only `items` is normalised. Both readers see the same items
      (a stored primitive is the exception; see the README's "Left out"). */
  function GetLocalCart(s: Stored<Record>): (r: Record)
    ensures r.items == Some(GetCart(s).items)
    ensures !s.Parsed? ==> r == Record(Some(map[]), Some(0))
    ensures s.Parsed? ==> r.updatedAt == s.value.updatedAt
  {
    match s
    case Parsed(rec) => Record(Some(rec.items.GetOr(map[])), rec.updatedAt)
    case _ => Record(Some(map[]), Some(0))
  }

  /** `getProductsMap`: a missing or unreadable cache is the empty map. */
  function GetProductsMap(s: Stored<Catalog>): (m: Catalog)
    ensures s.Parsed? ==> m == s.value
    ensures !s.Parsed? ==> m == map[]
  {
    if s.Parsed? then s.value else map[]
  }

  /** `Number(cart.items[id] || 0)`: the quantity a key currently counts for, 0 when absent. */
  function Current(items: Items, id: string): int {
    if id in items then AsCount(items[id]) else 0
  }

  /** `Number((map[id] && map[id].price) ?? 0) || 0`: an uncached product or a missing price
      contributes price 0. */
  function PriceOf(catalog: Catalog, id: string): int {
    if id in catalog && catalog[id].price.Some? then catalog[id].price.value else 0
  }

  function Counts(items: Items): map<string, int> {
    map k | k in items :: AsCount(items[k])
  }

  function LineTotals(items: Items, catalog: Catalog): map<string, int> {
    map k | k in items :: AsCount(items[k]) * PriceOf(catalog, k)
  }

  /** The number of articles in the cart: every quantity, non-numeric ones as 0. */
  ghost function ItemCount(items: Items): int {
    Sum(Counts(items))
  }

  /** The cart's value: each line's quantity times its cached price. */
  ghost function CartTotal(items: Items, catalog: Catalog): int {
    Sum(LineTotals(items, catalog))
  }

  lemma CountsUpdate(items: Items, k: string, x: JsNumber)
    ensures Counts(items[k := x]) == Counts(items)[k := AsCount(x)]
  {
  }

  lemma CountsDelete(items: Items, k: string)
    ensures Counts(items - {k}) == Counts(items) - {k}
  {
  }

  lemma LineTotalsDelete(items: Items, catalog: Catalog, k: string)
    ensures LineTotals(items - {k}, catalog) == LineTotals(items, catalog) - {k}
  {
  }

  /** Setting one key changes the article count by exactly the change at that key. */
  lemma ItemCountUpdate(items: Items, k: string, x: JsNumber)
    ensures ItemCount(items[k := x]) == ItemCount(items) - Current(items, k) + AsCount(x)
  {
    CountsUpdate(items, k, x);
    SumUpdate(Counts(items), k, AsCount(x));
  }

  /** Deleting one key lowers the article count by what that key counted for. */
  lemma ItemCountDelete(items: Items, k: string)
    ensures ItemCount(items - {k}) == ItemCount(items) - Current(items, k)
  {
    CountsDelete(items, k);
    SumDelete(Counts(items), k);
  }

  /** `getCount`: the sum of all quantities, non-numeric values counting as 0, whatever
      order the values are enumerated in. */
  method GetCount(cart: Cart) returns (n: int)
    ensures n == ItemCount(cart.items)
    ensures cart.items == map[] ==> n == 0
  {
    n := 0;
    var rest := cart.items;
    while rest != map[]
      invariant n + ItemCount(rest) == ItemCount(cart.items)
      decreases |rest|
    {
      var k :| k in rest;
      SumRemove(Counts(rest), k);
      CountsDelete(rest, k);
      n := n + AsCount(rest[k]);
      RemoveSize(rest, k);
      rest := rest - {k};
    }
    SumEmpty(Counts(rest));
  }

  /** `computeSummary`: the article count agrees with `getCount`, and the total is the sum
      of quantity times price, where a product missing from the cache contributes 0. */
  method ComputeSummary(cart: Cart, catalog: Catalog) returns (itemsCount: int, total: int)
    ensures itemsCount == ItemCount(cart.items)
    ensures total == CartTotal(cart.items, catalog)
  {
    itemsCount, total := 0, 0;
    var rest := cart.items;
    while rest != map[]
      invariant itemsCount + ItemCount(rest) == ItemCount(cart.items)
      invariant total + CartTotal(rest, catalog) == CartTotal(cart.items, catalog)
      decreases |rest|
    {
      var k :| k in rest;
      SumRemove(Counts(rest), k);
      CountsDelete(rest, k);
      SumRemove(LineTotals(rest, catalog), k);
      LineTotalsDelete(rest, catalog, k);
      var qty := AsCount(rest[k]);
      itemsCount := itemsCount + qty;
      total := total + qty * PriceOf(catalog, k);
      RemoveSize(rest, k);
      rest := rest - {k};
    }
    SumEmpty(Counts(rest));
    SumEmpty(LineTotals(rest, catalog));
  }

  /** A one-line cart is worth its quantity times its cached price: two of a product priced
      50 make 100; an uncached product makes 0. */
  lemma SingleLineTotal(id: string, qty: int, catalog: Catalog)
    ensures CartTotal(map[id := Int(qty)], catalog) == qty * PriceOf(catalog, id)
    ensures ItemCount(map[id := Int(qty)]) == qty
  {
    var items: Items := map[id := Int(qty)];
    SumRemove(LineTotals(items, catalog), id);
    SumRemove(Counts(items), id);
    assert LineTotals(items, catalog) - {id} == map[];
    assert Counts(items) - {id} == map[];
  }
}
