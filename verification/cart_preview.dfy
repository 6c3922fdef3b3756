/** The floating cart preview (Front-end/scripts/cart-preview.js): the popover's
    per-line buttons, the `cart:updated` listener that merges notifications into the
    stored cart, and what the popover shows. */
module CartPreview {
  import opened Wrappers
  import opened JsValues
  import opened MapSum
  import opened CartStore

  /** The `data-action` of the clicked popover button. */
  datatype Action = Inc | Dec | Remove | OtherAction

  /** The mapping change a popover button makes on line `id`. `inc` adds one to the current
      quantity (0 when absent), `dec` never goes below zero and deletes the key at zero,
      `remove` deletes the key; no action touches any other key. */
  function ApplyAction(items: Items, id: string, action: Action): (r: Items)
    ensures SameExcept(items, r, id)
    ensures action == Inc ==> id in r && r[id] == Int(Current(items, id) + 1)
    ensures action == Dec ==> (id in r <==> Current(items, id) > 1)
    ensures action == Dec && id in r ==> r[id] == Int(Current(items, id) - 1) && r[id].v > 0
    ensures action == Remove ==> id !in r
    ensures action == OtherAction ==> r == items
  {
    var current := Current(items, id);
    match action
    case Inc => items[id := Int(current + 1)]
    case Dec =>
      var next := if current - 1 > 0 then current - 1 else 0;
      if next == 0 then items - {id} else items[id := Int(next)]
    case Remove => items - {id}
    case OtherAction => items
  }

  /** How a button changes the article count: `inc` adds one, `dec` takes one off a
      positive line (a line at zero or below is dropped, losing what it counted for),
      `remove` drops the whole line. */
  lemma ActionCount(items: Items, id: string, action: Action)
    ensures action == Inc ==> ItemCount(ApplyAction(items, id, action)) == ItemCount(items) + 1
    ensures action == Dec && Current(items, id) >= 1 ==> ItemCount(ApplyAction(items, id, action)) == ItemCount(items) - 1
    ensures action == Dec && Current(items, id) < 1 ==> ItemCount(ApplyAction(items, id, action)) == ItemCount(items) - Current(items, id)
    ensures action == Remove ==> ItemCount(ApplyAction(items, id, action)) == ItemCount(items) - Current(items, id)
  {
    var current := Current(items, id);
    match action
    case Inc =>
      ItemCountUpdate(items, id, Int(current + 1));
    case Dec =>
      if current > 1 {
        ItemCountUpdate(items, id, Int(current - 1));
      } else {
        ItemCountDelete(items, id);
      }
    case Remove =>
      ItemCountDelete(items, id);
    case OtherAction =>
  }

  /** The popover's click handler: a button on a line with an empty `data-id` does nothing;
      otherwise the action is applied to the stored cart, the cart is written back (even for
      an unrecognised action), and the whole new mapping is broadcast. */
  function PopoverClick(s: Stored<Record>, id: string, action: Action, now: int): (r: (Stored<Record>, Option<CartEvent>))
    ensures id == "" ==> r == (s, None)
    ensures id != "" ==> GetCart(r.0).items == ApplyAction(GetCart(s).items, id, action)
    ensures id != "" ==> r.1 == Some(ItemsEvent(GetCart(r.0).items))
  {
    if id == "" then (s, None)
    else
      var items := ApplyAction(GetCart(s).items, id, action);
      (SetCart(items, now), Some(ItemsEvent(items)))
  }

  /** The `cart:updated` listener. A mapping in the event replaces the stored one wholesale;
      otherwise a defined `productId` adds `Number(qty || 1)` to the quantity under
      `String(productId)` (an absent, zero or NaN quantity counting as 0); an event with
      neither leaves storage untouched. */
  function HandleCartUpdated(s: Stored<Record>, ev: CartEvent, now: int): (r: Stored<Record>)
    ensures ev.ItemsEvent? ==> GetCart(r) == Cart(ev.items, now)
    ensures ev.DeltaEvent? && ev.productId != Undefined ==>
              var key := IdString(ev.productId);
              && key in GetCart(r).items
              && GetCart(r).items[key] == Int(Current(GetCart(s).items, key) + QtyOrOne(ev.qty))
              && SameExcept(GetCart(s).items, GetCart(r).items, key)
              && GetCart(r).updatedAt == now
    ensures ev.NoDetail? || (ev.DeltaEvent? && ev.productId == Undefined) ==> r == s
  {
    match ev
    case ItemsEvent(items) => SetCart(items, now)
    case DeltaEvent(pid, qty) =>
      if pid == Undefined then s
      else
        var items := GetCart(s).items;
        var key := IdString(pid);
        SetCart(items[key := Int(Current(items, key) + QtyOrOne(qty))], now)
    case NoDetail => s
  }

  /** A popover click followed by the listener handling the popover's own broadcast: the
      re-dispatched mapping replaces the stored one with itself, so the items are exactly
      those the click produced. */
  lemma ClickThenNotify(s: Stored<Record>, id: string, action: Action, t1: int, t2: int)
    requires id != ""
    ensures var (s1, ev) := PopoverClick(s, id, action, t1);
            ev.Some? && GetCart(HandleCartUpdated(s1, ev.value, t2)).items == GetCart(s1).items
  {
  }

  /** The preview shows at most this many lines. */
  const PreviewLimit := 6

  const PlaceholderImage := "https://via.placeholder.com/112x112?text=%F0%9F%9B%92"

  /** One rendered popover line; `price` is `None` when the cache has no price (no price
      text is shown), the quantity is shown as stored. */
  datatype PreviewLine = PreviewLine(id: string, name: string, price: Option<int>, image: string, qty: JsNumber)

  /** The popover body: the empty-cart notice, or the first lines plus an optional
      "+N más…" overflow count. */
  datatype PreviewBody = EmptyNotice | Listing(lines: seq<PreviewLine>, more: Option<nat>)

  /** Everything the popover writes: count pill, "N artículo(s)" label, total, whether the
      checkout link is marked `aria-disabled`, and the body. */
  datatype Preview = Preview(countPill: string, itemsLabel: string, total: int, checkoutDisabled: bool, body: PreviewBody)

  /** The label under the lines: the singular "artículo" exactly when the count is 1. */
  function ItemsLabel(count: int): (r: string)
    ensures |IntToString(count)| < |r| && r[..|IntToString(count)|] == IntToString(count)
    ensures r == IntToString(count) + " artículo" <==> count == 1
    ensures count != 1 ==> r[|r| - 1] == 's'
  {
    IntToString(count) + " artículo" + (if count == 1 then "" else "s")
  }

  /** One line of the listing: the cached name (or "Producto #id" when missing or empty),
      the cached price if any, the cached image (or a placeholder) and the stored quantity. */
  function LineFor(items: Items, catalog: Catalog, id: string): (l: PreviewLine)
    requires id in items
    ensures l.id == id && l.qty == items[id]
    ensures id !in catalog ==> l == PreviewLine(id, "Producto #" + id, None, PlaceholderImage, items[id])
    ensures id in catalog ==>
              var meta := catalog[id];
              && l.name == (if meta.name.Some? && meta.name.value != "" then meta.name.value else "Producto #" + id)
              && l.price == meta.price
              && l.image == (if meta.imageUrl.Some? && meta.imageUrl.value != "" then meta.imageUrl.value else PlaceholderImage)
  {
    if id in catalog then
      var meta := catalog[id];
      PreviewLine(
        id,
        if meta.name.Some? && meta.name.value != "" then meta.name.value else "Producto #" + id,
        meta.price,
        if meta.imageUrl.Some? && meta.imageUrl.value != "" then meta.imageUrl.value else PlaceholderImage,
        items[id])
    else
      PreviewLine(id, "Producto #" + id, None, PlaceholderImage, items[id])
  }

  /** `order` is an enumeration of the keys of `items`, each exactly once: the order
      `Object.entries` yields them in. */
  predicate Enumerates(order: seq<string>, items: Items) {
    && (forall i :: 0 <= i < |order| ==> order[i] in items)
    && (forall k :: k in items ==> k in order)
    && (forall i, j :: 0 <= i < j < |order| ==> order[i] != order[j])
  }

  lemma {:induction false} EnumerationSize(order: seq<string>, items: Items)
    requires Enumerates(order, items)
    ensures |order| == |items|
    decreases |order|
  {
    if |order| != 0 {
      var last := order[|order| - 1];
      var rest := items - {last};
      var prefix := order[..|order| - 1];
      forall k | k in rest ensures k in prefix {
        var i :| 0 <= i < |order| && order[i] == k;
        assert i != |order| - 1;
        assert prefix[i] == k;
      }
      EnumerationSize(prefix, rest);
      RemoveSize(items, last);
    }
  }

  /** The listed lines: the first `min(n, 6)` entries in enumeration order, the loop
      stopping at the limit. */
  method ListLines(items: Items, catalog: Catalog, order: seq<string>) returns (lines: seq<PreviewLine>)
    requires forall i :: 0 <= i < |order| ==> order[i] in items
    ensures |lines| == (if |order| < PreviewLimit then |order| else PreviewLimit)
    ensures forall i :: 0 <= i < |lines| ==> lines[i] == LineFor(items, catalog, order[i])
  {
    lines := [];
    var shown := 0;
    while shown < |order|
      invariant 0 <= shown <= |order| && shown <= PreviewLimit
      invariant |lines| == shown
      invariant forall i :: 0 <= i < shown ==> lines[i] == LineFor(items, catalog, order[i])
    {
      if shown >= PreviewLimit {
        break;
      }
      lines := lines + [LineFor(items, catalog, order[shown])];
      shown := shown + 1;
    }
  }

  /** `renderPopover`: the summary figures come from `computeSummary`; an empty cart shows
      the empty notice; otherwise the first `min(n, 6)` entries in enumeration order are
      listed and a "+(n-6) más" line appears exactly when there are more than six. */
  method RenderPreview(cart: Cart, catalog: Catalog, order: seq<string>) returns (p: Preview)
    requires Enumerates(order, cart.items)
    ensures |order| == |cart.items|
    ensures p.countPill == IntToString(ItemCount(cart.items))
    ensures p.itemsLabel == ItemsLabel(ItemCount(cart.items))
    ensures p.total == CartTotal(cart.items, catalog)
    ensures p.checkoutDisabled <==> ItemCount(cart.items) == 0
    ensures p.body.EmptyNotice? <==> |cart.items| == 0
    ensures p.body.Listing? ==>
              && |p.body.lines| == (if |cart.items| < PreviewLimit then |cart.items| else PreviewLimit)
              && (forall i :: 0 <= i < |p.body.lines| ==> p.body.lines[i] == LineFor(cart.items, catalog, order[i]))
              && (p.body.more.Some? <==> |cart.items| > PreviewLimit)
              && (p.body.more.Some? ==> p.body.more.value == |cart.items| - PreviewLimit)
  {
    var itemsCount, total := ComputeSummary(cart, catalog);
    EnumerationSize(order, cart.items);
    var body: PreviewBody;
    if |order| == 0 {
      body := EmptyNotice;
    } else {
      var lines := ListLines(cart.items, catalog, order);
      var more: Option<nat> := if |order| > PreviewLimit then Some(|order| - PreviewLimit) else None;
      body := Listing(lines, more);
    }
    p := Preview(IntToString(itemsCount), ItemsLabel(itemsCount), total, itemsCount == 0, body);
  }
}
