# H-B-Spa storefront: cart, forms, authentication and catalogue rules in Dafny

This project models the decision logic of the H-B-Spa e-commerce site and proves properties of that model. Nothing here is compiled to or executed against the site. The model covers the following parts:

- **Browser cart** (`Front-end/scripts/cart-preview.js`, `Front-end/scripts/products.js`).
  - The `hbspa_cart` record in local storage. It maps a product id to a quantity and carries an `updatedAt` stamp.
  - The `hbspa_products` catalogue cache.
  - The popover's increment, decrement and remove buttons.
  - The `cart:updated` listener, which merges notifications into the stored cart.
  - The article count, the total and the preview listing, which stops after six lines.
  - The product page's `updateLocalCart` and `addToCart`.
- **Contact-form validators.** There are two copies. `Front-end/scripts/validation.js` restricts the name to letters and spaces. `scripts/validation.js` only requires a name.
- **Authentication controller** (`AuthController.java`). It normalises roles to the `ROLE_` prefix, in two slightly different ways for login and registration. It also covers the register and login decisions.
- **Request authorisation table** (`SecurityConfig.java`). The first matching rule decides the access requirement, which is then checked against the caller.
- **Product and cart services** (`ProductService.java`, `CartService.java`). Each repository is a map from id to row plus the next generated id.
- **Site script** (`Front-end/scripts/app.js`). It covers the navbar style chosen on every scroll or collapse event, and the offset of the cart bubble above the FAQ button.

## How values are represented

- **JavaScript numbers** in the cart are `JsNumber` (`Int(v)` or `NaN`). The falsy-or-zero idioms are stated explicitly: `Number(x || 0)` becomes `AsCount`, and `Number(qty || 1)` becomes `QtyOrOne`.
- **Product ids** are `JsId` (`Undefined`, `Null` or a number). Their `String(...)` form is `IdString`, which is proved injective, so distinct ids never share a cart key.
- **Local storage** is an explicit `Stored<T>` value: `Missing`, `Malformed` or `Parsed(value)`. `Malformed` covers every stored value that is not an object: unparsable text, `null`, and a number, boolean or string. Writers return the new value, and the clock reading is a parameter.
- **`Object.entries` order** is a parameter: any enumeration of the keys, each exactly once. Everything proved about the popover holds for every such order.
- **Order-free sums.** The cart's sums are ghost sums over a map. `MapSum.SumRemove` proves that the sum does not depend on which key is taken first. The loop methods are proved equal to these sums whatever order they visit the keys in.
- **Server prices** (`BigDecimal`) are exact integers.

## Intended behaviour and the code

The model follows the code as written. Where the code's own comments or its other copy of the same step point to a different intent, the difference is listed here:

- **The product page's add.** The comment at `Front-end/scripts/products.js:83` says the event only notifies the preview bar so that it refreshes. The popover's own broadcast (`Front-end/scripts/cart-preview.js:107`) carries the whole updated mapping. `updateLocalCart` broadcasts `{productId, qty}` instead, and the preview's listener adds `qty` to the cart again. The resulting double count is listed under "Findings".
- **Quantities.** The only bound in the code is the popover's decrement (`Front-end/scripts/cart-preview.js:100`), which never goes below zero and deletes a line that reaches zero. Nothing else checks a quantity. The model keeps whatever numbers are stored and counts a `NaN` as 0.
- **The subject field.** It is compared without trimming, in both validators, while the name and email are trimmed first.

## Model

| member | source | states |
|---|---|---|
| `JsValues.QtyOrOne` | Front-end/scripts/cart-preview.js:311 | An absent, zero or NaN quantity counts as 1; any other quantity counts as itself; the result is never 0 |
| `JsValues.ParseIntToString` | Front-end/scripts/cart-preview.js:310 | The decimal text `String(n)` of every integer id reads back as that integer |
| `JsValues.IdStringInjective` | Front-end/scripts/products.js:80 | Two product ids (numbers, `undefined`, `null`) have the same cart key only if they are the same id |
| `CartStore.GetCart` | Front-end/scripts/cart-preview.js:23-32 | A missing or unparsable record is the empty cart with stamp 0; missing fields default to `{}` and 0 |
| `CartStore.SetCart` | Front-end/scripts/cart-preview.js:34-38 | Writing then reading back, with either reader, returns exactly the items written, stamped with the write time |
| `CartStore.GetLocalCart` | Front-end/scripts/products.js:59-68 | For a stored object or an unreadable entry, the product page's reader sees the same items as the popover's reader; a stored object keeps its stamp untouched and an unreadable entry reads as `{items: {}, updatedAt: 0}` |
| `CartStore.GetProductsMap` | Front-end/scripts/cart-preview.js:44-50 | A missing or unparsable catalogue cache reads as the empty map; a parsed one as itself |
| `CartStore.ItemCountUpdate` | Front-end/scripts/cart-preview.js:40-42 | Setting one key changes the article count by exactly the change at that key, whatever the other lines hold |
| `CartStore.ItemCountDelete` | Front-end/scripts/cart-preview.js:40-42 | Deleting a key lowers the article count by exactly what that key counted for |
| `CartStore.GetCount` | Front-end/scripts/cart-preview.js:40-42 | The loop's count equals the order-free sum of all quantities, NaN counting 0, and is 0 for an empty cart |
| `CartStore.ComputeSummary` | Front-end/scripts/cart-preview.js:120-131 | The loop's article count agrees with `getCount`, and its total is the order-free sum of quantity times cached price (0 when uncached) |
| `CartStore.SingleLineTotal` | Front-end/scripts/cart-preview.js:120-131 | A one-line cart is worth quantity times cached price (two at 50 make 100; an uncached product makes 0) and counts its quantity |
| `CartPreview.ApplyAction` | Front-end/scripts/cart-preview.js:95-104 | `inc` adds one to the current quantity; `dec` keeps the key only while above 1 and never leaves a non-positive value; `remove` deletes the key; unknown actions change nothing; no other key changes |
| `CartPreview.ActionCount` | Front-end/scripts/cart-preview.js:95-104 | `inc` raises the article count by 1; `dec` on a positive line lowers it by 1; `remove` lowers it by the line's quantity |
| `CartPreview.PopoverClick` | Front-end/scripts/cart-preview.js:86-109 | A line without an id is ignored; otherwise the stored cart becomes the action's result and the whole new mapping is broadcast |
| `CartPreview.HandleCartUpdated` | Front-end/scripts/cart-preview.js:302-314 | A broadcast mapping replaces the stored items; a defined product id adds the quantity (1 when absent, zero or NaN) to its key only and restamps; any other event leaves storage as it was |
| `CartPreview.ClickThenNotify` | Front-end/scripts/cart-preview.js:302-308 | The listener's handling of the popover's own broadcast leaves exactly the items the click produced |
| `CartPreview.ItemsLabel` | Front-end/scripts/cart-preview.js:150 | The label starts with the count's decimal text and is the singular "artículo" exactly when the count is 1, plural otherwise |
| `CartPreview.LineFor` | Front-end/scripts/cart-preview.js:170-173 | A line shows its stored quantity; a cached product shows its cached name, price and image, with "Producto #id" for a missing or empty name and the placeholder for a missing or empty image; an uncached product shows "Producto #id", no price and the placeholder image |
| `CartPreview.ListLines` | Front-end/scripts/cart-preview.js:164-192 | The listing holds the first min(n, 6) entries in enumeration order, each rendered from its own key |
| `CartPreview.RenderPreview` | Front-end/scripts/cart-preview.js:133-199 | Pill and label show the article count, the total is the cart total, checkout is marked disabled iff the count is 0, the empty notice shows iff there are no lines, and "+(n-6) más" shows iff there are more than six |
| `ProductsPage.ProductMap` | Front-end/scripts/products.js:11-21 | The cache has exactly one key per product with a defined id, `String(id)`; each entry is the projection of the last such product; `null` elements and id-less products are skipped |
| `ProductsPage.ProductMapKeys` | Front-end/scripts/products.js:12-13 | Every cache entry sits under the string form of its own id |
| `ProductsPage.UpdateLocalCart` | Front-end/scripts/products.js:78-85 | The key `String(productId)` grows by `qty`, or by 1 when it is absent, zero or NaN, no other key changes, and the event carries `{productId, qty}` as given |
| `ProductsPage.AddToCart` | Front-end/scripts/products.js:88-109 | One more of the product is stored before the server call, nothing else changes, and the server's answer cannot undo it |
| `ProductsPage.AddToCartCountsTwice` | Front-end/scripts/products.js:78-85 | As written, one click on a page running the preview adds the product twice (once for an undefined id) and raises the article count by 2 |
| `ProductsPage.AddToCartOnPageFixed` | Front-end/scripts/products.js:78-85 | Broadcasting the new mapping instead, one click adds exactly one of the product for every id, leaves other lines alone and raises the count by 1 |
| `ContactForm.Trim` | Front-end/scripts/validation.js:19 | `trim()` leaves the middle of the value with whitespace only around it and none at its ends, and is empty iff the value is all whitespace |
| `ContactForm.TrimIdempotent` | Front-end/scripts/validation.js:19-23 | Trimming a trimmed value changes nothing |
| `ContactForm.CheckName` | Front-end/scripts/validation.js:16-32 | The name is valid iff it is not blank and, in the Front-end copy, its trimmed value uses only letters, accented vowels, Ñ/ñ and spaces; only the pattern failure writes feedback |
| `ContactForm.EmailShapeIsPattern` | Front-end/scripts/validation.js:36 | The regular expression accepts exactly the values with one '@', not first, no whitespace, and a '.' in the domain that is neither its first nor its last character |
| `ContactForm.CheckEmail` | Front-end/scripts/validation.js:34-50 | The email is valid iff its trimmed value matches the pattern; the feedback says "required" for a blank value and "malformed" otherwise |
| `ContactForm.CheckSubject` | Front-end/scripts/validation.js:53-61 | The subject is invalid exactly when its value is empty |
| `ContactForm.CheckMessage` | Front-end/scripts/validation.js:64-79 | The message is valid iff its trimmed value has at least 10 UTF-16 units; the feedback says "required" for a blank value and "too short" otherwise |
| `ContactForm.ValidateForm` | Front-end/scripts/validation.js:13-82 | All four fields are marked by their own rule (no short-circuit), and the form is valid iff all four rules hold |
| `ContactForm.SubmitPrevented` | Front-end/scripts/validation.js:4-11 | Submission is prevented exactly when some field breaks its rule: the name is blank (or, in the front-end copy, holds a character other than a letter or space), the trimmed email does not match the pattern, the subject is empty, or the trimmed message is shorter than 10 UTF-16 units |
| `ContactForm.FrontEndStricter` | scripts/validation.js:14-72 | Whatever the Front-end copy accepts the other copy accepts, with identical email and message marks |
| `ContactForm.FrontEndStrictlyStricter` | Front-end/scripts/validation.js:18-23 | A name with a digit is accepted by one copy and rejected by the other |
| `Auth.LoginRole` | Back-end/EmailPrueba/src/main/java/com/spa/security/controller/AuthController.java:68-72 | The login role always starts "ROLE_": a prefixed role is kept as is, a missing one becomes ROLE_USER, any other, the empty one included, gets the prefix and upper-case |
| `Auth.RegisterRole` | Back-end/EmailPrueba/src/main/java/com/spa/security/controller/AuthController.java:100-106 | The stored role always starts "ROLE_" and is never blank: missing or blank becomes ROLE_USER, a prefixed role is kept, any other gets the prefix and upper-case |
| `Auth.NormalisationIdempotent` | Back-end/EmailPrueba/src/main/java/com/spa/security/controller/AuthController.java:69-72 | Normalising an already normalised role changes nothing, for both rules |
| `Auth.RulesAgreeUnlessBlank` | Back-end/EmailPrueba/src/main/java/com/spa/security/controller/AuthController.java:68-106 | The two rules agree on every role except a blank one: there login yields "ROLE_" followed by the upper-cased blank (exactly "ROLE_" for the empty role), while registration yields ROLE_USER |
| `Auth.FindUser` | Back-end/EmailPrueba/src/main/java/com/spa/security/controller/AuthController.java:65-66 | The lookup finds an account iff one has that username, and what it finds has that username |
| `Auth.Login` | Back-end/EmailPrueba/src/main/java/com/spa/security/controller/AuthController.java:53-84 | Login succeeds exactly when the credentials are accepted and the authenticated name has an account; failure is bad credentials or an unknown user; a success carries that name and the account's normalised role |
| `Auth.Register` | Back-end/EmailPrueba/src/main/java/com/spa/security/controller/AuthController.java:89-128 | Registration succeeds exactly when neither the username nor the email is taken; a taken username is reported first, then a taken email; a success appends exactly one account with the encoded password and normalised role, and the answer carries that role |
| `Auth.RegisterThenLogin` | Back-end/EmailPrueba/src/main/java/com/spa/security/controller/AuthController.java:65-72 | Logging in right after a successful registration yields the role registration stored |
| `Security.Decide` | Back-end/EmailPrueba/src/main/java/com/spa/security/config/SecurityConfig.java:35-52 | The requirement is that of the first rule matching the request, and there is one iff some rule matches |
| `Security.SpaRulesTotal` | Back-end/EmailPrueba/src/main/java/com/spa/security/config/SecurityConfig.java:51 | Every request is decided by the site's table |
| `Security.PreflightPermitted` | Back-end/EmailPrueba/src/main/java/com/spa/security/config/SecurityConfig.java:37 | Every OPTIONS request is permitted, whatever its path |
| `Security.AuthEndpointsPermitted` | Back-end/EmailPrueba/src/main/java/com/spa/security/config/SecurityConfig.java:40 | Every request under /api/auth is permitted, whatever its method |
| `Security.CatalogueReadsPermitted` | Back-end/EmailPrueba/src/main/java/com/spa/security/config/SecurityConfig.java:43 | GET under /api/products or /api/categories is permitted |
| `Security.CatalogueWritesNeedAdmin` | Back-end/EmailPrueba/src/main/java/com/spa/security/config/SecurityConfig.java:46-48 | POST, PUT and DELETE under /api/products or /api/categories need role ADMIN |
| `Security.OthersNeedAuthentication` | Back-end/EmailPrueba/src/main/java/com/spa/security/config/SecurityConfig.java:51 | Every other request only needs an authenticated caller |
| `Security.SwapNonOverlapping` | Back-end/EmailPrueba/src/main/java/com/spa/security/config/SecurityConfig.java:35-52 | Swapping two adjacent rules changes no decision for a request that they do not both match |
| `Security.AdminRulesCommute` | Back-end/EmailPrueba/src/main/java/com/spa/security/config/SecurityConfig.java:46-48 | The order of the admin write rules does not matter |
| `Security.Authorize` | Back-end/EmailPrueba/src/main/java/com/spa/security/config/SecurityConfig.java:37-51 | A permitted rule admits everyone; any other rejects an anonymous caller as not authenticated; a role rule denies a user without the authority "ROLE_" plus that role and admits one with it |
| `ProductService.SaveProduct` | Back-end/EmailPrueba/src/main/java/com/spa/service/ProductService.java:27-30 | A product with a stored id replaces that row; any other is inserted under a fresh id; the saved record is what a lookup then returns, and no other row changes |
| `ProductService.GetProductById` | Back-end/EmailPrueba/src/main/java/com/spa/service/ProductService.java:42-44 | The result is present exactly when the id is stored, and is that row |
| `ProductService.UpdateProduct` | Back-end/EmailPrueba/src/main/java/com/spa/service/ProductService.java:49-57 | An unknown id gives empty and changes nothing; a known one takes name, price, description and stock from the update, keeps its id, and no other row changes |
| `ProductService.DeleteProduct` | Back-end/EmailPrueba/src/main/java/com/spa/service/ProductService.java:62-64 | The id is gone afterwards, deleting an unknown id is a no-op, and no other row changes |
| `CartService.AddItem` | Back-end/EmailPrueba/src/main/java/com/spa/service/CartService.java:27-38 | An unknown product fails and stores nothing; a known one adds exactly one line under a fresh id, referring to that product, priced at its price times the quantity, and the total rises by that much |
| `CartService.UpdateQuantity` | Back-end/EmailPrueba/src/main/java/com/spa/service/CartService.java:40-48 | A missing line fails; a line whose product row is gone fails too; otherwise only that line changes, taking the new quantity and the product's current price times it, and the total moves by the difference |
| `CartService.UpdateQuantityUsesCurrentPrice` | Back-end/EmailPrueba/src/main/java/com/spa/service/CartService.java:40-48 | After `updateProduct` changes a product, the next quantity update of a line for that product prices it at the new price |
| `CartService.RemoveItem` | Back-end/EmailPrueba/src/main/java/com/spa/service/CartService.java:50-52 | Only that line goes, and the total drops by its price |
| `CartService.ClearCart` | Back-end/EmailPrueba/src/main/java/com/spa/service/CartService.java:54-56 | No lines remain and the total is 0 |
| `CartService.CalculateTotal` | Back-end/EmailPrueba/src/main/java/com/spa/service/CartService.java:58-63 | The loop's result is the order-free sum of all stored line prices |
| `Navbar.ResolveMode` | Front-end/scripts/app.js:13 | The mode is the navbar's attribute, else the body's, else "auto"; an empty attribute counts as absent; it is never empty |
| `Navbar.ResolveTheme` | Front-end/scripts/app.js:14 | A present, non-empty navbar attribute gives the theme as that attribute lower-cased; an absent or empty one gives "auto"; the result never holds an upper-case letter |
| `Navbar.NavbarStyle` | Front-end/scripts/app.js:34-54 | "solid" is always solid; "transparent" is solid iff scrolled past 10 or expanded; any other mode is solid iff there is no hero, or scrolled, or expanded; a transparent bar is dark iff the theme is "dark", or "auto" with a hero |
| `Navbar.ModeCaseInsensitive` | Front-end/scripts/app.js:38 | Mode names match regardless of letter case |
| `Navbar.ApplyStyle` | Front-end/scripts/app.js:16-32 | Exactly one of transparent and scrolled is set, exactly one of dark and light, and every other class is left as it was |
| `Navbar.LastStyleWins` | Front-end/scripts/app.js:16-32 | Applying a style after another gives the same classes as applying it alone |
| `Navbar.OnScroll` | Front-end/scripts/app.js:34-57 | Every run leaves one background class and one scheme class; an explicit solid mode, a scroll or an open menu always gives the scrolled light bar; with no mode set the bar is transparent iff there is a hero at the top with the menu closed |
| `Navbar.FaqHeight` | Front-end/scripts/app.js:92-96 | Without the FAQ button the height is 56; otherwise the measured height rounded to the nearest integer, halves upward, with a rounded 0 replaced by 56 |
| `Navbar.BubbleStack` | Front-end/scripts/app.js:76-100 | The FAQ button sits 16 pixels up and the cart bubble exactly 8 pixels above the FAQ button's top |
| `Navbar.CartBottomValues` | Front-end/scripts/app.js:92-97 | The cart bubble sits 80 pixels up without the FAQ button, and 24 plus h above a button h whole pixels tall |

## Left out

- **Rendering.** DOM construction, HTML escaping, focus and keyboard handling, and the popover's open/close state are not modelled. The preview is modelled as the data it displays.
- **Currency formatting.** `fmtCurrency` uses `Intl` currency formatting, which the model omits. Totals are exact integers.
- **Network.** `fetch`, `alert` and the console are outside the model. The outcome of `addToCart`'s server request is a parameter that nothing depends on, as in the source.
- **Storage failures and clock.** A failing `localStorage.setItem` (quota, disabled storage) is not modelled. `Date.now()` is a parameter.
- **Number forms.** Stored quantities that are strings, fractions or infinities are not modelled. A NaN written to JSON becomes `null`; the model keeps it as `NaN`, which every reader treats like `null`. Prices are integers.
- **Null prices.** A cached price of `null` is shown by the source as a zero amount. The model does not distinguish it from a missing price, which shows no amount.
- **Key order.** The order `Object.entries` yields keys in (integer-like keys ascending, then insertion order) is not modelled. It is a parameter constrained only to list each key exactly once.
- **Case mapping.** Unicode case mapping beyond ASCII is not modelled for `toUpperCase` and `toLowerCase`.
- **Authentication internals.** JWT signing and validation, the request filter, BCrypt hashing and Spring's authentication manager are foreign here. The manager's verdict and the password encoder are parameters.
- **HTTP status codes.** The model does not say which status the two rejections produce; that depends on Spring's entry point and access-denied handler.
- **Security beyond the table.** The CSRF and session settings do not affect the table's decisions. Path matching is modelled for the `/prefix/**` patterns the table uses only: no other wildcards, no path normalisation.
- **Server-side cart items.** `CartItem.java` is not part of this model. Its constructor is taken to set the line price to product price times quantity, as `updateQuantity` does. A line refers to its product by id and reads it from the product repository when it is priced. A line whose product was deleted fails to update; the database's foreign-key rule that would stop such a delete is not modelled.
- CartStore.GetLocalCart: a stored value that parses to a number, boolean or string (`5`, `true`, `"x"`) is read as an empty cart with stamp 0, which is what `getCart` makes of it. `getLocalCart` (Front-end/scripts/products.js:60-63) instead returns the primitive itself, because a non-strict script ignores the assignment to its `items`. `updateLocalCart` then throws a `TypeError` at Front-end/scripts/products.js:81, before any write, broadcast or server request. The model folds such values into `Malformed` and does not model that throw, so `ProductsPage.UpdateLocalCart` and `ProductsPage.AddToCart` add to an empty cart where the page would fail.
- **Listing operations.** `getAllItems` and `getAllProducts` only return the repository contents and are not modelled separately.
- **Persistence details.** JPA merge semantics are not modelled beyond "a stored id is replaced, anything else is inserted", nor are database constraints (non-null columns).
- **Other files.** The React application and the other pages' scripts are not modelled.
- **Cross-tab races.** Races between tabs writing the same storage key are not modelled. Every operation is one synchronous step.
- **Bubble styling.** The bubble placement models only the vertical offsets. Right offsets, z-index and sizes are constants with nothing to prove.

## Findings

| source | as written | input that shows it | evidently intended | confidence | as-written member | corrected member |
|---|---|---|---|---|---|---|
| Front-end/scripts/products.js:78-85 | `updateLocalCart` stores the increment and then broadcasts `{productId, qty}`; the preview's `cart:updated` listener (Front-end/scripts/cart-preview.js:309-313) adds `qty` to the stored quantity again | Empty cart, a page running both scripts, one click on "Agregar al carrito" for product 7: the stored cart becomes `{"7": 2}` | One click adds one article; the broadcast should carry the whole new mapping, as the popover's does, so that the listener only re-stores it | not executed | `ProductsPage.AddToCartCountsTwice` | `ProductsPage.AddToCartOnPageFixed` |
