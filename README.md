# Storefront client logic of a tennis-shoe shop

This project models, in Dafny, the decision logic of the shop's browser pages:

- the **shopping cart** shared by the product page (`public/product-detail.js`) and the
  catalogue page (`public/script.js`): add a product (one more unit of its line, or a new
  line of quantity 1), change a line's quantity (never below 1), remove a product, the
  running total, and checkout (refused on an empty cart, clears it otherwise). Both files
  carry the same code for remove, change-quantity, total and checkout; only the product
  page can add. The cart is the class `Cart.Cart`, whose field `items` the operations
  reassign, and each operation is tied to a specification function (`Added`,
  `WithQuantity`, `Removed`, `Sum`) about which the lemmas are proved;
- the **media reference → file id → image URL** rule (module `Media`): the text after the
  first `id=` up to the next `id=`, else the group of `/\/d\/(.+?)\//` (leftmost match,
  at least one character, lazy up to the next `/`, never across a line terminator), else
  nothing; an id gives `<origin>/proxy/image?id=<id>`, no id a placeholder; references
  ending in `.mp4`/`.webm` are shown as video. The vendor page uses the `id=` rule alone;
- the **vendor's sale form** (module `Vendor`): quantity in 1..shown stock is checked before
  price > 0, then the vendor's id is looked up (a failed lookup ends in a connection
  alert), the posted total is quantity × price, the live total treats unparseable
  fields as 0, the modal opens at quantity 1 and price 0, a missing stock shows as 0, the
  variant panel prefers a variant's own image, and the role gate admits only `vendedor`;
- the **catalogue page** (module `Storefront`): login with empty fields is refused before
  any request, `admin` goes to `/admin.html`, `cliente` to `/cliente.html`, any other role
  is stored but told "Rol no reconocido"; the session check on page load and after login keeps a
  stored session only when the server confirms its token, and clears it otherwise; logout and the brand link reset category to ''
  and sort to 'newest'; a category link clears the sort; the listing request carries
  `search`, `category`, `sort` each only when non-empty, always in that order.

Prices are whole cents (`int`); quantities are integers. Inputs that the pages read from
the DOM arrive as parameters, already parsed. Files: `wrappers.dfy` (Option, Result),
`cart.dfy`, `media.dfy`, `vendor.dfy`, `storefront.dfy`.

## Model

| member | source | states |
|---|---|---|
| `Cart.FindFirst` | public/product-detail.js:86 | `cart.find` by id: the position found holds the id and no earlier line does; nothing is found exactly when no line has the id |
| `Cart.Cart.constructor` | public/product-detail.js:75-78 | with nothing stored the cart is empty |
| `Cart.Cart.AddToCart` | public/product-detail.js:84-95 | the new cart is `Added(old cart, product)` |
| `Cart.AddPresent` | public/product-detail.js:85-89 | a product already present: same length, its first line gains exactly one unit, every other line is unchanged |
| `Cart.AddAbsent` | public/product-detail.js:90 | a product not present: exactly one line with the product's fields and quantity 1 is appended after the unchanged lines |
| `Cart.AddKeepsWellFormed` | public/product-detail.js:86-91 | adding keeps ids unique and quantities at least 1, and the product's id is then in the cart |
| `Cart.AddTotalPresent` | public/product-detail.js:88 | adding a present product raises the total by the price stored in its line |
| `Cart.AddTotalAbsent` | public/product-detail.js:90 | adding a new product raises the total by its price |
| `Cart.Cart.UpdateQuantity` | public/product-detail.js:97-105 | the cart becomes `WithQuantity(old cart, id, q)`; it is saved exactly when some line has the id, and is untouched otherwise |
| `Cart.QuantityClamped` | public/script.js:49-56 | the first line with the id gets max(1, q), hence at least 1; length and every other line unchanged |
| `Cart.QuantityOfMissingId` | public/product-detail.js:99-100 | an id not in the cart changes nothing |
| `Cart.QuantityKeepsWellFormed` | public/script.js:53 | changing a quantity keeps ids unique and quantities at least 1 |
| `Cart.QuantityTotal` | public/script.js:53 | the total changes by the line's price times the change of quantity |
| `Cart.Cart.RemoveFromCart` | public/product-detail.js:147-152 | the new cart is `Removed(old cart, id)` |
| `Cart.RemovedMembers` | public/script.js:42-46 | a line survives removal exactly when it was in the cart with a different id; the cart never grows |
| `Cart.RemovedAppend` | public/script.js:44 | removal distributes over concatenation, so survivors keep their original order |
| `Cart.RemovedAbsent` | public/product-detail.js:149 | removing an id not in the cart leaves it as it was |
| `Cart.RemovedIdempotent` | public/product-detail.js:147-151 | removing the same id twice is the same as once |
| `Cart.RemovedKeepsWellFormed` | public/script.js:44 | removal keeps ids unique and quantities at least 1 |
| `Cart.RemovedUnique` | public/product-detail.js:149 | with unique ids, removal takes out exactly the one line with that id |
| `Cart.RemovedTotal` | public/script.js:42-46 | with unique ids, removal lowers the total by that line's price × quantity |
| `Cart.Cart.Total` | public/product-detail.js:110-131 | the loop's running total equals the sum of price × quantity over all lines |
| `Cart.SumAppend` | public/script.js:62-80 | the total of a concatenation is the sum of the two totals |
| `Cart.SumUpdate` | public/script.js:79 | replacing one line changes the total by the difference of the two lines' amounts |
| `Cart.SumNonNegative` | public/product-detail.js:110-131 | the empty cart totals 0; a well-formed cart with non-negative prices never totals below 0 |
| `Cart.Cart.Checkout` | public/product-detail.js:174-185 | an empty cart is reported and left as it is; otherwise the purchase is reported with the cart's total and the cart is emptied |
| `Media.IndexOf` | public/script.js:332 | the first occurrence of a pattern at or after a position, or none at all |
| `Media.IdSegmentOf` | public/script.js:332 | whenever some text follows the first `id=` up to the next one (or the end), `split('id=')[1]` is exactly that text |
| `Media.IdSegment` | public/script.js:332 | `split('id=')[1]`: none exactly when there is no `id=`; otherwise the text right after the first `id=`, running to the end or the next `id=`, holding no `id=` itself |
| `Media.DriveMatchAt` | public/script.js:332 | a match at a position captures a non-empty group after `/d/`, with no `/` after its first character and no line terminator, followed by `/` |
| `Media.DriveMatchComplete` | public/script.js:332 | whenever the pattern can match at a position, the match there captures exactly that group: it misses no match and the group at a position is unique |
| `Media.DriveStart` | public/script.js:332 | the regular expression's leftmost match: it matches there and at no earlier position, or nowhere |
| `Media.DriveGroup` | public/product-detail.js:62 | the fallback group is non-empty and is the one captured at the leftmost position where the pattern matches (no group can be captured at any earlier position); it is absent exactly when the pattern matches nowhere |
| `Media.FileId` | public/product-detail.js:62-63 | absent or empty media gives no id; when the text after the first `id=` (up to the next one) is non-empty, that text is the id; when it is missing or empty, the id is the leftmost match's group, and there is none exactly when the pattern matches nowhere; an id is never empty |
| `Media.VendorFileId` | public/vendedor.js:127-128 | when the text after the first `id=` (up to the next one) is non-empty, that text is the id; otherwise, and for absent media, there is none; an id is non-empty and holds no `id=` |
| `Media.MediaUrlFromMedia` | public/product-detail.js:116-117 | no id gives the placeholder; an id gives a URL from which both pages read that same id back, when neither the origin nor the id holds `id=` |
| `Media.ProxyUrlRoundTrip` | public/script.js:333 | reading the file id back from the built proxy URL gives the same id, on both pages, when origin and id hold no `id=` |
| `Media.VendorAgreesWhenFound` | public/vendedor.js:127 | when the vendor page finds an id, the storefront finds the same one |
| `Media.VendorLacksFallback` | public/vendedor.js:127 | for every reference without usable `id=` text that the pattern matches, the storefront shows the leftmost match's group and the vendor page shows nothing |
| `Media.DriveLinkWithoutIdParameter` | public/vendedor.js:127 | `/d/x/` yields `x` on the storefront and nothing on the vendor page, which has no fallback |
| `Media.VideoByExtension` | public/script.js:334-336 | references ending in `.mp4` or `.webm` are video; `.png` and absent media are images |
| `Vendor.ConfirmSale` | public/vendedor.js:55-109 | a sale is posted exactly when 1 ≤ quantity ≤ stock, price > 0 and the vendor lookup succeeds; quantity faults give the quantity error, a valid quantity with price ≤ 0 the price error, a failed lookup after both checks pass the connection error; the posted total is quantity × price, the variant, quantity, price and payment method are the form's, and the vendor id is the lookup reply's `id` |
| `Vendor.QuantityCheckedFirst` | public/vendedor.js:63-70 | with quantity and price both wrong, the quantity error is reported |
| `Vendor.OrZero` | public/vendedor.js:207-208 | an unparseable field reads as 0, a parsed one as its value |
| `Vendor.DisplayedTotal` | public/vendedor.js:206-211 | the live total is quantity × price when both fields parse, and 0 when either does not |
| `Vendor.PostedTotalIsDisplayed` | public/vendedor.js:61 | the total posted with a sale equals the live total the form showed |
| `Vendor.DisplayedStock` | public/vendedor.js:167-169 | a missing stock is shown, and handed to the sell button, as 0 |
| `Vendor.OpenSaleModal` | public/vendedor.js:35-47 | the opened form has quantity 1, price 0, and quantity maximum equal to the shown stock |
| `Vendor.FreshModalRefused` | public/vendedor.js:41-43 | an untouched form is refused (for price, or for quantity when no stock is shown) and its total reads 0 |
| `Vendor.SaleWithinShownStock` | public/vendedor.js:60-66 | every posted sale asks for at least one unit and at most the variant's recorded stock; a variant without stock can never be sold |
| `Vendor.VariantImageId` | public/vendedor.js:160 | the variant's own image wins; without one the product media is used |
| `Vendor.Panel` | public/vendedor.js:157-173 | one row per variant, in order, each with the shown stock and the corrected image rule |
| `Vendor.PanelAsWrittenFails` | public/vendedor.js:154-177 | as written, the panel fails exactly when the product has no media and some variant has no image of its own |
| `Vendor.PanelAsWrittenCounterexample` | public/vendedor.js:160 | one variant without image under a product without media makes the panel fail |
| `Vendor.PanelAgrees` | public/vendedor.js:157-173 | wherever the code as written succeeds, the corrected panel shows the same rows |
| `Vendor.Gate` | public/vendedor.js:214-243 | only a token holder whom the server confirms as `vendedor` stays; no token means leaving; any other role, a refused check or a failed request drops the token and leaves |
| `Storefront.OrElse` | public/script.js:226 | `x \|\| fallback`: a non-empty value is kept, a missing or empty one replaced |
| `Storefront.Login` | public/script.js:206-247 | empty email or password gives the fill-in message and stores nothing; an accepted login stores the reply's token, its name or 'Cliente', and its role; `admin` and `cliente` are routed to their pages exactly, every other accepted role is told "Rol no reconocido"; a refusal stores nothing and shows the server's message or "Error al iniciar sesión"; no reply stores nothing and shows "Error de conexión con el servidor" |
| `Storefront.EmptyFieldsNeverAsk` | public/script.js:211-215 | with a field empty the outcome does not depend on any server reply |
| `Storefront.VendorNotRouted` | public/script.js:230-237 | a `vendedor` login here is stored but gets "Rol no reconocido" |
| `Storefront.QueryParams` | public/script.js:298-303 | each of search, category, sort is present exactly when non-empty, values are non-empty, and the keys always come in that order |
| `Storefront.Catalogue.constructor` | public/script.js:24-25 | a fresh page has category '' and sort 'newest' |
| `Storefront.Catalogue.SubmitLogin` | public/script.js:224-237 | the session is replaced only by an accepted login; filters are untouched |
| `Storefront.Catalogue.CheckAuth` | public/script.js:125-168 | with no (or an empty) stored token, or when the server does not confirm the token or the request fails, the stored session is cleared and the header shows no greeting and no admin link; a confirmed token keeps the session, greets with the server's name or 'Usuario', and shows the admin link exactly for role 'admin'; filters are untouched |
| `Storefront.Catalogue.Logout` | public/script.js:187-194 | logout clears the session, resets category to '' and sort to 'newest', and reloads with only `sort=newest` |
| `Storefront.Catalogue.BrandLink` | public/script.js:349-357 | the brand link resets category and sort the same way, keeping the session |
| `Storefront.Catalogue.SelectCategory` | public/script.js:360-370 | a category link sets the category (or '') and clears the sort, so the reload carries no sort |
| `Storefront.Catalogue.Search` | public/script.js:372-375 | a search reloads with the current category and sort, changing neither |

## Findings

| source | as written | input that shows it | evidently intended | confidence | as-written member | corrected member |
|---|---|---|---|---|---|---|
| public/vendedor.js:160 | a variant without `imagen_color` evaluates `data.media.split('id=')`, which throws on a product whose media is null; the catch handler then replaces the whole variant list with "Error al cargar variantes." | a product with media `null` and one variant with no image | fall back to the placeholder image, as line 127 of the same file does for null media | medium, not executed | `Vendor.PanelAsWrittenCounterexample` | `Vendor.Panel` |

## Left out

- Persistence of the cart in `localStorage` through `JSON.stringify`/`JSON.parse`: the cart is an in-memory sequence, so a malformed stored cart is not modelled.
- Floating point: prices are whole cents and `toFixed(2)` formatting is not modelled.
- `Cart.Cart.UpdateQuantity`: does not model `parseInt` returning NaN, which makes `Math.max(1, NaN)` store NaN as the quantity; the quantity argument is an integer.
- `Vendor.ConfirmSale`: does not model a NaN quantity or price, which passes both checks in the source; unparseable inputs are only modelled for the live total (`Vendor.DisplayedTotal`).
- `Cart.Cart.Checkout`: the alert shows the rendered total text; the model assumes that text shows the current cart's total.
- `Storefront.Catalogue.Search`: receives the search text already trimmed; `String.prototype.trim` is not modelled.
- The encoding of `URLSearchParams.toString()` (percent-escaping, `&` and `=` joining) is not modelled; the parameters are a sequence of key/value pairs.
- The general regular-expression engine: only the one pattern `/\/d\/(.+?)\//` is modelled, by a direct search.
- The storefront's registration form, the vendor's product search and variant deletion, and all DOM rendering, alerts, redirects, timers and `fetch` calls: they display data or forward it to the server. Server replies are parameters.
- `Storefront.Catalogue.SubmitLogin`: the `checkAuth` that follows an accepted login is a separate call of `Storefront.Catalogue.CheckAuth`, with its own reply; the model does not interleave the two asynchronous requests.
- The `/api/register-sale` endpoint and every server-side stock or sale update, including the reply to the posted sale and its success or error alert: that code is not part of this model, so stock decrements and sale records are not modelled.
- server.js (three SQL pass-through routes), generateHash.js (a bcrypt call) and public/admin.js (fetch and DOM code, with an `isLoading` re-entrancy flag around asynchronous requests) are not part of this model.
