/**
 * The vendor's point-of-sale page (public/vendedor.js): the sale form and its
 * checks, the running total it displays, the variant panel, and the role gate
 * that keeps non-vendors out. Prices are whole cents; inputs arrive already
 * parsed (None where parsing gives NaN).
 */
module Vendor {
  import opened Wrappers
  import Media

  /** The alerts the sale form can raise instead of posting. */
  datatype SaleError = InvalidQuantity | InvalidPrice | ConnectionFailed

  /**
   * The /api/check-auth request made once the form's checks pass: its reply's `id`
   * (None where the reply has no `id`), or a request or JSON failure.
   */
  datatype VendorLookup = VendorIdReply(id: Option<int>) | LookupFailed

  /** The JSON body posted to /api/register-sale. */
  datatype SaleRequest = SaleRequest(
    variantId: string, quantity: int, price: int, total: int,
    paymentMethod: string, vendorId: Option<int>)

  /** What the form shows when the sell button of a variant is pressed. */
  datatype SaleModal = SaleModal(variantId: string, stock: int, maxQuantity: int, quantity: int, price: int)

  /** A variant as the product endpoint returns it. */
  datatype Variant = Variant(id: string, color: string, size: string, stock: Option<int>, image: Option<string>)

  /** A row of the variant panel: the stock it shows and the image file id it uses. */
  datatype VariantRow = VariantRow(id: string, stock: int, imageId: Option<string>)

  /** The outcome of rendering the variant panel when the handler throws. */
  datatype PanelError = MediaOfNull

  /** The reply of /api/check-auth, or a failed request. */
  datatype AuthReply = Authenticated(role: string) | NotAuthenticated | Unreachable

  /** What the page does on load: stay, or go to "/" after dropping the stored token or not. */
  datatype GateAction = Admit | DropTokenAndLeave | Leave

  // ---- Sale form ----------------------------------------------------------

  /**
   * The confirm handler: the quantity must lie in 1..stock, then the unit price must
   * be positive; then the vendor's id is looked up, and a failed lookup ends in the
   * connection alert. Only then is a sale posted, with total = quantity * price and
   * the looked-up id as the vendor.
   */
  function ConfirmSale(variantId: string, quantity: int, price: int, paymentMethod: string,
                       stock: int, auth: VendorLookup): (r: Result<SaleRequest, SaleError>)
    ensures r.Ok? <==> 1 <= quantity <= stock && price > 0 && auth.VendorIdReply?
    ensures r == Err(InvalidQuantity) <==> quantity <= 0 || quantity > stock
    ensures r == Err(InvalidPrice) <==> 1 <= quantity <= stock && price <= 0
    ensures r == Err(ConnectionFailed) <==> 1 <= quantity <= stock && price > 0 && auth.LookupFailed?
    ensures r.Ok? ==> r.value.total == r.value.quantity * r.value.price
    ensures r.Ok? ==> r.value.quantity == quantity && r.value.price == price
    ensures r.Ok? ==> r.value.variantId == variantId && r.value.paymentMethod == paymentMethod
    ensures r.Ok? ==> r.value.vendorId == auth.id
  {
    var total := quantity * price;
    if quantity <= 0 || quantity > stock then Err(InvalidQuantity)
    else if price <= 0 then Err(InvalidPrice)
    else match auth
      case LookupFailed => Err(ConnectionFailed)
      case VendorIdReply(vendorId) => Ok(SaleRequest(variantId, quantity, price, total, paymentMethod, vendorId))
  }

  /** With both fields wrong, the quantity alert is the one shown. */
  lemma QuantityCheckedFirst(variantId: string, quantity: int, price: int, paymentMethod: string,
                             stock: int, auth: VendorLookup)
    requires quantity <= 0 || quantity > stock
    requires price <= 0
    ensures ConfirmSale(variantId, quantity, price, paymentMethod, stock, auth) == Err(InvalidQuantity)
  {
  }

  /** `parseInt(x) || 0` and `parseFloat(x) || 0`: NaN (None) reads as 0. */
  function OrZero(x: Option<int>): (r: int)
    ensures x.None? ==> r == 0
    ensures x.Some? ==> r == x.value
  {
    match x
    case None => 0
    case Some(v) => v
  }

  /**
   * The total shown under the form as the fields are edited: quantity times price
   * once both fields hold a number, 0 while either of them does not.
   */
  function DisplayedTotal(quantity: Option<int>, price: Option<int>): (r: int)
    ensures quantity.Some? && price.Some? ==> r == quantity.value * price.value
    ensures quantity.None? || price.None? ==> r == 0
  {
    OrZero(quantity) * OrZero(price)
  }

  /** The total posted with a sale is the one the form was showing. */
  lemma PostedTotalIsDisplayed(variantId: string, quantity: int, price: int, paymentMethod: string,
                               stock: int, auth: VendorLookup)
    requires ConfirmSale(variantId, quantity, price, paymentMethod, stock, auth).Ok?
    ensures ConfirmSale(variantId, quantity, price, paymentMethod, stock, auth).value.total
            == DisplayedTotal(Some(quantity), Some(price))
  {
  }

  /** `variant.stock || 0`: a missing (or zero) stock shows as 0. */
  function DisplayedStock(stock: Option<int>): (r: int)
    ensures stock.None? ==> r == 0
    ensures stock.Some? ==> r == stock.value
  {
    match stock
    case None => 0
    case Some(n) => n
  }

  /** Pressing "Vender": quantity 1, price 0, maximum quantity the displayed stock. */
  function OpenSaleModal(v: Variant): (m: SaleModal)
    ensures m.quantity == 1 && m.price == 0
    ensures m.maxQuantity == m.stock == DisplayedStock(v.stock)
    ensures m.variantId == v.id
  {
    var shown := DisplayedStock(v.stock);
    SaleModal(v.id, shown, shown, 1, 0)
  }

  /**
   * A freshly opened form never posts: with price 0 it is refused for the price, or
   * for the quantity when the variant shows no stock. Its total reads 0.
   */
  lemma FreshModalRefused(v: Variant, paymentMethod: string, auth: VendorLookup)
    ensures var m := OpenSaleModal(v);
      && ConfirmSale(m.variantId, m.quantity, m.price, paymentMethod, m.stock, auth)
         == (if DisplayedStock(v.stock) >= 1 then Err(InvalidPrice) else Err(InvalidQuantity))
      && DisplayedTotal(Some(m.quantity), Some(m.price)) == 0
  {
  }

  /** Every sale posted for a variant asks for at least one unit and no more than it shows in stock. */
  lemma SaleWithinShownStock(v: Variant, quantity: int, price: int, paymentMethod: string, auth: VendorLookup)
    requires ConfirmSale(v.id, quantity, price, paymentMethod, DisplayedStock(v.stock), auth).Ok?
    ensures v.stock.Some? && 1 <= quantity <= v.stock.value
  {
  }

  // ---- Variant panel ------------------------------------------------------

  /** The corrected image rule: the variant's own image, else the product media, else none. */
  function VariantImageId(image: Option<string>, productMedia: Option<string>): (r: Option<string>)
    ensures image.Some? && image.value != "" ==> r == Media.VendorFileId(image)
    ensures image.None? || image == Some("") ==> r == Media.VendorFileId(productMedia)
  {
    if image.Some? && image.value != "" then Media.VendorFileId(image)
    else Media.VendorFileId(productMedia)
  }

  /**
   * The image rule as written: `data.media.split('id=')` is evaluated on a null
   * product media whenever the variant has no image of its own, which throws.
   */
  function VariantImageIdAsWritten(image: Option<string>, productMedia: Option<string>): Result<Option<string>, PanelError> {
    if image.Some? && image.value != "" then Ok(Media.VendorFileId(image))
    else if productMedia.None? then Err(MediaOfNull)
    else Ok(Media.VendorFileId(productMedia))
  }

  function Row(v: Variant, productMedia: Option<string>): VariantRow {
    VariantRow(v.id, DisplayedStock(v.stock), VariantImageId(v.image, productMedia))
  }

  /** The rows of the panel, one per variant, in order. */
  function Panel(vs: seq<Variant>, productMedia: Option<string>): (rows: seq<VariantRow>)
    ensures |rows| == |vs|
    ensures forall i :: 0 <= i < |vs| ==> rows[i] == Row(vs[i], productMedia)
  {
    if vs == [] then [] else [Row(vs[0], productMedia)] + Panel(vs[1..], productMedia)
  }

  /**
   * The panel as written: rows are built one by one and the first throw abandons
   * the list (the catch handler then shows an error instead of any row).
   */
  function PanelAsWritten(vs: seq<Variant>, productMedia: Option<string>): Result<seq<VariantRow>, PanelError> {
    if vs == [] then Ok([])
    else match VariantImageIdAsWritten(vs[0].image, productMedia)
      case Err(e) => Err(e)
      case Ok(id) =>
        match PanelAsWritten(vs[1..], productMedia)
        case Err(e) => Err(e)
        case Ok(rest) => Ok([VariantRow(vs[0].id, DisplayedStock(vs[0].stock), id)] + rest)
  }

  predicate NoOwnImage(v: Variant) {
    v.image.None? || v.image == Some("")
  }

  /** As written, the whole panel fails exactly when the product has no media and some variant no image. */
  lemma {:induction false} PanelAsWrittenFails(vs: seq<Variant>, productMedia: Option<string>)
    ensures PanelAsWritten(vs, productMedia).Err?
        <==> productMedia.None? && exists i :: 0 <= i < |vs| && NoOwnImage(vs[i])
  {
    if vs != [] {
      PanelAsWrittenFails(vs[1..], productMedia);
      if productMedia.None? && !NoOwnImage(vs[0]) {
        assert (exists i :: 0 <= i < |vs| && NoOwnImage(vs[i]))
           <==> (exists i :: 0 <= i < |vs[1..]| && NoOwnImage(vs[1..][i])) by {
          forall i | 0 <= i < |vs[1..]| ensures vs[1..][i] == vs[i + 1] {}
        }
      }
    }
  }

  /** One variant without an image under a product without media blanks the whole panel. */
  lemma PanelAsWrittenCounterexample(v: Variant)
    requires v.image.None?
    ensures PanelAsWritten([v], None) == Err(MediaOfNull)
  {
  }

  /** Where the code as written succeeds, the corrected panel shows the same rows. */
  lemma {:induction false} PanelAgrees(vs: seq<Variant>, productMedia: Option<string>)
    requires PanelAsWritten(vs, productMedia).Ok?
    ensures PanelAsWritten(vs, productMedia).value == Panel(vs, productMedia)
  {
    if vs != [] {
      PanelAgrees(vs[1..], productMedia);
    }
  }

  // ---- Role gate ----------------------------------------------------------

  /**
   * The check on load: only an authenticated vendor stays. Everyone else goes to "/",
   * and the stored token is dropped unless there was none.
   */
  function Gate(hasToken: bool, reply: AuthReply): (a: GateAction)
    ensures a == Admit <==> hasToken && reply == Authenticated("vendedor")
    ensures a == Leave <==> !hasToken
    ensures hasToken && reply.Authenticated? && reply.role != "vendedor" ==> a == DropTokenAndLeave
  {
    if !hasToken then Leave
    else match reply
      case Authenticated(role) => if role == "vendedor" then Admit else DropTokenAndLeave
      case NotAuthenticated => DropTokenAndLeave
      case Unreachable => DropTokenAndLeave
  }
}
