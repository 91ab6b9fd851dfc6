/**
  The cart page (`CartPage`): the price breakdown, the +/− and remove
  buttons wired to the cart engine, the empty state, and the simulated
  checkout. Also the life of a cart driven only through the client's own
  screens, and what that guarantees about the breakdown.
 */
module CartPage {
  import opened Seqs
  import opened Catalog
  import opened Cart
  import ProductModal
  import Money

  // ---------------------------------------------------------------------------
  // Price breakdown
  // ---------------------------------------------------------------------------

  function BaseCost(l: CartLine): int {
    l.item.price * l.item.quantity
  }

  function ModsCost(l: CartLine): int {
    ModsTotal(l.item.modifications) * l.item.quantity
  }

  /** The `subtotal` reduce: base price times quantity, summed over the lines. */
  function Subtotal(cart: seq<CartLine>): int {
    SumBy(cart, BaseCost)
  }

  /** The `additions` reduce: the modifications' price times quantity, summed over the lines. */
  function Additions(cart: seq<CartLine>): int {
    SumBy(cart, ModsCost)
  }

  /** The three amounts the page shows, each with two decimals. */
  datatype Breakdown = Breakdown(subtotal: string, additions: string, total: string)

  function ShowBreakdown(cart: seq<CartLine>): (b: Breakdown)
    ensures Money.ParseCents(b.subtotal) == Some(Subtotal(cart))
    ensures Money.ParseCents(b.additions) == Some(Additions(cart))
    ensures Money.ParseCents(b.total) == Some(TotalCents(cart))
  {
    Money.FormatCentsRoundTrip(Subtotal(cart));
    Money.FormatCentsRoundTrip(Additions(cart));
    Breakdown(Money.FormatCents(Subtotal(cart)), Money.FormatCents(Additions(cart)), GetTotalPrice(cart))
  }

  lemma LineCostSplits(l: CartLine)
    requires Priced(l.item)
    ensures BaseCost(l) + ModsCost(l) == LineTotal(l)
  {
    var q := l.item.quantity;
    assert l.item.price * q + ModsTotal(l.item.modifications) * q == (l.item.price + ModsTotal(l.item.modifications)) * q;
  }

  /** When every line is priced, subtotal plus additions is the total the cart reports. */
  lemma {:induction false} SubtotalPlusAdditions(cart: seq<CartLine>)
    requires AllPriced(cart)
    ensures Subtotal(cart) + Additions(cart) == TotalCents(cart)
  {
    if |cart| > 0 {
      var init := cart[..|cart| - 1];
      assert AllPriced(init) by {
        forall i | 0 <= i < |init| ensures Priced(init[i].item) {
          assert init[i] == cart[i];
        }
      }
      SubtotalPlusAdditions(init);
      LineCostSplits(cart[|cart| - 1]);
    }
  }

  // ---------------------------------------------------------------------------
  // The −, + and remove buttons of a line
  // ---------------------------------------------------------------------------

  lemma Cancel(a: int, b: int, q: int)
    requires q >= 1 && a * q == b * q
    ensures a == b
  {
    assert (a - b) * q == a * q - b * q;
    ProductBounds(a - b, q);
  }

  lemma ShiftOne(u: int, q: int, d: int)
    ensures u * q + d * u == u * (q + d)
  {
  }

  /**
    The rescaled line of a priced cart keeps its unit price: `n` pieces cost
    `n` times the unit price.
   */
  lemma RescaledAtUnitPrice(cart: seq<CartLine>, i: int, n: int)
    requires AllPriced(cart) && 0 <= i < |cart| && n >= 1
    requires forall j :: 0 <= j < |cart| && cart[j].cartId == cart[i].cartId ==> UnitExact(cart[j].item)
    ensures UpdateQuantity(cart, cart[i].cartId, n)[i].item.totalPrice == UnitPrice(cart[i].item) * n
  {
    UpdateQuantityKeepsPriced(cart, cart[i].cartId, n);
    var r := UpdateQuantity(cart, cart[i].cartId, n);
    var u, q := UnitPrice(cart[i].item), cart[i].item.quantity;
    assert r[i].item.totalPrice * q == (u * q) * n;
    assert (u * q) * n == (u * n) * q;
    Cancel(r[i].item.totalPrice, u * n, q);
  }

  /** The − button of line `i`: `updateQuantity(item.cartId, item.quantity - 1)`. */
  function MinusPressed(cart: seq<CartLine>, i: int): (r: seq<CartLine>)
    requires AllPriced(cart) && 0 <= i < |cart|
    ensures AllPriced(r)
    ensures cart[i].item.quantity == 1 ==> r == RemoveFromCart(cart, cart[i].cartId)
    ensures cart[i].item.quantity > 1 ==>
      && |r| == |cart|
      && r[i].cartId == cart[i].cartId
      && r[i].item == cart[i].item.(quantity := r[i].item.quantity, totalPrice := r[i].item.totalPrice)
      && r[i].item.quantity == cart[i].item.quantity - 1
      && r[i].item.totalPrice == cart[i].item.totalPrice - UnitPrice(cart[i].item)
      && (forall j :: 0 <= j < |cart| && cart[j].cartId != cart[i].cartId ==> r[j] == cart[j])
  {
    UpdateQuantityKeepsPriced(cart, cart[i].cartId, cart[i].item.quantity - 1);
    if cart[i].item.quantity > 1 then
      RescaledAtUnitPrice(cart, i, cart[i].item.quantity - 1);
      ShiftOne(UnitPrice(cart[i].item), cart[i].item.quantity, -1);
      UpdateQuantity(cart, cart[i].cartId, cart[i].item.quantity - 1)
    else
      UpdateQuantity(cart, cart[i].cartId, cart[i].item.quantity - 1)
  }

  /** The + button of line `i`: `updateQuantity(item.cartId, item.quantity + 1)`. */
  function PlusPressed(cart: seq<CartLine>, i: int): (r: seq<CartLine>)
    requires AllPriced(cart) && 0 <= i < |cart|
    ensures AllPriced(r)
    ensures |r| == |cart|
    ensures r[i].cartId == cart[i].cartId
    ensures r[i].item == cart[i].item.(quantity := r[i].item.quantity, totalPrice := r[i].item.totalPrice)
    ensures r[i].item.quantity == cart[i].item.quantity + 1
    ensures r[i].item.totalPrice == cart[i].item.totalPrice + UnitPrice(cart[i].item)
    ensures forall j :: 0 <= j < |cart| && cart[j].cartId != cart[i].cartId ==> r[j] == cart[j]
  {
    UpdateQuantityKeepsPriced(cart, cart[i].cartId, cart[i].item.quantity + 1);
    RescaledAtUnitPrice(cart, i, cart[i].item.quantity + 1);
    ShiftOne(UnitPrice(cart[i].item), cart[i].item.quantity, 1);
    UpdateQuantity(cart, cart[i].cartId, cart[i].item.quantity + 1)
  }

  /** + then − on a line with distinct stamps gives the cart back. */
  lemma PlusThenMinus(cart: seq<CartLine>, i: int)
    requires AllPriced(cart) && CartIdsUnique(cart) && 0 <= i < |cart|
    ensures MinusPressed(PlusPressed(cart, i), i) == cart
  {
    var up := PlusPressed(cart, i);
    var down := MinusPressed(up, i);
    assert up[i].cartId == cart[i].cartId;
    assert up[i].item == cart[i].item.(quantity := up[i].item.quantity, totalPrice := up[i].item.totalPrice);
    assert |down| == |cart|;
    forall j | 0 <= j < |cart| ensures down[j] == cart[j] {
      if j != i {
        assert cart[j].cartId != cart[i].cartId;
        assert up[j] == cart[j];
      }
    }
  }

  /** `cartItems.length === 0`: the page shows "Your cart is empty" instead of the lines and the checkout button. */
  predicate ShowsEmptyState(cart: seq<CartLine>) {
    |cart| == 0
  }

  /** Pressing − on the only line, at quantity 1, leaves the empty state. */
  lemma MinusOnLastPieceEmpties(line: CartLine)
    requires Priced(line.item) && line.item.quantity == 1
    ensures ShowsEmptyState(MinusPressed([line], 0))
  {
    var r := MinusPressed([line], 0);
    assert line !in r;
  }

  // ---------------------------------------------------------------------------
  // Checkout
  // ---------------------------------------------------------------------------

  const OrderPlacedAlert := "Order placed successfully!"

  /**
    The page: the cart, the `isCheckingOut` flag, whether the 1.5 s checkout
    timer is pending, the alerts shown so far and the current route.
   */
  datatype Page = Page(cart: seq<CartLine>, checkingOut: bool, timerPending: bool, alerts: seq<string>, route: string)

  function Open(cart: seq<CartLine>): Page {
    Page(cart, false, false, [], "/cart")
  }

  /** `disabled={isCheckingOut}` on the checkout button. */
  predicate CheckoutDisabled(p: Page) {
    p.checkingOut
  }

  /** A click on Checkout: ignored while there is no button (empty cart) or it is disabled; otherwise `handleCheckout`. */
  function ClickCheckout(p: Page): (r: Page)
    ensures ShowsEmptyState(p.cart) || CheckoutDisabled(p) ==> r == p
    ensures !ShowsEmptyState(p.cart) && !CheckoutDisabled(p) ==>
      r == p.(checkingOut := true, timerPending := true)
  {
    if |p.cart| == 0 || p.checkingOut then p
    else p.(checkingOut := true, timerPending := true)
  }

  /** The checkout timer firing: alert, `clearCart()`, flag off, back to the menu. */
  function TimerFires(p: Page): (r: Page)
    ensures !p.timerPending ==> r == p
    ensures p.timerPending ==>
      && ShowsEmptyState(r.cart)
      && !CheckoutDisabled(r) && !r.timerPending
      && r.alerts == p.alerts + [OrderPlacedAlert]
      && r.route == "/"
  {
    if !p.timerPending then p
    else Page(ClearCart(p.cart), false, false, p.alerts + [OrderPlacedAlert], "/")
  }

  /** The checkout flag is on exactly while the timer is pending. */
  predicate FlagTracksTimer(p: Page) {
    p.checkingOut == p.timerPending
  }

  lemma CheckoutKeepsFlagTracking(p: Page)
    requires FlagTracksTimer(p)
    ensures FlagTracksTimer(ClickCheckout(p)) && FlagTracksTimer(TimerFires(p))
  {
  }

  /** A second click while processing changes nothing, so one checkout places one order. */
  lemma DoubleClickIgnored(p: Page)
    ensures ClickCheckout(ClickCheckout(p)) == ClickCheckout(p)
  {
  }

  /** A full checkout from a non-empty cart: one alert, an empty cart, the button enabled again, the menu shown. */
  lemma CheckoutFlow(cart: seq<CartLine>)
    requires |cart| > 0
    ensures var p := TimerFires(ClickCheckout(Open(cart)));
      p.cart == [] && !p.checkingOut && p.alerts == [OrderPlacedAlert] && p.route == "/"
      && GetTotalPrice(p.cart) == "0.00"
  {
  }

  // ---------------------------------------------------------------------------
  // A cart driven only through the client's screens
  // ---------------------------------------------------------------------------

  /** What a customer can do to the cart: add from the menu through the modal, remove, change a quantity, check out. */
  datatype CartOp =
    | AddFromMenu(menuIndex: int, events: seq<ProductModal.ModalEvent>, now: int)
    | Remove(cartId: int)
    | Update(cartId: int, quantity: int)
    | Clear

  predicate MenuIdsUnique(menu: seq<MenuItem>) {
    forall i, j :: 0 <= i < j < |menu| ==> menu[i].id != menu[j].id
  }

  /** The line's base price is the menu's price for its id, and its modifications come from the modal's catalogue. */
  predicate FromMenu(menu: seq<MenuItem>, item: LineItem) {
    && (exists j :: 0 <= j < |menu| && menu[j].id == item.id && menu[j].price == item.price)
    && ProductModal.FromCatalog(item.modifications)
  }

  predicate Healthy(menu: seq<MenuItem>, cart: seq<CartLine>) {
    && AllPriced(cart)
    && forall i :: 0 <= i < |cart| ==> FromMenu(menu, cart[i].item)
  }

  predicate OpValid(menu: seq<MenuItem>, op: CartOp) {
    op.AddFromMenu? ==> 0 <= op.menuIndex < |menu|
  }

  /** Lines from one menu with the same key cost the same per piece. */
  lemma MatchingLinesSameUnitPrice(menu: seq<MenuItem>, a: LineItem, b: LineItem)
    requires MenuIdsUnique(menu)
    requires FromMenu(menu, a) && FromMenu(menu, b)
    requires Matches(a, b)
    ensures UnitPrice(a) == UnitPrice(b)
  {
    MatchesIffSameKey(a, b);
    ProductModal.SameIdsSameMods(a.modifications, b.modifications);
    SameIdSamePrice(menu, a, b);
  }

  /** Two lines carrying the same menu id carry that item's price. */
  lemma SameIdSamePrice(menu: seq<MenuItem>, a: LineItem, b: LineItem)
    requires MenuIdsUnique(menu)
    requires FromMenu(menu, a) && FromMenu(menu, b)
    requires a.id == b.id
    ensures a.price == b.price
  {
    var ja :| 0 <= ja < |menu| && menu[ja].id == a.id && menu[ja].price == a.price;
    var jb :| 0 <= jb < |menu| && menu[jb].id == b.id && menu[jb].price == b.price;
    assert ja == jb;
  }

  /** The candidate the modal builds for menu item `j` after `events`. */
  function Candidate(menu: seq<MenuItem>, j: int, events: seq<ProductModal.ModalEvent>): (c: LineItem)
    requires 0 <= j < |menu|
    ensures Priced(c) && FromMenu(menu, c)
  {
    var s := ProductModal.Run(ProductModal.Opened, events);
    ProductModal.OpenedIsConsistent();
    ProductModal.RunKeepsConsistent(ProductModal.Opened, events);
    ProductModal.CandidatePriced(menu[j], s);
    ProductModal.CandidateFromCatalog(menu[j], s);
    ProductModal.BuildCandidate(menu[j], s)
  }

  lemma AddKeepsHealthy(menu: seq<MenuItem>, cart: seq<CartLine>, c: LineItem, now: int)
    requires MenuIdsUnique(menu) && Healthy(menu, cart)
    requires Priced(c) && FromMenu(menu, c)
    ensures Healthy(menu, AddToCart(cart, c, now))
  {
    forall i | 0 <= i < |cart| && Matches(cart[i].item, c)
      ensures UnitPrice(cart[i].item) == UnitPrice(c)
    {
      MatchingLinesSameUnitPrice(menu, cart[i].item, c);
    }
    AddToCartKeepsPriced(cart, c, now);
    var r := AddToCart(cart, c, now);
    var k := FindMatch(cart, c);
    forall i | 0 <= i < |r| ensures FromMenu(menu, r[i].item) {
      if k == -1 {
        assert r == cart + [CartLine(now, c)];
        if i < |cart| {
          assert r[i] == cart[i];
        }
      } else {
        assert IsFirstMatch(cart, c, k);
        if i != k {
          assert r[i] == cart[i];
        } else {
          assert FromMenu(menu, cart[k].item);
          assert r[k].item.id == cart[k].item.id && r[k].item.price == cart[k].item.price;
          assert r[k].item.modifications == cart[k].item.modifications;
        }
      }
    }
  }

  lemma RemoveKeepsHealthy(menu: seq<MenuItem>, cart: seq<CartLine>, cartId: int)
    requires Healthy(menu, cart)
    ensures Healthy(menu, RemoveFromCart(cart, cartId))
  {
    RemoveKeepsPriced(cart, cartId);
    var r := RemoveFromCart(cart, cartId);
    forall i | 0 <= i < |r| ensures FromMenu(menu, r[i].item) {
      assert r[i] in cart;
      var j :| 0 <= j < |cart| && cart[j] == r[i];
    }
  }

  lemma UpdateKeepsHealthy(menu: seq<MenuItem>, cart: seq<CartLine>, cartId: int, n: int)
    requires Healthy(menu, cart)
    requires n >= 1 ==> forall i :: 0 <= i < |cart| && cart[i].cartId == cartId ==> UnitExact(cart[i].item)
    ensures Healthy(menu, UpdateQuantity(cart, cartId, n))
  {
    UpdateQuantityKeepsPriced(cart, cartId, n);
    if n < 1 {
      RemoveKeepsHealthy(menu, cart, cartId);
    } else {
      var r := UpdateQuantity(cart, cartId, n);
      forall i | 0 <= i < |r| ensures FromMenu(menu, r[i].item) {
        assert FromMenu(menu, cart[i].item);
        if cart[i].cartId == cartId {
          assert r[i].item.id == cart[i].item.id && r[i].item.price == cart[i].item.price;
          assert r[i].item.modifications == cart[i].item.modifications;
        } else {
          assert r[i] == cart[i];
        }
      }
    }
  }

  function Step(menu: seq<MenuItem>, cart: seq<CartLine>, op: CartOp): (r: seq<CartLine>)
    requires MenuIdsUnique(menu) && Healthy(menu, cart) && OpValid(menu, op)
    ensures Healthy(menu, r)
  {
    match op
    case AddFromMenu(j, events, now) =>
      var c := Candidate(menu, j, events);
      AddKeepsHealthy(menu, cart, c, now);
      AddToCart(cart, c, now)
    case Remove(cartId) =>
      RemoveKeepsHealthy(menu, cart, cartId);
      RemoveFromCart(cart, cartId)
    case Update(cartId, n) =>
      UpdateQuantityKeepsPriced(cart, cartId, n);
      UpdateKeepsHealthy(menu, cart, cartId, n);
      UpdateQuantity(cart, cartId, n)
    case Clear => ClearCart(cart)
  }

  /**
    Any sequence of the customer's actions, from an empty cart, leaves a cart
    whose subtotal and additions add up to the total it reports.
   */
  function Replay(menu: seq<MenuItem>, cart: seq<CartLine>, ops: seq<CartOp>): (r: seq<CartLine>)
    requires MenuIdsUnique(menu) && Healthy(menu, cart)
    requires forall k :: 0 <= k < |ops| ==> OpValid(menu, ops[k])
    ensures Healthy(menu, r)
    ensures Subtotal(r) + Additions(r) == TotalCents(r)
    decreases |ops|
  {
    if |ops| == 0 then
      SubtotalPlusAdditions(cart);
      cart
    else
      Replay(menu, Step(menu, cart, ops[0]), ops[1..])
  }

  lemma MenuDataIdsUnique()
    ensures MenuIdsUnique(MenuData)
  {
  }

  /**
    A cart read back from storage, absent or saved from a healthy session,
    keeps a consistent breakdown through anything the customer does next.
   */
  lemma ReloadedCartBreakdown(saved: Option<seq<CartLine>>, ops: seq<CartOp>)
    requires saved.Some? ==> Healthy(MenuData, saved.value)
    requires forall k :: 0 <= k < |ops| ==> OpValid(MenuData, ops[k])
    ensures MenuIdsUnique(MenuData) && Healthy(MenuData, LoadCart(saved))
    ensures var r := Replay(MenuData, LoadCart(saved), ops);
      Subtotal(r) + Additions(r) == TotalCents(r)
  {
    MenuDataIdsUnique();
  }

  /**
    A session on the shipped menu, a reload of the page, and a second session
    on the cart read back: the breakdown is consistent at the end.
   */
  lemma SessionAcrossReload(before: seq<CartOp>, after: seq<CartOp>)
    requires forall k :: 0 <= k < |before| ==> OpValid(MenuData, before[k])
    requires forall k :: 0 <= k < |after| ==> OpValid(MenuData, after[k])
    ensures MenuIdsUnique(MenuData)
    ensures var first := Replay(MenuData, [], before);
      var r := Replay(MenuData, LoadCart(SaveCart(first)), after);
      Subtotal(r) + Additions(r) == TotalCents(r)
  {
    MenuDataIdsUnique();
    var first := Replay(MenuData, [], before);
    ReloadedCartBreakdown(SaveCart(first), after);
  }

  /** On the shipped menu, every cart the customer can build shows a consistent breakdown. */
  lemma ShippedMenuBreakdown(ops: seq<CartOp>)
    requires forall k :: 0 <= k < |ops| ==> OpValid(MenuData, ops[k])
    ensures MenuIdsUnique(MenuData)
    ensures var r := Replay(MenuData, [], ops);
      Subtotal(r) + Additions(r) == TotalCents(r)
  {
    MenuDataIdsUnique();
  }
}
