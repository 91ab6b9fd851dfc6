/**
  The cart engine (`CartContext`): an ordered sequence of cart lines with a
  merge rule for lines that describe the same order, and the aggregates the
  summary and the cart page display. Persistence to device storage is the
  identity on the line sequence here (see `LoadCart`).
 */
module Cart {
  import opened Seqs
  import opened Sorting
  import opened Catalog
  import Money

  /** What a customer orders: a menu item configured with quantity, modifications and instructions. */
  datatype LineItem = LineItem(
    id: int,
    name: string,
    category: string,
    price: int,
    quantity: int,
    modifications: seq<Modification>,
    instructions: string,
    totalPrice: int)

  /** A line of the cart: a line item stamped with the time it was first added. */
  datatype CartLine = CartLine(cartId: int, item: LineItem)

  // ---------------------------------------------------------------------------
  // The merge rule
  // ---------------------------------------------------------------------------

  /** The modification ids in ascending order, as the merge test compares them. */
  function SortedModIds(mods: seq<Modification>): seq<int> {
    IntLeIsTotalOrder();
    SortBy(ModIds(mods), IntLe)
  }

  /**
    The `findIndex` test of `addToCart`: same menu item, the very same
    instructions, and the sorted lists of modification ids equal element by
    element.
   */
  predicate Matches(a: LineItem, b: LineItem) {
    && a.id == b.id
    && a.instructions == b.instructions
    && SortedModIds(a.modifications) == SortedModIds(b.modifications)
  }

  /** Two lines match exactly when they share the id, the instructions and the multiset of modification ids. */
  lemma MatchesIffSameKey(a: LineItem, b: LineItem)
    ensures Matches(a, b) <==>
      && a.id == b.id
      && a.instructions == b.instructions
      && multiset(ModIds(a.modifications)) == multiset(ModIds(b.modifications))
  {
    IntLeIsTotalOrder();
    SortEqualIffSameMultiset(ModIds(a.modifications), ModIds(b.modifications), IntLe);
  }

  /** Matching is an equivalence, so "the line for this key" is well defined. */
  lemma MatchesIsEquivalence(a: LineItem, b: LineItem, c: LineItem)
    ensures Matches(a, a)
    ensures Matches(a, b) ==> Matches(b, a)
    ensures Matches(a, b) && Matches(b, c) ==> Matches(a, c)
  {
    MatchesIffSameKey(a, b);
    MatchesIffSameKey(b, a);
    MatchesIffSameKey(b, c);
    MatchesIffSameKey(a, c);
  }

  /** No two lines of the cart share a merge key. */
  predicate KeysUnique(cart: seq<CartLine>) {
    forall i, j :: 0 <= i < j < |cart| ==> !Matches(cart[i].item, cart[j].item)
  }

  predicate CartIdsUnique(cart: seq<CartLine>) {
    forall i, j :: 0 <= i < j < |cart| ==> cart[i].cartId != cart[j].cartId
  }

  predicate IsFirstMatch(cart: seq<CartLine>, item: LineItem, k: int) {
    && 0 <= k < |cart|
    && Matches(cart[k].item, item)
    && forall i :: 0 <= i < k ==> !Matches(cart[i].item, item)
  }

  function FindMatchFrom(cart: seq<CartLine>, item: LineItem, from: nat): (k: int)
    requires from <= |cart|
    ensures k == -1 || from <= k < |cart|
    ensures k == -1 <==> forall i :: from <= i < |cart| ==> !Matches(cart[i].item, item)
    ensures k != -1 ==> Matches(cart[k].item, item) && forall i :: from <= i < k ==> !Matches(cart[i].item, item)
    decreases |cart| - from
  {
    if from == |cart| then -1
    else if Matches(cart[from].item, item) then from
    else FindMatchFrom(cart, item, from + 1)
  }

  /** `cartItems.findIndex(...)`: the first matching line, or -1. */
  function FindMatch(cart: seq<CartLine>, item: LineItem): (k: int)
    ensures k == -1 <==> forall i :: 0 <= i < |cart| ==> !Matches(cart[i].item, item)
    ensures k != -1 ==> IsFirstMatch(cart, item, k)
  {
    FindMatchFrom(cart, item, 0)
  }

  /** The matched line with the candidate's quantity and total price added to its own. */
  function Merge(line: CartLine, item: LineItem): CartLine {
    line.(item := line.item.(
      quantity := line.item.quantity + item.quantity,
      totalPrice := line.item.totalPrice + item.totalPrice))
  }

  // ---------------------------------------------------------------------------
  // Operations
  // ---------------------------------------------------------------------------

  /**
    `addToCart(item)`: merge into the first matching line, or append the
    candidate stamped with `now` (the `Date.now()` of the call).
   */
  function AddToCart(cart: seq<CartLine>, item: LineItem, now: int): (r: seq<CartLine>)
    ensures (forall i :: 0 <= i < |cart| ==> !Matches(cart[i].item, item)) ==>
      r == cart + [CartLine(now, item)]
    ensures forall k :: IsFirstMatch(cart, item, k) ==>
      && |r| == |cart|
      && r[k].cartId == cart[k].cartId
      && r[k].item == cart[k].item.(
           quantity := cart[k].item.quantity + item.quantity,
           totalPrice := cart[k].item.totalPrice + item.totalPrice)
      && forall i :: 0 <= i < |cart| && i != k ==> r[i] == cart[i]
  {
    var k := FindMatch(cart, item);
    if k == -1 then cart + [CartLine(now, item)]
    else cart[k := Merge(cart[k], item)]
  }

  /** `removeFromCart(cartId)`: keep every line stamped differently, in order. */
  function RemoveFromCart(cart: seq<CartLine>, cartId: int): (r: seq<CartLine>)
    ensures forall l :: l in r <==> l in cart && l.cartId != cartId
    ensures forall l :: multiset(r)[l] == if l.cartId != cartId then multiset(cart)[l] else 0
    ensures IsSubseq(r, cart)
    ensures (forall i :: 0 <= i < |cart| ==> cart[i].cartId != cartId) ==> r == cart
  {
    FilterCount(cart, OtherLine(cartId));
    Filter(cart, OtherLine(cartId))
  }

  function OtherLine(cartId: int): CartLine -> bool {
    (l: CartLine) => l.cartId != cartId
  }

  /** The line's total price is a whole multiple of its quantity, so its unit price is exact in cents. */
  predicate UnitExact(item: LineItem) {
    item.quantity >= 1 && item.totalPrice % item.quantity == 0
  }

  /** The line at its unit price `totalPrice / quantity`, taken `n` times. */
  function Rescale(line: CartLine, n: int): CartLine
    requires UnitExact(line.item)
  {
    var unitPrice := line.item.totalPrice / line.item.quantity;
    line.(item := line.item.(quantity := n, totalPrice := unitPrice * n))
  }

  /**
    `updateQuantity(cartId, n)`: below 1 the line is removed; otherwise every
    line with that stamp takes quantity `n` at its unchanged unit price.
   */
  function UpdateQuantity(cart: seq<CartLine>, cartId: int, n: int): (r: seq<CartLine>)
    requires n >= 1 ==> forall i :: 0 <= i < |cart| && cart[i].cartId == cartId ==> UnitExact(cart[i].item)
    ensures n < 1 ==> r == RemoveFromCart(cart, cartId)
    ensures n >= 1 ==> |r| == |cart|
    ensures n >= 1 ==> forall i :: 0 <= i < |cart| && cart[i].cartId != cartId ==> r[i] == cart[i]
    ensures n >= 1 ==> forall i :: 0 <= i < |cart| && cart[i].cartId == cartId ==>
      && r[i].cartId == cartId
      && r[i].item.quantity == n
      && r[i].item.totalPrice * cart[i].item.quantity == cart[i].item.totalPrice * n
      && r[i].item == cart[i].item.(quantity := n, totalPrice := r[i].item.totalPrice)
  {
    if n < 1 then RemoveFromCart(cart, cartId)
    else
      var r := RescaleStamped(cart, cartId, n);
      RescaleStampedKeepsUnitPrice(cart, cartId, n, r);
      r
  }

  /** The `map` of `updateQuantity`: stamped lines rescaled, the others as they were. */
  function RescaleStamped(cart: seq<CartLine>, cartId: int, n: int): (r: seq<CartLine>)
    requires forall i :: 0 <= i < |cart| ==> cart[i].cartId == cartId ==> UnitExact(cart[i].item)
    ensures |r| == |cart|
    ensures forall i :: 0 <= i < |cart| ==>
      r[i] == if cart[i].cartId == cartId then Rescale(cart[i], n) else cart[i]
  {
    if |cart| == 0 then []
    else
      var last := cart[|cart| - 1];
      RescaleStamped(cart[..|cart| - 1], cartId, n) + [if last.cartId == cartId then Rescale(last, n) else last]
  }

  lemma RescaleStampedKeepsUnitPrice(cart: seq<CartLine>, cartId: int, n: int, r: seq<CartLine>)
    requires forall i :: 0 <= i < |cart| && cart[i].cartId == cartId ==> UnitExact(cart[i].item)
    requires r == RescaleStamped(cart, cartId, n)
    ensures forall i :: 0 <= i < |cart| && cart[i].cartId == cartId ==>
      r[i].item.totalPrice * cart[i].item.quantity == cart[i].item.totalPrice * n
  {
    forall i | 0 <= i < |cart| && cart[i].cartId == cartId
      ensures r[i].item.totalPrice * cart[i].item.quantity == cart[i].item.totalPrice * n
    {
      var t, q := cart[i].item.totalPrice, cart[i].item.quantity;
      ExactQuotient(t, q);
      assert r[i].item.totalPrice == (t / q) * n;
      Reassociate(t / q, n, q);
    }
  }

  lemma ExactQuotient(t: int, q: int)
    requires q >= 1 && t % q == 0
    ensures (t / q) * q == t
  {
  }

  lemma Reassociate(a: int, n: int, q: int)
    ensures (a * n) * q == (a * q) * n
  {
  }

  function LineQuantity(l: CartLine): int {
    l.item.quantity
  }

  function LineTotal(l: CartLine): int {
    l.item.totalPrice
  }

  /** `getTotalItems()`: the badge count. */
  function TotalItems(cart: seq<CartLine>): int {
    SumBy(cart, LineQuantity)
  }

  /** The sum behind `getTotalPrice()`, in cents. */
  function TotalCents(cart: seq<CartLine>): int {
    SumBy(cart, LineTotal)
  }

  /** `getTotalPrice()`: the total rendered with two decimals. */
  function GetTotalPrice(cart: seq<CartLine>): (s: string)
    ensures Money.ParseCents(s) == Some(TotalCents(cart))
  {
    Money.FormatCentsRoundTrip(TotalCents(cart));
    Money.FormatCents(TotalCents(cart))
  }

  /** `clearCart()`. */
  function ClearCart(cart: seq<CartLine>): (r: seq<CartLine>)
    ensures |r| == 0
    ensures TotalItems(r) == 0
    ensures GetTotalPrice(r) == "0.00"
  {
    Money.FormatExamples();
    []
  }

  /**
    The cart's initial state: the saved lines when the `cart` key is present,
    otherwise an empty cart. Decoding the JSON text is not modelled, so the
    saved value is the line sequence that was written.
   */
  function LoadCart(saved: Option<seq<CartLine>>): (r: seq<CartLine>)
    ensures saved.None? ==> r == []
    ensures saved.Some? ==> r == saved.value
  {
    match saved
    case None => []
    case Some(lines) => lines
  }

  /** The effect that writes the cart to storage on every change. */
  function SaveCart(cart: seq<CartLine>): (r: Option<seq<CartLine>>)
    ensures r.Some?
    ensures LoadCart(r) == cart
  {
    Some(cart)
  }

  // ---------------------------------------------------------------------------
  // Properties of the operations
  // ---------------------------------------------------------------------------

  /** Every add raises the item count by the candidate's quantity and the total by its price. */
  lemma AddToCartTotals(cart: seq<CartLine>, item: LineItem, now: int)
    ensures TotalItems(AddToCart(cart, item, now)) == TotalItems(cart) + item.quantity
    ensures TotalCents(AddToCart(cart, item, now)) == TotalCents(cart) + item.totalPrice
  {
    var k := FindMatch(cart, item);
    if k == -1 {
      SumByAppend(cart, CartLine(now, item), LineQuantity);
      SumByAppend(cart, CartLine(now, item), LineTotal);
    } else {
      SumByUpdate(cart, k, Merge(cart[k], item), LineQuantity);
      SumByUpdate(cart, k, Merge(cart[k], item), LineTotal);
    }
  }

  /** Adding never creates a second line for a merge key. */
  lemma AddToCartKeepsKeysUnique(cart: seq<CartLine>, item: LineItem, now: int)
    requires KeysUnique(cart)
    ensures KeysUnique(AddToCart(cart, item, now))
  {
    var r := AddToCart(cart, item, now);
    var k := FindMatch(cart, item);
    if k != -1 {
      forall i, j | 0 <= i < j < |r| ensures !Matches(r[i].item, r[j].item) {
        assert Matches(r[i].item, r[j].item) == Matches(cart[i].item, cart[j].item);
      }
    }
  }

  /** With a fresh stamp, adding keeps the stamps distinct. */
  lemma AddToCartKeepsCartIdsUnique(cart: seq<CartLine>, item: LineItem, now: int)
    requires CartIdsUnique(cart)
    requires forall i :: 0 <= i < |cart| ==> cart[i].cartId != now
    ensures CartIdsUnique(AddToCart(cart, item, now))
  {
  }

  /** In a cart with unique keys, the line a candidate merges into is the only line it matches. */
  lemma OnlyMatchingLine(cart: seq<CartLine>, item: LineItem, i: int, j: int)
    requires KeysUnique(cart)
    requires 0 <= i < |cart| && 0 <= j < |cart|
    requires Matches(cart[i].item, item) && Matches(cart[j].item, item)
    ensures i == j
  {
    if i < j {
      MatchesIsEquivalence(cart[j].item, item, cart[j].item);
      MatchesIsEquivalence(cart[i].item, item, cart[j].item);
    } else if j < i {
      MatchesIsEquivalence(cart[i].item, item, cart[i].item);
      MatchesIsEquivalence(cart[j].item, item, cart[i].item);
    }
  }

  /**
    The merge law: two candidates with the same key make one line whose
    quantity and total are the sums; candidates with different keys make two.
   */
  lemma MergeLaw(a: LineItem, b: LineItem, t1: int, t2: int)
    ensures Matches(a, b) ==>
      AddToCart(AddToCart([], a, t1), b, t2) ==
        [CartLine(t1, a.(quantity := a.quantity + b.quantity, totalPrice := a.totalPrice + b.totalPrice))]
    ensures !Matches(a, b) ==>
      AddToCart(AddToCart([], a, t1), b, t2) == [CartLine(t1, a), CartLine(t2, b)]
  {
    var one := AddToCart([], a, t1);
    assert one == [CartLine(t1, a)];
    if Matches(a, b) {
      SecondMerges(a, b, t1, t2);
    } else {
      SecondAppends(a, b, t1, t2);
    }
  }

  lemma SecondMerges(a: LineItem, b: LineItem, t1: int, t2: int)
    requires Matches(a, b)
    ensures AddToCart([CartLine(t1, a)], b, t2) ==
      [CartLine(t1, a.(quantity := a.quantity + b.quantity, totalPrice := a.totalPrice + b.totalPrice))]
  {
    var cart := [CartLine(t1, a)];
    assert cart[0].item == a;
    assert IsFirstMatch(cart, b, 0);
    var r := AddToCart(cart, b, t2);
    assert |r| == 1;
    assert r[0] == CartLine(t1, a.(quantity := a.quantity + b.quantity, totalPrice := a.totalPrice + b.totalPrice));
  }

  lemma SecondAppends(a: LineItem, b: LineItem, t1: int, t2: int)
    requires !Matches(a, b)
    ensures AddToCart([CartLine(t1, a)], b, t2) == [CartLine(t1, a), CartLine(t2, b)]
  {
  }

  /** Removing a stamp that occurs once removes exactly that line. */
  lemma RemoveUniqueLine(cart: seq<CartLine>, k: int)
    requires CartIdsUnique(cart)
    requires 0 <= k < |cart|
    ensures RemoveFromCart(cart, cart[k].cartId) == cart[..k] + cart[k + 1..]
  {
    RemoveOnlyLine(cart, k, cart[k].cartId);
  }

  lemma RemoveOnlyLine(cart: seq<CartLine>, k: int, c: int)
    requires 0 <= k < |cart| && cart[k].cartId == c
    requires forall i :: 0 <= i < |cart| && i != k ==> cart[i].cartId != c
    ensures RemoveFromCart(cart, c) == cart[..k] + cart[k + 1..]
  {
    FilterDropsOnlyAt(cart, OtherLine(c), k);
  }

  /** Removing a line takes its quantity and total out of the aggregates. */
  lemma RemoveUniqueLineTotals(cart: seq<CartLine>, k: int)
    requires CartIdsUnique(cart)
    requires 0 <= k < |cart|
    ensures TotalItems(RemoveFromCart(cart, cart[k].cartId)) == TotalItems(cart) - cart[k].item.quantity
    ensures TotalCents(RemoveFromCart(cart, cart[k].cartId)) == TotalCents(cart) - cart[k].item.totalPrice
  {
    RemoveUniqueLine(cart, k);
    SplicedTotals(cart, k);
  }

  /** Cutting line `k` out of a cart takes its quantity and total out of the aggregates. */
  lemma SplicedTotals(cart: seq<CartLine>, k: int)
    requires 0 <= k < |cart|
    ensures TotalItems(cart[..k] + cart[k + 1..]) == TotalItems(cart) - cart[k].item.quantity
    ensures TotalCents(cart[..k] + cart[k + 1..]) == TotalCents(cart) - cart[k].item.totalPrice
  {
    assert cart == cart[..k] + [cart[k]] + cart[k + 1..];
    SumByConcat(cart[..k] + [cart[k]], cart[k + 1..], LineQuantity);
    SumByConcat(cart[..k] + [cart[k]], cart[k + 1..], LineTotal);
    SumByConcat(cart[..k], cart[k + 1..], LineQuantity);
    SumByConcat(cart[..k], cart[k + 1..], LineTotal);
    SumByAppend(cart[..k], cart[k], LineQuantity);
    SumByAppend(cart[..k], cart[k], LineTotal);
  }

  /** The cart test: one Pasta Puttanesca at 15.49 raised to two shows 30.98. */
  lemma UpdateQuantityExample(line: LineItem)
    requires line.quantity == 1 && line.totalPrice == 1549
    ensures var r := UpdateQuantity([CartLine(7, line)], 7, 2);
      r[0].item.totalPrice == 3098 && GetTotalPrice(r) == "30.98"
  {
    var r := UpdateQuantity([CartLine(7, line)], 7, 2);
    assert r == [CartLine(7, line.(quantity := 2, totalPrice := 3098))];
    Money.FormatExamples();
    assert r == [] + [r[0]];
    SumByAppend([], r[0], LineTotal);
  }

  // ---------------------------------------------------------------------------
  // The pricing invariant: every line costs (base price + modifications) × quantity
  // ---------------------------------------------------------------------------

  function UnitPrice(item: LineItem): int {
    item.price + ModsTotal(item.modifications)
  }

  predicate Priced(item: LineItem) {
    item.quantity >= 1 && item.totalPrice == UnitPrice(item) * item.quantity
  }

  predicate AllPriced(cart: seq<CartLine>) {
    forall i :: 0 <= i < |cart| ==> Priced(cart[i].item)
  }

  /** Euclidean division of a whole multiple is exact. */
  lemma MultipleDividesExactly(u: int, q: int)
    requires q >= 1
    ensures (u * q) % q == 0 && (u * q) / q == u
  {
    var d, m := (u * q) / q, (u * q) % q;
    assert u * q == d * q + m && 0 <= m < q;
    assert (u - d) * q == m;
    ProductBounds(u - d, q);
  }

  lemma ProductBounds(x: int, q: int)
    requires q >= 1
    ensures x >= 1 ==> x * q >= q
    ensures x <= -1 ==> x * q <= -q
  {
  }

  lemma PricedIsUnitExact(item: LineItem)
    requires Priced(item)
    ensures UnitExact(item)
    ensures item.totalPrice / item.quantity == UnitPrice(item)
  {
    MultipleDividesExactly(UnitPrice(item), item.quantity);
  }

  /**
    A priced candidate added to a priced cart keeps every line priced,
    provided a line it merges into has the same unit price.
   */
  lemma AddToCartKeepsPriced(cart: seq<CartLine>, item: LineItem, now: int)
    requires AllPriced(cart) && Priced(item)
    requires forall i :: 0 <= i < |cart| && Matches(cart[i].item, item) ==> UnitPrice(cart[i].item) == UnitPrice(item)
    ensures AllPriced(AddToCart(cart, item, now))
  {
    var r := AddToCart(cart, item, now);
    var k := FindMatch(cart, item);
    if k == -1 {
      assert r == cart + [CartLine(now, item)];
      forall i | 0 <= i < |r| ensures Priced(r[i].item) {
        if i < |cart| {
          assert r[i] == cart[i];
        }
      }
    } else {
      assert r == cart[k := Merge(cart[k], item)];
      MergeKeepsPriced(cart[k], item);
      forall i | 0 <= i < |r| ensures Priced(r[i].item) {
        if i != k {
          assert r[i] == cart[i];
        }
      }
    }
  }

  lemma MergeKeepsPriced(line: CartLine, item: LineItem)
    requires Priced(line.item) && Priced(item)
    requires UnitPrice(line.item) == UnitPrice(item)
    ensures Priced(Merge(line, item).item)
  {
    var u := UnitPrice(item);
    Distribute(u, line.item.quantity, item.quantity);
  }

  lemma Distribute(u: int, a: int, b: int)
    ensures u * a + u * b == u * (a + b)
  {
  }

  lemma RemoveKeepsPriced(cart: seq<CartLine>, cartId: int)
    requires AllPriced(cart)
    ensures AllPriced(RemoveFromCart(cart, cartId))
  {
    var r := RemoveFromCart(cart, cartId);
    forall i | 0 <= i < |r| ensures Priced(r[i].item) {
      assert r[i] in cart;
    }
  }

  lemma UpdateQuantityKeepsPriced(cart: seq<CartLine>, cartId: int, n: int)
    requires AllPriced(cart)
    ensures n >= 1 ==> forall i :: 0 <= i < |cart| && cart[i].cartId == cartId ==> UnitExact(cart[i].item)
    ensures AllPriced(UpdateQuantity(cart, cartId, n))
  {
    if n < 1 {
      RemoveKeepsPriced(cart, cartId);
    } else {
      forall i | 0 <= i < |cart| && cart[i].cartId == cartId ensures UnitExact(cart[i].item) {
        PricedIsUnitExact(cart[i].item);
      }
      var r := UpdateQuantity(cart, cartId, n);
      assert r == RescaleStamped(cart, cartId, n);
      forall i | 0 <= i < |r| ensures Priced(r[i].item) {
        if cart[i].cartId == cartId {
          PricedIsUnitExact(cart[i].item);
          assert r[i] == Rescale(cart[i], n);
          assert UnitPrice(r[i].item) == UnitPrice(cart[i].item);
        } else {
          assert r[i] == cart[i];
        }
      }
    }
  }
}
