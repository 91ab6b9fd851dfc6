/**
  The kitchen portal (`KitchenPortal`): orders move through
  Pending → Preparing → Completed, each move is sent to the endpoint that
  belongs to the target status, and after a successful move the list is
  fetched again rather than patched. The list is shown by status, then
  newest first; a status-filtered fetch keeps only orders with food.
  Every HTTP exchange is abstracted to its outcome, given as a parameter.
 */
module KitchenPortal {
  import opened Seqs
  import opened Sorting

  datatype Status = Pending | Preparing | Completed

  /** `statusPriority` in the comparator of `sortedOrders`. */
  function Rank(s: Status): (r: nat)
    ensures r <= 2
  {
    match s
    case Pending => 0
    case Preparing => 1
    case Completed => 2
  }

  lemma RankIsInjective(a: Status, b: Status)
    ensures Rank(a) == Rank(b) <==> a == b
  {
  }

  /** `getNextStatus`: one step forward; Completed stays. */
  function NextStatus(s: Status): (r: Status)
    ensures s != Completed ==> Rank(r) == Rank(s) + 1
    ensures s == Completed ==> r == s
  {
    match s
    case Pending => Preparing
    case Preparing => Completed
    case Completed => Completed
  }

  /** `getPreviousStatus`: one step back; Pending stays. */
  function PreviousStatus(s: Status): (r: Status)
    ensures s != Pending ==> Rank(r) + 1 == Rank(s)
    ensures s == Pending ==> r == s
  {
    match s
    case Pending => Pending
    case Preparing => Pending
    case Completed => Preparing
  }

  /** The two moves undo each other wherever they move. */
  lemma NextPreviousInverse(s: Status)
    ensures s != Completed ==> PreviousStatus(NextStatus(s)) == s
    ensures s != Pending ==> NextStatus(PreviousStatus(s)) == s
  {
    if s != Completed {
      RankIsInjective(PreviousStatus(NextStatus(s)), s);
    }
    if s != Pending {
      RankIsInjective(NextStatus(PreviousStatus(s)), s);
    }
  }

  /** An order line; `kind` is the item's `type` ("Food", "Drink", ...). */
  datatype OrderItem = OrderItem(name: string, quantity: int, kind: string, modifications: string)

  datatype Order = Order(id: int, tableNumber: string, status: Status, timestamp: int, items: seq<OrderItem>)

  /** The Previous button is rendered only for an order that is not Pending. */
  predicate ShowsPrevious(o: Order) {
    o.status != Pending
  }

  /** The Next button is rendered only for an order that is not Completed. */
  predicate ShowsNext(o: Order) {
    o.status != Completed
  }

  /** Every move a button offers changes the rank by exactly one. */
  lemma OfferedMovesAreSingleSteps(o: Order)
    ensures ShowsNext(o) ==> Rank(NextStatus(o.status)) == Rank(o.status) + 1
    ensures ShowsPrevious(o) ==> Rank(PreviousStatus(o.status)) == Rank(o.status) - 1
    ensures ShowsNext(o) || ShowsPrevious(o)
  {
  }

  // ---------------------------------------------------------------------------
  // Ordering and filtering
  // ---------------------------------------------------------------------------

  /** The comparator of `sortedOrders`: lower rank first, and within a rank the newer first. */
  predicate KitchenBefore(a: Order, b: Order) {
    Rank(a.status) < Rank(b.status) || (Rank(a.status) == Rank(b.status) && a.timestamp >= b.timestamp)
  }

  lemma KitchenBeforeIsTotalPreorder()
    ensures TotalPreorder(KitchenBefore)
  {
  }

  function SortedOrders(orders: seq<Order>): (r: seq<Order>)
    ensures multiset(r) == multiset(orders)
    ensures forall i, j :: 0 <= i < j < |r| ==> Rank(r[i].status) <= Rank(r[j].status)
    ensures forall i, j :: 0 <= i < j < |r| && r[i].status == r[j].status ==> r[i].timestamp >= r[j].timestamp
  {
    KitchenBeforeIsTotalPreorder();
    var r := SortBy(orders, KitchenBefore);
    assert Sorted(r, KitchenBefore);
    r
  }

  predicate IsFood(item: OrderItem) {
    item.kind == "Food"
  }

  /** `order.items.some((item) => item.type === "Food")` */
  predicate HasFood(o: Order) {
    exists i :: 0 <= i < |o.items| && IsFood(o.items[i])
  }

  /** The filter in `fetchOrdersByStatus`: the orders with food, in the order the server sent them. */
  function FoodOnly(orders: seq<Order>): (r: seq<Order>)
    ensures forall o :: o in r <==> o in orders && HasFood(o)
    ensures forall o :: multiset(r)[o] == if HasFood(o) then multiset(orders)[o] else 0
    ensures IsSubseq(r, orders)
    ensures (forall i :: 0 <= i < |orders| ==> HasFood(orders[i])) ==> r == orders
  {
    FilterCount(orders, HasFood);
    Filter(orders, HasFood)
  }

  /** Filtering twice changes nothing more. */
  lemma FoodOnlyIdempotent(orders: seq<Order>)
    ensures FoodOnly(FoodOnly(orders)) == FoodOnly(orders)
  {
    var r := FoodOnly(orders);
    assert forall i :: 0 <= i < |r| ==> HasFood(r[i]) by {
      forall i | 0 <= i < |r| ensures HasFood(r[i]) {
        assert r[i] in r;
      }
    }
  }

  /** The status tabs: every order, or one status. */
  datatype StatusFilter = All | Only(status: Status)

  /**
    What a fetch for the tab puts in the list: `fetchOrders()` as sent, or
    `fetchOrdersByStatus(status)`, which keeps only the orders with food.
   */
  function View(filter: StatusFilter, response: seq<Order>): (r: seq<Order>)
    ensures filter == All ==> r == response
    ensures filter != All ==> r == FoodOnly(response)
  {
    if filter == All then response else FoodOnly(response)
  }

  /** `loadOrders`: a failed fetch empties the list. */
  function LoadOrders(filter: StatusFilter, response: Option<seq<Order>>): (r: seq<Order>)
    ensures response.None? ==> r == []
    ensures response.Some? ==> r == View(filter, response.value)
  {
    match response
    case None => []
    case Some(list) => View(filter, list)
  }

  // ---------------------------------------------------------------------------
  // Moving an order
  // ---------------------------------------------------------------------------

  /** The request `updateOrderStatus` sends. */
  datatype Request =
    | StartPreparation(orderId: int)   // POST {id}/start
    | CompleteOrder(orderId: int)      // POST {id}/complete
    | PutOrder(order: Order)           // PUT {id} with the order as body

  function Dispatch(order: Order, newStatus: Status): (r: Request)
    ensures newStatus == Preparing <==> r == StartPreparation(order.id)
    ensures newStatus == Completed <==> r == CompleteOrder(order.id)
    ensures newStatus == Pending <==> r == PutOrder(order.(status := Pending))
  {
    match newStatus
    case Preparing => StartPreparation(order.id)
    case Completed => CompleteOrder(order.id)
    case Pending => PutOrder(order.(status := Pending))
  }

  /** The order and status a request asks the server for. */
  function Target(r: Request): (int, Status) {
    match r
    case StartPreparation(id) => (id, Preparing)
    case CompleteOrder(id) => (id, Completed)
    case PutOrder(o) => (o.id, o.status)
  }

  /** Every dispatched request asks for exactly the order and the status the button chose. */
  lemma DispatchReachesTarget(order: Order, newStatus: Status)
    ensures Target(Dispatch(order, newStatus)) == (order.id, newStatus)
  {
  }

  /** The kitchen screen's state. */
  datatype Kitchen = Kitchen(
    orders: seq<Order>,
    selected: Option<Order>,
    filter: StatusFilter,
    showSidebar: bool,
    isMobile: bool,
    alerts: seq<string>)

  const ErrorAlert := "An error occurred while updating the order. Please try again."

  /**
    The outcomes of the exchanges `updateOrderStatus` can make, in order:
    the status request, the refetch of the list, the refetch of the selected
    order, and the fallback fetch of all orders. `None` is a failure.
   */
  datatype Exchanges = Exchanges(
    accepted: bool,
    list: Option<seq<Order>>,
    detail: Option<Order>,
    fallback: Option<seq<Order>>)

  predicate SelectedIs(k: Kitchen, id: int) {
    k.selected.Some? && k.selected.value.id == id
  }

  /** The screen before the first load: no orders, no selection, the "all" tab. */
  const Opened := Kitchen([], None, All, true, false, [])

  /**
    `updateOrderStatus(order, newStatus)` after `Dispatch`, as written. Any
    failure lands in the one `catch`, which alerts and leaves what was not
    yet set. When the selected order cannot be refetched, the fallback lists
    the unfiltered `fetchOrders()` response, whatever the tab.
   */
  function UpdateOrderStatusAsWritten(k: Kitchen, order: Order, x: Exchanges): (r: Kitchen)
    ensures r.filter == k.filter && r.isMobile == k.isMobile
    ensures !x.accepted ==> r == k.(alerts := k.alerts + [ErrorAlert])
    ensures x.accepted && x.list.None? ==> r == k.(alerts := k.alerts + [ErrorAlert])
    ensures x.accepted && x.list.Some? && !SelectedIs(k, order.id) ==>
      r == k.(orders := View(k.filter, x.list.value), showSidebar := k.showSidebar && !k.isMobile)
    ensures x.accepted && x.list.Some? && SelectedIs(k, order.id) && x.detail.Some? ==>
      && r.orders == View(k.filter, x.list.value)
      && r.selected == x.detail
      && r.showSidebar == (k.showSidebar && !k.isMobile)
      && r.alerts == k.alerts
    ensures x.accepted && x.list.Some? && SelectedIs(k, order.id) && x.detail.None? && x.fallback.Some? ==>
      && r.orders == x.fallback.value
      && r.selected == None
      && r.showSidebar == (k.showSidebar && !k.isMobile)
      && r.alerts == k.alerts
    ensures x.accepted && x.list.Some? && SelectedIs(k, order.id) && x.detail.None? && x.fallback.None? ==>
      r == k.(orders := View(k.filter, x.list.value), alerts := k.alerts + [ErrorAlert])
  {
    if !x.accepted then k.(alerts := k.alerts + [ErrorAlert])
    else match x.list
      case None => k.(alerts := k.alerts + [ErrorAlert])
      case Some(list) =>
        var k1 := k.(orders := View(k.filter, list));
        var k2 :=
          if !SelectedIs(k, order.id) then Some(k1)
          else match x.detail
            case Some(latest) => Some(k1.(selected := Some(latest)))
            case None =>
              match x.fallback
              case Some(all) => Some(k1.(orders := all, selected := None))
              case None => None;
        match k2
        case Some(k3) => k3.(showSidebar := k3.showSidebar && !k.isMobile)
        case None => k1.(alerts := k.alerts + [ErrorAlert])
  }

  /**
    `updateOrderStatus` with the fallback list fetched for the tab shown, as
    the list refetch just before it is. Every other path is as written.
   */
  function UpdateOrderStatus(k: Kitchen, order: Order, x: Exchanges): (r: Kitchen)
    ensures r.filter == k.filter && r.isMobile == k.isMobile
    ensures !x.accepted ==> r == k.(alerts := k.alerts + [ErrorAlert])
    ensures x.accepted && x.list.None? ==> r == k.(alerts := k.alerts + [ErrorAlert])
    ensures x.accepted && x.list.Some? && !SelectedIs(k, order.id) ==>
      r == k.(orders := View(k.filter, x.list.value), showSidebar := k.showSidebar && !k.isMobile)
    ensures x.accepted && x.list.Some? && SelectedIs(k, order.id) && x.detail.Some? ==>
      && r.orders == View(k.filter, x.list.value)
      && r.selected == x.detail
      && r.showSidebar == (k.showSidebar && !k.isMobile)
      && r.alerts == k.alerts
    ensures x.accepted && x.list.Some? && SelectedIs(k, order.id) && x.detail.None? && x.fallback.Some? ==>
      && r.orders == View(k.filter, x.fallback.value)
      && r.selected == None
      && r.showSidebar == (k.showSidebar && !k.isMobile)
      && r.alerts == k.alerts
    ensures x.accepted && x.list.Some? && SelectedIs(k, order.id) && x.detail.None? && x.fallback.None? ==>
      r == k.(orders := View(k.filter, x.list.value), alerts := k.alerts + [ErrorAlert])
    ensures x.fallback.None? || k.filter == All ==> r == UpdateOrderStatusAsWritten(k, order, x)
  {
    var fallback := if x.fallback.Some? then Some(View(k.filter, x.fallback.value)) else None;
    UpdateOrderStatusAsWritten(k, order, x.(fallback := fallback))
  }

  /**
    The list is never patched locally: after a move it is what it was, or a
    list just fetched from the server for the tab shown.
   */
  lemma ListOnlyRefetched(k: Kitchen, order: Order, x: Exchanges)
    ensures var r := UpdateOrderStatus(k, order, x);
      || r.orders == k.orders
      || (x.list.Some? && r.orders == View(k.filter, x.list.value))
      || (x.fallback.Some? && r.orders == View(k.filter, x.fallback.value))
  {
  }

  /** What a status tab promises: every order it lists has food. */
  predicate TabConsistent(k: Kitchen) {
    k.filter != All ==> forall o :: o in k.orders ==> HasFood(o)
  }

  /** A move keeps a status tab listing only orders with food. */
  lemma UpdateKeepsTabConsistent(k: Kitchen, order: Order, x: Exchanges)
    requires TabConsistent(k)
    ensures TabConsistent(UpdateOrderStatus(k, order, x))
  {
  }

  const FoodTicket := Order(1, "3", Pending, 0, [OrderItem("Pasta Puttanesca", 1, "Food", "")])
  const DrinkTicket := Order(2, "4", Completed, 0, [OrderItem("Cola", 1, "Drink", "")])

  /**
    As written, the fallback breaks the tab: on the Pending tab, moving the
    selected food order when its refetch fails lists a completed drinks-only
    order.
   */
  lemma FallbackIgnoresTabAsWritten()
    ensures HasFood(FoodTicket) && !HasFood(DrinkTicket)
    ensures var k := Kitchen([FoodTicket], Some(FoodTicket), Only(Pending), true, false, []);
      var r := UpdateOrderStatusAsWritten(k, FoodTicket, Exchanges(true, Some([FoodTicket]), None, Some([DrinkTicket])));
      && TabConsistent(k)
      && r.filter == Only(Pending)
      && DrinkTicket in r.orders
      && !TabConsistent(r)
  {
    assert IsFood(FoodTicket.items[0]);
    assert !IsFood(DrinkTicket.items[0]);
    var k := Kitchen([FoodTicket], Some(FoodTicket), Only(Pending), true, false, []);
    FoodOnlyIdempotent([FoodTicket]);
    assert FoodOnly([FoodTicket]) == [FoodTicket];
  }

  /** `handleOrderSelect(order)` */
  function HandleOrderSelect(k: Kitchen, order: Order): (r: Kitchen)
    ensures SelectedIs(r, order.id) && r.selected == Some(order)
    ensures r.orders == k.orders && r.showSidebar == (k.showSidebar && !k.isMobile)
  {
    k.(selected := Some(order), showSidebar := if k.isMobile then false else k.showSidebar)
  }

  /**
    Selecting an order and then moving it, with every refetch answered,
    leaves the freshly fetched copy of that order selected.
   */
  lemma SelectThenMoveShowsFetched(k: Kitchen, order: Order, x: Exchanges)
    requires x.accepted && x.list.Some? && x.detail.Some?
    ensures var r := UpdateOrderStatus(HandleOrderSelect(k, order), order, x);
      && r.selected == x.detail
      && r.orders == View(k.filter, x.list.value)
      && r.alerts == k.alerts
  {
  }

  /**
    Choosing a tab fetches for it; the selection is kept. The fetch is an
    effect keyed on the tab, so choosing the tab already shown changes nothing.
   */
  function SetFilter(k: Kitchen, filter: StatusFilter, response: Option<seq<Order>>): (r: Kitchen)
    ensures r.filter == filter && r.selected == k.selected
    ensures filter == k.filter ==> r == k
    ensures filter != k.filter ==> r == k.(filter := filter, orders := LoadOrders(filter, response))
  {
    if filter == k.filter then k
    else k.(filter := filter, orders := LoadOrders(filter, response))
  }

  /**
    On a status tab every listed order has food: switching to the tab lists
    only such orders, and staying on it keeps a list that already did.
   */
  lemma FilteredTabListsOnlyFood(k: Kitchen, filter: StatusFilter, response: Option<seq<Order>>)
    ensures filter != All && filter != k.filter ==>
      forall o :: o in SetFilter(k, filter, response).orders ==> HasFood(o)
    ensures filter == k.filter ==> SetFilter(k, filter, response).orders == k.orders
    ensures TabConsistent(k) ==> TabConsistent(SetFilter(k, filter, response))
  {
  }

  /** Everything the kitchen screen does: choose a tab, select an order, move an order. */
  datatype KitchenEvent =
    | Choose(filter: StatusFilter, response: Option<seq<Order>>)
    | Select(order: Order)
    | Move(order: Order, exchanges: Exchanges)

  function KitchenStep(k: Kitchen, e: KitchenEvent): Kitchen {
    match e
    case Choose(filter, response) => SetFilter(k, filter, response)
    case Select(order) => HandleOrderSelect(k, order)
    case Move(order, x) => UpdateOrderStatus(k, order, x)
  }

  function KitchenRun(k: Kitchen, events: seq<KitchenEvent>): Kitchen
    decreases |events|
  {
    if |events| == 0 then k else KitchenRun(KitchenStep(k, events[0]), events[1..])
  }

  /** From the opened screen, whatever happens, a status tab lists only orders with food. */
  lemma {:induction false} RunKeepsTabConsistent(k: Kitchen, events: seq<KitchenEvent>)
    requires TabConsistent(k)
    ensures TabConsistent(KitchenRun(k, events))
    decreases |events|
  {
    if |events| > 0 {
      var e := events[0];
      match e {
        case Choose(filter, response) => FilteredTabListsOnlyFood(k, filter, response);
        case Select(order) =>
        case Move(order, x) => UpdateKeepsTabConsistent(k, order, x);
      }
      RunKeepsTabConsistent(KitchenStep(k, e), events[1..]);
    }
  }

  lemma OpenedIsTabConsistent()
    ensures TabConsistent(Opened)
  {
  }
}
