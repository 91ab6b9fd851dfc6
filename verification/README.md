# Restaurant ordering client: a Dafny model

This project models the logic inside the front end of a restaurant ordering system. The model keeps the decision-making logic: pure functions on immutable values, plus lemmas about them. It drops the effects around that logic: React, storage, the SignalR hub, `fetch`, timers and the DOM. The model covers five areas.

- **Customer side**
  - The menu filter on the home page.
  - The product modal. The customer picks a quantity, modifications and instructions there, and the modal builds the candidate cart line.
  - The cart engine (`CartContext`). It merges matching lines and appends the others. It removes lines, rescales a line at its unit price and clears the cart. It also computes the item count and the price total.
  - The cart page: the price breakdown, the +/− buttons and the simulated checkout.
  - The table-id holder and its storage mirror.
- **Help requests**
  - The client cache of help requests that the SignalR context keeps, and its connected flag.
  - The `sendHelpRequest` and `resolveHelpRequest` calls, which fail closed without a connection.
  - The customer's help button.
  - The waiter portal's ordering and its selection rules.
- **Kitchen**
  - Order status moves Pending → Preparing → Completed, and back.
  - The buttons that offer those moves, and the endpoint chosen for each target status.
  - The list sort: status rank first, then newest first.
  - The "has food" filter.
  - The rule that the list is only ever refetched, never patched.
- **Admin dashboard**
  - The category and search filter over name and description.
  - Adding, editing, deleting and toggling menu items by id.
  - The item form's default values, price input, and modification list.
- **Money**
  - Money is integer cents.
  - `toFixed(2)` is a formatter (`Money.FormatCents`) with a proved parse round trip.

Modules follow the source files:

| module | source |
|---|---|
| `Seqs` | generic sequence helpers |
| `Sorting` | generic insertion sort |
| `Money` | cents |
| `Text` | lower-casing, `includes`, `trim` |
| `Catalog` | the menu data |
| `Cart` | `CartContext.jsx` |
| `ProductModal` | `ProductModal.jsx` |
| `CartPage` | `CartPage.jsx` |
| `HelpHub` | `SignalRContext.jsx` |
| `HelpButton` | `HelpButton.jsx` |
| `WaiterPortal` | `WaiterPortal.jsx` |
| `KitchenPortal` | `KitchenPortal.jsx` |
| `Table` | `TableContext.jsx` |
| `Homepage` | `Homepage.jsx` |
| `AdminDashboard` | `AdminDashboard.jsx` |

How the model represents what is outside the client:

- **Prices.** Prices are whole cents: 15.49 is `1549`.
- **Clocks, dialogs and outcomes are parameters.**
  - `Date.now()` is the `now` argument.
  - The answer to `window.confirm` is the `confirmed` argument.
  - The outcome of each remote call is an argument: success, or the message it threw.
- **Device storage** is a value: whether it works, and the entry under the key.
- **Timers** are explicit events, such as `TimerFires`, `HideFires` and `ResetFires`.

Three behaviours worth noting in the code; the model follows the code in each:

- **Malformed saved cart.** There is no fallback for a saved cart that does not parse. `JSON.parse` at `src/context/CartContext.jsx:19` has no error handling. `Cart.LoadCart` therefore takes the saved value as already decoded, with `None` meaning "no entry".
- **Event names.** The hub events are `HelpRequestReceived`, `HelpRequestResolved` and `HelpRequestsUpdated`, as in `src/context/SignalRContext.jsx:28-47`.
- **Call outcomes.** Both hub calls catch every error they meet and resolve to a `{ success, error }` result: `sendHelpRequest` at `src/context/SignalRContext.jsx:87-98` and `resolveHelpRequest` at `src/context/SignalRContext.jsx:100-111`. So two "Please try again" branches are never taken from these callers. One is the help button's, for a throw from the awaited call at `src/components/HelpButton.jsx:20`. The other is the waiter portal's, for a throw from the call at `src/pages/WaiterPortal.jsx:32`. The model keeps the help button's branch, as `HelpButton.Outcome.Threw` in `HelpButton.Finish`. `WaiterPortal.HandleResolveRequest` has no thrown case, because no call can reach it.

## Model

| member | source | states |
|---|---|---|
| Cart.MatchesIffSameKey | src/context/CartContext.jsx:27-42 | Two lines match exactly when they have the same id, the same instructions and the same multiset of modification ids. The order of the modifications does not matter. |
| Cart.MatchesIsEquivalence | src/context/CartContext.jsx:27-42 | The merge test is reflexive, symmetric and transitive. |
| Cart.FindMatchFrom | src/context/CartContext.jsx:27-42 | The result is the first index at or after `from` whose line matches, or -1 exactly when no line there matches. |
| Cart.FindMatch | src/context/CartContext.jsx:27-42 | `findIndex`: -1 exactly when no line matches; otherwise the first matching line. |
| Cart.AddToCart | src/context/CartContext.jsx:26-52 | A candidate that matches no line is appended at the end, stamped `now`. Otherwise the first matching line keeps its stamp and all its other fields, and its quantity and total rise by the candidate's. The length is unchanged and every other line stays as it was. |
| Cart.AddToCartTotals | src/context/CartContext.jsx:26-51 | Every add raises the item count by the candidate's quantity and the price sum by the candidate's total. |
| Cart.AddToCartKeepsKeysUnique | src/context/CartContext.jsx:26-51 | If no two lines shared a merge key before an add, none do after it. |
| Cart.AddToCartKeepsCartIdsUnique | src/context/CartContext.jsx:50 | With a fresh `now`, the cart ids stay distinct. |
| Cart.OnlyMatchingLine | src/context/CartContext.jsx:27-48 | In a cart with unique keys, the line a candidate merges into is the only line it matches. |
| Cart.MergeLaw | src/context/CartContext.jsx:44-51 | Adding `b` to a one-line cart holding `a`: when they match, the result is one line with the summed quantity and total. Otherwise the result is both lines, in order. |
| Cart.SecondMerges | src/context/CartContext.jsx:44-48 | The matching half of the merge law. |
| Cart.SecondAppends | src/context/CartContext.jsx:49-51 | The non-matching half of the merge law. |
| Cart.RemoveFromCart | src/context/CartContext.jsx:54-56 | The result keeps exactly the lines with another cart id, in order, with every copy of each kept. An absent id leaves the cart unchanged. |
| Cart.RemoveUniqueLine | src/context/CartContext.jsx:54-56 | Removing an id that occurs once deletes exactly that position. |
| Cart.RemoveOnlyLine | src/context/CartContext.jsx:54-56 | The same, for an id known to occur only at position `k`. |
| Cart.RemoveUniqueLineTotals | src/context/CartContext.jsx:54-56 | Removing a line lowers the item count by its quantity and the price sum by its total. |
| Cart.SplicedTotals | src/context/CartContext.jsx:83-89 | Cutting one line out of a cart lowers the item count by its quantity and the price sum by its total. |
| Cart.UpdateQuantity | src/context/CartContext.jsx:58-77 | Below 1, this is `removeFromCart`. Otherwise the length is unchanged, lines with other ids are unchanged, and each stamped line takes the new quantity at the same unit price (total × old quantity = old total × n). All its other fields are kept. |
| Cart.RescaleStamped | src/context/CartContext.jsx:64-76 | The `map` rescales the stamped lines and returns every other line as it was. |
| Cart.RescaleStampedKeepsUnitPrice | src/context/CartContext.jsx:67-71 | A rescaled line costs `totalPrice / quantity` per piece, as the line did before. |
| Cart.UpdateQuantityExample | cypress/e2e/cart.cy.js:54-69 | One 15.49 line raised to quantity 2 costs 30.98. |
| Cart.GetTotalPrice | src/context/CartContext.jsx:83-85 | The rendered total parses back to exactly the sum of the line totals. |
| Cart.ClearCart | src/context/CartContext.jsx:79-81 | After a clear, the cart is empty, the count is 0 and the total renders as "0.00". |
| Cart.LoadCart | src/context/CartContext.jsx:17-20 | With no saved entry, the cart starts empty; otherwise it starts as the saved lines. |
| Cart.SaveCart | src/context/CartContext.jsx:22-24 | What the storage effect writes is read back by the initial load as the same cart. |
| Cart.PricedIsUnitExact | src/context/CartContext.jsx:67 | For a priced line, the division `totalPrice / quantity` is exact and equals its unit price. |
| Cart.AddToCartKeepsPriced | src/context/CartContext.jsx:44-51 | Adding a priced candidate keeps every line priced, provided every matching line has the candidate's unit price. |
| Cart.MergeKeepsPriced | src/context/CartContext.jsx:46-47 | Merging two priced lines with the same unit price gives a priced line. |
| Cart.RemoveKeepsPriced | src/context/CartContext.jsx:54-56 | Removal keeps every line priced. |
| Cart.UpdateQuantityKeepsPriced | src/context/CartContext.jsx:58-77 | In a priced cart, every stamped line has an exact unit price, and a quantity change keeps every line priced. |
| ProductModal.DecreaseQuantity | src/components/ProductModal.jsx:19-23 | One less exactly when the quantity is above 1; otherwise unchanged. The quantity never goes below 1. |
| ProductModal.IncreaseQuantity | src/components/ProductModal.jsx:25-27 | The quantity grows by exactly one, and a decrease undoes the increase. |
| ProductModal.ToggleModification | src/components/ProductModal.jsx:30-36 | The id is selected afterwards exactly when it was not before. Every other id keeps its status. The toggle never creates a duplicate. |
| ProductModal.FilterNoDupWhenDistinct | src/components/ProductModal.jsx:32 | Filtering an id out of a duplicate-free selection leaves it duplicate-free. |
| ProductModal.ToggleTwice | src/components/ProductModal.jsx:30-36 | Toggling twice restores the selected set. When the id was unselected, it restores the exact sequence. |
| ProductModal.OpenedIsConsistent | src/components/ProductModal.jsx:7-9 | The modal opens at quantity 1 with nothing selected. |
| ProductModal.RunKeepsConsistent | src/components/ProductModal.jsx:19-36 | Any sequence of clicks keeps the quantity at 1 or more and the selection free of duplicates. |
| ProductModal.CatalogPriceAbsent | src/components/ProductModal.jsx:43-44 | An id missing from the catalogue costs 0. |
| ProductModal.SelectedPriceMatchesSelection | src/components/ProductModal.jsx:41-52 | With distinct catalogue ids, the price the modal adds for the selection equals the total of the modifications it puts on the line. |
| ProductModal.SelectionPriceIsModsTotal | src/components/ProductModal.jsx:41-52 | The same, for the modal's own catalogue. |
| ProductModal.CatalogIdsDistinct | src/components/ProductModal.jsx:12-16 | The catalogue's ids are distinct. |
| ProductModal.BuildCandidate | src/components/ProductModal.jsx:51-60 | The candidate copies the item's id, name, category and price, and the modal's quantity and instructions. Its modifications are exactly the catalogue entries whose ids are selected, in catalogue order. Its total is the price the modal displays. |
| ProductModal.CandidatePriced | src/components/ProductModal.jsx:39-60 | A candidate from a consistent modal costs (base price + its modifications' total) × quantity. |
| ProductModal.PricedFromParts | src/components/ProductModal.jsx:39-48 | A line that charges base price plus its modifications' total per piece is priced. |
| ProductModal.ChosenAreFlat | src/components/ProductModal.jsx:12-16 | Every modification the modal can put on a line costs 0.50. |
| ProductModal.SelectedIsFlat | src/components/ProductModal.jsx:12-16 | The selection adds 0.50 for each modification it picks. |
| ProductModal.TotalFromSelectedPrice | src/components/ProductModal.jsx:39-48 | If the selection adds 0.50·k, the displayed total is (price + 0.50·k) × quantity. |
| ProductModal.FlatModificationPrice | src/components/ProductModal.jsx:39-48 | For k picked modifications, the total is (price + 0.50·k) × quantity. |
| ProductModal.SelectionIdsAgree | src/components/ProductModal.jsx:52 | A catalogue entry's id is selected exactly when it is among the ids of the modifications put on the line. |
| ProductModal.CandidateFromCatalog | src/components/ProductModal.jsx:52 | A candidate's modifications are the catalogue entries for its own ids, in catalogue order. |
| ProductModal.SameIdsSameMods | src/components/ProductModal.jsx:52 | Two catalogue-built modification lists with the same multiset of ids are equal and cost the same. |
| CartPage.ShowBreakdown | src/pages/CartPage.jsx:12-26 | The subtotal, additions and total render to strings that parse back to the exact sums. |
| CartPage.LineCostSplits | src/pages/CartPage.jsx:12-24 | A priced line's base cost plus its modifications' cost is its total. |
| CartPage.SubtotalPlusAdditions | src/pages/CartPage.jsx:12-26 | When every line is priced, subtotal + additions = the cart's total. |
| CartPage.RescaledAtUnitPrice | src/pages/CartPage.jsx:94-103 | A quantity change gives a priced line n × its unit price. |
| CartPage.MinusPressed | src/pages/CartPage.jsx:94 | At quantity 1 the − button removes the line. Above 1, it lowers the quantity by one and the total by one unit price. The line keeps its stamp and its other fields, and every line with another stamp is unchanged. The cart stays priced. |
| CartPage.PlusPressed | src/pages/CartPage.jsx:103 | The + button raises the quantity by one and the total by one unit price. The line's other fields and the other lines stay as they were. |
| CartPage.PlusThenMinus | src/pages/CartPage.jsx:94-103 | With distinct cart ids, + then − gives the cart back. |
| CartPage.MinusOnLastPieceEmpties | src/pages/CartPage.jsx:57 | Pressing − on the only line at quantity 1 shows the empty state. |
| CartPage.ClickCheckout | src/pages/CartPage.jsx:28-36 | A click is ignored on an empty cart or while the button is disabled. Otherwise the flag is set and the timer starts. |
| CartPage.TimerFires | src/pages/CartPage.jsx:30-35 | When the timer fires: one alert, an empty cart, the flag cleared and the route back at the menu. |
| CartPage.CheckoutKeepsFlagTracking | src/pages/CartPage.jsx:132 | The button is disabled exactly while the checkout timer is pending. |
| CartPage.DoubleClickIgnored | src/pages/CartPage.jsx:132 | A second click during checkout changes nothing. |
| CartPage.CheckoutFlow | cypress/e2e/cart.cy.js:87-111 | Checkout from a non-empty cart ends with one "Order placed successfully!" alert, an empty cart shown as "0.00", and the menu route. |
| CartPage.MatchingLinesSameUnitPrice | src/context/CartContext.jsx:27-47 | Two matching lines built from one menu cost the same per piece, so a merge keeps the unit price. |
| CartPage.SameIdSamePrice | src/context/CartContext.jsx:28 | Two lines built from one menu with the same item id carry the same base price. |
| CartPage.Candidate | src/components/ProductModal.jsx:51-60 | Any candidate the modal builds for a menu item is priced and comes from the menu. |
| CartPage.AddKeepsHealthy | src/context/CartContext.jsx:26-52 | Adding such a candidate keeps every line priced and from the menu. |
| CartPage.RemoveKeepsHealthy | src/context/CartContext.jsx:54-56 | Removal keeps every line priced and from the menu. |
| CartPage.UpdateKeepsHealthy | src/context/CartContext.jsx:58-77 | A quantity change keeps every line priced and from the menu. |
| CartPage.Step | src/pages/CartPage.jsx:85-103 | Each customer action keeps the cart healthy. |
| CartPage.Replay | src/pages/CartPage.jsx:12-26 | After any sequence of customer actions, subtotal + additions equals the displayed total, in exact cents. |
| CartPage.MenuDataIdsUnique | src/data/menuItems.js:3-43 | The shipped menu's ids are distinct. |
| CartPage.ShippedMenuBreakdown | src/pages/CartPage.jsx:115-127 | On the shipped menu, every reachable cart shows a breakdown that adds up. |
| CartPage.ReloadedCartBreakdown | src/context/CartContext.jsx:17-20 | A cart loaded from storage, absent or saved from a healthy session, shows a breakdown that adds up after any further operations. |
| CartPage.SessionAcrossReload | src/context/CartContext.jsx:17-24 | A session, a page reload through storage and a second session together still end with a breakdown that adds up. |
| HelpHub.Received | src/context/SignalRContext.jsx:28-37 | An unseen id is appended at the end. A known id has every entry with it replaced in place, keeping length and order. Either way the pushed request is in the list. |
| HelpHub.ReceivedKeepsIdsUnique | src/context/SignalRContext.jsx:28-37 | Receiving keeps the ids distinct if they were. |
| HelpHub.ReceivedIdempotent | src/context/SignalRContext.jsx:28-37 | Receiving the same request twice is the same as receiving it once. |
| HelpHub.Resolved | src/context/SignalRContext.jsx:39-42 | Exactly the entries with the id are removed, and the others stay in order with every copy kept. An absent id changes nothing. |
| HelpHub.ResolvedKeepsIdsUnique | src/context/SignalRContext.jsx:39-42 | Resolving keeps the ids distinct. |
| HelpHub.ResolvedUndoesFreshReceived | src/context/SignalRContext.jsx:28-42 | Receiving an unseen request and then resolving it restores the cache. |
| HelpHub.IdsUniqueIsKeyed | src/context/SignalRContext.jsx:31-33 | Distinct ids is the same as: no entry occurs twice, and entries sharing an id are identical. |
| HelpHub.UpdatedForgetsHistory | src/context/SignalRContext.jsx:44-47 | An update installs the pushed list, whatever the cache held. |
| HelpHub.PushesKeepIdsUnique | src/context/SignalRContext.jsx:28-47 | Any sequence of pushes keeps the ids distinct, provided every pushed list has distinct ids. |
| HelpHub.OnLifecycle | src/context/SignalRContext.jsx:49-78 | The connected flag is true exactly after a start whose sync call succeeded, or after a reconnect. A connection exists once a start has resolved. The cache is untouched. |
| HelpHub.Settle | src/context/SignalRContext.jsx:89-95 | The result is success exactly when the invocation did not throw. A throw carries its message. |
| HelpHub.SendHelpRequest | src/context/SignalRContext.jsx:87-98 | Without a usable connection, the call fails with "Not connected to server" and invokes nothing. Otherwise it invokes `SendHelpRequest` with the message, defaulting to "Customer needs assistance", and succeeds exactly when the invocation does not throw. |
| HelpHub.ResolveHelpRequest | src/context/SignalRContext.jsx:100-111 | The same guard and outcome, for `ResolveHelpRequest`. |
| HelpHub.OnlyPushesChangeRequests | src/context/SignalRContext.jsx:100-111 | The cache after any run is the pushes applied in order: send and resolve never edit it. |
| HelpHub.FailedStartFailsClosed | src/context/SignalRContext.jsx:57-60 | After a failed start, and with no later start, every send fails closed. |
| HelpButton.Begin | src/components/HelpButton.jsx:15-17 | A press while requesting or sent does nothing. Otherwise `isRequesting` turns on. |
| HelpButton.Finish | src/components/HelpButton.jsx:19-41 | On every path, `isRequesting` ends false. Success sets `requestSent` and `showMessage` and starts both timers. A failed result alerts with its error, and a throw alerts "Please try again"; neither changes `requestSent`. |
| HelpButton.HandleHelpRequest | src/components/HelpButton.jsx:14-42 | Guarded presses do nothing. Otherwise the call goes out with "Customer needs assistance", and `requestSent` is set exactly when the call succeeded. |
| HelpButton.HideFires | src/components/HelpButton.jsx:26-28 | The 5 s timer hides the message and touches nothing else. |
| HelpButton.ResetFires | src/components/HelpButton.jsx:30-32 | The 30 s timer re-enables the button and touches nothing else. |
| HelpButton.Press | src/components/HelpButton.jsx:46-48 | A click on the disabled button (requesting, sent, or hub disconnected) does nothing; otherwise a call goes out and `requestSent` ends set exactly when it succeeded. |
| HelpButton.FailureKeepsButtonUsable | src/components/HelpButton.jsx:14-48 | A press from the idle button that fails leaves `requestSent` false and the button enabled whenever the hub is connected. An enabled button shows exactly one alert; a disconnected one ignores the press. |
| HelpButton.DisconnectedPressIgnored | src/components/HelpButton.jsx:48 | While the hub is disconnected, a press sends nothing and leaves the button exactly as it was. |
| HelpButton.SuccessCycle | src/components/HelpButton.jsx:14-48 | After a success the button is disabled and further presses are ignored. After both timers it is enabled again, with the message hidden. |
| WaiterPortal.NewerOrSameIsTotalPreorder | src/pages/WaiterPortal.jsx:28 | The comparator is a total preorder. |
| WaiterPortal.SortNewestFirst | src/pages/WaiterPortal.jsx:28 | The sorted list is a permutation of the requests, with timestamps non-increasing. |
| WaiterPortal.SortedViewSameRequests | src/pages/WaiterPortal.jsx:28 | The sorted view has the same requests and the same count. |
| WaiterPortal.HandleResolveRequest | src/pages/WaiterPortal.jsx:30-45 | The portal calls `resolveHelpRequest`. Success clears the selection, and on a phone re-shows the list. Failure keeps the selection and alerts with the error. |
| WaiterPortal.HandleRequestSelect | src/pages/WaiterPortal.jsx:47-52 | The request becomes the selection, and a phone hides the list. |
| WaiterPortal.SelectResolveFlow | src/pages/WaiterPortal.jsx:30-52 | Selecting and then resolving over a usable hub clears the selection and re-shows the list on a phone. It invokes the resolve for that request, and once the server pushes the resolution the request is no longer listed. |
| WaiterPortal.DisconnectedResolveKeepsSelection | src/pages/WaiterPortal.jsx:38-40 | While disconnected, a resolve keeps the selection and alerts "Not connected to server". |
| KitchenPortal.Rank | src/pages/KitchenPortal.jsx:221-225 | Status priority is 0, 1 or 2. |
| KitchenPortal.RankIsInjective | src/pages/KitchenPortal.jsx:221-225 | Different statuses have different ranks. |
| KitchenPortal.NextStatus | src/pages/KitchenPortal.jsx:198-207 | The next status is one rank up; Completed stays Completed. |
| KitchenPortal.PreviousStatus | src/pages/KitchenPortal.jsx:209-218 | The previous status is one rank down; Pending stays Pending. |
| KitchenPortal.NextPreviousInverse | src/pages/KitchenPortal.jsx:198-218 | prev(next(s)) = s except at Completed, and next(prev(s)) = s except at Pending. |
| KitchenPortal.OfferedMovesAreSingleSteps | src/pages/KitchenPortal.jsx:490-505 | Every move a visible button offers changes the rank by exactly one, and every order shows at least one button. |
| KitchenPortal.KitchenBeforeIsTotalPreorder | src/pages/KitchenPortal.jsx:220-234 | The comparator is a total preorder. |
| KitchenPortal.SortedOrders | src/pages/KitchenPortal.jsx:220-234 | The sorted list is a permutation with ranks non-decreasing, and newest first within a status. |
| KitchenPortal.FoodOnly | src/pages/KitchenPortal.jsx:32 | Keeps exactly the orders with a "Food" item, in order, with every copy of each kept. |
| KitchenPortal.FoodOnlyIdempotent | src/pages/KitchenPortal.jsx:32 | Filtering again changes nothing. |
| KitchenPortal.View | src/pages/KitchenPortal.jsx:128-132 | The "all" tab shows the response as sent; a status tab shows only the orders with food. |
| KitchenPortal.LoadOrders | src/pages/KitchenPortal.jsx:123-139 | A failed fetch empties the list; a successful one shows the tab's view of the response. |
| KitchenPortal.Dispatch | src/pages/KitchenPortal.jsx:153-160 | Preparing goes to `start`, Completed to `complete`, and Pending to a PUT of the order with status Pending; each exactly when the target is that status. |
| KitchenPortal.DispatchReachesTarget | src/pages/KitchenPortal.jsx:149-160 | Every request asks for the chosen order and status. |
| KitchenPortal.UpdateOrderStatusAsWritten | src/pages/KitchenPortal.jsx:149-196 | A failure before the refetch only alerts. A successful move refetches the list for the tab. It then refetches the selected order, and if that fails it falls back to the unfiltered list of all orders, whatever the tab, with no selection. Each of these success paths hides the list on a phone and adds no alert. If the fallback fails too, the refetched list stays, the sidebar is untouched and one alert is added. The tab and screen size are kept. |
| KitchenPortal.FallbackIgnoresTabAsWritten | src/pages/KitchenPortal.jsx:178-182 | As written, on the Pending tab, a failed refetch of the selected food order lists a completed drinks-only order, so the tab no longer lists only orders with food. |
| KitchenPortal.UpdateOrderStatus | src/pages/KitchenPortal.jsx:149-196 | The same paths as written, except that the fallback list is the tab's view of all orders, with no selection. On the "all" tab, or when no fallback list arrives, it behaves exactly as written. |
| KitchenPortal.ListOnlyRefetched | src/pages/KitchenPortal.jsx:162-184 | After a move the list is the old one or the tab's view of a fetched one, never a locally patched one. |
| KitchenPortal.UpdateKeepsTabConsistent | src/pages/KitchenPortal.jsx:25-32 | With the fallback corrected, a move keeps a status tab listing only orders with food. |
| KitchenPortal.HandleOrderSelect | src/pages/KitchenPortal.jsx:303-308 | The order becomes the selection, and a phone hides the list. |
| KitchenPortal.SelectThenMoveShowsFetched | src/pages/KitchenPortal.jsx:149-196 | Selecting an order and then moving it, with every refetch answered, selects the freshly fetched copy of that order and adds no alert. |
| KitchenPortal.SetFilter | src/pages/KitchenPortal.jsx:123-147 | Choosing a different tab loads its list and keeps the selection. Choosing the tab already shown changes nothing, because the effect only runs when the tab changes. |
| KitchenPortal.FilteredTabListsOnlyFood | src/pages/KitchenPortal.jsx:25-32 | Switching to a status tab lists only orders with food; choosing the tab already shown keeps its list unchanged. So choosing a tab keeps a status tab listing only orders with food. |
| KitchenPortal.RunKeepsTabConsistent | src/pages/KitchenPortal.jsx:123-196 | With the fallback corrected, any sequence of tab choices, selections and moves keeps a status tab listing only orders with food. |
| KitchenPortal.OpenedIsTabConsistent | src/pages/KitchenPortal.jsx:101-106 | The screen opens on the "all" tab, where the food-only promise is not made. |
| Table.GetStored | src/context/TableContext.jsx:14-21 | The stored value, or `null` when storage is unavailable. |
| Table.SetStored | src/context/TableContext.jsx:23-33 | A truthy id is written, a falsy one removes the key, and unavailable storage is untouched. |
| Table.Init | src/context/TableContext.jsx:36-38 | The initial id is the stored one, or `null` without storage. |
| Table.SetTableId | src/context/TableContext.jsx:40-45 | Setting the current id changes nothing. Setting another id updates the state and the storage together. |
| Table.ClearTableId | src/context/TableContext.jsx:47-50 | The state becomes `null` and the key is removed. |
| Table.HasTableId | src/context/TableContext.jsx:56 | True exactly for a non-empty id, so both `null` and "" give false. |
| Table.InitIsMirrored | src/context/TableContext.jsx:36-38 | The initial state mirrors storage. |
| Table.SetTableIdKeepsMirrored | src/context/TableContext.jsx:40-45 | Setting keeps the mirror. |
| Table.ClearTableIdKeepsMirrored | src/context/TableContext.jsx:47-50 | Clearing keeps the mirror. |
| Table.ReloadAgrees | src/context/TableContext.jsx:36-38 | Reloading a mirrored holder from its storage gives the same `hasTableId` and the same id. |
| Table.RunKeepsMirrored | src/context/TableContext.jsx:40-50 | Any sequence of sets and clears keeps the mirror. |
| Table.SetThenReload | src/context/TableContext.jsx:23-45 | A truthy id survives a reload; a falsy one reloads as "no table". |
| Homepage.FilteredItems | src/pages/Homepage.jsx:22-26 | An item is shown exactly when it is on the "All" tab or in the tab's category, and its lower-cased name contains the lower-cased query. The result is an order-preserving subsequence of the menu. |
| Homepage.InitialShowsEverything | src/pages/Homepage.jsx:10-11 | The initial tab and query show the whole menu, in order. |
| Homepage.DescriptionIgnored | src/pages/Homepage.jsx:24 | The description never affects whether an item is shown. |
| Homepage.NarrowingSearch | src/pages/Homepage.jsx:24 | Typing more never brings an item back. |
| Homepage.QueryCaseIgnored | src/pages/Homepage.jsx:24 | Typing the query in lower case shows exactly the same items, in the same order. |
| Homepage.PastaTabFacts | cypress/e2e/category-filter.cy.js:13-18 | On the Pasta tab only the two pasta dishes pass. |
| Homepage.FilterFirstAndFourth | cypress/e2e/category-filter.cy.js:13-18 | Filtering six items of which only the first and fourth pass keeps exactly those two, in order. |
| Homepage.PastaTab | cypress/e2e/category-filter.cy.js:13-18 | The Pasta tab shows Pasta Puttanesca and Spaghetti all'Assassina, in that order, and not the Chutney Burger. |
| Homepage.NameLacksLetter | src/pages/Homepage.jsx:24 | An item whose name lacks both cases of a letter in the query is not shown. |
| Homepage.PastaSearch | cypress/e2e/search.cy.js:13-17 | Searching "Pasta" finds Pasta Puttanesca and not the Chutney Burger. |
| Homepage.BlankMissesPastaPuttanesca | cypress/e2e/search.cy.js:24-27 | "Blank" does not find this dish. |
| Homepage.BlankMissesSteakAvocadoBowl | cypress/e2e/search.cy.js:24-27 | "Blank" does not find this dish. |
| Homepage.BlankMissesChutneyBurger | cypress/e2e/search.cy.js:24-27 | "Blank" does not find this dish. |
| Homepage.BlankMissesSpaghettiAssassina | cypress/e2e/search.cy.js:24-27 | "Blank" does not find this dish. |
| Homepage.BlankMissesGrilledChickenSalad | cypress/e2e/search.cy.js:24-27 | "Blank" does not find this dish. |
| Homepage.BlankMissesMediterraneanSalad | cypress/e2e/search.cy.js:24-27 | "Blank" does not find this dish. |
| Homepage.FilterNoneOfSix | cypress/e2e/search.cy.js:24-27 | Filtering six items none of which passes gives nothing. |
| Homepage.BlankSearchFindsNothing | cypress/e2e/search.cy.js:24-27 | Searching "Blank" shows no items. |
| AdminDashboard.AdminFilter | src/pages/AdminDashboard.jsx:58-75 | An item is listed exactly when it is in the tab's category (or the tab is "All") and either the query is empty or its lower-cased name or description contains the lower-cased query. Order is preserved. |
| AdminDashboard.UnfilteredShowsEverything | src/pages/AdminDashboard.jsx:35-38 | The initial tab and query list every item, in order. |
| AdminDashboard.CustomerViewWithinAdminView | src/pages/AdminDashboard.jsx:58-75 | Whatever the customer's menu shows for a tab and query, the admin table also lists. |
| AdminDashboard.DescriptionSearchedOnlyByAdmin | src/pages/AdminDashboard.jsx:70 | An item matched only by its description is listed for the admin and hidden from the customer. |
| AdminDashboard.MaxId | src/pages/AdminDashboard.jsx:80 | The maximum bounds every id and is one of them. |
| AdminDashboard.MaxIdAsWritten | src/pages/AdminDashboard.jsx:80 | `Math.max` of no ids is `-Infinity`, and otherwise bounds every id. |
| AdminDashboard.AddIdAsWritten | src/pages/AdminDashboard.jsx:78-90 | As written, the new id is the maximum plus one, appended after the old ids. |
| AdminDashboard.AddIdAsWrittenOnEmptyTable | src/pages/AdminDashboard.jsx:80 | On an empty table the new id is `-Infinity`, and the next add gives `-Infinity` again. |
| AdminDashboard.NewId | src/pages/AdminDashboard.jsx:80 | The new id exceeds every existing id, so it is fresh. It agrees with the as-written id on a non-empty table. |
| AdminDashboard.MaxIdAgrees | src/pages/AdminDashboard.jsx:80 | On a non-empty table the as-written maximum is the integer maximum. |
| AdminDashboard.HandleAddItem | src/pages/AdminDashboard.jsx:78-90 | The item is appended with a fresh id and `inCart: false`, the rest is unchanged, and distinct ids stay distinct. |
| AdminDashboard.HandleEditItem | src/pages/AdminDashboard.jsx:93-98 | Entries with the id become the edited item; the others, the length and all ids stay. |
| AdminDashboard.EditKeepsIdsUnique | src/pages/AdminDashboard.jsx:93-98 | Editing keeps ids distinct. |
| AdminDashboard.EditIdempotent | src/pages/AdminDashboard.jsx:93-98 | Saving the same edit twice is the same as saving it once. |
| AdminDashboard.HandleDeleteItem | src/pages/AdminDashboard.jsx:101-106 | Without confirmation nothing changes. With it, exactly the entries with the id go, and the others stay in order with every copy kept. |
| AdminDashboard.DeleteUndoesAdd | src/pages/AdminDashboard.jsx:78-106 | Deleting a just-added item restores the table. |
| AdminDashboard.ToggleAvailabilityAsWritten | src/pages/AdminDashboard.jsx:115-123 | As written, matching entries get `available: !available`, where a missing field counts as false. |
| AdminDashboard.ToggleAsWrittenMissesUnsetItem | src/pages/AdminDashboard.jsx:118 | An item without the field shows "Available" both before and after the as-written toggle. |
| AdminDashboard.ToggleAvailability | src/pages/AdminDashboard.jsx:115-123 | Matching entries switch between shown available and shown unavailable, and the others stay. |
| AdminDashboard.ToggleAgreesWhenSet | src/pages/AdminDashboard.jsx:115-123 | Where every item has the field, this agrees with the as-written toggle. |
| AdminDashboard.ToggleTwice | src/pages/AdminDashboard.jsx:115-123 | Toggling twice shows every item as before, and restores every item whose field was set. |
| AdminDashboard.DefaultCategory | src/pages/AdminDashboard.jsx:366 | The first category's name when non-empty, else "Main"; never empty. |
| AdminDashboard.OpenForm | src/pages/AdminDashboard.jsx:361-371 | A new form has the defaults and no modifications. An edit form copies the item, modifications included, and its checkbox shows the item's displayed status. The category is never blank. |
| AdminDashboard.FormKeepsDisplayedStatus | src/pages/AdminDashboard.jsx:369 | Opening and saving without touching the checkbox keeps the displayed status. |
| AdminDashboard.Submit | src/pages/AdminDashboard.jsx:431-437 | The saved item carries the form's id, name, price, category, description and modifications, and its availability is shown as checked. It has no `inCart` flag. |
| AdminDashboard.EditFormRoundTrip | src/pages/AdminDashboard.jsx:361-371 | Opening an item and saving the form untouched gives the item back, modifications included. Only the category default, the explicit `available` and the dropped `inCart` differ. |
| AdminDashboard.HandlePriceChange | src/pages/AdminDashboard.jsx:387-393 | A non-numeric input sets the price to 0; a number sets it; nothing else changes. |
| AdminDashboard.PriceEntryReachesSavedItem | src/pages/AdminDashboard.jsx:387-437 | A non-numeric price entry saves the price 0, and a number saves that price. Nothing else about the saved item changes. |
| AdminDashboard.HandleAddModification | src/pages/AdminDashboard.jsx:412-420 | A name that is blank after trimming is ignored. Otherwise the draft is appended under id `now` and the draft is reset. |
| AdminDashboard.AddModificationIffNotBlank | src/pages/AdminDashboard.jsx:413 | The list grows by one exactly when the name has a non-space character. |
| AdminDashboard.HandleRemoveModification | src/pages/AdminDashboard.jsx:423-428 | Exactly the modifications with the id go; the others stay in order with every copy kept; nothing else changes. |
| AdminDashboard.RemoveUndoesAdd | src/pages/AdminDashboard.jsx:412-428 | Removing a just-added modification under a fresh id restores the form. |
| Money.FormatCentsRoundTrip | src/context/CartContext.jsx:84 | The rendered amount parses back to exactly the cents it came from. |
| Money.FormatExamples | cypress/e2e/cart.cy.js:69 | 0 renders "0.00", 1549 renders "15.49" and 3098 renders "30.98". |
| Text.ToLowerIdempotent | src/pages/Homepage.jsx:24 | Lower-casing twice is lower-casing once. |
| Text.ContainsIffOccurs | src/pages/Homepage.jsx:24 | `includes` holds exactly when the needle occurs at some position. |
| Text.TrimEmptyIffAllSpace | src/pages/AdminDashboard.jsx:413 | A string trims to "" exactly when it is all whitespace. |

## Left out

- I/O and transport. These are not modelled: the `fetch` wrappers and the 30 s polling, SignalR's connection builder and automatic reconnect, `invoke` itself, and storage and JSON. Each call's outcome, and the storage's content and availability, are parameters.
- DOM, routing and layout. These are not modelled: `isMobile` detection and resize handling, the sidebar toggles, image upload, `getTimeElapsed` and `formatTime`, and the category scroller. `isMobile` appears only as a field the handlers read.
- Timers. The 500 ms loading delay is not modelled. The checkout and help-button timers are explicit events; their durations are not modelled.
- Floating point. Prices are integer cents and `toFixed(2)` is `Money.FormatCents`. Float rounding of sums such as 0.1 + 0.2 is not modelled.
- Cart.UpdateQuantity: requires each line it rescales to have a total that is a whole multiple of its quantity. Only then is the unit price `totalPrice / quantity` a whole number of cents. `Cart.UpdateQuantityKeepsPriced` and `CartPage.Replay` show that every cart reachable through the client's screens meets this. A JavaScript float quotient on other carts is not modelled.
- Cart.LoadCart: takes the saved cart already decoded. A malformed saved string makes `JSON.parse` throw in the source, and that crash is not modelled.
- AdminDashboard.HandlePriceChange: takes the result of `parseFloat` as an `Option<int>` of cents. Parsing the input text is not modelled.
- AdminDashboard.Submit: the second `parseFloat` at save is the identity on a number that is already a price.
- The JavaScript default `sort()` in the merge test compares ids as strings. The model sorts them as integers. The merge test only compares the two sorted lists for equality, and `Sorting.SortEqualIffSameMultiset` shows that any total order gives the same answer.
- `Date.now()` ids are passed in as parameters. Two adds in the same millisecond would share a stamp; the lemmas that need distinct stamps take freshness as a precondition.
- Timestamps are integer milliseconds. The source compares `new Date(timestamp)` values (WaiterPortal.jsx:28, KitchenPortal.jsx:230). A timestamp that does not parse gives `NaN`, which makes the comparator inconsistent; that case is not modelled.
- Order statuses other than the three named ones, and `statusPriority` of an unknown status, are not modelled.
- The `alert("Failed to update order status…")` branch of `updateOrderStatus` is not modelled. It is unreachable, because every status request either returns success or throws.
- The menu item fields `image` and `popular` are not modelled. No modelled decision depends on them, and the form's image upload is DOM work. The item's `modifications` list is modelled; an item without one has the empty list.
- KitchenPortal.SetFilter: the list is loaded once when the tab changes. The 30 s re-poll while a tab stays chosen is left out with the rest of the polling.
- `toLowerCase` is modelled on ASCII letters only. `trim` is modelled on the ASCII whitespace characters.
- The lemmas taken from the end-to-end specs (Pasta tab, "Pasta" and "Blank" searches, 15.49 → 30.98) are stated about the shipped menu data only.
- The presentation files, the build configuration and the category data import are not modelled.

## Findings

| source | as written | input that shows it | evidently intended | confidence | as-written member | corrected member |
|---|---|---|---|---|---|---|
| src/pages/AdminDashboard.jsx:80 | The new id is `Math.max(...ids) + 1`. With no items, `Math.max()` is `-Infinity`, so the new id is `-Infinity`, and every later add gets `-Infinity` too. | Add to an empty table twice: ids `[-Infinity, -Infinity]`. | A fresh id on every table: one past the largest, or 1 on an empty table. | not executed | AdminDashboard.AddIdAsWrittenOnEmptyTable | AdminDashboard.NewId |
| src/pages/AdminDashboard.jsx:118 | `available: !item.available`. An item with no `available` field displays as "Available" (line 304), and the toggle sets it to `true`, so it still displays "Available". | An item without `available`, toggled once. | The "Disable" button makes the item show "Unavailable". | not executed | AdminDashboard.ToggleAsWrittenMissesUnsetItem | AdminDashboard.ToggleAvailability |
| src/pages/KitchenPortal.jsx:180-181 | When the selected order cannot be refetched after a move, the list becomes the unfiltered `fetchOrders()` response, whatever tab is shown. | On the Pending tab, with a food order selected: the move succeeds, the list refetch returns it, its own refetch fails, and all orders are one completed drinks-only order. That order is then listed on the Pending tab. | The fallback lists what the tab shows: all orders on the "all" tab, the orders with food on a status tab. | not executed | KitchenPortal.FallbackIgnoresTabAsWritten | KitchenPortal.UpdateOrderStatus |
