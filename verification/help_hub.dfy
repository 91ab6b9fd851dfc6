/**
  The help-request channel (`SignalRProvider`): the cache of open help
  requests kept up to date by the events the server pushes, the connected
  flag, and the two outbound calls, which fail closed when the client is
  not connected. The transport is abstracted: a remote call's outcome is a
  parameter.
 */
module HelpHub {
  import opened Seqs

  /** A help request as the server pushes it; `timestamp` is the request time in milliseconds. */
  datatype HelpRequest = HelpRequest(id: int, tableNumber: string, message: string, timestamp: int)

  function RequestId(r: HelpRequest): int {
    r.id
  }

  function Ids(requests: seq<HelpRequest>): seq<int> {
    Map(requests, RequestId)
  }

  predicate IdsUnique(requests: seq<HelpRequest>) {
    forall i, j :: 0 <= i < j < |requests| ==> requests[i].id != requests[j].id
  }

  predicate HasId(requests: seq<HelpRequest>, id: int) {
    exists i :: 0 <= i < |requests| && requests[i].id == id
  }

  // ---------------------------------------------------------------------------
  // The three pushed events
  // ---------------------------------------------------------------------------

  /** `HelpRequestReceived`: replace every entry with the pushed id in place, or append an unseen request. */
  function Received(prev: seq<HelpRequest>, req: HelpRequest): (r: seq<HelpRequest>)
    ensures !HasId(prev, req.id) ==> r == prev + [req]
    ensures HasId(prev, req.id) ==>
      && |r| == |prev|
      && forall i :: 0 <= i < |prev| ==> r[i] == (if prev[i].id == req.id then req else prev[i])
    ensures req in r
  {
    if HasId(prev, req.id) then
      var r := seq(|prev|, i requires 0 <= i < |prev| => if prev[i].id == req.id then req else prev[i]);
      var k :| 0 <= k < |prev| && prev[k].id == req.id;
      assert r[k] == req;
      r
    else prev + [req]
  }

  /** `HelpRequestResolved`: drop every entry with the id, keeping the others in order. */
  function Resolved(prev: seq<HelpRequest>, id: int): (r: seq<HelpRequest>)
    ensures forall x :: x in r <==> x in prev && x.id != id
    ensures forall x :: multiset(r)[x] == if x.id != id then multiset(prev)[x] else 0
    ensures IsSubseq(r, prev)
    ensures !HasId(r, id)
    ensures !HasId(prev, id) ==> r == prev
  {
    var r := Filter(prev, (x: HelpRequest) => x.id != id);
    FilterCount(prev, (x: HelpRequest) => x.id != id);
    assert !HasId(r, id) by {
      forall i | 0 <= i < |r| ensures r[i].id != id {
        assert r[i] in r;
      }
    }
    r
  }

  /** `HelpRequestsUpdated`: the pushed list becomes the cache. */
  function Updated(prev: seq<HelpRequest>, list: seq<HelpRequest>): seq<HelpRequest> {
    list
  }

  datatype Push = HelpRequestReceived(req: HelpRequest) | HelpRequestResolved(id: int) | HelpRequestsUpdated(list: seq<HelpRequest>)

  function ApplyPush(prev: seq<HelpRequest>, e: Push): seq<HelpRequest> {
    match e
    case HelpRequestReceived(req) => Received(prev, req)
    case HelpRequestResolved(id) => Resolved(prev, id)
    case HelpRequestsUpdated(list) => Updated(prev, list)
  }

  lemma ReceivedKeepsIdsUnique(prev: seq<HelpRequest>, req: HelpRequest)
    requires IdsUnique(prev)
    ensures IdsUnique(Received(prev, req))
  {
    var r := Received(prev, req);
    if HasId(prev, req.id) {
      forall i, j | 0 <= i < j < |r| ensures r[i].id != r[j].id {
        if prev[i].id == req.id {
          assert prev[j].id != req.id;
        } else if prev[j].id == req.id {
          assert prev[i].id != req.id;
        }
      }
    }
  }

  /** Distinct ids means: no entry twice, and entries sharing an id are the same entry. */
  predicate KeyedByIds(requests: seq<HelpRequest>) {
    && NoDup(requests)
    && forall x, y :: x in requests && y in requests && x.id == y.id ==> x == y
  }

  lemma IdsUniqueIsKeyed(requests: seq<HelpRequest>)
    ensures IdsUnique(requests) <==> KeyedByIds(requests)
  {
    if IdsUnique(requests) {
      forall x, y | x in requests && y in requests && x.id == y.id ensures x == y {
        var i :| 0 <= i < |requests| && requests[i] == x;
        var j :| 0 <= j < |requests| && requests[j] == y;
        assert !(i < j) && !(j < i);
      }
    }
    if KeyedByIds(requests) {
      forall i, j | 0 <= i < j < |requests| ensures requests[i].id != requests[j].id {
        assert requests[i] in requests && requests[j] in requests;
      }
    }
  }

  lemma ResolvedKeepsIdsUnique(prev: seq<HelpRequest>, id: int)
    requires IdsUnique(prev)
    ensures IdsUnique(Resolved(prev, id))
  {
    var p := (x: HelpRequest) => x.id != id;
    IdsUniqueIsKeyed(prev);
    FilterNoDup(prev, p);
    IdsUniqueIsKeyed(Resolved(prev, id));
  }

  /** A request pushed and then resolved, when its id was unseen, leaves the cache as it was. */
  lemma ResolvedUndoesFreshReceived(prev: seq<HelpRequest>, req: HelpRequest)
    requires !HasId(prev, req.id)
    ensures Resolved(Received(prev, req), req.id) == prev
  {
    var p := (x: HelpRequest) => x.id != req.id;
    FilterAppend(prev, [req], p);
    assert Filter([req], p) == [];
    assert Filter(prev, p) == prev;
  }

  /** Receiving the same request twice is the same as receiving it once. */
  lemma ReceivedIdempotent(prev: seq<HelpRequest>, req: HelpRequest)
    ensures Received(Received(prev, req), req) == Received(prev, req)
  {
    var once := Received(prev, req);
    assert HasId(once, req.id) by {
      var k :| 0 <= k < |once| && once[k] == req;
    }
  }

  /** After a wholesale update the cache is the pushed list, whatever the events before it. */
  lemma UpdatedForgetsHistory(prev: seq<HelpRequest>, events: seq<Push>, list: seq<HelpRequest>)
    ensures ApplyPush(ApplyAll(prev, events), HelpRequestsUpdated(list)) == list
    ensures ApplyPush(prev, HelpRequestsUpdated(list)) == ApplyPush([], HelpRequestsUpdated(list))
  {
  }

  function ApplyAll(prev: seq<HelpRequest>, events: seq<Push>): seq<HelpRequest>
    decreases |events|
  {
    if |events| == 0 then prev else ApplyAll(ApplyPush(prev, events[0]), events[1..])
  }

  /** Received and resolved events keep the cache free of duplicate ids; an update installs whatever list arrives. */
  lemma {:induction false} PushesKeepIdsUnique(prev: seq<HelpRequest>, events: seq<Push>)
    requires IdsUnique(prev)
    requires forall k :: 0 <= k < |events| && events[k].HelpRequestsUpdated? ==> IdsUnique(events[k].list)
    ensures IdsUnique(ApplyAll(prev, events))
    decreases |events|
  {
    if |events| > 0 {
      match events[0] {
        case HelpRequestReceived(req) => ReceivedKeepsIdsUnique(prev, req);
        case HelpRequestResolved(id) => ResolvedKeepsIdsUnique(prev, id);
        case HelpRequestsUpdated(list) =>
      }
      PushesKeepIdsUnique(ApplyPush(prev, events[0]), events[1..]);
    }
  }

  // ---------------------------------------------------------------------------
  // The connection and the connected flag
  // ---------------------------------------------------------------------------

  /** `connection` (set or null), `isConnected` and `helpRequests`. */
  datatype Channel = Channel(hasConnection: bool, connected: bool, requests: seq<HelpRequest>)

  const Initial := Channel(false, false, [])

  /**
    What happens to the connection. `Started(syncOk)`: `start()` resolved,
    then `GetActiveHelpRequests` was invoked, succeeding or throwing.
   */
  datatype Lifecycle = Started(syncOk: bool) | StartFailed | Reconnecting | Reconnected | Closed

  function OnLifecycle(ch: Channel, e: Lifecycle): (r: Channel)
    ensures r.requests == ch.requests
    ensures r.connected <==> e == Started(true) || e == Reconnected
    ensures r.hasConnection <==> ch.hasConnection || e.Started?
  {
    match e
    case Started(syncOk) => ch.(connected := syncOk, hasConnection := true)
    case StartFailed => ch.(connected := false)
    case Reconnecting => ch.(connected := false)
    case Reconnected => ch.(connected := true)
    case Closed => ch.(connected := false)
  }

  // ---------------------------------------------------------------------------
  // The outbound calls
  // ---------------------------------------------------------------------------

  const NotConnected := "Not connected to server"

  /** The message `sendHelpRequest` uses when the caller gives none. */
  const DefaultMessage := "Customer needs assistance"

  /** The `{ success, error }` object the calls resolve to. */
  datatype CallResult = Success | Failure(error: string)

  /** A hub method invoked on the server. */
  datatype Invocation = SendHelpRequestCall(tableNumber: string, message: string) | ResolveHelpRequestCall(requestId: int)

  datatype Call = Call(result: CallResult, invoked: Option<Invocation>)

  predicate Usable(ch: Channel) {
    ch.hasConnection && ch.connected
  }

  /** The `invoke` outcome turned into a result: `None` when it succeeded, the error message when it threw. */
  function Settle(inv: Invocation, thrown: Option<string>): (c: Call)
    ensures c.invoked == Some(inv)
    ensures c.result.Success? <==> thrown.None?
    ensures thrown.Some? ==> c.result.error == thrown.value
  {
    match thrown
    case None => Call(Success, Some(inv))
    case Some(msg) => Call(Failure(msg), Some(inv))
  }

  /** `sendHelpRequest(tableNumber, message)`; `message` is `None` when the argument is omitted. */
  function SendHelpRequest(ch: Channel, tableNumber: string, message: Option<string>, thrown: Option<string>): (c: Call)
    ensures !Usable(ch) ==> c == Call(Failure(NotConnected), None)
    ensures Usable(ch) ==> c.invoked == Some(SendHelpRequestCall(tableNumber, if message.Some? then message.value else DefaultMessage))
    ensures Usable(ch) ==> (c.result.Success? <==> thrown.None?)
  {
    if Usable(ch) then
      Settle(SendHelpRequestCall(tableNumber, match message case Some(m) => m case None => DefaultMessage), thrown)
    else Call(Failure(NotConnected), None)
  }

  /** `resolveHelpRequest(requestId)`. */
  function ResolveHelpRequest(ch: Channel, requestId: int, thrown: Option<string>): (c: Call)
    ensures !Usable(ch) ==> c == Call(Failure(NotConnected), None)
    ensures Usable(ch) ==> c.invoked == Some(ResolveHelpRequestCall(requestId))
    ensures Usable(ch) ==> (c.result.Success? <==> thrown.None?)
  {
    if Usable(ch) then Settle(ResolveHelpRequestCall(requestId), thrown)
    else Call(Failure(NotConnected), None)
  }

  // ---------------------------------------------------------------------------
  // Everything that can happen to the channel
  // ---------------------------------------------------------------------------

  datatype HubEvent =
    | Pushed(push: Push)
    | Connection(lifecycle: Lifecycle)
    | SendCalled(tableNumber: string, message: Option<string>, thrown: Option<string>)
    | ResolveCalled(requestId: int, thrown: Option<string>)

  function Step(ch: Channel, e: HubEvent): Channel {
    match e
    case Pushed(p) => ch.(requests := ApplyPush(ch.requests, p))
    case Connection(l) => OnLifecycle(ch, l)
    case SendCalled(_, _, _) => ch
    case ResolveCalled(_, _) => ch
  }

  function Run(ch: Channel, events: seq<HubEvent>): Channel
    decreases |events|
  {
    if |events| == 0 then ch else Run(Step(ch, events[0]), events[1..])
  }

  function PushesOf(events: seq<HubEvent>): (r: seq<Push>)
    ensures |r| <= |events|
  {
    if |events| == 0 then []
    else if events[0].Pushed? then [events[0].push] + PushesOf(events[1..])
    else PushesOf(events[1..])
  }

  /**
    The cache changes only through pushed events: calling resolve (or send)
    never edits it, so the cache after any run is the pushes applied in order.
   */
  lemma {:induction false} OnlyPushesChangeRequests(ch: Channel, events: seq<HubEvent>)
    ensures Run(ch, events).requests == ApplyAll(ch.requests, PushesOf(events))
    decreases |events|
  {
    if |events| > 0 {
      OnlyPushesChangeRequests(Step(ch, events[0]), events[1..]);
    }
  }

  /**
    A start that fails leaves no connection, and reconnect events do not
    create one: from then on every outbound call fails closed.
   */
  lemma {:induction false} FailedStartFailsClosed(ch: Channel, events: seq<HubEvent>)
    requires !ch.hasConnection
    requires forall k :: 0 <= k < |events| ==> !(events[k].Connection? && events[k].lifecycle.Started?)
    ensures !Run(ch, events).hasConnection
    ensures forall t, m, x :: SendHelpRequest(Run(ch, events), t, m, x) == Call(Failure(NotConnected), None)
    decreases |events|
  {
    if |events| > 0 {
      FailedStartFailsClosed(Step(ch, events[0]), events[1..]);
    }
  }
}
