/**
  The waiter's portal (`WaiterPortal`): the open help requests newest
  first, and what resolving or selecting a request does to the selection
  and, on a phone-sized screen, to the sidebar.
 */
module WaiterPortal {
  import opened Seqs
  import opened Sorting
  import HelpHub

  type HelpRequest = HelpHub.HelpRequest

  /** The comparator `new Date(b.timestamp) - new Date(a.timestamp)`: `a` may come first when it is not older. */
  predicate NewerOrSame(a: HelpRequest, b: HelpRequest) {
    a.timestamp >= b.timestamp
  }

  lemma NewerOrSameIsTotalPreorder()
    ensures TotalPreorder(NewerOrSame)
  {
  }

  /** `sortedRequests`: the requests newest first. */
  function SortNewestFirst(requests: seq<HelpRequest>): (r: seq<HelpRequest>)
    ensures multiset(r) == multiset(requests)
    ensures forall i, j :: 0 <= i < j < |r| ==> r[i].timestamp >= r[j].timestamp
  {
    NewerOrSameIsTotalPreorder();
    var r := SortBy(requests, NewerOrSame);
    assert Sorted(r, NewerOrSame);
    r
  }

  /** The selected request, whether the sidebar is shown, whether the screen is phone-sized, and the alerts so far. */
  datatype Portal = Portal(selected: Option<HelpRequest>, showSidebar: bool, isMobile: bool, alerts: seq<string>)

  function ResolveFailedAlert(error: string): string {
    "Failed to resolve request: " + error
  }

  /**
    `handleResolveRequest(requestId)` against the channel: on success the
    selection is cleared and a phone shows the list again; on failure the
    alert names the error and nothing else changes.
   */
  function HandleResolveRequest(p: Portal, ch: HelpHub.Channel, requestId: int, thrown: Option<string>)
    : (r: (Portal, HelpHub.Call))
    ensures r.1 == HelpHub.ResolveHelpRequest(ch, requestId, thrown)
    ensures r.1.result.Success? ==>
      r.0.selected == None && r.0.showSidebar == (p.showSidebar || p.isMobile) && r.0.alerts == p.alerts
    ensures r.1.result.Failure? ==>
      r.0 == p.(alerts := p.alerts + [ResolveFailedAlert(r.1.result.error)])
    ensures r.0.isMobile == p.isMobile
  {
    var call := HelpHub.ResolveHelpRequest(ch, requestId, thrown);
    var next :=
      if call.result.Success? then
        p.(selected := None, showSidebar := if p.isMobile then true else p.showSidebar)
      else p.(alerts := p.alerts + [ResolveFailedAlert(call.result.error)]);
    (next, call)
  }

  /** `handleRequestSelect(request)`: it becomes the selection, and a phone hides the list to show it. */
  function HandleRequestSelect(p: Portal, request: HelpRequest): (r: Portal)
    ensures r.selected == Some(request)
    ensures r.showSidebar == (p.showSidebar && !p.isMobile)
    ensures r.alerts == p.alerts && r.isMobile == p.isMobile
  {
    p.(selected := Some(request), showSidebar := if p.isMobile then false else p.showSidebar)
  }

  /**
    Selecting then resolving a request while connected: the selection is
    cleared, a phone is back on the list, the hub is asked to resolve that id,
    and once the server pushes the resolution the request is no longer listed.
   */
  lemma SelectResolveFlow(p: Portal, ch: HelpHub.Channel, request: HelpRequest)
    requires HelpHub.Usable(ch)
    ensures var (after, call) := HandleResolveRequest(HandleRequestSelect(p, request), ch, request.id, None);
      && after.selected == None
      && (p.isMobile ==> after.showSidebar)
      && call.invoked == Some(HelpHub.ResolveHelpRequestCall(request.id))
      && request !in SortNewestFirst(HelpHub.Resolved(ch.requests, request.id))
  {
    var listed := SortNewestFirst(HelpHub.Resolved(ch.requests, request.id));
    assert request !in HelpHub.Resolved(ch.requests, request.id);
    assert request !in multiset(listed);
  }

  /** While disconnected a resolve fails closed: the selection stays and the alert says why. */
  lemma DisconnectedResolveKeepsSelection(p: Portal, ch: HelpHub.Channel, requestId: int, thrown: Option<string>)
    requires !HelpHub.Usable(ch)
    ensures var (after, call) := HandleResolveRequest(p, ch, requestId, thrown);
      after.selected == p.selected && call.invoked == None
      && after.alerts == p.alerts + [ResolveFailedAlert(HelpHub.NotConnected)]
  {
  }

  /** The sorted view lists the same requests, so its count is the cache's. */
  lemma {:induction false} SortedViewSameRequests(requests: seq<HelpRequest>)
    ensures |SortNewestFirst(requests)| == |requests|
    ensures forall x :: x in SortNewestFirst(requests) <==> x in requests
  {
    var r := SortNewestFirst(requests);
    assert |multiset(r)| == |multiset(requests)|;
    forall x ensures x in r <==> x in requests {
      assert x in r <==> x in multiset(r);
      assert x in requests <==> x in multiset(requests);
    }
  }
}
