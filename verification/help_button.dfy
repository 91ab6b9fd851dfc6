/**
  The customer's help button (`HelpButton`): the `isRequesting`,
  `requestSent` and `showMessage` flags around one `sendHelpRequest` call,
  the alerts on failure, the two timers, and when the button is disabled.
 */
module HelpButton {
  import opened Seqs
  import HelpHub

  /** The message the button always sends. */
  const HelpMessage := "Customer needs assistance"

  const TryAgainAlert := "Failed to send help request. Please try again."

  function FailureAlert(error: string): string {
    "Failed to send help request: " + error
  }

  /**
    The button's flags, the alerts shown so far, and which of the two timers
    a successful request started are still pending.
   */
  datatype Button = Button(
    isRequesting: bool,
    requestSent: bool,
    showMessage: bool,
    alerts: seq<string>,
    hidePending: bool,
    resetPending: bool)

  const Idle := Button(false, false, false, [], false, false)

  /** `disabled={isRequesting || requestSent || !isConnected}` */
  predicate Disabled(b: Button, connected: bool) {
    b.isRequesting || b.requestSent || !connected
  }

  /** What the awaited `sendHelpRequest` did: resolve to a result, or throw. */
  datatype Outcome = Returned(result: HelpHub.CallResult) | Threw

  /** The first half of `handleHelpRequest`: the guard, then `isRequesting` on while the call is in flight. */
  function Begin(b: Button): (r: Button)
    ensures b.isRequesting || b.requestSent ==> r == b
    ensures !(b.isRequesting || b.requestSent) ==> r == b.(isRequesting := true)
  {
    if b.isRequesting || b.requestSent then b else b.(isRequesting := true)
  }

  /** The second half: react to the outcome, then `finally` turn `isRequesting` off. */
  function Finish(b: Button, outcome: Outcome): (r: Button)
    ensures !r.isRequesting
    ensures outcome == Returned(HelpHub.Success) ==>
      r.requestSent && r.showMessage && r.hidePending && r.resetPending && r.alerts == b.alerts
    ensures outcome != Returned(HelpHub.Success) ==>
      r.requestSent == b.requestSent && r.showMessage == b.showMessage && |r.alerts| == |b.alerts| + 1
    ensures outcome.Returned? && outcome.result.Failure? ==>
      r.alerts == b.alerts + [FailureAlert(outcome.result.error)]
    ensures outcome.Threw? ==> r.alerts == b.alerts + [TryAgainAlert]
  {
    match outcome
    case Returned(result) =>
      if result.Success? then
        b.(isRequesting := false, requestSent := true, showMessage := true, hidePending := true, resetPending := true)
      else
        b.(isRequesting := false, alerts := b.alerts + [FailureAlert(result.error)])
    case Threw =>
      b.(isRequesting := false, alerts := b.alerts + [TryAgainAlert])
  }

  /**
    `handleHelpRequest` run to completion against the channel: the call goes
    out with the fixed message, and the button reacts to what it returned.
    `thrown` is the remote outcome of the hub `invoke`.
   */
  function HandleHelpRequest(b: Button, ch: HelpHub.Channel, tableNumber: string, thrown: Option<string>)
    : (r: (Button, Option<HelpHub.Call>))
    ensures b.isRequesting || b.requestSent ==> r == (b, None)
    ensures !(b.isRequesting || b.requestSent) ==>
      && r.1.Some?
      && !r.0.isRequesting
      && (r.1.value.invoked.Some? ==>
            r.1.value.invoked.value == HelpHub.SendHelpRequestCall(tableNumber, HelpMessage))
      && (r.0.requestSent <==> r.1.value.result.Success?)
  {
    if b.isRequesting || b.requestSent then (b, None)
    else
      var call := HelpHub.SendHelpRequest(ch, tableNumber, Some(HelpMessage), thrown);
      (Finish(Begin(b), Returned(call.result)), Some(call))
  }

  /**
    A press on the button: a disabled button swallows the click, otherwise
    `handleHelpRequest` runs.
   */
  function Press(b: Button, ch: HelpHub.Channel, tableNumber: string, thrown: Option<string>)
    : (r: (Button, Option<HelpHub.Call>))
    ensures !ch.connected ==> r == (b, None)
    ensures r.1.Some? <==> !Disabled(b, ch.connected)
    ensures r.1.Some? ==> !r.0.isRequesting && (r.0.requestSent <==> r.1.value.result.Success?)
    ensures r.1.None? ==> r.0 == b
  {
    if Disabled(b, ch.connected) then (b, None)
    else HandleHelpRequest(b, ch, tableNumber, thrown)
  }

  /** The 5 s timer: the confirmation message goes away. */
  function HideFires(b: Button): (r: Button)
    ensures b.hidePending ==> !r.showMessage && !r.hidePending
    ensures !b.hidePending ==> r == b
    ensures r.requestSent == b.requestSent && r.isRequesting == b.isRequesting
  {
    if b.hidePending then b.(showMessage := false, hidePending := false) else b
  }

  /** The 30 s timer: the button can be pressed again. */
  function ResetFires(b: Button): (r: Button)
    ensures b.resetPending ==> !r.requestSent && !r.resetPending
    ensures !b.resetPending ==> r == b
    ensures r.showMessage == b.showMessage && r.isRequesting == b.isRequesting
  {
    if b.resetPending then b.(requestSent := false, resetPending := false) else b
  }

  /**
    A press that does not get through leaves the button ready to try again:
    on an enabled button the failure is alerted once, and a disconnected
    button ignores the press altogether.
   */
  lemma FailureKeepsButtonUsable(tableNumber: string, thrown: Option<string>, ch: HelpHub.Channel)
    requires !HelpHub.Usable(ch) || thrown.Some?
    ensures var r := Press(Idle, ch, tableNumber, thrown).0;
      && !r.requestSent && !r.isRequesting
      && |r.alerts| == (if ch.connected then 1 else 0)
      && !Disabled(r, ch.connected) == ch.connected
  {
  }

  /** While the hub is disconnected the button is disabled: a press sends nothing and changes nothing. */
  lemma DisconnectedPressIgnored(b: Button, ch: HelpHub.Channel, tableNumber: string, thrown: Option<string>)
    requires !ch.connected
    ensures Press(b, ch, tableNumber, thrown) == (b, None)
  {
  }

  /**
    A successful request disables the button until the 30 s timer fires, and
    then it can be pressed again.
   */
  lemma SuccessCycle(ch: HelpHub.Channel, tableNumber: string)
    requires HelpHub.Usable(ch)
    ensures var r := Press(Idle, ch, tableNumber, None).0;
      && r.requestSent && r.showMessage && Disabled(r, ch.connected)
      && Press(r, ch, tableNumber, None) == (r, None)
      && !Disabled(ResetFires(HideFires(r)), ch.connected)
      && !ResetFires(HideFires(r)).showMessage
  {
  }
}
