/** The permission gate shared by the three screens: the capability probe and
    permission query at mount, the `onchange` subscription, the scan started
    whenever the permission flag turns on, and the activation button. */
module Gate {
  import opened Js
  import opened Effects

  datatype PermissionState = Granted | Denied | Prompt

  /** How the permission query at mount went: no Permissions API, a query
      that threw, or a permission status. */
  datatype Probe = NoPermissionsApi | QueryFailed | Queried(state: PermissionState)

  /** Whether `ndef.scan()` resolved (a rejection is caught and logged). */
  datatype ScanOutcome = ScanResolved | ScanRejected

  /** `supported`: "NDEFReader" in window; `permitted`: hasNFCPermission;
      `subscribed`: an `onchange` listener is registered; `readers`: scan
      sessions that resolved, each with its own `onreading` listener. */
  datatype Gate = Gate(supported: bool, permitted: bool, subscribed: bool, readers: nat)

  /** `handleNFCScan()`: nothing without NFC support; otherwise a scan is
      started, and a resolved scan adds a reader. */
  function HandleScan(g: Gate, outcome: ScanOutcome): (Gate, seq<Effect>) {
    if !g.supported then (g, [])
    else (g.(readers := g.readers + (if outcome.ScanResolved? then 1 else 0)), [StartScan])
  }

  /** `setHasNFCPermission(v)` and the effect depending on the flag, which
      scans only when the flag changes to true. */
  function SetPermission(g: Gate, v: bool, outcome: ScanOutcome): (Gate, seq<Effect>) {
    var g1 := g.(permitted := v);
    if !g.permitted && v then HandleScan(g1, outcome) else (g1, [])
  }

  /** A permission change reported while `g` holds the flag `before`. */
  predicate Rises(before: bool, state: PermissionState) {
    !before && state == Granted
  }

  /** The gate after mount: the query result sets the flag and subscribes to
      changes; without a Permissions API, or when the query throws, the flag
      stays false and nothing is subscribed. */
  function Mount(supported: bool, probe: Probe, outcome: ScanOutcome): (r: (Gate, seq<Effect>))
    ensures r.0.supported == supported
    ensures r.0.subscribed <==> probe.Queried?
    ensures r.0.permitted <==> (probe.Queried? && probe.state == Granted)
    ensures CountScans(r.1) == (if r.0.permitted && supported then 1 else 0)
  {
    var g := Gate(supported, false, false, 0);
    match probe
    case NoPermissionsApi => (g, [])
    case QueryFailed => (g, [])
    case Queried(st) => SetPermission(g.(subscribed := true), st == Granted, outcome)
  }

  /** `result.onchange`: the flag follows the new state, and a scan starts
      exactly when the flag turns from false to true on a supported device.
      Without a subscription the change goes unheard. */
  function PermissionChange(g: Gate, state: PermissionState, outcome: ScanOutcome): (r: (Gate, seq<Effect>))
    ensures g.subscribed ==> r.0.permitted == (state == Granted)
    ensures !g.subscribed ==> r == (g, [])
    ensures r.0.supported == g.supported && r.0.subscribed == g.subscribed
    ensures CountScans(r.1) == (if g.subscribed && g.supported && Rises(g.permitted, state) then 1 else 0)
    ensures r.0.readers == g.readers + (if g.subscribed && g.supported && Rises(g.permitted, state) && outcome.ScanResolved? then 1 else 0)
  {
    if !g.subscribed then (g, []) else SetPermission(g, state == Granted, outcome)
  }

  /** Number of changes in `states` that turn the flag on, starting from `permitted`. */
  function RiseCount(permitted: bool, states: seq<PermissionState>): nat
    decreases |states|
  {
    if |states| == 0 then 0
    else (if Rises(permitted, states[0]) then 1 else 0) + RiseCount(states[0] == Granted, states[1..])
  }

  /** A sequence of permission changes, each with its scan outcome. */
  function PermissionChanges(g: Gate, states: seq<PermissionState>, outcomes: seq<ScanOutcome>): (r: (Gate, seq<Effect>))
    requires |outcomes| == |states|
    decreases |states|
  {
    if |states| == 0 then (g, [])
    else
      var (g1, e1) := PermissionChange(g, states[0], outcomes[0]);
      var (g2, e2) := PermissionChanges(g1, states[1..], outcomes[1..]);
      (g2, e1 + e2)
  }

  /** Over any sequence of changes on a subscribed, supported gate, the flag
      ends equal to the last state being granted, and one scan starts per
      change that turns the flag on. */
  lemma {:induction false} ScansFollowRises(g: Gate, states: seq<PermissionState>, outcomes: seq<ScanOutcome>)
    requires |outcomes| == |states|
    requires g.subscribed && g.supported
    ensures var r := PermissionChanges(g, states, outcomes);
      && CountScans(r.1) == RiseCount(g.permitted, states)
      && r.0.permitted == (if |states| == 0 then g.permitted else states[|states| - 1] == Granted)
    decreases |states|
  {
    if |states| > 0 {
      var (g1, e1) := PermissionChange(g, states[0], outcomes[0]);
      var (g2, e2) := PermissionChanges(g1, states[1..], outcomes[1..]);
      ScansFollowRises(g1, states[1..], outcomes[1..]);
      CountsAppend(e1, e2);
      if |states| > 1 {
        assert states[1..][|states[1..]| - 1] == states[|states| - 1];
      }
    }
  }

  /** A gate that never subscribed (no Permissions API, or the query threw)
      keeps its flag false and starts no scan, whatever changes follow. */
  lemma {:induction false} UnsubscribedGateStaysShut(g: Gate, states: seq<PermissionState>, outcomes: seq<ScanOutcome>)
    requires |outcomes| == |states|
    requires !g.subscribed
    ensures PermissionChanges(g, states, outcomes) == (g, [])
    decreases |states|
  {
    if |states| > 0 {
      UnsubscribedGateStaysShut(g, states[1..], outcomes[1..]);
      var none: seq<Effect> := [];
      assert none + none == none;
    }
  }

  const NotSupportedLabel := "Flashcard not supported"
  const ActivatedLabel := "Flashcard activated"
  const ActivateLabel := "Activate Flashcard Tap to Pay"
  const ActivatedAlert := "Flashcard is now active. There will be no need to activate it again. Please tap your card to redeem the payment"

  datatype Button = Button(caption: string, disabled: bool)

  /** The activation button: disabled iff the flag is on or NFC is
      unsupported; its label names the first of: unsupported, activated,
      activate. */
  function ActivateButton(supported: bool, permitted: bool): (b: Button)
    ensures b.disabled <==> (permitted || !supported)
    ensures !supported ==> b.caption == NotSupportedLabel
    ensures supported && permitted ==> b.caption == ActivatedLabel
    ensures supported && !permitted ==> b.caption == ActivateLabel
  {
    Button(if !supported then NotSupportedLabel else if permitted then ActivatedLabel else ActivateLabel,
           permitted || !supported)
  }

  /** The button can be pressed exactly when it invites activation. */
  lemma EnabledIffInvitesActivation(supported: bool, permitted: bool)
    ensures var b := ActivateButton(supported, permitted);
      !b.disabled <==> b.caption == ActivateLabel
  {
  }

  /** `activateNfcScan()`: a scan attempt, then the activation alert (scan
      failures are caught inside `handleNFCScan`). */
  function Activate(g: Gate, outcome: ScanOutcome): (r: (Gate, seq<Effect>))
    ensures |r.1| >= 1 && r.1[|r.1| - 1] == Alert(ActivatedAlert)
    ensures r.0.permitted == g.permitted
    ensures CountScans(r.1) == (if g.supported then 1 else 0)
  {
    var (g1, e) := HandleScan(g, outcome);
    CountsAppend(e, [Alert(ActivatedAlert)]);
    (g1, e + [Alert(ActivatedAlert)])
  }
}
