/** The rewards screen (nfcp.tsx) as a state machine: the same permission
    gate and button as the invoice screen, but a tag read only stores the
    text. The redemption call in its message effect is commented out, so the
    screen never asks for parameters, calls a callback or pays anything, and
    its loading flag is never set. */
module RewardsScreen {
  import opened Js
  import opened Ndef
  import opened Effects
  import opened Gate

  /** The screen's props, fixed for an instance. */
  datatype Config = Config(payoutRequest: Option<string>, decode: Decoder)

  datatype State = State(gate: Gate, nfcMessage: string, loading: bool)

  datatype Event =
    | PermissionChanged(state: PermissionState, scan: ScanOutcome)
    | ActivateClicked(scan: ScanOutcome)
    | TagRead(records: seq<NdefRecord>)

  /** What is rendered: the loading view, or the screen with the activation
      button when there is one. */
  datatype View = LoadingView | Screen(button: Option<Button>)

  /** The render: the button exists only when `payoutRequest` is defined. */
  function ViewOf(cfg: Config, s: State): (v: View)
    ensures v.LoadingView? <==> s.loading
    ensures v.Screen? ==> (v.button.Some? <==> cfg.payoutRequest.Some?)
    ensures v.Screen? && v.button.Some? ==> v.button.value == ActivateButton(s.gate.supported, s.gate.permitted)
  {
    if s.loading then LoadingView
    else if cfg.payoutRequest.Some? then Screen(Some(ActivateButton(s.gate.supported, s.gate.permitted)))
    else Screen(None)
  }

  /** The screen after mount. */
  function Init(supported: bool, probe: Probe, scan: ScanOutcome): (r: (State, seq<Effect>))
    ensures !r.0.loading && r.0.nfcMessage == ""
    ensures r.0.gate == Mount(supported, probe, scan).0
  {
    var (g, es) := Mount(supported, probe, scan);
    (State(g, "", false), es)
  }

  function Step(cfg: Config, s: State, e: Event): (State, seq<Effect>) {
    match e
    case PermissionChanged(st, o) =>
      var (g, es) := PermissionChange(s.gate, st, o);
      (s.(gate := g), es)
    case ActivateClicked(o) =>
      var v := ViewOf(cfg, s);
      if v.Screen? && v.button.Some? && !v.button.value.disabled then
        var (g, es) := Activate(s.gate, o);
        (s.(gate := g), es)
      else (s, [])
    case TagRead(records) =>
      if s.gate.readers == 0 then (s, [])
      else
        var decoded := DecodeFirst(records, cfg.decode);
        if decoded.DecodeFault? then (s, []) else (s.(nfcMessage := decoded.text), [])
  }

  function RunEvents(cfg: Config, s: State, events: seq<Event>): (State, seq<Effect>)
    decreases |events|
  {
    if |events| == 0 then (s, [])
    else
      var (s1, e1) := Step(cfg, s, events[0]);
      var (s2, e2) := RunEvents(cfg, s1, events[1..]);
      (s2, e1 + e2)
  }

  /** The only things this screen does to the world: start a scan, or show
      the activation alert. */
  predicate GateOnly(es: seq<Effect>) {
    forall i :: 0 <= i < |es| ==> es[i] == StartScan || es[i] == Alert(ActivatedAlert)
  }

  /** One step keeps the loading flag and does nothing but scan or alert the
      activation; a read with a listener stores the first record's text. */
  lemma StepOnlyGates(cfg: Config, s: State, e: Event)
    ensures var (s1, es) := Step(cfg, s, e);
      && GateOnly(es) && s1.loading == s.loading
      && (e.TagRead? && s.gate.readers > 0 && DecodeFirst(e.records, cfg.decode).Text? ==>
            s1 == s.(nfcMessage := DecodeFirst(e.records, cfg.decode).text) && es == [])
  {
    match e
    case PermissionChanged(st, o) =>
      var es := PermissionChange(s.gate, st, o).1;
      assert |es| > 0 ==> es == [StartScan];
    case ActivateClicked(o) =>
      var es := Activate(s.gate, o).1;
      assert es == [Alert(ActivatedAlert)] || es == [StartScan, Alert(ActivatedAlert)];
    case TagRead(records) =>
  }

  /** Over any run the screen never enters the loading view, never requests
      anything and never pays out: every effect is a scan or the activation
      alert. */
  lemma {:induction false} NeverRedeems(cfg: Config, s: State, events: seq<Event>)
    ensures var (s1, es) := RunEvents(cfg, s, events);
      && GateOnly(es) && s1.loading == s.loading
      && CountPosts(es) == 0 && CountNavigations(es) == 0 && FetchedUrl(es) == None
    decreases |events|
  {
    var (s1, es) := RunEvents(cfg, s, events);
    if |events| > 0 {
      var (t1, e1) := Step(cfg, s, events[0]);
      var (t2, e2) := RunEvents(cfg, t1, events[1..]);
      StepOnlyGates(cfg, s, events[0]);
      NeverRedeems(cfg, t1, events[1..]);
      assert es == e1 + e2;
      assert GateOnly(es) by {
        forall i | 0 <= i < |es|
          ensures es[i] == StartScan || es[i] == Alert(ActivatedAlert)
        {
          if i < |e1| { assert es[i] == e1[i]; } else { assert es[i] == e2[i - |e1|]; }
        }
      }
    }
    GateOnlyCounts(es);
  }

  lemma {:induction false} GateOnlyCounts(es: seq<Effect>)
    requires GateOnly(es)
    ensures CountPosts(es) == 0 && CountNavigations(es) == 0 && FetchedUrl(es) == None
    decreases |es|
  {
    if |es| > 0 {
      assert GateOnly(es[1..]) by {
        forall i | 0 <= i < |es[1..]|
          ensures es[1..][i] == StartScan || es[1..][i] == Alert(ActivatedAlert)
        {
          assert es[1..][i] == es[i + 1];
        }
      }
      GateOnlyCounts(es[1..]);
    }
  }

  /** Without a Permissions API (or when the query throws) the flag stays
      false over any run: permission changes go unheard and only a click on
      the button can start a scan. */
  lemma {:induction false} NoProbeKeepsFlagOff(cfg: Config, s: State, events: seq<Event>)
    requires !s.gate.subscribed && !s.gate.permitted
    ensures var s1 := RunEvents(cfg, s, events).0;
      !s1.gate.subscribed && !s1.gate.permitted
    decreases |events|
  {
    if |events| > 0 {
      var (t1, e1) := Step(cfg, s, events[0]);
      assert !t1.gate.subscribed && !t1.gate.permitted;
      NoProbeKeepsFlagOff(cfg, t1, events[1..]);
    }
  }
}
