/** The invoice screen (nfc.tsx) as a state machine. With an invoice, a tag
    read stores the text and the change of text starts one redemption attempt
    (`nfcHandler`); in payout mode (`paymentRequest === "payout"`) a read only
    asks for the balance page, and every new lnurl found there is paid out.
    Without an invoice the screen shows the activation button. */
module InvoiceScreen {
  import opened Js
  import opened Ndef
  import opened Effects
  import opened Gate
  import opened Balance
  import opened Rewards
  import opened Withdraw

  /** The screen's props and environment, fixed for an instance. */
  datatype Config = Config(paymentRequest: Option<string>, env: Env, decode: Decoder)

  /** `pendingLookups` counts balance-page requests still awaiting an answer. */
  datatype State = State(gate: Gate, nfcMessage: string, loading: bool, lnurl: Option<string>, pendingLookups: nat)

  /** A tag read carries, besides the records, what the redemption attempt it
      may start will see: the resolved lnurl parameters and the callback answer. */
  datatype Event =
    | PermissionChanged(state: PermissionState, scan: ScanOutcome)
    | ActivateClicked(scan: ScanOutcome)
    | TagRead(records: seq<NdefRecord>, params: Resolution, fetched: Fetched)
    | BalancePage(html: Option<string>)   // None: the request failed or the answer is not text

  const PayoutMode := "payout"

  /** What is rendered: the full-screen loading view, or the screen with the
      activation button when there is one. */
  datatype View = LoadingView | Screen(button: Option<Button>)

  /** The render: loading wins; the button exists only without an invoice. */
  function ViewOf(cfg: Config, s: State): (v: View)
    ensures v.LoadingView? <==> s.loading
    ensures v.Screen? ==> (v.button.Some? <==> cfg.paymentRequest.None?)
    ensures v.Screen? && v.button.Some? ==> v.button.value == ActivateButton(s.gate.supported, s.gate.permitted)
  {
    if s.loading then LoadingView
    else if cfg.paymentRequest.None? then Screen(Some(ActivateButton(s.gate.supported, s.gate.permitted)))
    else Screen(None)
  }

  /** The screen after mount. */
  function Init(supported: bool, probe: Probe, scan: ScanOutcome): (r: (State, seq<Effect>))
    ensures !r.0.loading && r.0.lnurl == None && r.0.nfcMessage == "" && r.0.pendingLookups == 0
    ensures r.0.gate == Mount(supported, probe, scan).0
  {
    var (g, es) := Mount(supported, probe, scan);
    (State(g, "", false, None, 0), es)
  }

  /** `setNfcMessage(text)` and the effect on `[nfcMessage, paymentRequest]`:
      an unchanged text re-runs nothing; a changed one starts `nfcHandler`
      when both the text and the invoice are truthy, and the loading flag
      follows the attempt's effects. */
  function NewText(cfg: Config, s: State, text: string, params: Resolution, fetched: Fetched): (State, seq<Effect>) {
    if text == s.nfcMessage then (s, [])
    else if Triggered(text, cfg.paymentRequest) then
      var r := NfcHandler(text, cfg.paymentRequest, params, fetched);
      (s.(nfcMessage := text, loading := LoadingAfter(s.loading, r.effects)), r.effects)
    else (s.(nfcMessage := text), [])
  }

  /** One awaited balance answer: `setLnurl(match[1])`; a page without a match
      throws inside the caught block and changes nothing. A changed lnurl
      re-runs the `[lnurl]` effect, which pays it out. */
  function Answer(cfg: Config, s: State, submitted: Submitted): (State, seq<Effect>)
    requires s.pendingLookups > 0
  {
    var s1 := s.(pendingLookups := s.pendingLookups - 1);
    match submitted
    case NoMatch => (s1, [])
    case Caught => (s1, [])
    case Stored(cap) =>
      if s.lnurl == Some(cap) then (s1, [])
      else (s1.(lnurl := Some(cap)), RedeemRewards(Some(cap), cfg.env))
  }

  function Step(cfg: Config, s: State, e: Event): (State, seq<Effect>) {
    match e
    case PermissionChanged(st, o) =>
      var (g, es) := PermissionChange(s.gate, st, o);
      (s.(gate := g), es)
    case ActivateClicked(o) =>
      var v := ViewOf(cfg, s);
      if v.Screen? && v.button.Some? && !v.button.value.disabled then
        var (g, es) := Activate(s.gate, o);
        (s.(gate := g), es)
      else (s, [])
    case TagRead(records, params, fetched) =>
      if s.gate.readers == 0 then (s, [])
      else
        var decoded := DecodeFirst(records, cfg.decode);
        if decoded.DecodeFault? then (s, [])
        else if cfg.paymentRequest == Some(PayoutMode) then
          var es := Lookups(decoded.text, s.gate.readers);
          (s.(pendingLookups := s.pendingLookups + |es|), es)
        else NewText(cfg, s, decoded.text, params, fetched)
    case BalancePage(html) =>
      if s.pendingLookups == 0 then (s, []) else Answer(cfg, s, SubmitUnguarded(html))
  }

  function RunEvents(cfg: Config, s: State, events: seq<Event>): (State, seq<Effect>)
    decreases |events|
  {
    if |events| == 0 then (s, [])
    else
      var (s1, e1) := Step(cfg, s, events[0]);
      var (s2, e2) := RunEvents(cfg, s1, events[1..]);
      (s2, e1 + e2)
  }

  /** A tag read with a listener, on a screen holding an invoice other than
      the payout marker: a new text is stored and, being truthy, starts
      exactly one redemption attempt whose effects are the step's effects and
      whose outcome sets the loading flag; the text already held starts
      nothing (React keeps the state and the effect does not re-run). */
  lemma TagReadRouting(cfg: Config, s: State, records: seq<NdefRecord>, params: Resolution, fetched: Fetched)
    requires s.gate.readers > 0
    requires Truthy(cfg.paymentRequest) && cfg.paymentRequest != Some(PayoutMode)
    requires DecodeFirst(records, cfg.decode).Text?
    ensures var t := DecodeFirst(records, cfg.decode).text;
      var (s1, es) := Step(cfg, s, TagRead(records, params, fetched));
      && (t == s.nfcMessage ==> s1 == s && es == [])
      && (t != s.nfcMessage && t != "" ==>
            var r := NfcHandler(t, cfg.paymentRequest, params, fetched);
            && s1 == s.(nfcMessage := t, loading := LoadingAfter(s.loading, r.effects))
            && es == r.effects)
      && (t != s.nfcMessage && t == "" ==> s1 == s.(nfcMessage := "") && es == [])
  {
  }

  /** Without an invoice (none, or an empty one) a read never starts the
      handler: the text is stored, and nothing happens. */
  lemma NoInvoiceNoRun(cfg: Config, s: State, records: seq<NdefRecord>, params: Resolution, fetched: Fetched)
    requires !Truthy(cfg.paymentRequest)
    ensures var (s1, es) := Step(cfg, s, TagRead(records, params, fetched));
      && es == [] && s1.loading == s.loading && s1.lnurl == s.lnurl && s1.gate == s.gate
      && s1.pendingLookups == s.pendingLookups
      && (s.gate.readers > 0 && DecodeFirst(records, cfg.decode).Text? ==>
            s1.nfcMessage == DecodeFirst(records, cfg.decode).text)
  {
  }

  /** A message without records makes the read handler throw before it
      stores anything: the step changes nothing. */
  lemma EmptyMessageChangesNothing(cfg: Config, s: State, params: Resolution, fetched: Fetched)
    ensures Step(cfg, s, TagRead([], params, fetched)) == (s, [])
  {
  }

  /** A redemption attempt that throws (an unparseable callback, a failed
      request, a non-JSON answer, or an error answer without a reason)
      leaves the screen on the loading view; only a later attempt, started
      by a different text, can clear the flag. */
  lemma FaultLeavesLoadingView(cfg: Config, s: State, records: seq<NdefRecord>, params: Resolution, fetched: Fetched)
    requires s.gate.readers > 0
    requires Truthy(cfg.paymentRequest) && cfg.paymentRequest != Some(PayoutMode)
    requires DecodeFirst(records, cfg.decode).Text?
    requires var t := DecodeFirst(records, cfg.decode).text;
      t != s.nfcMessage && t != "" && NfcHandler(t, cfg.paymentRequest, params, fetched).faulted
    ensures ViewOf(cfg, Step(cfg, s, TagRead(records, params, fetched)).0) == LoadingView
  {
    var t := DecodeFirst(records, cfg.decode).text;
    NfcHandlerLoading(t, cfg.paymentRequest, params, fetched, s.loading);
  }

  /** An attempt that completes, whatever its verdict, takes the screen back
      from the loading view. */
  lemma CompletedAttemptClearsLoading(cfg: Config, s: State, records: seq<NdefRecord>, params: Resolution, fetched: Fetched)
    requires s.gate.readers > 0
    requires Truthy(cfg.paymentRequest) && cfg.paymentRequest != Some(PayoutMode)
    requires DecodeFirst(records, cfg.decode).Text?
    requires var t := DecodeFirst(records, cfg.decode).text;
      && t != s.nfcMessage && Contains(LowerAscii(t), "lnurl")
      && !NfcHandler(t, cfg.paymentRequest, params, fetched).faulted
    ensures !Step(cfg, s, TagRead(records, params, fetched)).0.loading
  {
    var t := DecodeFirst(records, cfg.decode).text;
    ReadIsNewText(cfg, s, records, params, fetched);
    assert t != "" by { NonEmptyContainer(LowerAscii(t), "lnurl"); }
    NfcHandlerLoading(t, cfg.paymentRequest, params, fetched, s.loading);
  }

  /** Off payout mode, a read with a listener is the arrival of its text. */
  lemma ReadIsNewText(cfg: Config, s: State, records: seq<NdefRecord>, params: Resolution, fetched: Fetched)
    requires s.gate.readers > 0 && cfg.paymentRequest != Some(PayoutMode)
    requires DecodeFirst(records, cfg.decode).Text?
    ensures Step(cfg, s, TagRead(records, params, fetched))
         == NewText(cfg, s, DecodeFirst(records, cfg.decode).text, params, fetched)
  {
  }

  /** The missing-invoice alert of the handler is dead code on this screen:
      no step ever starts with it. */
  lemma NoMissingInvoiceAlert(cfg: Config, s: State, e: Event)
    ensures var es := Step(cfg, s, e).1;
      |es| > 0 ==> es[0] != Alert(MissingInvoice)
  {
    match e
    case PermissionChanged(st, o) =>
      var es := PermissionChange(s.gate, st, o).1;
      if |es| > 0 {
        assert es[0] == StartScan;
      }
    case ActivateClicked(o) =>
      var es := Activate(s.gate, o).1;
      if |es| > 0 && s.gate.supported {
        assert es[0] == StartScan;
      }
    case TagRead(records, params, fetched) =>
      var decoded := DecodeFirst(records, cfg.decode);
      if s.gate.readers > 0 && decoded.Text? && cfg.paymentRequest != Some(PayoutMode)
         && decoded.text != s.nfcMessage && Triggered(decoded.text, cfg.paymentRequest) {
        MissingInvoiceUnreachable(decoded.text, cfg.paymentRequest, params, fetched);
      }
    case BalancePage(html) =>
  }

  /** One step in payout mode: the text and the loading flag stay as they
      are, no callback is requested and nothing navigates. */
  lemma PayoutModeStep(cfg: Config, s: State, e: Event)
    requires cfg.paymentRequest == Some(PayoutMode)
    ensures var (s1, es) := Step(cfg, s, e);
      && s1.nfcMessage == s.nfcMessage && s1.loading == s.loading
      && FetchedUrl(es) == None && CountNavigations(es) == 0
  {
    match e
    case PermissionChanged(st, o) =>
      NoRedemptionInGateEffects(s.gate, st, o);
    case ActivateClicked(o) =>
    case TagRead(records, params, fetched) =>
      PayoutModeRead(cfg, s, records, params, fetched);
    case BalancePage(html) =>
      if s.pendingLookups > 0 {
        AnswerOnlyPays(cfg, s, SubmitUnguarded(html));
      }
  }

  /** In payout mode a read only starts balance lookups: those of the
      decoded text, one per listener, each awaited. */
  lemma PayoutModeRead(cfg: Config, s: State, records: seq<NdefRecord>, params: Resolution, fetched: Fetched)
    requires cfg.paymentRequest == Some(PayoutMode)
    ensures var (s1, es) := Step(cfg, s, TagRead(records, params, fetched));
      && s1.nfcMessage == s.nfcMessage && s1.loading == s.loading
      && FetchedUrl(es) == None && CountNavigations(es) == 0
      && (forall i :: 0 <= i < |es| ==> es[i].BalanceLookup?)
      && s1.pendingLookups == s.pendingLookups + |es|
      && es == (if s.gate.readers > 0 && DecodeFirst(records, cfg.decode).Text?
                then Lookups(DecodeFirst(records, cfg.decode).text, s.gate.readers) else [])
  {
    var decoded := DecodeFirst(records, cfg.decode);
    if s.gate.readers > 0 && decoded.Text? {
      var lookups := Lookups(decoded.text, s.gate.readers);
      LookupsCount(decoded.text, s.gate.readers);
      FetchedUrlNone(lookups);
    }
  }

  /** A balance answer at most pays out: it keeps the text and the loading
      flag, and calls no callback and navigates nowhere. */
  lemma AnswerOnlyPays(cfg: Config, s: State, submitted: Submitted)
    requires s.pendingLookups > 0
    ensures var (s1, es) := Answer(cfg, s, submitted);
      && s1.nfcMessage == s.nfcMessage && s1.loading == s.loading
      && FetchedUrl(es) == None && CountNavigations(es) == 0
  {
    var es := Answer(cfg, s, submitted).1;
    FetchedUrlNone(es);
  }

  lemma NoRedemptionInGateEffects(g: Gate, st: PermissionState, o: ScanOutcome)
    ensures var es := PermissionChange(g, st, o).1;
      FetchedUrl(es) == None && CountNavigations(es) == 0
  {
    var es := PermissionChange(g, st, o).1;
    FetchedUrlNone(es);
  }

  /** Over any run in payout mode the screen never stores a text, never
      enters the loading view, never calls a withdraw callback and never
      navigates back. */
  lemma {:induction false} PayoutModeNeverRedeemsInvoice(cfg: Config, s: State, events: seq<Event>)
    requires cfg.paymentRequest == Some(PayoutMode)
    ensures var (s1, es) := RunEvents(cfg, s, events);
      && s1.nfcMessage == s.nfcMessage && s1.loading == s.loading
      && FetchedUrl(es) == None && CountNavigations(es) == 0
    decreases |events|
  {
    if |events| > 0 {
      var (s1, e1) := Step(cfg, s, events[0]);
      var (s2, e2) := RunEvents(cfg, s1, events[1..]);
      PayoutModeStep(cfg, s, events[0]);
      PayoutModeNeverRedeemsInvoice(cfg, s1, events[1..]);
      FetchedUrlAppend(e1, e2);
      CountsAppend(e1, e2);
    }
  }

  /** A balance answer pays out exactly when it brings an lnurl different from
      the one held; the payout goes to that lnurl and there is no limit on how
      many distinct lnurls get paid. */
  lemma AnswerPaysEachNewLnurl(cfg: Config, s: State, html: Option<string>)
    requires s.pendingLookups > 0
    ensures var sub := SubmitUnguarded(html);
      var (s1, es) := Step(cfg, s, BalancePage(html));
      && s1.pendingLookups == s.pendingLookups - 1
      && (sub.Stored? ==> s1.lnurl == Some(sub.lnurl))
      && (sub.Caught? ==> s1.lnurl == s.lnurl)
      && (CountPosts(es) == 1 <==> sub.Stored? && Some(sub.lnurl) != s.lnurl)
      && (CountPosts(es) == 1 ==> es == [PayoutPost(PayoutEndpoint(cfg.env), PayoutBody(sub.lnurl, RewardAmount, LightningLike))])
      && (CountPosts(es) != 1 ==> es == [])
  {
    var sub := SubmitUnguarded(html);
    if sub.Stored? && Some(sub.lnurl) != s.lnurl {
      var cap := sub.lnurl;
      assert |cap| > 5;
      assert Truthy(Some(cap));
      var es := RedeemRewards(Some(cap), cfg.env);
      assert es == [PayoutPost(PayoutEndpoint(cfg.env), PayoutBody(cap, RewardAmount, LightningLike))];
    }
  }

  /** Without an invoice, a click on the enabled button starts a scan and
      then shows the activation alert; a click on a disabled or absent
      button does nothing. */
  lemma ActivateClick(cfg: Config, s: State, o: ScanOutcome)
    ensures var (s1, es) := Step(cfg, s, ActivateClicked(o));
      && (!s.loading && cfg.paymentRequest.None? && s.gate.supported && !s.gate.permitted ==>
            es == [StartScan, Alert(ActivatedAlert)]
            && s1.gate.readers == s.gate.readers + (if o.ScanResolved? then 1 else 0))
      && (!(!s.loading && cfg.paymentRequest.None? && s.gate.supported && !s.gate.permitted) ==>
            s1 == s && es == [])
  {
  }
}
