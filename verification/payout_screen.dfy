/** The payout screen (payout.tsx) as a state machine. A tag read stores the
    text and, for `lnurlw` text, asks for the card's balance page; the lnurl
    found there is stored through a deduplicating setter; the first stored
    lnurl triggers one payout POST and a navigation back, and `hasRedeemed`
    then blocks every later payout of this screen instance. */
module PayoutScreen {
  import opened Js
  import opened Ndef
  import opened Effects
  import opened Gate
  import opened Balance
  import opened Rewards

  datatype Config = Config(env: Env, decode: Decoder)

  /** `pendingLookups` counts balance-page requests still awaiting an answer. */
  datatype State = State(gate: Gate, nfcMessage: string, loading: bool, lnurl: Option<string>,
                         hasRedeemed: bool, pendingLookups: nat)

  datatype Event =
    | PermissionChanged(state: PermissionState, scan: ScanOutcome)
    | TagRead(records: seq<NdefRecord>)
    | BalancePage(html: Option<string>)   // None: the request failed or the answer is not text

  /** The screen after mount. */
  function Init(supported: bool, probe: Probe, scan: ScanOutcome): (r: (State, seq<Effect>))
    ensures !r.0.loading && !r.0.hasRedeemed && r.0.lnurl == None && r.0.nfcMessage == ""
  {
    var (g, es) := Mount(supported, probe, scan);
    (State(g, "", false, None, false, 0), es)
  }

  /** `setLnurlSafely(v)`: the functional update keeps the previous value when
      it equals `v`, so the state always ends holding `v`. */
  function SetLnurlSafely(prev: Option<string>, v: string): (next: Option<string>)
    ensures next == Some(v)
  {
    if prev != Some(v) then Some(v) else prev
  }

  /** The effect on `[lnurl, hasRedeemed]`: with an lnurl and no redemption
      yet, pay out, mark redeemed and navigate back. */
  function RedeemEffect(s: State, env: Env): (r: (State, seq<Effect>))
    ensures r.0 == s.(hasRedeemed := s.hasRedeemed || Truthy(s.lnurl))
    ensures Truthy(s.lnurl) && !s.hasRedeemed ==>
      r.1 == RedeemRewards(s.lnurl, env) + [NavigateBack]
    ensures !(Truthy(s.lnurl) && !s.hasRedeemed) ==> r.1 == []
  {
    if Truthy(s.lnurl) && !s.hasRedeemed then (s.(hasRedeemed := true), RedeemRewards(s.lnurl, env) + [NavigateBack])
    else (s, [])
  }

  function Step(cfg: Config, s: State, e: Event): (State, seq<Effect>) {
    match e
    case PermissionChanged(st, o) =>
      var (g, es) := PermissionChange(s.gate, st, o);
      (s.(gate := g), es)
    case TagRead(records) =>
      if s.gate.readers == 0 then (s, [])
      else
        var decoded := DecodeFirst(records, cfg.decode);
        if decoded.DecodeFault? then (s, [])
        else
          var es := Lookups(decoded.text, s.gate.readers);
          (s.(nfcMessage := decoded.text, pendingLookups := s.pendingLookups + |es|), es)
    case BalancePage(html) =>
      if s.pendingLookups == 0 then (s, []) else Answer(cfg, s, SubmitGuarded(html))
  }

  /** One awaited balance answer: a capture goes through `setLnurlSafely`,
      and only a changed value re-runs the redeem effect. */
  function Answer(cfg: Config, s: State, submitted: Submitted): (State, seq<Effect>)
    requires s.pendingLookups > 0
  {
    var s1 := s.(pendingLookups := s.pendingLookups - 1);
    match submitted
    case NoMatch => (s1, [])
    case Caught => (s1, [])
    case Stored(cap) =>
      var s2 := s1.(lnurl := SetLnurlSafely(s.lnurl, cap));
      if s2.lnurl == s.lnurl then (s2, []) else RedeemEffect(s2, cfg.env)
  }

  function RunEvents(cfg: Config, s: State, events: seq<Event>): (State, seq<Effect>)
    decreases |events|
  {
    if |events| == 0 then (s, [])
    else
      var (s1, e1) := Step(cfg, s, events[0]);
      var (s2, e2) := RunEvents(cfg, s1, events[1..]);
      (s2, e1 + e2)
  }

  /** What a single step may do: `hasRedeemed` never goes back to false; at
      most one payout, only when not yet redeemed; each payout comes with
      one navigation back and sets `hasRedeemed`; loading is untouched. */
  predicate RedeemsAtMostOnce(s: State, s1: State, es: seq<Effect>) {
    && (s.hasRedeemed ==> s1.hasRedeemed)
    && s1.loading == s.loading
    && CountPosts(es) <= (if s.hasRedeemed then 0 else 1)
    && CountPosts(es) == CountNavigations(es)
    && (CountPosts(es) == 1 ==> s1.hasRedeemed)
  }

  /** Every step of the payout screen keeps to `RedeemsAtMostOnce`. */
  lemma StepRedeemsAtMostOnce(cfg: Config, s: State, e: Event)
    ensures var (s1, es) := Step(cfg, s, e);
      RedeemsAtMostOnce(s, s1, es)
  {
    match e
    case PermissionChanged(st, o) =>
      NoPayoutInGateEffects(s.gate, st, o);
    case TagRead(records) =>
      if s.gate.readers > 0 && DecodeFirst(records, cfg.decode).Text? {
        LookupsCount(DecodeFirst(records, cfg.decode).text, s.gate.readers);
      }
    case BalancePage(html) =>
      if s.pendingLookups > 0 {
        AnswerRedeemsAtMostOnce(cfg, s, SubmitGuarded(html));
      }
  }

  lemma AnswerRedeemsAtMostOnce(cfg: Config, s: State, submitted: Submitted)
    requires s.pendingLookups > 0
    ensures var (s1, es) := Answer(cfg, s, submitted);
      RedeemsAtMostOnce(s, s1, es)
  {
    if submitted.Stored? {
      var s2 := s.(pendingLookups := s.pendingLookups - 1, lnurl := Some(submitted.lnurl));
      if s2.lnurl != s.lnurl && !s2.hasRedeemed {
        CountsAppend(RedeemRewards(s2.lnurl, cfg.env), [NavigateBack]);
      }
    }
  }

  lemma NoPayoutInGateEffects(g: Gate, st: PermissionState, o: ScanOutcome)
    ensures var es := PermissionChange(g, st, o).1;
      CountPosts(es) == 0 && CountNavigations(es) == 0
  {
  }

  /** Over any sequence of events, the screen issues at most one payout POST
      (none once redeemed), exactly as many navigations back as payouts, and
      never sets the loading flag. */
  lemma {:induction false} AtMostOnePayout(cfg: Config, s: State, events: seq<Event>)
    ensures var (s1, es) := RunEvents(cfg, s, events);
      RedeemsAtMostOnce(s, s1, es)
    decreases |events|
  {
    if |events| > 0 {
      var (s1, e1) := Step(cfg, s, events[0]);
      var (s2, e2) := RunEvents(cfg, s1, events[1..]);
      StepRedeemsAtMostOnce(cfg, s, events[0]);
      AtMostOnePayout(cfg, s1, events[1..]);
      CountsAppend(e1, e2);
    }
  }

  /** An answer carrying the lnurl already held changes nothing but the count
      of awaited answers: the redeem effect is not triggered again. */
  lemma SameLnurlIsNoOp(cfg: Config, s: State, html: string)
    requires s.pendingLookups > 0
    requires FindLnurl(html).Some? && s.lnurl == FindLnurl(html)
    ensures Step(cfg, s, BalancePage(Some(html))) == (s.(pendingLookups := s.pendingLookups - 1), [])
  {
  }

  /** A failed balance request or a page without a match leaves the lnurl as
      it was and produces no effect. */
  lemma NoMatchKeepsLnurl(cfg: Config, s: State, html: Option<string>)
    requires html.None? || FindLnurl(html.value).None?
    ensures var (s1, es) := Step(cfg, s, BalancePage(html));
      s1.lnurl == s.lnurl && s1.hasRedeemed == s.hasRedeemed && es == []
  {
  }

  /** A new lnurl found on the balance page before any redemption is stored,
      paid out to the configured pull payment, and followed by one navigation
      back; the screen is then marked redeemed. */
  lemma NewLnurlPaysOut(cfg: Config, s: State, html: string)
    requires s.pendingLookups > 0 && !s.hasRedeemed
    requires FindLnurl(html).Some? && s.lnurl != FindLnurl(html)
    ensures var cap := FindLnurl(html).value;
      Step(cfg, s, BalancePage(Some(html)))
      == (s.(pendingLookups := s.pendingLookups - 1, lnurl := Some(cap), hasRedeemed := true),
          [PayoutPost(PayoutEndpoint(cfg.env), PayoutBody(cap, RewardAmount, LightningLike)), NavigateBack])
  {
    var cap := FindLnurl(html).value;
    assert SubmitGuarded(Some(html)) == Stored(cap);
    AnswerNewLnurl(cfg, s, cap);
  }

  lemma AnswerNewLnurl(cfg: Config, s: State, cap: string)
    requires s.pendingLookups > 0 && !s.hasRedeemed
    requires cap != "" && s.lnurl != Some(cap)
    ensures Answer(cfg, s, Stored(cap))
      == (s.(pendingLookups := s.pendingLookups - 1, lnurl := Some(cap), hasRedeemed := true),
          [PayoutPost(PayoutEndpoint(cfg.env), PayoutBody(cap, RewardAmount, LightningLike)), NavigateBack])
  {
    var s2 := s.(pendingLookups := s.pendingLookups - 1, lnurl := Some(cap));
    assert SetLnurlSafely(s.lnurl, cap) == Some(cap);
    assert Truthy(s2.lnurl);
    var post := RedeemRewards(s2.lnurl, cfg.env);
    assert post == [PayoutPost(PayoutEndpoint(cfg.env), PayoutBody(cap, RewardAmount, LightningLike))];
    assert RedeemEffect(s2, cfg.env) == (s2.(hasRedeemed := true), post + [NavigateBack]);
    assert Answer(cfg, s, Stored(cap)) == RedeemEffect(s2, cfg.env);
    assert post + [NavigateBack] == [post[0], NavigateBack];
  }

  /** A tag read with a listener stores the first record's text, and asks
      for balance pages only for `lnurlw` text, once per listener. */
  lemma TagReadStoresText(cfg: Config, s: State, records: seq<NdefRecord>)
    requires s.gate.readers > 0
    requires DecodeFirst(records, cfg.decode).Text?
    ensures var t := DecodeFirst(records, cfg.decode).text;
      var (s1, es) := Step(cfg, s, TagRead(records));
      && s1.nfcMessage == t
      && s1.lnurl == s.lnurl
      && (StartsWith(t, LnurlwPrefix) <==> |es| > 0)
      && forall i :: 0 <= i < |es| ==> es[i] == BalanceLookup(BalanceUrl(t)) && StartsWith(t, LnurlwPrefix)
  {
  }

  /** A message without records makes the read handler throw before it
      stores anything: the step changes nothing. */
  lemma EmptyMessageChangesNothing(cfg: Config, s: State)
    ensures Step(cfg, s, TagRead([])) == (s, [])
  {
  }

  /** The payout happy path: a listening screen reads a LUD-17 tag
      `lnurlw://<host>/<path>?<query>`, asks that host's balance page with
      that query, and on a page holding the anchor for `cap` pays out to
      `cap` and navigates back once. */
  lemma PayoutHappyPath(env: Env, decode: Decoder, g: Gate, records: seq<NdefRecord>,
                        host: string, path: string, query: string, pre: string, cap: string, post: string)
    requires g.readers == 1
    requires '/' !in host && '?' !in host && '?' !in path && '?' !in query
    requires DecodeFirst(records, decode) == Text("lnurlw://" + host + "/" + path + "?" + query)
    requires forall q :: 0 <= q < |pre| ==> !OccursAt(pre + Anchor(cap) + post, Head, q)
    requires StartsWith(cap, "lnurl") && |cap| > 5 && AllWord(cap)
    ensures var cfg := Config(env, decode);
      var s := State(g, "", false, None, false, 0);
      var page := pre + Anchor(cap) + post;
      var (s1, es) := RunEvents(cfg, s, [TagRead(records), BalancePage(Some(page))]);
      && es == [BalanceLookup("https://" + host + "/boltcards/balance?" + query),
                PayoutPost(PayoutEndpoint(env), PayoutBody(cap, RewardAmount, LightningLike)),
                NavigateBack]
      && s1.hasRedeemed && s1.lnurl == Some(cap)
  {
    var cfg := Config(env, decode);
    var s := State(g, "", false, None, false, 0);
    var page := pre + Anchor(cap) + post;
    var text := "lnurlw://" + host + "/" + path + "?" + query;
    var s1 := s.(nfcMessage := text, pendingLookups := 1);
    ReadByOneReader(cfg, s, records, text);
    Lud17Lookups(host, path, query);
    FindLnurlOfAnchor(pre, cap, post);
    NewLnurlPaysOut(cfg, s1, page);
    RunTwo(cfg, s, TagRead(records), BalancePage(Some(page)));
  }

  /** A read by the one listening reader stores the text and waits for
      exactly the lookups the text starts. */
  lemma ReadByOneReader(cfg: Config, s: State, records: seq<NdefRecord>, text: string)
    requires s.gate.readers == 1
    requires DecodeFirst(records, cfg.decode) == Text(text)
    ensures var es := Lookups(text, 1);
      Step(cfg, s, TagRead(records)) == (s.(nfcMessage := text, pendingLookups := s.pendingLookups + |es|), es)
  {
  }

  /** A LUD-17 tag text asks its host's balance page with its query. */
  lemma Lud17Lookups(host: string, path: string, query: string)
    requires '/' !in host && '?' !in host && '?' !in path && '?' !in query
    ensures Lookups("lnurlw://" + host + "/" + path + "?" + query, 1)
         == [BalanceLookup("https://" + host + "/boltcards/balance?" + query)]
  {
    var text := "lnurlw://" + host + "/" + path + "?" + query;
    BalanceUrlOfLud17(host, path, query);
    assert text[..6] == LnurlwPrefix;
  }

  /** Two events run one after the other. */
  lemma RunTwo(cfg: Config, s: State, a: Event, b: Event)
    ensures var (s1, e1) := Step(cfg, s, a);
      var (s2, e2) := Step(cfg, s1, b);
      RunEvents(cfg, s, [a, b]) == (s2, e1 + e2)
  {
    var (s1, e1) := Step(cfg, s, a);
    var (s2, e2) := Step(cfg, s1, b);
    assert [a, b][1..] == [b];
    assert [b][1..] == [];
    assert RunEvents(cfg, s1, [b]) == (s2, e2 + []);
    assert e2 + [] == e2;
  }
}
