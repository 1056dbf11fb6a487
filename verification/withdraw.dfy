/** The invoice redemption handler of the point-of-sale screen (`nfcHandler`
    in nfc.tsx), following the LNURL-withdraw flow of LUD-03: check the tag
    text, resolve the withdraw parameters, check the withdraw tag, call the
    callback with `k1` and the invoice `pr`, and turn the answer into alerts.
    The metadata request (`getParams`) and the callback request are inputs;
    a path on which the source throws ends in an explicit fault, after which
    nothing else happens (in particular the loading flag stays set). */
module Withdraw {
  import opened Js
  import opened SearchParams
  import opened Effects

  const NotCompatible := "Not a compatible flashcard"
  const MissingInvoice := "add an amount and create an invoice before scanning the card"
  const GenericFailure := "Something went wrong. Please, try again later"
  const InsufficientFunds := "Payment Failed: Insufficient Funds"
  const NotWithinBounds := "not within bounds"
  const AboveMaximum := "Amount is bigger than the maximum"
  const WithdrawTag := "withdrawRequest"
  const HttpErrorCode := "HTTP error code: "

  /** The `callback` field after `new URL(callback)`: parsed, or rejected (throws). */
  datatype Callback = Parsed(url: Url) | Unparseable

  /** What `getParams` resolves to: the LNURL response fields the handler reads. */
  datatype LnurlParams = LnurlParams(tag: Option<string>, reason: Option<string>, callback: Callback, k1: string)

  /** The awaited `getParams(nfcMessage)`: it resolves to the parameters, or
      rejects, which makes the handler throw. */
  datatype Resolution = Resolved(fields: LnurlParams) | Rejected

  /** The fields of a JSON body the handler reads; `None` stands for absent or null. */
  datatype Json = JsonNull | JsonObject(status: Option<string>, reason: Option<string>, message: Option<string>)

  datatype Body = JsonBody(json: Json) | NonJsonBody

  /** A fetch `Response`; its body can be read once. */
  datatype Response = Response(status: nat, body: Body, bodyUsed: bool)

  /** The outcome of `fetch(url)`: a network failure rejects. */
  datatype Fetched = NetworkError | Received(status: nat, body: Body)

  /** The effects of one run, and whether it ended by throwing. */
  datatype Run = Run(effects: seq<Effect>, faulted: bool)

  /** `response.ok`. */
  predicate Ok(r: Response) {
    200 <= r.status <= 299
  }

  /** `await response.json()`: rejects on a used body or a body that is not
      JSON; marks the body used in any case. */
  function ReadJson(r: Response): (out: (Option<Json>, Response))
    ensures out.1 == r.(bodyUsed := true)
    ensures r.bodyUsed ==> out.0 == None
    ensures !r.bodyUsed ==> (out.0.Some? <==> r.body.JsonBody?)
  {
    if r.bodyUsed then (None, r)
    else match r.body
      case JsonBody(j) => (Some(j), r.(bodyUsed := true))
      case NonJsonBody => (None, r.(bodyUsed := true))
  }

  /** The alert for a wrong withdraw tag; `${"reason" in p && p.reason}`
      renders `false` when there is no reason. */
  function BadTagAlert(message: string, reason: Option<string>): string {
    "not a properly configured lnurl withdraw tag\n\n" + message + "\n\n"
      + (match reason case None => "false" case Some(r) => r)
  }

  /** The diagnostic alert of a failed HTTP request. */
  function HttpErrorAlert(status: nat, errorMessage: string): (text: string)
    ensures Includes(text, HttpErrorCode + Decimal(status))
  {
    var head := "Error processing payment.\n\n";
    var m := head + HttpErrorCode + Decimal(status);
    assert m[|head|..|head| + |HttpErrorCode + Decimal(status)|] == HttpErrorCode + Decimal(status);
    assert OccursAt(m, HttpErrorCode + Decimal(status), |head|);
    if errorMessage != "" then
      var t := m + "\n\nError message: " + errorMessage;
      assert t[..|m|] == m;
      assert t[|head|..|head| + |HttpErrorCode + Decimal(status)|] == HttpErrorCode + Decimal(status);
      assert OccursAt(t, HttpErrorCode + Decimal(status), |head|);
      t
    else m
  }

  /** `decoded.reason` then `decoded.message`, each appended when truthy;
      `None` when reading a field of `null` throws. */
  function ErrorMessageOf(decoded: Json): Option<string> {
    match decoded
    case JsonNull => None
    case JsonObject(_, reason, message) =>
      Some((if Truthy(reason) then reason.value else "") + (if Truthy(message) then message.value else ""))
  }

  /** The answer to the callback request, after its body was read as `body`.
      An ok answer with status "ok" (any case) is silent; another ok answer
      alerts its reason or a generic message; a failed answer whose reason
      mentions the amount bounds alerts insufficient funds; a failed answer
      without a reason throws before any alert; any other failed answer alerts
      a diagnostic naming the HTTP status. Loading is cleared exactly on the
      paths that do not throw. */
  function Classify(resp: Response, body: Json): (r: Run)
    ensures !r.faulted <==> (|r.effects| > 0 && r.effects[|r.effects| - 1] == SetLoading(false))
    ensures forall i :: 0 <= i < |r.effects| ==> r.effects[i].Alert? || r.effects[i] == SetLoading(false)
    ensures Ok(resp) && body.JsonObject? && body.status.Some? && LowerAscii(body.status.value) == "ok"
            ==> r == Run([SetLoading(false)], false)
    ensures Ok(resp) && body.JsonObject? && !(body.status.Some? && LowerAscii(body.status.value) == "ok")
            ==> r == Run([Alert(OrElse(body.reason, GenericFailure)), SetLoading(false)], false)
    ensures !Ok(resp) && body.JsonObject? && body.reason.Some?
            && (Includes(body.reason.value, NotWithinBounds) || Includes(body.reason.value, AboveMaximum))
            ==> r == Run([Alert(InsufficientFunds), SetLoading(false)], false)
    ensures body.JsonNull? || (!Ok(resp) && body.reason.None?) ==> r == Run([], true)
    ensures r.faulted ==> |r.effects| <= 1 && forall i :: 0 <= i < |r.effects| ==> r.effects[i].Alert?
    ensures !Ok(resp) && body.JsonObject? && body.reason.Some?
            && !Includes(body.reason.value, NotWithinBounds) && !Includes(body.reason.value, AboveMaximum)
            ==> |r.effects| >= 1 && r.effects[0].Alert? && Includes(r.effects[0].text, HttpErrorCode + Decimal(resp.status))
    ensures resp.bodyUsed && !Ok(resp) && body.JsonObject? && body.reason.Some?
            && !Includes(body.reason.value, NotWithinBounds) && !Includes(body.reason.value, AboveMaximum)
            ==> r == Run([Alert(HttpErrorAlert(resp.status, ""))], true)
  {
    var why := if body.JsonObject? then OrElse(body.reason, "") else "";
    ContainsIsIncludes(why, NotWithinBounds);
    ContainsIsIncludes(why, AboveMaximum);
    if Ok(resp) then
      match body
      case JsonNull => Run([], true)
      case JsonObject(status, reason, _) =>
        if status.Some? && LowerAscii(status.value) == "ok" then Run([SetLoading(false)], false)
        else Run([Alert(OrElse(reason, GenericFailure)), SetLoading(false)], false)
    else
      match body
      case JsonNull => Run([], true)
      case JsonObject(_, reason, _) =>
        match reason
        case None => Run([], true)
        case Some(why) =>
          if Contains(why, NotWithinBounds) || Contains(why, AboveMaximum) then
            Run([Alert(InsufficientFunds), SetLoading(false)], false)
          else
            // the `finally` block alerts whatever was collected, then a
            // rejection of the second read is rethrown
            var (second, _) := ReadJson(resp);
            var collected := if second.Some? then ErrorMessageOf(second.value) else None;
            match collected
            case None => Run([Alert(HttpErrorAlert(resp.status, ""))], true)
            case Some(em) => Run([Alert(HttpErrorAlert(resp.status, em)), SetLoading(false)], false)
  }

  /** The callback URL: `k1` and then `pr` set on the callback's query. */
  function CallbackUrl(u: Url, k1: string, pr: string): Url {
    u.(query := Set(Set(u.query, "k1", k1), "pr", pr))
  }

  /** The callback URL carries exactly one `k1` entry holding the challenge and
      one `pr` entry holding the invoice, and every other entry of the
      callback's query, in its order. */
  lemma CallbackUrlCarriesChallengeAndInvoice(u: Url, k1: string, pr: string)
    ensures var c := CallbackUrl(u, k1, pr);
      && c.location == u.location && c.fragment == u.fragment
      && Count(c.query, "k1") == 1 && Get(c.query, "k1") == Some(k1)
      && Count(c.query, "pr") == 1 && Get(c.query, "pr") == Some(pr)
      && Others(Others(c.query, "pr"), "k1") == Others(Others(u.query, "pr"), "k1")
  {
    var q1 := Set(u.query, "k1", k1);
    var q2 := Set(q1, "pr", pr);
    SetKeepsOtherNames(q1, "pr", pr, "k1");
    OthersCommute(q2, "pr", "k1");
    OthersCommute(u.query, "pr", "k1");
    OthersCommute(q1, "pr", "k1");
    OthersOthers(q2, q1, "pr", "k1");
    OthersOthers(q1, u.query, "k1", "pr");
  }

  lemma {:induction false} OthersCommute(q: seq<Param>, n: string, m: string)
    ensures Others(Others(q, n), m) == Others(Others(q, m), n)
    decreases |q|
  {
    if |q| > 0 {
      OthersCommute(q[1..], n, m);
    }
  }

  /** Equal `n`-free parts stay equal after also dropping `m`. */
  lemma OthersOthers(a: seq<Param>, b: seq<Param>, n: string, m: string)
    requires Others(a, n) == Others(b, n)
    ensures Others(Others(a, n), m) == Others(Others(b, n), m)
  {
  }

  /** The handler triggered by a tag read (`!!nfcMessage && !!paymentRequest`). */
  predicate Triggered(message: string, paymentRequest: Option<string>) {
    message != "" && Truthy(paymentRequest)
  }

  /** The effects a run starts with once the text and the invoice are accepted. */
  function Started(message: string): seq<Effect> {
    [PlaySound, SetLoading(true), ResolveParams(message)]
  }

  /** The callback request and what follows it: a failed request or a body
      that is not JSON throws; otherwise the answer is classified. */
  function CallCallback(url: Url, fetched: Fetched): (r: Run)
    ensures |r.effects| >= 1 && r.effects[0] == FetchCallback(url)
    ensures FetchedUrl(r.effects) == Some(url)
    ensures forall i :: 1 <= i < |r.effects| ==> !r.effects[i].FetchCallback?
    ensures fetched.NetworkError? || fetched.body.NonJsonBody? ==> r == Run([FetchCallback(url)], true)
    ensures fetched.Received? && fetched.body.JsonBody? ==>
      var c := Classify(Response(fetched.status, fetched.body, true), fetched.body.json);
      r == Run([FetchCallback(url)] + c.effects, c.faulted)
  {
    var sent := [FetchCallback(url)];
    match fetched
    case NetworkError => Run(sent, true)
    case Received(status, body) =>
      var (first, resp) := ReadJson(Response(status, body, false));
      match first
      case None => Run(sent, true)
      case Some(json) =>
        var c := Classify(resp, json);
        assert (sent + c.effects)[0] == FetchCallback(url);
        assert forall i :: 1 <= i < |sent + c.effects| ==> (sent + c.effects)[i] == c.effects[i - 1];
        Run(sent + c.effects, c.faulted)
  }

  /** From the callback request on, starting with loading set: a throw
      leaves it set, and a completed run clears it. */
  lemma CallCallbackLoading(url: Url, fetched: Fetched)
    ensures var r := CallCallback(url, fetched);
      && (r.faulted ==> LoadingAfter(true, r.effects))
      && (!r.faulted ==> !LoadingAfter(true, r.effects))
  {
    var r := CallCallback(url, fetched);
    var sent := [FetchCallback(url)];
    LoadingAfterNoSet(true, sent);
    if fetched.Received? && fetched.body.JsonBody? {
      var c := Classify(Response(fetched.status, fetched.body, true), fetched.body.json);
      assert r.effects == sent + c.effects;
      LoadingAfterAppend(true, sent, c.effects);
      if c.faulted {
        if |c.effects| == 1 {
          assert c.effects[1..] == [];
        }
      } else {
        LastSetLoadingWins(true, c.effects);
      }
    }
  }

  /** `nfcHandler()`: one redemption attempt for the tag text `message`
      against the invoice `paymentRequest`, given how `getParams` settles and
      what the callback request returns. */
  function NfcHandler(message: string, paymentRequest: Option<string>, params: Resolution, fetched: Fetched): (r: Run)
    ensures !Contains(LowerAscii(message), "lnurl") ==> r == Run([Alert(NotCompatible)], false)
    ensures Contains(LowerAscii(message), "lnurl") && !Truthy(paymentRequest) ==> r == Run([Alert(MissingInvoice)], false)
    ensures (Contains(LowerAscii(message), "lnurl") && Truthy(paymentRequest))
            <==> (|r.effects| >= 3 && r.effects[..3] == Started(message))
    ensures Contains(LowerAscii(message), "lnurl") && Truthy(paymentRequest) && params.Rejected?
            ==> r == Run(Started(message), true)
    ensures Contains(LowerAscii(message), "lnurl") && Truthy(paymentRequest)
            && params.Resolved? && params.fields.tag != Some(WithdrawTag)
            ==> r == Run(Started(message) + [Alert(BadTagAlert(message, params.fields.reason)), SetLoading(false)], false)
    ensures Contains(LowerAscii(message), "lnurl") && Truthy(paymentRequest)
            && params.Resolved? && params.fields.tag == Some(WithdrawTag) && params.fields.callback.Unparseable?
            ==> r == Run(Started(message), true)
    ensures !(params.Resolved? && params.fields.tag == Some(WithdrawTag)) ==> FetchedUrl(r.effects) == None
    ensures FetchedUrl(r.effects).Some? ==>
      && params.Resolved? && params.fields.tag == Some(WithdrawTag) && params.fields.callback.Parsed?
      && Truthy(paymentRequest)
      && FetchedUrl(r.effects).value == CallbackUrl(params.fields.callback.url, params.fields.k1, paymentRequest.value)
  {
    if !Contains(LowerAscii(message), "lnurl") then
      FetchedUrlNone([Alert(NotCompatible)]);
      Run([Alert(NotCompatible)], false)
    else if !Truthy(paymentRequest) then
      FetchedUrlNone([Alert(MissingInvoice)]);
      Run([Alert(MissingInvoice)], false)
    else
      var start := Started(message);
      FetchedUrlNone(start);
      assert start[..3] == start;
      match params
      case Rejected => Run(start, true)
      case Resolved(fields) =>
        if fields.tag != Some(WithdrawTag) then
          var r := Run(start + [Alert(BadTagAlert(message, fields.reason)), SetLoading(false)], false);
          assert r.effects[..3] == start;
          FetchedUrlNone(r.effects);
          r
        else
          match fields.callback
          case Unparseable => Run(start, true)
          case Parsed(u) =>
            var c := CallCallback(CallbackUrl(u, fields.k1, paymentRequest.value), fetched);
            FetchedUrlAppend(start, c.effects);
            assert (start + c.effects)[..3] == start;
            Run(start + c.effects, c.faulted)
  }

  /** The loading flag after a run: a run that throws leaves it set, whatever
      it was before; a run that got past the text and invoice checks and did
      not throw leaves it cleared; a run stopped by those checks leaves it as
      it was. */
  lemma NfcHandlerLoading(message: string, paymentRequest: Option<string>, params: Resolution, fetched: Fetched, before: bool)
    ensures var r := NfcHandler(message, paymentRequest, params, fetched);
      && (r.faulted ==> LoadingAfter(before, r.effects))
      && (!r.faulted && Contains(LowerAscii(message), "lnurl") && Truthy(paymentRequest) ==> !LoadingAfter(before, r.effects))
      && (!(Contains(LowerAscii(message), "lnurl") && Truthy(paymentRequest)) ==> LoadingAfter(before, r.effects) == before)
  {
    var r := NfcHandler(message, paymentRequest, params, fetched);
    if Contains(LowerAscii(message), "lnurl") && Truthy(paymentRequest) {
      var start := Started(message);
      StartedSetsLoading(message, before);
      if params.Resolved? && params.fields.tag != Some(WithdrawTag) {
        LastSetLoadingWins(before, r.effects);
      } else if params.Resolved? && params.fields.callback.Parsed? {
        var p := params.fields;
        var c := CallCallback(CallbackUrl(p.callback.url, p.k1, paymentRequest.value), fetched);
        assert r == Run(start + c.effects, c.faulted);
        LoadingAfterAppend(before, start, c.effects);
        CallCallbackLoading(CallbackUrl(p.callback.url, p.k1, paymentRequest.value), fetched);
      }
    }
  }

  /** The opening effects of an accepted run leave loading set. */
  lemma StartedSetsLoading(message: string, before: bool)
    ensures LoadingAfter(before, Started(message))
  {
    var start := Started(message);
    assert start == [PlaySound, SetLoading(true)] + [ResolveParams(message)];
    LoadingAfterAppend(before, [PlaySound, SetLoading(true)], [ResolveParams(message)]);
    LastSetLoadingWins(before, [PlaySound, SetLoading(true)]);
    LoadingAfterNoSet(true, [ResolveParams(message)]);
  }

  /** The invoice check inside the handler cannot fire when the handler is
      started by its trigger: the first effect is the incompatibility alert or
      the sound cue, never the missing-invoice alert. */
  lemma MissingInvoiceUnreachable(message: string, paymentRequest: Option<string>, params: Resolution, fetched: Fetched)
    requires Triggered(message, paymentRequest)
    ensures var r := NfcHandler(message, paymentRequest, params, fetched);
      |r.effects| >= 1 && r.effects[0] != Alert(MissingInvoice)
      && (r.effects[0] == Alert(NotCompatible) || r.effects[0] == PlaySound)
  {
    var r := NfcHandler(message, paymentRequest, params, fetched);
    if Contains(LowerAscii(message), "lnurl") {
      assert r.effects[..3][0] == PlaySound;
    }
  }

  /** An accepted withdraw run with a parsed callback: the opening effects,
      then the callback request for the URL carrying `k1` and the invoice,
      then whatever the answer leads to. */
  lemma WithdrawRun(message: string, paymentRequest: Option<string>, params: LnurlParams, fetched: Fetched)
    requires Contains(LowerAscii(message), "lnurl") && Truthy(paymentRequest)
    requires params.tag == Some(WithdrawTag) && params.callback.Parsed?
    ensures var c := CallCallback(CallbackUrl(params.callback.url, params.k1, paymentRequest.value), fetched);
      NfcHandler(message, paymentRequest, Resolved(params), fetched) == Run(Started(message) + c.effects, c.faulted)
  {
  }

  /** The sample card text used below is accepted by the compatibility check. */
  lemma SampleTextIsCompatible()
    ensures Contains(LowerAscii(SampleText), "lnurl")
  {
    assert LowerAscii(SampleText)[..5] == "lnurl";
  }

  const SampleText := "lnurlw1dp68"

  /** The sample callback with the challenge and invoice set on its empty query. */
  lemma SampleCallbackUrl()
    ensures CallbackUrl(Url("https://issuer/cb", [], ""), "abc123", "lnbc1")
         == Url("https://issuer/cb", [Param("k1", "abc123"), Param("pr", "lnbc1")], "")
  {
    assert Set([], "k1", "abc123") == [Param("k1", "abc123")];
    assert Count([Param("k1", "abc123")], "pr") == 0;
  }

  /** A successful redemption: withdraw parameters, then an ok callback answer
      with status "OK". The run asks for the parameters, calls the callback
      with the challenge and the invoice, shows no alert and clears loading. */
  lemma InvoiceSuccessScenario()
    ensures var u := Url("https://issuer/cb", [], "");
      var params := Resolved(LnurlParams(Some(WithdrawTag), None, Parsed(u), "abc123"));
      var r := NfcHandler(SampleText, Some("lnbc1"), params,
                          Received(200, JsonBody(JsonObject(Some("OK"), None, None))));
      && !r.faulted
      && r.effects == Started(SampleText)
                      + [FetchCallback(Url("https://issuer/cb", [Param("k1", "abc123"), Param("pr", "lnbc1")], "")),
                         SetLoading(false)]
  {
    var u := Url("https://issuer/cb", [], "");
    var url := Url("https://issuer/cb", [Param("k1", "abc123"), Param("pr", "lnbc1")], "");
    var body := JsonObject(Some("OK"), None, None);
    SampleTextIsCompatible();
    SampleCallbackUrl();
    WithdrawRun(SampleText, Some("lnbc1"), LnurlParams(Some(WithdrawTag), None, Parsed(u), "abc123"), Received(200, JsonBody(body)));
    assert LowerAscii("OK") == "ok";
    assert Classify(Response(200, JsonBody(body), true), body) == Run([SetLoading(false)], false);
    assert CallCallback(url, Received(200, JsonBody(body))) == Run([FetchCallback(url), SetLoading(false)], false);
  }

  /** A callback refused with HTTP 400 because the amount exceeds the card's
      maximum alerts exactly the insufficient-funds text and clears loading. */
  lemma InsufficientFundsScenario()
    ensures var u := Url("https://issuer/cb", [], "");
      var params := Resolved(LnurlParams(Some(WithdrawTag), None, Parsed(u), "abc123"));
      var r := NfcHandler(SampleText, Some("lnbc1"), params,
                          Received(400, JsonBody(JsonObject(Some("ERROR"), Some(AboveMaximum), None))));
      && !r.faulted
      && r.effects == Started(SampleText)
                      + [FetchCallback(Url("https://issuer/cb", [Param("k1", "abc123"), Param("pr", "lnbc1")], "")),
                         Alert(InsufficientFunds), SetLoading(false)]
  {
    var u := Url("https://issuer/cb", [], "");
    var url := Url("https://issuer/cb", [Param("k1", "abc123"), Param("pr", "lnbc1")], "");
    var body := JsonObject(Some("ERROR"), Some(AboveMaximum), None);
    SampleTextIsCompatible();
    SampleCallbackUrl();
    WithdrawRun(SampleText, Some("lnbc1"), LnurlParams(Some(WithdrawTag), None, Parsed(u), "abc123"), Received(400, JsonBody(body)));
    assert OccursAt(AboveMaximum, AboveMaximum, 0);
    assert Classify(Response(400, JsonBody(body), true), body) == Run([Alert(InsufficientFunds), SetLoading(false)], false);
    assert CallCallback(url, Received(400, JsonBody(body)))
        == Run([FetchCallback(url), Alert(InsufficientFunds), SetLoading(false)], false);
  }

  /** A failed callback answer whose body has no reason throws at the
      unguarded `reason.includes`, before any alert, leaving loading set. */
  lemma MissingReasonFaults(status: nat)
    requires !(200 <= status <= 299)
    ensures var u := Url("https://issuer/cb", [], "");
      var params := Resolved(LnurlParams(Some(WithdrawTag), None, Parsed(u), "abc123"));
      var r := NfcHandler(SampleText, Some("lnbc1"), params, Received(status, JsonBody(JsonObject(None, None, None))));
      && r.faulted
      && r.effects == Started(SampleText) + [FetchCallback(Url("https://issuer/cb", [Param("k1", "abc123"), Param("pr", "lnbc1")], ""))]
  {
    var u := Url("https://issuer/cb", [], "");
    var url := Url("https://issuer/cb", [Param("k1", "abc123"), Param("pr", "lnbc1")], "");
    var body := JsonObject(None, None, None);
    SampleTextIsCompatible();
    SampleCallbackUrl();
    WithdrawRun(SampleText, Some("lnbc1"), LnurlParams(Some(WithdrawTag), None, Parsed(u), "abc123"), Received(status, JsonBody(body)));
    assert Classify(Response(status, JsonBody(body), true), body) == Run([], true);
    assert CallCallback(url, Received(status, JsonBody(body))) == Run([FetchCallback(url)], true);
  }
}
