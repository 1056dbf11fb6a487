/** The boltcard balance-page indirection (`handleSubmit` in nfc.tsx and
    payout.tsx): building the balance-page URL from a `lnurlw://host/...?query`
    tag text, and pulling the first `href="lightning:(lnurl\w+)"` capture out
    of the returned HTML. */
module Balance {
  import opened Js

  /** `https://${payload.split("/")[2]}/boltcards/balance?${payload.split("?")[1]}`;
      a missing piece is rendered as the word `undefined`. */
  function BalanceUrl(payload: string): string {
    "https://" + Render(Element(Split(payload, '/'), 2))
      + "/boltcards/balance?" + Render(Element(Split(payload, '?'), 1))
  }

  /** The third '/'-piece of `scheme//host/rest` is the host. */
  lemma HostPiece(scheme: string, host: string, rest: string)
    requires '/' !in scheme && '/' !in host
    ensures Element(Split(scheme + "//" + host + "/" + rest, '/'), 2) == Some(host)
  {
    var s := scheme + "//" + host + "/" + rest;
    assert s == scheme + ['/'] + ("" + ['/'] + (host + ['/'] + rest));
    SplitAfterPrefix(scheme, '/', "" + ['/'] + (host + ['/'] + rest));
    SplitAfterPrefix("", '/', host + ['/'] + rest);
    SplitAfterPrefix(host, '/', rest);
  }

  /** The second '?'-piece of `before?query` is the query. */
  lemma QueryPiece(before: string, query: string)
    requires '?' !in before && '?' !in query
    ensures Element(Split(before + "?" + query, '?'), 1) == Some(query)
  {
    SplitAfterPrefix(before, '?', query);
    SplitWithoutSeparator(query, '?');
  }

  /** The LUD-17 form `lnurlw://<host>/<path>?<query>` leads to the issuer's
      balance page on that host with that query. */
  lemma BalanceUrlOfLud17(host: string, path: string, query: string)
    requires '/' !in host && '?' !in host
    requires '?' !in path && '?' !in query
    ensures BalanceUrl("lnurlw://" + host + "/" + path + "?" + query)
         == "https://" + host + "/boltcards/balance?" + query
  {
    var s := "lnurlw://" + host + "/" + path + "?" + query;
    assert s == "lnurlw:" + "//" + host + "/" + (path + "?" + query);
    HostPiece("lnurlw:", host, path + "?" + query);
    assert s == ("lnurlw://" + host + "/" + path) + "?" + query;
    QueryPiece("lnurlw://" + host + "/" + path, query);
  }

  /** Without any '?' the query renders as `undefined`. */
  lemma BalanceUrlWithoutQuery(payload: string)
    requires '?' !in payload
    ensures StartsWith(BalanceUrl(payload), "https://")
    ensures BalanceUrl(payload)[|BalanceUrl(payload)| - 9..] == "undefined"
  {
    SplitWithoutSeparator(payload, '?');
  }

  /** `\w`: ASCII letters, digits and underscore. */
  predicate IsWordChar(c: char) {
    ('a' <= c <= 'z') || ('A' <= c <= 'Z') || ('0' <= c <= '9') || c == '_'
  }

  predicate AllWord(w: string) {
    forall k :: 0 <= k < |w| ==> IsWordChar(w[k])
  }

  /** The fixed part of the pattern, up to the `\w+`. */
  const Head := "href=\"lightning:lnurl"

  /** The anchor text a capture `cap` comes from. */
  function Anchor(cap: string): string {
    "href=\"lightning:" + cap + "\""
  }

  /** Length of the longest run of word characters starting at `k`. */
  function WordRun(s: string, k: nat): (n: nat)
    requires k <= |s|
    ensures k + n <= |s|
    ensures AllWord(s[k..k + n])
    ensures k + n == |s| || !IsWordChar(s[k + n])
    decreases |s| - k
  {
    if k < |s| && IsWordChar(s[k]) then
      var n := 1 + WordRun(s, k + 1);
      assert s[k..k + n] == [s[k]] + s[k + 1..k + n];
      n
    else 0
  }

  /** The pattern matches at `p`. `\w+` cannot consume the closing quote, so the
      only candidate is the longest word run after the head. */
  predicate MatchesAt(s: string, p: nat) {
    && p + |Head| <= |s|
    && s[p..p + |Head|] == Head
    && var n := WordRun(s, p + |Head|);
    && n >= 1
    && p + |Head| + n < |s|
    && s[p + |Head| + n] == '"'
  }

  /** Capture group 1 of a match at `p`. */
  function CaptureAt(s: string, p: nat): string
    requires MatchesAt(s, p)
  {
    "lnurl" + s[p + |Head|..p + |Head| + WordRun(s, p + |Head|)]
  }

  /** The backtracking regex semantics: some word run `w` of at least one
      character, then a quote, follows the head at `p`. */
  ghost predicate PatternAt(s: string, p: nat, w: string) {
    |w| >= 1 && AllWord(w) && OccursAt(s, Head + w + "\"", p)
  }

  /** The scanner's single candidate per position is exactly the regex
      semantics: a match exists iff the scanner's candidate is one, and the
      captured word run is unique. */
  lemma MatchesAtIsRegex(s: string, p: nat)
    ensures MatchesAt(s, p) <==> exists w :: PatternAt(s, p, w)
    ensures forall w :: PatternAt(s, p, w) ==> MatchesAt(s, p) && CaptureAt(s, p) == "lnurl" + w
  {
    if MatchesAt(s, p) {
      MatchGivesPattern(s, p);
    }
    forall w | PatternAt(s, p, w)
      ensures MatchesAt(s, p) && CaptureAt(s, p) == "lnurl" + w
    {
      PatternGivesMatch(s, p, w);
    }
  }

  /** The scanner's candidate at a match is a witness of the pattern. */
  lemma MatchGivesPattern(s: string, p: nat)
    requires MatchesAt(s, p)
    ensures PatternAt(s, p, s[p + |Head|..p + |Head| + WordRun(s, p + |Head|)])
  {
    var k := p + |Head|;
    var n := WordRun(s, k);
    var w := s[k..k + n];
    assert s[p..k + n + 1] == s[p..k] + s[k..k + n] + [s[k + n]];
    assert s[p..k + |w| + 1] == Head + w + "\"";
  }

  /** Any witness of the pattern is the scanner's candidate. */
  lemma PatternGivesMatch(s: string, p: nat, w: string)
    requires PatternAt(s, p, w)
    ensures MatchesAt(s, p) && CaptureAt(s, p) == "lnurl" + w
  {
    var k := p + |Head|;
    var t := Head + w + "\"";
    var m := s[p..p + |t|];
    assert m == t;
    assert s[p..k] == m[..|Head|];
    assert t[..|Head|] == Head;
    assert s[k..k + |w|] == m[|Head|..|Head| + |w|];
    assert t[|Head|..|Head| + |w|] == w;
    assert s[k + |w|] == m[|Head| + |w|] == t[|Head| + |w|];
    RunStopsAtQuote(s, k, w);
  }

  /** A word run followed by a quote is the longest word run. */
  lemma {:induction false} RunStopsAtQuote(s: string, k: nat, w: string)
    requires k + |w| < |s| && s[k..k + |w|] == w && AllWord(w) && s[k + |w|] == '"'
    ensures WordRun(s, k) == |w|
    decreases |w|
  {
    if |w| > 0 {
      assert s[k + 1..k + 1 + |w[1..]|] == w[1..];
      RunStopsAtQuote(s, k + 1, w[1..]);
    }
  }

  /** The leftmost match position at or after `from`. */
  function FirstMatchFrom(s: string, from: nat): (r: Option<nat>)
    requires from <= |s|
    ensures r.Some? ==> from <= r.value < |s| && MatchesAt(s, r.value)
    ensures r.Some? ==> forall q :: from <= q < r.value ==> !MatchesAt(s, q)
    ensures r.None? ==> forall q :: from <= q <= |s| ==> !MatchesAt(s, q)
    decreases |s| - from
  {
    if from == |s| then None
    else if MatchesAt(s, from) then Some(from)
    else FirstMatchFrom(s, from + 1)
  }

  /** `html.match(/href="lightning:(lnurl\w+)"/)?.[1]`: the capture of the
      leftmost match. It starts with `lnurl`, continues with at least one word
      character, and appears in the page inside a complete anchor. */
  function FindLnurl(html: string): (r: Option<string>)
    ensures r.None? <==> forall p :: 0 <= p <= |html| ==> !MatchesAt(html, p)
    ensures r.Some? ==> exists p :: 0 <= p < |html| && MatchesAt(html, p) && r.value == CaptureAt(html, p)
                                    && forall q :: 0 <= q < p ==> !MatchesAt(html, q)
    ensures r.Some? ==> StartsWith(r.value, "lnurl") && |r.value| > 5 && AllWord(r.value)
    ensures r.Some? ==> Includes(html, Anchor(r.value))
  {
    match FirstMatchFrom(html, 0)
    case None => None
    case Some(p) =>
      CaptureFacts(html, p);
      Some(CaptureAt(html, p))
  }

  /** The capture at a match is `lnurl` and a non-empty word run, and the
      page holds its anchor at the match. */
  lemma CaptureFacts(s: string, p: nat)
    requires MatchesAt(s, p)
    ensures var cap := CaptureAt(s, p);
      StartsWith(cap, "lnurl") && |cap| > 5 && AllWord(cap) && OccursAt(s, Anchor(cap), p)
  {
    var k := p + |Head|;
    var n := WordRun(s, k);
    var w := s[k..k + n];
    var cap := CaptureAt(s, p);
    assert cap == "lnurl" + w;
    LnurlWord(w);
    AnchorOfCapture(w);
    assert s[p..k] == Head;
    assert s[p..k + n + 1] == s[p..k] + s[k..k + n] + [s[k + n]];
  }

  lemma AnchorOfCapture(w: string)
    ensures Anchor("lnurl" + w) == Head + w + "\""
  {
  }

  /** `lnurl` followed by a non-empty word run is a word run of more than five. */
  lemma LnurlWord(w: string)
    requires |w| >= 1 && AllWord(w)
    ensures var cap := "lnurl" + w;
      StartsWith(cap, "lnurl") && |cap| > 5 && AllWord(cap)
  {
    var cap := "lnurl" + w;
    assert cap[..5] == "lnurl";
    forall i | 0 <= i < |cap|
      ensures IsWordChar(cap[i])
    {
      if i < 5 {
        assert cap[i] == "lnurl"[i];
      } else {
        assert cap[i] == w[i - 5];
      }
    }
  }

  /** A match has the opening quote five characters in. */
  lemma MatchHasQuote(s: string, q: nat)
    ensures MatchesAt(s, q) ==> q + 5 < |s| && s[q + 5] == '"'
  {
    if MatchesAt(s, q) {
      assert s[q..q + |Head|][5] == s[q + 5];
    }
  }

  /** The capture of an anchor is read back byte for byte, when no earlier
      position of the page starts the fixed head `href="lightning:lnurl`
      (quoted attributes before the anchor are fine). */
  lemma FindLnurlOfAnchor(pre: string, cap: string, post: string)
    requires forall q :: 0 <= q < |pre| ==> !OccursAt(pre + Anchor(cap) + post, Head, q)
    requires StartsWith(cap, "lnurl") && |cap| > 5 && AllWord(cap)
    ensures FindLnurl(pre + Anchor(cap) + post) == Some(cap)
  {
    var s := pre + Anchor(cap) + post;
    var p := |pre|;
    var w := cap[5..];
    assert cap == "lnurl" + w;
    assert s[p..p + |Head| + |w| + 1] == Head + w + "\"";
    PatternGivesMatch(s, p, w);
    forall q | 0 <= q < p
      ensures !MatchesAt(s, q)
    {
      assert MatchesAt(s, q) ==> OccursAt(s, Head, q);
    }
    FirstMatchIsLeftmost(s, 0, p);
  }

  /** A page with quoted attributes before the anchor still yields its capture. */
  lemma QuotedAttributeBeforeAnchor(cap: string)
    requires StartsWith(cap, "lnurl") && |cap| > 5 && AllWord(cap)
    ensures FindLnurl("<a class=\"btn\" " + Anchor(cap) + ">") == Some(cap)
  {
    var pre := "<a class=\"btn\" ";
    var s := pre + Anchor(cap) + ">";
    forall q | 0 <= q < |pre|
      ensures !OccursAt(s, Head, q)
    {
      assert s[q] == pre[q] != 'h';
      if q + |Head| <= |s| {
        assert s[q..q + |Head|][0] == s[q];
      }
    }
    FindLnurlOfAnchor(pre, cap, ">");
  }

  /** No match can start before `p` when no quote occurs before `p + 5`:
      every match has its quote five characters in. */
  lemma NoMatchBefore(s: string, p: nat)
    requires forall i :: 0 <= i < p + 5 && i < |s| ==> s[i] != '"'
    ensures forall q :: 0 <= q < p ==> !MatchesAt(s, q)
  {
    forall q | 0 <= q < p
      ensures !MatchesAt(s, q)
    {
      MatchHasQuote(s, q);
    }
  }

  /** The scanner stops at the first matching position. */
  lemma {:induction false} FirstMatchIsLeftmost(s: string, from: nat, p: nat)
    requires from <= p < |s| && MatchesAt(s, p)
    requires forall q :: from <= q < p ==> !MatchesAt(s, q)
    ensures FirstMatchFrom(s, from) == Some(p)
    decreases p - from
  {
    if from < p {
      FirstMatchIsLeftmost(s, from + 1, p);
    }
  }

  /** The lnurl a balance-page answer yields: the capture on a text page;
      nothing for a failed request (`None`). */
  function PageLnurl(html: Option<string>): Option<string> {
    if html.Some? then FindLnurl(html.value) else None
  }

  /** How `handleSubmit` ends: a capture handed to the lnurl setter, a page
      without a match skipped by a guard, or an exception caught and logged
      (a failed request, a non-text answer, or a null match dereferenced). */
  datatype Submitted = Stored(lnurl: string) | NoMatch | Caught

  /** nfc.tsx: `lnurlMatch[1]` is read without a check, so a page without a
      match throws, and the catch treats it like a failed request. */
  function SubmitUnguarded(html: Option<string>): (r: Submitted)
    ensures !r.NoMatch?
    ensures r.Caught? <==> html.None? || FindLnurl(html.value).None?
    ensures r.Stored? ==> html.Some? && FindLnurl(html.value) == Some(r.lnurl)
  {
    match PageLnurl(html)
    case Some(cap) => Stored(cap)
    case None => Caught
  }

  /** payout.tsx: the match is checked before use, so only a failed request
      or a non-text answer throws. */
  function SubmitGuarded(html: Option<string>): (r: Submitted)
    ensures r.Caught? <==> html.None?
    ensures r.NoMatch? <==> html.Some? && FindLnurl(html.value).None?
    ensures r.Stored? ==> html.Some? && FindLnurl(html.value) == Some(r.lnurl)
  {
    if html.None? then Caught
    else
      match FindLnurl(html.value)
      case Some(cap) => Stored(cap)
      case None => NoMatch
  }

  /** The guard changes which pages throw, never what is stored: both
      variants store the same capture on the same pages, and the unguarded
      one throws exactly where the guarded one skips or throws. */
  lemma GuardOnlyAvoidsFault(html: Option<string>)
    ensures SubmitGuarded(html).Stored? <==> SubmitUnguarded(html).Stored?
    ensures SubmitGuarded(html).Stored? ==> SubmitGuarded(html) == SubmitUnguarded(html)
    ensures SubmitUnguarded(html).Caught? <==> (SubmitGuarded(html).Caught? || SubmitGuarded(html).NoMatch?)
  {
  }
}
