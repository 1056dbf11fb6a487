/** What the screens do to the world, as values: alerts, scans, requests,
    navigation and the loading flag. Every browser call of the source becomes
    one of these effects. */
module Effects {
  import opened Js
  import opened SearchParams

  /** A URL as parsed by `new URL(...)`: everything before the query, the query
      entries, and the fragment. Serialisation is not modelled. */
  datatype Url = Url(location: string, query: seq<Param>, fragment: string)

  /** The JSON body of the pull-payment payout request. */
  datatype PayoutBody = PayoutBody(destination: string, amount: string, paymentMethod: string)

  datatype Effect =
    | Alert(text: string)                    // window.alert
    | StartScan                              // NDEFReader.scan()
    | PlaySound                              // the payment sound cue
    | SetLoading(on: bool)                   // setIsLoading
    | ResolveParams(lnurl: string)           // js-lnurl getParams: the metadata request
    | FetchCallback(callback: Url)           // fetch of the withdraw callback
    | BalanceLookup(page: string)            // axios.get of the balance page
    | PayoutPost(endpoint: string, body: PayoutBody) // axios.post of the payout
    | NavigateBack                           // window.history.back()

  /** The loading flag after the effects: the last `SetLoading` wins. */
  function LoadingAfter(before: bool, es: seq<Effect>): bool
    decreases |es|
  {
    if |es| == 0 then before
    else LoadingAfter(if es[0].SetLoading? then es[0].on else before, es[1..])
  }

  lemma {:induction false} LoadingAfterAppend(before: bool, a: seq<Effect>, b: seq<Effect>)
    ensures LoadingAfter(before, a + b) == LoadingAfter(LoadingAfter(before, a), b)
    decreases |a|
  {
    if |a| > 0 {
      assert (a + b)[1..] == a[1..] + b;
      LoadingAfterAppend(if a[0].SetLoading? then a[0].on else before, a[1..], b);
    } else {
      assert a + b == b;
    }
  }

  /** Effects without a `SetLoading` leave the flag alone. */
  lemma {:induction false} LoadingAfterNoSet(before: bool, es: seq<Effect>)
    requires forall i :: 0 <= i < |es| ==> !es[i].SetLoading?
    ensures LoadingAfter(before, es) == before
    decreases |es|
  {
    if |es| > 0 {
      LoadingAfterNoSet(before, es[1..]);
    }
  }

  /** Effects ending in `SetLoading(v)` leave the flag at `v`. */
  lemma {:induction false} LastSetLoadingWins(before: bool, es: seq<Effect>)
    requires |es| > 0 && es[|es| - 1].SetLoading?
    ensures LoadingAfter(before, es) == es[|es| - 1].on
    decreases |es|
  {
    if |es| > 1 {
      assert es[1..][|es[1..]| - 1] == es[|es| - 1];
      LastSetLoadingWins(if es[0].SetLoading? then es[0].on else before, es[1..]);
    }
  }

  /** The first callback request among the effects, if any. */
  function FetchedUrl(es: seq<Effect>): Option<Url>
    decreases |es|
  {
    if |es| == 0 then None
    else if es[0].FetchCallback? then Some(es[0].callback)
    else FetchedUrl(es[1..])
  }

  lemma {:induction false} FetchedUrlAppend(a: seq<Effect>, b: seq<Effect>)
    ensures FetchedUrl(a + b) == (if FetchedUrl(a).Some? then FetchedUrl(a) else FetchedUrl(b))
    decreases |a|
  {
    if |a| > 0 {
      assert (a + b)[1..] == a[1..] + b;
      FetchedUrlAppend(a[1..], b);
    } else {
      assert a + b == b;
    }
  }

  /** Effects without a callback request have no first callback request. */
  lemma {:induction false} FetchedUrlNone(es: seq<Effect>)
    requires forall i :: 0 <= i < |es| ==> !es[i].FetchCallback?
    ensures FetchedUrl(es) == None
    decreases |es|
  {
    if |es| > 0 {
      FetchedUrlNone(es[1..]);
    }
  }

  function CountPosts(es: seq<Effect>): nat
    decreases |es|
  {
    if |es| == 0 then 0 else (if es[0].PayoutPost? then 1 else 0) + CountPosts(es[1..])
  }

  function CountNavigations(es: seq<Effect>): nat
    decreases |es|
  {
    if |es| == 0 then 0 else (if es[0].NavigateBack? then 1 else 0) + CountNavigations(es[1..])
  }

  function CountScans(es: seq<Effect>): nat
    decreases |es|
  {
    if |es| == 0 then 0 else (if es[0].StartScan? then 1 else 0) + CountScans(es[1..])
  }

  lemma {:induction false} CountsAppend(a: seq<Effect>, b: seq<Effect>)
    ensures CountPosts(a + b) == CountPosts(a) + CountPosts(b)
    ensures CountNavigations(a + b) == CountNavigations(a) + CountNavigations(b)
    ensures CountScans(a + b) == CountScans(a) + CountScans(b)
    decreases |a|
  {
    if |a| > 0 {
      assert (a + b)[1..] == a[1..] + b;
      CountsAppend(a[1..], b);
    } else {
      assert a + b == b;
    }
  }
}
