/** The pull-payment payout request (`redeemRewards`, in nfc.tsx and
    payout.tsx) and the read-side helpers both screens share: the balance
    lookups a tag read starts (`extractLnurl`). */
module Rewards {
  import opened Js
  import opened Effects
  import opened Balance

  /** The two environment variables read by `redeemRewards`; unset ones render as `undefined`. */
  datatype Env = Env(pullPaymentId: Option<string>, serverDomain: Option<string>)

  /** `(0.01).toFixed(2)`. */
  const RewardAmount := "0.01"
  const LightningLike := "BTC-LightningLike"
  const LnurlwPrefix := "lnurlw"

  /** `https://${domain}/api/v1/pull-payments/${pullPaymentId}/payouts`. */
  function PayoutEndpoint(env: Env): string {
    "https://" + Render(env.serverDomain) + "/api/v1/pull-payments/" + Render(env.pullPaymentId) + "/payouts"
  }

  /** `redeemRewards(0.01)`: no request without an lnurl; otherwise one POST
      paying the reward to the lnurl over the Lightning-like method. */
  function RedeemRewards(lnurl: Option<string>, env: Env): (es: seq<Effect>)
    ensures !Truthy(lnurl) ==> es == []
    ensures Truthy(lnurl) ==>
      && |es| == 1 && es[0].PayoutPost?
      && es[0].endpoint == PayoutEndpoint(env)
      && es[0].body == PayoutBody(lnurl.value, RewardAmount, LightningLike)
  {
    if !Truthy(lnurl) then []
    else [PayoutPost(PayoutEndpoint(env), PayoutBody(lnurl.value, RewardAmount, LightningLike))]
  }

  /** A redemption is one payout or nothing: one POST exactly when there is
      an lnurl, paying the reward to that lnurl; it never navigates, scans or
      calls a withdraw callback. */
  lemma RedeemRewardsPaysOnce(lnurl: Option<string>, env: Env)
    ensures var es := RedeemRewards(lnurl, env);
      && CountPosts(es) == (if Truthy(lnurl) then 1 else 0)
      && CountNavigations(es) == 0 && CountScans(es) == 0 && FetchedUrl(es) == None
      && forall i :: 0 <= i < |es| ==>
           es[i].PayoutPost? && lnurl.Some? && es[i].body.destination == lnurl.value
           && es[i].body.amount == RewardAmount
  {
  }

  /** `extractLnurl(text)` run by each of `readers` listeners: only text
      starting with `lnurlw` leads to balance-page requests, one per listener,
      all for the balance page of that text. */
  function Lookups(text: string, readers: nat): (es: seq<Effect>)
    ensures StartsWith(text, LnurlwPrefix) ==> |es| == readers
    ensures !StartsWith(text, LnurlwPrefix) ==> es == []
    ensures forall i :: 0 <= i < |es| ==> es[i] == BalanceLookup(BalanceUrl(text))
  {
    if StartsWith(text, LnurlwPrefix) then seq(readers, _ => BalanceLookup(BalanceUrl(text))) else []
  }

  lemma {:induction false} LookupsCount(text: string, readers: nat)
    ensures CountPosts(Lookups(text, readers)) == 0
    ensures CountNavigations(Lookups(text, readers)) == 0
    ensures CountScans(Lookups(text, readers)) == 0
  {
    NoCountedEffects(Lookups(text, readers));
  }

  lemma {:induction false} NoCountedEffects(es: seq<Effect>)
    requires forall i :: 0 <= i < |es| ==> es[i].BalanceLookup?
    ensures CountPosts(es) == 0 && CountNavigations(es) == 0 && CountScans(es) == 0
    decreases |es|
  {
    if |es| > 0 {
      NoCountedEffects(es[1..]);
    }
  }
}
