/** The rank that every failing iteration of a retry loop lowers. */
module Ranking {
  import opened Servers
  import opened Failover

  /** How many more failing iterations a server can cause while the clock stands still. */
  function Rank(h: Health, retry: int, now: int): (r: nat)
    ensures r <= 3
  {
    match h.status
    case Unknown => 3
    case Disconnected => 2
    case Connected => 1
    case Failed => if Due(h, retry, now) then 2 else 0
  }

  /** How the lookup leaves the server it hands out. In the direct case with an unanswered options
      exchange on a connection in unknown state, the server is handed out disconnected. */
  ghost predicate Offered(h: Health, h': Health, retry: int, proxied: bool, now: int) {
    if proxied then (h.status == Failed ==> Due(h, retry, now)) && h' == Closed(h)
    else || (h'.status in {Connected, Unknown} && ProbeStep(h, h', retry, now))
         || (h.status == Unknown && h' == h.(status := Disconnected))
  }

  ghost predicate OfferStep(
    before: map<Server, Health>, after: map<Server, Health>, m: Server, proxied: bool, now: int)
  {
    && m in before && after.Keys == before.Keys
    && Offered(before[m], after[m], m.retryInterval, proxied, now)
    && forall s <- before | s != m ::
         if proxied then after[s] == before[s] else ProbeStep(before[s], after[s], s.retryInterval, now)
  }

  /** The options exchange on the server found: `after` is the state when it is handed out as usable. */
  lemma OptionsStep(
    before: map<Server, Health>, mid: map<Server, Health>, after: map<Server, Health>,
    m: Server, answered: bool, proxied: bool, now: int)
    requires FoundStep(Live(m), before, mid, proxied, now)
    requires after == if answered then mid else mid[m := AfterFailure(mid[m], proxied, now)]
    requires m in after && after[m].status != Failed
    ensures OfferStep(before, after, m, proxied, now)
  {
  }

  ghost function RankSum(servers: seq<Server>, snap: map<Server, Health>, now: int): (r: nat)
    requires forall s <- servers :: s in snap
    ensures r <= 3 * |servers|
  {
    if servers == [] then 0
    else
      var last := servers[|servers| - 1];
      RankSum(servers[..|servers| - 1], snap, now) + Rank(snap[last], last.retryInterval, now)
  }

  lemma {:induction false} RankSumLower(
    servers: seq<Server>, before: map<Server, Health>, after: map<Server, Health>, m: Server, now: int)
    requires forall s <- servers :: s in before && s in after
    requires forall s <- servers :: Rank(after[s], s.retryInterval, now) <= Rank(before[s], s.retryInterval, now)
    requires m in servers ==> Rank(after[m], m.retryInterval, now) < Rank(before[m], m.retryInterval, now)
    ensures RankSum(servers, after, now) <= RankSum(servers, before, now)
    ensures m in servers ==> RankSum(servers, after, now) < RankSum(servers, before, now)
  {
    if servers != [] {
      RankSumLower(servers[..|servers| - 1], before, after, m, now);
    }
  }

  /** A failing iteration lowers the sum of ranks: `before` the lookup, `mid` when the server is handed
      out, `after` the command has failed on it. */
  lemma FailingIteration(
    servers: seq<Server>, before: map<Server, Health>, mid: map<Server, Health>, after: map<Server, Health>,
    m: Server, proxied: bool, now: int)
    requires (forall s <- servers :: s in before) && m in servers && m.retryInterval != 0
    requires OfferStep(before, mid, m, proxied, now)
    requires after == mid[m := AfterFailure(mid[m], proxied, now)]
    ensures RankSum(servers, after, now) < RankSum(servers, before, now)
  {
    RankSumLower(servers, before, after, m, now);
  }

  ghost predicate EveryFailureLowers(retry: int, proxied: bool, now: int) {
    forall h, h' :: Offered(h, h', retry, proxied, now) ==>
      Rank(AfterFailure(h', proxied, now), retry, now) < Rank(h, retry, now)
  }

  /** The rank argument works exactly for the retry intervals that are not zero. */
  lemma FailureLowersExactlyWhen(retry: int, proxied: bool, now: int)
    ensures EveryFailureLowers(retry, proxied, now) <==> retry != 0
  {
    if retry == 0 {
      var h := Downed(now);
      var h' := if proxied then Closed(h) else Reopened(h, true, now);
      assert Offered(h, h', retry, proxied, now);
    }
  }
}
