/** What a lookup, and a failed command after it, may do to the servers of a pool. */
module Failover {
  import opened Servers

  ghost function Snap(S: set<Server>): map<Server, Health>
    reads S
  {
    map s <- S :: s.View()
  }

  /** Of which servers it is known what they support. */
  ghost function Options(S: set<Server>): map<Server, bool>
    reads S
  {
    map s <- S :: s.gotOptions
  }

  ghost predicate KeptOptions(S: set<Server>, options: map<Server, bool>)
    reads S
  {
    Options(S) == options
  }

  /** How a lookup ended: no proxy, a server that is down, or a server to talk to. */
  datatype Found = NoProxy | Down(m: Server) | Live(m: Server)

  /** A direct probe leaves a server alone, or opens it if that was allowed. */
  ghost predicate ProbeStep(h: Health, h': Health, retry: int, now: int) {
    || h' == h
    || (&& (h.status == Disconnected || (h.status == Failed && Due(h, retry, now)))
        && (h' == Downed(now) || (h'.status == Connected && h'.stream)))
  }

  ghost predicate DirectStep(before: map<Server, Health>, after: map<Server, Health>, now: int) {
    && after.Keys == before.Keys
    && forall s <- before :: ProbeStep(before[s], after[s], s.retryInterval, now)
  }

  /** Through the proxy only the chosen server changes: its own stream is given up. */
  ghost predicate ProxiedStep(before: map<Server, Health>, after: map<Server, Health>, m: Server, now: int)
    requires m in before
  {
    && (before[m].status == Failed ==> Due(before[m], m.retryInterval, now))
    && after == before[m := Closed(before[m])]
  }

  ghost predicate FoundStep(
    found: Found, before: map<Server, Health>, after: map<Server, Health>, proxied: bool, now: int)
  {
    match found
    case NoProxy => proxied && after == before
    case Down(m) =>
      && m in before && m in after && after[m].status == Failed
      && if proxied then after == before else DirectStep(before, after, now)
    case Live(m) =>
      && m in before && m in after
      && if proxied then ProxiedStep(before, after, m, now)
         else DirectStep(before, after, now) && after[m].status in {Connected, Unknown}
  }

  ghost predicate AllSane(snap: map<Server, Health>) {
    forall s <- snap :: Sane(snap[s])
  }

  lemma StepKeepsSane(found: Found, before: map<Server, Health>, after: map<Server, Health>, proxied: bool, now: int)
    requires AllSane(before) && FoundStep(found, before, after, proxied, now)
    ensures AllSane(after)
  {
  }

  /** What probing one server does to it: `failover` tells whether it was down. */
  ghost predicate Probed(h: Health, h': Health, retry: int, failover: bool, proxied: bool, now: int) {
    if proxied then
      && failover == (h.status == Failed && !Due(h, retry, now))
      && h' == if h.status == Failed && !failover then h.(status := Unknown) else h
    else CanAnswer(h, retry, false, !failover, now) && h' == Opened(h, retry, false, !failover, now)
  }

  /** A walk over the probe sequence that has just probed `m`; every server before it was down. */
  ghost predicate Walked(
    before: map<Server, Health>, after: map<Server, Health>, m: Server, failover: bool, proxied: bool, now: int)
  {
    && m in before && after.Keys == before.Keys
    && if proxied then
         Probed(before[m], after[m], m.retryInterval, failover, true, now) && after == before[m := after[m]]
       else DirectStep(before, after, now) && (if failover then after[m].status == Failed
                                               else after[m].status in {Connected, Unknown})
  }

  /** A server that is down for the whole call. */
  ghost predicate StaysDown(s: Server, snap: map<Server, Health>, now: int)
    requires s in snap
  {
    snap[s].status == Failed && !Due(snap[s], s.retryInterval, now)
  }

  /** A server that failed at time `t` is down until its retry interval is over, and for good when that is negative. */
  lemma DownUntil(s: Server, snap: map<Server, Health>, t: int, now: int)
    requires s in snap && snap[s].status == Failed && snap[s].failed == t
    ensures StaysDown(s, snap, now) <==> s.retryInterval < 0 || now < t + s.retryInterval
  {
  }

  lemma WalkOn(
    before: map<Server, Health>, mid: map<Server, Health>, after: map<Server, Health>,
    m: Server, failover: bool, proxied: bool, now: int)
    requires m in before && mid.Keys == before.Keys
    requires if proxied then mid == before else DirectStep(before, mid, now)
    requires m in after && Probed(mid[m], after[m], m.retryInterval, failover, proxied, now)
    requires after == mid[m := after[m]] && AllSane(mid)
    ensures Walked(before, after, m, failover, proxied, now)
    ensures failover && proxied ==> after == before
    ensures failover && m.retryInterval != 0 ==> StaysDown(m, after, now)
    ensures forall s <- mid :: StaysDown(s, mid, now) ==> StaysDown(s, after, now)
    ensures failover ==> before[m].status in {Disconnected, Failed} && (proxied ==> StaysDown(m, before, now))
  {
  }

  /** The end of a walk is the outcome of the lookup, once the last server is attached. */
  lemma WalkEnds(
    before: map<Server, Health>, mid: map<Server, Health>, after: map<Server, Health>,
    m: Server, failover: bool, proxied: bool, now: int)
    requires Walked(before, mid, m, failover, proxied, now)
    requires after == if proxied && mid[m].status != Failed then mid[m := Closed(mid[m])] else mid
    ensures FoundStep(if failover then Down(m) else Live(m), before, after, proxied, now)
    ensures failover <==> mid[m].status == Failed
  {
    if proxied && !failover {
      assert after == before[m := Closed(before[m])];
    }
  }

  /** The servers `S` of a pool and the proxy connections are apart and in a sound state. */
  ghost predicate Fit(S: set<Server>, g: Globals)
    reads S, g, g.proxies
  {
    g.Valid() && S !! g.proxies && AllSane(Snap(S))
  }

  /** There is no proxy, or its connection could not be opened. */
  ghost predicate ProxyDown(g: Globals)
    reads g, g.persistent
  {
    || g.proxyHost == ""
    || if g.inMulti then g.proxyConnectFailed else g.persistent != null && g.persistent.status == Failed
  }

  /** A lookup inside a multi operation that asks `m` first takes the connection kept for it, open or not. */
  ghost predicate Cached(m: Server, g: Globals)
    reads g
  {
    g.inMulti && g.proxyHost != "" && !g.proxyConnectFailed && m.proxyStr in g.multi
  }

  /** If a lookup that asks `m` first gets a proxy connection, it is an open one. */
  ghost predicate ProxyOpen(m: Server, g: Globals)
    requires g.Valid()
    reads g, g.proxies
  {
    g.inMulti && m.proxyStr in g.multi ==> g.multi[m.proxyStr].stream
  }

  /** How a live server is reached: through a connection to the proxy, open as told, or on its own stream. */
  ghost predicate Linked(m: Server, proxied: bool, open: bool, g: Globals)
    reads m, m.proxy, g
  {
    if proxied then m.proxy != null && m.proxy in g.proxies && (m.proxy.stream <==> open)
    else m.proxy == null && m.stream
  }

  /** A lookup that took a kept connection, for which it is `known` or not what the downstream supports. */
  ghost predicate TookCached(found: Found, cached: Server, known: bool)
    reads if found.Live? then {found.m} else {}, cached
  {
    !found.NoProxy? && cached.gotOptions == known && (found.Live? ==> found.m.proxy == cached)
  }

  /** The proxy to reach the servers `S` through, if it is to be used. */
  method ProxyFor(m: Server, useProxy: bool, g: Globals, now: int, ghost S: set<Server>) returns (via: Server?)
    requires g.Valid() && S !! g.proxies
    modifies g, g.proxies
    ensures g.Valid() && S !! g.proxies && g.inMulti == old(g.inMulti)
    ensures old(g.proxies) <= g.proxies && fresh(g.proxies - old(g.proxies))
    ensures Snap(S) == old(Snap(S)) && KeptOptions(S, old(Options(S)))
    ensures via != null ==> useProxy && via in g.proxies && (via.stream <==> old(ProxyOpen(m, g)))
    ensures useProxy && old(Cached(m, g)) ==>
              via == old(g.multi[m.proxyStr]) && via.gotOptions == old(via.gotOptions)
    ensures via == null && useProxy ==> ProxyDown(g)
  {
    via := null;
    if useProxy {
      via := g.GetProxy(m, now);
      assert forall s <- S :: s.View() == old(s.View());
    }
  }

  /** Every server asked so far was down: through the proxy it had failed and was not due, and directly it was
      disconnected or had failed, and could not be opened. It stays down for this call, unless its retry interval
      is zero. */
  ghost predicate AllDown(
    asked: seq<Server>, before: map<Server, Health>, snap: map<Server, Health>, proxied: bool, now: int)
  {
    forall s <- asked ::
      s in snap && WasDown(s, before, proxied, now) && (s.retryInterval != 0 ==> StaysDown(s, snap, now))
  }

  ghost predicate WasDown(s: Server, before: map<Server, Health>, proxied: bool, now: int) {
    s in before && before[s].status in {Disconnected, Failed} && (proxied ==> StaysDown(s, before, now))
  }

  /** A server that a lookup passed over, or reports as down, was not connected or in an unknown state before;
      through the proxy it had failed before. */
  lemma PassedOver(
    s: Server, asked: seq<Server>, found: Found, before: map<Server, Health>, after: map<Server, Health>,
    proxied: bool, now: int)
    requires FoundStep(found, before, after, proxied, now) && AllDown(asked, before, after, proxied, now)
    requires found == Down(s) || s in asked
    ensures before[s].status in {Disconnected, Failed}
    ensures proxied ==> before[s].status == Failed
  {
    assert s in after;
  }

  /** A server that a lookup takes for live at once. */
  predicate Up(h: Health) {
    h.status == Connected || h.status == Unknown
  }

  /** How many servers a lookup in a pool of `n` may ask after the first one. */
  function Reach(n: nat, g: Globals): nat {
    if n > 1 && g.allowFailover then g.maxFailoverAttempts else 0
  }

  /** How a lookup ended that asked those in `asked` in vain, and may ask `reach` servers after the first one. */
  ghost predicate Ended(
    found: Found, asked: seq<Server>, reach: nat, before: map<Server, Health>, proxied: bool, now: int)
  {
    && (found.NoProxy? ==> proxied && asked == [])
    && (forall i :: 0 <= i < |asked| ==> WasDown(asked[i], before, proxied, now))
    && |asked| <= reach && (found.Down? ==> |asked| == reach)
    && (found.Down? ==> found.m in before && !Up(before[found.m]) && (proxied ==> before[found.m].status == Failed))
    && (found.Live? && proxied ==> found.m in before && !StaysDown(found.m, before, now))
  }

  /** What either hash strategy promises of a lookup, whatever servers it probes. */
  ghost predicate Promised(found: Found, asked: seq<Server>, reach: nat,
    before: map<Server, Health>, after: map<Server, Health>, proxied: bool, now: int)
  {
    && FoundStep(found, before, after, proxied, now) && AllDown(asked, before, after, proxied, now)
    && Ended(found, asked, reach, before, proxied, now)
    && (AllUp(before) ==> asked == [] && !found.Down?)
  }

  /** A walk over the servers of a pool keeps this promise. */
  lemma WalkPromised(found: Found, asked: seq<Server>, reach: nat,
    before: map<Server, Health>, after: map<Server, Health>, proxied: bool, now: int)
    requires FoundStep(found, before, after, proxied, now) && AllDown(asked, before, after, proxied, now)
    requires !found.NoProxy? && |asked| <= reach && (found.Down? ==> |asked| == reach)
    ensures Promised(found, asked, reach, before, after, proxied, now)
  {
    if found.Down? {
      PassedOver(found.m, asked, found, before, after, proxied, now);
    }
    if asked != [] || found.Down? {
      SomeoneWasDown(asked, found, before, after, proxied, now);
    }
  }

  ghost predicate AllUp(snap: map<Server, Health>) {
    forall s <- snap :: Up(snap[s])
  }

  /** When the server asked first is not the one found, some server was down. */
  lemma SomeoneWasDown(
    asked: seq<Server>, found: Found, before: map<Server, Health>, after: map<Server, Health>,
    proxied: bool, now: int)
    requires FoundStep(found, before, after, proxied, now) && AllDown(asked, before, after, proxied, now)
    requires asked != [] || found.Down?
    ensures !AllUp(before)
  {
    PassedOver(if found.Down? then found.m else asked[0], asked, found, before, after, proxied, now);
  }

  lemma NothingFound(snap: map<Server, Health>, reach: nat, now: int)
    ensures Promised(NoProxy, [], reach, snap, snap, true, now)
  {
  }

  /** A walk that may go on to another server, having asked those in `asked` in vain. */
  ghost predicate MayProbe(
    before: map<Server, Health>, snap: map<Server, Health>, asked: seq<Server>, proxied: bool, now: int)
  {
    && snap.Keys == before.Keys && AllSane(snap) && AllDown(asked, before, snap, proxied, now)
    && if proxied then snap == before else DirectStep(before, snap, now)
  }

  lemma WalkBegins(before: map<Server, Health>, proxied: bool, now: int)
    requires AllSane(before)
    ensures MayProbe(before, before, [], proxied, now) && AllDown([], before, before, proxied, now)
  {
  }

  /** Probes `m`, one step of the walk both hash strategies make over the servers `S`. */
  method ProbeServer(
    m: Server, via: Server?, retries: int, now: int,
    ghost S: set<Server>, ghost before: map<Server, Health>, ghost asked: seq<Server>)
    returns (down: bool)
    requires m in S && MayProbe(before, Snap(S), asked, via != null, now)
    modifies m`status, m`stream, m`failed, m`gotOptions
    ensures Walked(before, Snap(S), m, down, via != null, now)
    ensures AllDown(asked, before, Snap(S), via != null, now)
    ensures via != null ==> KeptOptions(S, old(Options(S)))
    ensures down == (m.status == Failed)
    ensures down ==> MayProbe(before, Snap(S), asked + [m], via != null, now)
  {
    ghost var mid := Snap(S);
    assert m in mid && Sane(mid[m]);
    down := m.ShouldFailover(via, retries, now);
    assert Snap(S) == mid[m := m.View()];
    WalkOn(before, mid, Snap(S), m, down, via != null, now);
    if down {
      assert AllSane(Snap(S));
    }
  }

  /** Ends the walk at `m`. */
  method Settle(m: Server, via: Server?, ghost down: bool, now: int,
    ghost S: set<Server>, ghost before: map<Server, Health>, ghost asked: seq<Server>)
    requires Walked(before, Snap(S), m, down, via != null, now) && AllSane(before) && m in S
    requires AllDown(asked, before, Snap(S), via != null, now)
    modifies m`status, m`stream, m`proxy
    ensures FoundStep(if down then Down(m) else Live(m), before, Snap(S), via != null, now)
    ensures AllSane(Snap(S)) && AllDown(asked, before, Snap(S), via != null, now) && down == (m.status == Failed)
    ensures m.proxy == (if down then null else via) && KeptOptions(S, old(Options(S)))
    ensures !down && via == null ==> m.stream
  {
    ghost var mid := Snap(S);
    m.Attach(via);
    assert Snap(S) == mid[m := m.View()];
    WalkEnds(before, mid, Snap(S), m, down, via != null, now);
    StepKeepsSane(if down then Down(m) else Live(m), before, Snap(S), via != null, now);
  }
}
