/** The server pool: lookups with the options exchange, and the commands that retry until they get through. */
module Pool {
  import opened Servers
  import opened Failover
  import opened Ranking
  import opened Ring
  import SH = StandardHash
  import CH = ConsistentHash

  datatype Strategy = Standard(standard: SH.StandardState) | Consistent(consistent: CH.ConsistentState)

  /** The integrity mode used on a connection, from the pool's setting and what the downstream supports. */
  function InUse(enabled: bool, downstream: Integrity): Integrity {
    if enabled || downstream == Unsupported then downstream else SupportedOff
  }

  /** A server has a connection to the proxy exactly when the proxy is used. */
  ghost predicate Attached(server: Server, proxied: bool, g: Globals)
    reads server, g
  {
    if proxied then server.proxy != null && server.proxy in g.proxies else server.proxy == null
  }

  /** Whether the stream that commands to the server go to is open. */
  predicate Open(server: Server)
    reads server, server.proxy
  {
    if server.proxy != null then server.proxy.stream else server.stream
  }

  /** A server that can be talked to, through an open proxy connection or on its own stream. */
  ghost predicate Usable(server: Server, proxied: bool, g: Globals)
    reads server, server.proxy, g
  {
    Attached(server, proxied, g) && Open(server)
  }

  /** A failure of `server`, seen from the servers `S` of its pool. */
  method Fail(server: Server, proxied: bool, g: Globals, now: int, ghost S: set<Server>)
    requires Fit(S, g) && server in S && Attached(server, proxied, g)
    modifies server`status, server`stream, server`failed, server.proxy
    ensures Fit(S, g) && Attached(server, proxied, g)
    ensures proxied ==> !Open(server) && server.proxy.gotOptions == old(server.proxy.gotOptions)
    ensures Snap(S) == old(Snap(S)[server := AfterFailure(server.View(), proxied, now)])
    ensures server.status != Failed ==> Open(server) == old(Open(server))
  {
    ghost var before := Snap(S);
    var final := server.Failure(now);
    assert Snap(S) == before[server := server.View()];
  }

  const CHECKSUM_FAILED := -2

  /** Why a store gave up: it did not, no usable server is left, or the value could not be compressed. */
  datatype Stop = GoOn | NoServer | NotCompressed

  /** How often a store is repeated because of checksum errors reported downstream. */
  function Extra(limit: int): nat {
    if limit > 1 then limit - 1 else 0
  }

  /** Sends a store until the downstream does not report a checksum error or the retries are used up. */
  method SendStore(server: Server, proxied: bool, g: Globals, limit: int, retries: nat)
    returns (result: int, retries': nat, ghost sends: nat)
    requires Attached(server, proxied, g) && retries <= Extra(limit)
    ensures sends >= 1 && retries + sends - 1 <= Extra(limit)
    ensures result >= 0 || result == CHECKSUM_FAILED ==> Open(server)
    ensures result != CHECKSUM_FAILED ==> retries' == retries + sends - 1
    ensures result == CHECKSUM_FAILED ==> retries' == retries + sends >= limit
  {
    retries', sends := retries, 1;
    result := Send(server, proxied, g);
    while result == CHECKSUM_FAILED
      invariant result >= 0 || result == CHECKSUM_FAILED ==> Open(server)
      invariant sends >= 1 && retries' == retries + sends - 1 <= Extra(limit)
      decreases Extra(limit) - retries'
    {
      retries' := retries' + 1;
      if retries' >= limit {
        break;
      }
      result := Send(server, proxied, g);
      sends := sends + 1;
    }
  }

  /** Sends a command; what comes back is the downstream's to choose. To a closed stream nothing can be sent. */
  method Send(server: Server, proxied: bool, g: Globals) returns (result: int)
    requires Attached(server, proxied, g)
    ensures !Open(server) ==> result == -1
  {
    result := *;
    if !Open(server) {
      result := -1;
    }
  }

  /** Asks the downstream what it supports, unless that is known; the answer is its own to choose. */
  method GetOptions(server: Server, proxied: bool, g: Globals, ghost S: set<Server>) returns (ok: bool)
    requires Fit(S, g) && server in S && Attached(server, proxied, g)
    modifies server`integrity, server`gotOptions, server.proxy
    ensures Fit(S, g) && Attached(server, proxied, g) && Snap(S) == old(Snap(S)) && Open(server) == old(Open(server))
    ensures old(server.gotOptions && (proxied ==> server.proxy.gotOptions)) ==>
              ok && server.integrity == old(server.integrity)
    ensures ok ==> server.gotOptions && (proxied ==> server.proxy.gotOptions)
  {
    ok := true;
    if !server.gotOptions || (proxied && !server.proxy.gotOptions) {
      ok := *;
      if !Open(server) {
        ok := false;
      }
      if ok {
        server.integrity := *;
        server.gotOptions := true;
        if proxied {
          server.proxy.gotOptions := true;
        }
      }
    }
    assert forall s <- S :: s.View() == old(s.View());
  }

  /** The part of a pool lookup that follows once a live server is found. */
  method Negotiate(server: Server, proxied: bool, enableChecksum: bool, g: Globals, now: int,
    ghost S: set<Server>, ghost before: map<Server, Health>)
    requires Fit(S, g) && server in S && Attached(server, proxied, g)
    requires FoundStep(Live(server), before, Snap(S), proxied, now)
    modifies server, server.proxy
    ensures Fit(S, g) && Attached(server, proxied, g)
    ensures server.status != Failed ==>
              Open(server) == old(Open(server)) && OfferStep(before, Snap(S), server, proxied, now)
    ensures old(server.gotOptions && (proxied ==> server.proxy.gotOptions)) ==> server.status == old(server.status)
    ensures server.proxy == old(server.proxy)
    ensures server.integrityInUse == InUse(enableChecksum, server.integrity)
  {
    hide FoundStep, OfferStep;
    ghost var mid := Snap(S);
    var answered := GetOptions(server, proxied, g, S);
    if !answered {
      Fail(server, proxied, g, now, S);
    }
    if server.status != Failed {
      OptionsStep(before, mid, Snap(S), server, answered, proxied, now);
    }
    Choose(server, enableChecksum, S);
  }

  /** Settles which integrity mode the connection uses. */
  method Choose(server: Server, enableChecksum: bool, ghost S: set<Server>)
    modifies server`integrityInUse
    ensures server.integrityInUse == InUse(enableChecksum, server.integrity) && Snap(S) == old(Snap(S))
  {
    if enableChecksum {
      server.integrityInUse := server.integrity;
    } else if server.integrity == Unsupported {
      server.integrityInUse := Unsupported;
    } else {
      server.integrityInUse := SupportedOff;
    }
    assert forall s <- S :: s.View() == old(s.View());
  }

  /** A failing iteration of a retry loop: the servers asked in vain, the server `m` found, and the state of all
      servers before the lookup, when `m` is handed out, and after the command has failed on it. */
  datatype Attempt = Attempt(
    m: Server, asked: seq<Server>, before: map<Server, Health>, mid: map<Server, Health>, after: map<Server, Health>)

  class ServerPool {
    var servers: seq<Server>
    const strategy: Strategy
    const proxyEnabled: bool
    var enableChecksum: bool

    ghost var members: set<Server>
    // the objects of the hash state
    ghost var footprint: set<object>

    ghost predicate Valid()
      reads this, footprint
    {
      match strategy
      case Standard(s) =>
        && s in footprint && footprint == {s, s.buckets}
        && s.Valid() && s.members == members && s.numServers == |servers|
      case Consistent(c) =>
        && c in footprint && footprint == {c, c.points, c.buckets}
        && c.Valid() && c.members == members && c.numServers == |servers|
    }

    /** The servers with their weights, as the hash strategy knows them. */
    ghost function Added(): seq<(Server, nat)>
      requires Valid()
      reads this, footprint
    {
      match strategy
      case Standard(s) => s.added
      case Consistent(c) => c.added
    }

    ghost predicate Listed()
      reads this
    {
      && (forall s <- servers :: s in members) && (forall s <- members :: s in servers)
      && forall o <- footprint :: o != this && !(o is Server) && !(o is Globals)
    }

    constructor (strategy: Strategy, proxyEnabled: bool)
      requires match strategy
               case Standard(s) => s.Valid() && s.added == [] && s.members == {}
               case Consistent(c) => c.Valid() && c.added == [] && c.members == {}
      ensures Valid() && Listed() && servers == [] && members == {}
      ensures this.strategy == strategy && this.proxyEnabled == proxyEnabled && !enableChecksum
    {
      this.strategy, this.proxyEnabled := strategy, proxyEnabled;
      servers, enableChecksum, members := [], false, {};
      footprint := match strategy
                   case Standard(s) => {s, s.buckets}
                   case Consistent(c) => {c, c.points, c.buckets};
    }

    /** `servers` may hold a server twice: persistent servers are shared by host and port. */
    method AddServer(server: Server, weight: nat)
      requires Valid() && Listed() && weight > 0
      modifies this, footprint
      ensures Valid() && Listed() && servers == old(servers) + [server] && enableChecksum == old(enableChecksum)
      ensures Added() == old(Added()) + [(server, weight)] && members == old(members) + {server}
      ensures fresh(footprint - old(footprint))
    {
      servers, members := servers + [server], members + {server};
      match strategy
      case Standard(s) =>
        s.AddServer(server, weight);
        footprint := {s, s.buckets};
      case Consistent(c) =>
        c.AddServer(server, weight);
        footprint := {c, c.points, c.buckets};
    }

    ghost predicate Ready(g: Globals)
      reads this, footprint, members, g, g.proxies
    {
      Valid() && Listed() && servers != [] && Fit(members, g)
    }

    /** Whether the hash strategy has its table. */
    ghost predicate Filled()
      requires Valid()
      reads this, footprint
    {
      match strategy
      case Standard(s) => true
      case Consistent(c) => c.numServers > 1 ==> c.populated
    }

    /** The server that probe `k` of `key` asks. */
    ghost function Probe(key: string, k: nat): Server
      requires Valid() && servers != [] && Filled()
      reads this, footprint
    {
      match strategy
      case Standard(s) => s.Probe(key, k)
      case Consistent(c) => c.Probe(key, k)
    }

    /** No server that a lookup of `key` may ask has a retry interval of zero. Until the table is filled, these are all
        owners of the positions asked for. */
    ghost predicate Patient(key: string, g: Globals)
      requires Valid() && servers != []
      reads this, footprint
    {
      if Filled() then forall k: nat :: k <= Reach(|servers|, g) ==> Probe(key, k).retryInterval != 0
      else
        && strategy.Consistent?
        && var c := strategy.consistent; CH.OwnersPatient(c.added, c.hash, key, Reach(|servers|, g), members)
    }

    /** Filling the table does not change that. */
    lemma PatientOwners(c: CH.ConsistentState, key: string, g: Globals)
      requires Valid() && servers != [] && Filled() && strategy == Consistent(c)
      requires CH.OwnersPatient(c.added, c.hash, key, Reach(|servers|, g), members)
      ensures Patient(key, g)
    {
      hide CH.MayAsk, CH.ConsistentState.Probe;
      forall k: nat | k <= Reach(|servers|, g) ensures Probe(key, k).retryInterval != 0 {
        assert CH.MayAsk(c.added, c.hash, key, k, Probe(key, k));
      }
    }

    /** The servers asked are those of the probe sequence. */
    ghost predicate Along(key: string, found: Found, asked: seq<Server>)
      requires Valid() && servers != [] && Filled()
      reads this, footprint
    {
      && (!found.NoProxy? ==> found.m == Probe(key, |asked|))
      && forall i :: 0 <= i < |asked| ==> asked[i] == Probe(key, i)
    }

    /** The promise of a lookup, whatever the strategy. */
    ghost predicate Looked(key: string, g: Globals, now: int, before: map<Server, Health>,
      server: Server?, found: Found, asked: seq<Server>)
      requires Valid() && servers != [] && Filled()
      reads this, footprint, members, g, g.persistent, server
    {
      && Promised(found, asked, Reach(|servers|, g), before, Snap(members), proxyEnabled, now)
      && Along(key, found, asked) && (found.NoProxy? ==> proxyEnabled && ProxyDown(g))
      && (server != null && server.status != Failed <==> found.Live?)
      && (found.Down? ==> found.m in members && found.m.status == Failed)
      && (server != null ==> !found.NoProxy? && server == found.m && server in members)
    }

    lemma StandardLooked(s: SH.StandardState, key: string, g: Globals, now: int, before: map<Server, Health>,
      server: Server?, found: Found, asked: seq<Server>)
      requires Valid() && servers != [] && strategy == Standard(s)
      requires s.Looked(key, proxyEnabled, g, now, before, server, found, asked)
      ensures Looked(key, g, now, before, server, found, asked)
    {
      hide Promised, Snap, ProxyDown, SH.StandardState.Valid, SH.StandardState.Probe;
    }

    lemma ConsistentLooked(c: CH.ConsistentState, key: string, g: Globals, now: int, before: map<Server, Health>,
      server: Server?, found: Found, asked: seq<Server>)
      requires Valid() && servers != [] && strategy == Consistent(c) && Filled()
      requires c.Looked(key, proxyEnabled, g, now, before, server, found, asked)
      ensures Looked(key, g, now, before, server, found, asked)
    {
      hide Promised, Snap, ProxyDown, CH.ConsistentState.Valid, CH.ConsistentState.Probe;
    }

    /** The lookup of either strategy. */
    method Find(key: string, g: Globals, now: int)
      returns (server: Server?, ghost found: Found, ghost asked: seq<Server>, ghost first: Server)
      requires Ready(g)
      modifies footprint, members, g, g.proxies
      ensures Ready(g) && Filled() && first == Probe(key, 0) && first in members
      ensures g.inMulti == old(g.inMulti) && old(g.proxies) <= g.proxies && fresh(g.proxies - old(g.proxies))
      ensures Looked(key, g, now, old(Snap(members)), server, found, asked)
      ensures found.Live? ==> Linked(found.m, proxyEnabled, old(ProxyOpen(first, g)), g)
      ensures proxyEnabled && old(Cached(first, g)) ==>
                TookCached(found, old(g.multi[first.proxyStr]), old(g.multi[first.proxyStr].gotOptions))
      ensures proxyEnabled ==> KeptOptions(members, old(Options(members)))
      ensures (old(Filled()) ==> unchanged(footprint)) && (old(Patient(key, g)) ==> Patient(key, g))
    {
      hide Looked, Linked, TookCached, Options, Snap, KeptOptions, AllSane, SH.StandardState.Valid;
      hide CH.ConsistentState.Valid, SH.StandardState.Looked, CH.ConsistentState.Looked, CH.OwnersPatient;
      match strategy {
        case Standard(s) =>
          server, found, asked, first := s.FindServer(key, proxyEnabled, g, now);
          StandardLooked(s, key, g, now, old(Snap(members)), server, found, asked);
        case Consistent(c) =>
          server, found, asked, first := c.FindServer(key, proxyEnabled, g, now);
          ConsistentLooked(c, key, g, now, old(Snap(members)), server, found, asked);
          if CH.OwnersPatient(c.added, c.hash, key, Reach(|servers|, g), members) {
            PatientOwners(c, key, g);
          }
      }
    }

    /** Why a lookup has nothing to offer: the proxy cannot be reached, or the server it ended at is down. */
    ghost predicate Unreachable(found: Found, g: Globals)
      reads this, members, g, g.persistent
    {
      if found.NoProxy? then proxyEnabled && ProxyDown(g) else found.m in members && found.m.status == Failed
    }

    /** Finds the server for `key` and settles the integrity mode with it. A server handed out as not failed can be
        talked to directly, and through the proxy exactly when the connection it gets is open: outside a multi
        operation always, and inside one unless the connection kept for the server asked first is closed. */
    method PoolFind(key: string, g: Globals, now: int)
      returns (server: Server?, ghost found: Found, ghost asked: seq<Server>, ghost first: Server)
      requires Ready(g)
      modifies footprint, members, g, g.proxies
      ensures Ready(g) && Filled() && first == Probe(key, 0) && first in members
      ensures g.inMulti == old(g.inMulti) && old(g.proxies) <= g.proxies && fresh(g.proxies - old(g.proxies))
      ensures Along(key, found, asked)
      ensures Ended(found, asked, Reach(|servers|, g), old(Snap(members)), proxyEnabled, now)
      ensures server != null && server.status != Failed ==>
                && server in members && found == Live(server) && Attached(server, proxyEnabled, g)
                && (Usable(server, proxyEnabled, g) <==> !proxyEnabled || old(ProxyOpen(first, g)))
                && OfferStep(old(Snap(members)), Snap(members), server, proxyEnabled, now)
                && (enableChecksum || server.integrity == Unsupported ==> server.integrityInUse == server.integrity)
                && (!enableChecksum && server.integrity != Unsupported ==> server.integrityInUse == SupportedOff)
      ensures server == null || server.status == Failed ==> Unreachable(found, g)
      ensures server == null || server.status == Failed ==>
                if found.NoProxy? then
                  && proxyEnabled
                  && (g.proxyHost == "" || (g.inMulti && g.proxyConnectFailed)
                      || (!g.inMulti && g.persistent != null && g.persistent.status == Failed))
                else found.m in members && found.m.status == Failed
      ensures (old(Filled()) ==> unchanged(footprint)) && (old(Patient(key, g)) ==> Patient(key, g))
      ensures proxyEnabled && old(Cached(first, g)) ==> !found.NoProxy?
      ensures proxyEnabled && found.Live? && old(Cached(first, g)) &&
              old(g.multi[first.proxyStr].gotOptions) && old(found.m.gotOptions) ==>
                server == found.m && server.status != Failed && server.proxy == old(g.multi[first.proxyStr])
    {
      hide OfferStep, FoundStep, Snap, AllSane, Ended, Valid, Probe, Fit, Along, Patient, AllDown;
      ghost var before := Snap(members);
      server, found, asked, first := Find(key, g, now);
      if server == null || server.status == Failed || (proxyEnabled && server.proxy == null) {
        return;
      }
      assert proxyEnabled ==> server.gotOptions == Options(members)[server] == old(Options(members)[server]);
      Agree(server, g, now, before);
    }

    /** The negotiation, which does not touch the hash state. */
    method Agree(server: Server, g: Globals, now: int, ghost before: map<Server, Health>)
      requires Ready(g) && server in members && Attached(server, proxyEnabled, g)
      requires FoundStep(Live(server), before, Snap(members), proxyEnabled, now)
      modifies server, server.proxy
      ensures Ready(g) && unchanged(footprint) && Attached(server, proxyEnabled, g)
      ensures server.status != Failed ==>
                Open(server) == old(Open(server)) && OfferStep(before, Snap(members), server, proxyEnabled, now)
      ensures old(server.gotOptions && (proxyEnabled ==> server.proxy.gotOptions)) ==>
                server.status == old(server.status)
      ensures server.proxy == old(server.proxy) && server.integrityInUse == InUse(enableChecksum, server.integrity)
    {
      hide FoundStep, OfferStep, Snap, AllSane, SH.StandardState.Valid, CH.ConsistentState.Valid;
      assert server !in footprint && server.proxy !in footprint;
      Negotiate(server, proxyEnabled, enableChecksum, g, now, members, before);
    }

    /** `a` is what a failing iteration for `key` may do. */
    ghost predicate FailedTry(key: string, g: Globals, now: int, a: Attempt)
      requires Valid() && servers != [] && Filled()
      reads this, footprint
    {
      && a.before.Keys == members && AllSane(a.before)
      && Along(key, Live(a.m), a.asked)
      && Ended(Live(a.m), a.asked, Reach(|servers|, g), a.before, proxyEnabled, now)
      && OfferStep(a.before, a.mid, a.m, proxyEnabled, now)
      && a.after == a.mid[a.m := AfterFailure(a.mid[a.m], proxyEnabled, now)]
    }

    /** Failing iterations for `key`, one after the other, while the clock stands still. */
    ghost predicate FailingRun(key: string, g: Globals, now: int, run: seq<Attempt>)
      requires Valid() && servers != [] && Filled()
      reads this, footprint
    {
      && (forall i :: 0 <= i < |run| ==> FailedTry(key, g, now, run[i]))
      && forall i :: 0 < i < |run| ==> run[i].before == run[i - 1].after
    }

    lemma NoRun(key: string, g: Globals, now: int)
      requires Valid() && servers != [] && Filled()
      ensures FailingRun(key, g, now, [])
    {
    }

    lemma RunMore(key: string, g: Globals, now: int, run: seq<Attempt>, a: Attempt)
      requires Valid() && servers != [] && Filled() && FailedTry(key, g, now, a)
      requires run != [] ==> FailingRun(key, g, now, run) && a.before == run[|run| - 1].after
      ensures FailingRun(key, g, now, run + [a])
    {
      hide Valid, Filled, FailedTry;
    }

    /** One iteration of a retry loop. `gaveUp` tells that no usable server was found. */
    method Try(key: string, g: Globals, now: int)
      returns (result: int, server: Server?, gaveUp: bool, ghost found: Found, ghost asked: seq<Server>,
        ghost mid: map<Server, Health>)
      requires Ready(g)
      modifies footprint, members, g, g.proxies
      ensures Ready(g) && g.inMulti == old(g.inMulti)
      ensures old(g.proxies) <= g.proxies && fresh(g.proxies - old(g.proxies))
      ensures Filled() && (old(Filled()) ==> unchanged(footprint)) && (old(Patient(key, g)) ==> Patient(key, g))
      ensures gaveUp ==> result < 0 && (server == null || server.status == Failed) && Unreachable(found, g)
      ensures result >= 0 ==> server != null && server in members && Usable(server, proxyEnabled, g)
      ensures result < 0 && !gaveUp ==>
                server != null && FailedTry(key, g, now, Attempt(server, asked, old(Snap(members)), mid, Snap(members)))
    {
      hide Valid, OfferStep, Ended, Along, Probe, Filled, Unreachable, Patient, FailedTry;
      mid := Snap(members);
      assert AllSane(mid);
      hide AllSane, Fit;
      result, gaveUp := -1, true;
      ghost var first;
      server, found, asked, first := PoolFind(key, g, now);
      if server == null || server.status == Failed {
        return;
      }
      gaveUp := false;
      result := Send(server, proxyEnabled, g);
      if result < 0 {
        mid := Snap(members);
        assert server.proxy != null ==> server.proxy in old(g.proxies) || fresh(server.proxy);
        FailOn(server, key, g, now, asked, old(Snap(members)));
      }
    }

    method FailServer(server: Server, g: Globals, now: int)
      requires Ready(g) && server in members && Attached(server, proxyEnabled, g)
      modifies server`status, server`stream, server`failed, server.proxy
      ensures Ready(g) && unchanged(footprint)
      ensures proxyEnabled ==> !Open(server) && server.proxy.gotOptions == old(server.proxy.gotOptions)
      ensures Snap(members) == old(Snap(members)[server := AfterFailure(server.View(), proxyEnabled, now)])
    {
      hide Valid;
      Fail(server, proxyEnabled, g, now, members);
    }

    /** A command has failed on the server that a lookup found. */
    method FailOn(server: Server, key: string, g: Globals, now: int,
      ghost asked: seq<Server>, ghost before: map<Server, Health>)
      requires Ready(g) && Filled() && server in members && Attached(server, proxyEnabled, g)
      requires before.Keys == members && AllSane(before) && Along(key, Live(server), asked)
      requires Ended(Live(server), asked, Reach(|servers|, g), before, proxyEnabled, now)
      requires OfferStep(before, Snap(members), server, proxyEnabled, now)
      modifies server`status, server`stream, server`failed, server.proxy
      ensures Ready(g) && Filled() && unchanged(footprint) && (old(Patient(key, g)) ==> Patient(key, g))
      ensures FailedTry(key, g, now, Attempt(server, asked, before, old(Snap(members)), Snap(members)))
    {
      hide Valid, Filled, Patient, Along, Ended, OfferStep, AllSane;
      FailServer(server, g, now);
      assert server in Snap(members) && Snap(members)[server] == server.View();
    }

    /** The loop of delete, deleteByKey, increment and decrement: tries until an answer comes back or no usable
        server is left. What the downstream answers is its own to choose. `run` are the tries that failed. */
    method Command(key: string, g: Globals, now: int)
      returns (result: int, server: Server?, ghost run: seq<Attempt>, ghost found: Found)
      requires Ready(g) && Patient(key, g)
      modifies footprint, members, g, g.proxies
      ensures Ready(g) && Filled() && g.inMulti == old(g.inMulti)
      ensures FailingRun(key, g, now, run) && |run| <= 3 * |servers|
      ensures result < 0 ==> (server == null || server.status == Failed) && Unreachable(found, g)
      ensures result >= 0 ==> server != null && server in members && Usable(server, proxyEnabled, g)
    {
      hide Valid, RankSum, Patient, FailedTry, FailingRun, Filled, Probe, Fit, Unreachable;
      run, result, server, found := [], -1, null, NoProxy;
      ghost var P := g.proxies;
      while result < 0
        invariant Ready(g) && g.inMulti == old(g.inMulti) && Patient(key, g)
        invariant P <= g.proxies && fresh(g.proxies - P)
        invariant (result >= 0 || run != [] ==> Filled()) && (run != [] ==> FailingRun(key, g, now, run))
        invariant run != [] && result < 0 ==> run[|run| - 1].after == Snap(members)
        invariant |run| <= 3 * |servers|
        invariant result < 0 ==> |run| + RankSum(servers, Snap(members), now) <= 3 * |servers|
        invariant result >= 0 ==> server != null && server in members && Usable(server, proxyEnabled, g)
        decreases result < 0, RankSum(servers, Snap(members), now)
      {
        ghost var asked, mid;
        ghost var before := Snap(members);
        var gaveUp;
        result, server, gaveUp, found, asked, mid := Try(key, g, now);
        if gaveUp {
          break;
        }
        if result < 0 {
          ghost var a := Attempt(server, asked, before, mid, Snap(members));
          FailureLowers(this, key, g, now, a);
          RunMore(key, g, now, run, a);
          run := run + [a];
        }
      }
      NoRun(key, g, now);
    }

    /** One iteration of the store loop. A downstream that reports a checksum error is asked again, up to `limit`
        times over the whole store; `retries` counts these questions, `sends` the requests of this iteration. */
    method TryStore(key: string, limit: int, retries: nat, g: Globals, now: int)
      returns (result: int, server: Server?, stop: Stop, retries': nat, ghost sends: nat, ghost found: Found,
        ghost asked: seq<Server>, ghost mid: map<Server, Health>)
      requires Ready(g) && retries <= Extra(limit)
      modifies footprint, members, g, g.proxies
      ensures Ready(g) && g.inMulti == old(g.inMulti)
      ensures old(g.proxies) <= g.proxies && fresh(g.proxies - old(g.proxies))
      ensures Filled() && (old(Filled()) ==> unchanged(footprint)) && (old(Patient(key, g)) ==> Patient(key, g))
      ensures stop != GoOn ==> result < 0 && sends == 0
      ensures stop == NoServer ==> (server == null || server.status == Failed) && Unreachable(found, g)
      ensures result >= 0 ==> server != null && server in members && Usable(server, proxyEnabled, g)
      ensures stop == GoOn ==> sends >= 1 && retries + sends - 1 <= Extra(limit)
      ensures stop == GoOn && result < 0 ==>
                && retries' == retries + sends - 1 && server != null
                && FailedTry(key, g, now, Attempt(server, asked, old(Snap(members)), mid, Snap(members)))
    {
      hide Valid, OfferStep, Ended, Along, Probe, Filled, Unreachable, Patient, FailedTry;
      mid := Snap(members);
      assert AllSane(mid);
      hide AllSane, Fit;
      result, retries', sends := -1, retries, 0;
      ghost var first;
      server, found, asked, first := PoolFind(key, g, now);
      stop := NoServer;
      if server != null && server.status != Failed {
        var compressed: bool := *;
        stop := if compressed then GoOn else NotCompressed;
        if compressed {
          result, retries', sends := SendStore(server, proxyEnabled, g, limit, retries);
          if result == CHECKSUM_FAILED {
            result := 0;
          } else if result < 0 {
            mid := Snap(members);
            assert server.proxy != null ==> server.proxy in old(g.proxies) || fresh(server.proxy);
            FailOn(server, key, g, now, asked, old(Snap(members)));
          }
        }
      }
    }

    /** The store loop: ends after boundedly many failures and sends, whatever the downstream answers. */
    method Store(key: string, limit: int, g: Globals, now: int)
      returns (result: int, server: Server?, stop: Stop, ghost run: seq<Attempt>, ghost sends: nat, ghost found: Found)
      requires Ready(g) && Patient(key, g)
      modifies footprint, members, g, g.proxies
      ensures Ready(g) && Filled() && g.inMulti == old(g.inMulti)
      ensures FailingRun(key, g, now, run) && |run| <= 3 * |servers|
      ensures sends <= |run| + 1 + if limit > 1 then limit - 1 else 0
      ensures result < 0 <==> stop != GoOn
      ensures stop == NoServer ==> (server == null || server.status == Failed) && Unreachable(found, g)
      ensures result >= 0 ==> server != null && server in members && Usable(server, proxyEnabled, g)
    {
      hide Valid, RankSum, Patient, FailedTry, FailingRun, Filled, Probe, Fit, Unreachable;
      run, sends, result, server, stop, found := [], 0, -1, null, GoOn, NoProxy;
      var retries: nat := 0;
      ghost var P := g.proxies;
      while result < 0
        invariant Ready(g) && g.inMulti == old(g.inMulti) && stop == GoOn && Patient(key, g)
        invariant P <= g.proxies && fresh(g.proxies - P)
        invariant (result >= 0 || run != [] ==> Filled()) && (run != [] ==> FailingRun(key, g, now, run))
        invariant run != [] && result < 0 ==> run[|run| - 1].after == Snap(members)
        invariant |run| <= 3 * |servers| && sends <= |run| + 1 + Extra(limit)
        invariant result >= 0 ==> server != null && server in members && Usable(server, proxyEnabled, g)
        invariant result < 0 ==> retries <= Extra(limit) && sends == |run| + retries
        invariant result < 0 ==> |run| + RankSum(servers, Snap(members), now) <= 3 * |servers|
        decreases result < 0, RankSum(servers, Snap(members), now)
      {
        ghost var n, asked, mid;
        ghost var before := Snap(members);
        result, server, stop, retries, n, found, asked, mid := TryStore(key, limit, retries, g, now);
        if stop != GoOn {
          break;
        }
        sends := sends + n;
        if result < 0 {
          ghost var a := Attempt(server, asked, before, mid, Snap(members));
          FailureLowers(this, key, g, now, a);
          RunMore(key, g, now, run, a);
          run := run + [a];
        }
      }
      NoRun(key, g, now);
    }
  }

  /** A failing iteration lowers the sum of ranks. */
  lemma FailureLowers(pool: ServerPool, key: string, g: Globals, now: int, a: Attempt)
    requires pool.Valid() && pool.Listed() && pool.servers != [] && pool.Filled() && pool.Patient(key, g)
    requires pool.FailedTry(key, g, now, a)
    ensures (forall s <- pool.servers :: s in a.before && s in a.after) && a.after.Keys == a.before.Keys
    ensures RankSum(pool.servers, a.after, now) < RankSum(pool.servers, a.before, now)
  {
    hide ServerPool.Valid, ServerPool.Probe, RankSum;
    assert a.m == pool.Probe(key, |a.asked|);
    FailingIteration(pool.servers, a.before, a.mid, a.after, a.m, pool.proxyEnabled, now);
  }

  lemma {:induction false} RunLowers(pool: ServerPool, key: string, g: Globals, now: int, run: seq<Attempt>)
    requires pool.Valid() && pool.Listed() && pool.servers != [] && pool.Filled() && pool.Patient(key, g)
    requires pool.FailingRun(key, g, now, run) && run != []
    ensures forall s <- pool.servers :: s in run[|run| - 1].after
    ensures |run| + RankSum(pool.servers, run[|run| - 1].after, now) <= 3 * |pool.servers|
  {
    hide ServerPool.Valid, ServerPool.FailedTry, RankSum, ServerPool.Patient;
    var init, a := run[..|run| - 1], run[|run| - 1];
    FailureLowers(pool, key, g, now, a);
    if init != [] {
      RunLowers(pool, key, g, now, init);
    }
  }

  lemma {:induction false} FirstProbes(pool: ServerPool, key: string, k: nat) returns (asked: seq<Server>)
    requires pool.Valid() && pool.servers != [] && pool.Filled()
    ensures |asked| == k && forall i :: 0 <= i < k ==> asked[i] == pool.Probe(key, i)
  {
    hide ServerPool.Valid, ServerPool.Probe;
    asked := [];
    if k > 0 {
      asked := FirstProbes(pool, key, k - 1);
      asked := asked + [pool.Probe(key, k - 1)];
    }
  }

  /** When the servers before the `k`-th probe stay down and that one has a retry interval of zero, a lookup, each probe
      of which may go as told, and a failed command on the server found lead back to the very state they began in. */
  lemma ZeroIntervalCycles(pool: ServerPool, key: string, g: Globals, k: nat, now: int, snap: map<Server, Health>)
    returns (a: Attempt, probed: Health)
    requires pool.Valid() && pool.Listed() && pool.servers != [] && pool.Filled() && k <= Reach(|pool.servers|, g)
    requires snap.Keys == pool.members && AllSane(snap)
    requires forall i: nat :: i < k ==> pool.Probe(key, i) in snap && StaysDown(pool.Probe(key, i), snap, now)
    requires var m := pool.Probe(key, k); m in snap && m.retryInterval == 0 && snap[m] == Downed(now)
    ensures pool.FailedTry(key, g, now, a) && a.before == snap == a.after && |a.asked| == k
    ensures FoundStep(Live(a.m), snap, a.mid, pool.proxyEnabled, now)
    ensures forall s <- a.asked :: s in snap && Probed(snap[s], snap[s], s.retryInterval, true, pool.proxyEnabled, now)
    ensures Probed(snap[a.m], probed, a.m.retryInterval, false, pool.proxyEnabled, now)
    ensures a.mid == snap[a.m := if pool.proxyEnabled then Closed(probed) else probed]
  {
    hide ServerPool.Valid, ServerPool.Probe;
    var m := pool.Probe(key, k);
    var asked := FirstProbes(pool, key, k);
    probed := if pool.proxyEnabled then Downed(now).(status := Unknown) else Reopened(Downed(now), true, now);
    var mid := snap[m := if pool.proxyEnabled then Closed(probed) else probed];
    a := Attempt(m, asked, snap, mid, snap);
    OptionsStep(snap, mid, mid, m, true, pool.proxyEnabled, now);
    assert snap == mid[m := AfterFailure(mid[m], pool.proxyEnabled, now)];
  }

  /** The first probe that asks a server with a retry interval of zero. */
  lemma {:induction false} FirstZero(pool: ServerPool, key: string, n: nat) returns (k: nat)
    requires pool.Valid() && pool.servers != [] && pool.Filled() && pool.Probe(key, n).retryInterval == 0
    ensures k <= n && pool.Probe(key, k).retryInterval == 0
    ensures forall i: nat :: i < k ==> pool.Probe(key, i).retryInterval != 0
  {
    hide ServerPool.Valid, ServerPool.Probe;
    if i: nat :| i < n && pool.Probe(key, i).retryInterval == 0 {
      k := FirstZero(pool, key, i);
    } else {
      k := n;
    }
  }

  /** A retry loop for `key` fails at most 3n times, whatever state it begins in, exactly when no lookup of `key` may
      ask a server with a retry interval of zero. Otherwise some failing iteration leads back to where it began. */
  lemma RunsEndExactlyWhen(pool: ServerPool, key: string, g: Globals, now: int)
    requires pool.Valid() && pool.Listed() && pool.servers != [] && pool.Filled()
    ensures (forall run: seq<Attempt> :: pool.FailingRun(key, g, now, run) ==> |run| <= 3 * |pool.servers|)
       <==> pool.Patient(key, g)
    ensures !pool.Patient(key, g) ==> exists a: Attempt :: pool.FailedTry(key, g, now, a) && a.before == a.after
  {
    hide ServerPool.Valid, ServerPool.FailedTry, RankSum, ServerPool.Probe;
    if pool.Patient(key, g) {
      forall run: seq<Attempt> | pool.FailingRun(key, g, now, run) ensures |run| <= 3 * |pool.servers| {
        if run != [] {
          RunLowers(pool, key, g, now, run);
        }
      }
    } else {
      var a := CycleFromImpatience(pool, key, g, now);
      var run := seq(3 * |pool.servers| + 1, _ => a);
      assert pool.FailingRun(key, g, now, run);
    }
  }

  lemma CycleFromImpatience(pool: ServerPool, key: string, g: Globals, now: int) returns (a: Attempt)
    requires pool.Valid() && pool.Listed() && pool.servers != [] && pool.Filled() && !pool.Patient(key, g)
    ensures pool.FailedTry(key, g, now, a) && a.before == a.after
  {
    hide ServerPool.Valid, ServerPool.FailedTry;
    var n: nat :| n <= Reach(|pool.servers|, g) && pool.Probe(key, n).retryInterval == 0;
    var k := FirstZero(pool, key, n);
    var probed;
    var snap := map s <- pool.members :: Downed(now);
    forall i: nat ensures pool.Probe(key, i) in pool.members {
      ProbesMember(pool, key, i);
    }
    a, probed := ZeroIntervalCycles(pool, key, g, k, now, snap);
  }

  lemma ProbesMember(pool: ServerPool, key: string, k: nat)
    requires pool.Valid() && pool.servers != [] && pool.Filled()
    ensures pool.Probe(key, k) in pool.members
  {
  }

  /** Those passed over were down. */
  lemma AskedInVain(pool: ServerPool, key: string, g: Globals, now: int, before: map<Server, Health>,
    found: Found, asked: seq<Server>)
    requires pool.Valid() && pool.servers != [] && pool.Filled() && pool.Along(key, found, asked)
    requires Ended(found, asked, Reach(|pool.servers|, g), before, pool.proxyEnabled, now)
    ensures forall i: nat :: i < |asked| ==> WasDown(pool.Probe(key, i), before, pool.proxyEnabled, now)
  {
    forall i: nat | i < |asked| ensures WasDown(pool.Probe(key, i), before, pool.proxyEnabled, now) {
      assert asked[i] == pool.Probe(key, i);
    }
  }

  /** A lookup through the proxy with the first server down and the second one not ends at the second. */
  lemma SecondIsFound(pool: ServerPool, key: string, g: Globals, now: int, before: map<Server, Health>,
    found: Found, asked: seq<Server>)
    requires pool.Valid() && |pool.servers| > 1 && pool.Filled()
    requires pool.proxyEnabled && g.allowFailover && g.maxFailoverAttempts > 0
    requires var first, next := pool.Probe(key, 0), pool.Probe(key, 1);
             && first in before && StaysDown(first, before, now) && next in before && before[next].status != Failed
    requires pool.Along(key, found, asked) && !found.NoProxy?
    requires Ended(found, asked, Reach(|pool.servers|, g), before, pool.proxyEnabled, now)
    ensures found == Live(pool.Probe(key, 1))
  {
    hide ServerPool.Valid, ServerPool.Probe;
    AskedInVain(pool, key, g, now, before, found, asked);
  }

  /** Inside a multi operation a lookup can hand out a server that cannot be talked to. When a command on `first` has
      failed, its proxy connection is closed and kept; the next lookup of the same key walks on to the next server,
      which is live, and reaches it through that closed connection. */
  method StaleLookup(pool: ServerPool, first: Server, key: string, g: Globals, now: int) returns (server: Server?)
    requires pool.Ready(g) && pool.Filled() && pool.proxyEnabled
    requires first == pool.Probe(key, 0) && first in pool.members && first.retryInterval != 0
    requires Cached(first, g) && first.proxy == g.multi[first.proxyStr] && first.proxy.gotOptions
    requires g.allowFailover && g.maxFailoverAttempts > 0
    requires var next := pool.Probe(key, 1);
             next in pool.members && next != first && next.status != Failed && next.gotOptions
    modifies pool.footprint, pool.members, g, g.proxies
    ensures server == old(pool.Probe(key, 1)) && server.status != Failed
    ensures server.proxy == old(first.proxy) && !Usable(server, true, g)
  {
    hide ServerPool.Valid, ServerPool.Along, Ended, OfferStep, ServerPool.Probe, AllSane;
    ghost var next := pool.Probe(key, 1);
    assert first in pool.servers && next in pool.servers;
    assert next.View() == Snap(pool.members)[next];
    pool.FailServer(first, g, now);
    ghost var before := Snap(pool.members);
    assert before[first] == Downed(now) && before[next] == old(next.View());
    ghost var found, asked, asksFirst;
    server, found, asked, asksFirst := pool.PoolFind(key, g, now);
    SecondIsFound(pool, key, g, now, before, found, asked);
  }

  /** A lookup can always be retried where no server has a retry interval of zero. */
  lemma AllPatient(pool: ServerPool, key: string, g: Globals)
    requires pool.Valid() && pool.servers != [] && forall s <- pool.members :: s.retryInterval != 0
    ensures pool.Patient(key, g)
  {
    hide CH.ConsistentState.Valid, SH.StandardState.Valid, CH.ConsistentState.Probe, SH.StandardState.Probe, CH.MayAsk;
  }

  /** A pool without servers. */
  method NewPool(consistent: bool, proxied: bool, hash: HashFunction) returns (pool: ServerPool)
    ensures fresh(pool) && fresh(pool.footprint) && pool.Valid() && pool.Listed()
    ensures pool.servers == [] && pool.members == {} && pool.proxyEnabled == proxied
  {
    var strategy;
    if consistent {
      var c := new CH.ConsistentState(hash);
      strategy := Consistent(c);
    } else {
      var s := new SH.StandardState(hash);
      strategy := Standard(s);
    }
    pool := new ServerPool(strategy, proxied);
  }

  /** A pool made from nothing with two servers, and a command on it. */
  method TwoServers(consistent: bool, proxied: bool, hash: HashFunction, first: Server, second: Server,
    key: string, g: Globals, now: int)
    returns (result: int, server: Server?, ghost run: seq<Attempt>)
    requires Fit({first, second}, g) && first.retryInterval != 0 && second.retryInterval != 0
    modifies first, second, g, g.proxies
    ensures |run| <= 6
    ensures result >= 0 ==> server in {first, second} && Usable(server, proxied, g)
    ensures result < 0 ==> server == null || server.status == Failed
  {
    hide ServerPool.Valid, ServerPool.Patient, ServerPool.FailingRun, Fit, ServerPool.Unreachable, ServerPool.Filled;
    var pool := NewPool(consistent, proxied, hash);
    pool.AddServer(first, 1);
    pool.AddServer(second, 1);
    assert pool.members == {first, second};
    AllPatient(pool, key, g);
    ghost var found;
    result, server, run, found := pool.Command(key, g, now);
  }
}
