/** The standard hash strategy: one bucket per unit of weight, and a hash that grows from probe to probe. */
module StandardHash {
  import opened Text
  import opened Servers
  import opened Failover
  import opened Ring

  /** Bits 16 to 30 of the hash, never zero. */
  function MmcHash(hash: HashFunction, key: string): (h: Word)
    ensures 1 <= h <= 0x7fff
  {
    var h := (hash(key) / 0x1_0000) % 0x8000;
    if h != 0 then h else 1
  }

  /** Bits 16 to 30 of the hash, with one in the place of zero. */
  lemma MmcHashIs(hash: HashFunction, key: string)
    ensures var bits := hash(key) / 0x1_0000 % 0x8000; MmcHash(hash, key) == if bits == 0 then 1 else bits
  {
  }

  /** The accumulated 32-bit hash of probe `k`; probe `k` adds the hash of the number k followed by the key. */
  function ProbeHash(hash: HashFunction, key: string, k: nat): Word {
    if k == 0 then MmcHash(hash, key)
    else (ProbeHash(hash, key, k - 1) + MmcHash(hash, Decimal(k) + key)) % MODULUS
  }

  ghost function Entry(table: seq<Server>, h: Word): (s: Server)
    requires |table| > 0
    ensures s in table
  {
    table[h % |table|]
  }

  /** The servers the first `k` probes of `key` ask. */
  ghost function Asked(table: seq<Server>, hash: HashFunction, key: string, k: nat): (a: seq<Server>)
    requires |table| > 0
    ensures |a| == k
  {
    if k == 0 then []
    else Asked(table, hash, key, k - 1) + [Entry(table, ProbeHash(hash, key, k - 1))]
  }

  /** The bucket table: as many buckets in a row for a server as its weight, in the order added. */
  ghost function TableOf(added: seq<(Server, nat)>): seq<Server> {
    if added == [] then []
    else var last := added[|added| - 1];
         TableOf(added[..|added| - 1]) + seq(last.1, _ => last.0)
  }

  class StandardState {
    const hash: HashFunction
    var numServers: nat
    var buckets: array<Server>
    var numBuckets: nat
    // every server added so far, with its weight
    ghost var added: seq<(Server, nat)>
    ghost var members: set<Server>

    ghost predicate Valid()
      reads this, buckets
    {
      && buckets.Length == numBuckets
      && numServers == |added|
      && (numServers > 0 ==> numBuckets > 0)
      && (forall a <- added :: a.0 in members && a.1 > 0)
      && buckets[..] == TableOf(added)
      && forall s <- buckets[..] :: s in members
    }

    constructor (hash: HashFunction)
      ensures Valid() && added == [] && members == {} && this.hash == hash && fresh(buckets)
    {
      this.hash := hash;
      numServers, numBuckets, added, members := 0, 0, [], {};
      buckets := new Server[0];
    }

    method Extend(server: Server, weight: nat) returns (grown: array<Server>)
      requires buckets.Length == numBuckets
      ensures fresh(grown) && grown[..] == buckets[..] + seq(weight, _ => server)
    {
      grown := new Server[numBuckets + weight](_ => server);
      forall b | 0 <= b < numBuckets {
        grown[b] := buckets[b];
      }
      for i := 0 to weight
        invariant forall b :: 0 <= b < numBuckets ==> grown[b] == buckets[b]
        invariant forall b :: numBuckets <= b < numBuckets + i ==> grown[b] == server
      {
        grown[numBuckets + i] := server;
      }
      assert grown[..] == buckets[..] + seq(weight, _ => server);
    }

    method AddServer(server: Server, weight: nat)
      requires Valid() && weight > 0
      modifies this
      ensures Valid() && added == old(added) + [(server, weight)] && members == old(members) + {server}
      ensures buckets[..] == old(buckets[..]) + seq(weight, _ => server) && fresh(buckets)
    {
      var grown := Extend(server, weight);
      ghost var table := buckets[..];
      buckets := grown;
      numBuckets := grown.Length;
      numServers := numServers + 1;
      added, members := added + [(server, weight)], members + {server};
      assert added[..|added| - 1] == old(added);
      assert buckets[..] == table + seq(weight, _ => server);
    }

    /** The server that probe `k` of `key` asks. */
    ghost function Probe(key: string, k: nat): (s: Server)
      reads this, buckets
      requires Valid() && numServers > 0
      ensures s in members
    {
      if numServers > 1 then Entry(buckets[..], ProbeHash(hash, key, k)) else buckets[0]
    }

    method Bucket(h: Word, ghost table: seq<Server>) returns (s: Server)
      requires buckets.Length == numBuckets > 0 && buckets[..] == table
      ensures s == Entry(table, h)
    {
      s := buckets[h % numBuckets];
    }

    /** The failover loop: probes servers until one is live or the attempts are used up. */
    method Walk(key: string, via: Server?, g: Globals, now: int, ghost S: set<Server>, ghost table: seq<Server>)
      returns (m: Server, ghost down: bool, ghost asked: seq<Server>)
      requires buckets.Length == numBuckets > 0 && buckets[..] == table && forall s <- table :: s in S
      requires AllSane(Snap(S))
      modifies S
      ensures Walked(old(Snap(S)), Snap(S), m, down, via != null, now)
      ensures |asked| <= g.maxFailoverAttempts && m == Entry(table, ProbeHash(hash, key, |asked|))
      ensures asked == Asked(table, hash, key, |asked|)
      ensures AllDown(asked, old(Snap(S)), Snap(S), via != null, now)
      ensures down && g.allowFailover ==> |asked| == g.maxFailoverAttempts
      ensures !g.allowFailover ==> asked == []
      ensures via != null ==> KeptOptions(S, old(Options(S)))
    {
      hide MmcHash, Decimal, Entry, Walked, MayProbe, AllDown, AllSane, Options, Snap;
      ghost var before := Snap(S);
      WalkBegins(before, via != null, now);
      asked := [];
      var h := MmcHash(hash, key);
      m := Bucket(h, table);
      var failover := ProbeServer(m, via, g.connectionRetries, now, S, before, asked);
      var i := 0;
      while failover && g.allowFailover && i < g.maxFailoverAttempts
        invariant i == |asked| <= g.maxFailoverAttempts && h == ProbeHash(hash, key, i)
        invariant m in S && m == Entry(table, h)
        invariant Walked(before, Snap(S), m, failover, via != null, now)
        invariant failover ==> MayProbe(before, Snap(S), asked + [m], via != null, now)
        invariant !g.allowFailover ==> asked == []
        invariant via != null ==> KeptOptions(S, old(Options(S)))
        invariant asked == Asked(table, hash, key, i)
        invariant AllDown(asked, before, Snap(S), via != null, now)
      {
        asked := asked + [m];
        h := (h + MmcHash(hash, Decimal(i + 1) + key)) % MODULUS;
        assert h == ProbeHash(hash, key, i + 1);
        m := Bucket(h, table);
        failover := ProbeServer(m, via, g.connectionRetries, now, S, before, asked);
        i := i + 1;
      }
      down := failover;
    }

    /** From the server asked first to the end of the lookup. A server that is down is handed out as well. */
    method WalkFrom(key: string, first: Server, via: Server?, g: Globals, now: int, ghost S: set<Server>,
      ghost table: seq<Server>)
      returns (server: Server?, ghost found: Found, ghost asked: seq<Server>)
      requires numServers > 1 ==>
                 && buckets.Length == numBuckets > 0 && buckets[..] == table && (forall s <- table :: s in S)
                 && first == Entry(table, ProbeHash(hash, key, 0))
      requires first in S && AllSane(Snap(S))
      modifies S
      ensures AllSane(Snap(S)) && FoundStep(found, old(Snap(S)), Snap(S), via != null, now) && !found.NoProxy?
      ensures server == if found.Live? || numServers > 1 || via == null then found.m else null
      ensures found.Live? ==> server.proxy == via && (via == null ==> server.stream)
      ensures if found.Live? then server != null && server.status != Failed else found.m.status == Failed
      ensures |asked| <= Reach(numServers, g) && (found.Down? ==> |asked| == Reach(numServers, g))
      ensures AllDown(asked, old(Snap(S)), Snap(S), via != null, now)
      ensures numServers > 1 ==> |table| > 0
      ensures found.m == if numServers > 1 then Entry(table, ProbeHash(hash, key, |asked|)) else first
      ensures asked == if numServers > 1 then Asked(table, hash, key, |asked|) else []
      ensures via != null ==> KeptOptions(S, old(Options(S)))
    {
      hide Options, Snap, FoundStep, AllDown, Asked;
      ghost var before := Snap(S);
      ghost var down: bool;
      var m := first;
      asked := [];
      if numServers > 1 {
        m, down, asked := Walk(key, via, g, now, S, table);
      } else {
        WalkBegins(before, via != null, now);
        var failover := ProbeServer(m, via, g.connectionRetries, now, S, before, []);
        down := failover;
        if via != null && failover {
          WalkEnds(before, Snap(S), Snap(S), m, true, true, now);
          return null, Down(m), [];
        }
      }
      Settle(m, via, down, now, S, before, asked);
      found := if down then Down(m) else Live(m);
      server := m;
    }

    ghost predicate Ready(g: Globals)
      reads this, buckets, members, g, g.proxies
    {
      Valid() && numServers > 0 && Fit(members, g)
    }

    /** The servers asked are those of the probe sequence. */
    ghost predicate Along(key: string, found: Found, asked: seq<Server>)
      reads this, buckets
      requires Valid() && numServers > 0
    {
      && (!found.NoProxy? ==> found.m == Probe(key, |asked|))
      && forall i :: 0 <= i < |asked| ==> asked[i] == Probe(key, i)
    }

    /** The promise of a lookup: the first live server of the bounded probe sequence; a server that is down only when
        all asked were, and NULL only without a proxy, or behind one when a sole server is down. */
    ghost predicate Looked(key: string, useProxy: bool, g: Globals, now: int, before: map<Server, Health>,
      server: Server?, found: Found, asked: seq<Server>)
      reads this, buckets, members, g, g.persistent, server
      requires Valid() && numServers > 0
    {
      && Promised(found, asked, Reach(numServers, g), before, Snap(members), useProxy, now)
      && Along(key, found, asked) && (found.NoProxy? ==> useProxy && ProxyDown(g))
      && server == (if found.NoProxy? || (found.Down? && useProxy && numServers == 1) then null else found.m)
      && (found.Live? <==> server != null && server.status != Failed) && (found.Down? ==> found.m.status == Failed)
    }

    /** What the probes of a key ask for: the server at the place of a hash that begins with that of the key, and to
        which the hash of "1key", "2key" and so on is added, modulo 2^32. */
    lemma ProbesAre(key: string, n: nat) returns (hs: seq<nat>)
      requires Valid() && numServers > 1
      ensures |hs| == n + 1
      ensures var bits := hash(key) / 0x1_0000 % 0x8000; hs[0] == if bits == 0 then 1 else bits
      ensures forall k :: 0 < k <= n ==>
                var bits := hash(Decimal(k) + key) / 0x1_0000 % 0x8000;
                hs[k] == (hs[k - 1] + if bits == 0 then 1 else bits) % 0x1_0000_0000
      ensures buckets.Length > 0 && forall k :: 0 <= k <= n ==> Probe(key, k) == buckets[hs[k] % buckets.Length]
    {
      hs := seq(n + 1, k requires 0 <= k => ProbeHash(hash, key, k) as nat);
      MmcHashIs(hash, key);
      forall k: nat | 0 < k <= n
        ensures var bits := hash(Decimal(k) + key) / 0x1_0000 % 0x8000;
                hs[k] == (hs[k - 1] + if bits == 0 then 1 else bits) % 0x1_0000_0000
      {
        MmcHashIs(hash, Decimal(k) + key);
      }
    }

    lemma AskedAre(key: string, n: nat)
      requires Valid() && numServers > 1
      ensures forall i :: 0 <= i < n ==> Asked(buckets[..], hash, key, n)[i] == Probe(key, i)
    {
      if n > 0 {
        AskedAre(key, n - 1);
      }
    }

    lemma NoProxyFound(key: string, g: Globals, now: int)
      requires Valid() && numServers > 0 && ProxyDown(g)
      ensures Looked(key, true, g, now, Snap(members), null, NoProxy, [])
    {
      hide Valid, Snap;
      NothingFound(Snap(members), Reach(numServers, g), now);
    }

    /** What a walk from the server asked first finds is what the lookup promises. */
    lemma WalkedFrom(key: string, useProxy: bool, g: Globals, now: int, before: map<Server, Health>,
      server: Server?, found: Found, asked: seq<Server>)
      requires Valid() && numServers > 0
      requires FoundStep(found, before, Snap(members), useProxy, now) && !found.NoProxy?
      requires AllDown(asked, before, Snap(members), useProxy, now)
      requires server == if found.Live? || numServers > 1 || !useProxy then found.m else null
      requires if found.Live? then server != null && server.status != Failed else found.m.status == Failed
      requires |asked| <= Reach(numServers, g) && (found.Down? ==> |asked| == Reach(numServers, g))
      requires found.m == if numServers > 1 then Entry(buckets[..], ProbeHash(hash, key, |asked|)) else buckets[0]
      requires asked == if numServers > 1 then Asked(buckets[..], hash, key, |asked|) else []
      ensures Looked(key, useProxy, g, now, before, server, found, asked)
    {
      hide FoundStep, AllDown, Snap, Promised, ProbeHash;
      if numServers > 1 {
        AskedAre(key, |asked|);
      }
      WalkPromised(found, asked, Reach(numServers, g), before, Snap(members), useProxy, now);
    }

    /** Looks the server of `key` up, walking on past servers that are down. The connection it is reached through is
        the one for the server asked first. */
    method FindServer(key: string, useProxy: bool, g: Globals, now: int)
      returns (server: Server?, ghost found: Found, ghost asked: seq<Server>, ghost first: Server)
      requires Ready(g)
      modifies members, g, g.proxies
      ensures Ready(g) && first == Probe(key, 0)
      ensures g.inMulti == old(g.inMulti) && old(g.proxies) <= g.proxies && fresh(g.proxies - old(g.proxies))
      ensures Looked(key, useProxy, g, now, old(Snap(members)), server, found, asked)
      ensures found.Live? ==> Linked(found.m, useProxy, old(ProxyOpen(first, g)), g)
      ensures useProxy && old(Cached(first, g)) ==>
                TookCached(found, old(g.multi[first.proxyStr]), old(g.multi[first.proxyStr].gotOptions))
      ensures useProxy ==> KeptOptions(members, old(Options(members)))
    {
      hide Looked, FoundStep, AllDown, Promised, Asked, Options, Snap, KeptOptions;
      var asksFirst := if numServers > 1 then buckets[MmcHash(hash, key) % numBuckets] else buckets[0];
      first := asksFirst;
      assert first == Probe(key, 0);
      var via := ProxyFor(asksFirst, useProxy, g, now, members);
      if useProxy && via == null {
        NoProxyFound(key, g, now);
        return null, NoProxy, [], first;
      }
      ghost var before := Snap(members);
      server, found, asked := WalkFrom(key, asksFirst, via, g, now, members, buckets[..]);
      WalkedFrom(key, useProxy, g, now, before, server, found, asked);
    }
  }
}
