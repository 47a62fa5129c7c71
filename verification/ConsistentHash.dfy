/** The consistent-hash state: weighted ring points and the precomputed bucket table. */
module ConsistentHash {
  import opened Text
  import opened Servers
  import opened Failover
  import opened Ring

  const POINTS := 160
  const BUCKETS := 1024
  const STEP := 0xffff_ffff / BUCKETS

  /** The key hashed for ring point `i` of a server, "host:port-i". */
  function PointKey(server: Server, i: nat): string {
    server.host + ":" + Decimal(server.port) + "-" + Decimal(i)
  }

  /** The key hashed for probe `k`: the key itself, then "key-0", "key-1" and so on. */
  function ProbeKey(key: string, k: nat): string {
    if k == 0 then key else key + "-" + Decimal(k - 1)
  }

  ghost function ServerPoints(server: Server, n: nat, hash: HashFunction): (s: seq<Point<Server>>)
    ensures |s| == n
  {
    seq(n, i requires 0 <= i => Point(server, hash(PointKey(server, i))))
  }

  /** All points of the servers added so far, whatever their order. */
  ghost function RingOf(added: seq<(Server, nat)>, hash: HashFunction): multiset<Point<Server>> {
    if added == [] then multiset{}
    else var last := added[|added| - 1];
         RingOf(added[..|added| - 1], hash) + PointsOf(last, hash)
  }

  /** The table position of bucket `i`. */
  function BucketPoint(i: nat): Word
    requires i < BUCKETS
  {
    STEP * i
  }

  /** The positions of the buckets divide the circle evenly, but for what is left over at its end. */
  lemma BucketsDivideCircle()
    ensures BUCKETS == 1024 && BucketPoint(0) == 0
    ensures forall i: nat :: i < 1023 ==> BucketPoint(i + 1) - BucketPoint(i) == 4194303
    ensures 4194303 <= 0x1_0000_0000 - BucketPoint(1023) < 2 * 4194303
  {
  }

  /** The leftmost point at or above `point`, or the first one when there is none: `i` in an ascending ring. */
  ghost predicate FoundAt<S>(points: seq<Point<S>>, point: Word, i: nat) {
    && i < |points|
    && (forall j :: 0 <= j < i ==> points[j].point < point)
    && (points[i].point >= point || (i == 0 && forall j :: 0 <= j < |points| ==> points[j].point < point))
  }

  lemma FoundAtIsFirst<S>(points: seq<Point<S>>, point: Word, i: nat)
    requires Ascending(points)
    requires FoundAt(points, point, i)
    ensures Owns(multiset(points), point, points[i].server)
  {
    var p := points[i];
    assert p in multiset(points);
    forall x <- multiset(points) ensures Distance(point, p.point) <= Distance(point, x.point) {
      var j :| 0 <= j < |points| && points[j] == x;
    }
    assert First(multiset(points), point, p);
  }

  lemma FoundIsOwner(points: seq<Point<Server>>, point: Word, server: Server)
    requires Ascending(points) && exists at: nat :: FoundAt(points, point, at) && server == points[at].server
    ensures Owns(multiset(points), point, server)
  {
    var at: nat :| FoundAt(points, point, at) && server == points[at].server;
    FoundAtIsFirst(points, point, at);
  }

  ghost predicate Populated(points: seq<Point<Server>>, table: seq<Server?>) {
    && |table| == BUCKETS
    && forall i :: 0 <= i < BUCKETS ==> table[i] != null && Owns(multiset(points), BucketPoint(i), table[i])
  }

  lemma RingMembers(added: seq<(Server, nat)>, hash: HashFunction)
    ensures forall p <- RingOf(added, hash) :: exists a <- added :: a.0 == p.server
  {
    if added != [] {
      RingMembers(added[..|added| - 1], hash);
    }
  }

  /** `p` is point `i` of a server with its weight: 160 points per unit of weight, hashed from "host:port-i". */
  ghost predicate IsPoint(a: (Server, nat), i: nat, hash: HashFunction, p: Point<Server>) {
    i < 160 * a.1 && p.server == a.0 && p.point == hash(a.0.host + ":" + Decimal(a.0.port) + "-" + Decimal(i))
  }

  /** The ring holds exactly the points of the servers added. */
  lemma {:induction false} RingPoints(added: seq<(Server, nat)>, hash: HashFunction, p: Point<Server>)
    ensures p in RingOf(added, hash) <==> exists a, i: nat :: a in added && IsPoint(a, i, hash, p)
  {
    if added != [] {
      hide IsPoint, PointsOf;
      var init, last := added[..|added| - 1], added[|added| - 1];
      RingPoints(init, hash, p);
      PointsAre(last, hash, p);
      assert forall a :: a in added <==> a in init || a == last;
    }
  }

  lemma PointsAre(a: (Server, nat), hash: HashFunction, p: Point<Server>)
    ensures p in PointsOf(a, hash) <==> exists i: nat :: IsPoint(a, i, hash, p)
  {
    var s := ServerPoints(a.0, a.1 * POINTS, hash);
    assert p in multiset(s) <==> exists i :: 0 <= i < |s| && s[i] == p;
    forall i: nat ensures IsPoint(a, i, hash, p) <==> i < |s| && s[i] == p {
      if i < |s| {
        assert s[i] == Point(a.0, hash(PointKey(a.0, i)));
      }
    }
  }

  ghost function PointsOf(a: (Server, nat), hash: HashFunction): multiset<Point<Server>> {
    multiset(ServerPoints(a.0, a.1 * POINTS, hash))
  }

  /** A sequence without its element `k`. */
  ghost function Drop<T>(s: seq<T>, k: nat): seq<T>
    requires k < |s|
  {
    s[..k] + s[k + 1..]
  }

  lemma DropEarly<T>(s: seq<T>, k: nat)
    requires k < |s| - 1
    ensures Drop(s, k) == Drop(s[..|s| - 1], k) + [s[|s| - 1]]
  {
  }

  lemma RingMore(added: seq<(Server, nat)>, a: (Server, nat), hash: HashFunction)
    ensures RingOf(added + [a], hash) == RingOf(added, hash) + PointsOf(a, hash)
  {
    assert (added + [a])[..|added|] == added;
  }

  lemma {:induction false} RingRemove(added: seq<(Server, nat)>, k: nat, hash: HashFunction)
    requires k < |added|
    ensures RingOf(added, hash) == RingOf(Drop(added, k), hash) + PointsOf(added[k], hash)
  {
    hide PointsOf;
    var n := |added| - 1;
    if k == n {
      assert Drop(added, k) == added[..n];
    } else {
      hide Drop;
      var init := added[..n];
      calc {
        RingOf(added, hash);
        RingOf(init, hash) + PointsOf(added[n], hash);
        { RingRemove(init, k, hash); }
        RingOf(Drop(init, k), hash) + PointsOf(added[k], hash) + PointsOf(added[n], hash);
        RingOf(Drop(init, k), hash) + PointsOf(added[n], hash) + PointsOf(added[k], hash);
        { RingMore(Drop(init, k), added[n], hash); DropEarly(added, k); }
        RingOf(Drop(added, k), hash) + PointsOf(added[k], hash);
      }
    }
  }

  /** The ring depends on which servers were added with which weights, not on the order. */
  lemma {:induction false} RingIgnoresOrder(a: seq<(Server, nat)>, b: seq<(Server, nat)>, hash: HashFunction)
    requires multiset(a) == multiset(b)
    ensures RingOf(a, hash) == RingOf(b, hash)
  {
    if a == [] {
      assert |multiset(b)| == 0;
    } else {
      var n := |a| - 1;
      assert a[n] in multiset(b);
      var k :| 0 <= k < |b| && b[k] == a[n];
      assert a == a[..n] + [a[n]];
      assert b == b[..k] + [b[k]] + b[k + 1..];
      calc {
        multiset(a[..n]);
        multiset(a) - multiset{a[n]};
        multiset(b) - multiset{b[k]};
        multiset(Drop(b, k));
      }
      RingIgnoresOrder(a[..n], Drop(b, k), hash);
      RingRemove(b, k, hash);
    }
  }

  /** With one server added, the shortcut that skips the table finds the owner of every position. */
  lemma SoleOwner(added: seq<(Server, nat)>, points: seq<Point<Server>>, hash: HashFunction, q: Word)
    requires |added| == 1 && points != [] && multiset(points) == RingOf(added, hash)
    ensures Owns(multiset(points), q, points[0].server)
  {
    RingMembers(added, hash);
    assert points[0] in multiset(points);
    var p := OwnerExists(multiset(points), q);
    assert p.server == added[0].0 == points[0].server;
  }

  /** Two tables built from the same servers in any two orders agree, when no point is shared. */
  lemma TableIgnoresOrder(
    a: seq<(Server, nat)>, b: seq<(Server, nat)>, hash: HashFunction,
    points: seq<Point<Server>>, points': seq<Point<Server>>, table: seq<Server?>, table': seq<Server?>)
    requires multiset(a) == multiset(b) && NoSharedPoint(RingOf(a, hash))
    requires multiset(points) == RingOf(a, hash) && Populated(points, table)
    requires multiset(points') == RingOf(b, hash) && Populated(points', table')
    ensures table == table'
  {
    RingIgnoresOrder(a, b, hash);
    forall i | 0 <= i < BUCKETS ensures table[i] == table'[i] {
      OwnerUnique(RingOf(a, hash), BucketPoint(i), table[i], table'[i]);
    }
  }

  /** Adding a server and rebuilding the table moves buckets to the new server only. */
  lemma TableMinimalDisruption(
    added: seq<(Server, nat)>, server: Server, weight: nat, hash: HashFunction,
    points: seq<Point<Server>>, points': seq<Point<Server>>, table: seq<Server?>, table': seq<Server?>)
    requires NoSharedPoint(RingOf(added + [(server, weight)], hash))
    requires multiset(points) == RingOf(added, hash) && Populated(points, table)
    requires multiset(points') == RingOf(added + [(server, weight)], hash) && Populated(points', table')
    ensures forall i :: 0 <= i < BUCKETS ==> table'[i] == table[i] || table'[i] == server
  {
    var extra := multiset(ServerPoints(server, weight * POINTS, hash));
    assert (added + [(server, weight)])[..|added|] == added;
    forall i | 0 <= i < BUCKETS ensures table'[i] == table[i] || table'[i] == server {
      MinimalDisruption(RingOf(added, hash), extra, server, BucketPoint(i), table[i], table'[i]);
    }
  }

  function InsertPoint<S>(p: Point<S>, s: seq<Point<S>>): (r: seq<Point<S>>)
    ensures multiset(r) == multiset(s) + multiset{p}
  {
    if s == [] || p.point <= s[0].point then [p] + s
    else
      assert s == [s[0]] + s[1..];
      [s[0]] + InsertPoint(p, s[1..])
  }

  lemma InsertKeepsAscending<S>(p: Point<S>, s: seq<Point<S>>)
    requires Ascending(s)
    ensures Ascending(InsertPoint(p, s))
  {
    if s != [] && p.point > s[0].point {
      var t := InsertPoint(p, s[1..]);
      InsertKeepsAscending(p, s[1..]);
      forall i | 0 <= i < |t| ensures s[0].point <= t[i].point {
        assert t[i] in multiset(t);
        assert t[i] == p || t[i] in multiset(s[1..]);
      }
    }
  }

  function SortPoints<S>(s: seq<Point<S>>): (r: seq<Point<S>>)
    ensures Ascending(r) && multiset(r) == multiset(s)
  {
    if s == [] then []
    else
      assert s == [s[0]] + s[1..];
      var rest := SortPoints(s[1..]);
      InsertKeepsAscending(s[0], rest);
      InsertPoint(s[0], rest)
  }

  /** Stands for qsort: callers only learn that the array is sorted and keeps its points. */
  method Sort<S>(a: array<Point<S>>)
    modifies a
    ensures Ascending(a[..]) && multiset(a[..]) == old(multiset(a[..]))
  {
    var sorted := SortPoints(a[..]);
    assert |sorted| == |multiset(sorted)| == |multiset(a[..])| == a.Length;
    forall i | 0 <= i < a.Length {
      a[i] := sorted[i];
    }
    assert a[..] == sorted;
  }

  /** A table with a server of `S` in every bucket. */
  ghost predicate Full(table: seq<Server?>, S: set<Server>) {
    |table| == BUCKETS && forall b :: 0 <= b < BUCKETS ==> table[b] != null && table[b] in S
  }

  ghost function Entry(table: seq<Server?>, hash: HashFunction, key: string, k: nat): Server?
    requires |table| == BUCKETS
  {
    table[hash(ProbeKey(key, k)) % BUCKETS]
  }

  /** The servers the first `k` probes of `key` ask. */
  ghost function Asked(table: seq<Server?>, hash: HashFunction, key: string, k: nat): (a: seq<Server?>)
    requires |table| == BUCKETS
    ensures |a| == k
  {
    if k == 0 then [] else Asked(table, hash, key, k - 1) + [Entry(table, hash, key, k - 1)]
  }

  /** `s` owns the position on the ring that probe `k` of `key` asks for. */
  ghost predicate MayAsk(added: seq<(Server, nat)>, hash: HashFunction, key: string, k: nat, s: Server) {
    Owns(RingOf(added, hash), BucketPoint(hash(ProbeKey(key, k)) % BUCKETS), s)
  }

  /** None of the servers `S` that the first probe of `key` or `reach` more may ask has a retry interval of zero. */
  ghost predicate OwnersPatient(
    added: seq<(Server, nat)>, hash: HashFunction, key: string, reach: nat, S: set<Server>)
  {
    forall k: nat, s <- S :: k <= reach && MayAsk(added, hash, key, k, s) ==> s.retryInterval != 0
  }

  class ConsistentState {
    const hash: HashFunction
    var numServers: nat
    var points: array<Point<Server>>
    var numPoints: nat
    var buckets: array<Server?>
    var populated: bool
    // every server added so far, with its weight
    ghost var added: seq<(Server, nat)>

    ghost var members: set<Server>

    ghost predicate Valid()
      reads this, points, buckets
    {
      && buckets.Length == BUCKETS
      && points.Length == numPoints
      && numServers == |added|
      && (forall a <- added :: a.0 in members && a.1 > 0)
      && (numServers > 0 ==> numPoints > 0)
      && multiset(points[..]) == RingOf(added, hash)
      && (populated ==> Populated(points[..], buckets[..]))
    }

    constructor (hash: HashFunction)
      ensures Valid() && added == [] && members == {} && this.hash == hash
      ensures fresh(points) && fresh(buckets)
    {
      this.hash := hash;
      numServers, numPoints, populated, added, members := 0, 0, false, [], {};
      points := new Point<Server>[0];
      buckets := new Server?[BUCKETS](_ => null);
    }

    /** Binary search over the sorted points, wrapping past the last one. */
    method Find(point: Word) returns (server: Server)
      requires points.Length == numPoints > 0 && Ascending(points[..])
      ensures exists at: nat :: FoundAt(points[..], point, at) && server == points[..][at].server
    {
      var lo, hi := 0, numPoints - 1;
      while true
        invariant 0 <= lo <= hi < numPoints
        invariant lo > 0 ==> points[lo - 1].point < point
        invariant (lo == 0 && hi == numPoints - 1) || point <= points[hi].point
        decreases hi - lo
      {
        if point <= points[lo].point || point > points[hi].point {
          assert forall j :: 0 <= j < numPoints ==> points[..][j] == points[j];
          assert FoundAt(points[..], point, lo);
          return points[lo].server;
        }
        var mid := lo + (hi - lo) / 2;
        if point <= points[mid].point && point > (if mid > 0 then points[mid - 1].point else 0) {
          assert forall j :: 0 <= j < numPoints ==> points[..][j] == points[j];
          assert FoundAt(points[..], point, mid);
          return points[mid].server;
        }
        if points[mid].point < point {
          lo := mid + 1;
        } else {
          hi := mid - 1;
        }
      }
    }

    method FillTable()
      requires buckets.Length == BUCKETS && points.Length == numPoints > 0 && Ascending(points[..])
      modifies buckets
      ensures Populated(points[..], buckets[..])
    {
      hide Owns, FoundAt, Ascending;
      ghost var ring := multiset(points[..]);
      for i := 0 to BUCKETS
        invariant forall j :: 0 <= j < i ==> buckets[j] != null && Owns(ring, BucketPoint(j), buckets[j])
      {
        var server := Find(STEP * i);
        FoundIsOwner(points[..], BucketPoint(i), server);
        buckets[i] := server;
      }
    }

    method PopulateBuckets()
      requires Valid() && numPoints > 0
      modifies points, buckets, `populated
      ensures Valid() && populated
    {
      Sort(points);
      FillTable();
      populated := true;
    }

    method Extend(server: Server, n: nat) returns (grown: array<Point<Server>>)
      requires points.Length == numPoints
      ensures fresh(grown) && grown[..] == points[..] + ServerPoints(server, n, hash)
    {
      grown := new Point<Server>[numPoints + n](_ => Point(server, 0));
      forall i | 0 <= i < numPoints {
        grown[i] := points[i];
      }
      for i := 0 to n
        invariant forall j :: 0 <= j < numPoints ==> grown[j] == points[j]
        invariant forall j :: 0 <= j < i ==> grown[numPoints + j] == Point(server, hash(PointKey(server, j)))
      {
        grown[numPoints + i] := Point(server, hash(PointKey(server, i)));
      }
      forall j | 0 <= j < grown.Length ensures grown[j] == (points[..] + ServerPoints(server, n, hash))[j] {
        if j >= numPoints {
          assert grown[numPoints + (j - numPoints)] == Point(server, hash(PointKey(server, j - numPoints)));
        }
      }
    }

    method AddServer(server: Server, weight: nat)
      requires Valid() && weight > 0
      modifies this
      ensures Valid() && added == old(added) + [(server, weight)] && members == old(members) + {server}
      ensures points[..] == old(points[..]) + ServerPoints(server, weight * POINTS, hash)
      ensures !populated && buckets == old(buckets) && fresh(points)
    {
      var grown := Extend(server, weight * POINTS);
      points := grown;
      numPoints := points.Length;
      numServers := numServers + 1;
      populated := false;
      added, members := added + [(server, weight)], members + {server};
      assert added[..|added| - 1] == old(added);
    }

    /** The server that probe `k` of `key` asks: an owner of the probed position on the ring. */
    ghost function Probe(key: string, k: nat): (s: Server)
      reads this, points, buckets
      requires Valid() && numServers > 0 && (numServers > 1 ==> populated)
      ensures s in members && MayAsk(added, hash, key, k, s)
    {
      RingMembers(added, hash);
      if numServers > 1 then
        Entry(buckets[..], hash, key, k)
      else
        SoleOwner(added, points[..], hash, BucketPoint(hash(ProbeKey(key, k)) % BUCKETS));
        points[0].server
    }

    /** The failover loop: probes servers of the table until one is live or the attempts are used up. */
    method Walk(key: string, via: Server?, g: Globals, now: int, ghost S: set<Server>, ghost table: seq<Server?>)
      returns (m: Server, ghost down: bool, ghost asked: seq<Server>)
      requires buckets[..] == table && Full(table, S) && AllSane(Snap(S))
      modifies S
      ensures Walked(old(Snap(S)), Snap(S), m, down, via != null, now)
      ensures |asked| <= g.maxFailoverAttempts && m == Entry(table, hash, key, |asked|)
      ensures asked == Asked(table, hash, key, |asked|) && AllDown(asked, old(Snap(S)), Snap(S), via != null, now)
      ensures down && g.allowFailover ==> |asked| == g.maxFailoverAttempts
      ensures !g.allowFailover ==> asked == []
      ensures via != null ==> KeptOptions(S, old(Options(S)))
    {
      hide Walked, MayProbe, AllDown, AllSane, Options, Snap;
      ghost var before := Snap(S);
      WalkBegins(before, via != null, now);
      asked := [];
      m := buckets[hash(key) % BUCKETS];
      var failover := ProbeServer(m, via, g.connectionRetries, now, S, before, asked);
      var i := 0;
      while failover && g.allowFailover && i < g.maxFailoverAttempts
        invariant i == |asked| <= g.maxFailoverAttempts
        invariant m in S && m == Entry(table, hash, key, i)
        invariant Walked(before, Snap(S), m, failover, via != null, now)
        invariant failover ==> MayProbe(before, Snap(S), asked + [m], via != null, now)
        invariant !g.allowFailover ==> asked == []
        invariant via != null ==> KeptOptions(S, old(Options(S)))
        invariant asked == Asked(table, hash, key, i) && AllDown(asked, before, Snap(S), via != null, now)
      {
        asked := asked + [m];
        m := buckets[hash(key + "-" + Decimal(i)) % BUCKETS];
        failover := ProbeServer(m, via, g.connectionRetries, now, S, before, asked);
        i := i + 1;
      }
      down := failover;
    }

    /** From the server asked first to the end of the lookup. */
    method WalkFrom(key: string, first: Server, via: Server?, g: Globals, now: int, ghost S: set<Server>,
      ghost table: seq<Server?>)
      returns (server: Server?, ghost found: Found, ghost asked: seq<Server>)
      requires numServers > 1 ==> buckets[..] == table && Full(table, S) && first == Entry(table, hash, key, 0)
      requires first in S && AllSane(Snap(S))
      modifies S
      ensures AllSane(Snap(S)) && FoundStep(found, old(Snap(S)), Snap(S), via != null, now) && !found.NoProxy?
      ensures server == if found.Live? then found.m else null
      ensures found.Live? ==> server.proxy == via && (via == null ==> server.stream)
      ensures if found.Live? then server != null && server.status != Failed else found.m.status == Failed
      ensures |asked| <= Reach(numServers, g) && (found.Down? ==> |asked| == Reach(numServers, g))
      ensures AllDown(asked, old(Snap(S)), Snap(S), via != null, now)
      ensures found.m == if numServers > 1 then Entry(table, hash, key, |asked|) else first
      ensures asked == if numServers > 1 then Asked(table, hash, key, |asked|) else []
      ensures via != null ==> KeptOptions(S, old(Options(S)))
    {
      hide Options, Snap, FoundStep, AllDown, Asked;
      ghost var before := Snap(S);
      ghost var down: bool;
      var m := first;
      asked := [];
      if numServers > 1 {
        m, down, asked := Walk(key, via, g, now, S, table);
      } else {
        WalkBegins(before, via != null, now);
        var failover := ProbeServer(m, via, g.connectionRetries, now, S, before, []);
        down := failover;
        if via != null && failover {
          WalkEnds(before, Snap(S), Snap(S), m, true, true, now);
          return null, Down(m), [];
        }
      }
      Settle(m, via, down, now, S, before, asked);
      found := if down then Down(m) else Live(m);
      server := if m.status != Failed then m else null;
    }

    ghost predicate Ready(g: Globals)
      reads this, points, buckets, members, g, g.proxies
    {
      Valid() && numServers > 0 && Fit(members, g)
    }

    lemma TableMembers()
      requires Valid() && numServers > 1 && populated
      ensures Full(buckets[..], members)
    {
      RingMembers(added, hash);
    }

    method Fill()
      requires Valid() && numPoints > 0
      modifies points, buckets, `populated
      ensures Valid() && populated && Snap(members) == old(Snap(members)) && Options(members) == old(Options(members))
      ensures old(populated) ==> unchanged(this) && unchanged(points) && unchanged(buckets)
    {
      hide Valid;
      if !populated {
        PopulateBuckets();
        assert forall s <- members :: s.View() == old(s.View()) && s.gotOptions == old(s.gotOptions);
      }
    }

    /** The server asked first, from the table, which is filled if it has to be. */
    method FirstServer(key: string, ghost g: Globals) returns (m: Server)
      requires Ready(g)
      modifies points, buckets, `populated
      ensures Ready(g) && (numServers > 1 ==> populated) && m == Probe(key, 0) && m in members
      ensures Snap(members) == old(Snap(members)) && Options(members) == old(Options(members))
      ensures old(numServers > 1 ==> populated) ==> unchanged(this) && unchanged(points) && unchanged(buckets)
    {
      hide Fit;
      if numServers > 1 {
        Fill();
        TableMembers();
        hide Snap, Options;
        assert Probe(key, 0) == buckets[..][hash(key) % BUCKETS];
        m := buckets[hash(key) % BUCKETS];
      } else {
        m := points[0].server;
      }
    }

    /** The servers asked are those of the probe sequence. */
    ghost predicate Along(key: string, found: Found, asked: seq<Server>)
      reads this, points, buckets
      requires Valid() && numServers > 0 && (numServers > 1 ==> populated)
    {
      && (!found.NoProxy? ==> found.m == Probe(key, |asked|))
      && forall i :: 0 <= i < |asked| ==> asked[i] == Probe(key, i)
    }

    /** The promise of a lookup: the first live server of the bounded probe sequence, and NULL only without a proxy
        or when all servers asked were down. `asked` are those left behind. */
    ghost predicate Looked(key: string, useProxy: bool, g: Globals, now: int, before: map<Server, Health>,
      server: Server?, found: Found, asked: seq<Server>)
      reads this, points, buckets, members, g, g.persistent, server
      requires Valid() && numServers > 0 && (numServers > 1 ==> populated)
    {
      && Promised(found, asked, Reach(numServers, g), before, Snap(members), useProxy, now)
      && Along(key, found, asked) && (found.NoProxy? ==> useProxy && ProxyDown(g))
      && server == (if found.Live? then found.m else null)
      && (found.Live? <==> server != null && server.status != Failed) && (found.Down? ==> found.m.status == Failed)
    }

    lemma AskedAre(key: string, n: nat)
      requires Valid() && numServers > 1 && populated
      ensures forall i :: 0 <= i < n ==> Asked(buckets[..], hash, key, n)[i] == Probe(key, i)
    {
      if n > 0 {
        AskedAre(key, n - 1);
      }
    }

    /** The servers asked, the one found included, own the positions that the hashes of the key, of "key-0", "key-1" and
        so on stand for: bucket number times 4194303. */
    ghost predicate AskedOwn(key: string, servers: seq<Server>)
      reads this
    {
      forall k :: 0 <= k < |servers| ==>
        Owns(RingOf(added, hash), hash(if k == 0 then key else key + "-" + Decimal(k - 1)) % 1024 * 4194303, servers[k])
    }

    lemma NoProxyFound(key: string, g: Globals, now: int)
      requires Valid() && numServers > 0 && (numServers > 1 ==> populated) && ProxyDown(g)
      ensures Looked(key, true, g, now, Snap(members), null, NoProxy, [])
    {
      hide Valid, Snap;
      NothingFound(Snap(members), Reach(numServers, g), now);
    }

    /** What a walk from the server asked first finds is what the lookup promises. */
    lemma WalkedFrom(key: string, useProxy: bool, g: Globals, now: int, before: map<Server, Health>,
      server: Server?, found: Found, asked: seq<Server>)
      requires Valid() && numServers > 0 && (numServers > 1 ==> populated)
      requires FoundStep(found, before, Snap(members), useProxy, now) && !found.NoProxy?
      requires AllDown(asked, before, Snap(members), useProxy, now)
      requires server == (if found.Live? then found.m else null)
      requires if found.Live? then server != null && server.status != Failed else found.m.status == Failed
      requires |asked| <= Reach(numServers, g) && (found.Down? ==> |asked| == Reach(numServers, g))
      requires found.m == if numServers > 1 then Entry(buckets[..], hash, key, |asked|) else points[0].server
      requires asked == if numServers > 1 then Asked(buckets[..], hash, key, |asked|) else []
      ensures Looked(key, useProxy, g, now, before, server, found, asked)
    {
      hide FoundStep, AllDown, Snap, Valid, Promised;
      if numServers > 1 {
        AskedAre(key, |asked|);
      }
      WalkPromised(found, asked, Reach(numServers, g), before, Snap(members), useProxy, now);
    }

    method FindFrom(key: string, first: Server, useProxy: bool, g: Globals, now: int)
      returns (server: Server?, ghost found: Found, ghost asked: seq<Server>)
      requires Ready(g) && (numServers > 1 ==> populated) && first == Probe(key, 0)
      modifies members, g, g.proxies
      ensures Ready(g) && (numServers > 1 ==> populated)
      ensures g.inMulti == old(g.inMulti) && old(g.proxies) <= g.proxies && fresh(g.proxies - old(g.proxies))
      ensures Looked(key, useProxy, g, now, old(Snap(members)), server, found, asked)
      ensures found.Live? ==> Linked(found.m, useProxy, old(ProxyOpen(first, g)), g)
      ensures useProxy && old(Cached(first, g)) ==>
                TookCached(found, old(g.multi[first.proxyStr]), old(g.multi[first.proxyStr].gotOptions))
      ensures useProxy ==> KeptOptions(members, old(Options(members)))
    {
      hide Looked, Valid, FoundStep, AllDown, Promised, Asked, Options, Snap, KeptOptions;
      assert first in members;
      var via := ProxyFor(first, useProxy, g, now, members);
      if useProxy && via == null {
        NoProxyFound(key, g, now);
        return null, NoProxy, [];
      }
      if numServers > 1 {
        TableMembers();
      }
      ghost var before := Snap(members);
      server, found, asked := WalkFrom(key, first, via, g, now, members, buckets[..]);
      WalkedFrom(key, useProxy, g, now, before, server, found, asked);
    }

    lemma LookedOwn(key: string, useProxy: bool, g: Globals, now: int, before: map<Server, Health>,
      server: Server?, found: Found, asked: seq<Server>)
      requires Valid() && numServers > 0 && (numServers > 1 ==> populated)
      requires Looked(key, useProxy, g, now, before, server, found, asked)
      ensures AskedOwn(key, [Probe(key, 0)]) && AskedOwn(key, if found.NoProxy? then asked else asked + [found.m])
    {
      hide Valid, RingOf, Owns, Probe;
      forall k: nat ensures MayAsk(added, hash, key, k, Probe(key, k)) {
      }
    }

    /** Looks the server of `key` up, walking on past servers that are down. The connection it is reached through is
        the one for the server asked first. */
    method FindServer(key: string, useProxy: bool, g: Globals, now: int)
      returns (server: Server?, ghost found: Found, ghost asked: seq<Server>, ghost first: Server)
      requires Ready(g)
      modifies points, buckets, `populated, members, g, g.proxies
      ensures Ready(g) && (numServers > 1 ==> populated) && first == Probe(key, 0)
      ensures g.inMulti == old(g.inMulti) && old(g.proxies) <= g.proxies && fresh(g.proxies - old(g.proxies))
      ensures Looked(key, useProxy, g, now, old(Snap(members)), server, found, asked)
      ensures found.Live? ==> Linked(found.m, useProxy, old(ProxyOpen(first, g)), g)
      ensures useProxy && old(Cached(first, g)) ==>
                TookCached(found, old(g.multi[first.proxyStr]), old(g.multi[first.proxyStr].gotOptions))
      ensures useProxy ==> KeptOptions(members, old(Options(members)))
      ensures old(numServers > 1 ==> populated) ==> unchanged(this) && unchanged(points) && unchanged(buckets)
      ensures added == old(added)
      ensures AskedOwn(key, [first]) && AskedOwn(key, if found.NoProxy? then asked else asked + [found.m])
    {
      hide Valid, Options, Snap, Fit, Probe, Linked, TookCached, Looked, KeptOptions, Globals.Valid, AskedOwn;
      var asksFirst := FirstServer(key, g);
      first := asksFirst;
      ghost var before := Snap(members);
      server, found, asked := FindFrom(key, asksFirst, useProxy, g, now);
      assert Looked(key, useProxy, g, now, before, server, found, asked);
      LookedOwn(key, useProxy, g, now, before, server, found, asked);
    }
  }
}
