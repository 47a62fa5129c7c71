/** Theory of the consistent-hash ring: who owns a position, and what adding a server moves. */
module Ring {

  const MODULUS: int := 0x1_0000_0000
  type Word = w: int | 0 <= w < MODULUS

  type HashFunction = string -> Word

  datatype Point<S> = Point(server: S, point: Word)

  /** Clockwise distance on the 32-bit circle. */
  function Distance(from: Word, to: Word): Word {
    if to >= from then to - from else to + MODULUS - from
  }

  /** `p` is a first point of the ring met when going clockwise from `q`, `q` included. */
  ghost predicate First<S>(ring: multiset<Point<S>>, q: Word, p: Point<S>) {
    p in ring && forall x <- ring :: Distance(q, p.point) <= Distance(q, x.point)
  }

  /** `s` owns position `q`. Several servers own it exactly when they share the first point. */
  ghost predicate Owns<S>(ring: multiset<Point<S>>, q: Word, s: S) {
    exists p <- ring :: First(ring, q, p) && p.server == s
  }

  /** Going clockwise from `q` means up to the end of the circle and on from zero: no point of the ring lies before the
      one of an owner. */
  lemma OwnsClockwise<S(!new)>(ring: multiset<Point<S>>, q: Word, s: S)
    ensures Owns(ring, q, s) <==>
              exists p :: p in ring && p.server == s &&
                if p.point >= q then forall x <- ring :: !(q <= x.point < p.point)
                else forall x <- ring :: p.point <= x.point < q
  {
    forall p <- ring
      ensures First(ring, q, p) <==>
                if p.point >= q then forall x <- ring :: !(q <= x.point < p.point)
                else forall x <- ring :: p.point <= x.point < q
    {
    }
  }

  ghost predicate NoSharedPoint<S>(ring: multiset<Point<S>>) {
    forall p <- ring, p' <- ring :: p.point == p'.point ==> p.server == p'.server
  }

  ghost predicate AllOf<S>(ring: multiset<Point<S>>, s: S) {
    forall p <- ring :: p.server == s
  }

  ghost predicate Ascending<S>(s: seq<Point<S>>) {
    forall i, j :: 0 <= i < j < |s| ==> s[i].point <= s[j].point
  }

  lemma OwnerExists<S>(ring: multiset<Point<S>>, q: Word) returns (p: Point<S>)
    requires ring != multiset{}
    ensures First(ring, q, p)
    decreases |ring|
  {
    var x :| x in ring;
    var rest := ring - multiset{x};
    if rest == multiset{} {
      p := x;
      assert ring == multiset{x};
    } else {
      var y := OwnerExists(rest, q);
      p := if Distance(q, x.point) <= Distance(q, y.point) then x else y;
      assert forall z <- ring :: z == x || z in rest;
    }
  }

  /** Without shared points the owner of a position is unique. */
  lemma OwnerUnique<S>(ring: multiset<Point<S>>, q: Word, s: S, t: S)
    requires NoSharedPoint(ring)
    requires Owns(ring, q, s) && Owns(ring, q, t)
    ensures s == t
  {
    var p :| p in ring && First(ring, q, p) && p.server == s;
    var p' :| p' in ring && First(ring, q, p') && p'.server == t;
    assert Distance(q, p.point) == Distance(q, p'.point);
  }

  /** Minimal disruption: points added for one server take positions over for that server only. */
  lemma MinimalDisruption<S>(ring: multiset<Point<S>>, extra: multiset<Point<S>>, added: S, q: Word, s: S, t: S)
    requires AllOf(extra, added) && NoSharedPoint(ring + extra)
    requires Owns(ring, q, s) && Owns(ring + extra, q, t)
    ensures t == s || t == added
  {
    var p' :| p' in ring + extra && First(ring + extra, q, p') && p'.server == t;
    if p' !in extra {
      assert First(ring, q, p') by {
        forall x <- ring ensures Distance(q, p'.point) <= Distance(q, x.point) {
          assert x in ring + extra;
        }
      }
      assert NoSharedPoint(ring) by {
        assert forall x <- ring :: x in ring + extra;
      }
      OwnerUnique(ring, q, s, t);
    }
  }

  /** The new server's points are strictly nearer than every point of the old ring. */
  ghost predicate Overtakes<S>(ring: multiset<Point<S>>, extra: multiset<Point<S>>, q: Word) {
    exists e <- extra :: forall x <- ring :: Distance(q, e.point) < Distance(q, x.point)
  }

  ghost predicate SingleOwner<S(!new)>(ring: multiset<Point<S>>, q: Word) {
    forall s, t :: Owns(ring, q, s) && Owns(ring, q, t) ==> s == t
  }

  ghost predicate Undisturbed<S(!new)>(ring: multiset<Point<S>>, extra: multiset<Point<S>>, added: S, q: Word) {
    forall s, t :: Owns(ring, q, s) && Owns(ring + extra, q, t) ==> t == s || t == added
  }
  
  /** With shared points allowed, a position is safe from disruption, whatever order the sort gives to
      equal points, exactly when it had one owner or the new server takes it over outright. */
  lemma DisruptionExactly<S(!new)>(ring: multiset<Point<S>>, extra: multiset<Point<S>>, added: S, q: Word)
    requires AllOf(extra, added) && ring != multiset{}
    ensures Undisturbed(ring, extra, added, q) <==> SingleOwner(ring, q) || Overtakes(ring, extra, q)
  {
    if Overtakes(ring, extra, q) {
      var e :| e in extra && forall x <- ring :: Distance(q, e.point) < Distance(q, x.point);
      forall t | Owns(ring + extra, q, t) ensures t == added {
        var p :| p in ring + extra && First(ring + extra, q, p) && p.server == t;
        assert e in ring + extra && Distance(q, p.point) <= Distance(q, e.point);
        assert p !in ring && p in extra;
      }
    } else {
      OwnersSurvive(ring, extra, added, q);
    }
  }

  /** When the new points do not overtake, every old owner stays an owner, and only the new server joins. */
  lemma OwnersSurvive<S(!new)>(ring: multiset<Point<S>>, extra: multiset<Point<S>>, added: S, q: Word)
    requires AllOf(extra, added) && ring != multiset{} && !Overtakes(ring, extra, q)
    ensures forall t :: Owns(ring, q, t) ==> Owns(ring + extra, q, t)
    ensures forall t :: Owns(ring + extra, q, t) ==> Owns(ring, q, t) || t == added
    ensures Undisturbed(ring, extra, added, q) <==> SingleOwner(ring, q)
  {
    forall t | Owns(ring, q, t) ensures Owns(ring + extra, q, t) {
      var p :| p in ring && First(ring, q, p) && p.server == t;
      forall x <- ring + extra ensures Distance(q, p.point) <= Distance(q, x.point) {
        if x !in ring {
          assert x in extra;
          var y :| y in ring && Distance(q, x.point) >= Distance(q, y.point);
        }
      }
      assert First(ring + extra, q, p);
    }
    forall t | Owns(ring + extra, q, t) ensures Owns(ring, q, t) || t == added {
      var p :| p in ring + extra && First(ring + extra, q, p) && p.server == t;
      if p !in extra {
        assert First(ring, q, p) by {
          assert forall x <- ring :: x in ring + extra;
        }
      }
    }
    if Undisturbed(ring, extra, added, q) {
      forall s, t | Owns(ring, q, s) && Owns(ring, q, t) ensures s == t {
        assert Owns(ring + extra, q, s) && Owns(ring + extra, q, t);
      }
    }
  }
}
