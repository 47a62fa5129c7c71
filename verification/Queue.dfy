/** The growable ring-buffer queue of pointers; `head` is the index of the last element. */
module Queue {

  const PREALLOC := 25

  /** A pointer that may be NULL. */
  datatype Ptr<T> = Null | Ref(value: T)

  /** The part of a queue that is popped before the first NULL. */
  function UpToNull<T>(s: seq<Ptr<T>>): (r: seq<Ptr<T>>)
    ensures |r| <= |s|
  {
    if s == [] || s[0].Null? then [] else [s[0]] + UpToNull(s[1..])
  }

  /** `s` without the occurrences of `p`, in order. */
  function Without<T(==)>(s: seq<Ptr<T>>, p: Ptr<T>): (r: seq<Ptr<T>>) {
    if s == [] then [] else (if s[0] == p then [] else [s[0]]) + Without(s[1..], p)
  }

  lemma {:induction false} WithoutConcat<T>(s: seq<Ptr<T>>, t: seq<Ptr<T>>, p: Ptr<T>)
    ensures Without(s + t, p) == Without(s, p) + Without(t, p)
  {
    if s == [] {
      assert s + t == t;
    } else {
      var first := if s[0] == p then [] else [s[0]];
      calc {
        Without(s + t, p);
        { assert (s + t)[1..] == s[1..] + t; }
        first + Without(s[1..] + t, p);
        { WithoutConcat(s[1..], t, p); }
        first + (Without(s[1..], p) + Without(t, p));
        first + Without(s[1..], p) + Without(t, p);
      }
    }
  }

  lemma {:induction false} UpToNullIsPrefix<T>(s: seq<Ptr<T>>)
    ensures UpToNull(s) <= s && Null !in UpToNull(s)
    ensures |UpToNull(s)| < |s| <==> Null in s
    ensures |UpToNull(s)| < |s| ==> s[|UpToNull(s)|] == Null
  {
    if s != [] && !s[0].Null? {
      UpToNullIsPrefix(s[1..]);
    }
  }

  lemma WithoutEmpty<T>(s: seq<Ptr<T>>, p: Ptr<T>)
    ensures Without(s, p) == [] <==> forall i :: 0 <= i < |s| ==> s[i] == p
  {
    if s != [] {
      WithoutEmpty(s[1..], p);
      assert s == [s[0]] + s[1..];
    }
  }

  /** What is left are the elements other than `p`, in order: piece by piece, down to single elements. */
  lemma WithoutFilters<T>(s: seq<Ptr<T>>, t: seq<Ptr<T>>, x: Ptr<T>, p: Ptr<T>)
    ensures Without(s + t, p) == Without(s, p) + Without(t, p)
    ensures Without([], p) == [] && Without([x], p) == if x == p then [] else [x]
  {
    WithoutConcat(s, t, p);
  }

  /** Removing drops exactly the occurrences of `p`, for the queues in which nothing but `p` follows the
      first NULL; in particular for all queues without a NULL. */
  lemma RemoveExactlyWhen<T>(s: seq<Ptr<T>>, p: Ptr<T>)
    ensures Without(UpToNull(s), p) == Without(s, p) <==> forall i :: |UpToNull(s)| <= i < |s| ==> s[i] == p
    ensures Null !in s ==> Without(UpToNull(s), p) == Without(s, p)
  {
    UpToNullIsPrefix(s);
    var rest := s[|UpToNull(s)|..];
    assert s == UpToNull(s) + rest;
    WithoutConcat(UpToNull(s), rest, p);
    WithoutEmpty(rest, p);
  }

  lemma RemoveStep<T>(s: seq<Ptr<T>>, p: Ptr<T>)
    requires s != [] && s[0] != Null
    ensures Without(UpToNull(s), p) == (if s[0] == p then [] else [s[0]]) + Without(UpToNull(s[1..]), p)
  {
    assert UpToNull(s)[1..] == UpToNull(s[1..]);
  }

  lemma RemoveEnds<T>(s: seq<Ptr<T>>, p: Ptr<T>)
    requires s == [] || s[0] == Null
    ensures Without(UpToNull(s), p) == []
  {
  }

  /** The index of item `i` in a ring buffer of the given size. */
  function Slot(i: nat, tail: nat, size: nat): int {
    if tail + i < size then tail + i else i - (size - tail)
  }

  /** Growing a full buffer, with the segment from `tail` on moved to the end if it has wrapped, keeps every item. */
  lemma GrownKeeps<T>(full: seq<T>, grown: seq<T>, contents: seq<T>, tail: nat, increase: nat)
    requires |full| == |contents| && |grown| == |full| + increase && (tail < |full| || full == [])
    requires full == [] ==> tail == 0
    requires forall i :: 0 <= i < |full| ==> full[Slot(i, tail, |full|)] == contents[i]
    requires forall j :: 0 <= j < (if tail > 0 then tail else |full|) ==> grown[j] == full[j]
    requires tail > 0 ==> forall j :: tail <= j < |full| ==> grown[j + increase] == full[j]
    ensures var tail' := if tail > 0 then tail + increase else 0;
            forall i :: 0 <= i < |full| ==> grown[Slot(i, tail', |grown|)] == contents[i]
  {
    var tail' := if tail > 0 then tail + increase else 0;
    forall i | 0 <= i < |full| ensures grown[Slot(i, tail', |grown|)] == contents[i] {
      var j := Slot(i, tail, |full|);
      assert full[j] == contents[i];
    }
  }

  /** A full buffer has wrapped unless it begins at its start, and its head stays where it is when it grows. */
  lemma GrownHead(head: nat, tail: nat, size: nat, increase: nat)
    requires if size == 0 then head == tail == 0 else tail < size && head == Slot(size - 1, tail, size)
    requires increase > 0
    ensures tail > 0 <==> head < tail
    ensures size > 0 ==> head == Slot(size - 1, if head < tail then tail + increase else tail, size + increase)
  {
  }

  class PtrQueue<T(==)> {
    var items: array<Ptr<T>>
    var alloc: nat
    var head: nat
    var tail: nat
    var len: nat
    ghost var contents: seq<Ptr<T>>

    ghost predicate Valid()
      reads this, items
    {
      && items.Length == alloc && len <= alloc
      && (if alloc == 0 then head == tail == 0 else head < alloc && tail < alloc)
      && head == (if len == 0 then tail else Slot(len - 1, tail, alloc))
      && |contents| == len && forall i :: 0 <= i < len ==> items[Slot(i, tail, alloc)] == contents[i]
    }

    constructor ()
      ensures Valid() && contents == [] && fresh(items)
    {
      items := new Ptr<T>[0];
      alloc, head, tail, len, contents := 0, 0, 0, 0, [];
    }

    method Item(i: nat) returns (p: Ptr<T>)
      requires Valid() && i < len
      ensures p == contents[i]
    {
      p := if tail + i < alloc then items[tail + i] else items[i - (alloc - tail)];
    }

    /** A larger buffer, in which a tail segment that has wrapped round is at the end again. */
    method Enlarged(increase: nat) returns (grown: array<Ptr<T>>)
      requires Valid() && len == alloc
      ensures fresh(grown) && grown.Length == alloc + increase
      ensures forall i :: 0 <= i < (if head < tail then tail else alloc) ==> grown[i] == items[i]
      ensures head < tail ==> forall i :: tail <= i < alloc ==> grown[i + increase] == items[i]
    {
      grown := new Ptr<T>[alloc + increase](_ => Null);
      forall i | 0 <= i < alloc {
        grown[i] := items[i];
      }
      if head < tail {
        forall i | tail <= i < alloc {
          grown[i + increase] := grown[i];
        }
      }
    }

    method Grow()
      requires Valid() && len == alloc
      modifies this
      ensures Valid() && contents == old(contents) && fresh(items)
      ensures alloc == old(alloc) + 26
    {
      var increase := 1 + PREALLOC;
      var grown := Enlarged(increase);
      GrownKeeps(items[..], grown[..], contents, tail, increase);
      GrownHead(head, tail, alloc, increase);
      ghost var newTail := if tail > 0 then tail + increase else 0;
      assert forall i :: 0 <= i < len ==> grown[Slot(i, newTail, grown.Length)] == contents[i];
      hide Slot;
      if head < tail {
        tail := tail + increase;
      }
      items := grown;
      alloc := alloc + increase;
    }

    method Push(p: Ptr<T>)
      requires Valid()
      modifies this, items
      ensures Valid() && contents == old(contents) + [p]
      ensures items == old(items) || fresh(items)
    {
      if len >= alloc {
        Grow();
      }
      Append(p);
    }

    method Append(p: Ptr<T>)
      requires Valid() && len < alloc
      modifies this, items
      ensures Valid() && contents == old(contents) + [p] && items == old(items)
    {
      if len > 0 {
        head := head + 1;
        if head >= alloc {
          head := 0;
        }
      }
      items[head] := p;
      len := len + 1;
      contents := contents + [p];
    }

    method Pop() returns (p: Ptr<T>)
      requires Valid()
      modifies this
      ensures Valid() && items == old(items)
      ensures old(contents) == [] ==> p == Null && contents == []
      ensures old(contents) != [] ==> p == old(contents)[0] && contents == old(contents)[1..]
    {
      if len == 0 {
        return Null;
      }
      p := items[tail];
      len := len - 1;
      if len > 0 {
        tail := tail + 1;
        if tail >= alloc {
          tail := 0;
        }
      }
      contents := contents[1..];
    }

    method Contains(p: Ptr<T>) returns (found: bool)
      requires Valid()
      ensures found <==> p in contents
    {
      for i := 0 to len
        invariant p !in contents[..i]
      {
        var item := Item(i);
        if item == p {
          return true;
        }
      }
      return false;
    }

    /** Forgets the buffer. */
    method Release()
      modifies this
      ensures Valid() && contents == [] && fresh(items)
    {
      items := new Ptr<T>[0];
      alloc, head, tail, len, contents := 0, 0, 0, 0, [];
    }

    /** A queue over the same buffer. */
    constructor Alias(q: PtrQueue<T>)
      requires q.Valid()
      ensures Valid() && contents == q.contents && items == q.items
    {
      items, alloc, head, tail, len, contents := q.items, q.alloc, q.head, q.tail, q.len, q.contents;
    }

    /** Moves what `original` pops over, except `p`, up to the first NULL. */
    method Refill(original: PtrQueue<T>, p: Ptr<T>)
      requires Valid() && original.Valid() && original != this && items != original.items && contents == []
      modifies this, items, original
      ensures Valid() && contents == Without(UpToNull(old(original.contents)), p)
      ensures items == old(items) || fresh(items)
    {
      hide UpToNull, Without, Valid;
      ghost var rest, buffer := original.contents, original.items;
      var item := original.Pop();
      while item != Null
        invariant Valid() && original.Valid() && original.items == buffer != items
        invariant items == old(items) || fresh(items)
        invariant if rest == [] then item == Null else item == rest[0] && original.contents == rest[1..]
        invariant contents + Without(UpToNull(rest), p) == Without(UpToNull(old(original.contents)), p)
        decreases rest
      {
        RemoveStep(rest, p);
        if item != p {
          Push(item);
        }
        rest := rest[1..];
        item := original.Pop();
      }
      RemoveEnds(rest, p);
    }

    /** Rebuilds the queue from what it pops. The loop ends at the first NULL. */
    method Remove(p: Ptr<T>)
      requires Valid()
      modifies this
      ensures Valid() && contents == Without(UpToNull(old(contents)), p) && fresh(items)
    {
      var original := new PtrQueue<T>.Alias(this);
      Release();
      Refill(original, p);
    }
  }
}
