/** The requests of a round of the batched get: which keys go to which server, and what is left of them afterwards. */
module Batches {
  import opened Options
  import opened Outcomes
  import opened Tokenizer

  const GETS := "gets"

  ghost predicate AllWords(keys: seq<Key>) {
    forall i :: 0 <= i < |keys| ==> IsWord(keys[i])
  }

  /** The keys written to the buffer of server `m`, in order. */
  ghost function KeysFor(written: seq<(Key, nat)>, m: nat): (r: seq<Key>) {
    if written == [] then []
    else
      var last := written[|written| - 1];
      KeysFor(written[..|written| - 1], m) + if last.1 == m then [last.0] else []
  }

  /** The buffer of a server that was given `keys`. */
  ghost function Buffer(keys: seq<Key>): string {
    if keys == [] then "" else Line(GETS, keys)
  }

  /** The keys in all buffers of the servers below `n` together. */
  ghost function InBuffers(written: seq<(Key, nat)>, n: nat): multiset<Key> {
    if n == 0 then multiset{} else InBuffers(written, n - 1) + multiset(KeysFor(written, n - 1))
  }

  ghost function KeysOf(written: seq<(Key, nat)>): (r: seq<Key>)
    ensures |r| == |written|
  {
    seq(|written|, i requires 0 <= i < |written| => written[i].0)
  }

  /** Every occurrence of a key that is written ends up in exactly one buffer. */
  lemma {:induction false} EachInOneBuffer(written: seq<(Key, nat)>, n: nat)
    requires forall w <- written :: w.1 < n
    ensures InBuffers(written, n) == multiset(KeysOf(written))
  {
    if written == [] {
      NothingInBuffers(n);
    } else {
      var init, last := written[..|written| - 1], written[|written| - 1];
      EachInOneBuffer(init, n);
      assert written == init + [last];
      forall k: Key ensures InBuffers(written, n)[k] == (InBuffers(init, n) + multiset{last.0})[k] {
        OneMore(init, last, n, k);
      }
      assert InBuffers(written, n) == InBuffers(init, n) + multiset{last.0};
      assert KeysOf(written) == KeysOf(init) + [last.0];
    }
  }

  lemma NothingInBuffers(n: nat)
    ensures InBuffers([], n) == multiset{}
  {
    if n > 0 {
      NothingInBuffers(n - 1);
    }
  }

  lemma OneBuffer(init: seq<(Key, nat)>, last: (Key, nat), n: nat, k: Key)
    ensures multiset(KeysFor(init + [last], n))[k]
         == multiset(KeysFor(init, n))[k] + if last.1 == n && last.0 == k then 1 else 0
  {
    hide KeysFor;
    assert last == (last.0, last.1);
    KeysForMore(init, last.0, last.1, n);
  }

  lemma {:induction false} OneMore(init: seq<(Key, nat)>, last: (Key, nat), n: nat, k: Key)
    ensures InBuffers(init + [last], n)[k] == InBuffers(init, n)[k] + if last.1 < n && last.0 == k then 1 else 0
  {
    hide KeysFor;
    if n > 0 {
      OneMore(init, last, n - 1, k);
      OneBuffer(init, last, n - 1, k);
    }
  }

  ghost function Below(n: nat): (r: set<nat>)
    ensures |r| == n && forall k: nat :: k in r <==> k < n
  {
    if n == 0 then {} else Below(n - 1) + {n - 1}
  }

  /** Different server numbers below `n` are at most `n`. */
  lemma Pigeonhole(s: seq<nat>, n: nat)
    requires (forall i :: 0 <= i < |s| ==> s[i] < n) && forall i, j :: 0 <= i < j < |s| ==> s[i] != s[j]
    ensures |s| <= n
  {
    ElementsCount(s);
    assert Elements(s) <= Below(n);
    SubsetCount(Elements(s), Below(n));
  }

  lemma ElementsCount(s: seq<nat>)
    requires forall i, j :: 0 <= i < j < |s| ==> s[i] != s[j]
    ensures |Elements(s)| == |s|
  {
    if s != [] {
      var init := s[..|s| - 1];
      ElementsCount(init);
      assert Elements(s) == Elements(init) + {s[|s| - 1]};
    }
  }

  lemma SubsetCount(a: set<nat>, b: set<nat>)
    requires a <= b
    ensures |a| <= |b|
  {
    assert b == a + (b - a);
  }

  ghost predicate Buffered(buffers: seq<string>, written: seq<(Key, nat)>) {
    && (forall w <- written :: w.1 < |buffers| && IsWord(w.0))
    && forall m :: 0 <= m < |buffers| ==> buffers[m] == Buffer(KeysFor(written, m))
  }

  /** The servers listed are different, and are those that something was written for. */
  ghost predicate Listed(asked: seq<nat>, written: seq<(Key, nat)>, servers: nat) {
    && (forall i :: 0 <= i < |asked| ==> asked[i] < servers)
    && (forall i, j :: 0 <= i < j < |asked| ==> asked[i] != asked[j])
    && forall m: nat :: m in asked <==> KeysFor(written, m) != []
  }

  lemma WrittenWords(written: seq<(Key, nat)>, m: nat)
    requires forall w <- written :: IsWord(w.0)
    ensures AllWords(KeysFor(written, m))
  {
    if written != [] {
      WrittenWords(written[..|written| - 1], m);
    }
  }

  lemma KeysForLength(written: seq<(Key, nat)>, m: nat)
    ensures |KeysFor(written, m)| <= |written|
  {
    if written != [] {
      KeysForLength(written[..|written| - 1], m);
    }
  }

  lemma WrittenKeys(written: seq<(Key, nat)>, m: nat)
    ensures forall k <- KeysFor(written, m) :: exists w <- written :: w.0 == k
  {
    if written != [] {
      WrittenKeys(written[..|written| - 1], m);
    }
  }

  lemma KeysForMore(written: seq<(Key, nat)>, key: Key, m: nat, n: nat)
    ensures KeysFor(written + [(key, m)], n) == if n == m then KeysFor(written, n) + [key] else KeysFor(written, n)
  {
    assert (written + [(key, m)])[..|written|] == written;
  }

  lemma ListMore(asked: seq<nat>, written: seq<(Key, nat)>, servers: nat, key: Key, m: nat)
    requires Listed(asked, written, servers) && m < servers
    ensures var asked' := if KeysFor(written, m) == [] then asked + [m] else asked;
            Listed(asked', written + [(key, m)], servers) && |asked'| <= servers
  {
    var asked' := if KeysFor(written, m) == [] then asked + [m] else asked;
    forall n: nat ensures n in asked' <==> KeysFor(written + [(key, m)], n) != [] {
      KeysForMore(written, key, m, n);
    }
    Pigeonhole(asked', servers);
  }

  lemma LineMore(keys: seq<Key>, key: Key)
    requires AllWords(keys)
    ensures Buffer(keys) == "" <==> keys == []
    ensures Buffer(keys + [key]) == (if keys == [] then GETS else Buffer(keys)) + " " + key
  {
    LineEndsInWord(GETS, keys);
    assert (keys + [key])[..|keys|] == keys;
    assert Line(GETS, []) == GETS;
  }

  /** A request is the word "gets" and the keys, in order, with one blank in front of each. */
  lemma RequestText(keys: seq<Key>)
    requires AllWords(keys) && keys != []
    ensures var b := Buffer(keys);
            && |b| > 5 && b[..4] == "gets" && Split(b) == ["gets"] + keys && multiset(b)[' '] == |keys|
            && forall i :: 0 <= i < |b| && b[i] == ' ' ==> 0 < i < |b| - 1 && b[i + 1] != ' '
  {
    SplitLine(GETS, keys);
    LineBlanks(GETS, keys);
    assert Line(GETS, keys) == Line(GETS, keys[..|keys| - 1]) + " " + keys[|keys| - 1];
    LineBlanks(GETS, keys[..|keys| - 1]);
  }

  lemma BufferMore(buffers: seq<string>, written: seq<(Key, nat)>, key: Key, m: nat)
    requires Buffered(buffers, written) && m < |buffers| && IsWord(key)
    ensures buffers[m] == "" <==> KeysFor(written, m) == []
    ensures Buffered(buffers[m := (if buffers[m] == "" then GETS else buffers[m]) + " " + key], written + [(key, m)])
  {
    hide Buffer, KeysFor, Line;
    WrittenWords(written, m);
    LineMore(KeysFor(written, m), key);
    forall n | 0 <= n < |buffers|
      ensures KeysFor(written + [(key, m)], n) == if n == m then KeysFor(written, n) + [key] else KeysFor(written, n)
    {
      KeysForMore(written, key, m, n);
    }
  }

  /** What the second pass notes: every request is carried, and those in `cut` are lost at once. */
  ghost function SendEvents(written: seq<(Key, nat)>, asked: seq<nat>, cut: set<nat>): seq<Event> {
    if asked == [] then []
    else
      var j := |asked| - 1;
      var keys := KeysFor(written, asked[j]);
      SendEvents(written, asked[..j], cut) + [Carried(keys)] + if j in cut then [Lost(keys, false)] else []
  }

  /** One more request, sent or lost. */
  lemma SendEventsMore(written: seq<(Key, nat)>, asked: seq<nat>, cut: set<nat>, j: nat, sent: bool)
    requires j < |asked| && forall i <- cut :: i < j
    ensures var keys := KeysFor(written, asked[j]);
            SendEvents(written, asked[..j + 1], if sent then cut else cut + {j})
            == SendEvents(written, asked[..j], cut) + [Carried(keys)] + if sent then [] else [Lost(keys, false)]
  {
    hide KeysFor;
    assert asked[..j + 1][..j] == asked[..j];
    CutLater(written, asked[..j], cut, j);
  }

  lemma CutLater(written: seq<(Key, nat)>, asked: seq<nat>, cut: set<nat>, j: nat)
    requires j >= |asked|
    ensures SendEvents(written, asked, cut + {j}) == SendEvents(written, asked, cut)
  {
    if asked != [] {
      CutLater(written, asked[..|asked| - 1], cut, j);
    }
  }

  /** The requests from `lo` to `n` after the second pass: `cut` are those that could not be sent. */
  ghost predicate SentBetween(lo: nat, n: nat, cut: set<nat>,
    lines: seq<string>, down: seq<bool>, asked: seq<nat>, written: seq<(Key, nat)>, log: seq<Event>)
  {
    && n <= |asked| <= |lines| == |down| && (forall i :: 0 <= i < |asked| ==> asked[i] < |down|)
    && (forall i <- cut :: i < n && Lost(KeysFor(written, asked[i]), false) in log)
    && (forall i :: 0 <= i < n ==> Carried(KeysFor(written, asked[i])) in log)
    && forall i :: lo <= i < n ==>
         && lines[i] == (if i in cut then GETS else Line(GETS, KeysFor(written, asked[i])))
         && (i in cut || !down[asked[i]])
  }

  /** The buffers of all servers but those of the requests behind `j` are empty. */
  ghost predicate Emptied(buffers: seq<string>, asked: seq<nat>, j: nat) {
    forall m :: 0 <= m < |buffers| ==> buffers[m] == "" || exists i :: j <= i < |asked| && asked[i] == m
  }

  lemma EmptiedMore(buffers: seq<string>, asked: seq<nat>, j: nat)
    requires Emptied(buffers, asked, j) && j < |asked| && asked[j] < |buffers|
    ensures Emptied(buffers[asked[j] := ""], asked, j + 1)
  {
  }

  lemma EmptiedAll(buffers: seq<string>, asked: seq<nat>)
    requires Emptied(buffers, asked, |asked|)
    ensures forall m :: 0 <= m < |buffers| ==> buffers[m] == ""
  {
  }

  /** What one more send does. */
  lemma SentMore(j: nat, cut: set<nat>, sent: bool, line: string, isDown: bool,
    lines: seq<string>, down: seq<bool>, asked: seq<nat>, written: seq<(Key, nat)>, log: seq<Event>, log': seq<Event>)
    requires SentBetween(0, j, cut, lines, down, asked, written, log) && j < |asked| && log <= log'
    requires forall i, j :: 0 <= i < j < |asked| ==> asked[i] != asked[j]
    requires line == if sent then Line(GETS, KeysFor(written, asked[j])) else GETS
    requires Carried(KeysFor(written, asked[j])) in log'
    requires if sent then !isDown else Lost(KeysFor(written, asked[j]), false) in log'
    ensures SentBetween(0, j + 1, if sent then cut else cut + {j},
                        lines[j := line], down[asked[j] := isDown], asked, written, log')
  {
    hide KeysFor, Line;
    assert forall e <- log :: e in log';
  }

  /** Reading request `lo` leaves those behind it as they are. */
  lemma SentLater(lo: nat, n: nat, cut: set<nat>, line: string, isDown: bool,
    lines: seq<string>, down: seq<bool>, asked: seq<nat>, written: seq<(Key, nat)>, log: seq<Event>, log': seq<Event>)
    requires SentBetween(lo, n, cut, lines, down, asked, written, log) && lo < n && log <= log'
    requires forall i, j :: 0 <= i < j < |asked| ==> asked[i] != asked[j]
    ensures SentBetween(lo + 1, n, cut, lines[lo := line], down[asked[lo] := isDown], asked, written, log')
  {
    hide KeysFor, Line;
    assert forall e <- log :: e in log';
  }

  /** The key of one input if it is due in a round: in the first round when it can be sent at all, and later when it has
      no value after a failure, or had a checksum mismatch. */
  ghost function DueOne(input: (string, string), first: bool, doFailover: bool, chksumFailed: bool,
    report: Report, errors: set<Key>): seq<Key>
  {
    var k := Prepared(input.0);
    var again := (doFailover && (k in report ==> report[k].value == None)) || (chksumFailed && k in errors);
    if input.0 != "" && input.1 != "" && (first || again) then [k] else []
  }

  ghost function Due(inputs: seq<(string, string)>, first: bool, doFailover: bool, chksumFailed: bool,
    report: Report, errors: set<Key>): seq<Key>
  {
    if inputs == [] then []
    else
      Due(inputs[..|inputs| - 1], first, doFailover, chksumFailed, report, errors)
      + DueOne(inputs[|inputs| - 1], first, doFailover, chksumFailed, report, errors)
  }
}
