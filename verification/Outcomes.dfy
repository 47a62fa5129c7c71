/** What getMultiByKey reports for each key, as a function of all that happened. */
module Outcomes {
  import opened Flags
  import opened Options
  import opened Text
  import opened Tokenizer

  type Key = string

  /** A value as it is reported: text, a serialized value still to be unserialized, what came out of it when that
      is not null, or false when it could not be unserialized. */
  datatype Value = Text(text: string) | Serialized(text: string, flags: nat) | Object(text: string) | False

  datatype Unserialized = Broken | Null | Other(text: string)

  type Unserialize = (nat, string) -> Unserialized

  /** What is reported for one key. A value that is missing is null. */
  datatype Entry = Entry(status: bool, value: Option<Value>)

  type Report = map<Key, Entry>

  predicate IsSerialized(flags: nat) {
    Bit(flags, SERIALIZED) || Bit(flags, SERIALIZED_IGBINARY)
  }

  function Fail(report: Report, k: Key): (r: Report)
    ensures r.Keys == report.Keys
  {
    if k in report then report[k := report[k].(status := false)] else report
  }

  /** `report` with the status of all reported keys in `marked` set to false. */
  ghost function Marked(report: Report, marked: set<Key>): (r: Report)
    ensures r.Keys == report.Keys
  {
    map k <- report :: if k in marked then report[k].(status := false) else report[k]
  }

  /** The keys of a request that can be recovered from its command line. */
  ghost function Recovered(keys: seq<Key>): (r: seq<Key>)
    ensures r <= keys
  {
    keys[..if |keys| <= MAX_TOKENS - 2 then |keys| else MAX_TOKENS - 2]
  }

  ghost function Elements<T>(s: seq<T>): set<T> {
    set x <- s
  }

  /** A failed request marks all of its keys exactly when it carried at most 1022 of them. */
  lemma MarkingIsComplete(report: Report, keys: seq<Key>)
    requires forall i, j :: 0 <= i < j < |keys| ==> keys[i] != keys[j]
    requires forall k <- keys :: k in report && report[k].status
    ensures (forall k <- keys :: !Marked(report, Elements(Recovered(keys)))[k].status) <==> |keys| <= 1022
  {
    if |keys| > MAX_TOKENS - 2 {
      var k := keys[MAX_TOKENS - 2];
      assert k !in Recovered(keys);
      assert k in keys && Marked(report, Elements(Recovered(keys)))[k].status;
    } else {
      assert Recovered(keys) == keys;
    }
  }

  /** What a server answers for a key: a value that cannot be decompressed, one with a wrong checksum, or a value. */
  datatype Answer = Undecodable(key: Key) | Mismatch(key: Key) | Got(key: Key, text: string, flags: nat)

  /** What happens in the course of the operation, as far as it concerns the report.
      - A key is entered into the report, or its shard key is refused, or no live server is found for it.
      - A request carries keys to a server; sending or reading it fails. `cut` tells that its line was taken apart
        before, so that no key can be recovered from it.
      - An answer for a reported key is taken in, from a server with the given number. */
  datatype Event =
    | Entered(key: Key) | Rejected(key: Key) | Unserved(key: Key)
    | Carried(keys: seq<Key>) | Lost(keys: seq<Key>, cut: bool)
    | Took(answer: Answer, server: nat)

  /** The value kept when one arrives: a serialized one is not stored a second time. */
  function Keep(value: Option<Value>, text: string, flags: nat): Option<Value> {
    if !IsSerialized(flags) then Some(Text(text))
    else if value.Some? then value
    else Some(Serialized(text, flags))
  }

  function Taken(report: Report, a: Answer): Report {
    if a.key !in report then report
    else if a.Got? then report[a.key := Entry(true, Keep(report[a.key].value, a.text, a.flags))]
    else Fail(report, a.key)
  }

  ghost function Apply(report: Report, e: Event): Report {
    match e
    case Entered(k) => if k in report then report else report[k := Entry(true, None)]
    case Rejected(k) => Fail(report, k)
    case Unserved(k) => Fail(report, k)
    case Carried(_) => report
    case Lost(keys, cut) => if cut then report else Marked(report, Elements(Recovered(keys)))
    case Took(a, _) => Taken(report, a)
  }

  /** The report before the values are unserialized. */
  ghost function Replay(log: seq<Event>): Report {
    if log == [] then map[] else Apply(Replay(log[..|log| - 1]), log[|log| - 1])
  }

  /** A serialized value that waits to be unserialized. */
  datatype Waiting = Waiting(key: Key, text: string, flags: nat, server: nat)

  ghost function WaitingAfter(log: seq<Event>): seq<Waiting> {
    if log == [] then []
    else
      var init, e := log[..|log| - 1], log[|log| - 1];
      WaitingAfter(init)
      + if e.Took? && Waits(Replay(init), e.answer) then
          [Waiting(e.answer.key, e.answer.text, e.answer.flags, e.server)]
        else []
  }

  predicate Waits(report: Report, a: Answer) {
    a.Got? && a.key in report && IsSerialized(a.flags) && report[a.key].value == None
  }

  /** What unserializing makes of an entry. The value is written where the serialized one was kept; if a plain value
      has replaced that one, nothing of it is seen. */
  function EntryAfter(e: Entry, w: Waiting, u: Unserialize): Entry {
    var result := u(w.flags, w.text);
    Entry(
      e.status && result != Broken,
      if e.value != Some(Serialized(w.text, w.flags)) then e.value
      else match result
           case Broken => Some(False)
           case Null => None
           case Other(text) => Some(Object(text)))
  }

  function Processed1(report: Report, w: Waiting, u: Unserialize): (r: Report)
    ensures r.Keys == report.Keys
  {
    if w.key in report then report[w.key := EntryAfter(report[w.key], w, u)] else report
  }

  ghost function Processed(report: Report, ws: seq<Waiting>, u: Unserialize): (r: Report)
    ensures r.Keys == report.Keys
  {
    if ws == [] then report else Processed1(Processed(report, ws[..|ws| - 1], u), ws[|ws| - 1], u)
  }

  /** What is reported in the end. */
  ghost function Final(log: seq<Event>, u: Unserialize): (r: Report)
    ensures r.Keys == Replay(log).Keys
  {
    Processed(Replay(log), WaitingAfter(log), u)
  }

  // One key

  /** The event is a failure that is noted for `k` in the report. */
  ghost predicate Notes(e: Event, k: Key) {
    match e
    case Rejected(k') => k' == k
    case Unserved(k') => k' == k
    case Lost(keys, cut) => !cut && k in Recovered(keys)
    case Took(a, _) => a.key == k && !a.Got?
    case _ => false
  }

  predicate Brings(e: Event, k: Key) {
    e.Took? && e.answer.Got? && e.answer.key == k
  }

  /** The event is a lookup, a send or a read that had to do with `k` and failed. */
  ghost predicate FailsFor(e: Event, k: Key) {
    match e
    case Unserved(k') => k' == k
    case Lost(keys, _) => k in keys
    case Took(a, _) => a.key == k && !a.Got?
    case _ => false
  }

  /** The last thing noted about `k` is not a failure. */
  ghost predicate StatusOf(log: seq<Event>, k: Key) {
    if log == [] then true
    else
      var e := log[|log| - 1];
      !Notes(e, k) && (Brings(e, k) || StatusOf(log[..|log| - 1], k))
  }

  /** The value kept for `k`: the last plain one, or else the first serialized one. */
  ghost function Kept(log: seq<Event>, k: Key): Option<Value> {
    if log == [] then None
    else
      var init, e := log[..|log| - 1], log[|log| - 1];
      if Brings(e, k) then Keep(Kept(init, k), e.answer.text, e.answer.flags) else Kept(init, k)
  }

  /** The keys an event speaks of. */
  ghost function Mentioned(e: Event): set<Key> {
    match e
    case Entered(_) => {}
    case Carried(keys) => Elements(keys)
    case Lost(keys, _) => Elements(keys)
    case Took(a, _) => {a.key}
    case _ => {e.key}
  }

  /** An event fits what happened before: its keys are reported on, and a request is lost after it was carried, and
      taken apart before it is cut. */
  ghost predicate Fits(e: Event, log: seq<Event>) {
    && Mentioned(e) <= Replay(log).Keys
    && (e.Lost? ==> Carried(e.keys) in log && (e.cut ==> Lost(e.keys, false) in log))
  }

  ghost predicate Orderly(log: seq<Event>) {
    log != [] ==> Orderly(log[..|log| - 1]) && Fits(log[|log| - 1], log[..|log| - 1])
  }

  lemma LogMore(log: seq<Event>, e: Event)
    requires Orderly(log) && Fits(e, log)
    ensures Orderly(log + [e]) && Replay(log + [e]) == Apply(Replay(log), e)
    ensures WaitingAfter(log + [e])
         == WaitingAfter(log) + if e.Took? && Waits(Replay(log), e.answer) then
                                  [Waiting(e.answer.key, e.answer.text, e.answer.flags, e.server)]
                                else []
  {
    assert (log + [e])[..|log|] == log;
  }

  /** The report on a key follows from what happened to that key. */
  lemma {:induction false} ReplayAt(log: seq<Event>, k: Key)
    requires Orderly(log)
    ensures k in Replay(log) ==> Replay(log)[k] == Entry(StatusOf(log, k), Kept(log, k))
    ensures k !in Replay(log) ==> StatusOf(log, k) && Kept(log, k) == None
  {
    if log != [] {
      var e := log[|log| - 1];
      ReplayAt(log[..|log| - 1], k);
      assert Notes(e, k) || Brings(e, k) ==> k in Mentioned(e);
    }
  }

  lemma {:induction false} WaitingFacts(log: seq<Event>)
    requires Orderly(log)
    ensures forall w <- WaitingAfter(log) :: Kept(log, w.key).Some?
    ensures Distinct(WaitingAfter(log))
  {
    if log != [] {
      var init, e := log[..|log| - 1], log[|log| - 1];
      WaitingFacts(init);
      var ws := WaitingAfter(init);
      if e.Took? && Waits(Replay(init), e.answer) {
        ReplayAt(init, e.answer.key);
        assert forall i :: 0 <= i < |ws| ==> ws[i] in ws;
      }
    }
  }

  ghost predicate Distinct(ws: seq<Waiting>) {
    forall i, j :: 0 <= i < j < |ws| ==> ws[i].key != ws[j].key
  }

  /** A serialized value that is kept waits to be unserialized. */
  lemma {:induction false} KeptWaits(log: seq<Event>, k: Key) returns (i: nat)
    requires Orderly(log) && Kept(log, k).Some? && Kept(log, k).value.Serialized?
    ensures var ws := WaitingAfter(log);
            i < |ws| && ws[i].key == k && Kept(log, k) == Some(Serialized(ws[i].text, ws[i].flags))
  {
    var init, e := log[..|log| - 1], log[|log| - 1];
    ReplayAt(init, k);
    if Brings(e, k) && Kept(init, k) == None {
      i := |WaitingAfter(init)|;
    } else {
      i := KeptWaits(init, k);
    }
  }

  lemma {:induction false} ProcessedAt(report: Report, ws: seq<Waiting>, u: Unserialize, k: Key)
    requires k in report && Distinct(ws)
    ensures (forall i :: 0 <= i < |ws| ==> ws[i].key != k) ==> Processed(report, ws, u)[k] == report[k]
    ensures forall i :: 0 <= i < |ws| && ws[i].key == k ==>
                          Processed(report, ws, u)[k] == EntryAfter(report[k], ws[i], u)
  {
    if ws != [] {
      ProcessedAt(report, ws[..|ws| - 1], u, k);
    }
  }

  /** The value kept for `k` unserializes to null. */
  ghost predicate KeepsNull(log: seq<Event>, k: Key, u: Unserialize) {
    match Kept(log, k)
    case Some(Serialized(text, flags)) => u(flags, text) == Null
    case _ => false
  }

  ghost predicate Noted(log: seq<Event>, k: Key) {
    exists e <- log :: Notes(e, k)
  }

  ghost predicate Failed(log: seq<Event>, k: Key) {
    exists e <- log :: FailsFor(e, k)
  }

  ghost predicate Answered(log: seq<Event>, k: Key) {
    exists e <- log :: Brings(e, k)
  }

  /** A key ends as a plain miss exactly when nothing was noted about it and no value came, or when the last thing
      noted is not a failure and the value kept is a serialized null. */
  lemma MissExactlyWhen(log: seq<Event>, k: Key, u: Unserialize)
    requires Orderly(log) && k in Replay(log)
    ensures Final(log, u)[k] == Entry(true, None) <==>
              || (!Noted(log, k) && !Answered(log, k))
              || (StatusOf(log, k) && KeepsNull(log, k, u))
  {
    hide Final, Replay, WaitingAfter, Orderly, Kept, StatusOf;
    ReplayAt(log, k);
    FinalAt(log, k, u);
    NothingHappened(log, k);
  }

  lemma FinalAt(log: seq<Event>, k: Key, u: Unserialize)
    requires Orderly(log) && k in Replay(log)
    ensures Final(log, u)[k] == Entry(true, None) <==>
              StatusOf(log, k) && (Kept(log, k) == None || KeepsNull(log, k, u))
  {
    hide Replay, WaitingAfter, Orderly, Kept, StatusOf, Processed;
    ReplayAt(log, k);
    WaitingFacts(log);
    ProcessedAt(Replay(log), WaitingAfter(log), u, k);
    assert forall i :: 0 <= i < |WaitingAfter(log)| ==> WaitingAfter(log)[i] in WaitingAfter(log);
    if Kept(log, k).Some? && Kept(log, k).value.Serialized? {
      var i := KeptWaits(log, k);
    }
  }

  lemma {:induction false} NothingHappened(log: seq<Event>, k: Key)
    ensures StatusOf(log, k) && Kept(log, k) == None <==> !Noted(log, k) && !Answered(log, k)
  {
    if log != [] {
      var init, e := log[..|log| - 1], log[|log| - 1];
      NothingHappened(init, k);
      assert forall x :: x in log <==> x in init || x == e;
    }
  }

  // What is reported for a key, in terms of the positions in the log

  /** A plain value for `k` comes in: bits 0 and 5 of its flags are clear. */
  ghost predicate BringsPlain(e: Event, k: Key) {
    e.Took? && e.answer.Got? && e.answer.key == k && e.answer.flags % 2 == 0 && e.answer.flags / 32 % 2 == 0
  }

  ghost predicate BringsSerialized(e: Event, k: Key) {
    e.Took? && e.answer.Got? && e.answer.key == k && (e.answer.flags % 2 == 1 || e.answer.flags / 32 % 2 == 1)
  }

  lemma SerializedIs(flags: nat)
    ensures IsSerialized(flags) <==> flags % 2 == 1 || flags / 32 % 2 == 1
  {
    BitIs(flags, 0);
    BitIs(flags, 5);
    assert Power(2, 0) == 1 && Power(2, 5) == 32;
  }

  /** The last plain value for `k` is at `i`. */
  ghost predicate LastPlain(log: seq<Event>, k: Key, i: nat) {
    i < |log| && BringsPlain(log[i], k) && forall j :: i < j < |log| ==> !BringsPlain(log[j], k)
  }

  /** The first serialized value for `k` is at `i`, and no plain one ever came. */
  ghost predicate OnlySerialized(log: seq<Event>, k: Key, i: nat) {
    && i < |log| && BringsSerialized(log[i], k) && (forall j :: 0 <= j < |log| ==> !BringsPlain(log[j], k))
    && forall j :: 0 <= j < i ==> !BringsSerialized(log[j], k)
  }

  lemma {:induction false} KeptIs(log: seq<Event>, k: Key)
    ensures forall i: nat :: LastPlain(log, k, i) ==> Kept(log, k) == Some(Text(log[i].answer.text))
    ensures forall i: nat :: OnlySerialized(log, k, i) ==>
                               Kept(log, k) == Some(Serialized(log[i].answer.text, log[i].answer.flags))
    ensures Kept(log, k) == None <==> forall i :: 0 <= i < |log| ==> !Brings(log[i], k)
  {
    if log != [] {
      var n := |log| - 1;
      var init, e := log[..n], log[n];
      KeptIs(init, k);
      if Brings(e, k) {
        SerializedIs(e.answer.flags);
      }
      assert forall i: nat :: i < n ==> log[i] == init[i];
      assert forall i: nat :: LastPlain(log, k, i) && i < n ==> LastPlain(init, k, i);
      assert forall i: nat :: OnlySerialized(log, k, i) && i < n ==> OnlySerialized(init, k, i);
      assert forall i: nat :: OnlySerialized(log, k, i) && i == n ==> forall j :: 0 <= j < n ==> !Brings(init[j], k);
    }
  }

  /** The value that came first for `k` is a serialized one, at `i`. */
  ghost predicate SerializedFirst(log: seq<Event>, k: Key, i: nat) {
    i < |log| && BringsSerialized(log[i], k) && forall j :: 0 <= j < i ==> !Brings(log[j], k)
  }

  ghost function WaitingAt(log: seq<Event>, k: Key, i: nat): Waiting
    requires SerializedFirst(log, k, i)
  {
    var a := log[i].answer; Waiting(k, a.text, a.flags, log[i].server)
  }

  /** A value waits to be unserialized for exactly the keys for which a serialized one came first. */
  lemma {:induction false} WaitsIs(log: seq<Event>, k: Key)
    requires Orderly(log)
    ensures forall i: nat :: SerializedFirst(log, k, i) ==> WaitingAt(log, k, i) in WaitingAfter(log)
    ensures forall w <- WaitingAfter(log) :: w.key == k ==>
              exists i: nat :: SerializedFirst(log, k, i) && w == WaitingAt(log, k, i)
  {
    if log != [] {
      hide Replay, Orderly, Kept, Brings, BringsSerialized, Waits;
      var n := |log| - 1;
      var init, e := log[..n], log[n];
      WaitsIs(init, k);
      WaitsNow(log, k);
      forall i: nat | i < n
        ensures SerializedFirst(log, k, i) <==> SerializedFirst(init, k, i)
        ensures SerializedFirst(log, k, i) ==> WaitingAt(log, k, i) == WaitingAt(init, k, i)
      {
        assert log[i] == init[i];
      }
      assert forall w <- WaitingAfter(init) :: w in WaitingAfter(log);
    }
  }

  lemma WaitsNow(log: seq<Event>, k: Key)
    requires log != [] && Orderly(log)
    ensures var n := |log| - 1;
            var e := log[n];
            && Orderly(log[..n])
            && (SerializedFirst(log, k, n) <==> e.Took? && Waits(Replay(log[..n]), e.answer) && e.answer.key == k)
  {
    var n := |log| - 1;
    var init, e := log[..n], log[n];
    ReplayAt(init, k);
    KeptIs(init, k);
    if Brings(e, k) {
      SerializedIs(e.answer.flags);
    }
    hide Replay, Kept, StatusOf;
    assert Fits(e, init);
    assert forall i: nat :: i < n ==> log[i] == init[i];
  }

  /** The value reported for `k`: the text of the last plain one; when only serialized ones came, what the first of
      them unserializes to; and null when none came. */
  ghost predicate ValueTold(log: seq<Event>, k: Key, u: Unserialize, value: Option<Value>) {
    && (forall i: nat :: LastPlain(log, k, i) ==> value == Some(Value.Text(log[i].answer.text)))
    && (forall i: nat :: OnlySerialized(log, k, i) ==>
          value == match u(log[i].answer.flags, log[i].answer.text)
                   case Broken => Some(False)
                   case Null => None
                   case Other(x) => Some(Object(x)))
    && ((forall i :: 0 <= i < |log| ==> !BringsPlain(log[i], k) && !BringsSerialized(log[i], k)) ==> value == None)
  }

  /** A failure to be noted for `k`: its shard key is refused, no live server is found, a request with it among its
      first 1022 keys is lost, or an answer for it cannot be used. */
  ghost predicate FailsOn(e: Event, k: Key) {
    || e == Rejected(k) || e == Unserved(k)
    || (e.Lost? && !e.cut && exists i :: 0 <= i < |e.keys| && i < 1022 && e.keys[i] == k)
    || (e.Took? && e.answer.key == k && (e.answer.Undecodable? || e.answer.Mismatch?))
  }

  /** A value for `k` comes in after position `i`. */
  ghost predicate AnsweredAfter(log: seq<Event>, k: Key, i: nat) {
    exists j :: i < j < |log| && (BringsPlain(log[j], k) || BringsSerialized(log[j], k))
  }

  /** The status reported for `k`: true exactly when every failure was followed by a value, and the value that came
      first, if it was a serialized one, could be unserialized. */
  ghost predicate StatusTold(log: seq<Event>, k: Key, u: Unserialize, status: bool) {
    status <==>
      && (forall i: nat :: i < |log| && FailsOn(log[i], k) ==> AnsweredAfter(log, k, i))
      && forall i: nat :: SerializedFirst(log, k, i) ==> u(log[i].answer.flags, log[i].answer.text) != Broken
  }

  lemma NotesIs(e: Event, k: Key)
    ensures Notes(e, k) <==> FailsOn(e, k)
    ensures Brings(e, k) <==> BringsPlain(e, k) || BringsSerialized(e, k)
  {
    if e.Lost? {
      var keys := Recovered(e.keys);
      assert k in keys <==> exists i :: 0 <= i < |keys| && keys[i] == k;
      assert forall i :: 0 <= i < |keys| ==> keys[i] == e.keys[i];
    }
  }

  lemma {:induction false} StatusIs(log: seq<Event>, k: Key)
    ensures StatusOf(log, k) <==> forall i: nat :: i < |log| && FailsOn(log[i], k) ==> AnsweredAfter(log, k, i)
  {
    if log != [] {
      hide FailsOn, Notes, Brings, BringsPlain, BringsSerialized;
      var n := |log| - 1;
      var init := log[..n];
      StatusIs(init, k);
      NotesIs(log[n], k);
      assert forall i: nat :: i < n ==> log[i] == init[i];
      if FailsOn(log[n], k) {
        assert !AnsweredAfter(log, k, n);
      } else if Brings(log[n], k) {
        assert forall i: nat :: i < n ==> AnsweredAfter(log, k, i);
      } else {
        assert forall i: nat :: i < n ==> (AnsweredAfter(log, k, i) <==> AnsweredAfter(init, k, i));
      }
    }
  }

  /** What is reported for a key, in terms of what happened to it and when. */
  lemma FinalTold(log: seq<Event>, k: Key, u: Unserialize)
    requires Orderly(log) && k in Replay(log)
    ensures ValueTold(log, k, u, Final(log, u)[k].value) && StatusTold(log, k, u, Final(log, u)[k].status)
  {
    hide Replay, WaitingAfter, Orderly, Kept, StatusOf, Processed, LastPlain, FailsOn;
    var ws := WaitingAfter(log);
    ReplayAt(log, k);
    KeptIs(log, k);
    StatusIs(log, k);
    WaitsIs(log, k);
    WaitingFacts(log);
    ProcessedAt(Replay(log), ws, u, k);
    assert forall i :: 0 <= i < |ws| ==> ws[i] in ws;
    forall e <- log ensures Brings(e, k) <==> BringsPlain(e, k) || BringsSerialized(e, k) {
      NotesIs(e, k);
    }
    OnlyIsFirst(log, k);
  }

  lemma OnlyIsFirst(log: seq<Event>, k: Key)
    ensures forall i: nat :: OnlySerialized(log, k, i) ==> SerializedFirst(log, k, i)
    ensures forall i: nat, j: nat :: SerializedFirst(log, k, i) && SerializedFirst(log, k, j) ==> i == j
  {
    forall e ensures Brings(e, k) <==> BringsPlain(e, k) || BringsSerialized(e, k) {
      NotesIs(e, k);
    }
  }

  /** Honest misses. A key for which a failure was noted can end with status true and no value exactly when the last
      thing noted about it is not a failure and the value kept is a serialized null. */
  lemma FailedKeyEndsAsMissExactlyWhen(log: seq<Event>, k: Key, u: Unserialize)
    requires Orderly(log) && k in Replay(log) && Noted(log, k)
    ensures Final(log, u)[k] == Entry(true, None) <==> StatusOf(log, k) && KeepsNull(log, k, u)
  {
    MissExactlyWhen(log, k, u);
  }

  /** The keys behind the 1022nd of the failed requests. */
  ghost function Beyond(log: seq<Event>): set<Key> {
    set e, k | e in log && e.Lost? && k in e.keys[|Recovered(e.keys)|..] :: k
  }

  /** A failure is noted, but for keys behind the 1022nd of a failed request. */
  lemma {:induction false} FailuresAreNoted(log: seq<Event>, k: Key)
    requires Orderly(log) && Failed(log, k)
    ensures Noted(log, k) || k in Beyond(log)
  {
    var init, e := log[..|log| - 1], log[|log| - 1];
    assert forall x :: x in log <==> x in init || x == e;
    if Failed(init, k) {
      FailuresAreNoted(init, k);
    } else if e.Lost? && k in e.keys {
      assert e.keys == Recovered(e.keys) + e.keys[|Recovered(e.keys)|..];
      assert !e.cut by {
        if e.cut {
          assert FailsFor(Lost(e.keys, false), k);
        }
      }
    } else {
      assert Notes(e, k);
    }
  }

  ghost predicate SmallRequests(log: seq<Event>) {
    forall keys :: Carried(keys) in log ==> |keys| <= MAX_TOKENS - 2
  }

  /** When no request carried more than 1022 keys, none are behind the 1022nd. */
  lemma {:induction false} NoneBeyond(log: seq<Event>)
    requires Orderly(log) && SmallRequests(log)
    ensures Beyond(log) == {}
  {
    if log != [] {
      var init, e := log[..|log| - 1], log[|log| - 1];
      assert forall x :: x in log <==> x in init || x == e;
      NoneBeyond(init);
    }
  }

  lemma Nothing()
    ensures Orderly([]) && Replay([]) == map[] && WaitingAfter([]) == []
  {
  }
}
