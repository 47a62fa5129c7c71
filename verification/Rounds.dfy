/** The rounds of the batched get: what each of them notes, when another one follows, and what that says of a miss. */
module Rounds {
  import opened Batches
  import opened Options
  import opened Outcomes
  import opened Tokenizer

  /** The keys among some events that no live server was found for. */
  ghost function UnservedKeys(events: seq<Event>): seq<Key> {
    if events == [] then []
    else
      var e := events[|events| - 1];
      UnservedKeys(events[..|events| - 1]) + if e.Unserved? then [e.key] else []
  }

  lemma {:induction false} UnservedConcat(a: seq<Event>, b: seq<Event>)
    ensures UnservedKeys(a + b) == UnservedKeys(a) + UnservedKeys(b)
  {
    if b == [] {
      assert a + b == a;
    } else {
      UnservedConcat(a, b[..|b| - 1]);
      assert (a + b)[..|a + b| - 1] == a + b[..|b| - 1];
    }
  }

  /** What the first pass notes for one input. */
  ghost function InputEvents(input: (string, string), unserved: bool): seq<Event> {
    var k := Prepared(input.0);
    if input.0 == "" then []
    else if input.1 == "" then [Entered(k)] + [Rejected(k)]
    else if unserved then [Entered(k)] + [Unserved(k)]
    else [Entered(k)]
  }

  lemma InputUnserved(input: (string, string), unserved: bool)
    ensures UnservedKeys(InputEvents(input, unserved))
         == if input.0 != "" && input.1 != "" && unserved then [Prepared(input.0)] else []
    ensures forall e <- InputEvents(input, unserved) :: e.Entered? || e.Rejected? || e.Unserved?
  {
    var k := Prepared(input.0);
    OneEvent(Entered(k));
    OneEvent(Rejected(k));
    OneEvent(Unserved(k));
    UnservedConcat([Entered(k)], [Rejected(k)]);
    UnservedConcat([Entered(k)], [Unserved(k)]);
  }

  lemma OneEvent(e: Event)
    ensures UnservedKeys([e]) == if e.Unserved? then [e.key] else []
  {
    assert [e][..0] == [];
  }

  lemma NoEvents()
    ensures UnservedKeys([]) == []
  {
  }

  /** A key is unserved only if it was due. */
  lemma DueUnserved(input: (string, string), first: bool, doFailover: bool, chksumFailed: bool,
    report: Report, errors: set<Key>, unserved: bool)
    requires unserved ==> DueOne(input, first, doFailover, chksumFailed, report, errors) != []
    ensures multiset(UnservedKeys(InputEvents(input, unserved)))
         == if unserved then multiset(DueOne(input, first, doFailover, chksumFailed, report, errors)) else multiset{}
    ensures forall e <- InputEvents(input, unserved) :: e.Entered? || e.Rejected? || e.Unserved?
  {
    InputUnserved(input, unserved);
  }

  /** What the first pass notes; `unserved` tells for which inputs no live server was found. */
  ghost function News(inputs: seq<(string, string)>, unserved: seq<bool>): seq<Event>
    requires |unserved| == |inputs|
  {
    if inputs == [] then []
    else
      var n := |inputs| - 1;
      News(inputs[..n], unserved[..n]) + InputEvents(inputs[n], unserved[n])
  }

  lemma NewsMore(inputs: seq<(string, string)>, unserved: seq<bool>, input: (string, string), u: bool)
    requires |unserved| == |inputs|
    ensures News(inputs + [input], unserved + [u]) == News(inputs, unserved) + InputEvents(input, u)
  {
    assert (inputs + [input])[..|inputs|] == inputs && (unserved + [u])[..|inputs|] == unserved;
  }

  /** Accounts of two steps, what is due against what is written and what has failed, add up. */
  lemma AddUp(
    due: seq<Key>, more: seq<Key>, written: multiset<Key>, written': multiset<Key>, lost: seq<Key>, lost': seq<Key>)
    requires multiset(due) == written + multiset(lost)
    requires written' + multiset(lost') == written + multiset(more)
    ensures multiset(due + more) == written' + multiset(lost + lost')
  {
    var d, m, l, l' := multiset(due), multiset(more), multiset(lost), multiset(lost');
    calc {
      multiset(due + more);
      d + m;
      written + l + m;
      (written + m) + l;
      (written' + l') + l;
      written' + (l + l');
      { assert multiset(lost + lost') == l + l'; }
      written' + multiset(lost + lost');
    }
  }

  /** One more input: the account of what is due, against what is written and what is unserved, still adds up. */
  lemma OneMoreInput(inputs: seq<(string, string)>, i: nat, unserved: seq<bool>, none: bool,
    first: bool, doFailover: bool, chksumFailed: bool, report: Report, errors: set<Key>,
    written: multiset<Key>, written': multiset<Key>)
    requires i == |unserved| < |inputs|
    requires multiset(Due(inputs[..i], first, doFailover, chksumFailed, report, errors))
          == written + multiset(UnservedKeys(News(inputs[..i], unserved)))
    requires var more := DueOne(inputs[i], first, doFailover, chksumFailed, report, errors);
             && (none ==> more != [])
             && written' + (if none then multiset(more) else multiset{}) == written + multiset(more)
    ensures News(inputs[..i + 1], unserved + [none]) == News(inputs[..i], unserved) + InputEvents(inputs[i], none)
    ensures multiset(Due(inputs[..i + 1], first, doFailover, chksumFailed, report, errors))
         == written' + multiset(UnservedKeys(News(inputs[..i + 1], unserved + [none])))
  {
    hide DueOne, News, InputEvents, UnservedKeys;
    var init, input := inputs[..i], inputs[i];
    var due := Due(init, first, doFailover, chksumFailed, report, errors);
    var more := DueOne(input, first, doFailover, chksumFailed, report, errors);
    assert inputs[..i + 1][..i] == init && inputs[..i + 1] == init + [input];
    NewsMore(init, unserved, input, none);
    DueUnserved(input, first, doFailover, chksumFailed, report, errors, none);
    var news, events := News(init, unserved), InputEvents(input, none);
    UnservedConcat(news, events);
    AddUp(due, more, written, written', UnservedKeys(news), UnservedKeys(events));
  }

  /** What is noted about answers that are taken in one after the other. */
  ghost function TookEvents(answers: seq<Answer>, m: nat, reported: set<Key>): seq<Event> {
    if answers == [] then []
    else
      var a := answers[|answers| - 1];
      TookEvents(answers[..|answers| - 1], m, reported) + if a.key in reported then [Took(a, m)] else []
  }

  /** What came of reading a request: nothing was read from a server that is down; otherwise answers, until the end of
      them or until reading failed. */
  datatype Reading = Skipped | Reading(answers: seq<Answer>, ok: bool)

  ghost function ReadingEvents(r: Reading, keys: seq<Key>, m: nat, cut: bool, reported: set<Key>): seq<Event> {
    match r
    case Skipped => []
    case Reading(answers, ok) => TookEvents(answers, m, reported) + if ok then [] else [Lost(keys, cut)]
  }

  /** What the third pass notes. */
  ghost function ReadEvents(readings: seq<Reading>, written: seq<(Key, nat)>, asked: seq<nat>, cut: set<nat>,
    reported: set<Key>): seq<Event>
    requires |readings| <= |asked|
  {
    if readings == [] then []
    else
      var j := |readings| - 1;
      ReadEvents(readings[..j], written, asked, cut, reported)
      + ReadingEvents(readings[j], KeysFor(written, asked[j]), asked[j], j in cut, reported)
  }

  lemma ReadEventsMore(readings: seq<Reading>, r: Reading, written: seq<(Key, nat)>, asked: seq<nat>, cut: set<nat>,
    reported: set<Key>)
    requires |readings| < |asked|
    ensures var j := |readings|;
            ReadEvents(readings + [r], written, asked, cut, reported)
            == ReadEvents(readings, written, asked, cut, reported)
               + ReadingEvents(r, KeysFor(written, asked[j]), asked[j], j in cut, reported)
  {
    assert (readings + [r])[..|readings|] == readings;
  }

  ghost predicate SomeBroke(readings: seq<Reading>) {
    exists r <- readings :: r.Reading? && !r.ok
  }

  lemma SomeBrokeMore(readings: seq<Reading>, r: Reading)
    ensures SomeBroke(readings + [r]) <==> SomeBroke(readings) || (r.Reading? && !r.ok)
  {
    assert forall x :: x in readings + [r] <==> x in readings || x == r;
  }

  /** Nothing was read from exactly those servers that were down. */
  ghost predicate SkippedDown(readings: seq<Reading>, asked: seq<nat>, down: seq<bool>) {
    && |readings| <= |asked|
    && forall i :: 0 <= i < |readings| ==> asked[i] < |down| && readings[i].Skipped? == down[asked[i]]
  }

  /** The servers of the requests from `j` on are as they were. */
  ghost predicate AsBefore(j: nat, asked: seq<nat>, now: seq<bool>, before: seq<bool>) {
    && |now| == |before|
    && forall i :: j <= i < |asked| ==> asked[i] < |now| && now[asked[i]] == before[asked[i]]
  }

  /** One more request is read, which may change whether its server is down. */
  lemma ReadMore(readings: seq<Reading>, r: Reading, asked: seq<nat>, now: seq<bool>, before: seq<bool>, isDown: bool)
    requires |readings| < |asked| && forall i, j :: 0 <= i < j < |asked| ==> asked[i] != asked[j]
    requires SkippedDown(readings, asked, before) && AsBefore(|readings|, asked, now, before)
    requires r.Skipped? == now[asked[|readings|]]
    ensures SkippedDown(readings + [r], asked, before)
    ensures AsBefore(|readings| + 1, asked, now[asked[|readings|] := isDown], before)
  {
  }

  /** The keys with a wrong checksum among the answers noted. */
  ghost function MismatchKeys(events: seq<Event>): set<Key> {
    set e | e in events && e.Took? && e.answer.Mismatch? :: e.answer.key
  }

  lemma MismatchConcat(a: seq<Event>, b: seq<Event>)
    ensures MismatchKeys(a + b) == MismatchKeys(a) + MismatchKeys(b)
  {
    assert forall e :: e in a + b <==> e in a || e in b;
  }

  lemma MismatchNone()
    ensures MismatchKeys([]) == {}
  {
  }

  lemma MismatchOne(a: Answer, m: nat)
    ensures MismatchKeys([Took(a, m)]) == if a.Mismatch? then {a.key} else {}
  {
    assert Took(a, m) in [Took(a, m)];
  }

  datatype Settings = Settings(servers: nat, allowFailover: bool, maxFailover: nat, integrityRetries: int)

  /** What happened in one round: why it took place, with the keys that had a checksum mismatch before; the inputs no
      live server was found for; the key occurrences written with their servers, and the servers asked; the requests
      not sent, what came of reading, and the keys reported on. */
  datatype Record = Record(
    first: bool, doFailover: bool, chksumFailed: bool, mismatched: set<Key>, unserved: seq<bool>,
    written: seq<(Key, nat)>, asked: seq<nat>, cut: set<nat>, readings: seq<Reading>, reported: set<Key>)

  ghost predicate Fitting(inputs: seq<(string, string)>, r: Record) {
    |r.unserved| == |inputs| && |r.readings| == |r.asked|
  }

  ghost function Readings(r: Record): seq<Event> {
    if |r.readings| != |r.asked| then [] else ReadEvents(r.readings, r.written, r.asked, r.cut, r.reported)
  }

  /** All that is noted in a round. */
  ghost function RoundEvents(inputs: seq<(string, string)>, r: Record): seq<Event>
    requires Fitting(inputs, r)
  {
    News(inputs, r.unserved) + SendEvents(r.written, r.asked, r.cut) + Readings(r)
  }

  /** What a round does that begins after `log`. Each occurrence of a key that is due is in exactly one request, or no
      live server was found for it; only a request that was not sent may go unread. */
  ghost predicate Accounted(inputs: seq<(string, string)>, s: Settings, r: Record, log: seq<Event>) {
    && Fitting(inputs, r)
    && r.reported == Replay(log + News(inputs, r.unserved)).Keys
    && Listed(r.asked, r.written, s.servers)
    && InBuffers(r.written, s.servers) + multiset(UnservedKeys(News(inputs, r.unserved)))
       == multiset(Due(inputs, r.first, r.doFailover, r.chksumFailed, Replay(log), r.mismatched))
    && (forall j <- r.cut :: j < |r.asked|)
    && forall j :: 0 <= j < |r.asked| && r.readings[j].Skipped? ==> j in r.cut
  }

  /** Sending or reading has failed. */
  ghost predicate Broke(r: Record) {
    r.cut != {} || SomeBroke(r.readings)
  }

  /** The number of rounds with checksum mismatches. */
  ghost function MismatchRounds(rs: seq<Record>): (n: nat)
    ensures n <= |rs|
  {
    if rs == [] then 0
    else
      MismatchRounds(rs[..|rs| - 1]) + if MismatchKeys(Readings(rs[|rs| - 1])) != {} then 1 else 0
  }

  /** After these rounds another one is due to make up for a failure. */
  ghost predicate FailoverNext(s: Settings, rs: seq<Record>) {
    rs != [] && Broke(rs[|rs| - 1]) && s.allowFailover && |rs| - 1 <= s.maxFailover
  }

  /** After these rounds another one is due because of checksum mismatches. */
  ghost predicate RetryNext(s: Settings, rs: seq<Record>) {
    rs != [] && MismatchKeys(Readings(rs[|rs| - 1])) != {} && MismatchRounds(rs) < s.integrityRetries
  }

  /** Why a round takes place after those before it. */
  ghost predicate Follows(s: Settings, before: seq<Record>, r: Record) {
    && r.first == (before == []) && (r.first || r.doFailover || r.chksumFailed)
    && r.doFailover == FailoverNext(s, before) && r.chksumFailed == RetryNext(s, before)
    && (before != [] ==> r.mismatched == MismatchKeys(Readings(before[|before| - 1])))
  }

  ghost function CourseEvents(inputs: seq<(string, string)>, rs: seq<Record>): seq<Event>
    requires AllFitting(inputs, rs)
  {
    if rs == [] then [] else CourseEvents(inputs, rs[..|rs| - 1]) + RoundEvents(inputs, rs[|rs| - 1])
  }

  ghost predicate AllFitting(inputs: seq<(string, string)>, rs: seq<Record>) {
    forall r <- rs :: Fitting(inputs, r)
  }

  /** `r` is a round that comes after those in `before`, which began after `log`. */
  ghost predicate NextRound(
    inputs: seq<(string, string)>, s: Settings, log: seq<Event>, before: seq<Record>, r: Record)
  {
    && AllFitting(inputs, before) && Follows(s, before, r)
    && Accounted(inputs, s, r, log + CourseEvents(inputs, before))
  }

  /** Rounds that follow one another, the first one after `log`. */
  ghost predicate Course(inputs: seq<(string, string)>, s: Settings, log: seq<Event>, rs: seq<Record>) {
    forall i :: 0 <= i < |rs| ==> NextRound(inputs, s, log, rs[..i], rs[i])
  }

  /** No further round is due. */
  ghost predicate Over(s: Settings, rs: seq<Record>) {
    rs != [] && !FailoverNext(s, rs) && !RetryNext(s, rs)
  }

  lemma NoRounds(inputs: seq<(string, string)>, s: Settings, log: seq<Event>)
    ensures Course(inputs, s, log, []) && CourseEvents(inputs, []) == []
  {
  }

  lemma NextOf(inputs: seq<(string, string)>, s: Settings, log: seq<Event>, rs: seq<Record>, r: Record)
    requires AllFitting(inputs, rs) && Follows(s, rs, r) && Accounted(inputs, s, r, log + CourseEvents(inputs, rs))
    ensures NextRound(inputs, s, log, rs, r)
  {
  }

  lemma CourseMore(inputs: seq<(string, string)>, s: Settings, log: seq<Event>, rs: seq<Record>, r: Record)
    requires Course(inputs, s, log, rs) && NextRound(inputs, s, log, rs, r)
    ensures Course(inputs, s, log, rs + [r])
  {
    hide NextRound;
    var all := rs + [r];
    forall i | 0 <= i < |all| ensures NextRound(inputs, s, log, all[..i], all[i]) {
      assert all[..i] == rs[..i];
    }
  }

  lemma CourseInit(inputs: seq<(string, string)>, s: Settings, log: seq<Event>, rs: seq<Record>)
    requires Course(inputs, s, log, rs) && rs != []
    ensures Course(inputs, s, log, rs[..|rs| - 1])
    ensures NextRound(inputs, s, log, rs[..|rs| - 1], rs[|rs| - 1])
  {
    hide NextRound;
    var init := rs[..|rs| - 1];
    forall i | 0 <= i < |init| ensures NextRound(inputs, s, log, init[..i], init[i]) {
      assert init[..i] == rs[..i];
    }
  }

  lemma CourseEventsMore(inputs: seq<(string, string)>, rs: seq<Record>, r: Record)
    requires AllFitting(inputs, rs) && Fitting(inputs, r)
    ensures AllFitting(inputs, rs + [r])
    ensures CourseEvents(inputs, rs + [r]) == CourseEvents(inputs, rs) + RoundEvents(inputs, r)
    ensures MismatchRounds(rs + [r]) == MismatchRounds(rs) + if MismatchKeys(Readings(r)) != {} then 1 else 0
  {
    hide RoundEvents, Readings, Fitting, MismatchKeys;
    assert (rs + [r])[..|rs|] == rs;
  }

  function Most(a: int, b: int): int {
    if a < b then b else a
  }

  /** The number of rounds is bounded: a failover needs a round number up to the limit, and every round that follows
      for checksum mismatches only has used up one of the retries. */
  lemma {:induction false} RoundsAreBounded(
    inputs: seq<(string, string)>, s: Settings, log: seq<Event>, rs: seq<Record>)
    requires Course(inputs, s, log, rs) && rs != []
    ensures |rs| <= s.maxFailover + 2 + MismatchRounds(rs[..|rs| - 1])
    ensures |rs| <= s.maxFailover + Most(s.integrityRetries, 1) + 1
  {
    hide Course, Accounted, Readings, Broke;
    var init := rs[..|rs| - 1];
    CourseInit(inputs, s, log, rs);
    if init != [] {
      RoundsAreBounded(inputs, s, log, init);
    }
  }

  // Why rounds take place, and for which keys

  /** An answer about a key that is reported on had a wrong checksum. */
  ghost predicate Mismatched(r: Record, k: Key) {
    k in r.reported && SomeMismatch(r.readings, k)
  }

  ghost predicate SomeMismatch(readings: seq<Reading>, k: Key) {
    exists d <- readings :: d.Reading? && Mismatch(k) in d.answers
  }

  lemma SomeMismatchMore(readings: seq<Reading>, d: Reading, k: Key)
    ensures SomeMismatch(readings + [d], k) <==> SomeMismatch(readings, k) || (d.Reading? && Mismatch(k) in d.answers)
  {
    assert forall x :: x in readings + [d] <==> x in readings || x == d;
  }

  ghost predicate AnyMismatched(r: Record) {
    exists k <- r.reported :: Mismatched(r, k)
  }

  lemma {:induction false} TookMismatch(answers: seq<Answer>, m: nat, reported: set<Key>, k: Key)
    ensures k in MismatchKeys(TookEvents(answers, m, reported)) <==> k in reported && Mismatch(k) in answers
  {
    if answers == [] {
      MismatchNone();
    } else {
      var init, a := answers[..|answers| - 1], answers[|answers| - 1];
      hide MismatchKeys;
      TookMismatch(init, m, reported, k);
      MismatchConcat(TookEvents(init, m, reported), [Took(a, m)]);
      MismatchOne(a, m);
      assert TookEvents(init, m, reported) + [] == TookEvents(init, m, reported);
      assert forall x :: x in answers <==> x in init || x == a;
    }
  }

  lemma {:induction false} ReadMismatch(readings: seq<Reading>, written: seq<(Key, nat)>, asked: seq<nat>,
    cut: set<nat>, reported: set<Key>, k: Key)
    requires |readings| <= |asked|
    ensures k in MismatchKeys(ReadEvents(readings, written, asked, cut, reported)) <==>
              k in reported && SomeMismatch(readings, k)
  {
    if readings == [] {
      MismatchNone();
    } else {
      hide KeysFor, MismatchKeys, ReadingEvents, SomeMismatch, ReadEvents;
      var j := |readings| - 1;
      var init, d := readings[..j], readings[j];
      assert readings == init + [d];
      ReadEventsMore(init, d, written, asked, cut, reported);
      SomeMismatchMore(init, d, k);
      var events := ReadingEvents(d, KeysFor(written, asked[j]), asked[j], j in cut, reported);
      ReadMismatch(init, written, asked, cut, reported, k);
      MismatchConcat(ReadEvents(init, written, asked, cut, reported), events);
      ReadingMismatch(d, KeysFor(written, asked[j]), asked[j], j in cut, reported, k);
    }
  }

  lemma ReadingMismatch(d: Reading, keys: seq<Key>, m: nat, cut: bool, reported: set<Key>, k: Key)
    ensures k in MismatchKeys(ReadingEvents(d, keys, m, cut, reported)) <==>
              k in reported && d.Reading? && Mismatch(k) in d.answers
  {
    MismatchNone();
    if d.Reading? {
      TookMismatch(d.answers, m, reported, k);
      MismatchConcat(TookEvents(d.answers, m, reported), if d.ok then [] else [Lost(keys, cut)]);
    }
  }

  lemma MismatchesAre(r: Record, k: Key)
    requires |r.readings| == |r.asked|
    ensures k in MismatchKeys(Readings(r)) <==> Mismatched(r, k)
  {
    ReadMismatch(r.readings, r.written, r.asked, r.cut, r.reported, k);
  }

  /** Every round but the first takes place because a request of the round before was not sent, or not read to its end,
      while the failover limit allowed it, or because of checksum mismatches in the round before, while retries were
      left; both hold of it exactly when it says so. After the last round neither holds. */
  lemma RoundsHaveReasons(inputs: seq<(string, string)>, s: Settings, log: seq<Event>, rs: seq<Record>, i: nat)
    requires Course(inputs, s, log, rs) && Over(s, rs) && 0 < i <= |rs|
    ensures var r := rs[i - 1];
            var failover := s.allowFailover && i <= s.maxFailover + 1 &&
                            (r.cut != {} || exists d <- r.readings :: d.Reading? && !d.ok);
            var retry := AnyMismatched(r) && MismatchCount(rs[..i]) < s.integrityRetries;
            if i < |rs| then
              !rs[i].first && rs[i].doFailover == failover && rs[i].chksumFailed == retry && (failover || retry)
            else !failover && !retry
  {
    hide Accounted, Readings, MismatchKeys, AnyMismatched, MismatchRounds, CourseEvents;
    CourseFits(inputs, s, log, rs);
    var before := rs[..i];
    assert forall r <- before :: r in rs;
    MismatchCountIs(before);
    AnyMismatchIs(before[i - 1]);
    if i < |rs| {
      assert NextRound(inputs, s, log, rs[..i], rs[i]);
    } else {
      assert rs[..i] == rs;
    }
  }

  /** The number of rounds with checksum mismatches. */
  ghost function MismatchCount(rs: seq<Record>): nat {
    |set i: nat | i < |rs| && AnyMismatched(rs[i])|
  }

  lemma AnyMismatchIs(r: Record)
    requires |r.readings| == |r.asked|
    ensures MismatchKeys(Readings(r)) != {} <==> AnyMismatched(r)
  {
    hide MismatchKeys, Readings, Mismatched;
    forall k ensures k in MismatchKeys(Readings(r)) <==> Mismatched(r, k) {
      MismatchesAre(r, k);
    }
    if k :| Mismatched(r, k) {
      MismatchedIsReported(r, k);
    }
  }

  lemma MismatchedIsReported(r: Record, k: Key)
    requires Mismatched(r, k)
    ensures k in r.reported
  {
  }

  lemma {:induction false} MismatchCountIs(rs: seq<Record>)
    requires forall r <- rs :: |r.readings| == |r.asked|
    ensures MismatchCount(rs) == MismatchRounds(rs)
  {
    hide AnyMismatched, MismatchKeys, Readings;
    var all := set i: nat | i < |rs| && AnyMismatched(rs[i]);
    if rs == [] {
      assert all == {};
    } else {
      var n := |rs| - 1;
      var init := rs[..n];
      MismatchCountIs(init);
      AnyMismatchIs(rs[n]);
      var before := set i: nat | i < |init| && AnyMismatched(init[i]);
      assert all == if AnyMismatched(rs[n]) then before + {n} else before;
    }
  }

  // What the rounds say of one key

  /** Request `j` of the round carried `k`. */
  ghost predicate CarriedIn(r: Record, j: nat, k: Key) {
    j < |r.asked| && k in KeysFor(r.written, r.asked[j])
  }

  /** `k` can be recovered from request `j` of the round: it is one of its first 1022 keys. */
  ghost predicate NamedIn(r: Record, j: nat, k: Key) {
    j < |r.asked| && k in Recovered(KeysFor(r.written, r.asked[j]))
  }

  /** Request `j` of the round was sent and its answers were read to their end, and none was about `k`. */
  ghost predicate Silent(r: Record, j: nat, k: Key) {
    && j !in r.cut && j < |r.readings| && r.readings[j].Reading? && r.readings[j].ok
    && forall a <- r.readings[j].answers :: a.key != k
  }

  /** `k` was asked for in the first round, and whenever it was one of the first 1022 keys of a request, that request
      was answered to the end without a word about it. */
  ghost predicate AskedInVain(rs: seq<Record>, k: Key) {
    && rs != [] && (exists j: nat :: CarriedIn(rs[0], j, k))
    && forall i: nat, j: nat :: i < |rs| && NamedIn(rs[i], j, k) ==> Silent(rs[i], j, k)
  }

  lemma {:induction false} InputInNews(
    inputs: seq<(string, string)>, unserved: seq<bool>, x: (string, string), e: Event)
    requires |unserved| == |inputs| && x in inputs
    requires e in InputEvents(x, false) && e in InputEvents(x, true)
    ensures e in News(inputs, unserved)
  {
    hide InputEvents;
    var n := |inputs| - 1;
    if inputs[n] != x {
      InputInNews(inputs[..n], unserved[..n], x, e);
    }
  }

  lemma {:induction false} UnservedIsNoted(events: seq<Event>, k: Key)
    requires k in UnservedKeys(events)
    ensures Unserved(k) in events
  {
    var n := |events| - 1;
    if events[n] != Unserved(k) {
      UnservedIsNoted(events[..n], k);
    }
  }

  lemma {:induction false} LossInSend(written: seq<(Key, nat)>, asked: seq<nat>, cut: set<nat>, j: nat)
    requires j < |asked| && j in cut
    ensures Lost(KeysFor(written, asked[j]), false) in SendEvents(written, asked, cut)
  {
    hide KeysFor;
    if j < |asked| - 1 {
      LossInSend(written, asked[..|asked| - 1], cut, j);
    }
  }

  lemma {:induction false} AnswerInTook(answers: seq<Answer>, m: nat, reported: set<Key>, a: Answer)
    requires a in answers && a.key in reported
    ensures Took(a, m) in TookEvents(answers, m, reported)
  {
    var n := |answers| - 1;
    if answers[n] != a {
      AnswerInTook(answers[..n], m, reported, a);
    }
  }

  lemma {:induction false} ReadingInRead(readings: seq<Reading>, written: seq<(Key, nat)>, asked: seq<nat>,
    cut: set<nat>, reported: set<Key>, j: nat, e: Event)
    requires j < |readings| <= |asked|
    requires e in ReadingEvents(readings[j], KeysFor(written, asked[j]), asked[j], j in cut, reported)
    ensures e in ReadEvents(readings, written, asked, cut, reported)
  {
    hide KeysFor, ReadingEvents;
    if j < |readings| - 1 {
      ReadingInRead(readings[..|readings| - 1], written, asked, cut, reported, j, e);
    }
  }

  lemma {:induction false} InCourse(inputs: seq<(string, string)>, rs: seq<Record>, i: nat, e: Event)
    requires AllFitting(inputs, rs) && i < |rs| && e in RoundEvents(inputs, rs[i])
    ensures e in CourseEvents(inputs, rs)
  {
    hide RoundEvents;
    if i < |rs| - 1 {
      InCourse(inputs, rs[..|rs| - 1], i, e);
    }
  }

  lemma {:induction false} EnteredIsReported(log: seq<Event>, k: Key)
    requires Entered(k) in log
    ensures k in Replay(log)
  {
    if log[|log| - 1] != Entered(k) {
      EnteredIsReported(log[..|log| - 1], k);
    }
  }

  lemma {:induction false} DueFirst(inputs: seq<(string, string)>, report: Report, mismatched: set<Key>,
    x: (string, string), doFailover: bool, chksumFailed: bool)
    requires x in inputs && x.0 != "" && x.1 != ""
    ensures Prepared(x.0) in Due(inputs, true, doFailover, chksumFailed, report, mismatched)
  {
    var n := |inputs| - 1;
    if inputs[n] != x {
      DueFirst(inputs[..n], report, mismatched, x, doFailover, chksumFailed);
    }
  }

  lemma {:induction false} InSomeBuffer(written: seq<(Key, nat)>, n: nat, k: Key) returns (m: nat)
    requires k in InBuffers(written, n)
    ensures m < n && k in KeysFor(written, m)
  {
    hide KeysFor;
    if k in KeysFor(written, n - 1) {
      m := n - 1;
    } else {
      m := InSomeBuffer(written, n - 1, k);
    }
  }

  /** Every key with a usable shard key is carried by a request of the first round, or no live server was found for
      it, which is noted. */
  lemma EveryKeyIsAsked(inputs: seq<(string, string)>, s: Settings, log: seq<Event>, rs: seq<Record>,
    x: (string, string))
    requires Course(inputs, s, log, rs) && rs != [] && x in inputs && x.0 != "" && x.1 != ""
    ensures (exists j: nat :: CarriedIn(rs[0], j, Prepared(x.0))) || Unserved(Prepared(x.0)) in CourseEvents(inputs, rs)
  {
    hide InBuffers, Due, KeysFor, UnservedKeys, News, SendEvents, Readings, Replay;
    var r, k := rs[0], Prepared(x.0);
    assert NextRound(inputs, s, log, rs[..0], r);
    var news := News(inputs, r.unserved);
    DueFirst(inputs, Replay(log + CourseEvents(inputs, rs[..0])), r.mismatched, x, r.doFailover, r.chksumFailed);
    RequestOrUnserved(inputs, s, r, log + CourseEvents(inputs, rs[..0]), k);
    CourseFits(inputs, s, log, rs);
    if Unserved(k) in news {
      InCourse(inputs, rs, 0, Unserved(k));
    }
  }

  lemma {:induction false} DueIs(inputs: seq<(string, string)>, first: bool, doFailover: bool, chksumFailed: bool,
    report: Report, mismatched: set<Key>, k: Key)
    ensures k in Due(inputs, first, doFailover, chksumFailed, report, mismatched) <==>
              && (exists x <- inputs :: x.0 != "" && x.1 != "" && Prepared(x.0) == k)
              && (first || (doFailover && (k in report ==> report[k].value == None))
                  || (chksumFailed && k in mismatched))
  {
    if inputs != [] {
      var init, x := inputs[..|inputs| - 1], inputs[|inputs| - 1];
      DueIs(init, first, doFailover, chksumFailed, report, mismatched, k);
      assert forall y :: y in inputs <==> y in init || y == x;
    }
  }

  lemma {:induction false} UnservedInNews(inputs: seq<(string, string)>, unserved: seq<bool>, k: Key)
    requires |unserved| == |inputs| && Unserved(k) in News(inputs, unserved)
    ensures k in UnservedKeys(News(inputs, unserved))
  {
    var n := |inputs| - 1;
    var init, input := News(inputs[..n], unserved[..n]), InputEvents(inputs[n], unserved[n]);
    assert News(inputs, unserved) == init + input;
    UnservedConcat(init, input);
    if Unserved(k) in input {
      UnservedInput(inputs[n], unserved[n], k);
    }
    hide UnservedKeys, InputEvents;
    if Unserved(k) in init {
      UnservedInNews(inputs[..n], unserved[..n], k);
    }
  }

  lemma UnservedInput(input: (string, string), unserved: bool, k: Key)
    requires Unserved(k) in InputEvents(input, unserved)
    ensures k in UnservedKeys(InputEvents(input, unserved))
  {
    InputUnserved(input, unserved);
  }

  lemma {:induction false} InBuffer(written: seq<(Key, nat)>, n: nat, m: nat, k: Key)
    requires m < n && k in KeysFor(written, m)
    ensures k in InBuffers(written, n)
  {
    hide KeysFor;
    if m < n - 1 {
      InBuffer(written, n - 1, m, k);
    }
  }

  /** A key is in a request of round `i`, or noted there as without a live server, exactly when an input with a usable
      shard key names it and it is the first round, or a failure is made up for and no value came for the key before, or
      checksum mismatches are and the key had one in the round before. */
  lemma AskedForExactlyWhen(
    inputs: seq<(string, string)>, s: Settings, log: seq<Event>, rs: seq<Record>, i: nat, k: Key)
    requires Course(inputs, s, log, rs) && i < |rs| && AllFitting(inputs, rs[..i]) && Fitting(inputs, rs[i])
    requires Orderly(log + CourseEvents(inputs, rs[..i]))
    ensures (exists j: nat :: CarriedIn(rs[i], j, k)) || Unserved(k) in News(inputs, rs[i].unserved) <==>
              && (exists x <- inputs :: x.0 != "" && x.1 != "" && Prepared(x.0) == k)
              && (i == 0 || (rs[i].doFailover && !Answered(log + CourseEvents(inputs, rs[..i]), k))
                  || (rs[i].chksumFailed && Mismatched(rs[i - 1], k)))
  {
    hide InBuffers, Due, KeysFor, UnservedKeys, News, SendEvents, Readings, Replay, MismatchKeys, Mismatched, Orderly;
    hide CourseEvents, FailoverNext, RetryNext, Prepared, StatusOf, Kept;
    var r, before := rs[i], log + CourseEvents(inputs, rs[..i]);
    assert NextRound(inputs, s, log, rs[..i], r);
    var news := News(inputs, r.unserved);
    DueIs(inputs, r.first, r.doFailover, r.chksumFailed, Replay(before), r.mismatched, k);
    ReplayAt(before, k);
    NoValueYet(before, k);
    if i > 0 {
      MismatchesAre(rs[..i][i - 1], k);
    }
    RequestOrUnserved(inputs, s, r, before, k);
  }

  lemma NoValueYet(log: seq<Event>, k: Key)
    ensures Kept(log, k) == None <==> !Answered(log, k)
  {
    KeptIs(log, k);
    assert forall e <- log :: exists i :: 0 <= i < |log| && log[i] == e;
  }

  lemma RequestOrUnserved(inputs: seq<(string, string)>, s: Settings, r: Record, log: seq<Event>, k: Key)
    requires Accounted(inputs, s, r, log)
    ensures (exists j: nat :: CarriedIn(r, j, k)) || Unserved(k) in News(inputs, r.unserved) <==>
              k in Due(inputs, r.first, r.doFailover, r.chksumFailed, Replay(log), r.mismatched)
  {
    hide InBuffers, Due, KeysFor, UnservedKeys, News, Replay;
    var news := News(inputs, r.unserved);
    assert k in Due(inputs, r.first, r.doFailover, r.chksumFailed, Replay(log), r.mismatched) <==>
        k in InBuffers(r.written, s.servers) + multiset(UnservedKeys(news));
    if j: nat :| CarriedIn(r, j, k) {
      InBuffer(r.written, s.servers, r.asked[j], k);
    }
    if k in InBuffers(r.written, s.servers) {
      var m := InSomeBuffer(r.written, s.servers, k);
      assert m in r.asked;
      var j: nat :| j < |r.asked| && r.asked[j] == m;
      assert CarriedIn(r, j, k);
    }
    if k in UnservedKeys(news) {
      UnservedIsNoted(news, k);
    }
    if Unserved(k) in news {
      UnservedInNews(inputs, r.unserved, k);
    }
  }

  lemma CourseFits(inputs: seq<(string, string)>, s: Settings, log: seq<Event>, rs: seq<Record>)
    requires Course(inputs, s, log, rs)
    ensures AllFitting(inputs, rs)
  {
    forall r <- rs ensures Fitting(inputs, r) {
      var i :| 0 <= i < |rs| && rs[i] == r;
      assert NextRound(inputs, s, log, rs[..i], rs[i]);
    }
  }

  /** The round notes nothing about `k`: then every request with `k` among its first 1022 keys was answered. */
  lemma NothingLost(inputs: seq<(string, string)>, s: Settings, log: seq<Event>, r: Record, j: nat, k: Key)
    requires Accounted(inputs, s, r, log) && k in r.reported
    requires NamedIn(r, j, k)
    requires forall e <- RoundEvents(inputs, r) :: !Notes(e, k) && !Brings(e, k)
    ensures Silent(r, j, k)
  {
    hide Replay, KeysFor, News, UnservedKeys, Due, InBuffers, SendEvents, ReadEvents, Recovered, TookEvents, Listed;
    var keys, reading := KeysFor(r.written, r.asked[j]), r.readings[j];
    var events := ReadingEvents(reading, keys, r.asked[j], j in r.cut, r.reported);
    assert Notes(Lost(keys, false), k);
    if j in r.cut {
      LossInSend(r.written, r.asked, r.cut, j);
    }
    assert j !in r.cut;
    forall e <- events ensures !Notes(e, k) && !Brings(e, k) {
      ReadingInRead(r.readings, r.written, r.asked, r.cut, r.reported, j, e);
    }
    assert !reading.ok ==> Lost(keys, false) in events;
    forall a <- reading.answers | a.key in r.reported ensures Took(a, r.asked[j]) in events {
      AnswerInTook(reading.answers, r.asked[j], r.reported, a);
    }
    assert forall a <- reading.answers ::
        Notes(Took(a, r.asked[j]), a.key) || Brings(Took(a, r.asked[j]), a.key);
  }

  /** Honest misses, in terms of what took place: when nothing was noted about a key and no value came, it was asked
      for in vain. */
  lemma MissWasAskedFor(inputs: seq<(string, string)>, s: Settings, log: seq<Event>, rs: seq<Record>,
    x: (string, string))
    requires Course(inputs, s, log, rs) && rs != [] && x in inputs && x.0 != ""
    requires AllFitting(inputs, rs)
    requires !Noted(log + CourseEvents(inputs, rs), Prepared(x.0))
    requires !Answered(log + CourseEvents(inputs, rs), Prepared(x.0))
    ensures AskedInVain(rs, Prepared(x.0))
  {
    hide RoundEvents, CourseEvents, Accounted, Replay, News, Silent;
    var k := Prepared(x.0);
    var events := CourseEvents(inputs, rs);
    assert forall e <- events :: e in log + events;
    assert forall e <- events :: !Notes(e, k) && !Brings(e, k);
    forall i: nat | i < |rs| ensures Entered(k) in RoundEvents(inputs, rs[i]) {
      EnteredEachRound(inputs, s, log, rs, i, x);
    }
    assert Notes(Rejected(k), k);
    if x.1 == "" {
      RejectedInFirst(inputs, rs, x);
      InCourse(inputs, rs, 0, Rejected(k));
    }
    assert x.1 != "";
    EveryKeyIsAsked(inputs, s, log, rs, x);
    assert Notes(Unserved(k), k);
    forall i: nat, j: nat | i < |rs| && NamedIn(rs[i], j, k) ensures Silent(rs[i], j, k) {
      assert NextRound(inputs, s, log, rs[..i], rs[i]);
      EnteredEachRound(inputs, s, log, rs, i, x);
      forall e <- RoundEvents(inputs, rs[i]) ensures !Notes(e, k) && !Brings(e, k) {
        InCourse(inputs, rs, i, e);
      }
      NothingLost(inputs, s, log + CourseEvents(inputs, rs[..i]), rs[i], j, k);
    }
  }

  lemma EnteredEachRound(inputs: seq<(string, string)>, s: Settings, log: seq<Event>, rs: seq<Record>, i: nat,
    x: (string, string))
    requires Course(inputs, s, log, rs) && i < |rs| && x in inputs && x.0 != ""
    ensures Fitting(inputs, rs[i]) && Entered(Prepared(x.0)) in RoundEvents(inputs, rs[i])
    ensures Prepared(x.0) in rs[i].reported
  {
    hide CourseEvents, Replay, News, InBuffers, Due, UnservedKeys;
    assert NextRound(inputs, s, log, rs[..i], rs[i]);
    InputInNews(inputs, rs[i].unserved, x, Entered(Prepared(x.0)));
    EnteredIsReported(log + CourseEvents(inputs, rs[..i]) + News(inputs, rs[i].unserved), Prepared(x.0));
  }

  lemma RejectedInFirst(inputs: seq<(string, string)>, rs: seq<Record>, x: (string, string))
    requires rs != [] && Fitting(inputs, rs[0]) && x in inputs && x.0 != "" && x.1 == ""
    ensures Rejected(Prepared(x.0)) in RoundEvents(inputs, rs[0])
  {
    hide News;
    InputInNews(inputs, rs[0].unserved, x, Rejected(Prepared(x.0)));
  }

  // A key that failed and ends as a plain miss

  /** The request with `k` cannot be sent to the first server. */
  ghost function FailedRound(k: Key): Record {
    Record(true, false, false, {}, [false], [(k, 0)], [0], {0}, [Skipped], {k})
  }

  /** The second server answers with a serialized null. */
  ghost function NullRound(k: Key): Record {
    Record(false, true, false, {}, [false], [(k, 1)], [1], {}, [Reading([Got(k, "N;", 1)], true)], {k})
  }

  /** What the two rounds note up to the answer. */
  ghost function LostLog(k: Key): seq<Event> {
    [Entered(k)] + [Carried([k])] + [Lost([k], false)]
  }

  lemma LostLogIs(k: Key)
    ensures Orderly(LostLog(k)) && Replay(LostLog(k)) == map[k := Entry(false, None)] && WaitingAfter(LostLog(k)) == []
  {
    hide Replay, WaitingAfter, Orderly;
    Nothing();
    var log1 := [Entered(k)];
    var log2 := log1 + [Carried([k])];
    LogMore([], Entered(k));
    assert [] + [Entered(k)] == log1;
    LogMore(log1, Carried([k]));
    LogMore(log2, Lost([k], false));
    assert Recovered([k]) == [k] && k in Elements([k]);
  }

  lemma OneKeyFor(k: Key, m: nat)
    ensures forall n: nat :: KeysFor([(k, m)], n) == if n == m then [k] else []
  {
    assert [(k, m)][..0] == [];
  }

  lemma OneInBuffers(k: Key, m: nat, n: nat)
    requires m < n
    ensures InBuffers([(k, m)], n) == multiset{k}
  {
    EachInOneBuffer([(k, m)], n);
    assert KeysOf([(k, m)]) == [k];
  }

  lemma FailedRoundNotes(x: (string, string))
    requires x.0 != "" && x.1 != ""
    ensures var k := Prepared(x.0); News([x], [false]) == [Entered(k)] && RoundEvents([x], FailedRound(k)) == LostLog(k)
  {
    var k := Prepared(x.0);
    hide KeysFor, Prepared;
    OneKeyFor(k, 0);
    NewsMore([], [], x, false);
    assert [] + [x] == [x] && [] + [false] == [false];
    SendOne([(k, 0)], 0, {0});
    NothingRead(k);
  }

  lemma SendOne(written: seq<(Key, nat)>, m: nat, cut: set<nat>)
    ensures SendEvents(written, [m], cut)
         == [Carried(KeysFor(written, m))] + if 0 in cut then [Lost(KeysFor(written, m), false)] else []
  {
    assert [m][..0] == [];
  }

  lemma ReadOne(r: Reading, written: seq<(Key, nat)>, m: nat, cut: set<nat>, reported: set<Key>)
    ensures ReadEvents([r], written, [m], cut, reported) == ReadingEvents(r, KeysFor(written, m), m, 0 in cut, reported)
  {
    ReadEventsMore([], r, written, [m], cut, reported);
    assert [] + [r] == [r];
  }

  lemma DueAlone(x: (string, string), first: bool, doFailover: bool, chksumFailed: bool, report: Report,
    errors: set<Key>)
    ensures Due([x], first, doFailover, chksumFailed, report, errors)
         == DueOne(x, first, doFailover, chksumFailed, report, errors)
  {
    assert [x][..0] == [];
  }

  lemma NullRoundNotes(x: (string, string))
    requires x.0 != "" && x.1 != ""
    ensures var k := Prepared(x.0);
            && RoundEvents([x], NullRound(k)) == [Entered(k)] + [Carried([k])] + [Took(Got(k, "N;", 1), 1)]
            && Readings(NullRound(k)) == [Took(Got(k, "N;", 1), 1)]
  {
    var k := Prepared(x.0);
    hide KeysFor, Prepared;
    OneKeyFor(k, 1);
    NewsMore([], [], x, false);
    assert [] + [x] == [x] && [] + [false] == [false];
    SendOne([(k, 1)], 1, {});
    var got := Got(k, "N;", 1);
    ReadOne(Reading([got], true), [(k, 1)], 1, {}, {k});
    assert [got][..0] == [];
    assert TookEvents([got], 1, {k}) == [Took(got, 1)];
  }

  lemma OneListed(k: Key, m: nat, n: nat)
    requires m < n
    ensures Listed([m], [(k, m)], n)
  {
    hide KeysFor;
    OneKeyFor(k, m);
  }

  /** A round with one request for one key. */
  lemma OneAccounted(x: (string, string), s: Settings, r: Record, m: nat, log: seq<Event>)
    requires x.0 != "" && x.1 != "" && m < s.servers
    requires r.unserved == [false] && r.written == [(Prepared(x.0), m)] && r.asked == [m] && |r.readings| == 1
    requires r.cut <= {0} && (r.readings[0].Skipped? ==> 0 in r.cut)
    requires r.reported == Replay(log + [Entered(Prepared(x.0))]).Keys
    requires DueOne(x, r.first, r.doFailover, r.chksumFailed, Replay(log), r.mismatched) == [Prepared(x.0)]
    ensures Accounted([x], s, r, log)
  {
    hide Prepared, Replay, Listed, InBuffers, UnservedKeys, Due, DueOne, RoundEvents, LostLog, News;
    var k := Prepared(x.0);
    FailedRoundNotes(x);
    OneListed(k, m, s.servers);
    OneInBuffers(k, m, s.servers);
    OneEvent(Entered(k));
    DueAlone(x, r.first, r.doFailover, r.chksumFailed, Replay(log), r.mismatched);
    assert UnservedKeys([Entered(k)]) == [] && multiset([k]) == multiset{k};
  }

  lemma FailedRoundAccounted(x: (string, string), s: Settings)
    requires x.0 != "" && x.1 != "" && s.servers >= 2
    ensures Accounted([x], s, FailedRound(Prepared(x.0)), [])
  {
    var k := Prepared(x.0);
    hide Accounted, Prepared, Replay, Orderly, WaitingAfter;
    Nothing();
    LogMore([], Entered(k));
    assert [] + [Entered(k)] == [Entered(k)];
    OneAccounted(x, s, FailedRound(k), 0, []);
  }

  lemma NullRoundAccounted(x: (string, string), s: Settings)
    requires x.0 != "" && x.1 != "" && s.servers >= 2
    ensures Accounted([x], s, NullRound(Prepared(x.0)), LostLog(Prepared(x.0)))
  {
    var k := Prepared(x.0);
    hide Accounted, Prepared, Replay, LostLog, Orderly, WaitingAfter;
    LostLogIs(k);
    LogMore(LostLog(k), Entered(k));
    OneAccounted(x, s, NullRound(k), 1, LostLog(k));
  }

  /** A failed send, a failover and a serialized null: the two rounds are a whole run of the operation, and the key ends
      as a plain miss although its send failed. */
  lemma NullAfterFailure(x: (string, string), s: Settings, u: Unserialize)
    requires x.0 != "" && x.1 != "" && s.servers >= 2 && s.allowFailover && u(1, "N;") == Null
    ensures var k := Prepared(x.0);
            var rs := [FailedRound(k), NullRound(k)];
            && Course([x], s, [], rs) && Over(s, rs) && AllFitting([x], rs)
            && var log := CourseEvents([x], rs);
               Orderly(log) && Failed(log, k) && Noted(log, k) && Final(log, u) == map[k := Entry(true, None)]
  {
    hide Accounted, RoundEvents, Replay, LostLog, Course, Readings, Prepared, WaitingAfter, Orderly, Final;
    hide Noted, Failed;
    var k := Prepared(x.0);
    var rs := [FailedRound(k), NullRound(k)];
    TwoRounds(x, s);
    FailedRoundNotes(x);
    NullRoundNotes(x);
    NullLog(k, u);
  }

  lemma TwoRounds(x: (string, string), s: Settings)
    requires x.0 != "" && x.1 != "" && s.servers >= 2 && s.allowFailover
    ensures var k := Prepared(x.0);
            var rs := [FailedRound(k), NullRound(k)];
            && Course([x], s, [], rs) && Over(s, rs) && AllFitting([x], rs)
            && CourseEvents([x], rs) == RoundEvents([x], FailedRound(k)) + RoundEvents([x], NullRound(k))
  {
    hide Accounted, RoundEvents, Course, Readings, Prepared, Replay, LostLog;
    var k := Prepared(x.0);
    var r0, r1 := FailedRound(k), NullRound(k);
    FailedRoundAccounted(x, s);
    NullRoundAccounted(x, s);
    FailedRoundNotes(x);
    NullRoundNotes(x);
    NoRounds([x], s, []);
    assert [] + CourseEvents([x], []) == [];
    CourseMore([x], s, [], [], r0);
    assert [] + [r0] == [r0] && [r0] + [r1] == [r0, r1];
    CourseEventsMore([x], [], r0);
    assert [] + RoundEvents([x], r0) == RoundEvents([x], r0);
    assert r0.readings == [Skipped];
    assert Readings(r0) == [] by {
      NothingRead(k);
    }
    assert MismatchKeys([]) == {};
    assert 0 in r0.cut;
    CourseMore([x], s, [], [r0], r1);
    CourseEventsMore([x], [r0], r1);
    assert r1.readings == [Reading([Got(k, "N;", 1)], true)];
    assert MismatchKeys(Readings(r1)) == {};
  }

  lemma NothingRead(k: Key)
    ensures Readings(FailedRound(k)) == []
  {
    ReadOne(Skipped, [(k, 0)], 0, {0}, {k});
  }

  lemma NullLog(k: Key, u: Unserialize)
    requires u(1, "N;") == Null
    ensures var log := LostLog(k) + ([Entered(k)] + [Carried([k])] + [Took(Got(k, "N;", 1), 1)]);
            Orderly(log) && Failed(log, k) && Noted(log, k) && Final(log, u) == map[k := Entry(true, None)]
  {
    hide Replay, WaitingAfter, Orderly, LostLog, Processed, Noted, Failed;
    var log := LostLog(k) + ([Entered(k)] + [Carried([k])] + [Took(Got(k, "N;", 1), 1)]);
    NullReplay(k);
    ProcessedAt(Replay(log), WaitingAfter(log), u, k);
    assert WaitingAfter(log)[0].key == k;
    LossIsNoted(k, log);
  }

  lemma NullReplay(k: Key)
    ensures var log := LostLog(k) + ([Entered(k)] + [Carried([k])] + [Took(Got(k, "N;", 1), 1)]);
            && Orderly(log) && Replay(log) == map[k := Entry(true, Some(Serialized("N;", 1)))]
            && WaitingAfter(log) == [Waiting(k, "N;", 1, 1)]
  {
    hide Replay, WaitingAfter, Orderly, LostLog, Fits;
    var log4 := LostLog(k) + [Entered(k)];
    var log5 := log4 + [Carried([k])];
    var log := log5 + [Took(Got(k, "N;", 1), 1)];
    LostLogIs(k);
    OneFits(LostLog(k), k);
    LogMore(LostLog(k), Entered(k));
    OneFits(log4, k);
    LogMore(log4, Carried([k]));
    OneFits(log5, k);
    LogMore(log5, Took(Got(k, "N;", 1), 1));
    assert log == LostLog(k) + ([Entered(k)] + [Carried([k])] + [Took(Got(k, "N;", 1), 1)]);
  }

  lemma OneFits(log: seq<Event>, k: Key)
    requires k in Replay(log)
    ensures Fits(Entered(k), log) && Fits(Carried([k]), log) && Fits(Took(Got(k, "N;", 1), 1), log)
  {
  }

  lemma LossIsNoted(k: Key, log: seq<Event>)
    requires LostLog(k) <= log
    ensures Failed(log, k) && Noted(log, k)
  {
    assert log[2] == LostLog(k)[2] == Lost([k], false);
    assert FailsFor(log[2], k) && Notes(log[2], k);
  }
}
