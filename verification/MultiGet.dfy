/** getMultiByKey: the three-pass batched get with its failover and checksum-retry rounds. */
module MultiGet {
  import opened Batches
  import opened Options
  import opened Outcomes
  import opened Rounds
  import opened Tokenizer
  import LockStep
  import Queue

  /** The C string in a buffer. */
  method CString(buffer: array<char>, ghost text: string) returns (s: string)
    requires |text| < buffer.Length && buffer[..|text|] == text && buffer[|text|] == '\0' && '\0' !in text
    ensures s == text
  {
    var n := 0;
    assert forall i :: 0 <= i < |text| ==> buffer[i] == text[i];
    while buffer[n] != '\0'
      invariant n <= |text|
      decreases |text| - n
    {
      n := n + 1;
    }
    s := buffer[..n];
  }

  /** The names read off the tokens behind the command word. A token left over at the end reads as the empty name. */
  method Names(buffer: array<char>, tokens: array<Token>, ntokens: nat, ghost words: seq<string>, ghost limit: nat)
    returns (names: seq<string>)
    requires 1 < ntokens <= tokens.Length && Stand(buffer[..], tokens[..ntokens - 1], words, limit)
    requires tokens[ntokens - 1].length == 0
    requires tokens[ntokens - 1].value.At? ==> tokens[ntokens - 1].value.pos <= buffer.Length
    ensures names == words[1..] + if tokens[ntokens - 1].value.At? then [""] else []
  {
    names := [];
    for i := 1 to ntokens - 1
      invariant names == words[1..i]
    {
      assert tokens[i] == tokens[..ntokens - 1][i] && Reads(buffer[..], tokens[i].value.pos, words[i]);
      var p := tokens[i].value.pos;
      assert buffer[p..p + tokens[i].length] == buffer[..][p..p + |words[i]|];
      names := names + [buffer[p..p + tokens[i].length]];
    }
    assert words[1..ntokens - 1] == words[1..];
    if tokens[ntokens - 1].value.At? {
      var p := tokens[ntokens - 1].value.pos;
      assert buffer[p..p] == "";
      names := names + [buffer[p..p]];
    }
  }

  /** The names on a command line, which is cut off after the command word by the tokenizing. */
  method TakeApart(line: string, ghost keys: seq<Key>) returns (names: seq<string>, line': string)
    requires AllWords(keys) && line == Line(GETS, keys)
    ensures names == Recovered(keys) + (if |keys| <= MAX_TOKENS - 2 then [] else [""]) && line' == GETS
  {
    var buffer := new char[|line| + 1](i requires 0 <= i <= |line| => if i < |line| then line[i] else '\0');
    var tokens := new Token[MAX_TOKENS](_ => Token(NULL, 0));
    LineEndsInWord(GETS, keys);
    hide Line;
    assert buffer[..][..|line|] == line;
    var ntokens;
    ghost var words, left;
    ntokens, words, left := TokenizeCommand(buffer, tokens, MAX_TOKENS, line);
    LineTokens(GETS, keys, words, left);
    names := Names(buffer, tokens, ntokens, words, |line| + 1);
    assert tokens[0] == tokens[..ntokens - 1][0] && Reads(buffer[..], 0, GETS);
    line' := CString(buffer, GETS);
  }

  /** Marks the keys of a failed request. */
  method UpdateResult(report: Report, line: string, ghost keys: seq<Key>) returns (r: Report, line': string)
    requires AllWords(keys) && line == Line(GETS, keys) && "" !in report
    ensures r == Marked(report, Elements(Recovered(keys))) && line' == GETS
  {
    var names;
    names, line' := TakeApart(line, keys);
    r := report;
    for i := 0 to |names|
      invariant r == Marked(report, Elements(names[..i]))
    {
      assert Elements(names[..i + 1]) == Elements(names[..i]) + {names[i]};
      if names[i] in r {
        r := Fail(r, names[i]);
      }
    }
    assert names[..|names|] == names;
    assert Elements(names) == Elements(Recovered(keys)) + if |keys| <= MAX_TOKENS - 2 then {} else {""};
  }

  /** Between the two reports nothing but new keys, which are plain misses at first, and failures were recorded. */
  ghost predicate NoAnswers(before: Report, after: Report) {
    && before.Keys <= after.Keys
    && forall k <- after ::
         && after[k].value == (if k in before then before[k].value else None)
         && (k in before && !before[k].status ==> !after[k].status)
  }

  /** Every key of the input that is not empty is reported on. */
  ghost predicate AllReported(inputs: seq<(string, string)>, report: Report) {
    forall x <- inputs :: x.0 != "" ==> Prepared(x.0) in report
  }

  lemma NoAnswersStep(report: Report, key: Key)
    ensures NoAnswers(report, report)
    ensures NoAnswers(report, Fail(report, key))
    ensures key !in report ==> NoAnswers(report, report[key := Entry(true, None)])
  {
  }

  lemma NoAnswersTwice(a: Report, b: Report, c: Report)
    requires NoAnswers(a, b) && NoAnswers(b, c)
    ensures NoAnswers(a, c) && b.Keys <= c.Keys
  {
    assert forall k <- a :: k in b && k in c;
  }

  lemma KeysOfMore(written: seq<(Key, nat)>, w: (Key, nat))
    ensures multiset(KeysOf(written + [w])) == multiset(KeysOf(written)) + multiset{w.0}
  {
    assert KeysOf(written + [w]) == KeysOf(written) + [w.0];
  }

  lemma StillReported(inputs: seq<(string, string)>, report: Report, report': Report)
    requires AllReported(inputs, report) && report.Keys <= report'.Keys
    ensures AllReported(inputs, report')
  {
  }

  lemma ReportedAll(inputs: seq<(string, string)>, report: Report)
    requires AllReported(inputs, report)
    ensures forall x <- inputs :: x.0 != "" ==> Prepared(x.0) in report
  {
  }

  lemma ReportedMore(inputs: seq<(string, string)>, i: nat, report: Report, report': Report)
    requires i < |inputs| && AllReported(inputs[..i], report) && report.Keys <= report'.Keys
    requires inputs[i].0 != "" ==> Prepared(inputs[i].0) in report'
    ensures AllReported(inputs[..i + 1], report')
  {
    assert inputs[..i + 1] == inputs[..i] + [inputs[i]];
  }

  /** What taking a value in makes of the report, and of the values that wait. */
  lemma AcceptedIs(report: Report, k: Key, text: string, flags: nat, m: nat, log: seq<Event>)
    requires Orderly(log) && report == Replay(log) && k in report
    ensures var log' := log + [Took(Got(k, text, flags), m)];
            && Orderly(log') && Replay(log') == report[k := Entry(true, Keep(report[k].value, text, flags))]
            && WaitingAfter(log') == WaitingAfter(log) + if Waits(report, Got(k, text, flags)) then
                                                           [Waiting(k, text, flags, m)] else []
  {
    hide Replay, Orderly, WaitingAfter, Keep;
    LogMore(log, Took(Got(k, text, flags), m));
  }

  lemma ReportedNone(report: Report)
    ensures AllReported([], report)
  {
  }

  lemma NoKeysLine()
    ensures Line(GETS, []) == GETS
  {
  }

  lemma LossFits(written: seq<(Key, nat)>, m: nat, cut: bool, log: seq<Event>)
    requires forall w <- written :: w.0 in Replay(log)
    requires Carried(KeysFor(written, m)) in log && (cut ==> Lost(KeysFor(written, m), false) in log)
    ensures Fits(Lost(KeysFor(written, m), cut), log)
  {
    hide KeysFor, Replay;
    WrittenKeys(written, m);
  }

  /** What the names recovered from the line of a lost request mark. */
  lemma MarkedIs(report: Report, keys: seq<Key>, cut: bool)
    ensures Marked(report, Elements(Recovered(if cut then [] else keys))) == Apply(report, Lost(keys, cut))
  {
  }

  lemma NothingSent(written: seq<(Key, nat)>, cut: set<nat>)
    ensures SendEvents(written, [], cut) == []
  {
  }

  /** An item of the four queues: a string, or a number or a server in the place of a pointer. */
  datatype Item = Str(text: string) | Num(number: nat)

  ghost function QueueEntry(w: Waiting): LockStep.Entry<Item> {
    LockStep.Entry(Queue.Ref(Str(w.text)), Queue.Ref(Str(w.key)), Queue.Ref(Num(w.flags)), Queue.Ref(Num(w.server)))
  }

  ghost function QueueEntries(ws: seq<Waiting>): (r: seq<LockStep.Entry<Item>>)
    ensures |r| == |ws|
  {
    seq(|ws|, i requires 0 <= i < |ws| => QueueEntry(ws[i]))
  }

  ghost predicate InQueues(pending: LockStep.Pending<Item>, ws: seq<Waiting>)
    reads pending, pending.Queues(), pending.Buffers()
  {
    pending.Valid() && pending.entries == QueueEntries(ws)
  }

  method NoneHeld() returns (pending: LockStep.Pending<Item>)
    ensures InQueues(pending, []) && fresh(pending) && fresh(pending.Queues()) && fresh(pending.Buffers())
  {
    hide LockStep.Pending.Valid;
    pending := new LockStep.Pending<Item>();
  }

  class MultiGetByKey {
    const servers: nat
    const allowFailover: bool
    const maxFailover: nat
    const integrityRetries: int
    const unserialize: Unserialize
    // what is returned, and the keys with a checksum mismatch in this round
    var report: Report
    var errors: set<Key>
    // the values still to be unserialized
    const pending: LockStep.Pending<Item>
    // per server: whether it is down, and the request being put together
    const down: array<bool>
    const outbuf: array<string>
    // per request of the round: the server, and the command line kept for marking
    const requests: array<nat>
    const lines: array<string>
    var numRequests: nat
    // the servers of the requests, and the key occurrences written in this round with their servers
    ghost var asked: seq<nat>
    ghost var written: seq<(Key, nat)>
    // all that happened so far
    ghost var log: seq<Event>

    ghost predicate Shape()
      reads this
    {
      && down.Length == outbuf.Length == requests.Length == lines.Length == servers
      && outbuf != lines && numRequests <= servers
      && forall k <- report :: IsWord(k)
    }

    /** The report is what follows from all that happened. */
    ghost predicate Faithful()
      reads this
    {
      report == Replay(log) && Orderly(log) && forall w <- written :: w.0 in report
    }

    /** The queues hold the values that wait to be unserialized. */
    ghost predicate Queued(ws: seq<Waiting>)
      reads pending, pending.Queues(), pending.Buffers()
    {
      InQueues(pending, ws)
    }

    /** The buffers of all servers are empty. */
    ghost predicate NoneBuffered()
      reads outbuf
    {
      forall m :: 0 <= m < outbuf.Length ==> outbuf[m] == ""
    }

    /** The buffers hold what was written in this round, and the requests list the servers written to. */
    ghost predicate Batched()
      reads this, outbuf, requests
    {
      && Shape() && Buffered(outbuf[..], written) && requests[..numRequests] == asked && Listed(asked, written, servers)
    }

    constructor (servers: nat, allowFailover: bool, maxFailover: nat, integrityRetries: int, unserialize: Unserialize,
      pending: LockStep.Pending<Item>)
      requires InQueues(pending, [])
      ensures Faithful() && Batched() && Queued(WaitingAfter(log)) && written == [] && numRequests == 0
      ensures this.pending == pending && fresh(down) && fresh(outbuf) && fresh(requests) && fresh(lines)
      ensures report == map[] && log == [] && this.servers == servers && this.unserialize == unserialize
      ensures Given() == Settings(servers, allowFailover, maxFailover, integrityRetries)
    {
      this.servers, this.allowFailover, this.maxFailover := servers, allowFailover, maxFailover;
      this.integrityRetries, this.unserialize := integrityRetries, unserialize;
      report, errors, numRequests, asked, written, log := map[], {}, 0, [], [], [];
      down := new bool[servers];
      outbuf := new string[servers](_ => "");
      requests := new nat[servers];
      lines := new string[servers];
      this.pending := pending;
      new;
      hide *;
      Started();
    }

    lemma Started()
      requires report == map[] && log == [] && written == [] && asked == [] && numRequests == 0
      requires down.Length == outbuf.Length == requests.Length == lines.Length == servers && outbuf != lines
      requires forall m :: 0 <= m < outbuf.Length ==> outbuf[m] == ""
      requires InQueues(pending, [])
      ensures Faithful() && Batched() && Queued(WaitingAfter(log))
    {
      hide InQueues, Replay, Orderly, WaitingAfter, Buffered, Listed;
      Nothing();
      NothingWritten();
    }

    /** A pool lookup: any live server, or none. It may change which servers are down. */
    method Lookup() returns (m: Option<nat>)
      requires Shape()
      modifies down
      ensures m.Some? ==> m.value < servers && !down[m.value]
    {
      for i := 0 to servers {
        down[i] := *;
      }
      var n: int := *;
      m := None;
      if 0 <= n < servers && !down[n] {
        m := Some(n);
      }
    }

    /** Writes a key to the buffer of its server, which becomes one of the requests with its first key. */
    method Write(key: Key, m: nat)
      requires Batched() && IsWord(key) && m < servers
      modifies `numRequests, `asked, `written, outbuf, requests
      ensures Batched() && written == old(written) + [(key, m)]
    {
      hide Buffered, Listed;
      BufferMore(outbuf[..], written, key, m);
      ListMore(asked, written, servers, key, m);
      if |outbuf[m]| == 0 {
        outbuf[m] := GETS;
        requests[numRequests] := m;
        numRequests := numRequests + 1;
        asked := asked + [m];
      }
      outbuf[m] := outbuf[m] + " ";
      outbuf[m] := outbuf[m] + key;
      written := written + [(key, m)];
      assert outbuf[..] == old(outbuf[..])[m := (if old(outbuf[m]) == "" then GETS else old(outbuf[m])) + " " + key];
    }

    /** Looks up the server for a key that is due: it is written for a live server, or it has failed. */
    method Schedule(key: Key) returns (ghost m: Option<nat>)
      requires Batched() && Faithful() && key in report
      modifies `report, `log, `numRequests, `asked, `written, down, outbuf, requests
      ensures Batched() && Faithful() && NoAnswers(old(report), report)
      ensures WaitingAfter(log) == old(WaitingAfter(log))
      ensures m.Some? ==> m.value < servers && !down[m.value] && log == old(log)
      ensures m.Some? ==> written == old(written) + [(key, m.value)] && report == old(report)
      ensures m.None? ==> written == old(written) && log == old(log) + [Unserved(key)]
    {
      hide Buffered, Listed, Replay, Orderly, WaitingAfter;
      NoAnswersStep(report, key);
      var found := Lookup();
      m := found;
      if found.Some? {
        Write(key, found.value);
      } else {
        report := Fail(report, key);
        LogMore(log, Unserved(key));
        log := log + [Unserved(key)];
      }
    }

    /** A key that is not reported on yet starts out as a plain miss. */
    method Enter(key: Key)
      requires Batched() && Faithful() && IsWord(key)
      modifies `report, `log
      ensures Batched() && Faithful() && NoAnswers(old(report), report) && key in report
      ensures log == old(log) + [Entered(key)] && WaitingAfter(log) == old(WaitingAfter(log))
    {
      hide Replay, Orderly, WaitingAfter;
      NoAnswersStep(report, key);
      if key !in report {
        report := report[key := Entry(true, None)];
      }
      LogMore(log, Entered(key));
      log := log + [Entered(key)];
    }

    /** A key whose shard key cannot be used. */
    method Reject(key: Key)
      requires Batched() && Faithful() && key in report
      modifies `report, `log
      ensures Batched() && Faithful() && NoAnswers(old(report), report) && report == Fail(old(report), key)
      ensures log == old(log) + [Rejected(key)] && WaitingAfter(log) == old(WaitingAfter(log))
    {
      hide Replay, Orderly, WaitingAfter;
      NoAnswersStep(report, key);
      report := Fail(report, key);
      LogMore(log, Rejected(key));
      log := log + [Rejected(key)];
    }

    /** What the first pass does for one input. */
    method Consider(input: (string, string), first: bool, doFailover: bool, chksumFailed: bool, ghost before: Report)
      returns (ghost due: seq<Key>, ghost unserved: bool)
      requires Batched() && Faithful() && NoAnswers(before, report)
      modifies `report, `log, `numRequests, `asked, `written, down, outbuf, requests
      ensures Batched() && Faithful() && NoAnswers(old(report), report)
      ensures due == DueOne(input, first, doFailover, chksumFailed, before, errors)
      ensures log == old(log) + InputEvents(input, unserved) && WaitingAfter(log) == old(WaitingAfter(log))
      ensures unserved ==> due != []
      ensures multiset(KeysOf(written)) + (if unserved then multiset(due) else multiset{})
           == old(multiset(KeysOf(written))) + multiset(due)
      ensures input.0 != "" ==> Prepared(input.0) in report
    {
      hide Batched, Faithful, KeysOf, IsWord, Prepared, WaitingAfter, NoAnswers;
      due, unserved := [], false;
      NoAnswersStep(report, "");
      var ok, key := PrepareKey(input.0);
      if !ok {
        return;
      }
      Enter(key);
      NoAnswersTwice(before, old(report), report);
      ghost var entered := report;
      var shardOk, shard := PrepareKey(input.1);
      if !shardOk {
        Reject(key);
        NoAnswersTwice(old(report), entered, report);
        return;
      }
      if first || (doFailover && report[key].value == None) || (chksumFailed && key in errors) {
        due := [key];
        var m := Schedule(key);
        if m.Some? {
          KeysOfMore(old(written), (key, m.value));
        } else {
          unserved := true;
        }
        NoAnswersTwice(old(report), entered, report);
      }
    }

    /** First pass: looks a server up for every key that is due, and puts the requests together. Each occurrence of a
        key that is due ends up in exactly one buffer, or no live server was found for it. */
    method FirstPass(inputs: seq<(string, string)>, first: bool, doFailover: bool, chksumFailed: bool)
      returns (ghost unserved: seq<bool>)
      requires Batched() && Faithful() && written == []
      modifies `report, `log, `numRequests, `asked, `written, down, outbuf, requests
      ensures Batched() && Faithful() && NoAnswers(old(report), report) && AllReported(inputs, report)
      ensures |unserved| == |inputs| && log == old(log) + News(inputs, unserved)
      ensures WaitingAfter(log) == old(WaitingAfter(log))
      ensures InBuffers(written, servers) + multiset(UnservedKeys(News(inputs, unserved)))
           == multiset(Due(inputs, first, doFailover, chksumFailed, old(report), errors))
    {
      hide Batched, Faithful, DueOne, KeysOf, InputEvents, UnservedKeys, WaitingAfter, NoAnswers, AllReported, Prepared;
      unserved := [];
      NoAnswersStep(report, "");
      ReportedNone(report);
      assert KeysOf(written) == [];
      assert UnservedKeys([]) == [] by {
        NoEvents();
      }
      for i := 0 to |inputs|
        invariant Batched() && Faithful()
        invariant |unserved| == i && log == old(log) + News(inputs[..i], unserved)
        invariant WaitingAfter(log) == old(WaitingAfter(log))
        invariant multiset(Due(inputs[..i], first, doFailover, chksumFailed, old(report), errors))
               == multiset(KeysOf(written)) + multiset(UnservedKeys(News(inputs[..i], unserved)))
        invariant NoAnswers(old(report), report) && AllReported(inputs[..i], report)
      {
        ghost var due, none;
        ghost var w, r := multiset(KeysOf(written)), report;
        due, none := Consider(inputs[i], first, doFailover, chksumFailed, old(report));
        OneMoreInput(inputs, i, unserved, none, first, doFailover, chksumFailed, old(report), errors,
                     w, multiset(KeysOf(written)));
        NoAnswersTwice(old(report), r, report);
        ReportedMore(inputs, i, r, report);
        unserved := unserved + [none];
      }
      assert inputs[..|inputs|] == inputs;
      WrittenForServers();
      EachInOneBuffer(written, servers);
    }

    lemma WrittenForServers()
      requires Batched()
      ensures forall w <- written :: w.1 < servers
    {
    }

    /** What happens to the report when the request to server `m` fails. `cut` tells that its line was tokenized
        before; then its keys had failed already and marking finds none of them. */
    method FailRequest(j: nat, ghost m: nat, ghost cut: bool)
      requires Shape() && Faithful() && j < servers && AllWords(KeysFor(written, m))
      requires lines[j] == if cut then GETS else Line(GETS, KeysFor(written, m))
      requires Carried(KeysFor(written, m)) in log && (cut ==> Lost(KeysFor(written, m), false) in log)
      modifies `report, `log, lines
      ensures Shape() && Faithful() && report.Keys == old(report.Keys)
      ensures lines[..] == old(lines[..])[j := GETS]
      ensures log == old(log) + [Lost(KeysFor(written, m), cut)] && WaitingAfter(log) == old(WaitingAfter(log))
    {
      hide Replay, Orderly, WaitingAfter, KeysFor, Line, Marked, Recovered, Elements, Fits, Apply;
      ghost var keys := KeysFor(written, m);
      assert "" !in report;
      NoKeysLine();
      LossFits(written, m, cut, log);
      ghost var named := if cut then [] else keys;
      MarkedIs(report, keys, cut);
      report, lines[j] := UpdateResult(report, lines[j], named);
      LogMore(log, Lost(keys, cut));
      log := log + [Lost(keys, cut)];
    }

    /** A send to server `m`. A server that went down before cannot be sent to. */
    method Send(m: nat) returns (sent: bool)
      requires Shape() && m < servers
      modifies down
      ensures sent ==> !down[m]
      ensures down[..] == old(down[..])[m := down[m]]
    {
      sent := *;
      if down[m] {
        sent := false;
      }
      if !sent {
        down[m] := *;
      }
    }

    ghost predicate Sent(lo: nat, n: nat, cut: set<nat>)
      reads this, lines, down
    {
      Shape() && n <= |asked| && SentBetween(lo, n, cut, lines[..], down[..], asked, written, log)
    }

    /** What the passes need to know about the requests of the round, whatever is left in the buffers. */
    ghost predicate Routed()
      reads this, requests
    {
      && Shape() && |asked| == numRequests
      && (forall i :: 0 <= i < |asked| ==> asked[i] < servers && requests[i] == asked[i])
      && (forall i, j :: 0 <= i < j < |asked| ==> asked[i] != asked[j])
      && forall m :: 0 <= m < servers ==> AllWords(KeysFor(written, m))
    }

    lemma BatchIsRouted()
      requires Batched()
      ensures Routed()
      ensures forall m :: 0 <= m < servers ==> outbuf[m] == Buffer(KeysFor(written, m))
      ensures forall i :: 0 <= i < |asked| ==> KeysFor(written, asked[i]) != []
      ensures forall m :: 0 <= m < servers && m !in asked ==> outbuf[m] == ""
    {
      forall m | 0 <= m < servers
        ensures outbuf[m] == Buffer(KeysFor(written, m)) && AllWords(KeysFor(written, m))
      {
        assert outbuf[..][m] == outbuf[m];
        WrittenWords(written, m);
      }
      forall i | 0 <= i < |asked| ensures requests[i] == asked[i] && KeysFor(written, asked[i]) != [] {
        assert requests[..numRequests][i] == requests[i] && asked[i] in asked;
      }
    }

    /** Sends request `j`, keeping a copy of it. */
    method SendRequest(j: nat, ghost cut: set<nat>) returns (sent: bool)
      requires Routed() && Faithful() && j < numRequests && Sent(0, j, cut)
      requires outbuf[asked[j]] == Line(GETS, KeysFor(written, asked[j]))
      modifies `report, `log, lines, down
      ensures Routed() && Faithful() && report.Keys == old(report.Keys)
      ensures Sent(0, j + 1, if sent then cut else cut + {j})
      ensures var keys := KeysFor(written, asked[j]);
              log == old(log) + [Carried(keys)] + if sent then [] else [Lost(keys, false)]
      ensures WaitingAfter(log) == old(WaitingAfter(log))
    {
      hide KeysFor, Line, SentBetween, Replay, Orderly, WaitingAfter, Fits;
      var m := requests[j];
      lines[j] := outbuf[m];
      Carry(m);
      sent := Send(m);
      if !sent {
        FailRequest(j, m, false);
      }
      SentMore(j, cut, sent, lines[j], down[m], old(lines[..]), old(down[..]), asked, written, old(log), log);
      assert lines[..] == old(lines[..])[j := lines[j]];
    }

    ghost method Carry(m: nat)
      requires Shape() && Faithful()
      modifies `log
      ensures Faithful() && log == old(log) + [Carried(KeysFor(written, m))]
      ensures WaitingAfter(log) == old(WaitingAfter(log))
    {
      hide Replay, Orderly, WaitingAfter;
      WrittenKeys(written, m);
      LogMore(log, Carried(KeysFor(written, m)));
      log := log + [Carried(KeysFor(written, m))];
    }

    /** Second pass: sends the requests. */
    method SecondPass() returns (resultStatus: int, ghost cut: set<nat>)
      requires Batched() && Faithful()
      modifies `report, `log, lines, down
      ensures Batched() && Faithful() && Sent(0, numRequests, cut) && report.Keys == old(report.Keys)
      ensures log == old(log) + SendEvents(written, asked, cut) && WaitingAfter(log) == old(WaitingAfter(log))
      ensures resultStatus < 0 <==> cut != {}
    {
      hide Buffered, Listed, Faithful, Sent, KeysFor, WaitingAfter, SendEvents;
      resultStatus, cut := 0, {};
      assert SendEvents(written, asked[..0], cut) == [] by {
        NothingSent(written, cut);
      }
      SentNone();
      BatchIsRouted();
      for j := 0 to numRequests
        invariant Batched() && Routed() && Faithful() && Sent(0, j, cut) && report.Keys == old(report.Keys)
        invariant (forall i <- cut :: i < j) && log == old(log) + SendEvents(written, asked[..j], cut)
        invariant WaitingAfter(log) == old(WaitingAfter(log)) && (resultStatus < 0 <==> cut != {})
      {
        ghost var log0 := log;
        var sent := SendRequest(j, cut);
        SendEventsMore(written, asked, cut, j, sent);
        assert log == log0 + ([Carried(KeysFor(written, asked[j]))]
                              + if sent then [] else [Lost(KeysFor(written, asked[j]), false)]);
        if !sent {
          resultStatus := -1;
          cut := cut + {j};
        }
      }
      assert asked[..numRequests] == asked;
    }

    lemma SentAt(j: nat, n: nat, cut: set<nat>)
      requires Sent(j, n, cut) && j < n
      ensures asked[j] < servers && lines[j] == (if j in cut then GETS else Line(GETS, KeysFor(written, asked[j])))
      ensures Carried(KeysFor(written, asked[j])) in log
      ensures j in cut ==> Lost(KeysFor(written, asked[j]), false) in log
    {
      assert lines[..][j] == lines[j];
    }

    lemma SentNone()
      requires Batched()
      ensures Sent(0, 0, {})
    {
      BatchIsRouted();
    }

    /** Takes one answer of server `m` in. Answers for keys that were not asked for are skipped. */
    method Receive(a: Answer, m: nat)
      requires Shape() && Faithful() && Queued(WaitingAfter(log))
      modifies `report, `errors, `log, pending, pending.Queues(), pending.Buffers()
      ensures Shape() && Faithful() && Queued(WaitingAfter(log)) && report.Keys == old(report.Keys)
      ensures fresh(pending.Buffers() - old(pending.Buffers()))
      ensures log == if a.key in old(report) then old(log) + [Took(a, m)] else old(log)
      ensures errors == if a.Mismatch? && a.key in report then old(errors) + {a.key} else old(errors)
    {
      hide Shape, Faithful, Queued, WaitingAfter, LockStep.Pending.Valid;
      if a.key !in report {
        return;
      }
      match a {
        case Undecodable(k) =>
          Refuse(a, m);
        case Mismatch(k) =>
          Refuse(a, m);
        case Got(k, text, flags) =>
          Accept(k, text, flags, m);
      }
    }

    /** A value that cannot be used. */
    method Refuse(a: Answer, m: nat)
      requires Shape() && Faithful() && a.key in report && !a.Got?
      modifies `report, `errors, `log
      ensures Shape() && Faithful() && report.Keys == old(report.Keys)
      ensures log == old(log) + [Took(a, m)] && WaitingAfter(log) == old(WaitingAfter(log))
      ensures errors == if a.Mismatch? then old(errors) + {a.key} else old(errors)
    {
      hide Replay, Orderly, WaitingAfter;
      if a.Mismatch? {
        errors := errors + {a.key};
      }
      report := Fail(report, a.key);
      LogMore(log, Took(a, m));
      log := log + [Took(a, m)];
    }

    /** Takes a value in. A serialized one is not stored a second time. */
    method Accept(k: Key, text: string, flags: nat, m: nat)
      requires Shape() && Faithful() && Queued(WaitingAfter(log)) && k in report
      modifies `report, `log, pending, pending.Queues(), pending.Buffers()
      ensures Shape() && Faithful() && Queued(WaitingAfter(log)) && report.Keys == old(report.Keys)
      ensures fresh(pending.Buffers() - old(pending.Buffers()))
      ensures log == old(log) + [Took(Got(k, text, flags), m)]
    {
      hide Replay, Orderly, WaitingAfter, LockStep.Pending.Valid, Queued, Keep, Waits, Apply, Fits;
      ghost var a := Got(k, text, flags);
      AcceptedIs(report, k, text, flags, m, log);
      StoreValue(k, text, flags, m, WaitingAfter(log));
      report := report[k := report[k].(status := true)];
      log := log + [Took(a, m)];
    }

    /** Stores a value, or keeps it to be unserialized. */
    method StoreValue(k: Key, text: string, flags: nat, m: nat, ghost ws: seq<Waiting>)
      requires k in report && Queued(ws)
      modifies `report, pending, pending.Queues(), pending.Buffers()
      ensures report == old(report)[k := old(report)[k].(value := Keep(old(report)[k].value, text, flags))]
      ensures Queued(ws + if Waits(old(report), Got(k, text, flags)) then [Waiting(k, text, flags, m)] else [])
      ensures fresh(pending.Buffers() - old(pending.Buffers()))
    {
      hide LockStep.Pending.Valid, Queued;
      assert ws + [] == ws;
      if !IsSerialized(flags) {
        report := report[k := report[k].(value := Some(Text(text)))];
      } else if report[k].value == None {
        report := report[k := report[k].(value := Some(Serialized(text, flags)))];
        Enqueue(k, text, flags, m, ws);
      }
    }

    method Enqueue(k: Key, text: string, flags: nat, m: nat, ghost ws: seq<Waiting>)
      requires Queued(ws)
      modifies pending, pending.Queues(), pending.Buffers()
      ensures Queued(ws + [Waiting(k, text, flags, m)]) && fresh(pending.Buffers() - old(pending.Buffers()))
    {
      hide LockStep.Pending.Valid;
      pending.Push(LockStep.Entry(Queue.Ref(Str(text)), Queue.Ref(Str(k)), Queue.Ref(Num(flags)), Queue.Ref(Num(m))));
    }

    /** Takes the answers of server `m` in. */
    method TakeIn(answers: seq<Answer>, m: nat)
      requires Shape() && Faithful() && Queued(WaitingAfter(log))
      modifies `report, `errors, `log, pending, pending.Queues(), pending.Buffers()
      ensures Shape() && Faithful() && Queued(WaitingAfter(log)) && report.Keys == old(report.Keys)
      ensures fresh(pending.Buffers() - old(pending.Buffers()))
      ensures log == old(log) + TookEvents(answers, m, report.Keys)
      ensures errors == old(errors) + MismatchKeys(TookEvents(answers, m, report.Keys))
    {
      hide Shape, Faithful, Queued, WaitingAfter, LockStep.Pending.Valid, MismatchKeys;
      MismatchNone();
      for i := 0 to |answers|
        invariant Shape() && Faithful() && Queued(WaitingAfter(log)) && report.Keys == old(report.Keys)
        invariant fresh(pending.Buffers() - old(pending.Buffers()))
        invariant log == old(log) + TookEvents(answers[..i], m, report.Keys)
        invariant errors == old(errors) + MismatchKeys(TookEvents(answers[..i], m, report.Keys))
      {
        assert answers[..i + 1][..i] == answers[..i];
        Receive(answers[i], m);
        MismatchOne(answers[i], m);
        ghost var events := TookEvents(answers[..i], m, report.Keys);
        MismatchConcat(events, [Took(answers[i], m)]);
        assert events + [] == events;
      }
      assert answers[..|answers|] == answers;
    }

    /** Reads the answers to request `j` until the end of them, or until reading fails. */
    method ReadRequest(j: nat, ghost cut: set<nat>) returns (ok: bool, ghost taken: seq<Answer>)
      requires Routed() && Faithful() && Queued(WaitingAfter(log)) && j < numRequests && Sent(j, numRequests, cut)
      modifies `report, `errors, `log, pending, pending.Queues(), pending.Buffers(), lines, down
      ensures Routed() && Faithful() && Queued(WaitingAfter(log)) && report.Keys == old(report.Keys)
      ensures Sent(j + 1, numRequests, cut)
      ensures fresh(pending.Buffers() - old(pending.Buffers()))
      ensures log == old(log) + TookEvents(taken, asked[j], report.Keys)
                   + if ok then [] else [Lost(KeysFor(written, asked[j]), j in cut)]
      ensures errors == old(errors) + MismatchKeys(TookEvents(taken, asked[j], report.Keys))
      ensures down[..] == old(down[..])[asked[j] := down[asked[j]]]
    {
      hide Faithful, KeysFor, Line, SentBetween, WaitingAfter, LockStep.Pending.Valid, Queued, TookEvents;
      SentAt(j, numRequests, cut);
      var answers: seq<Answer> := *;
      taken := answers;
      TakeIn(answers, requests[j]);
      ok := *;
      if !ok {
        GiveUp(j, cut);
      }
      SentLater(j, numRequests, cut, lines[j], down[asked[j]], old(lines[..]), old(down[..]),
        asked, written, old(log), log);
      assert lines[..] == old(lines[..])[j := lines[j]];
      assert down[..] == old(down[..])[asked[j] := down[asked[j]]];
    }

    /** Reading the answers to request `j` has failed. */
    method GiveUp(j: nat, ghost cut: set<nat>)
      requires Routed() && Faithful() && j < numRequests && AllWords(KeysFor(written, asked[j]))
      requires var keys := KeysFor(written, asked[j]);
               && lines[j] == (if j in cut then GETS else Line(GETS, keys))
               && Carried(keys) in log && (j in cut ==> Lost(keys, false) in log)
      modifies `report, `log, lines, down
      ensures Routed() && Faithful() && report.Keys == old(report.Keys)
      ensures log == old(log) + [Lost(KeysFor(written, asked[j]), j in cut)]
      ensures WaitingAfter(log) == old(WaitingAfter(log))
      ensures lines[..] == old(lines[..])[j := lines[j]] && down[..] == old(down[..])[asked[j] := down[asked[j]]]
    {
      hide Faithful, KeysFor, Line, WaitingAfter;
      down[requests[j]] := *;
      FailRequest(j, asked[j], j in cut);
    }

    /** The part of the third pass for request `j`. A server that is down was not sent to, and is not read from. */
    method Serve(j: nat, ghost cut: set<nat>) returns (ok: bool, ghost r: Reading)
      requires Routed() && Faithful() && Queued(WaitingAfter(log)) && j < numRequests && Sent(j, numRequests, cut)
      modifies `report, `errors, `log, pending, pending.Queues(), pending.Buffers(), lines, down, outbuf
      ensures Routed() && Faithful() && Queued(WaitingAfter(log)) && report.Keys == old(report.Keys)
      ensures Sent(j + 1, numRequests, cut)
      ensures fresh(pending.Buffers() - old(pending.Buffers()))
      ensures r.Skipped? == old(down[asked[j]]) && ok == (r.Skipped? || r.ok)
      ensures var events := ReadingEvents(r, KeysFor(written, asked[j]), asked[j], j in cut, report.Keys);
              log == old(log) + events && errors == old(errors) + MismatchKeys(events)
      ensures outbuf[..] == old(outbuf[..])[asked[j] := ""]
      ensures down[..] == old(down[..])[asked[j] := down[asked[j]]]
    {
      hide Faithful, KeysFor, Sent, WaitingAfter, LockStep.Pending.Valid, ReadingEvents, MismatchKeys, Queued;
      ok, r := ServeIfUp(j, cut);
      outbuf[requests[j]] := "";
    }

    method ServeIfUp(j: nat, ghost cut: set<nat>) returns (ok: bool, ghost r: Reading)
      requires Routed() && Faithful() && Queued(WaitingAfter(log)) && j < numRequests && Sent(j, numRequests, cut)
      modifies `report, `errors, `log, pending, pending.Queues(), pending.Buffers(), lines, down
      ensures Routed() && Faithful() && Queued(WaitingAfter(log)) && report.Keys == old(report.Keys)
      ensures Sent(j + 1, numRequests, cut)
      ensures fresh(pending.Buffers() - old(pending.Buffers()))
      ensures r.Skipped? == old(down[asked[j]]) && ok == (r.Skipped? || r.ok)
      ensures var events := ReadingEvents(r, KeysFor(written, asked[j]), asked[j], j in cut, report.Keys);
              log == old(log) + events && errors == old(errors) + MismatchKeys(events)
      ensures down[..] == old(down[..])[asked[j] := down[asked[j]]]
    {
      hide Faithful, KeysFor, Line, SentBetween, WaitingAfter, LockStep.Pending.Valid, TookEvents, Queued;
      ok, r := true, Skipped;
      if down[requests[j]] {
        SentLater(j, numRequests, cut, lines[j], true, lines[..], down[..], asked, written, log, log);
        assert lines[..] == lines[..][j := lines[j]] && down[..] == down[..][asked[j] := true];
      } else {
        ghost var taken;
        ok, taken := ReadRequest(j, cut);
        r := Reading(taken, ok);
        MismatchConcat(TookEvents(taken, asked[j], report.Keys),
                       if ok then [] else [Lost(KeysFor(written, asked[j]), j in cut)]);
      }
    }

    /** Third pass: reads the answers, and empties the buffers. */
    method ThirdPass(ghost cut: set<nat>) returns (resultStatus: int, ghost readings: seq<Reading>)
      requires Batched() && Faithful() && Queued(WaitingAfter(log)) && Sent(0, numRequests, cut)
      modifies `report, `errors, `log, pending, pending.Queues(), pending.Buffers(), lines, down, outbuf
      ensures Shape() && Faithful() && Queued(WaitingAfter(log)) && report.Keys == old(report.Keys)
      ensures fresh(pending.Buffers() - old(pending.Buffers())) && NoneBuffered()
      ensures |readings| == |asked| && log == old(log) + ReadEvents(readings, written, asked, cut, report.Keys)
      ensures errors == old(errors) + MismatchKeys(ReadEvents(readings, written, asked, cut, report.Keys))
      ensures SkippedDown(readings, asked, old(down[..])) && (resultStatus < 0 <==> SomeBroke(readings))
    {
      hide Faithful, KeysFor, Buffered, Listed, Sent, WaitingAfter, LockStep.Pending.Valid, Queued, Emptied, Shape;
      hide ReadEvents, MismatchKeys, SomeBroke;
      resultStatus, readings := 0, [];
      BatchIsRouted();
      AllListed();
      NothingRead(cut);
      hide Routed;
      for j := 0 to numRequests
        invariant Routed() && Faithful() && Queued(WaitingAfter(log)) && report.Keys == old(report.Keys)
        invariant fresh(pending.Buffers() - old(pending.Buffers())) && Sent(j, numRequests, cut)
        invariant Emptied(outbuf[..], asked, j) && |readings| == j && AsBefore(j, asked, down[..], old(down[..]))
        invariant log == old(log) + ReadEvents(readings, written, asked, cut, report.Keys)
        invariant errors == old(errors) + MismatchKeys(ReadEvents(readings, written, asked, cut, report.Keys))
        invariant SkippedDown(readings, asked, old(down[..])) && (resultStatus < 0 <==> SomeBroke(readings))
      {
        var ok;
        ok, readings := ServeNext(j, cut, readings, old(log), old(errors), old(down[..]));
        if !ok {
          resultStatus := -1;
        }
      }
      AllEmptied();
    }

    lemma NothingRead(cut: set<nat>)
      requires Routed()
      ensures ReadEvents([], written, asked, cut, report.Keys) == [] && MismatchKeys([]) == {} && !SomeBroke([])
      ensures SkippedDown([], asked, down[..]) && AsBefore(0, asked, down[..], down[..])
      ensures |asked| == numRequests && Shape()
    {
    }

    method ServeNext(j: nat, ghost cut: set<nat>, ghost readings: seq<Reading>, ghost log0: seq<Event>,
      ghost errors0: set<Key>, ghost down0: seq<bool>)
      returns (ok: bool, ghost readings': seq<Reading>)
      requires Routed() && Faithful() && Queued(WaitingAfter(log)) && j < numRequests && Sent(j, numRequests, cut)
      requires Emptied(outbuf[..], asked, j) && |readings| == j
      requires AsBefore(j, asked, down[..], down0) && SkippedDown(readings, asked, down0)
      requires var events := ReadEvents(readings, written, asked, cut, report.Keys);
               log == log0 + events && errors == errors0 + MismatchKeys(events)
      modifies `report, `errors, `log, pending, pending.Queues(), pending.Buffers(), lines, down, outbuf
      ensures Routed() && Faithful() && Queued(WaitingAfter(log)) && report.Keys == old(report.Keys)
      ensures Sent(j + 1, numRequests, cut) && Emptied(outbuf[..], asked, j + 1) && |readings'| == j + 1
      ensures fresh(pending.Buffers() - old(pending.Buffers())) && AsBefore(j + 1, asked, down[..], down0)
      ensures SkippedDown(readings', asked, down0)
      ensures var events := ReadEvents(readings', written, asked, cut, report.Keys);
              log == log0 + events && errors == errors0 + MismatchKeys(events)
      ensures SomeBroke(readings') <==> !ok || SomeBroke(readings)
    {
      hide Faithful, KeysFor, Sent, WaitingAfter, LockStep.Pending.Valid, Queued, Emptied, ReadingEvents;
      hide ReadEvents, SomeBroke, MismatchKeys;
      hide SkippedDown, AsBefore;
      EmptiedMore(outbuf[..], asked, j);
      ghost var r;
      ghost var down1 := down[..];
      ok, r := Serve(j, cut);
      readings' := readings + [r];
      ReadEventsMore(readings, r, written, asked, cut, report.Keys);
      MismatchConcat(ReadEvents(readings, written, asked, cut, report.Keys),
                     ReadingEvents(r, KeysFor(written, asked[j]), asked[j], j in cut, report.Keys));
      SomeBrokeMore(readings, r);
      ReadMore(readings, r, asked, down1, down0, down[..][asked[j]]);
    }

    lemma AllEmptied()
      requires Routed() && Emptied(outbuf[..], asked, numRequests)
      ensures Shape() && NoneBuffered()
    {
      EmptiedAll(outbuf[..], asked);
      assert forall m :: 0 <= m < servers ==> outbuf[..][m] == outbuf[m];
    }

    lemma AllListed()
      requires Batched()
      ensures Emptied(outbuf[..], asked, 0)
    {
      BatchIsRouted();
      assert forall m :: 0 <= m < servers ==> outbuf[..][m] == outbuf[m];
    }

    lemma NothingWritten()
      requires Shape() && written == [] && asked == [] && numRequests == 0
      requires NoneBuffered()
      ensures Batched()
    {
    }

    /** What the number of rounds depends on. */
    ghost function Given(): Settings {
      Settings(servers, allowFailover, maxFailover, integrityRetries)
    }

    /** One round. What is noted is what its record says, which accounts for every key that was due. */
    method Round(inputs: seq<(string, string)>, first: bool, doFailover: bool, chksumFailed: bool)
      returns (resultStatus: int, ghost r: Record)
      requires Batched() && Faithful() && Queued(WaitingAfter(log)) && written == []
      modifies this, down, outbuf, requests, lines, pending, pending.Queues(), pending.Buffers()
      ensures Shape() && Faithful() && Queued(WaitingAfter(log)) && AllReported(inputs, report) && NoneBuffered()
      ensures fresh(pending.Buffers() - old(pending.Buffers()))
      ensures r.first == first && r.doFailover == doFailover && r.chksumFailed == chksumFailed
      ensures r.mismatched == old(errors) && errors == MismatchKeys(Readings(r))
      ensures Accounted(inputs, Given(), r, old(log)) && Fitting(inputs, r) && log == old(log) + RoundEvents(inputs, r)
      ensures resultStatus < 0 <==> Broke(r)
    {
      hide Shape, Faithful, Batched, Queued, WaitingAfter, LockStep.Pending.Valid;
      hide NoAnswers, Due, InBuffers, SendEvents, ReadEvents, UnservedKeys, AllReported, NoneBuffered, News, Replay;
      hide MismatchKeys, Listed;
      ghost var mismatched := errors;
      ReportIs();
      ghost var unserved := FirstPass(inputs, first, doFailover, chksumFailed);
      ghost var reported := report;
      ReportIs();
      ghost var cut, readings;
      resultStatus, cut, readings := Exchange();
      StillReported(inputs, reported, report);
      r := Record(first, doFailover, chksumFailed, mismatched, unserved, written, asked, cut, readings, report.Keys);
    }

    lemma ReportIs()
      requires Faithful() && Batched()
      ensures report == Replay(log) && Listed(asked, written, servers)
    {
      hide Replay, Orderly, Listed;
    }

    /** The part of a round that talks to the servers. */
    method Exchange() returns (resultStatus: int, ghost cut: set<nat>, ghost readings: seq<Reading>)
      requires Batched() && Faithful() && Queued(WaitingAfter(log))
      modifies `report, `errors, `log, pending, pending.Queues(), pending.Buffers(), lines, down, outbuf
      ensures Shape() && Faithful() && Queued(WaitingAfter(log)) && report.Keys == old(report.Keys) && NoneBuffered()
      ensures fresh(pending.Buffers() - old(pending.Buffers())) && |readings| == |asked|
      ensures log == old(log) + SendEvents(written, asked, cut) + ReadEvents(readings, written, asked, cut, report.Keys)
      ensures errors == MismatchKeys(ReadEvents(readings, written, asked, cut, report.Keys))
      ensures (forall j <- cut :: j < |asked|)
      ensures forall j :: 0 <= j < |asked| && readings[j].Skipped? ==> j in cut
      ensures resultStatus < 0 <==> cut != {} || SomeBroke(readings)
    {
      hide Shape, Faithful, Batched, Queued, Sent, WaitingAfter, LockStep.Pending.Valid, SendEvents, NoneBuffered;
      hide ReadEvents, MismatchKeys, SomeBroke;
      resultStatus, cut := SecondPass();
      ClearErrors(cut);
      SentIsUp(cut);
      ghost var sent := log;
      assert sent == old(log) + SendEvents(written, asked, cut);
      var readStatus;
      readStatus, readings := ThirdPass(cut);
      if readStatus < 0 {
        resultStatus := readStatus;
      }
    }

    /** A request that was sent is not skipped. */
    lemma SentIsUp(cut: set<nat>)
      requires Batched() && Sent(0, numRequests, cut)
      ensures |asked| == numRequests && forall j <- cut :: j < |asked|
      ensures forall j :: 0 <= j < |asked| ==> asked[j] < |down[..]| && (down[..][asked[j]] ==> j in cut)
    {
      BatchIsRouted();
    }

    method ClearErrors(ghost cut: set<nat>)
      requires Batched() && Faithful() && Sent(0, numRequests, cut)
      modifies `errors
      ensures Batched() && Faithful() && Sent(0, numRequests, cut) && errors == {}
    {
      if |errors| > 0 {
        errors := {};
      }
    }

    /** Starts the next round with no requests. */
    method Reset()
      requires Shape() && Faithful() && NoneBuffered()
      modifies `numRequests, `asked, `written
      ensures Batched() && Faithful() && written == []
    {
      numRequests, asked, written := 0, [], [];
      NothingWritten();
    }

    /** Unserializes what is pending. The value is written in the place of the serialized one; a value that cannot be
        unserialized is reported as a failure. */
    method PostProcess()
      requires Shape() && Faithful() && Queued(WaitingAfter(log))
      modifies `report, pending, pending.Queues()
      ensures Shape() && report == Final(log, unserialize)
    {
      hide Orderly, WaitingAfter, Replay, LockStep.Pending.Valid, Processed1, LockStep.Pending.Apart;
      ghost var ws := WaitingAfter(log);
      assert forall i :: 0 <= i < |ws| ==> QueueEntries(ws)[i] == QueueEntry(ws[i]);
      var entries := pending.Drain();
      for i := 0 to |entries|
        invariant Shape() && report == Processed(old(report), ws[..i], unserialize)
      {
        assert ws[..i + 1][..i] == ws[..i] && entries[i] == QueueEntry(ws[i]);
        var key, text, flags := entries[i].key.value.text, entries[i].value.value.text, entries[i].flags.value.number;
        Unserialize1(key, text, flags, ws[i]);
      }
      assert ws[..|ws|] == ws;
    }

    /** Unserializes one value. It is written in the place of the serialized one, if that is still there. */
    method Unserialize1(key: Key, text: string, flags: nat, ghost w: Waiting)
      requires Shape() && w == Waiting(key, text, flags, w.server)
      modifies `report
      ensures Shape() && report == Processed1(old(report), w, unserialize)
    {
      var result := unserialize(flags, text);
      if key in report {
        if report[key].value == Some(Serialized(text, flags)) {
          match result {
            case Broken => report := report[key := report[key].(value := Some(False))];
            case Null => report := report[key := report[key].(value := None)];
            case Other(t) => report := report[key := report[key].(value := Some(Object(t)))];
          }
        }
        if result == Broken {
          report := Fail(report, key);
        }
      }
    }

    /** Round after round until nothing failed that may be tried again. What is noted is what the rounds `rs` note. */
    method Rounds(inputs: seq<(string, string)>) returns (ghost rs: seq<Record>)
      requires Batched() && Faithful() && Queued(WaitingAfter(log)) && written == []
      modifies this, down, outbuf, requests, lines, pending, pending.Queues(), pending.Buffers()
      ensures Shape() && Faithful() && Queued(WaitingAfter(log)) && AllReported(inputs, report) && NoneBuffered()
      ensures fresh(pending.Buffers() - old(pending.Buffers()))
      ensures Course(inputs, Given(), old(log), rs) && Over(Given(), rs)
      ensures AllFitting(inputs, rs) && log == old(log) + CourseEvents(inputs, rs)
    {
      hide Shape, Faithful, Batched, Queued, WaitingAfter, LockStep.Pending.Valid, AllReported, NoneBuffered;
      hide Course, CourseEvents, Accounted, RoundEvents, Broke, Readings, MismatchKeys, MismatchRounds, AllFitting;
      hide Fitting;
      var i, retryCount := 0, 0;
      var again, doFailover, chksumFailed := true, false, false;
      rs := [];
      BatchedIsEmpty();
      Beginning(inputs, old(log));
      while again
        invariant Shape() && Faithful() && Queued(WaitingAfter(log)) && NoneBuffered()
        invariant fresh(pending.Buffers() - old(pending.Buffers()))
        invariant Course(inputs, Given(), old(log), rs) && AllFitting(inputs, rs)
        invariant log == old(log) + CourseEvents(inputs, rs)
        invariant i == |rs| <= maxFailover + Most(integrityRetries, 1) + 1 && retryCount == MismatchRounds(rs)
        invariant doFailover == FailoverNext(Given(), rs) && chksumFailed == RetryNext(Given(), rs)
        invariant again == (rs == [] || doFailover || chksumFailed)
        invariant rs != [] ==> AllReported(inputs, report) && errors == MismatchKeys(Readings(rs[|rs| - 1]))
        decreases maxFailover + Most(integrityRetries, 1) + 1 - |rs|
      {
        Reset();
        ghost var r;
        var resultStatus;
        resultStatus, r := Round(inputs, i == 0, doFailover, chksumFailed);
        OneMoreRound(inputs, old(log), rs, r);
        rs := rs + [r];
        RoundsAreBounded(inputs, Given(), old(log), rs);
        chksumFailed := false;
        if |errors| > 0 {
          retryCount := retryCount + 1;
          chksumFailed := retryCount < integrityRetries;
        }
        doFailover := resultStatus < 0 && allowFailover && i <= maxFailover;
        i := i + 1;
        again := doFailover || chksumFailed;
      }
    }

    lemma Beginning(inputs: seq<(string, string)>, log0: seq<Event>)
      ensures Course(inputs, Given(), log0, []) && AllFitting(inputs, []) && MismatchRounds([]) == 0
      ensures log0 + CourseEvents(inputs, []) == log0
    {
    }

    lemma OneMoreRound(inputs: seq<(string, string)>, log0: seq<Event>, rs: seq<Record>, r: Record)
      requires Course(inputs, Given(), log0, rs) && AllFitting(inputs, rs) && Follows(Given(), rs, r)
      requires Accounted(inputs, Given(), r, log0 + CourseEvents(inputs, rs)) && Fitting(inputs, r)
      ensures Course(inputs, Given(), log0, rs + [r]) && AllFitting(inputs, rs + [r])
      ensures log0 + CourseEvents(inputs, rs + [r]) == log0 + CourseEvents(inputs, rs) + RoundEvents(inputs, r)
      ensures MismatchRounds(rs + [r]) == MismatchRounds(rs) + if MismatchKeys(Readings(r)) != {} then 1 else 0
    {
      hide *;
      NextOf(inputs, Given(), log0, rs, r);
      CourseMore(inputs, Given(), log0, rs, r);
      CourseEventsMore(inputs, rs, r);
    }

    /** The key is reported with status true and no value, and no serialized null is kept for it. */
    ghost predicate PlainMiss(k: Key)
      reads this
    {
      k in report && report[k] == Entry(true, None) && !KeepsNull(log, k, unserialize)
    }

    /** The whole operation. What is noted is what the rounds `rs` note, and the report is what follows from it. A key
        ends as a plain miss exactly when nothing was noted about it and no value came, or when the value kept is a
        serialized null and no failure was noted after the last value; in the first case it was asked for in vain. Every
        failure of a lookup, send or read is noted for the keys it had to do with, but for those behind the 1022nd of a
        failed request, and there are none of these when no request carried more. */
    method Run(inputs: seq<(string, string)>) returns (ghost rs: seq<Record>)
      requires Batched() && Faithful() && Queued(WaitingAfter(log)) && written == []
      modifies this, down, outbuf, requests, lines, pending, pending.Queues(), pending.Buffers()
      ensures Shape() && AllReported(inputs, report) && NoneBuffered()
      ensures Course(inputs, Given(), old(log), rs) && Over(Given(), rs)
      ensures AllFitting(inputs, rs) && log == old(log) + CourseEvents(inputs, rs)
      ensures Orderly(log) && report == Final(log, unserialize)
      ensures forall k <- report ::
                ValueTold(log, k, unserialize, report[k].value) && StatusTold(log, k, unserialize, report[k].status)
      ensures forall k <- report :: report[k] == Entry(true, None) <==>
                || (!Noted(log, k) && !Answered(log, k))
                || (StatusOf(log, k) && KeepsNull(log, k, unserialize))
      ensures forall x <- inputs | x.0 != "" ::
                Prepared(x.0) in report && (PlainMiss(Prepared(x.0)) ==> AskedInVain(rs, Prepared(x.0)))
      ensures forall k <- report :: Failed(log, k) ==> Noted(log, k) || k in Beyond(log)
      ensures SmallRequests(log) ==> Beyond(log) == {}
      ensures 1 <= |rs| <= maxFailover + Most(integrityRetries, 1) + 1
    {
      hide Faithful, Batched, Queued, Replay, Orderly, WaitingAfter, Final, LockStep.Pending.Valid, Course;
      hide StatusOf, KeepsNull, Noted, Answered, Failed, Beyond, SmallRequests, AllReported, NoneBuffered, Shape;
      hide AskedInVain, CourseEvents, ValueTold, StatusTold;
      rs := Rounds(inputs);
      ghost var reported := report;
      Conclude();
      RoundsAreBounded(inputs, Given(), old(log), rs);
      MissesWereAskedFor(inputs, old(log), rs);
      PostProcess();
      StillReported(inputs, reported, report);
      assert forall x <- inputs :: x.0 != "" ==> Prepared(x.0) in report by {
        ReportedAll(inputs, report);
      }
    }

    lemma MissesWereAskedFor(inputs: seq<(string, string)>, log0: seq<Event>, rs: seq<Record>)
      requires Course(inputs, Given(), log0, rs) && rs != [] && AllFitting(inputs, rs)
      requires log == log0 + CourseEvents(inputs, rs)
      ensures forall x <- inputs | x.0 != "" && !Noted(log, Prepared(x.0)) && !Answered(log, Prepared(x.0)) ::
                AskedInVain(rs, Prepared(x.0))
    {
      hide Course, CourseEvents, Noted, Answered, AskedInVain, AllFitting;
      forall x <- inputs | x.0 != "" && !Noted(log, Prepared(x.0)) && !Answered(log, Prepared(x.0))
        ensures AskedInVain(rs, Prepared(x.0))
      {
        MissWasAskedFor(inputs, Given(), log0, rs, x);
      }
    }

    /** What is known about the report in the end. */
    lemma Conclude()
      requires Faithful()
      ensures Orderly(log) && Final(log, unserialize).Keys == report.Keys
      ensures forall k <- report ::
                && ValueTold(log, k, unserialize, Final(log, unserialize)[k].value)
                && StatusTold(log, k, unserialize, Final(log, unserialize)[k].status)
      ensures forall k <- report :: Final(log, unserialize)[k] == Entry(true, None) <==>
                || (!Noted(log, k) && !Answered(log, k))
                || (StatusOf(log, k) && KeepsNull(log, k, unserialize))
      ensures forall k <- report :: Failed(log, k) ==> Noted(log, k) || k in Beyond(log)
      ensures SmallRequests(log) ==> Beyond(log) == {}
    {
      hide Replay, Orderly, Final, StatusOf, KeepsNull, Noted, Answered, Failed, Beyond, SmallRequests;
      hide ValueTold, StatusTold;
      forall k <- report
        ensures ValueTold(log, k, unserialize, Final(log, unserialize)[k].value)
        ensures StatusTold(log, k, unserialize, Final(log, unserialize)[k].status)
      {
        FinalTold(log, k, unserialize);
      }
      forall k <- report
        ensures Final(log, unserialize)[k] == Entry(true, None) <==>
                  (!Noted(log, k) && !Answered(log, k)) || (StatusOf(log, k) && KeepsNull(log, k, unserialize))
        ensures Failed(log, k) ==> Noted(log, k) || k in Beyond(log)
      {
        MissExactlyWhen(log, k, unserialize);
        if Failed(log, k) {
          FailuresAreNoted(log, k);
        }
      }
      if SmallRequests(log) {
        NoneBeyond(log);
      }
    }

    lemma BatchedIsEmpty()
      requires Batched() && written == []
      ensures Shape() && NoneBuffered()
    {
      BatchIsRouted();
    }
  }
}
