# A verified model of the memcache client

This project models the parts of a PHP memcache client that carry real invariants, and proves them: the
consistent-hash ring with its precomputed bucket table, the status machine of a server with failover and the retry
loops built on it, the log-rule parser and evaluator, the store/read pipeline with checksums and compression, the
batched get, and the growable ring-buffer queue. `dafny verify dfyconfig.toml` checks all of it.

Code that changes things step by step is modelled by classes and methods with the source's own fields and loops, and
each method is proved against a specification; what the source promises is then proved about the specification for all
inputs, runs and states.

| file | what it models |
|---|---|
| `Text`, `Options`, `Flags` | decimal and hexadecimal text: `printf`, `atoi` and `sscanf`; the flags of a value |
| `Servers`, `Failover` | status of one server; what probing, finding and failing do to all servers of a pool |
| `Ring`, `ConsistentHash`, `StandardHash` | ring theory, the bucket table with its binary search, both lookups |
| `Ranking`, `Pool` | the rank of a server, pool lookup with the options exchange, the retry loops |
| `Queue`, `LockStep` | the ring-buffer queue, and four of them kept in step |
| `Rules`, `RulePrinting`, `FlatRules`, `GroupedRules`, `RuleContents`, `RuleEval`, `RuleParser` | log rules as values and as heap nodes |
| `Tokenizer`, `Batches` | keys, command lines, the tokenizer; which keys of a batched get go to which server |
| `Outcomes`, `Rounds`, `MultiGet` | what is reported for a key, as a function of all that happened; what a round notes and when another follows; the three-pass batched get |
| `Response`, `StoredValue` | the `VALUE` header; what a store sends and how it is read back |

## How to read the model

Sockets, clocks, hash and CRC functions, compression libraries and everything a server or proxy answers are parameters
or free choices (`:= *`), so every statement holds whatever they do. A ghost field such as `added`, `contents` or
`entries` is the abstract value of an object, tied to its real fields by `Valid()`.

* **Failover.** `Health` is the part of a server the status machine works on. `Snap(S)` is the health of all servers of
  a pool, and `FoundStep`, `OfferStep` say how a lookup may change it. `Promised` and `Looked` are the promise of a
  lookup: the first live server of the bounded probe sequence `Probe(key, 0)`, `Probe(key, 1)`, and so on. `Usable` is
  the channel guarantee: an open proxy connection, or the server's own open stream. Inside a multi operation the
  connection kept for the server asked first is used for whatever server is found, open or not; `ProxyOpen` says which
  it is.
* **Rank.** Unknown 3, disconnected 2, failed with the retry due 2, connected 1, failed and not due 0. A failing
  iteration of a retry loop lowers the sum when the server it fails on has a retry interval other than zero.
  `Patient(key, g)` says that this holds of all servers a lookup of the key may ask, which are the first few of its
  probe sequence. A `FailingRun` is a sequence of failing iterations; `Pool.RunsEndExactlyWhen` shows that their length
  is bounded exactly for keys with `Patient`, and that otherwise one can lead back to the state it began in.
* **Rules.** `Run` is the two-stack machine on values. `ExprParser` does the same on nodes with `left` and `right`
  fields; `live` holds the nodes allocated and not freed, and `A`, `B` the nodes owned by the operator and the operand
  stack. The asserts in `checkInvalidOpr` end the program, which is the outcome `Aborted`.
* **Batched get.** `log` lists all that happened, and nothing else: keys entered, refused or without a live server,
  requests carried and lost, answers taken in. `Replay(log)` is the report that follows from it, and `Final` the report
  once serialized values are unserialized, each in its place. `Noted` and `Failed` tell failures that are noted for a
  key from all failures of lookups, sends and reads that had to do with it. They differ for `Beyond`, the keys behind
  the 1022nd of a failed request, which the tokenizer cannot name. A `Record` is what happened in one round, `Accounted`
  ties it to what was due, and `Course` says which rounds follow one another and why; `log` is exactly what such a
  course of rounds notes.
* **Stored values.** `Stored` is what the first attempt to store a value sends, `ReplyOf` what is read from a header line
  and the bytes behind it. `Survives` is the condition, visible in what is sent, under which the value comes back.

Results that say where the code does not keep a promise, each next to the condition under which it does:
`Pool.RunsEndExactlyWhen`, `Pool.StaleLookup`, `Queue.RemoveExactlyWhen`, `Outcomes.MarkingIsComplete`,
`Rounds.NullAfterFailure`, `Ring.DisruptionExactly` and `StoredValue.OldStyleIsOnItsOwn`. The description of
getMultiByKey says that a value is null when there is no record (memcache.cpp:5171); a stored null is reported in the
same way, and the model follows the code.

## Model

| member | source | states |
|---|---|---|
| Text.AtoiDecimal | memcache.cpp:2191-2192 | a number written with `%d` is read back by `atoi`, whatever non-digit follows |
| Text.DecimalPlaces | memcache_consistent_hash.c:165 | what `%d` writes: the decimal places of the number, the highest first, without a zero in front |
| Text.HexPlaces | memcache.cpp:1482-1488 | what `%.4x` and `%.8x` write: the hexadecimal places, the highest first, at least as many as asked for |
| Text.ScanHexReads | memcache.cpp:3119 | a number written with `%.4x` or `%.8x` is read back by `sscanf` with what follows left over, unless that could be taken for more of the number |
| Servers.Server.Disconnect | memcache.cpp:1936-1949 | closes the stream and leaves the server disconnected |
| Servers.Server.Deactivate | memcache.cpp:1951-1955 | the server is failed, closed, and its failure time is now |
| Servers.Server.Reopen | memcache.cpp:1792-1898 | connected with an open stream and options unknown, or failed as of now, after any number of refused attempts |
| Servers.Server.Open | memcache.cpp:1901-1933 | a connected server, an unknown one not checked, and a failed one whose interval is negative or not over are left alone; any other one ends connected with an open stream, or failed as of now; so a failed server is tried again once its retry interval is over |
| Servers.Server.Failure | memcache.cpp:912-932 | whether the failure is final, the status, stream and failure time after it, and that the proxy connection is closed when there is one |
| Servers.Server.ShouldFailover | memcache_consistent_hash.c:124-138 | passed over directly: a failed server whose interval is negative or not over, and one that could not be opened; through the proxy only the former, and a failed server whose interval is over becomes unknown |
| Servers.Server.Attach | memcache_consistent_hash.c:186-191 | a live server gives up its own stream for the proxy; a failed one loses the proxy |
| Servers.Globals.GetProxy | memcache.cpp:3952-3984 | outside a multi operation the proxy handed out is the one kept, connected, and none means its connection failed or none is configured; inside one it is open exactly when no connection was kept for the server or the kept one is open, and none means none is configured or one could not be opened |
| Servers.Globals.GetProxyForMulti | memcache.cpp:3908-3950 | one connection per server for a multi operation, newly opened ones connected and kept ones as they are; none exactly when one could not be opened before or now |
| Failover.StepKeepsSane | memcache.cpp:1901-1949 | in every state after a lookup, a connected or unknown server still holds a stream |
| Failover.DownUntil | memcache.cpp:1924-1926 | a server that failed at time t is down until t plus its retry interval, and for good when that is negative |
| Failover.ProbeServer | memcache_standard_hash.c:67-81 | one step of a walk: a server passed over was disconnected or failed before, whatever its retry interval, and stays down for the call unless that is zero; no other server changes |
| Failover.WalkEnds | memcache_standard_hash.c:125-133 | the end of a walk is a live server, or a server that is down |
| Failover.PassedOver | memcache_standard_hash.c:99-109 | a server passed over or reported as down was disconnected or failed before the lookup, whatever its retry interval; through the proxy it had failed |
| Failover.SomeoneWasDown | memcache_standard_hash.c:99-109 | when all servers are up the server asked first is the one found |
| Ranking.OptionsStep | memcache.cpp:997-1013 | how the lookup and a failed options exchange together leave the server that is handed out |
| Ranking.FailingIteration | memcache.cpp:912-932 | a lookup, an options exchange and a failed command together strictly lower the sum of ranks, directly or through the proxy, when the interval of the server that failed is not zero, whatever those of the others are |
| Ranking.FailureLowersExactlyWhen | memcache.cpp:1924-1931 | on one server: whatever its state, failing lowers its rank, exactly when its retry interval is not zero |
| Ring.OwnerExists | memcache_consistent_hash.c:81-109 | every position of a non-empty ring has an owner |
| Ring.OwnerUnique | memcache_consistent_hash.c:81-109 | without shared points it has only one |
| Ring.OwnsClockwise | memcache_consistent_hash.c:85-89 | owning a position, without distances: no point of the ring lies from the position on, round the end of the circle, before the one of the owner |
| Ring.MinimalDisruption | memcache_consistent_hash.c:197-221 | points added for a server take positions over for that server only, wrap-around included |
| Ring.DisruptionExactly | memcache_consistent_hash.c:197-221 | with shared points a position is safe from disruption exactly when it had one owner or the new server overtakes all old points |
| ConsistentHash.FoundAtIsFirst | memcache_consistent_hash.c:85-89 | the leftmost point at or above the query, or else the first point, is the clockwise successor |
| ConsistentHash.BucketsDivideCircle | memcache_consistent_hash.c:113-118 | the 1024 buckets ask for positions 4194303 apart, from zero to the end of the circle |
| ConsistentHash.RingPoints | memcache_consistent_hash.c:197-221 | the ring holds exactly the hashes of "host:port-i" of all servers added, 160 per unit of weight |
| ConsistentHash.ConsistentState.Find | memcache_consistent_hash.c:81-109 | on any non-empty ascending ring, duplicates allowed, the search ends, stays in bounds and returns the leftmost point at or above the query, or the first one when there is none |
| ConsistentHash.ConsistentState.FillTable | memcache_consistent_hash.c:116-118 | each of the 1024 buckets gets an owner of position step times the bucket number |
| ConsistentHash.ConsistentState.PopulateBuckets | memcache_consistent_hash.c:111-122 | the table agrees with the ring of all servers added so far |
| ConsistentHash.ConsistentState.AddServer | memcache_consistent_hash.c:197-221 | 160 points per unit of weight are appended for the server, and the table is invalidated |
| ConsistentHash.ConsistentState.Probe | memcache_consistent_hash.c:146-172 | the server that probe k asks owns, on the ring of all points added so far, the position of its bucket; the single-server shortcut included |
| ConsistentHash.ConsistentState.Walk | memcache_consistent_hash.c:160-170 | the failover loop asks the servers of the probe sequence in order, passes over only those that were down, and ends at the first live one or when its attempts are used up; with failover switched off only the first is asked |
| ConsistentHash.ConsistentState.FindServer | memcache_consistent_hash.c:140-194 | after any sequence of additions and lookups: the first live server of the bounded probe sequence, the very first when all are up; the server asked first owns position 4194303 times the hash of the key modulo 1024, and those after it do so for "key-0", "key-1" and so on; the proxy connection is the one for the server asked first; NULL only without a proxy or when all servers asked were down, inside multi operations too |
| ConsistentHash.RingIgnoresOrder | memcache_consistent_hash.c:208-217 | the ring does not depend on the order in which servers were added |
| ConsistentHash.TableIgnoresOrder | memcache_consistent_hash.c:111-122 | nor does the table, when no two servers share a point |
| ConsistentHash.TableMinimalDisruption | memcache_consistent_hash.c:197-221 | after adding a server and repopulating, every bucket holds the server it held before or the new one |
| StandardHash.StandardState.AddServer | memcache_standard_hash.c:137-156 | as many buckets as the weight are appended for the server |
| StandardHash.MmcHashIs | memcache_standard_hash.c:60-64 | the hash is bits 16 to 30, with one in the place of zero |
| StandardHash.StandardState.ProbesAre | memcache_standard_hash.c:84-109 | every probe asks the bucket at a running hash that begins with that of the key and to which the hashes of "1key", "2key" and so on are added, modulo 2^32 |
| StandardHash.StandardState.Walk | memcache_standard_hash.c:99-109 | the failover loop with its accumulated 32-bit hash: the servers of the probe sequence in order, only those passed over that were down, up to the first live one; with failover switched off only the first is asked |
| StandardHash.StandardState.FindServer | memcache_standard_hash.c:84-134 | the first live server of the bounded probe sequence, the very first when all are up; the proxy connection is the one for the server asked first; a failed server only when all asked were down, NULL only without a proxy or, behind one, when a sole server is down |
| Pool.ServerPool.AddServer | memcache.cpp:1277-1293 | the server is listed, and known to the hash strategy with its weight; the state of the strategy is its own or new, so that additions and commands can follow |
| Pool.ServerPool.PoolFind | memcache.cpp:995-1031 | channel guarantee: a server handed out as not failed can be talked to directly, and through the proxy exactly when no closed connection is kept for the server asked first, so always outside multi operations; the integrity mode is what the downstream supports, or no checksums when the pool does not want them; otherwise the proxy is down or the server the lookup ended at is |
| Pool.GetOptions | memcache.cpp:935-1013 | whatever the downstream answers, no status or stream of a pool server changes; nothing is asked that is known, and an answer is remembered for the server and its proxy connection |
| Pool.ServerPool.Try | memcache.cpp:6442-6449 | one iteration, for any retry intervals: a success on a usable server, a failing iteration along the probe sequence of the key, or nobody left to ask; in and out of multi operations |
| Pool.ServerPool.Command | memcache.cpp:6586-6604 | when no server that a lookup of the key may ask has a retry interval of zero, delete, deleteByKey, increment and decrement end after at most 3n failing iterations for n servers, whatever is answered, with a success on a usable server or with nobody left to ask; the iterations that failed are a run |
| Pool.RunsEndExactlyWhen | memcache.cpp:6586-6604 | for any pool, key and state: failing iterations in a row number at most 3n exactly when no server that a lookup of the key may ask has a retry interval of zero; otherwise a failing iteration can lead back to the state it began in |
| Pool.ZeroIntervalCycles | memcache.cpp:912-932 | such a cycle at the lookup: when the servers before probe k stay down and the one it asks has failed with a retry interval of zero, the lookup passes over the former, reopens the latter, and its failure restores the state |
| Pool.TwoServers | memcache.cpp:1277-1293 | from a new pool with either strategy: two additions and a command, with at most six failing iterations |
| Pool.ServerPool.TryStore | memcache.cpp:1375-1567 | one iteration of the store loop, which also ends when the value cannot be compressed; a failing one goes along the probe sequence of the key |
| Pool.SendStore | memcache.cpp:1550-1553 | a store is repeated on reported checksum errors, but over all iterations at most the configured retries minus one times, and it gives up only when these are used up |
| Pool.ServerPool.Store | memcache.cpp:1375-1583 | under the same condition as a command the store loop, inside a multi operation too, ends after at most 3n failing iterations and one send more than these and the checksum repetitions together |
| Pool.StaleLookup | memcache_standard_hash.c:93-130 | inside a multi operation the channel guarantee fails: after a failure on the first server, the next lookup hands out the second, live server with the closed connection of the first |
| Queue.PtrQueue.Item | memcache_queue.h:39 | item i is the i-th element of the queue |
| Queue.GrownKeeps | memcache_queue.c:31-41 | growing a full buffer while it is wrapped keeps every item at its place in the order |
| Queue.PtrQueue.Grow | memcache_queue.c:31-41 | growing by 26 slots changes nothing of the contents |
| Queue.PtrQueue.Push | memcache_queue.c:30-53 | appends, growing when full |
| Queue.PtrQueue.Pop | memcache_queue.c:55-73 | takes the first element, NULL from an empty queue |
| Queue.PtrQueue.Contains | memcache_queue.c:75-87 | membership |
| Queue.PtrQueue.Release | memcache_queue.h:37 | leaves an empty queue |
| Queue.PtrQueue.Remove | memcache_queue.c:108-120 | the elements up to the first NULL, in order, without the one removed |
| Queue.RemoveExactlyWhen | memcache_queue.c:113-117 | this filters out every occurrence and nothing else exactly when only such elements follow the first NULL; always when there is no NULL |
| Queue.WithoutFilters | memcache_queue.c:108-120 | what is removed are the occurrences of the element, and the others keep their order |
| LockStep.Pending.Push | memcache.cpp:2850-2853 | the four queues take one tuple each time |
| LockStep.Pending.Drain | memcache.cpp:2913-2930 | the four queues give back the same tuples in the order pushed |
| Rules.AcceptedIsSafe | parse.cpp:154-266 | for every token list and starting stacks of that shape: an accepted rule has at each inner node two leaves or two inner nodes, a record field on the left of a comparison (a string field under an operator on strings), and no connective on leaves |
| Rules.CheckKeepsSafe | parse.cpp:128-152 | the check passes exactly when the joined tree has this shape |
| RuleContents.AcceptedKeepsOperands | parse.cpp:154-266 | for every token list: an accepted rule has the operands of its words as leaves, in order |
| RuleContents.AcceptedKeepsOperators | parse.cpp:154-266 | it has each operator as often as it was read, but for closed brackets, and an opening bracket that was never closed remains as an operator |
| RulePrinting.SpokenIsRead | parse.cpp:57-115 | which words are fields of which type, and that every word that is neither a field nor an operator is a value |
| RulePrinting.StringsOverRuleAbort | parse.cpp:128-152 | an operator on strings behind a bracketed rule ends the program |
| RulePrinting.ReadBack | parse.cpp:154-266 | the words of a fully bracketed rule put exactly that rule on the operand stack, whatever the stacks hold |
| RulePrinting.PrintParse | parse.cpp:154-266 | printing a rule with full brackets and parsing the words accepts and rebuilds it |
| FlatRules.FlatRuleAccepted | parse.cpp:178-198 | every rule of comparisons joined by & and \| without brackets is accepted, comparisons bind tighter, and connectives nest to the right |
| FlatRules.EndNests | parse.cpp:222-246 | the reductions at the end of a rule build the right nest |
| FlatRules.CloseNests | parse.cpp:200-220 | a closing bracket joins everything above the opening one, nested to the right, and drops it |
| FlatRules.FlatGroupIsOperand | parse.cpp:154-266 | a bracketed group of any number of comparisons is one operand, wherever it stands |
| GroupedRules.RunGroup | parse.cpp:154-266 | so is a bracketed chain of comparisons and bracketed groups, to any depth |
| GroupedRules.GroupedRuleAccepted | parse.cpp:154-266 | every rule of comparisons, connectives and brackets is accepted, comparisons of bracketed rules included, and which tree it stands for: operators nest to the right, except that behind a bracketed item the operator in front of it is joined first when it binds tighter than the next |
| RuleEval.ShortCircuitIsEager | parse.cpp:268-283 | short-circuit evaluation gives what evaluating both sides always gives, which is 0 or 1 |
| RuleEval.EvaluatesToTruth | parse.cpp:268-283 | the evaluator returns 1 for the rules that hold and 0 for the others, where & and \| are the connectives and =, > and < over rules compare truth values |
| RuleEval.ShortCircuitExactlyWhen | include/parser.h:251-253 | leaving the right side out is right exactly because results are 0 or 1, since & and \| work on bits |
| RuleEval.FlatAnd | include/parser.h:107-109 | a flat rule joined by & throughout holds exactly when all its comparisons do |
| RuleEval.FlatOr | include/parser.h:140-142 | a flat rule joined by \| throughout holds exactly when one of its comparisons does |
| RuleParser.EvaluateTree | parse.cpp:268-283 | on an accepted tree the evaluator follows no missing child and takes no inner node for a leaf, and its value is that of the rule |
| RuleParser.CheckNodes | parse.cpp:128-152 | the check on nodes, which only sees children and leaves, decides as the check on trees does |
| RuleParser.ExprParser.PushReducing | parse.cpp:179-199 | an operator other than a closing bracket reduces at most once; ownership of all nodes is kept |
| RuleParser.ExprParser.CloseBracket | parse.cpp:200-220 | a closing bracket reduces down to the opening one and frees it |
| RuleParser.ExprParser.Finish | parse.cpp:222-246 | the end of a rule: one unshared tree holding every live node, or rejection |
| RuleParser.ExprParser.Abandon | parse.cpp:247-260 | on rejection every live node is freed exactly once |
| RuleParser.ExprParser.BuildTree | parse.cpp:154-266 | ends on every token list; refines the machine on values; on acceptance the root is an unshared tree of safe shape holding all live nodes, on rejection none is left |
| RuleParser.ExprParser.DestroyTree | parse.cpp:285-291 | frees each node of a tree exactly once |
| RuleParser.ExprParser.Delete | include/parser.h:280-288 | nothing of an accepted rule stays behind |
| Tokenizer.PrepareKey | memcache.cpp:1119-1135 | refuses the empty key; otherwise its first 250 characters, with an underscore for each blank and control character and all others as they are |
| Tokenizer.SplitLine | memcache.cpp:2753-2761 | a command line splits into the command word and the keys, in order |
| Tokenizer.LineBlanks | memcache.cpp:5287-5293 | a command line has exactly one blank in front of each key, and none elsewhere |
| Batches.RequestText | memcache.cpp:5287-5293 | a request is the word "gets" and its keys, in order, one blank in front of each |
| Tokenizer.TokenizeCommand | memcache.cpp:2634-2670 | in place: the tokens are the words of the line as C strings, in order, up to the limit, and the last token is NULL exactly when nothing is left over |
| Tokenizer.LineTokens | memcache.cpp:2634-2670 | with at most 1022 keys all words come back and the terminator is NULL; otherwise exactly the first 1023 words and a remainder |
| MultiGet.TakeApart | memcache.cpp:5147-5153 | the names recovered from a command line, which is cut off after the command word |
| MultiGet.UpdateResult | memcache.cpp:5143-5158 | exactly the recovered keys that are reported on get status false |
| Outcomes.MarkingIsComplete | memcache.cpp:5149-5154 | all keys of a failed request are marked exactly when there are at most 1022 |
| Outcomes.ReplayAt | memcache.cpp:5241-5405 | what is reported for a key follows from what happened to that key: the last thing noted, and the last plain or else the first serialized value |
| Outcomes.FinalTold | memcache.cpp:5341-5445 | what is reported for a key, by positions in the log: the text of the last plain value; if only serialized ones came, what the first unserializes to, null for null and false when it is broken; null if none came; and status true exactly when a value followed every failure and a serialized value that came first was not broken |
| Outcomes.MissExactlyWhen | memcache.cpp:5423-5445 | a key ends with status true and no value exactly when nothing was noted about it and no value came, or when the last thing noted is not a failure and the value kept is a serialized null |
| Outcomes.FailedKeyEndsAsMissExactlyWhen | memcache.cpp:2228-2278 | honest misses: a key for which a failure was noted ends as a plain miss exactly in the second case |
| Rounds.NullAfterFailure | memcache.cpp:5317-5445 | two rounds that are a whole run, with a failed send, a failover and a serialized null, make such a case |
| Rounds.RoundsAreBounded | memcache.cpp:5412-5417 | rounds that follow one another as the loop lets them number at most F + max(C,1) + 1, for a failover limit of F attempts and C checksum retries |
| Rounds.RoundsHaveReasons | memcache.cpp:5412-5417 | a round follows exactly when a request of the one before was not sent or not read to its end, within the failover limit, or it had checksum mismatches and retries are left |
| Rounds.AskedForExactlyWhen | memcache.cpp:5276-5305 | a key is asked for in a round exactly when it is the first one, or a failure is made up for and no value came for the key before, or it had a checksum mismatch in the round before |
| Rounds.EveryKeyIsAsked | memcache.cpp:5276-5305 | every key with a usable shard key is in a request of the first round, or it is noted that no live server was found for it |
| Rounds.MissWasAskedFor | memcache.cpp:5208-5417 | a key about which nothing was noted and no value came was in a request of the first round, and every request with it among its first 1022 keys was sent and answered to the end without a word about it |
| Outcomes.FailuresAreNoted | memcache.cpp:5143-5158 | every failed lookup, send or read is noted for the keys it had to do with, but for those behind the 1022nd of a failed request |
| Outcomes.NoneBeyond | memcache.cpp:5143-5158 | there are none of these when no request carried more than 1022 keys |
| Batches.EachInOneBuffer | memcache.cpp:5287-5293 | each key occurrence written is in exactly one buffer |
| Batches.ListMore | memcache.cpp:5287-5290 | the requests are different servers, so never more than there are servers |
| MultiGet.MultiGetByKey.Schedule | memcache.cpp:5284-5305 | a due key is written for a live server, or marked as failed |
| MultiGet.MultiGetByKey.FirstPass | memcache.cpp:5212-5307 | every occurrence of a due key is in exactly one buffer, or had no live server and is noted so; every key is reported on; values stay |
| MultiGet.MultiGetByKey.SecondPass | memcache.cpp:5310-5322 | every request is carried with its line kept, and exactly those that could not be sent are lost, which marks their recoverable keys |
| MultiGet.MultiGetByKey.FailRequest | memcache.cpp:5402-5404 | marks the recovered keys of the line; a line tokenized before names none, and then its keys had failed already |
| MultiGet.MultiGetByKey.Receive | memcache.cpp:5341-5397 | each kind of answer for a reported key is taken in as it is noted, checksum errors are collected, and serialized values wait in the four queues |
| MultiGet.MultiGetByKey.ReadRequest | memcache.cpp:5333-5405 | the answers of a server are taken in one after the other; if reading fails the request is lost, which marks its keys unless its line was taken apart before |
| MultiGet.MultiGetByKey.ThirdPass | memcache.cpp:5331-5410 | exactly the servers that are not down are read from, in order; afterwards all buffers are empty |
| MultiGet.MultiGetByKey.PostProcess | memcache.cpp:5421-5451 | the values taken out of the four queues are unserialized each in its place; null stays null, and one that cannot be unserialized makes the status false |
| MultiGet.MultiGetByKey.Round | memcache.cpp:5210-5410 | what one round notes: for each input what its lookup gave, each occurrence of a due key in exactly one request or without a server, the sends, and what was read from each server; only a request not sent goes unread |
| MultiGet.MultiGetByKey.Rounds | memcache.cpp:5208-5417 | the log grows by what the rounds note; each round follows for the reason the loop gives, a failure within the failover limit or checksum mismatches within the retries, and after the last one neither holds |
| MultiGet.MultiGetByKey.Run | memcache.cpp:5208-5451 | for any number of keys and servers: the log is what the rounds note, and value and status of each key follow from it as in Outcomes.FinalTold; a key ends as a plain miss exactly as in Outcomes.MissExactlyWhen, and unless a serialized null is kept it was asked for in vain as in Rounds.MissWasAskedFor; failures are noted but for keys behind the 1022nd of a failed request, and none are when no request carried more; rounds are bounded; all buffers end empty; every key is reported on |
| Response.ParseResponse | memcache.cpp:2145-2219 | the header is taken apart at its blanks: word by word what the grammar of the line says, or malformed |
| Response.HeaderExactlyWhen | memcache.cpp:2161-2216 | a line is taken for a header exactly when it begins with "VALUE ", has the blanks expected and no negative number in it |
| Response.HeaderReadsBack | memcache.cpp:2145-2219 | a header with or without checksum and cas value, written out in full, is read back as what was put into it |
| StoredValue.ChecksumCrc32 | memcache.cpp:1325-1337 | the checksum of several pieces is the checksum of their concatenation |
| StoredValue.PrepareStore | memcache.cpp:1409-1490 | what the first store attempt sends for the flags and the value given: all bits but the three for compression stay; which of these are set, for every threshold, level and library, and whether the value or its compressed form is sent; append and prepend send no flags; and the checksum header |
| StoredValue.SumsAre | memcache.cpp:1466-1488 | the text of the checksum header, in all three integrity modes |
| StoredValue.FlagBytesAre | memcache.cpp:1339-1347 | the bytes that stand for the flags in a checksum make up their 32 bits |
| StoredValue.CrcIs | memcache.cpp:1325-1337 | a checksum is built up byte by byte from all ones and complemented in the end |
| Flags.SetAndCleared | memcache.cpp:1414-1459 | setting or clearing a flag bit changes that bit only |
| Flags.BitIs | memcache.cpp:1414-1459 | a flag bit is the place of a power of two |
| StoredValue.Uncompress | memcache.cpp:1738-1769 | buffers of 2 to 2^15 times the data are tried until one is large enough |
| StoredValue.InflatingTries | memcache.cpp:1738-1769 | in general: the first of these buffer sizes that is not too small decides |
| StoredValue.InflatesBack | memcache.cpp:1738-1757 | a compressed value comes back exactly when it is at most 2^15 times as long, or bzip2 enlarges the buffer itself |
| StoredValue.ReadBody | memcache.cpp:2989-2996 | the body is read completely, in portions of any size, or reading fails |
| StoredValue.ReadSums | memcache.cpp:3108-3192 | the checksums a header gives, or that it cannot be used |
| StoredValue.ReadOldSums | memcache.cpp:3024-3106 | the checksums in front of a value of the old style, or that its format is wrong |
| StoredValue.OldSumsReadBack | memcache.cpp:3024-3106 | checksums written in front of a value are read back, and the value starts right behind them |
| StoredValue.SameCodec | memcache.cpp:1747-1757 | the reader's choice of a codec is the writer's, for all flags |
| StoredValue.ReadValue | memcache.cpp:2956-3277 | what is read from a header line and the stream: new and old checksums, decompression, all error cases |
| StoredValue.RepliesExactlyWhen | memcache.cpp:2970-2996 | the end of the values is told by "END"; what cannot be read are lines that are no header, and bodies that are not complete |
| StoredValue.DecodesTo | memcache.cpp:3108-3277 | what becomes of a body whose checksums are in the header, in every mode: the value, a mismatch of which bytes, or undecodable, for every combination of flags, metadata bits and checksums |
| StoredValue.DecodesWithout | memcache.cpp:3108-3122 | without checksums on the connection nothing is checked; otherwise a header without them is a mismatch |
| StoredValue.DecodesOldTo | memcache.cpp:3024-3106 | what becomes of a body with its checksums in front, for every combination of fields and flags; they are held against the bytes alone |
| StoredValue.FieldIs | memcache.cpp:3041-3068 | a field is what stands in front of the first carriage return, at most 50 bytes with a number in range |
| StoredValue.PlainSumsRead | memcache.cpp:1482-1488 | the header of a plain value is read back as its checksum |
| StoredValue.KeptSumsRead | memcache.cpp:1482-1488 | the header of a compressed value is read back as both checksums, and is unusable when the first is zero |
| StoredValue.DecodesBack | memcache.cpp:1409-1490 | what was sent is decoded to the original bytes exactly when it survives, and never to others; writer and reader pick the same codec |
| StoredValue.RoundTrip | memcache.cpp:2956-3277 | for any flags without the old checksum bit, any mode, with or without cas: key and length come back, and the flags given but for the three compression bits (none for append); the bytes are the original ones exactly when the value survives, and never others |
| StoredValue.IntegrityIsSound | memcache.cpp:2956-3254 | in CRC mode, without the OFF bit and the old style, a value is read exactly when the header line can be taken apart, the body is complete, no mismatch bit is set and every nonzero checksum equals the one recomputed over the bytes with the flags, and over the decompressed bytes |
| StoredValue.ChangesAreDetected | memcache.cpp:3194-3254 | flags and bytes that come back with the checksums of a stored value are read as a value only if their own checksum is the stored one, unless the flags say that the value carries its own |
| StoredValue.OldStyleIsOnItsOwn | memcache.cpp:3024-3106 | with the bit of the old style set, the checksums in the header are not looked at |

## Left out

- Pool.ServerPool.Command: assumes that the clock stands still during the call, and `Patient`, which `Pool.RunsEndExactlyWhen` shows to be necessary; before a consistent table is filled `Patient` speaks of all owners of the positions asked for, one of which the sort will put there.
- Pool.ServerPool.Store: follows statuses, failures and sends; what is sent is the subject of `StoredValue`.
- Pool.Send: sending to a closed connection is a failed send, and so is asking for options on one; the source passes a NULL stream on.
- MultiGet.MultiGetByKey.Lookup: chooses any live server; it is not tied to `PoolFind`, and a server handed out with a closed connection, as in `Pool.StaleLookup`, is one whose send fails.
- MultiGet.MultiGetByKey.Send: servers are numbers with a flag for being down, and a send to a server that is down fails, where the source uses its NULL stream (memcache.cpp:2112).
- MultiGet.MultiGetByKey.PostProcess: what unserializing yields is a parameter; a serialized value that a later plain one has replaced is treated as still there when its turn comes, where the source has freed it; igbinary support is taken to be compiled in.
- StoredValue.RoundTrip: states the first store attempt; a later one starts from the value and flags the first one changed. Lengths and flags are not bounded to 32 bits.
- StoredValue.ReadOldSums: a field of 50 characters without a carriage return is taken to end there, where the source's buffer has no terminator.
- StoredValue.ChecksumCrc32: the CRC step is a parameter; the bytes of the flags are in little-endian order.
- ConsistentHash.ConsistentState.AddServer: the number of points is not bounded to 32 bits.
- ConsistentHash.ConsistentState.PopulateBuckets: sorting is a method that only promises an ascending permutation, as for `qsort`.
- RuleParser.EvaluateTree: how a field compares with an operand is a parameter, so right operands that are field names have some value.
- Compression and serialization libraries, and the tables behind CRC and the hash functions: parameters; decompression is assumed to undo compression, into a buffer that is large enough for zlib and LZO, into any buffer for bzip2.
- Proxy connections are assumed not to be servers of the pool, and failure callbacks not to touch the pool.
- The end of a multi operation, which frees the kept proxy connections, and `proxy_connect_failed` being reset with the module.
- The get and getl loops for a single key: they go on after a value that cannot be decoded without marking the server.
- The plain multi-get: the same three passes with another test for keys that are due; its status per key is not set back after a retry that succeeds.
- The cas values remembered for stores, expiry times, and the request line of a store apart from flags, checksum header and body.
- `mmc_queue_copy`: it drops the result of a reallocation.
- Statistics, version and flush commands, sessions, INI and resource handling, logging and its configuration files: no invariant of interest.
