/** Rules with brackets anywhere: any such rule is accepted, and which tree it stands for. */
module GroupedRules {
  import opened Rules
  import opened RulePrinting
  import opened FlatRules

  /** Items with operators between them; an item is a comparison, or such a chain in brackets. */
  datatype Item = Comparison(t: Tree) | Group(chain: Chain)
  datatype Chain = Last(item: Item) | More(item: Item, conn: Opr, rest: Chain)

  /** Bracketed items can also be compared with one another; comparisons stand between connectives only. `plain` tells
      that no comparing operator is in front. */
  predicate Proper(c: Chain, plain: bool) {
    && ProperItem(c.item) && (c.item.Comparison? ==> plain && (c.More? ==> c.conn.Connective()))
    && (c.More? ==> JoinsRules(c.conn) && Proper(c.rest, c.conn.Connective()))
  }

  predicate ProperItem(i: Item) {
    match i
    case Comparison(t) => IsComparison(t)
    case Group(c) => Proper(c, true)
  }

  function ItemWords(i: Item): seq<string>
    requires ProperItem(i)
  {
    match i
    case Comparison(t) => Bare(t)
    case Group(c) => ["("] + ChainWords(c) + [")"]
  }

  function ChainWords(c: Chain): seq<string>
    requires Proper(c, true) || Proper(c, false)
  {
    match c
    case Last(i) => ItemWords(i)
    case More(i, conn, rest) => ItemWords(i) + ([Word(conn)] + ChainWords(rest))
  }

  /** A chain in the making: trees and the operators between them, with one tree still to come. */
  datatype Joined = Joined(trees: seq<Tree>, conns: seq<Opr>)

  /** How tightly the operators between rules bind. */
  function Binding(op: Opr): nat {
    match op
    case Or => 0
    case And => 1
    case Equal => 2
    case Greater => 3
    case Less => 4
    case _ => 5
  }

  /** One more tree and the operator behind it. Operators nest to the right, but for one case: behind a bracketed item
      the operator in front of it is joined when it binds tighter; only this one is. */
  function Join(j: Joined, t: Tree, grouped: bool, conn: Opr): Joined {
    var n := |j.conns|;
    if grouped && n > 0 && |j.trees| == n && Binding(j.conns[n - 1]) > Binding(conn) then
      Joined(j.trees[..n - 1] + [Inner(j.conns[n - 1], j.trees[n - 1], t)], j.conns[..n - 1] + [conn])
    else Joined(j.trees + [t], j.conns + [conn])
  }

  function JoinAll(j: Joined, c: Chain): Joined
    decreases c, 0
  {
    match c
    case Last(i) => Joined(j.trees + [ItemTree(i)], j.conns)
    case More(i, conn, rest) => JoinAll(Join(j, ItemTree(i), i.Group?, conn), rest)
  }

  /** The tree that an item stands for. */
  function ItemTree(i: Item): Tree
    decreases i
  {
    match i
    case Comparison(t) => t
    case Group(c) => ChainTree(c)
  }

  function ChainTree(c: Chain): Tree
    decreases c, 1
  {
    var j := JoinAll(Joined([], []), c);
    if |j.trees| == |j.conns| + 1 then RightNest(j.trees, j.conns) else Leaf(Value(""))
  }

  /** Trees of the accepted shape, with operators between them. */
  ghost predicate Sound(j: Joined) {
    && (forall t <- j.trees :: Safe(t)) && forall conn <- j.conns :: JoinsRules(conn)
  }

  lemma {:induction false} NestIsSafe(cs: seq<Tree>, conns: seq<Opr>)
    requires |cs| == |conns| + 1 && Sound(Joined(cs, conns))
    ensures Safe(RightNest(cs, conns))
  {
    assert cs[0] in cs;
    if conns != [] {
      assert cs[1] in cs && conns[0] in conns;
      NestIsSafe(cs[1..], conns[1..]);
    }
  }

  lemma JoinIsSound(j: Joined, t: Tree, grouped: bool, conn: Opr)
    requires Sound(j) && |j.trees| == |j.conns| && Safe(t) && JoinsRules(conn)
    ensures Sound(Join(j, t, grouped, conn))
    ensures |Join(j, t, grouped, conn).trees| == |Join(j, t, grouped, conn).conns|
  {
    var n := |j.conns|;
    if n > 0 {
      assert j.trees[n - 1] in j.trees && j.conns[n - 1] in j.conns;
    }
  }

  lemma {:induction false} JoinAllIsSound(j: Joined, c: Chain)
    requires (Proper(c, true) || Proper(c, false)) && Sound(j) && |j.trees| == |j.conns|
    ensures Sound(JoinAll(j, c)) && |JoinAll(j, c).trees| == |JoinAll(j, c).conns| + 1
    decreases c
  {
    ItemIsSafe(c.item);
    match c
    case Last(i) =>
    case More(i, conn, rest) =>
      JoinIsSound(j, ItemTree(i), i.Group?, conn);
      JoinAllIsSound(Join(j, ItemTree(i), i.Group?, conn), rest);
  }

  lemma {:induction false} ItemIsSafe(i: Item)
    requires ProperItem(i)
    ensures Safe(ItemTree(i))
    decreases i
  {
    match i
    case Comparison(_) =>
    case Group(c) =>
      JoinAllIsSound(Joined([], []), c);
      var j := JoinAll(Joined([], []), c);
      NestIsSafe(j.trees, j.conns);
  }

  /** The stacks with a chain in the making above `s`. */
  function Above(s: Stacks, j: Joined): Stacks {
    Stacks(s.oprs + j.conns, s.opnds + j.trees)
  }

  /** An operator behind a bracketed item. */
  lemma OperatorAfterGroup(s: Stacks, j: Joined, t: Tree, conn: Opr)
    requires s.oprs == [] || s.Top() == Open
    requires Sound(j) && |j.trees| == |j.conns| && Safe(t) && JoinsRules(conn)
    ensures OnOperator(With(Above(s, j), t), conn) == Go(Above(s, Join(j, t, true, conn)))
  {
    var s' := With(Above(s, j), t);
    var n := |j.conns|;
    if n > 0 && Binding(j.conns[n - 1]) > Binding(conn) {
      JoinsTop(s, j, t, conn);
    } else {
      assert n > 0 ==> j.conns[n - 1] in j.conns && s'.Top() == j.conns[n - 1];
      assert n == 0 ==> s'.oprs == s.oprs;
      assert s'.oprs + [conn] == s.oprs + (j.conns + [conn]);
      assert s'.opnds == s.opnds + (j.trees + [t]);
    }
  }

  lemma JoinsTop(s: Stacks, j: Joined, t: Tree, conn: Opr)
    requires Sound(j) && |j.trees| == |j.conns| > 0 && Safe(t) && JoinsRules(conn)
    requires Binding(j.conns[|j.conns| - 1]) > Binding(conn)
    ensures OnOperator(With(Above(s, j), t), conn) == Go(Above(s, Join(j, t, true, conn)))
  {
    hide RightNest;
    var s' := With(Above(s, j), t);
    var n := |j.conns|;
    var op, top := j.conns[n - 1], j.trees[n - 1];
    assert op in j.conns && s'.Top() == op;
    assert s'.opnds[|s'.opnds| - 2] == top && s'.opnds[|s'.opnds| - 1] == t;
    assert top in j.trees && s'.Checked() == Fine;
    assert s'.oprs[..|s'.oprs| - 1] == s.oprs + j.conns[..n - 1];
    assert s'.opnds[..|s'.opnds| - 2] == s.opnds + j.trees[..n - 1];
    assert s.oprs + j.conns[..n - 1] + [conn] == s.oprs + (j.conns[..n - 1] + [conn]);
    assert s.opnds + j.trees[..n - 1] + [Inner(op, top, t)] == s.opnds + (j.trees[..n - 1] + [Inner(op, top, t)]);
  }

  lemma {:induction false} RunChain(c: Chain, plain: bool, j: Joined, tail: seq<string>, s: Stacks)
    requires Proper(c, plain) && Sound(j) && |j.trees| == |j.conns| && Ends(tail)
    requires plain ==> j.conns == [] || j.conns[|j.conns| - 1].Connective()
    requires (s.oprs == [] || s.Top() == Open) && Close !in s.oprs
    ensures RunWords(ChainWords(c) + tail, Above(s, j)) == RunWords(tail, Above(s, JoinAll(j, c)))
    decreases c, 0
  {
    hide RunWords, Ends, IsComparison, ItemWords, Above, Sound;
    match c
    case Last(i) =>
      RunItemThenEnd(i, plain, j, tail, s);
    case More(i, conn, rest) =>
      assert ChainWords(c) + tail == ItemWords(i) + ([Word(conn)] + (ChainWords(rest) + tail));
      ItemIsSafe(i);
      RunItemThenOperator(i, plain, j, conn, ChainWords(rest) + tail, s);
      JoinIsSound(j, ItemTree(i), i.Group?, conn);
      RunChain(rest, conn.Connective(), Join(j, ItemTree(i), i.Group?, conn), tail, s);
  }

  lemma RunItemThenEnd(i: Item, plain: bool, j: Joined, tail: seq<string>, s: Stacks)
    requires ProperItem(i) && (i.Comparison? ==> plain) && Sound(j) && |j.trees| == |j.conns| && Ends(tail)
    requires plain ==> j.conns == [] || j.conns[|j.conns| - 1].Connective()
    requires (s.oprs == [] || s.Top() == Open) && Close !in s.oprs
    ensures RunWords(ItemWords(i) + tail, Above(s, j)) == RunWords(tail, Above(s, JoinAll(j, Last(i))))
    decreases i, 2
  {
    hide RunWords, Ends, IsComparison;
    OpensAbove(s, j, plain);
    assert With(Above(s, j), ItemTree(i)) == Above(s, JoinAll(j, Last(i)));
    match i
    case Comparison(t) =>
      RunThenEnd(t, tail, Above(s, j));
    case Group(c) =>
      RunGroup(c, tail, Above(s, j));
  }

  lemma RunItemThenOperator(i: Item, plain: bool, j: Joined, conn: Opr, rest: seq<string>, s: Stacks)
    requires ProperItem(i) && (i.Comparison? ==> plain && conn.Connective()) && JoinsRules(conn)
    requires Sound(j) && |j.trees| == |j.conns| && (plain ==> j.conns == [] || j.conns[|j.conns| - 1].Connective())
    requires (s.oprs == [] || s.Top() == Open) && Close !in s.oprs
    ensures RunWords(ItemWords(i) + ([Word(conn)] + rest), Above(s, j))
         == RunWords(rest, Above(s, Join(j, ItemTree(i), i.Group?, conn)))
    decreases i, 2
  {
    hide RunWords, IsComparison;
    OpensAbove(s, j, plain);
    match i
    case Comparison(t) =>
      RunThenConnective(t, conn, rest, Above(s, j));
      assert Stacks(Above(s, j).oprs + [conn], Above(s, j).opnds + [t]) == Above(s, Join(j, t, false, conn));
    case Group(c) =>
      RunGroup(c, [Word(conn)] + rest, Above(s, j));
      RunWord(Word(conn), rest, With(Above(s, j), ItemTree(i)));
      ItemIsSafe(i);
      OperatorAfterGroup(s, j, ItemTree(i), conn);
      assert Classify(Word(conn)) == Operator(conn);
  }

  lemma OpensAbove(s: Stacks, j: Joined, plain: bool)
    requires (s.oprs == [] || s.Top() == Open) && Close !in s.oprs && Sound(j)
    requires plain ==> j.conns == [] || j.conns[|j.conns| - 1].Connective()
    ensures (plain ==> OpensRule(Above(s, j))) && Close !in Above(s, j).oprs
  {
    var oprs := Above(s, j).oprs;
    if j.conns != [] {
      assert oprs[|oprs| - 1] == j.conns[|j.conns| - 1];
    } else {
      assert oprs == s.oprs;
    }
  }

  /** A rule in brackets is one operand, wherever it stands. */
  lemma {:induction false} RunGroup(c: Chain, rest: seq<string>, s: Stacks)
    requires Proper(c, true) && Close !in s.oprs
    ensures RunWords(ItemWords(Group(c)) + rest, s) == RunWords(rest, With(s, ChainTree(c)))
    decreases c, 1
  {
    hide RunWords, OnClose, ChainWords;
    var open, tail := s.(oprs := s.oprs + [Open]), [")"] + rest;
    var none := Joined([], []);
    var j := JoinAll(none, c);
    assert ItemWords(Group(c)) + rest == ["("] + (ChainWords(c) + tail);
    assert s.oprs != [] ==> s.Top() in s.oprs;
    RunOpr(Open, ChainWords(c) + tail, s);
    assert Above(open, none) == open;
    RunChain(c, true, none, tail, open);
    JoinAllIsSound(none, c);
    CloseNests(s, j.trees, j.conns);
    RunEnd(tail, Above(open, j));
    assert tail[1..] == rest;
  }

  /** Every rule of comparisons, connectives and brackets is accepted, and so are comparisons of bracketed rules. */
  lemma GroupedRuleAccepted(c: Chain)
    requires Proper(c, true)
    ensures RunWords(ChainWords(c), EMPTY) == Accepted(ChainTree(c)) && Safe(ChainTree(c))
  {
    var none := Joined([], []);
    var j := JoinAll(none, c);
    RunChain(c, true, none, [], EMPTY);
    JoinAllIsSound(none, c);
    NestIsSafe(j.trees, j.conns);
    SoundEnds(j);
    hide ChainWords, OnEnd, RightNest, JoinAll, Safe, Proper, Tokens;
    assert Above(EMPTY, none) == EMPTY && ChainWords(c) + [] == ChainWords(c);
    assert RunWords([], Above(EMPTY, j)) == OnEnd(Above(EMPTY, j));
  }

  lemma SoundEnds(j: Joined)
    requires Sound(j) && |j.trees| == |j.conns| + 1
    ensures OnEnd(Above(EMPTY, j)) == Accepted(RightNest(j.trees, j.conns))
  {
    hide OnEnd, RightNest, Safe;
    assert [] + j.conns == j.conns && [] + j.trees == j.trees;
    EndNests(j.trees, j.conns);
  }
}
