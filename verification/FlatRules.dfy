/** Rules without brackets: comparisons bind first, and the connectives nest to the right. */
module FlatRules {
  import opened Rules
  import opened RulePrinting

  predicate IsComparison(t: Tree) {
    Printable(t) && t.left.Leaf?
  }

  /** An operator that can stand between two rules. */
  predicate JoinsRules(op: Opr) {
    op.Connective() || op.Equal? || op.Greater? || op.Less?
  }

  ghost predicate IsFlat(cs: seq<Tree>, conns: seq<Opr>) {
    && |cs| == |conns| + 1
    && (forall i :: 0 <= i < |cs| ==> IsComparison(cs[i]))
    && forall i :: 0 <= i < |conns| ==> conns[i].Connective()
  }

  function Bare(t: Tree): seq<string>
    requires IsComparison(t)
  {
    [Show(t.left.operand), Word(t.op), Show(t.right.operand)]
  }

  /** The words of a rule without brackets. */
  function FlatWords(cs: seq<Tree>, conns: seq<Opr>): seq<string>
    requires IsFlat(cs, conns)
  {
    if conns == [] then Bare(cs[0])
    else Bare(cs[0]) + ([Word(conns[0])] + FlatWords(cs[1..], conns[1..]))
  }

  /** The grouping to the right: `a & (b | (c & d))`. */
  function RightNest(cs: seq<Tree>, conns: seq<Opr>): Tree
    requires |cs| == |conns| + 1
  {
    if conns == [] then cs[0] else Inner(conns[0], cs[0], RightNest(cs[1..], conns[1..]))
  }

  /** A comparison may begin: nothing but a connective or an opening bracket is on top. */
  predicate OpensRule(s: Stacks) {
    s.oprs == [] || s.Top().Connective() || s.Top() == Open
  }

  lemma RunBare(t: Tree, rest: seq<string>, s: Stacks)
    requires IsComparison(t) && OpensRule(s)
    ensures RunWords(Bare(t) + rest, s)
         == RunWords(rest, Stacks(s.oprs + [t.op], s.opnds + [t.left] + [t.right]))
  {
    var a, o, b := Show(t.left.operand), Word(t.op), Show(t.right.operand);
    var s1 := With(s, t.left);
    var s2 := s1.(oprs := s1.oprs + [t.op]);
    assert Bare(t) + rest == [a] + ([o] + ([b] + rest));
    RunOperand(t.left.operand, [o] + ([b] + rest), s);
    RunOpr(t.op, [b] + rest, s1);
    RunOperand(t.right.operand, rest, s2);
  }

  lemma ReducesTo(s: Stacks, t: Tree, s': Stacks)
    requires IsComparison(t) && s' == Stacks(s.oprs + [t.op], s.opnds + [t.left] + [t.right])
    ensures s'.Checked() == Fine && s'.Reduced() == With(s, t)
  {
    assert s'.oprs[..|s'.oprs| - 1] == s.oprs;
    assert s'.opnds[..|s'.opnds| - 2] == s.opnds;
  }

  /** A comparison is joined when the connective after it is read; the connective before it stays. */
  lemma RunThenConnective(t: Tree, conn: Opr, rest: seq<string>, s: Stacks)
    requires IsComparison(t) && conn.Connective() && OpensRule(s)
    ensures RunWords(Bare(t) + ([Word(conn)] + rest), s) == RunWords(rest, Stacks(s.oprs + [conn], s.opnds + [t]))
  {
    var s' := Stacks(s.oprs + [t.op], s.opnds + [t.left] + [t.right]);
    RunBare(t, [Word(conn)] + rest, s);
    ReducesTo(s, t, s');
    assert Classify(Word(conn)) == Operator(conn);
    RunWord(Word(conn), rest, s');
    assert OnOperator(s', conn) == Go(Stacks(s.oprs + [conn], s.opnds + [t]));
  }

  /** What ends a rule: the end of the words, or a closing bracket. */
  predicate Ends(tail: seq<string>) {
    tail == [] || tail[0] == ")"
  }

  lemma RunEnd(tail: seq<string>, s: Stacks)
    requires Ends(tail)
    ensures RunWords(tail, s)
         == if tail == [] then OnEnd(s)
            else match OnClose(s) case Stop(outcome) => outcome case Go(s') => RunWords(tail[1..], s')
  {
    if tail != [] {
      assert tail == [")"] + tail[1..];
      RunWord(")", tail[1..], s);
    }
  }

  /** A comparison is joined when the rule ends. */
  lemma RunThenEnd(t: Tree, tail: seq<string>, s: Stacks)
    requires IsComparison(t) && OpensRule(s) && Ends(tail)
    ensures RunWords(Bare(t) + tail, s) == RunWords(tail, With(s, t))
  {
    hide RunWords;
    var s' := Stacks(s.oprs + [t.op], s.opnds + [t.left] + [t.right]);
    RunBare(t, tail, s);
    ReducesTo(s, t, s');
    RunEnd(tail, s');
    RunEnd(tail, With(s, t));
    assert OnEnd(s') == OnEnd(With(s, t)) && OnClose(s') == OnClose(With(s, t));
  }

  lemma {:induction false} RunFlat(cs: seq<Tree>, conns: seq<Opr>, tail: seq<string>, s: Stacks)
    requires IsFlat(cs, conns) && OpensRule(s) && Ends(tail)
    ensures RunWords(FlatWords(cs, conns) + tail, s) == RunWords(tail, Stacks(s.oprs + conns, s.opnds + cs))
  {
    hide RunWords, OnEnd, IsComparison;
    if conns == [] {
      RunThenEnd(cs[0], tail, s);
      assert cs == [cs[0]] && s.oprs + conns == s.oprs;
    } else {
      var s1 := Stacks(s.oprs + [conns[0]], s.opnds + [cs[0]]);
      var words := FlatWords(cs[1..], conns[1..]);
      assert FlatWords(cs, conns) + tail == Bare(cs[0]) + ([Word(conns[0])] + (words + tail));
      RunThenConnective(cs[0], conns[0], words + tail, s);
      RunFlat(cs[1..], conns[1..], tail, s1);
      assert conns == [conns[0]] + conns[1..] && cs == [cs[0]] + cs[1..];
      assert s1.oprs + conns[1..] == s.oprs + conns;
      assert s1.opnds + cs[1..] == s.opnds + cs;
    }
  }

  /** Joining the last two trees first does not change the nest. */
  lemma {:induction false} NestLastFirst(cs: seq<Tree>, conns: seq<Opr>)
    requires |cs| == |conns| + 1 && conns != []
    ensures RightNest(cs, conns)
         == RightNest(cs[..|cs| - 2] + [Inner(conns[|conns| - 1], cs[|cs| - 2], cs[|cs| - 1])], conns[..|conns| - 1])
  {
    var last := Inner(conns[|conns| - 1], cs[|cs| - 2], cs[|cs| - 1]);
    var cs', conns' := cs[..|cs| - 2] + [last], conns[..|conns| - 1];
    if |conns| > 1 {
      NestLastFirst(cs[1..], conns[1..]);
      assert cs'[1..] == cs[1..][..|cs| - 3] + [last];
      assert conns'[1..] == conns[1..][..|conns| - 2];
    }
  }

  lemma {:induction false} EndNests(cs: seq<Tree>, conns: seq<Opr>)
    requires |cs| == |conns| + 1 && (forall i :: 0 <= i < |cs| ==> Safe(cs[i]))
    requires forall i :: 0 <= i < |conns| ==> JoinsRules(conns[i])
    ensures OnEnd(Stacks(conns, cs)) == Accepted(RightNest(cs, conns))
    decreases |conns|
  {
    if conns != [] {
      var s := Stacks(conns, cs);
      assert s.Checked() == Fine && Safe(s.Joined());
      NestLastFirst(cs, conns);
      EndNests(s.Reduced().opnds, s.Reduced().oprs);
    }
  }

  /** A closing bracket joins all that stands above the opening one, to the right. */
  lemma {:induction false} CloseNests(s: Stacks, cs: seq<Tree>, conns: seq<Opr>)
    requires |cs| == |conns| + 1 && (forall i :: 0 <= i < |cs| ==> Safe(cs[i]))
    requires forall i :: 0 <= i < |conns| ==> JoinsRules(conns[i])
    ensures OnClose(Stacks(s.oprs + [Open] + conns, s.opnds + cs)) == Go(With(s, RightNest(cs, conns)))
    decreases |conns|
  {
    var all := Stacks(s.oprs + [Open] + conns, s.opnds + cs);
    if conns == [] {
      assert all.oprs[..|all.oprs| - 1] == s.oprs && cs == [cs[0]];
    } else {
      var cs' := cs[..|cs| - 2] + [Inner(conns[|conns| - 1], cs[|cs| - 2], cs[|cs| - 1])];
      var conns' := conns[..|conns| - 1];
      assert all.Top() == conns[|conns| - 1] && all.opnds[|all.opnds| - 2] == cs[|cs| - 2];
      assert all.opnds[|all.opnds| - 1] == cs[|cs| - 1];
      assert all.Checked() == Fine && Safe(all.Joined());
      assert all.Reduced() == Stacks(s.oprs + [Open] + conns', s.opnds + cs');
      NestLastFirst(cs, conns);
      CloseNests(s, cs', conns');
    }
  }

  /** Every rule without brackets is accepted, and grouped to the right. */
  lemma FlatRuleAccepted(cs: seq<Tree>, conns: seq<Opr>)
    requires IsFlat(cs, conns)
    ensures RunWords(FlatWords(cs, conns), EMPTY) == Accepted(RightNest(cs, conns))
  {
    hide FlatWords, OnEnd, RightNest;
    RunFlat(cs, conns, [], EMPTY);
    assert FlatWords(cs, conns) + [] == FlatWords(cs, conns);
    assert [] + conns == conns && [] + cs == cs;
    EndNests(cs, conns);
  }

  /** In brackets, such a rule of any length is one operand, wherever it stands. */
  lemma FlatGroupIsOperand(cs: seq<Tree>, conns: seq<Opr>, rest: seq<string>, s: Stacks)
    requires IsFlat(cs, conns) && Close !in s.oprs
    ensures RunWords(["("] + FlatWords(cs, conns) + [")"] + rest, s) == RunWords(rest, With(s, RightNest(cs, conns)))
  {
    hide RunWords, FlatWords, OnClose, RightNest;
    var open := s.(oprs := s.oprs + [Open]);
    var tail := [")"] + rest;
    assert ["("] + FlatWords(cs, conns) + [")"] + rest == ["("] + (FlatWords(cs, conns) + tail);
    assert s.oprs != [] ==> s.Top() in s.oprs;
    RunOpr(Open, FlatWords(cs, conns) + tail, s);
    RunFlat(cs, conns, tail, open);
    CloseNests(s, cs, conns);
    RunEnd(tail, Stacks(open.oprs + conns, open.opnds + cs));
    assert tail[1..] == rest;
  }
}
