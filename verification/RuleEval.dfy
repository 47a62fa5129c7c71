/** Evaluating a rule: with short-circuiting, as the source does it, and without. */
module RuleEval {
  import opened Rules
  import opened FlatRules

  type Int = bv32

  /** How a field of the log record compares with an operand. A closure over one log record. */
  type Compare = (Opr, Operand, Operand) -> bool

  function AsInt(b: bool): (i: Int)
    ensures i <= 1
  {
    if b then 1 else 0
  }

  /** An operator over two leaves. The two brackets are never true. */
  function EvalLeaves(op: Opr, left: Operand, right: Operand, compare: Compare): (i: Int)
    ensures i <= 1
  {
    AsInt(op != Open && op != Close && compare(op, left, right))
  }

  /** An operator over two results; & and | work on the bits. Operators on strings have no such form. */
  function EvalResults(op: Opr, a: Int, b: Int): (i: Int)
    requires !op.OnStrings()
    ensures i <= 1
  {
    match op
    case And => AsInt(a & b != 0)
    case Or => AsInt(a | b != 0)
    case Equal => AsInt(a == b)
    case Greater => AsInt(a > b)
    case Less => AsInt(a < b)
    case _ => 0
  }

  /** The truth of a rule, in terms of truth values: comparisons of leaves are made as `compare` says, & and | are the
      connectives, and =, > and < compare truth values; no other operator ever holds of two rules. */
  predicate Holds(t: Tree, compare: Compare)
    requires Safe(t)
  {
    if t.left.Leaf? then t.op != Open && t.op != Close && compare(t.op, t.left.operand, t.right.operand)
    else
      var l, r := Holds(t.left, compare), Holds(t.right, compare);
      match t.op
      case And => l && r
      case Or => l || r
      case Equal => l == r
      case Greater => l && !r
      case Less => !l && r
      case _ => false
  }

  predicate ShortCircuits(op: Opr, result: Int) {
    if result != 0 then op == Or else op == And
  }

  /** Both sides are always evaluated. */
  function Eager(t: Tree, compare: Compare): (i: Int)
    requires Safe(t)
    ensures i <= 1
  {
    if t.left.Leaf? then EvalLeaves(t.op, t.left.operand, t.right.operand, compare)
    else EvalResults(t.op, Eager(t.left, compare), Eager(t.right, compare))
  }

  /** The right side is left out when the left one settles the result, and then the left result is returned as it is. */
  function Evaluate(t: Tree, compare: Compare): Int
    requires Safe(t)
  {
    if t.left.Leaf? then EvalLeaves(t.op, t.left.operand, t.right.operand, compare)
    else
      var result1 := Evaluate(t.left, compare);
      if ShortCircuits(t.op, result1) then result1
      else EvalResults(t.op, result1, Evaluate(t.right, compare))
  }

  lemma {:induction false} ShortCircuitIsEager(t: Tree, compare: Compare)
    requires Safe(t)
    ensures Evaluate(t, compare) == Eager(t, compare)
  {
    if !t.left.Leaf? {
      ShortCircuitIsEager(t.left, compare);
      ShortCircuitIsEager(t.right, compare);
      var a, b := Eager(t.left, compare), Eager(t.right, compare);
      assert a == 0 || a == 1;
      assert b == 0 || b == 1;
    }
  }

  /** The evaluator returns 1 for the rules that hold, and 0 for the others. */
  lemma {:induction false} EvaluatesToTruth(t: Tree, compare: Compare)
    requires Safe(t)
    ensures Evaluate(t, compare) == if Holds(t, compare) then 1 else 0
  {
    if !t.left.Leaf? {
      EvaluatesToTruth(t.left, compare);
      EvaluatesToTruth(t.right, compare);
    }
  }

  /** Returning the left result unchanged is right only because results are 0 or 1. */
  lemma ShortCircuitExactlyWhen(op: Opr, a: Int)
    requires op.Connective() && ShortCircuits(op, a)
    ensures (forall b: Int :: b <= 1 ==> EvalResults(op, a, b) == a) <==> a <= 1
  {
    assert EvalResults(op, a, 1) <= 1;
    forall b: Int | b <= 1 && a <= 1 ensures EvalResults(op, a, b) == a {
      assert a == 0 || a == 1;
      assert b == 0 || b == 1;
    }
  }

  lemma {:induction false} NestIsSafe(cs: seq<Tree>, conns: seq<Opr>)
    requires IsFlat(cs, conns)
    ensures Safe(RightNest(cs, conns))
  {
    if conns != [] {
      NestIsSafe(cs[1..], conns[1..]);
    }
  }

  /** With & throughout, a rule without brackets holds exactly when all its comparisons do. */
  lemma {:induction false} FlatAnd(cs: seq<Tree>, conns: seq<Opr>, compare: Compare)
    requires IsFlat(cs, conns) && forall i :: 0 <= i < |conns| ==> conns[i] == And
    ensures Safe(RightNest(cs, conns))
    ensures Holds(RightNest(cs, conns), compare) <==>
              forall i :: 0 <= i < |cs| ==> compare(cs[i].op, cs[i].left.operand, cs[i].right.operand)
  {
    NestIsSafe(cs, conns);
    if conns != [] {
      FlatAnd(cs[1..], conns[1..], compare);
      assert forall i :: 1 <= i < |cs| ==> cs[i] == cs[1..][i - 1];
    }
  }

  /** With | throughout, it holds exactly when one of them does. */
  lemma {:induction false} FlatOr(cs: seq<Tree>, conns: seq<Opr>, compare: Compare)
    requires IsFlat(cs, conns) && forall i :: 0 <= i < |conns| ==> conns[i] == Or
    ensures Safe(RightNest(cs, conns))
    ensures Holds(RightNest(cs, conns), compare) <==>
              exists i :: 0 <= i < |cs| && compare(cs[i].op, cs[i].left.operand, cs[i].right.operand)
  {
    NestIsSafe(cs, conns);
    if conns != [] {
      FlatOr(cs[1..], conns[1..], compare);
      assert forall i :: 1 <= i < |cs| ==> cs[i] == cs[1..][i - 1];
      var rest := cs[1..];
      if i :| 0 <= i < |rest| && compare(rest[i].op, rest[i].left.operand, rest[i].right.operand) {
        assert rest[i] == cs[i + 1];
      }
    }
  }
}
