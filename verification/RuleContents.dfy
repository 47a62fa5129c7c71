/** What an accepted rule is made of: the operands that were read, in order, and the operators that were read. */
module RuleContents {
  import opened Rules

  function Leaves(t: Tree): seq<Operand> {
    match t
    case Leaf(operand) => [operand]
    case Inner(_, left, right) => Leaves(left) + Leaves(right)
  }

  function LeavesOf(ts: seq<Tree>): seq<Operand> {
    if ts == [] then [] else LeavesOf(ts[..|ts| - 1]) + Leaves(ts[|ts| - 1])
  }

  /** The operands among some tokens. */
  function Terms(tokens: seq<Token>): seq<Operand> {
    if tokens == [] then []
    else (if tokens[0].Term? then [tokens[0].operand] else []) + Terms(tokens[1..])
  }

  /** How often an operator stands in a tree. */
  function Uses(t: Tree, op: Opr): nat {
    match t
    case Leaf(_) => 0
    case Inner(o, left, right) => Uses(left, op) + Uses(right, op) + if o == op then 1 else 0
  }

  function UsesOf(ts: seq<Tree>, op: Opr): nat {
    if ts == [] then 0 else UsesOf(ts[..|ts| - 1], op) + Uses(ts[|ts| - 1], op)
  }

  function Held(s: Stacks, op: Opr): nat {
    UsesOf(s.opnds, op) + multiset(s.oprs)[op]
  }

  function Read(tokens: seq<Token>, op: Opr): nat {
    if tokens == [] then 0 else (if tokens[0] == Operator(op) then 1 else 0) + Read(tokens[1..], op)
  }

  lemma OnTop(ts: seq<Tree>, t: Tree, op: Opr)
    ensures LeavesOf(ts + [t]) == LeavesOf(ts) + Leaves(t) && UsesOf(ts + [t], op) == UsesOf(ts, op) + Uses(t, op)
  {
    assert (ts + [t])[..|ts|] == ts;
  }

  lemma Popped(oprs: seq<Opr>, op: Opr)
    requires oprs != []
    ensures var top := oprs[|oprs| - 1];
            multiset(oprs)[op] == multiset(oprs[..|oprs| - 1])[op] + if top == op then 1 else 0
  {
    assert oprs == oprs[..|oprs| - 1] + [oprs[|oprs| - 1]];
  }

  lemma ReducedKeeps(s: Stacks, op: Opr)
    requires s.oprs != [] && |s.opnds| > 1
    ensures LeavesOf(s.Reduced().opnds) == LeavesOf(s.opnds) && Held(s.Reduced(), op) == Held(s, op)
  {
    var n := |s.opnds|;
    var ts, l, r := s.opnds[..n - 2], s.opnds[n - 2], s.opnds[n - 1];
    assert s.opnds == ts + [l] + [r];
    OnTop(ts, l, op);
    OnTop(ts + [l], r, op);
    OnTop(ts, s.Joined(), op);
    Popped(s.oprs, op);
  }

  lemma CloseKeeps(s: Stacks, op: Opr)
    requires OnClose(s).Go?
    ensures var s' := OnClose(s).s;
            && LeavesOf(s'.opnds) == LeavesOf(s.opnds)
            && Held(s, op) == Held(s', op) + if op == Open then 1 else 0
    decreases |s.oprs|
  {
    Popped(s.oprs, op);
    if s.Top() != Open {
      ReducedKeeps(s, op);
      CloseKeeps(s.Reduced(), op);
    }
  }

  lemma EndKeeps(s: Stacks, op: Opr)
    requires OnEnd(s).Accepted?
    ensures Leaves(OnEnd(s).tree) == LeavesOf(s.opnds) && Uses(OnEnd(s).tree, op) == Held(s, op)
    decreases |s.oprs|
  {
    if s.oprs == [] {
      OnTop([], s.opnds[0], op);
      assert s.opnds == [] + [s.opnds[0]];
    } else {
      ReducedKeeps(s, op);
      EndKeeps(s.Reduced(), op);
    }
  }

  lemma OperatorKeeps(s: Stacks, o: Opr, op: Opr)
    requires OnOperator(s, o).Go?
    ensures var s' := OnOperator(s, o).s;
            LeavesOf(s'.opnds) == LeavesOf(s.opnds) && Held(s', op) == Held(s, op) + if o == op then 1 else 0
  {
    if s.oprs != [] && |s.opnds| > 1 {
      ReducedKeeps(s, op);
    }
  }

  lemma StopRejects(s: Stacks)
    ensures OnClose(s).Stop? ==> !OnClose(s).outcome.Accepted?
    decreases |s.oprs|
  {
    if s.oprs != [] && s.Top() != Open && |s.opnds| > 1 && s.Checked() == Fine {
      StopRejects(s.Reduced());
    }
  }

  /** How much of an operator a closing bracket takes away: the bracket itself, and the opening one. */
  function Gone(token: Token, op: Opr): nat {
    if token == Operator(Close) && (op == Open || op == Close) then 1 else 0
  }

  lemma TokenKeeps(token: Token, s: Stacks, op: Opr)
    requires OnToken(s, token).Go?
    ensures var s' := OnToken(s, token).s;
            && LeavesOf(s'.opnds) == LeavesOf(s.opnds) + (if token.Term? then [token.operand] else [])
            && Held(s', op) + Gone(token, op) == Held(s, op) + if token == Operator(op) then 1 else 0
  {
    match token
    case Term(operand) => OnTop(s.opnds, Leaf(operand), op);
    case Operator(o) =>
      if o == Close {
        CloseKeeps(s, op);
      } else {
        OperatorKeeps(s, o, op);
      }
  }

  lemma RunsOn(tokens: seq<Token>, s: Stacks)
    requires tokens != [] && Run(tokens, s).Accepted?
    ensures OnToken(s, tokens[0]).Go? && Run(tokens[1..], OnToken(s, tokens[0]).s) == Run(tokens, s)
  {
    hide OnClose;
    StopRejects(s);
  }

  /** An accepted rule has the operands of its words as leaves, in order. */
  lemma {:induction false} AcceptedKeepsOperands(tokens: seq<Token>, s: Stacks)
    requires Run(tokens, s).Accepted?
    ensures Leaves(Run(tokens, s).tree) == LeavesOf(s.opnds) + Terms(tokens)
  {
    hide OnToken, OnClose, OnOperator, OnEnd, LeavesOf, Held, Uses, Leaves;
    if tokens == [] {
      EndKeeps(s, Open);
    } else {
      var first := if tokens[0].Term? then [tokens[0].operand] else [];
      var rest := tokens[1..];
      assert Terms(tokens) == first + Terms(rest);
      RunsOn(tokens, s);
      TokenKeeps(tokens[0], s, Open);
      hide Run, Terms;
      AcceptedKeepsOperands(rest, OnToken(s, tokens[0]).s);
      assert LeavesOf(s.opnds) + first + Terms(rest) == LeavesOf(s.opnds) + (first + Terms(rest));
    }
  }

  /** It has each operator as often as it was read; closed brackets are gone. An opening bracket that was never closed
      remains as an operator. */
  lemma {:induction false} AcceptedKeepsOperators(tokens: seq<Token>, s: Stacks, op: Opr)
    requires Run(tokens, s).Accepted?
    ensures Uses(Run(tokens, s).tree, op) + (if op == Open || op == Close then Read(tokens, Close) else 0)
         == Held(s, op) + Read(tokens, op)
  {
    hide OnToken, OnClose, OnOperator, OnEnd, LeavesOf, Held, Uses, Leaves;
    if tokens == [] {
      EndKeeps(s, op);
    } else {
      RunsOn(tokens, s);
      TokenKeeps(tokens[0], s, op);
      AcceptedKeepsOperators(tokens[1..], OnToken(s, tokens[0]).s, op);
    }
  }
}
