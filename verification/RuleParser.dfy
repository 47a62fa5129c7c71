/** The parser on heap nodes: two stacks of node pointers, and an account of every node allocated and freed. */
module RuleParser {
  import opened Rules
  import opened RuleEval

  datatype Content = Literal(operand: Operand) | Operation(op: Opr)

  class Node {
    const content: Content
    var left: Node?
    var right: Node?
    // the finished tree below this node, and the nodes it is made of
    ghost var tree: Tree
    ghost var nodes: set<Node>

    constructor (content: Content)
      ensures this.content == content && left == null && right == null && nodes == {this}
      ensures content.Literal? ==> Finished() && tree == Leaf(content.operand)
    {
      this.content := content;
      left, right := null, null;
      nodes := {this};
      tree := Leaf(if content.Literal? then content.operand else Value(""));
    }

    /** Takes two finished trees as operands. */
    method Link(l: Node, r: Node)
      requires content.Operation? && l.Finished() && r.Finished()
      requires this !in l.nodes && this !in r.nodes && l.nodes !! r.nodes
      modifies this
      ensures Finished() && tree == Inner(content.op, l.tree, r.tree) && nodes == {this} + l.nodes + r.nodes
      ensures left == l && right == r
    {
      right := r;
      left := l;
      tree := Inner(content.op, l.tree, r.tree);
      nodes := {this} + l.nodes + r.nodes;
    }

    /** The node is the root of an unshared tree. */
    ghost predicate Finished()
      reads this, nodes
      decreases nodes
    {
      && this in nodes
      && match content
         case Literal(operand) => tree == Leaf(operand) && left == null && right == null && nodes == {this}
         case Operation(op) =>
           && left != null && right != null && left in nodes && right in nodes
           && this !in left.nodes && this !in right.nodes && left.nodes !! right.nodes
           && nodes == {this} + left.nodes + right.nodes
           && tree == Inner(op, left.tree, right.tree)
           && left.Finished() && right.Finished()
    }
  }

  /** The evaluator on nodes. It follows no pointer that is NULL and takes no inner node for a leaf. */
  function EvaluateTree(ptr: Node?, compare: Compare): (i: Int)
    requires ptr != null ==> ptr.Finished() && Safe(ptr.tree)
    reads ptr, if ptr == null then {} else ptr.nodes
    ensures i == if ptr == null then 0 else Eager(ptr.tree, compare)
    decreases if ptr == null then {} else ptr.nodes
  {
    if ptr == null then 0
    else if ptr.left.left == null then
      assert ptr.left.Finished() && ptr.right.Finished();
      EvalLeaves(ptr.content.op, ptr.left.content.operand, ptr.right.content.operand, compare)
    else
      assert ptr.left.Finished() && ptr.right.Finished();
      ShortCircuitIsEager(ptr.tree, compare);
      var result1 := EvaluateTree(ptr.left, compare);
      if ShortCircuits(ptr.content.op, result1) then result1
      else EvalResults(ptr.content.op, result1, EvaluateTree(ptr.right, compare))
  }

  /** The nodes of a stack of operators: without children, and `mine` is exactly the set of them. */
  ghost predicate Operators(stack: seq<Node>, oprs: seq<Opr>, mine: set<Node>)
    reads mine
    decreases |stack|
  {
    if stack == [] then oprs == [] && mine == {}
    else
      var top := stack[|stack| - 1];
      && |oprs| == |stack| && top in mine
      && top.content == Operation(oprs[|oprs| - 1]) && top.left == null && top.right == null
      && Operators(stack[..|stack| - 1], oprs[..|oprs| - 1], mine - {top})
  }

  /** The trees of a stack of operands: finished, disjoint, and `mine` is exactly the set of their nodes. */
  ghost predicate Operands(stack: seq<Node>, opnds: seq<Tree>, mine: set<Node>)
    reads mine
    decreases |stack|
  {
    if stack == [] then opnds == [] && mine == {}
    else
      var top := stack[|stack| - 1];
      && |opnds| == |stack| && top in mine && top.nodes <= mine
      && top.Finished() && top.tree == opnds[|opnds| - 1]
      && Operands(stack[..|stack| - 1], opnds[..|opnds| - 1], mine - top.nodes)
  }

  /** The check on nodes: what the source can see is which nodes have children and what the leaves hold. */
  function CheckNodes(n: Node, l: Node, r: Node): (c: Check)
    requires n.content.Operation? && l.Finished() && r.Finished()
    reads l, r, l.nodes, r.nodes
    ensures c == CheckInvalidOpr(n.content.op, l.tree, r.tree)
  {
    var op := n.content.op;
    if op.OnStrings() && l.left != null then Assertion
    else if op.OnStrings() && !(l.content.operand.Field? && l.content.operand.ty.StringField?) then Bad
    else if l.left == null && (!l.content.operand.Field? || op.Connective()) then Bad
    else if (l.left != null) == (r.left != null) then Fine else Bad
  }

  lemma OperandsPush(stack: seq<Node>, opnds: seq<Tree>, mine: set<Node>, n: Node)
    requires Operands(stack, opnds, mine) && n.Finished() && n.nodes !! mine
    ensures Operands(stack + [n], opnds + [n.tree], mine + n.nodes)
  {
    assert (stack + [n])[..|stack|] == stack && (opnds + [n.tree])[..|opnds|] == opnds;
    assert mine + n.nodes - n.nodes == mine;
  }

  lemma OperatorsTop(stack: seq<Node>, oprs: seq<Opr>, mine: set<Node>)
    requires Operators(stack, oprs, mine)
    ensures |oprs| == |stack| && (stack == [] <==> mine == {})
    ensures stack != [] ==>
              var top := stack[|stack| - 1];
              && top in mine && top.content == Operation(oprs[|oprs| - 1]) && top.left == null && top.right == null
              && Operators(stack[..|stack| - 1], oprs[..|oprs| - 1], mine - {top})
  {
  }

  lemma OperandsTop(stack: seq<Node>, opnds: seq<Tree>, mine: set<Node>)
    requires Operands(stack, opnds, mine)
    ensures |opnds| == |stack| && (stack == [] <==> mine == {})
    ensures stack != [] ==>
              var top := stack[|stack| - 1];
              && top.nodes <= mine && top.Finished() && top.tree == opnds[|opnds| - 1]
              && Operands(stack[..|stack| - 1], opnds[..|opnds| - 1], mine - top.nodes)
  {
  }

  lemma OperatorsPush(stack: seq<Node>, oprs: seq<Opr>, mine: set<Node>, n: Node)
    requires Operators(stack, oprs, mine) && n !in mine
    requires n.content.Operation? && n.left == null && n.right == null
    ensures Operators(stack + [n], oprs + [n.content.op], mine + {n})
  {
    assert (stack + [n])[..|stack|] == stack && (oprs + [n.content.op])[..|oprs|] == oprs;
    assert mine + {n} - {n} == mine;
  }

  /** Lets the operator on top take the two operands on top. */
  method Join(oprs: seq<Node>, opnds: seq<Node>, ghost s: Stacks, ghost A: set<Node>, ghost B: set<Node>)
    returns (n: Node, check: Check)
    requires Operators(oprs, s.oprs, A) && Operands(opnds, s.opnds, B) && A !! B && oprs != [] && |opnds| > 1
    modifies oprs[|oprs| - 1]
    ensures n == oprs[|oprs| - 1] && n in A && A - {n} !! B + {n} && check == s.Checked()
    ensures Operators(oprs[..|oprs| - 1], s.Reduced().oprs, A - {n})
    ensures Operands(opnds[..|opnds| - 2] + [n], s.Reduced().opnds, B + {n})
  {
    hide Operators, Operands;
    OperatorsTop(oprs, s.oprs, A);
    OperandsTop(opnds, s.opnds, B);
    OperandsTop(opnds[..|opnds| - 1], s.opnds[..|opnds| - 1], B - opnds[|opnds| - 1].nodes);
    n := oprs[|oprs| - 1];
    var l, r := opnds[|opnds| - 2], opnds[|opnds| - 1];
    ghost var rest := B - r.nodes - l.nodes;
    assert opnds[..|opnds| - 1][..|opnds| - 2] == opnds[..|opnds| - 2];
    assert s.opnds[..|opnds| - 1][..|opnds| - 2] == s.opnds[..|opnds| - 2];
    n.Link(l, r);
    check := CheckNodes(n, l, r);
    OperandsPush(opnds[..|opnds| - 2], s.opnds[..|opnds| - 2], rest, n);
    assert rest + n.nodes == B + {n};
  }

  datatype Result = Accept | Reject | Abort

  class ExprParser {
    const words: seq<string>
    var itr: nat
    var root: Node?
    var oprStk: seq<Node>
    var opndStk: seq<Node>
    // nodes allocated and not freed, split into those of either stack; and the stacks as values
    ghost var live: set<Node>
    ghost var A: set<Node>
    ghost var B: set<Node>
    ghost var s: Stacks

    ghost predicate Owned()
      reads this, A, B
    {
      && Operators(oprStk, s.oprs, A) && Operands(opndStk, s.opnds, B)
      && A !! B && live == A + B && itr <= |words|
    }

    constructor (words: seq<string>)
      ensures this.words == words && itr == 0 && root == null && live == {} && Owned() && s == EMPTY
    {
      this.words := words;
      itr, root, oprStk, opndStk, live, A, B, s := 0, null, [], [], {}, {}, {}, EMPTY;
    }

    method Free(n: Node)
      requires n in live
      modifies `live
      ensures live == old(live) - {n}
    {
      live := live - {n};
    }

    /** Frees every node of the tree, each of them once. */
    method DestroyTree(ptr: Node?)
      requires ptr != null ==> ptr.Finished() && ptr.nodes <= live
      modifies `live
      ensures live == old(live) - (if ptr == null then {} else ptr.nodes)
      decreases if ptr == null then {} else ptr.nodes
    {
      if ptr != null {
        DestroyTree(ptr.left);
        DestroyTree(ptr.right);
        Free(ptr);
      }
    }

    method PushOperand(operand: Operand)
      requires Owned()
      modifies this
      ensures Owned() && s == old(s).(opnds := old(s.opnds) + [Leaf(operand)]) && fresh(B - old(B)) && A == old(A)
      ensures itr == old(itr) && root == old(root)
    {
      hide Operators, Operands;
      var n := new Node(Literal(operand));
      OperandsPush(opndStk, s.opnds, B, n);
      opndStk := opndStk + [n];
      s, live, B := s.(opnds := s.opnds + [Leaf(operand)]), live + {n}, B + {n};
    }

    method PushOperator(op: Opr)
      requires Owned()
      modifies this
      ensures Owned() && s == old(s).(oprs := old(s.oprs) + [op]) && fresh(A - old(A)) && B == old(B)
      ensures itr == old(itr) && root == old(root)
    {
      hide Operators, Operands;
      var n := new Node(Operation(op));
      OperatorsPush(oprStk, s.oprs, A, n);
      oprStk := oprStk + [n];
      s, live, A := s.(oprs := s.oprs + [op]), live + {n}, A + {n};
    }

    /** One reduction, with the check the source makes on it. */
    method Reduce() returns (check: Check)
      requires Owned() && oprStk != [] && |opndStk| > 1
      modifies this, A
      ensures Owned() && s == old(s).Reduced() && check == old(s).Checked()
      ensures A <= old(A) && B <= old(A + B) && itr == old(itr) && root == old(root)
    {
      hide Operators, Operands;
      OperatorsTop(oprStk, s.oprs, A);
      OperandsTop(opndStk, s.opnds, B);
      var n;
      n, check := Join(oprStk, opndStk, s, A, B);
      oprStk, opndStk := oprStk[..|oprStk| - 1], opndStk[..|opndStk| - 2] + [n];
      s, A, B := s.Reduced(), A - {n}, B + {n};
    }

    method DropOperator()
      requires Owned() && oprStk != []
      modifies this
      ensures Owned() && s == old(s).(oprs := old(s.oprs)[..|old(s.oprs)| - 1])
      ensures A <= old(A) && B == old(B) && itr == old(itr) && root == old(root)
      ensures opndStk == old(opndStk) && |oprStk| == old(|oprStk|) - 1
    {
      var n := oprStk[|oprStk| - 1];
      oprStk := oprStk[..|oprStk| - 1];
      Free(n);
      s, A := s.(oprs := s.oprs[..|s.oprs| - 1]), A - {n};
    }

    method DropOperand()
      requires Owned() && opndStk != []
      modifies this
      ensures Owned() && |opndStk| == old(|opndStk|) - 1 && root == old(root)
    {
      hide Operators, Operands;
      OperandsTop(opndStk, s.opnds, B);
      var p := opndStk[|opndStk| - 1];
      opndStk := opndStk[..|opndStk| - 1];
      DestroyTree(p);
      s, B := s.(opnds := s.opnds[..|s.opnds| - 1]), B - p.nodes;
    }

    /** A closing bracket. */
    method CloseBracket() returns (success: bool, aborted: bool)
      requires Owned()
      modifies this, A
      ensures Owned() && A <= old(A) && B <= old(A + B) && itr == old(itr) && root == old(root)
      ensures aborted ==> OnClose(old(s)) == Stop(Aborted)
      ensures !aborted && success ==> OnClose(old(s)) == Go(s)
      ensures !aborted && !success ==> OnClose(old(s)) == Stop(Rejected)
    {
      success, aborted := true, false;
      while oprStk != [] && oprStk[|oprStk| - 1].content.op != Open && |opndStk| > 1 && success
        invariant Owned() && A <= old(A) && B <= old(A + B) && itr == old(itr) && root == old(root)
        invariant OnClose(old(s)) == if success then OnClose(s) else Stop(Rejected)
        decreases |oprStk|
      {
        var check := Reduce();
        if check == Assertion {
          return false, true;
        }
        success := check == Fine;
      }
      if oprStk == [] || oprStk[|oprStk| - 1].content.op != Open {
        success := false;
      } else {
        DropOperator();
      }
    }

    /** Any other operator: reduces at most once. */
    method PushReducing(op: Opr) returns (success: bool, aborted: bool)
      requires Owned() && op != Close
      modifies this, A
      ensures Owned() && fresh(A - old(A)) && B <= old(A + B) && itr == old(itr) && root == old(root)
      ensures aborted ==> OnOperator(old(s), op) == Stop(Aborted)
      ensures !aborted && success ==> OnOperator(old(s), op) == Go(s)
      ensures !aborted && !success ==> OnOperator(old(s), op) == Stop(Rejected)
    {
      hide Operators, Operands;
      OperatorsTop(oprStk, s.oprs, A);
      OperandsTop(opndStk, s.opnds, B);
      success, aborted := true, false;
      if oprStk == [] || oprStk[|oprStk| - 1].content.op.Order() <= op.Order()
         || oprStk[|oprStk| - 1].content.op == Open
      {
        PushOperator(op);
      } else if |opndStk| > 1 {
        var check := Reduce();
        PushOperator(op);
        success, aborted := check == Fine, check == Assertion;
      } else {
        success := false;
      }
    }

    /** The end of the rule. On acceptance the tree is the root, and owns every live node. */
    method Finish() returns (success: bool, aborted: bool)
      requires Owned() && root == null
      modifies this, A
      ensures Owned() && A <= old(A) && B <= old(A + B) && itr == old(itr)
      ensures aborted ==> OnEnd(old(s)) == Aborted
      ensures !aborted && success ==>
                root != null && root.Finished() && live == root.nodes && OnEnd(old(s)) == Accepted(root.tree)
      ensures !aborted && !success ==> root == null && OnEnd(old(s)) == Rejected
    {
      success, aborted := true, false;
      while oprStk != [] && success
        invariant Owned() && A <= old(A) && B <= old(A + B) && itr == old(itr) && root == null
        invariant OnEnd(old(s)) == if success then OnEnd(s) else Rejected
        decreases |oprStk|, success
      {
        if |opndStk| > 1 {
          var check := Reduce();
          if check == Assertion {
            return false, true;
          }
          success := check == Fine;
        } else {
          OperandsTop(opndStk, s.opnds, B);
          OperatorsTop(oprStk, s.oprs, A);
          success := false;
        }
      }
      if success {
        OperandsTop(opndStk, s.opnds, B);
        OperatorsTop(oprStk, s.oprs, A);
        if |opndStk| == 1 && opndStk[0].content.Operation? {
          root := opndStk[0];
        } else {
          success := false;
        }
      }
    }

    /** Frees all that is left on the stacks. */
    method Abandon()
      requires Owned()
      modifies this
      ensures live == {} && oprStk == [] && opndStk == [] && root == old(root)
    {
      hide Operators, Operands;
      DropOperands();
      while oprStk != []
        invariant Owned() && B == {} && opndStk == [] && root == old(root)
        decreases |oprStk|
      {
        OperatorsTop(oprStk, s.oprs, A);
        DropOperator();
      }
      OperatorsTop(oprStk, s.oprs, A);
    }

    method DropOperands()
      requires Owned()
      modifies this
      ensures Owned() && B == {} && opndStk == [] && root == old(root)
    {
      hide Operators, Operands;
      while opndStk != []
        invariant Owned() && root == old(root)
        decreases |opndStk|
      {
        OperandsTop(opndStk, s.opnds, B);
        DropOperand();
      }
      OperandsTop(opndStk, s.opnds, B);
    }

    /** Parses the rule. The stacks refine the machine on values; whatever is allocated ends up in the accepted
        tree, or is freed exactly once when the rule is rejected. */
    method BuildTree() returns (result: Result)
      requires Owned() && itr == 0 && root == null && live == {} && s == EMPTY
      modifies this
      ensures var outcome := Run(Tokens(words), EMPTY);
              match result
              case Accept =>
                && root != null && root.Finished() && live == root.nodes
                && outcome == Accepted(root.tree) && Safe(root.tree)
              case Reject => root == null && live == {} && outcome == Rejected
              case Abort => outcome == Aborted
    {
      hide Operators, Operands, OnClose, OnOperator, OnEnd;
      ghost var goal := Run(Tokens(words), EMPTY);
      assert Tokens(words)[0..] == Tokens(words);
      var success, aborted := true, false;
      while success
        invariant Owned() && fresh(A) && fresh(B) && root == null
        invariant goal == if success then Run(Tokens(words)[itr..], s) else Rejected
        decreases |words| - itr, success
      {
        if itr < |words| {
          var token := Classify(words[itr]);
          assert Tokens(words)[itr..][1..] == Tokens(words)[itr + 1..];
          itr := itr + 1;
          match token
          case Term(operand) =>
            PushOperand(operand);
          case Operator(op) =>
            if op == Close {
              success, aborted := CloseBracket();
            } else {
              success, aborted := PushReducing(op);
            }
            if aborted {
              return Abort;
            }
        } else {
          success, aborted := Finish();
          if aborted {
            return Abort;
          }
          if success {
            AcceptedIsSafe(Tokens(words), EMPTY);
            return Accept;
          }
        }
      }
      Abandon();
      return Reject;
    }

    /** What the destructor does with an accepted rule: nothing stays behind. */
    method Delete()
      requires root != null && root.Finished() && live == root.nodes
      modifies this
      ensures live == {}
    {
      DestroyTree(root);
    }
  }
}
