/** Log rules as values: tokens, trees, the two-stack parsing machine and what it accepts. */
module Rules {

  /** In the order of the source's enumeration, which the parser compares on. */
  datatype Opr = Or | And | Prefix | Equal | NotEqual | Contains | Greater | Less | StrEqual | Open | Close {
    function Order(): nat {
      match this
      case Or => 0 case And => 1 case Prefix => 2 case Equal => 3 case NotEqual => 4 case Contains => 5
      case Greater => 6 case Less => 7 case StrEqual => 8 case Open => 9 case Close => 10
    }

    predicate OnStrings() {
      Prefix? || Contains? || StrEqual?
    }

    predicate Connective() {
      Or? || And?
    }

    /** Operators that compare a record field with something. */
    predicate Comparison() {
      OnStrings() || Equal? || Greater? || Less?
    }
  }

  datatype FieldType = StringField | NumberField

  /** A leaf: a field of the log record, or a literal value. */
  datatype Operand = Field(name: string, ty: FieldType) | Value(text: string)

  datatype Tree = Leaf(operand: Operand) | Inner(op: Opr, left: Tree, right: Tree)

  datatype Token = Term(operand: Operand) | Operator(op: Opr)

  const FIELDS: map<string, FieldType> := map[
    "host" := StringField, "key" := StringField, "command" := StringField,
    "flags" := NumberField, "statuscode" := NumberField, "restime" := NumberField,
    "reslen" := NumberField, "sertime" := NumberField, "expiry" := NumberField]

  /** How one word of a rule is read. */
  function Classify(word: string): Token {
    if word in FIELDS then Term(Field(word, FIELDS[word]))
    else if word == ">" then Operator(Greater)
    else if word == "<" then Operator(Less)
    else if word == "&" then Operator(And)
    else if word == "|" then Operator(Or)
    else if word == "(" then Operator(Open)
    else if word == ")" then Operator(Close)
    else if word == "=" then Operator(Equal)
    else if word == "eq" || word == "EQ" then Operator(StrEqual)
    else if word == "prefix" || word == "PREFIX" then Operator(Prefix)
    else if word == "contains" || word == "CONTAINS" then Operator(Contains)
    else Term(Value(word))
  }

  function Tokens(words: seq<string>): (t: seq<Token>)
    ensures |t| == |words|
    ensures forall i :: 0 <= i < |words| ==> t[i] == Classify(words[i])
  {
    seq(|words|, i requires 0 <= i < |words| => Classify(words[i]))
  }

  /** The check made when an operator gets its operands. An operator on strings over an inner node
      runs into an assertion. */
  datatype Check = Fine | Bad | Assertion

  function CheckInvalidOpr(op: Opr, left: Tree, right: Tree): Check {
    if op.OnStrings() && left.Inner? then Assertion
    else if op.OnStrings() && !(left.operand.Field? && left.operand.ty.StringField?) then Bad
    else if left.Leaf? && (!left.operand.Field? || op.Connective()) then Bad
    else if left.Inner? == right.Inner? then Fine else Bad
  }

  datatype Outcome = Accepted(tree: Tree) | Rejected | Aborted

  function Verdict(check: Check): Outcome
    requires check != Fine
  {
    if check.Bad? then Rejected else Aborted
  }

  /** The stacks grow to the right: the last element is on top. */
  datatype Stacks = Stacks(oprs: seq<Opr>, opnds: seq<Tree>) {
    function Top(): Opr
      requires oprs != []
    {
      oprs[|oprs| - 1]
    }

    function Joined(): Tree
      requires oprs != [] && |opnds| > 1
    {
      Inner(Top(), opnds[|opnds| - 2], opnds[|opnds| - 1])
    }

    function Checked(): Check
      requires oprs != [] && |opnds| > 1
    {
      CheckInvalidOpr(Top(), opnds[|opnds| - 2], opnds[|opnds| - 1])
    }

    /** The top operator takes the two top operands. */
    function Reduced(): (s: Stacks)
      requires oprs != [] && |opnds| > 1
      ensures |s.oprs| == |oprs| - 1 && |s.opnds| == |opnds| - 1
    {
      Stacks(oprs[..|oprs| - 1], opnds[..|opnds| - 2] + [Joined()])
    }
  }

  datatype Step = Go(s: Stacks) | Stop(outcome: Outcome)

  /** An operator other than a closing bracket: reduces at most once. */
  function OnOperator(s: Stacks, op: Opr): Step {
    if s.oprs == [] || s.Top().Order() <= op.Order() || s.Top() == Open then Go(s.(oprs := s.oprs + [op]))
    else if |s.opnds| <= 1 then Stop(Rejected)
    else if s.Checked() != Fine then Stop(Verdict(s.Checked()))
    else Go(Stacks(s.Reduced().oprs + [op], s.Reduced().opnds))
  }

  /** A closing bracket: reduces down to the opening one, and drops it. */
  function OnClose(s: Stacks): Step
    decreases |s.oprs|
  {
    if s.oprs == [] then Stop(Rejected)
    else if s.Top() == Open then Go(s.(oprs := s.oprs[..|s.oprs| - 1]))
    else if |s.opnds| <= 1 then Stop(Rejected)
    else if s.Checked() != Fine then Stop(Verdict(s.Checked()))
    else OnClose(s.Reduced())
  }

  /** The end of the rule: reduces everything, opening brackets included. */
  function OnEnd(s: Stacks): Outcome
    decreases |s.oprs|
  {
    if s.oprs == [] then
      if |s.opnds| == 1 && s.opnds[0].Inner? then Accepted(s.opnds[0]) else Rejected
    else if |s.opnds| <= 1 then Rejected
    else if s.Checked() != Fine then Verdict(s.Checked())
    else OnEnd(s.Reduced())
  }

  function OnToken(s: Stacks, token: Token): Step {
    match token
    case Term(operand) => Go(s.(opnds := s.opnds + [Leaf(operand)]))
    case Operator(op) => if op == Close then OnClose(s) else OnOperator(s, op)
  }

  function Run(tokens: seq<Token>, s: Stacks): Outcome {
    if tokens == [] then OnEnd(s)
    else match OnToken(s, tokens[0])
         case Stop(outcome) => outcome
         case Go(s') => Run(tokens[1..], s')
  }

  const EMPTY := Stacks([], [])

  /** What an accepted rule looks like: a comparison of a record field, or an operator over two such trees.
      An opening bracket that was never closed can remain as an operator. */
  predicate Safe(t: Tree) {
    t.Inner? &&
    if t.left.Leaf? then
      && t.right.Leaf? && t.left.operand.Field? && !t.op.Connective()
      && (t.op.OnStrings() ==> t.left.operand.ty.StringField?)
    else !t.op.OnStrings() && Safe(t.left) && Safe(t.right)
  }

  predicate SafeOperand(t: Tree) {
    t.Leaf? || Safe(t)
  }

  ghost predicate AllSafe(opnds: seq<Tree>) {
    forall i :: 0 <= i < |opnds| ==> SafeOperand(opnds[i])
  }

  lemma CheckKeepsSafe(s: Stacks)
    requires s.oprs != [] && |s.opnds| > 1 && AllSafe(s.opnds)
    ensures s.Checked() == Fine <==> Safe(s.Joined())
    ensures s.Checked() == Assertion <==> s.Top() in {Prefix, Contains, StrEqual} && s.opnds[|s.opnds| - 2].Inner?
    ensures s.Checked() == Fine ==> AllSafe(s.Reduced().opnds)
  {
    assert SafeOperand(s.opnds[|s.opnds| - 2]) && SafeOperand(s.opnds[|s.opnds| - 1]);
  }

  lemma CloseKeepsSafe(s: Stacks)
    requires AllSafe(s.opnds)
    ensures match OnClose(s) case Go(s') => AllSafe(s'.opnds) case Stop(o) => !o.Accepted?
    decreases |s.oprs|
  {
    if s.oprs != [] && s.Top() != Open && |s.opnds| > 1 && s.Checked() == Fine {
      CheckKeepsSafe(s);
      CloseKeepsSafe(s.Reduced());
    }
  }

  lemma EndIsSafe(s: Stacks)
    requires AllSafe(s.opnds)
    ensures OnEnd(s).Accepted? ==> Safe(OnEnd(s).tree)
    decreases |s.oprs|
  {
    if s.oprs != [] && |s.opnds| > 1 && s.Checked() == Fine {
      CheckKeepsSafe(s);
      EndIsSafe(s.Reduced());
    } else if |s.opnds| == 1 {
      assert SafeOperand(s.opnds[0]);
    }
  }

  /** Acceptance implies the shape the evaluator relies on, for every token list and starting stacks. */
  lemma {:induction false} AcceptedIsSafe(tokens: seq<Token>, s: Stacks)
    requires AllSafe(s.opnds)
    ensures Run(tokens, s).Accepted? ==> Safe(Run(tokens, s).tree)
  {
    if tokens == [] {
      EndIsSafe(s);
    } else {
      match tokens[0] {
        case Term(operand) =>
        case Operator(op) =>
          if op == Close {
            CloseKeepsSafe(s);
          } else if s.oprs != [] && |s.opnds| > 1 {
            CheckKeepsSafe(s);
          }
      }
      match OnToken(s, tokens[0])
      case Stop(_) =>
      case Go(s') => AcceptedIsSafe(tokens[1..], s');
    }
  }
}
