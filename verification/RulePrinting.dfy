/** Rules written as words: a fully bracketed rule is read back as it was, and how an unbracketed one is grouped. */
module RulePrinting {
  import opened Rules

  function Word(op: Opr): string {
    match op
    case Or => "|" case And => "&" case Prefix => "prefix" case Equal => "=" case NotEqual => "!="
    case Contains => "contains" case Greater => ">" case Less => "<" case StrEqual => "eq"
    case Open => "(" case Close => ")"
  }

  function Show(operand: Operand): string {
    if operand.Field? then operand.name else operand.text
  }

  /** The words that are no literal values. */
  const RESERVED: set<string> := {
    "host", "key", "command", "flags", "statuscode", "restime", "reslen", "sertime", "expiry",
    ">", "<", "&", "|", "(", ")", "=", "eq", "EQ", "prefix", "PREFIX", "contains", "CONTAINS"}

  /** An operand some word stands for. */
  predicate Spoken(operand: Operand) {
    match operand
    case Field(name, StringField) => name in {"host", "key", "command"}
    case Field(name, NumberField) => name in {"flags", "statuscode", "restime", "reslen", "sertime", "expiry"}
    case Value(text) => text !in RESERVED
  }

  lemma SpokenIsRead(operand: Operand)
    requires Spoken(operand)
    ensures Classify(Show(operand)) == Term(operand)
  {
  }

  /** Operators on strings may also be written in capitals. */
  lemma Capitals()
    ensures Classify("EQ") == Classify("eq") == Operator(StrEqual)
    ensures Classify("PREFIX") == Classify("prefix") == Operator(Prefix)
    ensures Classify("CONTAINS") == Classify("contains") == Operator(Contains)
  {
  }

  /** A rule of the accepted shape whose every operator and operand has a word of its own. */
  predicate Printable(t: Tree) {
    && Safe(t) && (t.op.Comparison() || t.op.Connective())
    && if t.left.Leaf? then Spoken(t.left.operand) && Spoken(t.right.operand)
       else Printable(t.left) && Printable(t.right)
  }

  function Print(t: Tree): seq<string>
    requires Printable(t)
  {
    if t.left.Leaf? then ["(", Show(t.left.operand), Word(t.op), Show(t.right.operand), ")"]
    else ["("] + Print(t.left) + [Word(t.op)] + Print(t.right) + [")"]
  }

  function RunWords(words: seq<string>, s: Stacks): Outcome {
    Run(Tokens(words), s)
  }

  function With(s: Stacks, t: Tree): Stacks {
    s.(opnds := s.opnds + [t])
  }

  lemma RunWord(word: string, rest: seq<string>, s: Stacks)
    ensures RunWords([word] + rest, s)
         == match OnToken(s, Classify(word)) case Stop(outcome) => outcome case Go(s') => RunWords(rest, s')
  {
    assert Tokens([word] + rest)[1..] == Tokens(rest);
  }

  /** A closing bracket right after an operator and its two operands. */
  lemma CloseJoins(s: Stacks, op: Opr, left: Tree, right: Tree)
    requires op != Open && CheckInvalidOpr(op, left, right) == Fine
    ensures OnClose(Stacks(s.oprs + [Open, op], s.opnds + [left, right])) == Go(With(s, Inner(op, left, right)))
  {
    var all := Stacks(s.oprs + [Open, op], s.opnds + [left, right]);
    assert all.opnds[..|all.opnds| - 2] == s.opnds;
    assert all.oprs[..|all.oprs| - 1] == s.oprs + [Open];
    assert (s.oprs + [Open])[..|s.oprs|] == s.oprs;
    assert all.Reduced() == Stacks(s.oprs + [Open], s.opnds + [Inner(op, left, right)]);
  }

  lemma RunOperand(operand: Operand, rest: seq<string>, s: Stacks)
    requires Spoken(operand)
    ensures RunWords([Show(operand)] + rest, s) == RunWords(rest, With(s, Leaf(operand)))
  {
    SpokenIsRead(operand);
    RunWord(Show(operand), rest, s);
  }

  lemma RunOpr(op: Opr, rest: seq<string>, s: Stacks)
    requires op.Comparison() || op.Connective() || op == Open
    requires s.oprs == [] || s.Top().Order() <= op.Order() || s.Top() == Open
    ensures RunWords([Word(op)] + rest, s) == RunWords(rest, s.(oprs := s.oprs + [op]))
  {
    assert Classify(Word(op)) == Operator(op);
    RunWord(Word(op), rest, s);
  }

  lemma RunComparison(t: Tree, rest: seq<string>, s: Stacks)
    requires Printable(t) && t.left.Leaf? && Close !in s.oprs
    ensures RunWords(Print(t) + rest, s) == RunWords(rest, With(s, t))
  {
    var s1 := s.(oprs := s.oprs + [Open]);
    var s2 := With(s1, t.left);
    var s3 := s2.(oprs := s2.oprs + [t.op]);
    var s4 := With(s3, t.right);
    var a, o, b := Show(t.left.operand), Word(t.op), Show(t.right.operand);
    calc {
      RunWords(Print(t) + rest, s);
      { assert Print(t) + rest == ["("] + ([a, o, b, ")"] + rest); RunOpr(Open, [a, o, b, ")"] + rest, s); }
      RunWords([a, o, b, ")"] + rest, s1);
      {
        assert [a, o, b, ")"] + rest == [a] + ([o, b, ")"] + rest);
        RunOperand(t.left.operand, [o, b, ")"] + rest, s1);
      }
      RunWords([o, b, ")"] + rest, s2);
      { assert [o, b, ")"] + rest == [o] + ([b, ")"] + rest); RunOpr(t.op, [b, ")"] + rest, s2); }
      RunWords([b, ")"] + rest, s3);
      { assert [b, ")"] + rest == [b] + ([")"] + rest); RunOperand(t.right.operand, [")"] + rest, s3); }
      RunWords([")"] + rest, s4);
      { RunWord(")", rest, s4); CloseJoined(s, s4, t); }
      RunWords(rest, With(s, t));
    }
  }

  lemma CloseJoined(s: Stacks, s': Stacks, t: Tree)
    requires Printable(t)
    requires s'.oprs == s.oprs + [Open] + [t.op] && s'.opnds == s.opnds + [t.left] + [t.right]
    ensures OnToken(s', Classify(")")) == Go(With(s, t))
  {
    assert s' == Stacks(s.oprs + [Open, t.op], s.opnds + [t.left, t.right]);
    CloseJoins(s, t.op, t.left, t.right);
  }

  /** Reading a printed rule puts exactly that rule on the operand stack, whatever the stacks hold (a closing
      bracket is never pushed). */
  lemma {:induction false} ReadBack(t: Tree, rest: seq<string>, s: Stacks)
    requires Printable(t) && Close !in s.oprs
    ensures RunWords(Print(t) + rest, s) == RunWords(rest, With(s, t))
  {
    hide RunWords, Classify;
    if t.left.Leaf? {
      RunComparison(t, rest, s);
    } else {
      var s1 := s.(oprs := s.oprs + [Open]);
      var s2 := With(s1, t.left);
      var s3 := s2.(oprs := s2.oprs + [t.op]);
      var s4 := With(s3, t.right);
      var l, o, r := Print(t.left), Word(t.op), Print(t.right);
      calc {
        RunWords(Print(t) + rest, s);
        {
          assert Print(t) + rest == ["("] + (l + ([o] + (r + ([")"] + rest))));
          RunOpr(Open, l + ([o] + (r + ([")"] + rest))), s);
        }
        RunWords(l + ([o] + (r + ([")"] + rest))), s1);
        { ReadBack(t.left, [o] + (r + ([")"] + rest)), s1); }
        RunWords([o] + (r + ([")"] + rest)), s2);
        { RunOpr(t.op, r + ([")"] + rest), s2); }
        RunWords(r + ([")"] + rest), s3);
        { ReadBack(t.right, [")"] + rest, s3); }
        RunWords([")"] + rest, s4);
        { RunWord(")", rest, s4); CloseJoined(s, s4, t); }
        RunWords(rest, With(s, t));
      }
    }
  }

  /** An operator on strings behind a bracketed rule ends the program, whatever follows in the brackets around it. */
  lemma StringsOverRuleAbort(t: Tree, op: Opr, right: Operand, rest: seq<string>, s: Stacks)
    requires Printable(t) && op.OnStrings() && Spoken(right) && Close !in s.oprs
    ensures RunWords(["("] + Print(t) + [Word(op), Show(right), ")"] + rest, s) == Aborted
  {
    hide RunWords, Print;
    var s1 := s.(oprs := s.oprs + [Open]);
    var s2 := With(s1, t);
    var s3 := s2.(oprs := s2.oprs + [op]);
    var s4 := With(s3, Leaf(right));
    var words := [Word(op), Show(right), ")"] + rest;
    assert ["("] + Print(t) + [Word(op), Show(right), ")"] + rest == ["("] + (Print(t) + words);
    assert s.oprs != [] ==> s.Top() in s.oprs;
    RunOpr(Open, Print(t) + words, s);
    ReadBack(t, words, s1);
    assert words == [Word(op)] + ([Show(right)] + ([")"] + rest));
    RunOpr(op, [Show(right)] + ([")"] + rest), s2);
    RunOperand(right, [")"] + rest, s3);
    RunWord(")", rest, s4);
    assert s4.Top() == op && s4.opnds[|s4.opnds| - 2] == t;
    assert OnClose(s4) == Stop(Aborted);
  }

  /** Printing a rule and parsing the words gives the rule back. */
  lemma PrintParse(t: Tree)
    requires Printable(t)
    ensures RunWords(Print(t), EMPTY) == Accepted(t)
  {
    ReadBack(t, [], EMPTY);
    assert Print(t) + [] == Print(t);
    assert With(EMPTY, t).opnds == [t];
  }
}
