/** The header line of a retrieved value, as a server sends it and as the client takes it apart. */
module Response {
  import opened Options
  import opened Text
  import Tokenizer

  datatype Header = Header(key: string, flags: nat, length: nat, sums: Option<string>, cas: Option<int>)

  datatype Parsed = Malformed | Parsed(header: Header)

  const VALUE := "VALUE "

  /** What follows the k-th blank of a line. */
  function Behind(line: string, k: nat): Option<string>
    decreases |line|
  {
    if k == 0 then Some(line)
    else if line == "" then None
    else Behind(line[1..], if line[0] == ' ' then k - 1 else k)
  }

  function UpToBlank(s: string): string {
    s[..Tokenizer.WordLength(s)]
  }

  function NumBlanks(withSums: bool, withCas: bool): nat {
    3 + (if withSums then 1 else 0) + (if withCas then 1 else 0)
  }

  /** A checksum is expected in the header when the connection uses one of the integrity modes. */
  function ParseHeader(line: string, withSums: bool, withCas: bool): Parsed {
    if !(VALUE <= line) then Malformed
    else if Behind(line, NumBlanks(withSums, withCas)).None? then Malformed
    else
      BehindFewer(line, NumBlanks(withSums, withCas));
      var flags := Atoi(Behind(line, 2).value);
      var length := Atoi(Behind(line, 3).value);
      if flags < 0 || length < 0 then Malformed
      else Parsed(Header(
        UpToBlank(Behind(line, 1).value), flags, length,
        if withSums then Some(Behind(line, 4).value) else None,
        if withCas then Some(Atoi(Behind(line, if withSums then 5 else 4).value)) else None))
  }

  lemma BehindFewer(line: string, n: nat)
    ensures Behind(line, n).Some? ==> forall k :: 0 <= k <= n ==> Behind(line, k).Some?
  {
    if n > 0 && line != "" {
      BehindFewer(line[1..], if line[0] == ' ' then n - 1 else n);
      forall k | 0 <= k <= n && Behind(line, n).Some? ensures Behind(line, k).Some? {
        if k > 0 {
          assert Behind(line[1..], if line[0] == ' ' then k - 1 else k).Some?;
        }
      }
    }
  }

  /** What follows the k-th blank: the line up to there has k blanks and ends in one. */
  lemma {:induction false} BehindIs(line: string, k: nat)
    ensures Behind(line, k).Some? <==> multiset(line)[' '] >= k
    ensures Behind(line, k).Some? ==>
              var t := Behind(line, k).value;
              && |t| <= |line| && t == line[|line| - |t|..] && multiset(line[..|line| - |t|])[' '] == k
              && if k == 0 then t == line else |t| < |line| && line[|line| - |t| - 1] == ' '
    decreases |line|
  {
    if line != "" && k > 0 {
      var c, rest := line[0], line[1..];
      var k' := if c == ' ' then k - 1 else k;
      assert Behind(line, k) == Behind(rest, k');
      assert line == [c] + rest;
      BehindIs(rest, k');
      hide Behind;
      if Behind(line, k).Some? {
        BehindOneMore(c, rest, Behind(line, k).value);
      }
    } else if k == 0 {
      assert line[..0] == "";
    }
  }

  lemma BehindOneMore(c: char, rest: string, t: string)
    requires |t| <= |rest| && t == rest[|rest| - |t|..]
    ensures var line, n := [c] + rest, |rest| - |t|;
            && t == line[n + 1..] && line[..n + 1] == [c] + rest[..n] && line[n] == if n == 0 then c else rest[n - 1]
  {
  }

  /** A line is taken for a header exactly when it begins with "VALUE ", has as many blanks as are expected, and gives
      no negative number behind the second and the third of them. */
  lemma HeaderExactlyWhen(line: string, withSums: bool, withCas: bool)
    ensures ParseHeader(line, withSums, withCas).Parsed? <==>
              && |line| >= 6 && line[..6] == "VALUE "
              && multiset(line)[' '] >= 3 + (if withSums then 1 else 0) + (if withCas then 1 else 0)
              && Behind(line, 2).Some? && Atoi(Behind(line, 2).value) >= 0
              && Behind(line, 3).Some? && Atoi(Behind(line, 3).value) >= 0
  {
    hide Behind, Atoi, UpToBlank;
    BehindIs(line, NumBlanks(withSums, withCas));
    BehindFewer(line, NumBlanks(withSums, withCas));
    assert |VALUE| == 6;
    assert VALUE <= line <==> |line| >= 6 && line[..6] == VALUE;
  }

  /** The first `i` characters of the line hold exactly its first `n` blanks. */
  ghost predicate Passed(line: string, i: nat, n: nat) {
    i <= |line| && forall m: nat :: m > n ==> Behind(line, m) == Behind(line[i..], m - n)
  }

  lemma PassOne(line: string, i: nat, n: nat)
    requires Passed(line, i, n) && i < |line|
    ensures Passed(line, i + 1, if line[i] == ' ' then n + 1 else n)
    ensures line[i] == ' ' ==> Behind(line, n + 1) == Some(line[i + 1..])
  {
    assert line[i..][1..] == line[i + 1..];
    var n' := if line[i] == ' ' then n + 1 else n;
    forall m: nat | m > n' ensures Behind(line, m) == Behind(line[i + 1..], m - n') {
      assert Behind(line, m) == Behind(line[i..], m - n);
    }
    if line[i] == ' ' {
      calc {
        Behind(line, n + 1);
        Behind(line[i..], 1);
        Behind(line[i + 1..], 0);
        Some(line[i + 1..]);
      }
    }
  }

  lemma PassNone(line: string, n: nat)
    ensures Passed(line, 0, 0) && Behind(line, 0).Some?
    ensures Passed(line, |line|, n) ==> forall m: nat :: m > n ==> Behind(line, m).None?
  {
    assert line[0..] == line;
  }

  /** s[k] is the position of the k-th blank, and the next one is at s[k + 1] or not before `i`. */
  ghost predicate FoundAt(line: string, s: seq<nat>, k: nat, i: nat)
    requires k < |s|
  {
    && s[k] < |line| && line[s[k]] == ' ' && Behind(line, k + 1) == Some(line[s[k] + 1..])
    && Tokenizer.Clear(line, s[k] + 1, if k + 1 < |s| then s[k + 1] else i)
  }

  /** `s` are the positions of the first blanks, all of them before `i`, and no other blank is before `i`. */
  ghost predicate Found(line: string, s: seq<nat>, i: nat) {
    forall k :: 0 <= k < |s| ==> FoundAt(line, s, k, i)
  }

  lemma FoundMore(line: string, s: seq<nat>, i: nat)
    requires Found(line, s, i) && i < |line|
    requires line[i] == ' ' ==> Behind(line, |s| + 1) == Some(line[i + 1..])
    ensures Found(line, if line[i] == ' ' then s + [i] else s, i + 1)
  {
    hide Behind;
    var t := if line[i] == ' ' then s + [i] else s;
    var next := i + 1;
    forall k | 0 <= k < |t| ensures FoundAt(line, t, k, next) {
      if k < |s| {
        assert FoundAt(line, s, k, i);
      }
    }
  }

  lemma FoundNone(line: string)
    ensures Found(line, [], 0)
  {
  }

  lemma LastFound(line: string, s: seq<nat>, i: nat)
    requires Found(line, s, i)
    ensures Behind(line, |s|).Some?
  {
    if s != [] {
      assert FoundAt(line, s, |s| - 1, i);
    }
  }

  /** Collects the positions of the first `wanted` blanks. */
  method FindBlanks(line: string, wanted: nat) returns (spaces: array<nat>, n: nat)
    requires wanted <= 5
    ensures spaces.Length == 5 && n <= wanted && (n == wanted <==> Behind(line, wanted).Some?)
    ensures forall k :: 0 <= k < n ==>
              spaces[k] < |line| && line[spaces[k]] == ' ' && Behind(line, k + 1) == Some(line[spaces[k] + 1..])
    ensures n > 1 ==> spaces[0] < spaces[1] && UpToBlank(line[spaces[0] + 1..]) == line[spaces[0] + 1..spaces[1]]
  {
    hide Behind, Passed, Found, UpToBlank;
    PassNone(line, 0);
    FoundNone(line);
    spaces := new nat[5](_ => 0);
    n := 0;
    ghost var s: seq<nat> := [];
    var i := 0;
    while i < |line| && n < wanted
      invariant 0 <= i <= |line| && n == |s| <= wanted && Passed(line, i, n) && Found(line, s, i)
      invariant forall k :: 0 <= k < n ==> spaces[k] == s[k]
    {
      PassOne(line, i, n);
      FoundMore(line, s, i);
      if line[i] == ' ' {
        spaces[n] := i;
        n, s := n + 1, s + [i];
      }
      i := i + 1;
    }
    PassNone(line, n);
    if n == wanted {
      LastFound(line, s, i);
    }
    FoundMeans(line, s, i);
  }

  lemma FoundMeans(line: string, s: seq<nat>, i: nat)
    requires Found(line, s, i)
    ensures forall k :: 0 <= k < |s| ==>
              s[k] < |line| && line[s[k]] == ' ' && Behind(line, k + 1) == Some(line[s[k] + 1..])
    ensures |s| > 1 ==> s[0] < s[1] && UpToBlank(line[s[0] + 1..]) == line[s[0] + 1..s[1]]
  {
    hide Behind, UpToBlank, FoundAt;
    forall k: nat | k < |s|
      ensures s[k] < |line| && line[s[k]] == ' ' && Behind(line, k + 1) == Some(line[s[k] + 1..])
    {
      FoundOne(line, s, k, i);
    }
    if |s| > 1 {
      FoundTwo(line, s, i);
    }
  }

  lemma FoundOne(line: string, s: seq<nat>, k: nat, i: nat)
    requires k < |s| && FoundAt(line, s, k, i)
    ensures s[k] < |line| && line[s[k]] == ' ' && Behind(line, k + 1) == Some(line[s[k] + 1..])
  {
    hide Behind, Tokenizer.Clear;
  }

  lemma FoundTwo(line: string, s: seq<nat>, i: nat)
    requires |s| > 1 && FoundAt(line, s, 0, i) && FoundAt(line, s, 1, i)
    ensures s[0] < s[1] && UpToBlank(line[s[0] + 1..]) == line[s[0] + 1..s[1]]
  {
    hide Behind, UpToBlank, Tokenizer.WordLength;
    WordBetween(line, s[0], s[1]);
  }

  /** Takes a header line apart with the positions of its blanks. */
  method ParseResponse(line: string, withSums: bool, withCas: bool) returns (r: Parsed)
    ensures r == ParseHeader(line, withSums, withCas)
  {
    hide Behind, Atoi, UpToBlank, Found, FoundAt, Passed, Tokenizer.Clear, Tokenizer.WordLength;
    var wanted := NumBlanks(withSums, withCas);
    if |line| < |VALUE| || line[..|VALUE|] != VALUE {
      return Malformed;
    }
    var spaces, n := FindBlanks(line, wanted);
    if n < wanted {
      return Malformed;
    }
    BehindFewer(line, wanted);
    BlankFirst(line, spaces[1]);
    BlankFirst(line, spaces[2]);
    var key := line[spaces[0] + 1..spaces[1]];
    var flags, length := Atoi(line[spaces[1]..]), Atoi(line[spaces[2]..]);
    var sums, cas := None, None;
    if withSums {
      sums := Some(line[spaces[3] + 1..]);
    }
    if withCas {
      BlankFirst(line, spaces[wanted - 1]);
      cas := Some(Atoi(line[spaces[wanted - 1]..]));
    }
    PartsParsed(line, withSums, withCas, key, flags, length, sums, cas);
    hide ParseHeader;
    if flags < 0 || length < 0 {
      return Malformed;
    }
    r := Parsed(Header(key, flags, length, sums, cas));
  }

  lemma PartsParsed(line: string, withSums: bool, withCas: bool,
    key: string, flags: int, length: int, sums: Option<string>, cas: Option<int>)
    requires |line| >= |VALUE| && line[..|VALUE|] == VALUE && Behind(line, NumBlanks(withSums, withCas)).Some?
    requires forall k: nat :: k <= NumBlanks(withSums, withCas) ==> Behind(line, k).Some?
    requires key == UpToBlank(Behind(line, 1).value)
    requires flags == Atoi(Behind(line, 2).value) && length == Atoi(Behind(line, 3).value)
    requires sums == if withSums then Behind(line, 4) else None
    requires cas == if withCas then Some(Atoi(Behind(line, NumBlanks(withSums, withCas)).value)) else None
    ensures ParseHeader(line, withSums, withCas)
         == if flags < 0 || length < 0 then Malformed else Parsed(Header(key, flags, length, sums, cas))
  {
    hide Behind, Atoi, UpToBlank;
  }

  lemma WordBetween(line: string, a: nat, b: nat)
    requires a < b < |line| && line[b] == ' ' && Tokenizer.Clear(line, a + 1, b)
    ensures UpToBlank(line[a + 1..]) == line[a + 1..b]
  {
    var s := line[a + 1..];
    assert forall i :: 0 <= i < b - a - 1 ==> s[i] == line[a + 1..b][i];
    Tokenizer.WordLengthIs(s, b - a - 1);
  }

  lemma BlankFirst(line: string, a: nat)
    requires a < |line| && line[a] == ' '
    ensures Atoi(line[a..]) == Atoi(line[a + 1..])
  {
    assert line[a..][1..] == line[a + 1..];
  }

  /** A header as a server sends it: with a checksum and a cas value, or without either. */
  function HeaderLine(key: string, flags: nat, length: nat, sums: Option<string>, cas: Option<nat>): string {
    VALUE + (key + " " + (Decimal(flags) + " " + Ending(length, sums, cas)))
  }

  function Ending(length: nat, sums: Option<string>, cas: Option<nat>): string {
    match sums
    case None => Decimal(length) + CasEnding(cas)
    case Some(s) => Decimal(length) + " " + (s + CasEnding(cas))
  }

  function CasEnding(cas: Option<nat>): string {
    match cas
    case None => "\r\n"
    case Some(c) => " " + (Decimal(c) + "\r\n")
  }

  /** A word and the blank behind it. */
  lemma BehindWord(w: string, rest: string, k: nat)
    requires ' ' !in w
    ensures Behind(w + " " + rest, k + 1) == Behind(rest, k) && Behind(rest, 0) == Some(rest)
  {
    if w == "" {
      assert (w + " " + rest)[1..] == rest;
    } else {
      assert (w + " " + rest)[1..] == w[1..] + " " + rest;
      BehindWord(w[1..], rest, k);
    }
  }

  lemma DecimalHasNoBlank(n: nat)
    ensures ' ' !in Decimal(n)
  {
    DecimalDigits(n);
  }

  /** A header line is read back as what was put into it; behind the checksum the rest of the line follows. */
  lemma HeaderReadsBack(key: string, flags: nat, length: nat, sums: Option<string>, cas: Option<nat>)
    requires Tokenizer.IsWord(key) && (sums.Some? ==> ' ' !in sums.value)
    ensures HeaderLine(key, flags, length, sums, cas)
         == "VALUE " + key + " " + Decimal(flags) + " " + Decimal(length)
            + (if sums.Some? then " " + sums.value else "")
            + (if cas.Some? then " " + Decimal(cas.value) else "") + "\r\n"
    ensures ParseHeader(HeaderLine(key, flags, length, sums, cas), sums.Some?, cas.Some?)
         == Parsed(Header(key, flags, length,
                          if sums.Some? then Some(sums.value + CasEnding(cas)) else None,
                          if cas.Some? then Some(cas.value) else None))
  {
    LineIs(key, flags, length, sums, cas);
    hide Behind, UpToBlank, Atoi, Decimal, Ending, CasEnding;
    var line := HeaderLine(key, flags, length, sums, cas);
    var numbers := Decimal(flags) + " " + Ending(length, sums, cas);
    var n := NumBlanks(sums.Some?, cas.Some?);
    assert line == VALUE + (key + " " + numbers);
    KeyReadsBack(key, numbers);
    NumbersReadBack(flags, length, sums, cas);
    BehindFewer(line, n);
    BehindTwo(key, numbers, 1);
    BehindTwo(key, numbers, 2);
    BehindTwo(key, numbers, 3);
    assert VALUE <= line;
  }

  lemma LineIs(key: string, flags: nat, length: nat, sums: Option<string>, cas: Option<nat>)
    ensures HeaderLine(key, flags, length, sums, cas)
         == "VALUE " + key + " " + Decimal(flags) + " " + Decimal(length)
            + (if sums.Some? then " " + sums.value else "")
            + (if cas.Some? then " " + Decimal(cas.value) else "") + "\r\n"
  {
    hide Decimal;
    var a := if sums.Some? then " " + sums.value else "";
    var c := (if cas.Some? then " " + Decimal(cas.value) else "") + "\r\n";
    assert CasEnding(cas) == c;
    assert Ending(length, sums, cas) == Decimal(length) + a + c;
    hide Ending, CasEnding;
    LineParts(key, Decimal(flags), Decimal(length), a, c);
  }

  lemma LineParts(key: string, flags: string, length: string, a: string, c: string)
    ensures VALUE + (key + " " + (flags + " " + (length + a + c)))
         == "VALUE " + key + " " + flags + " " + length + a + c
  {
    calc {
      VALUE + (key + " " + (flags + " " + (length + a + c)));
      VALUE + (key + " " + (flags + " ") + (length + a + c));
      VALUE + (key + " " + (flags + " ")) + (length + a + c);
      "VALUE " + key + " " + flags + " " + length + a + c;
    }
  }

  /** The command word and the key are the first two words of a header. */
  lemma BehindTwo(key: string, numbers: string, k: nat)
    requires ' ' !in key
    ensures var line := VALUE + (key + " " + numbers);
            && Behind(line, 1) == Some(key + " " + numbers) && Behind(line, 2) == Some(numbers)
            && Behind(line, k + 2) == Behind(numbers, k)
  {
    assert VALUE + (key + " " + numbers) == "VALUE" + " " + (key + " " + numbers);
    BehindWord("VALUE", key + " " + numbers, 0);
    BehindWord("VALUE", key + " " + numbers, 1);
    BehindWord("VALUE", key + " " + numbers, k + 1);
    BehindWord(key, numbers, 0);
    BehindWord(key, numbers, k);
  }

  lemma KeyReadsBack(key: string, numbers: string)
    requires ' ' !in key
    ensures UpToBlank(key + " " + numbers) == key
  {
    var s := key + " " + numbers;
    assert forall i :: 0 <= i < |key| ==> s[i] == key[i] && key[i] in key;
    Tokenizer.WordLengthIs(s, |key|);
  }

  /** The numeric part of the header, word by word. */
  lemma NumbersReadBack(flags: nat, length: nat, sums: Option<string>, cas: Option<nat>)
    requires sums.Some? ==> ' ' !in sums.value
    ensures var numbers := Decimal(flags) + " " + Ending(length, sums, cas);
            && Atoi(numbers) == flags
            && Behind(numbers, 1).Some? && Atoi(Behind(numbers, 1).value) == length
            && (sums.Some? ==> Behind(numbers, 2) == Some(sums.value + CasEnding(cas)))
            && (cas.Some? ==> var c := Behind(numbers, if sums.Some? then 3 else 2);
                              c.Some? && Atoi(c.value) == cas.value)
  {
    var ending := Ending(length, sums, cas);
    var numbers := Decimal(flags) + " " + ending;
    DecimalHasNoBlank(flags);
    DecimalHasNoBlank(length);
    assert numbers == Decimal(flags) + (" " + ending);
    AtoiDecimal(flags, " " + ending);
    BehindWord(Decimal(flags), ending, 0);
    BehindWord(Decimal(flags), ending, 1);
    BehindWord(Decimal(flags), ending, 2);
    LengthReadsBack(length, sums, cas);
  }

  lemma LengthReadsBack(length: nat, sums: Option<string>, cas: Option<nat>)
    requires sums.Some? ==> ' ' !in sums.value
    ensures var ending := Ending(length, sums, cas);
            && Atoi(ending) == length
            && (sums.Some? ==> Behind(ending, 1) == Some(sums.value + CasEnding(cas)))
            && (cas.Some? ==> var c := Behind(ending, if sums.Some? then 2 else 1);
                              c.Some? && Atoi(c.value) == cas.value)
  {
    hide Atoi, Behind, Decimal;
    var ending := Ending(length, sums, cas);
    DecimalHasNoBlank(length);
    if cas.Some? {
      AtoiDecimal(cas.value, "\r\n");
    }
    match sums
    case None =>
      AtoiDecimal(length, CasEnding(cas));
      if cas.Some? {
        assert ending == Decimal(length) + " " + (Decimal(cas.value) + "\r\n");
        BehindWord(Decimal(length), Decimal(cas.value) + "\r\n", 0);
      }
    case Some(s) =>
      var rest := s + CasEnding(cas);
      assert ending == Decimal(length) + (" " + rest);
      AtoiDecimal(length, " " + rest);
      BehindWord(Decimal(length), rest, 0);
      BehindWord(Decimal(length), rest, 1);
      if cas.Some? {
        assert rest == s + " " + (Decimal(cas.value) + "\r\n");
        BehindWord(s, Decimal(cas.value) + "\r\n", 0);
      }
  }
}
