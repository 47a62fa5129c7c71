/** Keys, command lines, and the tokenizer that takes a command line apart in place. */
module Tokenizer {

  const KEY_MAX_SIZE := 250
  const MAX_TOKENS := 1024

  function PreparedChar(c: char): char {
    if c > ' ' then c else '_'
  }

  /** A key as it is sent: cut off, and without blanks or control characters. */
  function Prepared(key: string): (r: string)
    ensures |r| == if |key| < KEY_MAX_SIZE then |key| else KEY_MAX_SIZE
    ensures forall i :: 0 <= i < |r| ==> r[i] == PreparedChar(key[i])
  {
    seq(if |key| < KEY_MAX_SIZE then |key| else KEY_MAX_SIZE, i requires 0 <= i < |key| => PreparedChar(key[i]))
  }

  method PrepareKey(key: string) returns (ok: bool, result: string)
    ensures ok <==> key != ""
    ensures ok ==> result == Prepared(key) && IsWord(result) && |result| == if |key| < 250 then |key| else 250
    ensures ok ==> forall i :: 0 <= i < |result| ==> result[i] == if key[i] > ' ' then key[i] else '_'
  {
    result := "";
    if |key| == 0 {
      return false, "";
    }
    var n := if |key| < KEY_MAX_SIZE then |key| else KEY_MAX_SIZE;
    for i := 0 to n
      invariant result == Prepared(key)[..i]
    {
      result := result + [if key[i] > ' ' then key[i] else '_'];
    }
    ok := true;
  }

  /** Not empty, and no blank or NUL in it. */
  ghost predicate IsWord(w: string) {
    w != "" && forall i :: 0 <= i < |w| ==> w[i] != ' ' && w[i] != '\0'
  }

  /** The length of the longest prefix without a blank. */
  function WordLength(s: string): (n: nat)
    ensures n <= |s| && (n == |s| || s[n] == ' ')
    ensures forall i :: 0 <= i < n ==> s[i] != ' '
  {
    if s == "" || s[0] == ' ' then 0 else 1 + WordLength(s[1..])
  }

  /** No blank from `a` up to `b`. */
  predicate Clear(s: string, a: nat, b: nat) {
    a <= b <= |s| && forall i :: a <= i < b ==> s[i] != ' '
  }

  /** The maximal runs of characters other than blanks. */
  function Split(s: string): seq<string>
    decreases |s|
  {
    if s == "" then []
    else if s[0] == ' ' then Split(s[1..])
    else [s[..WordLength(s)]] + Split(s[WordLength(s)..])
  }

  /** A command line: the command word, then every key after a blank. */
  function Line(command: string, keys: seq<string>): string {
    if keys == [] then command else Line(command, keys[..|keys| - 1]) + " " + keys[|keys| - 1]
  }

  lemma WordLengthIs(s: string, n: nat)
    requires n <= |s| && (forall i :: 0 <= i < n ==> s[i] != ' ') && (n == |s| || s[n] == ' ')
    ensures WordLength(s) == n
  {
    if n > 0 {
      WordLengthIs(s[1..], n - 1);
    }
  }

  lemma SplitWord(w: string, rest: string)
    requires w != "" && Clear(w, 0, |w|) && (rest == "" || rest[0] == ' ')
    ensures Split(w + rest) == [w] + Split(rest)
  {
    var s := w + rest;
    WordLengthIs(s, |w|);
    assert s[..|w|] == w && s[|w|..] == rest;
  }

  lemma {:induction false} SplitAppend(s: string, t: string)
    requires t == "" || t[0] == ' '
    ensures Split(s + t) == Split(s) + Split(t)
    decreases |s|
  {
    if s == "" {
      assert s + t == t;
    } else if s[0] == ' ' {
      SplitAppend(s[1..], t);
      assert (s + t)[1..] == s[1..] + t;
    } else {
      var w, rest := s[..WordLength(s)], s[WordLength(s)..];
      assert s == w + rest && s + t == w + (rest + t);
      calc {
        Split(w + (rest + t));
        { SplitAppendWord(w, rest, t); }
        [w] + Split(rest + t);
        { SplitAppend(rest, t); }
        [w] + (Split(rest) + Split(t));
        [w] + Split(rest) + Split(t);
        { SplitAppendWord(w, rest, t); }
        Split(w + rest) + Split(t);
      }
    }
  }

  lemma SplitAppendWord(w: string, rest: string, t: string)
    requires w != "" && Clear(w, 0, |w|) && (rest == "" || rest[0] == ' ') && (t == "" || t[0] == ' ')
    ensures Split(w + (rest + t)) == [w] + Split(rest + t) && Split(w + rest) == [w] + Split(rest)
  {
    hide Split;
    SplitWord(w, rest);
    assert rest + t == "" || (rest + t)[0] == ' ';
    SplitWord(w, rest + t);
  }

  /** Splitting a command line gives the command word and the keys back, in order. */
  lemma {:induction false} SplitLine(command: string, keys: seq<string>)
    requires IsWord(command) && forall i :: 0 <= i < |keys| ==> IsWord(keys[i])
    ensures Split(Line(command, keys)) == [command] + keys
  {
    if keys == [] {
      SplitWord(command, "");
      assert command + "" == command;
    } else {
      var k := keys[|keys| - 1];
      var init := Line(command, keys[..|keys| - 1]);
      SplitLine(command, keys[..|keys| - 1]);
      assert init + " " + k == init + (" " + k);
      SplitAppend(init, " " + k);
      assert (" " + k)[1..] == k;
      SplitWord(k, "");
      assert k + "" == k;
    }
  }

  /** In a command line exactly one blank stands in front of each key, and none elsewhere. */
  lemma {:induction false} LineBlanks(command: string, keys: seq<string>)
    requires IsWord(command) && forall i :: 0 <= i < |keys| ==> IsWord(keys[i])
    ensures var l := Line(command, keys);
            && command <= l && multiset(l)[' '] == |keys|
            && forall i :: 0 <= i < |l| && l[i] == ' ' ==> 0 < i < |l| - 1 && l[i + 1] != ' '
  {
    if keys == [] {
      assert ' ' !in command;
    } else {
      var k := keys[|keys| - 1];
      var init := Line(command, keys[..|keys| - 1]);
      LineBlanks(command, keys[..|keys| - 1]);
      LineEndsInWord(command, keys[..|keys| - 1]);
      assert ' ' !in k;
      assert Line(command, keys) == init + " " + k;
    }
  }

  /** A token: where its text begins, unless it is the NULL pointer, and how long it is. */
  datatype Token = Token(value: Start, length: nat)
  datatype Start = NULL | At(pos: nat)

  /** The C string that begins at `pos`. */
  ghost predicate Reads(command: seq<char>, pos: nat, w: string) {
    pos + |w| < |command| && command[pos..pos + |w|] == w && command[pos + |w|] == '\0'
  }

  /** The tokens found so far stand, as C strings that end before `limit`, for `words`. */
  ghost predicate Stand(command: seq<char>, tokens: seq<Token>, words: seq<string>, limit: nat) {
    && |tokens| == |words|
    && forall k :: 0 <= k < |tokens| ==>
         && tokens[k].value.At? && tokens[k].length == |words[k]|
         && tokens[k].value.pos + tokens[k].length < limit && Reads(command, tokens[k].value.pos, words[k])
  }

  lemma StandWider(command: seq<char>, tokens: seq<Token>, words: seq<string>, a: nat, b: nat)
    requires a <= b
    ensures Stand(command, [], [], a)
    ensures Stand(command, tokens, words, a) ==> Stand(command, tokens, words, b)
  {
  }

  /** One more token, closed by a NUL at `e`; the buffer is unchanged elsewhere. */
  lemma StandMore(command: seq<char>, tokens: seq<Token>, words: seq<string>, s: nat, e: nat)
    requires Stand(command, tokens, words, s) && s <= e < |command|
    ensures Stand(command[e := '\0'], tokens + [Token(At(s), e - s)], words + [command[s..e]], e + 1)
  {
    var c := command[e := '\0'];
    forall k | 0 <= k < |tokens| ensures Reads(c, tokens[k].value.pos, words[k]) {
      var p := tokens[k].value.pos;
      assert c[p..p + |words[k]|] == command[p..p + |words[k]|];
    }
    assert c[s..e] == command[s..e];
  }

  /** `text` is the C string that the buffer holds. */
  ghost predicate Holds(command: seq<char>, text: string) {
    |text| < |command| && command[..|text|] == text && command[|text|] == '\0' && '\0' !in text
  }

  /** The word that ends at `e`, where a blank or the end of the text is; the blank is skipped. */
  lemma NextWord(text: string, s: nat, e: nat, words: seq<string>)
    requires Clear(text, s, e) && (e == |text| || text[e] == ' ')
    ensures words + Split(text[s..])
         == words + (if s == e then [] else [text[s..e]]) + Split(text[if e < |text| then e + 1 else e..])
  {
    if s < e {
      var w := text[s..e];
      SplitWord(w, text[e..]);
      assert text[s..] == w + text[e..];
    }
    if e < |text| {
      assert text[e..][1..] == text[e + 1..];
    }
  }

  /** Takes a command line apart in place: a NUL goes behind every token. At most `maxTokens - 1` tokens are found;
      the one after the last is NULL, or the first character left over. */
  method TokenizeCommand(command: array<char>, tokens: array<Token>, maxTokens: nat, ghost text: string)
    returns (ntokens: nat, ghost words: seq<string>, ghost left: string)
    requires Holds(command[..], text) && 1 < maxTokens <= tokens.Length
    modifies command, tokens
    ensures 1 <= ntokens <= maxTokens && Stand(command[..], tokens[..ntokens - 1], words, |text| + 1)
    ensures words + Split(left) == Split(text) && |left| <= |text| && left == text[|text| - |left|..]
    ensures left != "" ==> |words| == maxTokens - 1
    ensures text != "" && text[0] != ' ' ==> words != [] && tokens[0].value == At(0)
    ensures tokens[ntokens - 1] == Token(if left == "" then NULL else At(|text| - |left|), 0)
  {
    hide Split, Stand;
    StandWider(command[..], [], [], 0, 0);
    var s, e := 0, 0;
    ntokens := 0;
    words := [];
    ghost var full := command[..];
    var done := false;
    while ntokens < maxTokens - 1 && !done
      invariant 0 <= s <= e <= |text| && ntokens == |words| <= maxTokens - 1
      invariant Stand(command[..], tokens[..ntokens], words, if done then |text| + 1 else s)
      invariant (forall i :: s <= i < command.Length ==> command[i] == full[i]) && Clear(text, s, e)
      invariant words + Split(text[s..]) == Split(text)
      invariant done ==> e == |text| && s == e
      invariant ntokens == maxTokens - 1 ==> s == e
      invariant text != "" && text[0] != ' ' ==>
                  if ntokens > 0 then tokens[0].value == At(0) else s == 0 && !done
      decreases |text| - e, !done
    {
      assert command[e] == (text + ['\0'])[e];
      assert command[s..e] == text[s..e] by {
        assert forall i :: s <= i < e ==> command[i] == full[..|text|][i];
      }
      if command[e] == ' ' || command[e] == '\0' {
        NextWord(text, s, e, words);
        done := command[e] == '\0';
        if s != e {
          words := AddToken(command, tokens, ntokens, s, e, text, words);
          ntokens := ntokens + 1;
        }
        assert forall i :: e < i < command.Length ==> command[i] == full[i];
        StandWider(command[..], tokens[..ntokens], words, s, if done then |text| + 1 else e + 1);
        if !done {
          e := e + 1;
        }
        s := e;
      } else {
        e := e + 1;
      }
    }
    left := text[e..];
    StandWider(command[..], tokens[..ntokens], words, s, |text| + 1);
    tokens[ntokens] := Token(if command[e] == '\0' then NULL else At(e), 0);
    ntokens := ntokens + 1;
  }

  /** Records the token from `s` to `e`, and closes it with a NUL. */
  method AddToken(command: array<char>, tokens: array<Token>, n: nat, s: nat, e: nat,
    ghost text: string, ghost words: seq<string>) returns (ghost words': seq<string>)
    requires s < e <= |text| && n < tokens.Length && e < command.Length && command[s..e] == text[s..e]
    requires Stand(command[..], tokens[..n], words, s)
    modifies tokens, command
    ensures words' == words + [text[s..e]] && command[..] == old(command[..])[e := '\0']
    ensures Stand(command[..], tokens[..n + 1], words', e + 1)
    ensures tokens[n].value == At(s) && forall k :: 0 <= k < n ==> tokens[k] == old(tokens[k])
  {
    StandMore(command[..], tokens[..n], words, s, e);
    tokens[n] := Token(At(s), e - s);
    words' := words + [text[s..e]];
    assert tokens[..n + 1] == old(tokens[..n]) + [Token(At(s), e - s)];
    command[e] := '\0';
    assert command[..] == old(command[..])[e := '\0'];
  }

  lemma SplitEndsInWord(s: string)
    requires s != "" && s[|s| - 1] != ' '
    ensures Split(s) != []
  {
    if s[0] == ' ' {
      SplitEndsInWord(s[1..]);
    }
  }

  lemma LineEndsInWord(command: string, keys: seq<string>)
    requires IsWord(command) && forall i :: 0 <= i < |keys| ==> IsWord(keys[i])
    ensures var l := Line(command, keys); l != "" && l[0] != ' ' && l[|l| - 1] != ' ' && '\0' !in l
  {
    if keys != [] {
      LineEndsInWord(command, keys[..|keys| - 1]);
    }
  }

  /** What taking a command line apart finds: all words when there are at most 1022 keys, and then nothing is left
      over and the last token is NULL; otherwise exactly the first 1023 words. */
  lemma LineTokens(command: string, keys: seq<string>, words: seq<string>, left: string)
    requires IsWord(command) && forall i :: 0 <= i < |keys| ==> IsWord(keys[i])
    requires words + Split(left) == Split(Line(command, keys))
    requires |left| <= |Line(command, keys)| && left == Line(command, keys)[|Line(command, keys)| - |left|..]
    requires |words| <= MAX_TOKENS - 1 && (left != "" ==> |words| == MAX_TOKENS - 1)
    ensures words == [command] + keys[..if |keys| <= MAX_TOKENS - 2 then |keys| else MAX_TOKENS - 2]
    ensures left == "" <==> |keys| <= MAX_TOKENS - 2
  {
    SplitLine(command, keys);
    LineEndsInWord(command, keys);
    assert words == (words + Split(left))[..|words|];
    if left != "" {
      SplitEndsInWord(left);
    }
  }
}
