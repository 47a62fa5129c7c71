/** Decimal and hexadecimal text, as printf writes it and atoi and sscanf read it back. */
module Text {

  function Digit(d: nat): (c: char)
    requires d < 10
  {
    ('0' as int + d) as char
  }

  predicate IsDigit(c: char) {
    '0' <= c <= '9'
  }

  /** What printf writes for "%d" on a non-negative number. */
  function Decimal(n: nat): (s: string)
    ensures |s| > 0
  {
    if n < 10 then [Digit(n)] else Decimal(n / 10) + [Digit(n % 10)]
  }

  function Power(base: nat, k: nat): (p: nat)
    ensures base > 0 ==> p > 0
  {
    if k == 0 then 1 else base * Power(base, k - 1)
  }

  lemma Multiply(k: int, m: nat)
    ensures k >= 1 ==> k * m >= m
    ensures k <= -1 ==> k * m <= 0 - m
  {
  }

  lemma DivideIs(n: nat, m: nat, q: nat, r: nat)
    requires r < m && n == q * m + r
    ensures n / m == q
  {
    var d := n / m;
    assert n == d * m + n % m;
    assert (d - q) * m == d * m - q * m;
    Multiply(d - q, m);
  }

  /** Halving and then dividing by `c` divides by twice `c`. */
  lemma HalfThenDivide(n: nat, c: nat)
    requires c > 0
    ensures n / 2 / c == n / (2 * c)
  {
    var half := n / 2;
    var q, r := half / c, half % c;
    assert half == q * c + r;
    assert q * (2 * c) == 2 * (q * c);
    DivideIs(n, 2 * c, q, 2 * r + n % 2);
  }

  /** `n` divided `i` times by `base`. */
  function Shifted(n: nat, base: nat, i: nat): nat
    requires base > 0
    decreases i
  {
    if i == 0 then n else Shifted(n / base, base, i - 1)
  }

  /** Digit by digit: the decimal places of the number, the highest first, and no zero in front. */
  lemma {:induction false} DecimalPlaces(n: nat)
    ensures var s := Decimal(n);
            && (forall i :: 0 <= i < |s| ==> s[|s| - 1 - i] as int == '0' as int + Shifted(n, 10, i) % 10)
            && n < Power(10, |s|) && (n > 0 ==> n >= Power(10, |s| - 1)) && (n == 0 ==> |s| == 1)
  {
    var s := Decimal(n);
    if n >= 10 {
      var t := Decimal(n / 10);
      DecimalPlaces(n / 10);
      forall i | 0 <= i < |s| ensures s[|s| - 1 - i] as int == '0' as int + Shifted(n, 10, i) % 10 {
        if i > 0 {
          assert s[|s| - 1 - i] == t[|t| - 1 - (i - 1)];
        }
      }
    } else {
      assert Power(10, 1) == 10 && Power(10, 0) == 1;
    }
  }

  predicate IsSpace(c: char) {
    c == ' ' || c == '\t' || c == '\n' || c == '\r' || c == '\U{0B}' || c == '\U{0C}'
  }

  function SkipSpace(s: string): string {
    if s != "" && IsSpace(s[0]) then SkipSpace(s[1..]) else s
  }

  /** The value of the digits that `s` begins with, behind digits worth `sofar`. */
  function DigitsValue(s: string, sofar: nat): nat {
    if s != "" && IsDigit(s[0]) then DigitsValue(s[1..], 10 * sofar + (s[0] as int - '0' as int)) else sofar
  }

  /** atoi, without its overflow. */
  function Atoi(s: string): int {
    var t := SkipSpace(s);
    if t != "" && t[0] == '-' then 0 - DigitsValue(t[1..], 0)
    else if t != "" && t[0] == '+' then DigitsValue(t[1..], 0)
    else DigitsValue(t, 0)
  }

  lemma DecimalDigits(n: nat)
    ensures forall i :: 0 <= i < |Decimal(n)| ==> IsDigit(Decimal(n)[i])
  {
    if n >= 10 {
      DecimalDigits(n / 10);
    }
  }

  lemma {:induction false} DigitsConcat(s: string, t: string, sofar: nat)
    requires forall i :: 0 <= i < |s| ==> IsDigit(s[i])
    ensures DigitsValue(s + t, sofar) == DigitsValue(t, DigitsValue(s, sofar))
  {
    if s == "" {
      assert s + t == t;
    } else {
      assert (s + t)[1..] == s[1..] + t;
      DigitsConcat(s[1..], t, 10 * sofar + (s[0] as int - '0' as int));
    }
  }

  lemma {:induction false} DecimalValue(n: nat, rest: string)
    requires rest == "" || !IsDigit(rest[0])
    ensures DigitsValue(Decimal(n) + rest, 0) == n
    decreases n
  {
    DecimalDigits(n);
    DigitsConcat(Decimal(n), rest, 0);
    if n >= 10 {
      DecimalDigits(n / 10);
      DecimalValue(n / 10, "");
      assert Decimal(n / 10) + "" == Decimal(n / 10);
      DigitsConcat(Decimal(n / 10), [Digit(n % 10)], 0);
      assert DigitsValue([Digit(n % 10)], n / 10) == 10 * (n / 10) + n % 10;
    }
  }

  /** atoi reads back what printf wrote. */
  lemma AtoiDecimal(n: nat, rest: string)
    requires rest == "" || !IsDigit(rest[0])
    ensures Atoi(Decimal(n) + rest) == n
  {
    DecimalDigits(n);
    DecimalValue(n, rest);
    assert IsDigit((Decimal(n) + rest)[0]);
  }

  /** A sign may stand in front. */
  lemma AtoiSigned(sign: char, n: nat, rest: string)
    requires (sign == '-' || sign == '+') && (rest == "" || !IsDigit(rest[0]))
    ensures Atoi([sign] + Decimal(n) + rest) == if sign == '-' then 0 - n else n
  {
    DecimalValue(n, rest);
    hide Decimal, DigitsValue;
    assert ([sign] + Decimal(n) + rest)[1..] == Decimal(n) + rest;
  }

  /** So may white space. */
  lemma AtoiSpaced(c: char, s: string)
    requires c in {' ', '\t', '\n', '\r', '\U{0B}', '\U{0C}'}
    ensures Atoi([c] + s) == Atoi(s)
  {
    assert ([c] + s)[1..] == s;
  }

  /** Without a number there is nothing to read. */
  lemma AtoiNothing(s: string)
    requires s == "" || !('0' <= s[0] <= '9' || s[0] in {'-', '+', ' ', '\t', '\n', '\r', '\U{0B}', '\U{0C}'})
    ensures Atoi(s) == 0
  {
  }

  function HexDigit(d: nat): (c: char)
    requires d < 16
  {
    if d < 10 then ('0' as int + d) as char else ('a' as int + d - 10) as char
  }

  /** The value of a hexadecimal digit. */
  function HexValue(c: char): (v: int)
    ensures -1 <= v < 16
  {
    if '0' <= c <= '9' then c as int - '0' as int
    else if 'a' <= c <= 'f' then c as int - 'a' as int + 10
    else if 'A' <= c <= 'F' then c as int - 'A' as int + 10
    else -1
  }

  /** Digits are read in small letters, as they are written, and in capitals. */
  lemma HexLetters(d: nat)
    requires d < 16
    ensures HexValue(HexDigit(d)) == d && (d >= 10 ==> HexValue(('A' as int + d - 10) as char) == d)
  {
  }

  /** What printf writes for "%.<width>x". */
  function Hex(n: nat, width: nat): (s: string)
    decreases width, n
    ensures |s| > 0
  {
    if n < 16 && width <= 1 then [HexDigit(n)]
    else Hex(n / 16, if width > 0 then width - 1 else 0) + [HexDigit(n % 16)]
  }

  /** The value of the hexadecimal digits that `s` begins with, and what follows them. */
  function HexDigits(s: string, sofar: nat): (nat, string)
    decreases |s|
  {
    if s != "" && HexValue(s[0]) >= 0 then HexDigits(s[1..], 16 * sofar + HexValue(s[0])) else (sofar, s)
  }

  datatype Scanned = Nothing | Number(value: int, rest: string)

  /** What sscanf takes in for "%x": blanks, a sign, the prefix 0x and digits. */
  function ScanHex(s: string): Scanned {
    var t := SkipSpace(s);
    var signed := t != "" && (t[0] == '-' || t[0] == '+');
    var u := if signed then t[1..] else t;
    var v := if |u| >= 2 && u[0] == '0' && (u[1] == 'x' || u[1] == 'X') then u[2..] else u;
    if v == "" || HexValue(v[0]) < 0 then Nothing
    else
      var (value, rest) := HexDigits(v, 0);
      Number(if signed && t[0] == '-' then 0 - value else value, rest)
  }

  /** The numbers sscanf takes in for "%x:%x:...", at most `max` of them. */
  function ScanSums(s: string, max: nat): (r: seq<int>)
    ensures |r| <= max
    decreases max
  {
    if max == 0 then []
    else match ScanHex(s)
         case Nothing => []
         case Number(value, rest) =>
           [value] + if rest != "" && rest[0] == ':' then ScanSums(rest[1..], max - 1) else []
  }

  /** Digit by digit: the hexadecimal places of the number, the highest first, and as many as are asked for. */
  lemma HexPlaces(n: nat, width: nat)
    ensures var s := Hex(n, width);
            && (forall i :: 0 <= i < |s| ==>
                  var d := Shifted(n, 16, i) % 16;
                  s[|s| - 1 - i] as int == if d < 10 then '0' as int + d else 'a' as int + d - 10)
            && n < Power(16, |s|) && |s| >= width && (|s| > width && |s| > 1 ==> n >= Power(16, |s| - 1))
  {
    hide Hex, Power, Shifted;
    HexSize(n, width);
    var s := Hex(n, width);
    forall i: nat | i < |s|
      ensures var d := Shifted(n, 16, i) % 16;
              s[|s| - 1 - i] as int == if d < 10 then '0' as int + d else 'a' as int + d - 10
    {
      HexPlace(n, width, i);
    }
  }

  lemma {:induction false} HexSize(n: nat, width: nat)
    ensures var s := Hex(n, width);
            n < Power(16, |s|) && |s| >= width && (|s| > width && |s| > 1 ==> n >= Power(16, |s| - 1))
    decreases width, n
  {
    if n < 16 && width <= 1 {
      assert Power(16, 1) == 16 && Power(16, 0) == 1;
    } else {
      HexSize(n / 16, if width > 0 then width - 1 else 0);
    }
  }

  lemma {:induction false} HexPlace(n: nat, width: nat, i: nat)
    requires i < |Hex(n, width)|
    ensures var s, d := Hex(n, width), Shifted(n, 16, i) % 16;
            s[|s| - 1 - i] as int == if d < 10 then '0' as int + d else 'a' as int + d - 10
    decreases width, n
  {
    if i > 0 {
      var w := if width > 0 then width - 1 else 0;
      var s, t := Hex(n, width), Hex(n / 16, w);
      assert s == t + [HexDigit(n % 16)];
      HexPlace(n / 16, w, i - 1);
      assert s[|s| - 1 - i] == t[|t| - 1 - (i - 1)];
    }
  }

  /** A sign may stand in front. */
  lemma ScanHexSigned(sign: char, n: nat, width: nat, rest: string)
    requires sign == '-' || sign == '+'
    requires rest == "" || (HexValue(rest[0]) < 0 && rest[0] != 'x' && rest[0] != 'X')
    ensures ScanHex([sign] + Hex(n, width) + rest) == Number(if sign == '-' then 0 - n else n, rest)
  {
    var text := Hex(n, width) + rest;
    HexIsDigits(n, width);
    HexReads(n, width, rest);
    assert HexValue(text[0]) >= 0;
    assert |text| >= 2 ==> text[1] == if |Hex(n, width)| > 1 then Hex(n, width)[1] else rest[0];
    hide Hex, HexDigits;
    assert ([sign] + Hex(n, width) + rest)[1..] == text;
  }

  /** The prefix 0x may stand in front. */
  lemma ScanHexPrefixed(x: char, n: nat, width: nat, rest: string)
    requires (x == 'x' || x == 'X') && (rest == "" || HexValue(rest[0]) < 0)
    ensures ScanHex(['0', x] + Hex(n, width) + rest) == Number(n, rest)
  {
    var text := Hex(n, width) + rest;
    HexIsDigits(n, width);
    HexReads(n, width, rest);
    assert HexValue(text[0]) >= 0;
    hide Hex, HexDigits;
    assert (['0', x] + Hex(n, width) + rest)[2..] == text;
  }

  /** So may white space. */
  lemma ScanHexSpaced(c: char, s: string)
    requires c in {' ', '\t', '\n', '\r', '\U{0B}', '\U{0C}'}
    ensures ScanHex([c] + s) == ScanHex(s)
  {
    assert ([c] + s)[1..] == s;
  }

  lemma HexIsDigits(n: nat, width: nat)
    ensures forall i :: 0 <= i < |Hex(n, width)| ==> HexValue(Hex(n, width)[i]) >= 0
    decreases width, n
  {
    if !(n < 16 && width <= 1) {
      HexIsDigits(n / 16, if width > 0 then width - 1 else 0);
    }
  }

  lemma {:induction false} HexConcat(s: string, t: string, sofar: nat)
    requires forall i :: 0 <= i < |s| ==> HexValue(s[i]) >= 0
    ensures HexDigits(s + t, sofar) == HexDigits(t, HexDigits(s, sofar).0)
  {
    if s == "" {
      assert s + t == t;
    } else {
      assert (s + t)[1..] == s[1..] + t;
      HexConcat(s[1..], t, 16 * sofar + HexValue(s[0]));
    }
  }

  lemma {:induction false} HexReads(n: nat, width: nat, rest: string)
    requires rest == "" || HexValue(rest[0]) < 0
    ensures HexDigits(Hex(n, width) + rest, 0) == (n, rest)
    decreases width, n
  {
    HexIsDigits(n, width);
    HexConcat(Hex(n, width), rest, 0);
    if n < 16 && width <= 1 {
      assert HexDigits([HexDigit(n)], 0).0 == n;
    } else {
      var w := if width > 0 then width - 1 else 0;
      HexIsDigits(n / 16, w);
      HexReads(n / 16, w, "");
      assert Hex(n / 16, w) + "" == Hex(n / 16, w);
      HexConcat(Hex(n / 16, w), [HexDigit(n % 16)], 0);
      assert HexDigits([HexDigit(n % 16)], n / 16).0 == 16 * (n / 16) + n % 16;
    }
  }

  /** sscanf reads back what printf wrote. */
  lemma ScanHexReads(n: nat, width: nat, rest: string)
    requires rest == "" || (HexValue(rest[0]) < 0 && rest[0] != 'x' && rest[0] != 'X')
    ensures ScanHex(Hex(n, width) + rest) == Number(n, rest)
  {
    var s := Hex(n, width) + rest;
    HexIsDigits(n, width);
    HexReads(n, width, rest);
    assert HexValue(s[0]) >= 0;
    assert |s| >= 2 ==> s[1] == if |Hex(n, width)| > 1 then Hex(n, width)[1] else rest[0];
  }
}
