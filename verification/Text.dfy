/** Printing and parsing of numbers, and splitting on a separator. */
module Text {
  import opened Domain

  // ----- digits -------------------------------------------------------------

  function DigitChar(d: nat): (c: char)
    requires d < 16
  {
    if d < 10 then ('0' as int + d) as char else ('a' as int + d - 10) as char
  }

  /** The value of a hexadecimal digit of either case. */
  function DigitValue(c: char): Option<nat> {
    if '0' <= c <= '9' then Some(c as int - '0' as int)
    else if 'a' <= c <= 'f' then Some(c as int - 'a' as int + 10)
    else if 'A' <= c <= 'F' then Some(c as int - 'A' as int + 10)
    else None
  }

  lemma DigitRoundTrip(d: nat)
    requires d < 16
    ensures DigitValue(DigitChar(d)) == Some(d)
  {
  }

  predicate IsDecimal(c: char) {
    '0' <= c <= '9'
  }

  predicate Ascii(s: string) {
    forall i | 0 <= i < |s| :: s[i] as int < 128
  }

  predicate AllDecimal(s: string) {
    forall c <- s :: IsDecimal(c)
  }

  // ----- numbers ------------------------------------------------------------

  /** What a decimal numeral says. */
  function NumberOf(s: string): nat
    requires AllDecimal(s)
  {
    if s == "" then 0
    else
      assert IsDecimal(s[|s| - 1]);
      10 * NumberOf(s[..|s| - 1]) + (s[|s| - 1] as int - '0' as int)
  }

  lemma {:induction false} DigitsReadAsNumber(s: string)
    requires AllDecimal(s)
    ensures ParseDigits(s, 10) == Some(NumberOf(s))
  {
    if s != "" {
      assert IsDecimal(s[|s| - 1]);
      DigitsReadAsNumber(s[..|s| - 1]);
    }
  }

  /** Three more digits make thousands of what stood before. */
  lemma ThreeMoreDigits(a: string, g: string)
    requires AllDecimal(a) && AllDecimal(g) && |g| == 3
    ensures AllDecimal(a + g) && NumberOf(a + g) == 1000 * NumberOf(a) + NumberOf(g)
  {
    var x, y := a + [g[0]], a + [g[0], g[1]];
    assert (a + g)[..|a| + 2] == y && y[..|a| + 1] == x && x[..|a|] == a;
    assert g[..2][..1] == g[..1] && g[..1][..0] == "";
    OneMoreDigit(a, g[0]);
    OneMoreDigit(x, g[1]);
    OneMoreDigit(y, g[2]);
    OneMoreDigit("", g[0]);
    OneMoreDigit(g[..1], g[1]);
    OneMoreDigit(g[..2], g[2]);
    hide NumberOf, AllDecimal;
    assert x + [g[1]] == y && y + [g[2]] == a + g;
    assert "" + [g[0]] == g[..1] && g[..1] + [g[1]] == g[..2] && g[..2] + [g[2]] == g;
  }

  lemma OneMoreDigit(a: string, c: char)
    requires AllDecimal(a) && IsDecimal(c)
    ensures AllDecimal(a + [c]) && NumberOf(a + [c]) == 10 * NumberOf(a) + (c as int - '0' as int)
  {
    assert (a + [c])[..|a|] == a;
  }

  function Pow(base: nat, width: nat): nat {
    if width == 0 then 1 else base * Pow(base, width - 1)
  }

  /** Exactly `width` digits; higher ones are dropped. */
  function PrintFixed(n: nat, base: nat, width: nat): (s: string)
    requires base == 10 || base == 16
    ensures |s| == width
  {
    if width == 0 then "" else PrintFixed(n / base, base, width - 1) + [DigitChar(n % base)]
  }

  /** Digits without leading zeros. */
  function PrintNat(n: nat): (s: string)
    ensures |s| >= 1
  {
    if n < 10 then [DigitChar(n)] else PrintNat(n / 10) + [DigitChar(n % 10)]
  }

  function ParseDigits(s: string, base: nat): Option<nat> {
    if s == "" then Some(0)
    else
      var front, last := ParseDigits(s[..|s| - 1], base), DigitValue(s[|s| - 1]);
      if front.Some? && last.Some? && last.value < base then Some(front.value * base + last.value) else None
  }

  lemma {:induction false} FixedRoundTrip(n: nat, base: nat, width: nat)
    requires (base == 10 || base == 16) && n < Pow(base, width)
    ensures ParseDigits(PrintFixed(n, base, width), base) == Some(n)
  {
    if width != 0 {
      QuotientFits(n, base, Pow(base, width - 1));
      FixedRoundTrip(n / base, base, width - 1);
      DigitRoundTrip(n % base);
      var s := PrintFixed(n, base, width);
      assert s[..|s| - 1] == PrintFixed(n / base, base, width - 1);
    }
  }

  lemma QuotientFits(n: nat, base: nat, p: nat)
    requires (base == 10 || base == 16) && n < base * p
    ensures n / base < p && n / base * base + n % base == n
  {
    if base == 10 { assert n < 10 * p; } else { assert n < 16 * p; }
  }

  lemma {:induction false} NatRoundTrip(n: nat)
    ensures ParseDigits(PrintNat(n), 10) == Some(n) && AllDecimal(PrintNat(n))
  {
    DigitRoundTrip(n % 10);
    if n >= 10 {
      NatRoundTrip(n / 10);
      var s := PrintNat(n);
      assert s[..|s| - 1] == PrintNat(n / 10);
    } else {
      assert PrintNat(n)[..0] == "";
    }
  }

  lemma {:induction false} FixedDecimal(n: nat, width: nat)
    ensures AllDecimal(PrintFixed(n, 10, width))
  {
    if width != 0 { FixedDecimal(n / 10, width - 1); }
  }

  lemma {:induction false} DecimalParses(s: string)
    requires AllDecimal(s)
    ensures ParseDigits(s, 10).Some?
  {
    if s != "" {
      assert IsDecimal(s[|s| - 1]);
      DecimalParses(s[..|s| - 1]);
    }
  }

  /** The value of digits written after one another. */
  lemma {:induction false} ParseConcat(a: string, b: string)
    requires AllDecimal(a) && AllDecimal(b)
    ensures ParseDigits(a, 10).Some? && ParseDigits(b, 10).Some?
    ensures ParseDigits(a + b, 10) == Some(ParseDigits(a, 10).value * Pow(10, |b|) + ParseDigits(b, 10).value)
  {
    DecimalParses(a);
    DecimalParses(b);
    if b == "" {
      assert a + b == a;
    } else {
      var front := b[..|b| - 1];
      ParseConcat(a, front);
      assert (a + b)[..|a + b| - 1] == a + front;
      ShiftSum(ParseDigits(a, 10).value, Pow(10, |front|), ParseDigits(front, 10).value);
    }
  }

  lemma ShiftSum(x: nat, p: nat, y: nat)
    ensures (x * p + y) * 10 == x * (10 * p) + y * 10
  {
  }

  function PrintInt(i: int): string {
    if i < 0 then "-" + PrintNat(-i) else PrintNat(i)
  }

  /** A decimal integer with an optional sign; at least one digit. */
  function ParseInt(s: string): Option<int> {
    if s == "" then None
    else if s[0] == '-' || s[0] == '+' then
      if |s| == 1 then None
      else
        (match ParseDigits(s[1..], 10)
         case Some(n) => Some(if s[0] == '-' then -(n as int) else n as int)
         case None => None)
    else ParseDigits(s, 10)
  }

  lemma IntRoundTrip(i: int)
    ensures ParseInt(PrintInt(i)) == Some(i)
  {
    if i < 0 {
      NatRoundTrip(-i);
      assert PrintInt(i)[1..] == PrintNat(-i);
    } else {
      NatRoundTrip(i);
      assert IsDecimal(PrintNat(i)[0]);
    }
  }

  // ----- case and blanks (ASCII) --------------------------------------------

  function Lower(c: char): char {
    if 'A' <= c <= 'Z' then (c as int - 'A' as int + 'a' as int) as char else c
  }

  function LowerAll(s: string): string {
    seq(|s|, i requires 0 <= i < |s| => Lower(s[i]))
  }

  /** Lower case leaves no capital, moves each capital to its small letter, and nothing else. */
  lemma {:induction false} LowerCaseIs(c: char)
    ensures !('A' <= Lower(c) <= 'Z')
    ensures if 'A' <= c <= 'Z' then Lower(c) as int - 'a' as int == c as int - 'A' as int else Lower(c) == c
  {
  }

  /** Blanks, tabs and line ends are blank; what is printed is not. */
  lemma {:induction false} BlanksAre(c: char)
    ensures c in " \t\n\r" ==> IsSpace(c)
    ensures '!' <= c <= '~' ==> !IsSpace(c)
  {
  }

  predicate IsSpace(c: char) {
    c == ' ' || 9 <= c as int <= 13 || 28 <= c as int <= 31
  }

  function StripLeft(s: string): string {
    if s != "" && IsSpace(s[0]) then StripLeft(s[1..]) else s
  }

  function StripRight(s: string): string {
    if s != "" && IsSpace(s[|s| - 1]) then StripRight(s[..|s| - 1]) else s
  }

  function Strip(s: string): string {
    StripRight(StripLeft(s))
  }

  lemma {:induction false} StripLeftBlanks(left: string, s: string)
    requires forall i | 0 <= i < |left| :: IsSpace(left[i])
    ensures StripLeft(left + s) == StripLeft(s)
  {
    if left == "" {
      assert left + s == s;
    } else {
      assert (left + s)[1..] == left[1..] + s;
      StripLeftBlanks(left[1..], s);
    }
  }

  lemma {:induction false} StripRightBlanks(s: string, right: string)
    requires forall i | 0 <= i < |right| :: IsSpace(right[i])
    ensures StripRight(s + right) == StripRight(s)
  {
    if right == "" {
      assert s + right == s;
    } else {
      assert (s + right)[..|s + right| - 1] == s + right[..|right| - 1];
      StripRightBlanks(s, right[..|right| - 1]);
    }
  }

  lemma StripBlanks(s: string, left: string, right: string)
    requires forall i | 0 <= i < |left| :: IsSpace(left[i])
    requires forall i | 0 <= i < |right| :: IsSpace(right[i])
    ensures Strip(left + s + right) == Strip(s)
  {
    assert left + s + right == left + (s + right);
    StripLeftBlanks(left, s + right);
    StripLeftOfBoth(s, right);
  }

  lemma {:induction false} StripLeftOfBoth(s: string, right: string)
    requires forall i | 0 <= i < |right| :: IsSpace(right[i])
    ensures StripRight(StripLeft(s + right)) == StripRight(StripLeft(s))
  {
    if s == "" {
      assert s + right == right + "";
      StripLeftBlanks(right, "");
    } else if IsSpace(s[0]) {
      assert (s + right)[1..] == s[1..] + right;
      StripLeftOfBoth(s[1..], right);
    } else {
      StripRightBlanks(s, right);
    }
  }

  /** Stripping takes off the surrounding blanks, all of them and nothing else. */
  lemma {:induction false} StripIs(left: string, core: string, right: string)
    requires forall i | 0 <= i < |left| :: IsSpace(left[i])
    requires forall i | 0 <= i < |right| :: IsSpace(right[i])
    requires core != "" ==> !IsSpace(core[0]) && !IsSpace(core[|core| - 1])
    ensures Strip(left + core + right) == core
  {
    StripBlanks(core, left, right);
  }

  // ----- slices -------------------------------------------------------------

  lemma SliceOfDrop<T>(s: seq<T>, k: nat, from: nat, to: nat)
    requires from <= to && k + to <= |s|
    ensures s[k..][from..to] == s[k + from..k + to]
  {
  }

  lemma DropOfDrop<T>(s: seq<T>, j: nat, k: nat)
    requires j + k <= |s|
    ensures s[j..][k..] == s[j + k..]
  {
  }

  // ----- splitting ----------------------------------------------------------

  /** str.split on one separator character: always at least one field. */
  function Split(s: string, sep: char): (fields: seq<string>)
    ensures |fields| >= 1
  {
    if s == "" then [""]
    else
      var rest := Split(s[1..], sep);
      if s[0] == sep then [""] + rest else [[s[0]] + rest[0]] + rest[1..]
  }

  predicate Free(s: string, sep: char) {
    sep !in s
  }

  lemma {:induction false} SplitJoin(field: string, rest: string, sep: char)
    requires Free(field, sep)
    ensures Split(field + [sep] + rest, sep) == [field] + Split(rest, sep)
  {
    var s := field + [sep] + rest;
    if field == "" {
      assert s[1..] == rest;
    } else {
      assert s[1..] == field[1..] + [sep] + rest;
      SplitJoin(field[1..], rest, sep);
      assert [s[0]] + field[1..] == field;
    }
  }

  lemma {:induction false} SplitNone(field: string, sep: char)
    requires Free(field, sep)
    ensures Split(field, sep) == [field]
  {
    if field != "" {
      SplitNone(field[1..], sep);
      assert [field[0]] + field[1..] == field;
    }
  }

  lemma {:induction false} SplitConcat(a: string, b: string, sep: char)
    ensures Split(a + [sep] + b, sep) == Split(a, sep) + Split(b, sep)
  {
    var s := a + [sep] + b;
    if a == "" {
      assert s[1..] == b;
    } else {
      assert s[1..] == a[1..] + [sep] + b;
      SplitConcat(a[1..], b, sep);
    }
  }

  lemma {:induction false} OneFieldIffFree(s: string, sep: char)
    ensures |Split(s, sep)| == 1 <==> Free(s, sep)
  {
    if s != "" {
      OneFieldIffFree(s[1..], sep);
      assert s == [s[0]] + s[1..];
    }
  }

  /** Splitting loses nothing: joining the fields again gives the text back. */
  function Join(fields: seq<string>, sep: char): string
    requires |fields| >= 1
  {
    if |fields| == 1 then fields[0] else fields[0] + [sep] + Join(fields[1..], sep)
  }

  lemma {:induction false} JoinSplit(s: string, sep: char)
    ensures Join(Split(s, sep), sep) == s
    ensures forall i | 0 <= i < |Split(s, sep)| :: Free(Split(s, sep)[i], sep)
  {
    if s != "" {
      var rest := Split(s[1..], sep);
      JoinSplit(s[1..], sep);
      assert s == [s[0]] + s[1..];
      if s[0] == sep {
        assert Split(s, sep)[1..] == rest;
      } else {
        var fields := Split(s, sep);
        assert fields[1..] == rest[1..] && fields[0] == [s[0]] + rest[0];
        forall i | 0 <= i < |fields| ensures Free(fields[i], sep) {
          assert Free(rest[i], sep);
        }
        if |rest| > 1 {
          var tail := Join(rest[1..], sep);
          assert [s[0]] + (rest[0] + [sep] + tail) == ([s[0]] + rest[0]) + [sep] + tail;
        }
      }
    }
  }
}
