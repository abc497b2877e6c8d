/** Structured fields from receipt text: amounts, the total, the merchant. Text is ASCII. */
module ReceiptParser {
  import opened Domain
  import opened Text
  import Money

  // ----- characters ---------------------------------------------------------

  predicate IsLetter(c: char) {
    'a' <= c <= 'z' || 'A' <= c <= 'Z'
  }

  /** \w */
  predicate IsWord(c: char) {
    IsLetter(c) || IsDecimal(c) || c == '_'
  }

  /** Letters, digits and the underscore make words; blanks and punctuation part them. */
  lemma {:induction false} WordCharactersAre(c: char)
    ensures ('0' <= c <= '9' || 'A' <= c <= 'Z' || 'a' <= c <= 'z' || c == '_') ==> IsWord(c)
    ensures c in " :-.,;$#*/()" ==> !IsWord(c)
  {
  }

  /** Where str.splitlines breaks. */
  predicate IsLineBreak(c: char) {
    10 <= c as int <= 13 || 28 <= c as int <= 30
  }

  // ----- the amount scanner -------------------------------------------------

  /** Length of the digits at the head. */
  function Digits(s: string): (n: nat)
    ensures n <= |s| && AllDecimal(s[..n]) && (n < |s| ==> !IsDecimal(s[n]))
  {
    if s == "" || !IsDecimal(s[0]) then 0
    else
      var n := Digits(s[1..]);
      assert s[..n + 1] == [s[0]] + s[1..][..n];
      n + 1
  }

  /** The point, two digits, and a word boundary. */
  function MatchCents(s: string): Option<nat> {
    if |s| >= 3 && s[0] == '.' && IsDecimal(s[1]) && IsDecimal(s[2]) && (|s| == 3
      || !IsWord(s[3])) then Some(3) else None
  }

  /** Groups of a comma and three digits, then the cents. */
  function MatchGroups(s: string): (n: Option<nat>)
    ensures n.Some? ==> 0 < n.value <= |s|
  {
    if s == "" then None
    else if s[0] == ',' && Digits(s[1..]) == 3 then
      (match MatchGroups(s[4..])
       case Some(n) => Some(n + 4)
       case None => None)
    else MatchCents(s)
  }

  /** The pattern anchored at the head: one to four digits, groups, cents. There is nothing to
      backtrack into: the digits must stop where a comma or the point stands. */
  function MatchAmount(s: string): (n: Option<nat>)
    ensures n.Some? ==> 0 < n.value <= |s|
  {
    if 1 <= Digits(s) <= 4 then
      (match MatchGroups(s[Digits(s)..])
       case Some(n) => Some(n + Digits(s))
       case None => None)
    else None
  }

  /** findall: the leftmost match, then the leftmost match in what follows it. */
  function FindAll(s: string): seq<string>
    decreases |s|
  {
    if s == "" then []
    else
      match MatchAmount(s)
      case Some(n) => [s[..n]] + FindAll(s[n..])
      case None => FindAll(s[1..])
  }

  // ----- what an amount is --------------------------------------------------

  predicate Triples(fields: seq<string>) {
    forall i | 0 <= i < |fields| :: |fields[i]| == 3 && AllDecimal(fields[i])
  }

  /** A whole part of comma-separated digits, the first field of one to four, every other of exactly
      three; a point; two digits. */
  predicate IsAmount(t: string) {
    && |t| >= 4 && t[|t| - 3] == '.' && AllDecimal(t[|t| - 2..])
    && var fields := Split(t[..|t| - 3], ',');
       1 <= |fields[0]| <= 4 && AllDecimal(fields[0]) && Triples(fields[1..])
  }

  /** An amount occupies s[from..to] and does not run into a word. */
  predicate AmountAt(s: string, from: int, to: int) {
    0 <= from <= to <= |s| && IsAmount(s[from..to]) && (to == |s| || !IsWord(s[to]))
  }

  /** Zero or more groups, as text. */
  predicate IsGroups(w: string) {
    w == "" || (w[0] == ',' && Triples(Split(w[1..], ',')))
  }

  predicate IsCents(t: string) {
    |t| == 3 && t[0] == '.' && IsDecimal(t[1]) && IsDecimal(t[2])
  }

  /** One group in front. */
  lemma GroupInFront(d: string, w: string)
    requires |d| == 3 && AllDecimal(d)
    ensures IsGroups([','] + d + w) <==> IsGroups(w)
  {
    var t := [','] + d + w;
    assert t[1..] == d + w;
    if w == "" {
      assert d + w == d;
      SplitNone(d, ',');
    } else if w[0] == ',' {
      assert d + w == d + [','] + w[1..];
      SplitJoin(d, w[1..], ',');
      var rest := Split(w[1..], ',');
      assert Split(d + w, ',') == [d] + rest;
      if Triples([d] + rest) {
        forall i | 0 <= i < |rest| ensures |rest[i]| == 3 && AllDecimal(rest[i]) {
          assert ([d] + rest)[i + 1] == rest[i];
        }
      }
    } else {
      LongField(d, w);
    }
  }

  /** Digits followed by something that is no comma make a first field longer than three. */
  lemma LongField(d: string, w: string)
    requires |d| == 3 && Free(d, ',') && w != "" && w[0] != ','
    ensures |Split(d + w, ',')[0]| > 3
  {
    assert Split(w, ',')[0] != "";
    FieldGrows(d, w);
  }

  lemma {:induction false} FieldGrows(d: string, w: string)
    requires Free(d, ',')
    ensures Split(d + w, ',')[0] == d + Split(w, ',')[0] && Split(d + w, ',')[1..] == Split(w, ',')[1..]
  {
    if d == "" {
      assert d + w == w;
    } else {
      assert (d + w)[1..] == d[1..] + w;
      FieldGrows(d[1..], w);
      assert d == [d[0]] + d[1..];
    }
  }

  predicate GroupsAndCents(s: string, n: nat)
    requires n <= |s|
  {
    n >= 3 && IsGroups(s[..n - 3]) && IsCents(s[n - 3..n])
  }

  /** What MatchGroups accepts: groups, cents, a boundary; and it accepts only the one length. */
  lemma {:induction false} GroupsMatch(s: string, n: nat)
    requires n <= |s|
    ensures MatchGroups(s) == Some(n) <==> GroupsAndCents(s, n) && (n == |s| || !IsWord(s[n]))
    decreases |s|
  {
    hide GroupsAndCents, IsWord;
    if s == "" || s[0] != ',' {
      CentsMatch(s, n);
    } else if Digits(s[1..]) != 3 {
      BrokenGroup(s, n);
    } else if n < 7 {
      if MatchGroups(s[4..]).Some? { AtLeastThree(s[4..], MatchGroups(s[4..]).value); }
      NoEarlyPoint(s, n);
    } else {
      GroupsMatch(s[4..], n - 4);
      GroupStep(s, n);
    }
  }

  lemma CentsMatch(s: string, n: nat)
    requires n <= |s| && (s == "" || s[0] != ',')
    ensures MatchGroups(s) == Some(n) <==> GroupsAndCents(s, n) && (n == |s| || !IsWord(s[n]))
  {
    if n > 3 {
      assert s[..n - 3][0] == s[0];
    } else if n == 3 {
      assert s[0..3] == s[..3];
    }
  }

  lemma BrokenGroup(s: string, n: nat)
    requires n <= |s| && s != "" && s[0] == ',' && Digits(s[1..]) != 3
    ensures MatchGroups(s) == None && !GroupsAndCents(s, n)
  {
    if GroupsAndCents(s, n) { GroupNeedsThree(s, n); }
  }

  lemma {:induction false} AtLeastThree(s: string, n: nat)
    requires MatchGroups(s) == Some(n)
    ensures n >= 3
    decreases |s|
  {
    if s[0] == ',' && Digits(s[1..]) == 3 { AtLeastThree(s[4..], n - 4); }
  }

  lemma GroupStep(s: string, n: nat)
    requires 7 <= n <= |s| && s[0] == ',' && Digits(s[1..]) == 3
    ensures GroupsAndCents(s, n) <==> GroupsAndCents(s[4..], n - 4)
  {
    hide IsGroups;
    var d, w := s[1..4], s[4..][..n - 7];
    assert d == s[1..][..3];
    assert s[..n - 3] == [','] + d + w;
    GroupInFront(d, w);
    SliceOfDrop(s, 4, n - 7, n - 4);
  }

  /** After a comma and three digits the cents cannot start before the fifth character. */
  lemma NoEarlyPoint(s: string, n: nat)
    requires n < 7 && n <= |s| && s != "" && s[0] == ',' && Digits(s[1..]) == 3
    ensures !GroupsAndCents(s, n)
  {
    assert AllDecimal(s[1..][..3]);
    forall k | 1 <= k < 4 ensures IsDecimal(s[k]) {
      assert s[k] == s[1..][..3][k - 1];
    }
  }

  /** A group has exactly three digits after its comma. */
  lemma GroupNeedsThree(s: string, n: nat)
    requires n <= |s| && s != "" && s[0] == ',' && GroupsAndCents(s, n)
    ensures Digits(s[1..]) == 3
  {
    assert s[n - 3] == '.';
    var w := s[..n - 3];
    assert w != "" && w[0] == ',';
    var fields := Split(w[1..], ',');
    assert |fields[0]| == 3 && AllDecimal(fields[0]);
    FirstFieldLeads(w[1..]);
    DigitsOfField(s[1..], w[1..], fields[0]);
  }

  lemma FirstFieldLeads(w: string)
    ensures var f := Split(w, ',')[0]; f <= w && (|f| < |w| ==> w[|f|] == ',')
  {
    JoinSplit(w, ',');
    var fields := Split(w, ',');
    if |fields| > 1 {
      assert w == fields[0] + [','] + Join(fields[1..], ',');
    }
  }

  lemma {:induction false} DigitsAre(s: string, n: nat)
    requires n <= |s| && AllDecimal(s[..n]) && (n < |s| ==> !IsDecimal(s[n]))
    ensures Digits(s) == n
  {
    if n > 0 {
      assert IsDecimal(s[..n][0]);
      assert s[1..][..n - 1] == s[..n][1..];
      DigitsAre(s[1..], n - 1);
    }
  }

  /** The digits at the head of s are exactly the field f when f ends before a comma or the point. */
  lemma DigitsOfField(s: string, w: string, f: string)
    requires w <= s && f <= w && AllDecimal(f)
    requires |f| < |w| ==> w[|f|] == ','
    requires |w| < |s| && s[|w|] == '.'
    ensures Digits(s) == |f|
  {
    assert s[..|f|] == f;
    DigitsAre(s, |f|);
  }

  /** The matcher decides exactly the amounts: it matches at the head and stops at n if and only if
      the first n characters are an amount that ends at a word boundary. In particular no two
      lengths match, so greediness and backtracking cannot matter. */
  lemma {:induction false} MatchesExactlyAmounts(s: string, n: nat)
    requires n <= |s|
    ensures MatchAmount(s) == Some(n) <==> AmountAt(s, 0, n)
  {
    var t := s[..n];
    assert s[0..n] == t;
    var d := Digits(s);
    if MatchAmount(s) == Some(n) {
      GroupsMatch(s[d..], n - d);
      MatchIsAmount(s, n, d);
    }
    if AmountAt(s, 0, n) {
      AmountIsMatch(s, n);
    }
  }

  /** A first field and groups make the whole part, and splitting takes them apart again. */
  lemma WholePart(f: string, w: string)
    requires AllDecimal(f) && (w == "" || w[0] == ',')
    ensures Split(f + w, ',')[0] == f
    ensures Triples(Split(f + w, ',')[1..]) <==> IsGroups(w)
  {
    if w == "" {
      assert f + w == f;
      SplitNone(f, ',');
    } else {
      assert f + w == f + [','] + w[1..];
      SplitJoin(f, w[1..], ',');
      assert Split(f + w, ',')[1..] == Split(w[1..], ',');
    }
  }

  lemma MatchIsAmount(s: string, n: nat, d: nat)
    requires d == Digits(s) && 1 <= d <= 4 && d + 3 <= n <= |s|
    requires GroupsAndCents(s[d..], n - d)
    ensures IsAmount(s[..n])
  {
    hide Digits, Split, IsGroups, MatchGroups, MatchAmount, IsCents, AllDecimal;
    var w := s[d..][..n - d - 3];
    SliceOfDrop(s, d, n - d - 3, n - d);
    CentsEndTheAmount(s, n);
    assert s[..n][..n - 3] == s[..d] + w;
    GroupsLead(w);
    WholePart(s[..d], w);
  }

  lemma CentsEndTheAmount(s: string, n: nat)
    requires 3 <= n <= |s| && IsCents(s[n - 3..n])
    ensures s[..n][n - 3] == '.' && AllDecimal(s[..n][n - 2..])
  {
    assert s[n - 3..n][0] == s[n - 3] && s[n - 3..n][1] == s[n - 2] && s[n - 3..n][2] == s[n - 1];
    assert s[..n][n - 2..] == [s[n - 2], s[n - 1]];
  }

  lemma GroupsLead(w: string)
    requires IsGroups(w)
    ensures w == "" || w[0] == ','
  {
  }

  lemma AmountIsMatch(s: string, n: nat)
    requires n <= |s| && IsAmount(s[..n]) && (n == |s| || !IsWord(s[n]))
    ensures MatchAmount(s) == Some(n)
  {
    hide Split, IsGroups, MatchGroups, Digits, GroupsAndCents;
    var whole := s[..n][..n - 3];
    var f := Split(whole, ',')[0];
    FirstFieldLeads(whole);
    assert s[n - 3] == '.';
    DigitsOfField(s, whole, f);
    var w := whole[|f|..];
    assert whole == f + w;
    WholePart(f, w);
    TailIsGroups(s, n, |f|, w);
    GroupsMatch(s[|f|..], n - |f|);
  }

  lemma TailIsGroups(s: string, n: nat, d: nat, w: string)
    requires 4 <= n <= |s| && d <= n - 3 && w == s[d..n - 3] && IsGroups(w)
    requires s[..n][n - 3] == '.' && AllDecimal(s[..n][n - 2..])
    ensures GroupsAndCents(s[d..], n - d)
  {
    hide IsGroups;
    SliceOfDrop(s, d, 0, n - d - 3);
    SliceOfDrop(s, d, n - d - 3, n - d);
    assert IsDecimal(s[..n][n - 2..][0]) && IsDecimal(s[..n][n - 2..][1]);
  }

  // ----- what the scan finds ------------------------------------------------

  /** No amount starts before `at`. */
  ghost predicate NoneBefore(s: string, at: int) {
    forall from, to :: from < at ==> !AmountAt(s, from, to)
  }

  /** An amount in a suffix is an amount of the text. */
  lemma Shift(s: string, k: nat, from: int, to: int)
    requires k <= |s| && 0 <= from
    ensures AmountAt(s[k..], from, to) <==> AmountAt(s, from + k, to + k)
  {
    if from <= to <= |s| - k {
      assert s[k..][from..to] == s[from + k..to + k];
    }
  }

  /** Nothing is found exactly when the text holds no amount anywhere. */
  lemma {:induction false} FindsNothingIff(s: string)
    ensures FindAll(s) == [] <==> NoneBefore(s, |s| + 1)
    decreases |s|
  {
    hide IsAmount, MatchAmount;
    if s == "" {
      MatchesExactlyAmounts(s, 0);
    } else {
      if MatchAmount(s).Some? {
        MatchesExactlyAmounts(s, MatchAmount(s).value);
      } else {
        FindsNothingIff(s[1..]);
        forall from, to | AmountAt(s, from, to) ensures from >= 1 && AmountAt(s[1..], from - 1, to - 1) {
          if from == 0 { MatchesExactlyAmounts(s, to); }
          Shift(s, 1, from - 1, to - 1);
        }
        forall from, to | AmountAt(s[1..], from, to) ensures AmountAt(s, from + 1, to + 1) {
          Shift(s, 1, from, to);
        }
      }
    }
  }

  /** Left to right, without overlap: the first amount found is the leftmost one in the text, and the
      rest is the scan of what follows it. */
  lemma {:induction false} FindsLeftmostFirst(s: string)
    requires FindAll(s) != []
    ensures exists from, to ::
      && AmountAt(s, from, to) && NoneBefore(s, from)
      && FindAll(s) == [s[from..to]] + FindAll(s[to..])
    decreases |s|
  {
    hide IsAmount, MatchAmount;
    if MatchAmount(s).Some? {
      var n := MatchAmount(s).value;
      MatchesExactlyAmounts(s, n);
      assert AmountAt(s, 0, n) && NoneBefore(s, 0) && s[0..n] == s[..n];
    } else {
      FindsLeftmostFirst(s[1..]);
      var from, to :|
        && AmountAt(s[1..], from, to) && NoneBefore(s[1..], from)
        && FindAll(s[1..]) == [s[1..][from..to]] + FindAll(s[1..][to..]);
      Shift(s, 1, from, to);
      SliceOfDrop(s, 1, from, to);
      DropOfDrop(s, 1, to);
      forall f, t | f < from + 1 ensures !AmountAt(s, f, t) {
        if f == 0 && 0 <= t <= |s| { MatchesExactlyAmounts(s, t); }
        if f > 0 { Shift(s, 1, f - 1, t - 1); }
      }
      assert NoneBefore(s, from + 1);
    }
  }

  // ----- values -------------------------------------------------------------

  function DropCommas(t: string): string {
    if t == "" then "" else (if t[0] == ',' then "" else [t[0]]) + DropCommas(t[1..])
  }

  /** Decimal(amount.replace(",", "")). */
  function ToDecimal(t: string): Option<nat> {
    Money.Parse(DropCommas(t))
  }

  lemma {:induction false} DropConcat(a: string, b: string)
    ensures DropCommas(a + b) == DropCommas(a) + DropCommas(b)
  {
    if a == "" {
      assert a + b == b;
    } else {
      assert (a + b)[1..] == a[1..] + b;
      DropConcat(a[1..], b);
    }
  }

  lemma {:induction false} DropNone(t: string)
    requires Free(t, ',')
    ensures DropCommas(t) == t
  {
    if t != "" { DropNone(t[1..]); }
  }

  /** The fields of the whole part after the first, each worth a thousandth of what stands before it. */
  function Grouped(whole: nat, groups: seq<string>): nat
    requires Triples(groups)
    decreases |groups|
  {
    if groups == [] then whole else Grouped(1000 * whole + NumberOf(groups[0]), groups[1..])
  }

  /** The cents an amount says: 1,234.56 is 123456. */
  function CentsOf(t: string): nat
    requires IsAmount(t)
  {
    var fields := Split(t[..|t| - 3], ',');
    100 * Grouped(NumberOf(fields[0]), fields[1..]) + NumberOf(t[|t| - 2..])
  }

  lemma {:induction false} GroupsWithoutCommas(a: string, groups: seq<string>)
    requires AllDecimal(a) && Triples(groups)
    ensures
      var digits := DropCommas(Join([a] + groups, ','));
      AllDecimal(digits) && NumberOf(digits) == Grouped(NumberOf(a), groups)
      && a <= digits
    decreases |groups|
  {
    NoCommaInDigits(a);
    DropNone(a);
    hide AllDecimal, DropCommas, NumberOf, Join;
    if groups == [] {
      assert [a] + groups == [a];
      JoinOne(a);
    } else {
      var g, rest := groups[0], groups[1..];
      ThreeMoreDigits(a, g);
      GroupsWithoutCommas(a + g, rest);
      MoveComma(a, g, rest);
      assert [a] + groups == [a, g] + rest;
    }
  }

  lemma JoinOne(a: string)
    ensures Join([a], ',') == a
  {
  }

  /** Without commas it does not matter where the first one stood. */
  lemma MoveComma(a: string, g: string, rest: seq<string>)
    requires Free(a, ',')
    ensures DropCommas(Join([a, g] + rest, ',')) == DropCommas(Join([a + g] + rest, ','))
  {
    var tail := if rest == [] then "" else [','] + Join(rest, ',');
    assert ([a, g] + rest)[1..] == [g] + rest && ([g] + rest)[1..] == rest && ([a + g] + rest)[1..] == rest;
    assert Join([g] + rest, ',') == g + tail;
    assert Join([a, g] + rest, ',') == a + [','] + (g + tail);
    assert Join([a + g] + rest, ',') == (a + g) + tail;
    assert (a + g) + tail == a + (g + tail);
    DropConcat(a + [','], g + tail);
    DropConcat(a, [',']);
    assert DropCommas([',']) == "";
    DropConcat(a, g + tail);
    DropNone(a);
    assert a + "" == a;
  }

  /** Every amount converts, and to the number it says. */
  lemma {:induction false} AmountHasValue(t: string)
    requires IsAmount(t)
    ensures ToDecimal(t) == Some(CentsOf(t))
  {
    hide AllDecimal, Split, DropCommas;
    var whole, cents := t[..|t| - 3], t[|t| - 3..];
    var fields := Split(whole, ',');
    JoinSplit(whole, ',');
    assert [fields[0]] + fields[1..] == fields;
    GroupsWithoutCommas(fields[0], fields[1..]);
    CentsHaveNoComma(t);
    DropNone(cents);
    DropConcat(whole, cents);
    assert t == whole + cents;
    assert cents == ['.'] + t[|t| - 2..];
    hide NumberOf, Grouped, IsAmount, Triples;
    WholeAndCents(DropCommas(whole), t[|t| - 2..]);
  }

  lemma WholeAndCents(whole: string, part: string)
    requires AllDecimal(whole) && whole != "" && AllDecimal(part) && |part| == 2
    ensures Money.Parse(whole + (['.'] + part)) == Some(100 * NumberOf(whole) + NumberOf(part))
  {
    hide NumberOf, AllDecimal;
    var d := whole + (['.'] + part);
    assert d[..|d| - 3] == whole && d[|d| - 2..] == part && d[|d| - 3] == '.';
    DigitsReadAsNumber(whole);
    DigitsReadAsNumber(part);
  }

  lemma CentsHaveNoComma(t: string)
    requires |t| >= 3 && t[|t| - 3] == '.' && AllDecimal(t[|t| - 2..])
    ensures Free(t[|t| - 3..], ',')
  {
    var cents := t[|t| - 3..];
    forall i | 0 <= i < 3 ensures cents[i] != ',' {
      if i > 0 { assert IsDecimal(t[|t| - 2..][i - 1]); }
    }
  }

  /** A printed amount below a million is an amount, and says itself. */
  lemma {:induction false} PrintedAmountSaysItself(v: nat)
    requires v < 1_000_000
    ensures IsAmount(Money.Print(v)) && CentsOf(Money.Print(v)) == v && ToDecimal(Money.Print(v)) == Some(v)
  {
    var whole, part := PrintNat(v / 100), PrintFixed(v % 100, 10, 2);
    var t := Money.Print(v);
    assert t[..|t| - 3] == whole && t[|t| - 2..] == part;
    NatRoundTrip(v / 100);
    NatIsShort(v / 100);
    FixedDecimal(v % 100, 2);
    NoCommaInDigits(whole);
    SplitNone(whole, ',');
    CentsHaveNoComma(t);
    NoCommaInside(whole, t[|t| - 3..]);
    assert t == whole + t[|t| - 3..];
    DropNone(t);
    Money.RoundTrip(v);
    AmountHasValue(t);
  }

  lemma NatIsShort(n: nat)
    requires n < 10000
    ensures 1 <= |PrintNat(n)| <= 4
  {
    assert |PrintNat(n / 1000)| == 1;
    assert |PrintNat(n / 100)| <= 2 && n / 100 / 10 == n / 1000;
    assert |PrintNat(n / 10)| <= 3 && n / 10 / 10 == n / 100;
  }

  lemma NoCommaInDigits(s: string)
    requires AllDecimal(s)
    ensures Free(s, ',')
  {
    forall c <- s ensures c != ',' {
      assert IsDecimal(c);
    }
  }

  lemma NoCommaInside(a: string, b: string)
    requires Free(a, ',') && Free(b, ',')
    ensures Free(a + b, ',')
  {
  }

  lemma {:induction false} FoundHaveValues(s: string)
    ensures forall i | 0 <= i < |FindAll(s)| :: ToDecimal(FindAll(s)[i]).Some?
    decreases |s|
  {
    if s != "" {
      if MatchAmount(s).Some? {
        var n := MatchAmount(s).value;
        MatchesExactlyAmounts(s, n);
        assert s[0..n] == s[..n];
        AmountHasValue(s[..n]);
        FoundHaveValues(s[n..]);
      } else {
        FoundHaveValues(s[1..]);
      }
    }
  }

  /** What stands on a line reads as amounts, and its values are what those say. */
  lemma {:induction false} FoundAreAmounts(s: string)
    ensures forall i | 0 <= i < |FindAll(s)| :: IsAmount(FindAll(s)[i])
    decreases |s|
  {
    hide IsAmount;
    if s != "" {
      if MatchAmount(s).Some? {
        var n := MatchAmount(s).value;
        MatchesExactlyAmounts(s, n);
        assert s[0..n] == s[..n];
        FoundAreAmounts(s[n..]);
      } else {
        FoundAreAmounts(s[1..]);
      }
    }
  }

  /** The values of the amounts on a line, left to right. */
  function AmountsOn(line: string): (values: seq<nat>)
    ensures |values| == |FindAll(line)|
    ensures forall i | 0 <= i < |values| :: ToDecimal(FindAll(line)[i]) == Some(values[i])
  {
    FoundHaveValues(line);
    seq(|FindAll(line)|, i requires 0 <= i < |FindAll(line)| => ToDecimal(FindAll(line)[i]).value)
  }

  /** They are the cents the amounts say. */
  lemma {:induction false} AmountsOnAreCents(line: string)
    ensures forall i | 0 <= i < |AmountsOn(line)| ::
      IsAmount(FindAll(line)[i]) && AmountsOn(line)[i] == CentsOf(FindAll(line)[i])
  {
    FoundAreAmounts(line);
    forall i | 0 <= i < |AmountsOn(line)| ensures AmountsOn(line)[i] == CentsOf(FindAll(line)[i]) {
      AmountHasValue(FindAll(line)[i]);
    }
  }

  // ----- the total ----------------------------------------------------------

  const TOTAL_KEYWORDS: seq<string> := ["grand total", "amount due", "total due", "balance due", "total"]

  predicate Spells(s: string, at: int, keyword: string) {
    0 <= at && at + |keyword| <= |s| && forall k | 0 <= k < |keyword| :: Lower(s[at + k]) == keyword[k]
  }

  /** The keyword stands in the line as whole words, in any case. */
  predicate HasKeyword(line: string, keyword: string) {
    exists at | 0 <= at <= |line| ::
      && Spells(line, at, keyword)
      && (at == 0 || !IsWord(line[at - 1]))
      && (at + |keyword| == |line| || !IsWord(line[at + |keyword|]))
  }

  /** The keyword is a word of the line, or several: cut out anywhere, in lower case it is the keyword, and
      no word character touches it. So "subtotal" is no "total". */
  lemma {:induction false} HasKeywordIff(line: string, keyword: string)
    ensures HasKeyword(line, keyword) <==> exists a, w, b :: StandsAlone(line, a, w, b) && LowerAll(w) == keyword
  {
    if HasKeyword(line, keyword) { KeywordCut(line, keyword); }
    forall a, w, b | StandsAlone(line, a, w, b) && LowerAll(w) == keyword ensures HasKeyword(line, keyword) {
      KeywordFound(a, w, b, keyword);
    }
  }

  lemma KeywordCut(line: string, keyword: string)
    requires HasKeyword(line, keyword)
    ensures exists a, w, b :: StandsAlone(line, a, w, b) && LowerAll(w) == keyword
  {
    var at :| 0 <= at <= |line| && Spells(line, at, keyword)
      && (at == 0 || !IsWord(line[at - 1])) && (at + |keyword| == |line| || !IsWord(line[at + |keyword|]));
    hide IsWord;
    var a, w, b := line[..at], line[at..at + |keyword|], line[at + |keyword|..];
    SpelledInLower(line, at, keyword);
    assert line == a + w + b;
    assert StandsAlone(line, a, w, b);
  }

  lemma SpelledInLower(line: string, at: int, keyword: string)
    requires Spells(line, at, keyword)
    ensures LowerAll(line[at..at + |keyword|]) == keyword
  {
    hide Lower;
    var w := line[at..at + |keyword|];
    forall k | 0 <= k < |w| ensures Lower(w[k]) == keyword[k] {
      assert w[k] == line[at + k];
    }
  }

  lemma KeywordFound(a: string, w: string, b: string, keyword: string)
    requires LowerAll(w) == keyword
    requires (a == "" || !IsWord(a[|a| - 1])) && (b == "" || !IsWord(b[0]))
    ensures HasKeyword(a + w + b, keyword)
  {
    var line := a + w + b;
    assert |keyword| == |w|;
    forall k | 0 <= k < |keyword| ensures Lower(line[|a| + k]) == keyword[k] {
      assert line[|a| + k] == w[k];
    }
    assert Spells(line, |a|, keyword);
    if a != "" { assert line[|a| - 1] == a[|a| - 1]; }
    if b != "" { assert line[|a| + |keyword|] == b[0]; }
  }

  /** The five keywords. */
  lemma {:induction false} KeywordsAre(keyword: string)
    ensures keyword in TOTAL_KEYWORDS
      <==> keyword in {"total", "grand total", "total due", "balance due", "amount due"}
  {
  }

  /** A subtotal is no total, and case and a colon do not matter. */
  lemma {:induction false} SubtotalIsNoTotal()
    ensures !HasKeyword("SUBTOTAL 9.99", "total") && HasKeyword("Total: 9.99", "total")
  {
    var line := "Total: 9.99";
    assert line[5] == ':';
    assert Spells(line, 0, "total") by {
      forall k | 0 <= k < 5 ensures Lower(line[0 + k]) == "total"[k] {
      }
    }
    var sub := "SUBTOTAL 9.99";
    assert sub[2] == 'B' && sub[3] == 'T' && sub[5] == 'T';
    if HasKeyword(sub, "total") {
      var at := FirstLetter(sub, "total");
    }
  }

  ghost predicate StandsAlone(line: string, a: string, w: string, b: string) {
    line == a + w + b && (a == "" || !IsWord(a[|a| - 1])) && (b == "" || !IsWord(b[0]))
  }

  /** Of two keywords one of which stands in the other, the longer comes first. */
  lemma {:induction false} SpecificKeywordsComeFirst(i: nat, j: nat)
    requires i < |TOTAL_KEYWORDS| && j < |TOTAL_KEYWORDS| && HasKeyword(TOTAL_KEYWORDS[i], TOTAL_KEYWORDS[j])
    ensures i <= j
  {
    var at := FirstLetter(TOTAL_KEYWORDS[i], TOTAL_KEYWORDS[j]);
    hide HasKeyword;
    assert TOTAL_KEYWORDS[3][0] == 'b' && TOTAL_KEYWORDS[3][1] == 'a' && TOTAL_KEYWORDS[3][2] == 'l';
  }

  lemma FirstLetter(line: string, keyword: string) returns (at: nat)
    requires HasKeyword(line, keyword) && keyword != ""
    ensures at + |keyword| <= |line| && Lower(line[at]) == keyword[0] && (at == 0 || !IsWord(line[at - 1]))
  {
    at :| 0 <= at <= |line| && Spells(line, at, keyword) && (at == 0 || !IsWord(line[at - 1]));
    assert Lower(line[at + 0]) == keyword[0];
  }

  predicate Bears(line: string, keyword: string) {
    HasKeyword(line, keyword) && AmountsOn(line) != []
  }

  /** The right-most amount. */
  function LastAmountOn(line: string): nat
    requires AmountsOn(line) != []
  {
    AmountsOn(line)[|AmountsOn(line)| - 1]
  }

  /** The inner loop: the last amount of the first line that bears the keyword. */
  function OnKeywordLine(lines: seq<string>, keyword: string): Option<nat> {
    if lines == [] then None
    else if Bears(lines[0], keyword) then Some(LastAmountOn(lines[0]))
    else OnKeywordLine(lines[1..], keyword)
  }

  /** The outer loop, over the keywords from most to least specific. */
  function ByKeyword(lines: seq<string>, keywords: seq<string>): Option<nat> {
    if keywords == [] then None
    else
      match OnKeywordLine(lines, keywords[0])
      case Some(v) => Some(v)
      case None => ByKeyword(lines, keywords[1..])
  }

  function AllAmounts(lines: seq<string>): seq<nat> {
    if lines == [] then [] else AmountsOn(lines[0]) + AllAmounts(lines[1..])
  }

  function Max(values: seq<nat>): (m: nat)
    requires values != []
    ensures m in values && forall v <- values :: v <= m
  {
    if |values| == 1 then values[0]
    else
      var m := Max(values[1..]);
      assert values == [values[0]] + values[1..];
      if values[0] > m then values[0] else m
  }

  function ExtractTotal(lines: seq<string>): Option<nat> {
    match ByKeyword(lines, TOTAL_KEYWORDS)
    case Some(v) => Some(v)
    case None => if AllAmounts(lines) == [] then None else Some(Max(AllAmounts(lines)))
  }

  /** Line `i` is the first to bear keyword `k`, and no line bears a more specific one. */
  predicate Wins(lines: seq<string>, keywords: seq<string>, k: int, i: int) {
    && 0 <= k < |keywords| && 0 <= i < |lines| && Bears(lines[i], keywords[k])
    && (forall j | 0 <= j < i :: !Bears(lines[j], keywords[k]))
    && (forall l, j | 0 <= l < k && 0 <= j < |lines| :: !Bears(lines[j], keywords[l]))
  }

  predicate NoneBears(lines: seq<string>, keyword: string) {
    forall j | 0 <= j < |lines| :: !Bears(lines[j], keyword)
  }

  lemma {:induction false} NoBearingLine(lines: seq<string>, keyword: string)
    ensures OnKeywordLine(lines, keyword).None? <==> NoneBears(lines, keyword)
  {
    if lines != [] && !Bears(lines[0], keyword) {
      var rest := lines[1..];
      NoBearingLine(rest, keyword);
      forall j | 0 < j < |lines| ensures Bears(lines[j], keyword) <==> Bears(rest[j - 1], keyword) {
        assert lines[j] == rest[j - 1];
      }
    }
  }

  lemma {:induction false} FirstBearingLine(lines: seq<string>, keyword: string, i: nat)
    requires i < |lines| && Bears(lines[i], keyword) && forall j | 0 <= j < i :: !Bears(lines[j], keyword)
    ensures OnKeywordLine(lines, keyword) == Some(LastAmountOn(lines[i]))
  {
    if i > 0 {
      assert !Bears(lines[0], keyword);
      FirstBearingLine(lines[1..], keyword, i - 1);
    }
  }

  lemma {:induction false} KeywordPriority(lines: seq<string>, keywords: seq<string>, k: int, i: int)
    requires Wins(lines, keywords, k, i)
    ensures ByKeyword(lines, keywords) == Some(LastAmountOn(lines[i]))
  {
    if k == 0 {
      FirstBearingLine(lines, keywords[0], i);
    } else {
      NoBearingLine(lines, keywords[0]);
      assert keywords[1..][k - 1] == keywords[k];
      KeywordPriority(lines, keywords[1..], k - 1, i);
    }
  }

  lemma {:induction false} NoKeyword(lines: seq<string>, keywords: seq<string>)
    requires forall k | 0 <= k < |keywords| :: NoneBears(lines, keywords[k])
    ensures ByKeyword(lines, keywords) == None
  {
    if keywords != [] {
      NoBearingLine(lines, keywords[0]);
      NoKeyword(lines, keywords[1..]);
    }
  }

  lemma {:induction false} AllAmountsMembers(lines: seq<string>, v: nat)
    ensures v in AllAmounts(lines) <==> exists i | 0 <= i < |lines| :: v in AmountsOn(lines[i])
  {
    if lines != [] {
      AllAmountsMembers(lines[1..], v);
      if i :| 0 <= i < |lines| && v in AmountsOn(lines[i]) {
        if i > 0 { assert v in AmountsOn(lines[1..][i - 1]); }
      }
      if i :| 0 <= i < |lines[1..]| && v in AmountsOn(lines[1..][i]) {
        assert v in AmountsOn(lines[i + 1]);
      }
    }
  }

  /** The most specific keyword that any amount-bearing line has decides; of its lines the first; on
      that line the last amount. */
  lemma {:induction false} KeywordDecidesTotal(lines: seq<string>, k: int, i: int)
    requires Wins(lines, TOTAL_KEYWORDS, k, i)
    ensures
      var found := FindAll(lines[i]);
      && found != [] && IsAmount(found[|found| - 1])
      && ExtractTotal(lines) == Some(CentsOf(found[|found| - 1]))
  {
    KeywordPriority(lines, TOTAL_KEYWORDS, k, i);
    AmountsOnAreCents(lines[i]);
  }

  /** With no keyword on an amount-bearing line, the total is the largest amount of the page. */
  lemma {:induction false} LargestWithoutKeyword(lines: seq<string>)
    requires forall k | 0 <= k < |TOTAL_KEYWORDS| :: NoneBears(lines, TOTAL_KEYWORDS[k])
    requires exists i | 0 <= i < |lines| :: AmountsOn(lines[i]) != []
    ensures ExtractTotal(lines).Some?
    ensures exists i, t | 0 <= i < |lines| && t in FindAll(lines[i]) ::
      IsAmount(t) && ExtractTotal(lines).value == CentsOf(t)
    ensures forall i, t | 0 <= i < |lines| && t in FindAll(lines[i]) ::
      IsAmount(t) && CentsOf(t) <= ExtractTotal(lines).value
  {
    hide *;
    var at := LargestValue(lines);
    var most := TextOfValue(lines[at], ExtractTotal(lines).value);
    forall i, t | 0 <= i < |lines| && t in FindAll(lines[i])
      ensures IsAmount(t) && CentsOf(t) <= ExtractTotal(lines).value
    {
      ValueOfText(lines[i], t);
    }
  }

  lemma TextOfValue(line: string, v: nat) returns (t: string)
    requires v in AmountsOn(line)
    ensures t in FindAll(line) && IsAmount(t) && CentsOf(t) == v
  {
    hide IsAmount, CentsOf;
    AmountsOnAreCents(line);
    var n :| 0 <= n < |AmountsOn(line)| && AmountsOn(line)[n] == v;
    t := FindAll(line)[n];
  }

  lemma ValueOfText(line: string, t: string)
    requires t in FindAll(line)
    ensures IsAmount(t) && CentsOf(t) in AmountsOn(line)
  {
    hide IsAmount, CentsOf;
    AmountsOnAreCents(line);
    var n :| 0 <= n < |FindAll(line)| && FindAll(line)[n] == t;
    assert AmountsOn(line)[n] in AmountsOn(line);
  }

  lemma LargestValue(lines: seq<string>) returns (at: nat)
    requires forall k | 0 <= k < |TOTAL_KEYWORDS| :: NoneBears(lines, TOTAL_KEYWORDS[k])
    requires exists i | 0 <= i < |lines| :: AmountsOn(lines[i]) != []
    ensures at < |lines| && ExtractTotal(lines).Some? && ExtractTotal(lines).value in AmountsOn(lines[at])
    ensures forall i, v | 0 <= i < |lines| && v in AmountsOn(lines[i]) :: v <= ExtractTotal(lines).value
  {
    NoKeyword(lines, TOTAL_KEYWORDS);
    var i :| 0 <= i < |lines| && AmountsOn(lines[i]) != [];
    assert AmountsOn(lines[i])[0] in AmountsOn(lines[i]);
    AllAmountsMembers(lines, AmountsOn(lines[i])[0]);
    AllAmountsMembers(lines, ExtractTotal(lines).value);
    at :| 0 <= at < |lines| && ExtractTotal(lines).value in AmountsOn(lines[at]);
    forall j, v | 0 <= j < |lines| && v in AmountsOn(lines[j]) ensures v <= ExtractTotal(lines).value {
      AllAmountsMembers(lines, v);
    }
  }

  ghost predicate HoldsAmount(s: string) {
    exists from, to :: AmountAt(s, from, to)
  }

  lemma HoldsAmountIff(s: string)
    ensures HoldsAmount(s) <==> AmountsOn(s) != []
  {
    FindsNothingIff(s);
    if from, to :| AmountAt(s, from, to) {
      assert from < |s| + 1;
    }
  }

  /** There is no total exactly when no line holds an amount. */
  lemma {:induction false} NoTotalIff(lines: seq<string>)
    ensures ExtractTotal(lines) == None <==> forall i | 0 <= i < |lines| :: !HoldsAmount(lines[i])
  {
    forall i | 0 <= i < |lines| ensures HoldsAmount(lines[i]) <==> AmountsOn(lines[i]) != [] {
      HoldsAmountIff(lines[i]);
    }
    if forall i | 0 <= i < |lines| :: !HoldsAmount(lines[i]) {
      NoKeyword(lines, TOTAL_KEYWORDS);
      if AllAmounts(lines) != [] {
        AllAmountsMembers(lines, AllAmounts(lines)[0]);
      }
    } else {
      var i :| 0 <= i < |lines| && HoldsAmount(lines[i]);
      AllAmountsMembers(lines, AmountsOn(lines[i])[0]);
    }
  }

  // ----- the merchant -------------------------------------------------------

  const MERCHANT_LINE_WINDOW: nat := 5
  const MERCHANT_MIN_LEN: nat := 2

  function DigitCount(s: string): nat {
    if s == "" then 0 else DigitCount(s[1..]) + if IsDecimal(s[0]) then 1 else 0
  }

  /** Where the digits of a line are. */
  function DigitPositions(s: string): set<int> {
    set i | 0 <= i < |s| && IsDecimal(s[i])
  }

  lemma {:induction false} DigitCountCounts(s: string)
    ensures DigitCount(s) == |DigitPositions(s)|
  {
    if s != "" {
      var init, last := s[..|s| - 1], |s| - 1;
      DigitCountCounts(init);
      DigitCountSnoc(s);
      assert DigitPositions(s) == DigitPositions(init) + if IsDecimal(s[last]) then {last} else {};
    }
  }

  lemma {:induction false} DigitCountSnoc(s: string)
    requires s != ""
    ensures DigitCount(s) == DigitCount(s[..|s| - 1]) + if IsDecimal(s[|s| - 1]) then 1 else 0
  {
    if |s| > 1 {
      DigitCountSnoc(s[1..]);
      assert s[1..][..|s| - 2] == s[..|s| - 1][1..];
    }
  }

  /** Long enough, not starting with a digit, and at most two fifths digits. */
  predicate Plausible(line: string) {
    |line| >= MERCHANT_MIN_LEN && !IsDecimal(line[0]) && 5 * DigitCount(line) <= 2 * |line|
  }

  function FirstPlausible(lines: seq<string>): Option<string> {
    if lines == [] then None
    else if Plausible(lines[0]) then Some(lines[0])
    else FirstPlausible(lines[1..])
  }

  function ExtractMerchant(lines: seq<string>): Option<string> {
    FirstPlausible(if |lines| <= MERCHANT_LINE_WINDOW then lines else lines[..MERCHANT_LINE_WINDOW])
  }

  lemma {:induction false} FirstPlausibleIs(lines: seq<string>, m: string)
    ensures FirstPlausible(lines) == Some(m) <==>
      exists i | 0 <= i < |lines| :: lines[i] == m && Plausible(m) && forall j | 0 <= j < i :: !Plausible(lines[j])
  {
    if lines != [] && !Plausible(lines[0]) {
      var rest := lines[1..];
      FirstPlausibleIs(rest, m);
      if FirstPlausible(rest) == Some(m) {
        var i :| 0 <= i < |rest| && rest[i] == m && Plausible(m) && forall j | 0 <= j < i :: !Plausible(rest[j]);
        forall j | 0 <= j < i + 1 ensures !Plausible(lines[j]) {
          if j > 0 { assert lines[j] == rest[j - 1]; }
        }
        assert lines[i + 1] == m;
      }
      if i :| 0 <= i < |lines| && lines[i] == m && Plausible(m) && forall j | 0 <= j < i :: !Plausible(lines[j]) {
        assert rest[i - 1] == m;
        forall j | 0 <= j < i - 1 ensures !Plausible(rest[j]) {
          assert rest[j] == lines[j + 1];
        }
      }
    }
  }

  /** Two characters or more, no digit in front, and at most two fifths of it digits. */
  predicate MayBeAName(line: string) {
    |line| >= 2 && 0 !in DigitPositions(line) && 5 * |DigitPositions(line)| <= 2 * |line|
  }

  lemma PlausibleIff(line: string)
    ensures Plausible(line) <==> MayBeAName(line)
  {
    DigitCountCounts(line);
  }

  /** The merchant is the first plausible of the first five lines, or absent when none is. */
  lemma {:induction false} MerchantIsFirstPlausible(lines: seq<string>, m: string)
    ensures ExtractMerchant(lines) == Some(m) <==>
      exists i | 0 <= i < |lines| && i < 5 ::
        lines[i] == m && MayBeAName(m) && forall j | 0 <= j < i :: !MayBeAName(lines[j])
  {
    forall line: string ensures Plausible(line) <==> MayBeAName(line) {
      PlausibleIff(line);
    }
    hide Plausible, MayBeAName;
    FirstPlausibleIs(if |lines| <= MERCHANT_LINE_WINDOW then lines else lines[..MERCHANT_LINE_WINDOW], m);
  }

  // ----- lines --------------------------------------------------------------

  /** The stripped lines that are not blank. `held` is the line being read. */
  function LinesFrom(text: string, held: string): seq<string> {
    if text == "" then (if Strip(held) == "" then [] else [Strip(held)])
    else if IsLineBreak(text[0]) then (if Strip(held) == "" then [] else [Strip(held)]) + LinesFrom(text[1..], "")
    else LinesFrom(text[1..], held + [text[0]])
  }

  function Lines(text: string): seq<string> {
    LinesFrom(text, "")
  }

  predicate Trimmed(line: string) {
    line != "" && !IsSpace(line[0]) && !IsSpace(line[|line| - 1])
  }

  lemma {:induction false} StripRightEnds(s: string)
    ensures StripRight(s) <= s && (StripRight(s) != "" ==> !IsSpace(StripRight(s)[|StripRight(s)| - 1]))
  {
    if s != "" && IsSpace(s[|s| - 1]) { StripRightEnds(s[..|s| - 1]); }
  }

  lemma {:induction false} StripLeftStarts(s: string)
    ensures StripLeft(s) != "" ==> !IsSpace(StripLeft(s)[0])
  {
    if s != "" && IsSpace(s[0]) { StripLeftStarts(s[1..]); }
  }

  /** The extractors see lines without surrounding blanks and no blank ones. */
  lemma {:induction false} LinesAreTrimmed(text: string, held: string)
    ensures forall i | 0 <= i < |LinesFrom(text, held)| :: Trimmed(LinesFrom(text, held)[i])
    decreases |text|
  {
    StripLeftStarts(held);
    StripRightEnds(StripLeft(held));
    if text != "" { LinesAreTrimmed(text[1..], if IsLineBreak(text[0]) then "" else held + [text[0]]); }
  }

  /** Reading the lines of two texts with a break between them is reading them one after the other. */
  lemma {:induction false} LinesOfTwoTexts(a: string, c: char, b: string, held: string)
    requires IsLineBreak(c)
    ensures LinesFrom(a + [c] + b, held) == LinesFrom(a, held) + LinesFrom(b, "")
    decreases |a|
  {
    var s := a + [c] + b;
    if a == "" {
      assert s[1..] == b;
    } else {
      assert s[1..] == a[1..] + [c] + b;
      LinesOfTwoTexts(a[1..], c, b, if IsLineBreak(a[0]) then "" else held + [a[0]]);
    }
  }

  lemma {:induction false} LineWithoutBreak(s: string, held: string)
    requires forall i | 0 <= i < |s| :: !IsLineBreak(s[i])
    ensures LinesFrom(s, held) == if Strip(held + s) == "" then [] else [Strip(held + s)]
    decreases |s|
  {
    if s == "" {
      assert held + s == held;
    } else {
      LineWithoutBreak(s[1..], held + [s[0]]);
      assert held + [s[0]] + s[1..] == held + s;
    }
  }

  /** A line feed and a carriage return end a line; blanks, letters, digits and punctuation do not. */
  lemma {:induction false} LineBreaksAre(c: char)
    ensures IsLineBreak('\n') && IsLineBreak('\r')
    ensures ' ' <= c <= '~' ==> !IsLineBreak(c)
  {
  }

  /** No line is lost, added or moved: a text is read break by break, and a stretch without a break is its
      stripped self, unless that is blank. */
  lemma {:induction false} LinesAreTheStretches(a: string, c: char, b: string)
    requires IsLineBreak(c) && forall i | 0 <= i < |a| :: !IsLineBreak(a[i])
    ensures Lines(a) == if Strip(a) == "" then [] else [Strip(a)]
    ensures Lines(a + [c] + b) == Lines(a) + Lines(b)
  {
    LineWithoutBreak(a, "");
    assert "" + a == a;
    LinesOfTwoTexts(a, c, b, "");
  }
}
