/** UUIDs as 128-bit numbers and their hyphenated text. */
module Uuid {
  import opened Domain
  import opened Text

  predicate IsUuid(id: nat) {
    id < Pow(16, 32)
  }

  function Hyphen(a: string, b: string): (s: string)
    ensures |s| == |a| + 1 + |b|
  {
    a + (['-'] + b)
  }

  /** Lower-case hexadecimal, grouped 8-4-4-4-12. */
  function Print(id: nat): (s: string)
    ensures |s| == 36
  {
    var h := PrintFixed(id, 16, 32);
    Hyphen(h[..8], Hyphen(h[8..12], Hyphen(h[12..16], Hyphen(h[16..20], h[20..]))))
  }

  function DropHyphens(s: string): string {
    if s == "" then ""
    else (if s[0] == '-' then "" else [s[0]]) + DropHyphens(s[1..])
  }

  /** Hyphens are ignored; 32 hexadecimal digits must remain. */
  function Parse(s: string): Option<nat> {
    var h := DropHyphens(s);
    if |h| == 32 then ParseDigits(h, 16) else None
  }

  lemma {:induction false} DropConcat(a: string, b: string)
    ensures DropHyphens(a + b) == DropHyphens(a) + DropHyphens(b)
  {
    if a == "" {
      assert a + b == b;
    } else {
      assert (a + b)[1..] == a[1..] + b;
      DropConcat(a[1..], b);
    }
  }

  lemma {:induction false} DropNothing(s: string)
    requires forall i | 0 <= i < |s| :: s[i] != '-'
    ensures DropHyphens(s) == s
  {
    if s != "" { DropNothing(s[1..]); }
  }

  predicate IsLowerHex(c: char) {
    '0' <= c <= '9' || 'a' <= c <= 'f'
  }

  lemma {:induction false} HexText(n: nat, width: nat)
    ensures forall i | 0 <= i < width :: IsLowerHex(PrintFixed(n, 16, width)[i])
  {
    if width != 0 { HexText(n / 16, width - 1); }
  }

  lemma DropField(field: string, rest: string)
    requires forall i | 0 <= i < |field| :: IsLowerHex(field[i])
    ensures DropHyphens(Hyphen(field, rest)) == field + DropHyphens(rest)
  {
    DropNothing(field);
    DropConcat(field, ['-'] + rest);
    assert (['-'] + rest)[1..] == rest;
  }

  lemma {:induction false} RoundTrip(id: nat)
    requires IsUuid(id)
    ensures Parse(Print(id)) == Some(id)
  {
    hide Print, DropHyphens;
    FixedRoundTrip(id, 16, 32);
    DigitsOfText(id);
  }

  lemma DigitsOfText(id: nat)
    ensures DropHyphens(Print(id)) == PrintFixed(id, 16, 32)
  {
    hide DropHyphens, PrintFixed;
    var h := PrintFixed(id, 16, 32);
    HexText(id, 32);
    var r3 := Hyphen(h[16..20], h[20..]);
    var r2 := Hyphen(h[12..16], r3);
    var r1 := Hyphen(h[8..12], r2);
    DropNothing(h[20..]);
    DropField(h[16..20], h[20..]);
    DropField(h[12..16], r3);
    DropField(h[8..12], r2);
    DropField(h[..8], r1);
    assert h[16..] == h[16..20] + h[20..];
    assert h[12..] == h[12..16] + h[16..];
    assert h[8..] == h[8..12] + h[12..];
    assert h == h[..8] + h[8..];
  }

  /** Hyphens stand after 8, 12, 16 and 20 digits, and nowhere else. */
  lemma {:induction false} HyphensStand(id: nat)
    ensures forall i | 0 <= i < 36 :: Print(id)[i] == '-' <==> i in {8, 13, 18, 23}
  {
    HexText(id, 32);
  }

  /** The text is plain: it can stand in a JSON string or between dots. */
  lemma TextIsPlain(id: nat)
    ensures forall i | 0 <= i < 36 :: IsLowerHex(Print(id)[i]) || Print(id)[i] == '-'
  {
    HexText(id, 32);
  }
}
