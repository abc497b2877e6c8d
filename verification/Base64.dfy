/** URL-safe base64 without padding (section 5 of RFC 4648), with the decoder of CPython's binascii:
    characters outside the alphabet are skipped, and a completed pad sequence ends the input. */
module Base64 {
  import opened Domain

  type Byte = b: int | 0 <= b < 256

  // ----- alphabet -----------------------------------------------------------

  function SixBitChar(v: nat): (c: char)
    requires v < 64
    ensures c != '='
  {
    if v < 26 then ('A' as int + v) as char
    else if v < 52 then ('a' as int + v - 26) as char
    else if v < 62 then ('0' as int + v - 52) as char
    else if v == 62 then '-' else '_'
  }

  /** The standard alphabet after '-' and '_' were translated to '+' and '/'. */
  function SixBitValue(c: char): (r: Option<nat>)
    ensures r.Some? ==> r.value < 64
  {
    if 'A' <= c <= 'Z' then Some(c as int - 'A' as int)
    else if 'a' <= c <= 'z' then Some(c as int - 'a' as int + 26)
    else if '0' <= c <= '9' then Some(c as int - '0' as int + 52)
    else if c == '-' || c == '+' then Some(62)
    else if c == '_' || c == '/' then Some(63)
    else None
  }

  lemma SixBitRoundTrip(v: nat)
    requires v < 64
    ensures SixBitValue(SixBitChar(v)) == Some(v)
  {
  }

  // ----- encoding -----------------------------------------------------------

  /** Encoding with padding, three bytes to four characters. */
  function Encode(bytes: seq<Byte>): (s: string)
    ensures |s| % 4 == 0
  {
    if |bytes| == 0 then ""
    else if |bytes| == 1 then
      [SixBitChar(bytes[0] / 4), SixBitChar(bytes[0] % 4 * 16), '=', '=']
    else if |bytes| == 2 then
      [SixBitChar(bytes[0] / 4), SixBitChar(bytes[0] % 4 * 16 + bytes[1] / 16),
       SixBitChar(bytes[1] % 16 * 4), '=']
    else Group(bytes[0], bytes[1], bytes[2]) + Encode(bytes[3..])
  }

  function Group(a: Byte, b: Byte, c: Byte): (s: string)
    ensures |s| == 4
  {
    [SixBitChar(a / 4), SixBitChar(a % 4 * 16 + b / 16), SixBitChar(b % 16 * 4 + c / 64), SixBitChar(c % 64)]
  }

  /** rstrip(b"="). */
  function StripPadding(s: string): string {
    if s != "" && s[|s| - 1] == '=' then StripPadding(s[..|s| - 1]) else s
  }

  function EncodeUnpadded(bytes: seq<Byte>): string {
    StripPadding(Encode(bytes))
  }

  /** Pad up to a multiple of four. */
  function Repad(s: string): (r: string)
    ensures |r| % 4 == 0 && s <= r
  {
    s + seq((4 - |s| % 4) % 4, _ => '=')
  }

  // ----- decoding -----------------------------------------------------------

  /** The decoder's loop: `quad` characters of the current group were read, `left` holds their
      undelivered low bits, `pads` counts the pad characters seen since. */
  function DecodeFrom(s: string, quad: nat, left: nat, pads: nat): Option<seq<Byte>>
    requires quad < 4 && left < 64
    requires (quad == 0 ==> left == 0) && (quad == 2 ==> left < 16) && (quad == 3 ==> left < 4)
    decreases |s|
  {
    if s == "" then (if quad == 0 then Some([]) else None)
    else if s[0] == '=' then
      if quad >= 2 && quad + pads + 1 >= 4 then Some([])
      else DecodeFrom(s[1..], quad, left, if quad >= 2 then pads + 1 else pads)
    else
      match SixBitValue(s[0])
      case None => DecodeFrom(s[1..], quad, left, pads)
      case Some(v) =>
        if quad == 0 then DecodeFrom(s[1..], 1, v, 0)
        else if quad == 1 then Cons(left * 4 + v / 16, DecodeFrom(s[1..], 2, v % 16, 0))
        else if quad == 2 then Cons(left * 16 + v / 4, DecodeFrom(s[1..], 3, v % 4, 0))
        else Cons(left * 64 + v, DecodeFrom(s[1..], 0, 0, 0))
  }

  function Cons(b: Byte, rest: Option<seq<Byte>>): Option<seq<Byte>> {
    if rest.Some? then Some([b] + rest.value) else None
  }

  function Decode(s: string): Option<seq<Byte>> {
    DecodeFrom(s, 0, 0, 0)
  }

  /** The payload decoder shared by the cursor and the attachment download. */
  function DecodeUnpadded(s: string): Option<seq<Byte>> {
    Decode(Repad(s))
  }

  // ----- round trip ---------------------------------------------------------

  /** Stripping the padding and adding it again restores the encoding. */
  lemma {:induction false} RepadRestores(bytes: seq<Byte>)
    ensures Repad(EncodeUnpadded(bytes)) == Encode(bytes)
  {
    if |bytes| == 1 {
      PadRun(Encode(bytes), 2);
    } else if |bytes| == 2 {
      PadRun(Encode(bytes), 3);
    } else if |bytes| >= 3 {
      RepadRestores(bytes[3..]);
      PrefixRestores(Group(bytes[0], bytes[1], bytes[2]), Encode(bytes[3..]));
    }
  }

  /** A full group in front does not change what padding is needed. */
  lemma PrefixRestores(group: string, rest: string)
    requires |group| == 4 && group[3] != '=' && Repad(StripPadding(rest)) == rest
    ensures Repad(StripPadding(group + rest)) == group + rest
  {
    StripKeepsPrefix(group, rest);
    RepadAfterGroup(group, StripPadding(rest));
  }

  lemma RepadAfterGroup(group: string, kept: string)
    requires |group| == 4
    ensures Repad(group + kept) == group + Repad(kept)
  {
    assert |group + kept| % 4 == |kept| % 4;
    assert (group + kept) + "" == group + (kept + "");
  }

  /** A group of four whose tail is padding. */
  lemma PadRun(s: string, kept: nat)
    requires |s| == 4 && 2 <= kept <= 3 && forall i | kept <= i < 4 :: s[i] == '='
    requires s[kept - 1] != '='
    ensures StripPadding(s) == s[..kept] && Repad(s[..kept]) == s
  {
    assert StripPadding(s) == StripPadding(s[..3]);
    if kept == 2 {
      assert s[..3][..2] == s[..2];
      assert StripPadding(s[..3]) == StripPadding(s[..2]) == s[..2];
      assert Repad(s[..2]) == s[..2] + ['=', '='];
    } else {
      assert Repad(s[..3]) == s[..3] + ['='];
    }
  }

  lemma {:induction false} StripKeepsPrefix(front: string, back: string)
    requires front != "" && front[|front| - 1] != '='
    ensures StripPadding(front + back) == front + StripPadding(back)
  {
    if back == "" {
      assert front + back == front;
    } else if back[|back| - 1] == '=' {
      assert (front + back)[..|front + back| - 1] == front + back[..|back| - 1];
      StripKeepsPrefix(front, back[..|back| - 1]);
    }
  }

  /** One data character: its bits complete a byte, except in front. */
  lemma OneCharacter(v: nat, rest: string, quad: nat, left: nat)
    requires v < 64 && quad < 4 && left < 64
    requires (quad == 0 ==> left == 0) && (quad == 2 ==> left < 16) && (quad == 3 ==> left < 4)
    ensures DecodeFrom([SixBitChar(v)] + rest, quad, left, 0) ==
      if quad == 0 then DecodeFrom(rest, 1, v, 0)
      else if quad == 1 then Cons(left * 4 + v / 16, DecodeFrom(rest, 2, v % 16, 0))
      else if quad == 2 then Cons(left * 16 + v / 4, DecodeFrom(rest, 3, v % 4, 0))
      else Cons(left * 64 + v, DecodeFrom(rest, 0, 0, 0))
  {
    SixBitRoundTrip(v);
    hide SixBitValue, SixBitChar;
    assert ([SixBitChar(v)] + rest)[1..] == rest;
  }

  /** Four data characters give three bytes. */
  lemma FourCharacters(w: nat, x: nat, y: nat, z: nat, rest: string)
    requires w < 64 && x < 64 && y < 64 && z < 64
    ensures Decode([SixBitChar(w)] + ([SixBitChar(x)] + ([SixBitChar(y)] + ([SixBitChar(z)] + rest))))
      == Cons(w * 4 + x / 16, Cons(x % 16 * 16 + y / 4, Cons(y % 4 * 64 + z, Decode(rest))))
  {
    hide DecodeFrom, SixBitChar, Cons;
    var s3 := [SixBitChar(z)] + rest;
    var s2 := [SixBitChar(y)] + s3;
    OneCharacter(z, rest, 3, y % 4);
    OneCharacter(y, s3, 2, x % 16);
    OneCharacter(x, s2, 1, w);
    OneCharacter(w, [SixBitChar(x)] + s2, 0, 0);
  }

  lemma GroupDecodes(a: Byte, b: Byte, c: Byte, rest: string)
    ensures Decode(Group(a, b, c) + rest) == Cons(a, Cons(b, Cons(c, Decode(rest))))
  {
    var w, x, y, z := a / 4, a % 4 * 16 + b / 16, b % 16 * 4 + c / 64, c % 64;
    Shares(a, b, c);
    FourCharacters(w, x, y, z, rest);
    hide Decode, DecodeFrom, SixBitChar, Cons;
    assert Group(a, b, c) + rest
      == [SixBitChar(w)] + ([SixBitChar(x)] + ([SixBitChar(y)] + ([SixBitChar(z)] + rest)));
  }

  /** How three bytes share four characters. */
  lemma Shares(a: Byte, b: Byte, c: Byte)
    ensures
      var w, x, y, z := a / 4, a % 4 * 16 + b / 16, b % 16 * 4 + c / 64, c % 64;
      && w < 64 && x < 64 && y < 64
      && w * 4 + x / 16 == a && x % 16 == b / 16
      && b / 16 * 16 + y / 4 == b && y % 4 == c / 64
      && c / 64 * 64 + z == c
  {
  }

  lemma {:induction false} DecodeEncode(bytes: seq<Byte>)
    ensures Decode(Encode(bytes)) == Some(bytes)
  {
    if |bytes| == 1 {
      OneByteDecodes(bytes[0]);
      assert bytes == [bytes[0]];
    } else if |bytes| == 2 {
      TwoBytesDecode(bytes[0], bytes[1]);
      assert bytes == [bytes[0], bytes[1]];
    } else if |bytes| >= 3 {
      GroupDecodes(bytes[0], bytes[1], bytes[2], Encode(bytes[3..]));
      DecodeEncode(bytes[3..]);
      assert bytes == [bytes[0]] + ([bytes[1]] + ([bytes[2]] + bytes[3..]));
    }
  }

  lemma OneByteDecodes(a: Byte)
    ensures Decode(Encode([a])) == Some([a])
  {
    var s := Encode([a]);
    SixBitRoundTrip(a / 4);
    SixBitRoundTrip(a % 4 * 16);
    var s1, s2, s3 := s[1..], s[2..], s[3..];
    assert s1[1..] == s2 && s2[1..] == s3;
    assert DecodeFrom(s3, 2, 0, 1) == Some([]);
    assert DecodeFrom(s2, 2, 0, 0) == Some([]);
    assert [a] + [] == [a];
    assert DecodeFrom(s1, 1, a / 4, 0) == Some([a]);
  }

  lemma TwoBytesDecode(a: Byte, b: Byte)
    ensures Decode(Encode([a, b])) == Some([a, b])
  {
    var s := Encode([a, b]);
    SixBitRoundTrip(a / 4);
    SixBitRoundTrip(a % 4 * 16 + b / 16);
    SixBitRoundTrip(b % 16 * 4);
    var s1, s2, s3 := s[1..], s[2..], s[3..];
    assert s1[1..] == s2 && s2[1..] == s3;
    assert DecodeFrom(s3, 3, 0, 0) == Some([]);
    assert [b] + [] == [b];
    assert DecodeFrom(s2, 2, b / 16, 0) == Some([b]);
    assert [a] + [b] == [a, b];
    assert DecodeFrom(s1, 1, a / 4, 0) == Some([a, b]);
  }

  /** Strip, send, re-pad, decode: the identity on every byte string. */
  lemma {:induction false} UnpaddedRoundTrip(bytes: seq<Byte>)
    ensures DecodeUnpadded(EncodeUnpadded(bytes)) == Some(bytes)
  {
    RepadRestores(bytes);
    DecodeEncode(bytes);
  }

  /** How many characters carry data; the others are skipped. */
  function DataCount(s: string): nat {
    if s == "" then 0 else DataCount(s[1..]) + if SixBitValue(s[0]).Some? then 1 else 0
  }

  /** Text without padding decodes exactly when its data characters fill whole groups of four, whatever
      stands between them; each group gives three bytes. */
  lemma {:induction false} WithoutPaddingIff(s: string, quad: nat, left: nat)
    requires quad < 4 && left < 64
    requires (quad == 0 ==> left == 0) && (quad == 2 ==> left < 16) && (quad == 3 ==> left < 4)
    requires '=' !in s
    ensures
      var r := DecodeFrom(s, quad, left, 0);
      && (r.Some? <==> (quad + DataCount(s)) % 4 == 0)
      && (r.Some? && quad == 0 ==> 4 * |r.value| == 3 * DataCount(s))
    decreases |s|
  {
    WithoutPaddingCounts(s, quad, left);
  }

  lemma {:induction false} WithoutPaddingCounts(s: string, quad: nat, left: nat)
    requires quad < 4 && left < 64
    requires (quad == 0 ==> left == 0) && (quad == 2 ==> left < 16) && (quad == 3 ==> left < 4)
    requires '=' !in s
    ensures
      var r := DecodeFrom(s, quad, left, 0);
      && (r.Some? <==> (quad + DataCount(s)) % 4 == 0)
      && (r.Some? ==> 4 * |r.value| == 3 * (quad + DataCount(s)) - 4 * (if quad == 0 then 0 else quad - 1))
    decreases |s|
  {
    if s != "" {
      match SixBitValue(s[0])
      case None => WithoutPaddingCounts(s[1..], quad, left);
      case Some(v) =>
        if quad == 0 { WithoutPaddingCounts(s[1..], 1, v); }
        else if quad == 1 { WithoutPaddingCounts(s[1..], 2, v % 16); }
        else if quad == 2 { WithoutPaddingCounts(s[1..], 3, v % 4); }
        else { WithoutPaddingCounts(s[1..], 0, 0); }
    }
  }

  /** The alphabet, by a vector of section 10 of RFC 4648 and the two characters that are safe in a URL. */
  lemma {:induction false} KnownVectors()
    ensures Encode([102, 111, 111]) == "Zm9v"
    ensures Encode([251, 255, 191]) == "-_-_"
  {
    assert Encode([102, 111, 111]) == Group(102, 111, 111) + Encode([]);
    assert Encode([251, 255, 191]) == Group(251, 255, 191) + Encode([]);
  }
}
