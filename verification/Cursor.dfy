/** The opaque pagination cursor: base64url of a two-field JSON object. */
module Cursor {
  import opened Domain
  import opened Text
  import opened Calendar
  import opened Base64
  import Uuid

  datatype ExpenseCursor = ExpenseCursor(date: Date, id: nat)

  predicate WellFormed(c: ExpenseCursor) {
    Valid(c.date) && Uuid.IsUuid(c.id)
  }

  // ----- bytes and JSON -----------------------------------------------------

  // The members a payload may hold. A number is kept as its digits.
  datatype Json = Str(text: string) | Whole(digits: string) | Bool(value: bool) | Null

  // A malformed cursor is a client error; the other kind is an exception nobody catches.
  datatype Failure = Malformed | Uncaught

  predicate Plain(s: string) {
    forall i | 0 <= i < |s| :: s[i] != '"' && s[i] != '\\'
  }

  function ToBytes(s: string): (bytes: seq<Byte>)
    requires Ascii(s)
    ensures |bytes| == |s| && forall i | 0 <= i < |s| :: bytes[i] == s[i] as int
  {
    if s == "" then [] else [s[0] as Byte] + ToBytes(s[1..])
  }

  /** The text of the bytes; only ASCII is decoded. */
  function FromBytes(bytes: seq<Byte>): Option<string> {
    if forall i | 0 <= i < |bytes| :: bytes[i] < 128
    then Some(seq(|bytes|, i requires 0 <= i < |bytes| => bytes[i] as char))
    else None
  }

  /** A JSON string literal without escapes at the head of `s`, and what follows it. */
  function TakeString(s: string): (r: Option<(string, string)>)
    ensures r.Some? ==> |r.value.1| < |s|
  {
    if s != "" && s[0] == '"' then TakeRest(s[1..]) else None
  }

  function TakeRest(s: string): (r: Option<(string, string)>)
    ensures r.Some? ==> |r.value.1| < |s|
  {
    if s == "" || s[0] == '\\' then None
    else if s[0] == '"' then Some(("", s[1..]))
    else
      match TakeRest(s[1..])
      case Some((text, rest)) => Some(([s[0]] + text, rest))
      case None => None
  }

  function TakeDigits(s: string): (r: (string, string))
    ensures |r.0| + |r.1| == |s|
  {
    if s == "" || !IsDecimal(s[0]) then ("", s)
    else
      var (digits, rest) := TakeDigits(s[1..]);
      ([s[0]] + digits, rest)
  }

  predicate IsNumber(digits: string) {
    digits != "" && AllDecimal(digits) && (digits[0] == '0' ==> |digits| == 1)
  }

  /** A member's value at the head of `s`, and what follows it. */
  function TakeValue(s: string): (r: Option<(Json, string)>)
    ensures r.Some? ==> |r.value.1| < |s|
  {
    if s != "" && s[0] == '"' then
      match TakeString(s)
      case Some((text, rest)) => Some((Str(text), rest))
      case None => None
    else if s != "" && IsDecimal(s[0]) then
      var (digits, rest) := TakeDigits(s);
      if IsNumber(digits) then Some((Whole(digits), rest)) else None
    else if "true" <= s then Some((Bool(true), s[4..]))
    else if "false" <= s then Some((Bool(false), s[5..]))
    else if "null" <= s then Some((Null, s[4..]))
    else None
  }

  /** The members of an object, up to the closing brace; a repeated key keeps its last value. */
  function ParseMembers(s: string): Option<map<string, Json>>
    decreases |s|
  {
    match TakeString(s)
    case None => None
    case Some((key, afterKey)) =>
      if afterKey == "" || afterKey[0] != ':' then None
      else
        match TakeValue(afterKey[1..])
        case None => None
        case Some((value, rest)) =>
          if rest == "}" then Some(map[key := value])
          else if rest != "" && rest[0] == ',' then
            (match ParseMembers(rest[1..])
             case Some(others) => Some(map[key := value] + others)
             case None => None)
          else None
  }

  function ParseObject(s: string): Option<map<string, Json>> {
    if s == "{}" then Some(map[])
    else if s != "" && s[0] == '{' then ParseMembers(s[1..])
    else None
  }

  // ----- the cursor ---------------------------------------------------------

  /** A string literal followed by more text. */
  function Quote(text: string, rest: string): (s: string)
    ensures Ascii(text) && Ascii(rest) ==> Ascii(s)
  {
    ['"'] + (text + (['"'] + rest))
  }

  /** The compact object with the two fields "d" and "i". */
  function Payload(c: ExpenseCursor): (s: string)
    requires WellFormed(c)
    ensures Ascii(s)
  {
    PayloadIsPlain(c);
    PayloadOf(Str(IsoFormat(c.date)), Str(Uuid.Print(c.id)))
  }

  function Encode(c: ExpenseCursor): string
    requires WellFormed(c)
  {
    EncodeUnpadded(ToBytes(Payload(c)))
  }

  /** The date is read first, and anything but the text of one is malformed. The id must be text too, but
      only null is rejected the way the decoder expects: a number or a truth value has no `replace`. */
  function Build(fields: map<string, Json>): (r: Result<ExpenseCursor, Failure>)
    ensures r.Ok? ==> Valid(r.value.date)
  {
    if "d" !in fields || !fields["d"].Str? || FromIso(fields["d"].text).None? || "i" !in fields then Err(Malformed)
    else
      match fields["i"]
      case Null => Err(Malformed)
      case Str(text) =>
        (match Uuid.Parse(text)
         case None => Err(Malformed)
         case Some(id) => Ok(ExpenseCursor(FromIso(fields["d"].text).value, id)))
      case _ => Err(Uncaught)
  }

  function Decode(raw: string): (r: Result<ExpenseCursor, Failure>)
    ensures r.Ok? ==> Valid(r.value.date)
  {
    match DecodeUnpadded(raw)
    case None => Err(Malformed)
    case Some(bytes) =>
      match FromBytes(bytes)
      case None => Err(Malformed)
      case Some(text) =>
        match ParseObject(text)
        case None => Err(Malformed)
        case Some(fields) => Build(fields)
  }

  // ----- round trip ---------------------------------------------------------

  lemma {:induction false} TakeRestReads(text: string, rest: string)
    requires Plain(text)
    ensures TakeRest(text + (['"'] + rest)) == Some((text, rest))
  {
    var s := text + (['"'] + rest);
    if text == "" {
      assert s[1..] == rest;
    } else {
      assert s[1..] == text[1..] + (['"'] + rest);
      TakeRestReads(text[1..], rest);
      assert [text[0]] + text[1..] == text;
    }
  }

  lemma TakeStringReads(text: string, rest: string)
    requires Plain(text)
    ensures TakeString(Quote(text, rest)) == Some((text, rest))
  {
    assert Quote(text, rest)[1..] == text + (['"'] + rest);
    TakeRestReads(text, rest);
  }

  lemma DigitsAreAscii(digits: string)
    ensures AllDecimal(digits) ==> Ascii(digits)
  {
    if AllDecimal(digits) {
      forall i | 0 <= i < |digits| ensures digits[i] as int < 128 {
        assert IsDecimal(digits[i]);
      }
    }
  }

  /** A value, then more text. */
  function Put(value: Json, rest: string): (s: string)
    ensures Sound(value) && Ascii(rest) ==> Ascii(s)
  {
    match value
    case Str(text) => Quote(text, rest)
    case Whole(digits) => DigitsAreAscii(digits); digits + rest
    case Bool(b) => (if b then "true" else "false") + rest
    case Null => "null" + rest
  }

  /** A value that the text of a payload can hold. */
  predicate Sound(value: Json) {
    (value.Str? ==> Plain(value.text) && Ascii(value.text)) && (value.Whole? ==> IsNumber(value.digits))
  }

  lemma {:induction false} TakeDigitsReads(digits: string, rest: string)
    requires AllDecimal(digits) && rest != "" && !IsDecimal(rest[0])
    ensures TakeDigits(digits + rest) == (digits, rest)
  {
    if digits == "" {
      assert digits + rest == rest;
    } else {
      assert (digits + rest)[1..] == digits[1..] + rest;
      TakeDigitsReads(digits[1..], rest);
      assert [digits[0]] + digits[1..] == digits;
    }
  }

  lemma TakeValueReads(value: Json, rest: string)
    requires Sound(value) && rest != "" && !IsDecimal(rest[0])
    ensures TakeValue(Put(value, rest)) == Some((value, rest))
  {
    var s := Put(value, rest);
    match value
    case Str(text) => TakeStringReads(text, rest);
    case Whole(digits) => TakeDigitsReads(digits, rest);
    case Bool(b) =>
      if b { assert s[4..] == rest; } else { assert s[0] == 'f' && s[5..] == rest; }
    case Null => assert s[0] == 'n' && s[4..] == rest;
  }

  lemma LastMember(key: string, value: Json)
    requires Plain(key) && Sound(value)
    ensures ParseMembers(Quote(key, [':'] + Put(value, ['}']))) == Some(map[key := value])
  {
    var tail := [':'] + Put(value, ['}']);
    TakeStringReads(key, tail);
    assert tail[1..] == Put(value, ['}']);
    TakeValueReads(value, ['}']);
  }

  lemma NextMember(key: string, value: Json, rest: string)
    requires Plain(key) && Sound(value) && ParseMembers(rest).Some? && rest != ""
    ensures
      ParseMembers(Quote(key, [':'] + Put(value, [','] + rest))) == Some(map[key := value] + ParseMembers(rest).value)
  {
    var tail := [':'] + Put(value, [','] + rest);
    TakeStringReads(key, tail);
    assert tail[1..] == Put(value, [','] + rest);
    TakeValueReads(value, [','] + rest);
    assert ([','] + rest)[1..] == rest;
  }

  lemma IsoIsPlain(d: Date)
    requires Valid(d)
    ensures Plain(IsoFormat(d)) && Ascii(IsoFormat(d))
  {
    FixedDecimal(d.year, 4);
    FixedDecimal(d.month, 2);
    FixedDecimal(d.day, 2);
    var iso := IsoFormat(d);
    forall i | 0 <= i < |iso| ensures IsDecimal(iso[i]) || iso[i] == '-' {
      if i < 4 { assert iso[i] in PrintFixed(d.year, 10, 4); }
      else if 5 <= i < 7 { assert iso[i] in PrintFixed(d.month, 10, 2); }
      else if 8 <= i { assert iso[i] in PrintFixed(d.day, 10, 2); }
    }
  }

  lemma PayloadIsPlain(c: ExpenseCursor)
    requires WellFormed(c)
    ensures Sound(Str(IsoFormat(c.date))) && Sound(Str(Uuid.Print(c.id)))
  {
    IsoIsPlain(c.date);
    Uuid.TextIsPlain(c.id);
    var u := Uuid.Print(c.id);
    forall i | 0 <= i < |u| ensures Uuid.IsLowerHex(u[i]) || u[i] == '-' {
    }
  }

  lemma BytesRoundTrip(s: string)
    requires Ascii(s)
    ensures FromBytes(ToBytes(s)) == Some(s)
  {
    assert FromBytes(ToBytes(s)).value == s;
  }

  /** The object with the two members, whatever their values. */
  function PayloadOf(d: Json, i: Json): (s: string)
    requires Sound(d) && Sound(i)
    ensures Ascii(s)
  {
    hide Put, Quote;
    ['{'] + Quote("d", [':'] + Put(d, [','] + Quote("i", [':'] + Put(i, ['}']))))
  }

  lemma KeysArePlain()
    ensures Plain("d") && Plain("i")
  {
  }

  lemma QuoteIsNotEmpty(text: string, rest: string)
    ensures Quote(text, rest) != ""
  {
  }

  lemma ObjectOf(members: string)
    requires ParseMembers(members).Some?
    ensures ParseObject(['{'] + members) == ParseMembers(members)
  {
    var s := ['{'] + members;
    assert s[1..] == members;
    hide TakeValue;
    assert members != "}";
  }

  lemma {:induction false} PayloadParses(d: Json, i: Json)
    requires Sound(d) && Sound(i)
    ensures ParseObject(PayloadOf(d, i)) == Some(map["d" := d, "i" := i])
  {
    hide ParseMembers, ParseObject, Put, Quote, Sound;
    var second := Quote("i", [':'] + Put(i, ['}']));
    KeysArePlain();
    LastMember("i", i);
    QuoteIsNotEmpty("i", [':'] + Put(i, ['}']));
    hide Plain;
    NextMember("d", d, second);
    ObjectOf(Quote("d", [':'] + Put(d, [','] + second)));
    assert map["d" := d] + map["i" := i] == map["d" := d, "i" := i];
  }

  /** What becomes of a payload with these members. */
  lemma {:induction false} PayloadDecodes(d: Json, i: Json)
    requires Sound(d) && Sound(i)
    ensures Decode(EncodeUnpadded(ToBytes(PayloadOf(d, i)))) == Build(map["d" := d, "i" := i])
  {
    UnpaddedRoundTrip(ToBytes(PayloadOf(d, i)));
    BytesRoundTrip(PayloadOf(d, i));
    PayloadParses(d, i);
  }

  /** Which cursors are not the client error they should be: those with a real date and an id that is a
      number or a truth value. The rest decode exactly when both are texts that parse. */
  lemma {:induction false} UncaughtIff(d: Json, i: Json)
    requires Sound(d) && Sound(i)
    ensures
      var r := Decode(EncodeUnpadded(ToBytes(PayloadOf(d, i))));
      && (r == Err(Uncaught) <==> d.Str? && FromIso(d.text).Some? && (i.Whole? || i.Bool?))
      && (r.Ok? <==> d.Str? && FromIso(d.text).Some? && i.Str? && Uuid.Parse(i.text).Some?)
  {
    PayloadDecodes(d, i);
  }

  /** Any date with any number: {"d":"2024-01-01","i":5} is one of them. */
  lemma {:induction false} NumberIsUncaught(d: Date, digits: string)
    requires Valid(d) && IsNumber(digits)
    ensures Sound(Str(IsoFormat(d)))
    ensures Decode(EncodeUnpadded(ToBytes(PayloadOf(Str(IsoFormat(d)), Whole(digits))))) == Err(Uncaught)
  {
    IsoIsPlain(d);
    IsoRoundTrip(d);
    UncaughtIff(Str(IsoFormat(d)), Whole(digits));
  }

  /** decode(encode(c)) is c, for every date of the calendar and every UUID. */
  lemma {:induction false} CursorRoundTrip(c: ExpenseCursor)
    requires WellFormed(c)
    ensures Decode(Encode(c)) == Ok(c)
  {
    PayloadIsPlain(c);
    PayloadDecodes(Str(IsoFormat(c.date)), Str(Uuid.Print(c.id)));
    IsoRoundTrip(c.date);
    Uuid.RoundTrip(c.id);
  }

  /** An encoded cursor is never the empty string, which the endpoint reads as "no cursor". */
  lemma {:induction false} EncodeIsNotEmpty(c: ExpenseCursor)
    requires WellFormed(c)
    ensures Encode(c) != ""
  {
    CursorRoundTrip(c);
    EmptyDoesNotDecode();
  }

  lemma EmptyDoesNotDecode()
    ensures Decode("") == Err(Malformed)
  {
    assert DecodeUnpadded("") == Some([]);
  }

  /** Different positions have different cursors. */
  lemma {:induction false} EncodeIsInjective(a: ExpenseCursor, b: ExpenseCursor)
    requires WellFormed(a) && WellFormed(b) && Encode(a) == Encode(b)
    ensures a == b
  {
    CursorRoundTrip(a);
    CursorRoundTrip(b);
  }
}
