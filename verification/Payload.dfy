/** From receipt text to the fields of an expense, through the stored JSON. */
module Payload {
  import opened Domain
  import opened Text
  import opened Calendar
  import opened ReceiptParser
  import Money

  datatype ParsedReceipt = ParsedReceipt(merchant: Option<string>, total: Option<nat>, date: Option<Date>)

  /** `date` is what the date patterns find in the text. */
  function ParseReceiptText(text: string, date: Option<Date>): ParsedReceipt {
    ParsedReceipt(ExtractMerchant(Lines(text)), ExtractTotal(Lines(text)), date)
  }

  // The JSON object: absent values are null.
  datatype StoredPayload = StoredPayload(merchant: Option<string>, total: Option<string>, date: Option<string>)

  predicate Representable(p: ParsedReceipt) {
    p.date.Some? ==> Valid(p.date.value)
  }

  function ToJsonable(p: ParsedReceipt): StoredPayload
    requires Representable(p)
  {
    StoredPayload(
      p.merchant,
      if p.total.Some? then Some(Money.Print(p.total.value)) else None,
      if p.date.Some? then Some(IsoFormat(p.date.value)) else None)
  }

  const DEFAULT_MERCHANT: string := "Unknown"

  /** A missing, empty or unreadable field gets its placeholder; the payload may be missing altogether. */
  function CoercePayload(payload: Option<StoredPayload>, today: Date): (string, nat, Date) {
    match payload
    case None => (DEFAULT_MERCHANT, 0, today)
    case Some(p) =>
      (
        if p.merchant.Some? && p.merchant.value != "" then p.merchant.value else DEFAULT_MERCHANT,
        if p.total.Some? && Money.Parse(p.total.value).Some? then Money.Parse(p.total.value).value else 0,
        if p.date.Some? && FromIso(p.date.value).Some? then FromIso(p.date.value).value else today)
  }

  function OrElse<T>(o: Option<T>, default: T): T {
    if o.Some? then o.value else default
  }

  /** Storing and reading back loses nothing that was parsed. */
  lemma {:induction false} StoredRoundTrip(p: ParsedReceipt, today: Date)
    requires Representable(p)
    ensures CoercePayload(Some(ToJsonable(p)), today)
         == (if p.merchant == Some("") then DEFAULT_MERCHANT else OrElse(p.merchant, DEFAULT_MERCHANT),
             OrElse(p.total, 0), OrElse(p.date, today))
  {
    if p.total.Some? { Money.RoundTrip(p.total.value); }
    if p.date.Some? { IsoRoundTrip(p.date.value); }
  }

  /** A payload that is missing, or holds text that does not read, gets placeholders there and loses nothing
      elsewhere. */
  lemma {:induction false} UnreadableGetsPlaceholders(p: StoredPayload, today: Date)
    ensures CoercePayload(None, today) == ("Unknown", 0, today)
    ensures p.total.None? || Money.Parse(p.total.value).None? ==>
      CoercePayload(Some(p), today) == CoercePayload(Some(p.(total := Some(Money.Print(0)))), today)
    ensures p.date.None? || FromIso(p.date.value).None? ==>
      Valid(today) ==> CoercePayload(Some(p), today) == CoercePayload(Some(p.(date := Some(IsoFormat(today)))), today)
    ensures p.merchant.None? || p.merchant.value == "" ==>
      CoercePayload(Some(p), today) == CoercePayload(Some(p.(merchant := Some("Unknown"))), today)
  {
    Money.RoundTrip(0);
    if Valid(today) { IsoRoundTrip(today); }
  }

  /** Every receipt text: the expense carries what the parser extracted, with "Unknown", 0.00 and today
      standing in exactly for what it did not. */
  lemma {:induction false} TextToExpense(text: string, date: Option<Date>, today: Date)
    requires date.Some? ==> Valid(date.value)
    ensures
      var lines := Lines(text);
      CoercePayload(Some(ToJsonable(ParseReceiptText(text, date))), today)
        == (OrElse(ExtractMerchant(lines), "Unknown"), OrElse(ExtractTotal(lines), 0), OrElse(date, today))
  {
    var p := ParseReceiptText(text, date);
    StoredRoundTrip(p, today);
    if p.merchant.Some? { MerchantIsFirstPlausible(Lines(text), p.merchant.value); }
  }
}
