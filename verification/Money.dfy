/** Amounts in cents: their text, and division rounded to the cent. */
module Money {
  import opened Domain
  import opened Text

  /** str(Decimal) of an amount with two decimals. */
  function Print(cents: nat): string {
    PrintNat(cents / 100) + (['.'] + PrintFixed(cents % 100, 10, 2))
  }

  /** Decimal(text) on digits, a point, and two more digits. */
  function Parse(s: string): Option<nat> {
    if |s| < 4 || s[|s| - 3] != '.' then None
    else
      var whole, part := s[..|s| - 3], s[|s| - 2..];
      if !AllDecimal(whole) || !AllDecimal(part) then None
      else
        match (ParseDigits(whole, 10), ParseDigits(part, 10))
        case (Some(w), Some(p)) => Some(100 * w + p)
        case _ => None
  }

  lemma {:induction false} RoundTrip(cents: nat)
    ensures Parse(Print(cents)) == Some(cents)
  {
    var whole, part := PrintNat(cents / 100), PrintFixed(cents % 100, 10, 2);
    var s := Print(cents);
    assert s[..|s| - 3] == whole && s[|s| - 2..] == part;
    NatRoundTrip(cents / 100);
    assert Pow(10, 1) == 10 && Pow(10, 2) == 100;
    FixedRoundTrip(cents % 100, 10, 2);
    FixedDecimal(cents % 100, 2);
  }

  /** The integer nearest to n / d; a tie goes away from zero, as NUMERIC rounds. */
  function Nearest(n: int, d: int): (q: int)
    requires d > 0
    ensures -d <= 2 * (q * d - n) <= d
    ensures n >= 0 ==> -d < 2 * (q * d - n)
    ensures n < 0 ==> 2 * (q * d - n) < d
  {
    if n >= 0 then (2 * n + d) / (2 * d) else -((2 * -n + d) / (2 * d))
  }
}
