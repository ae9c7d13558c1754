/** The page counter text the viewer shows after each turn. */
module Counter {
  import opened Wrappers
  import opened Text

  const PREFIX: string := "Página "
  const SEPARATOR: string := " de "

  /** `updateCounter(page)`, with `total` the number of pages in the book. */
  function CounterText(page: nat, total: nat): string {
    PREFIX + NatToString(page) + SEPARATOR + NatToString(total)
  }

  /** Reads the two numbers back out of a counter text. */
  function ParseCounter(text: string): Option<(nat, nat)> {
    if |text| < |PREFIX| || text[..|PREFIX|] != PREFIX then None
    else
      var rest := text[|PREFIX|..];
      var page := LeadingDigits(rest);
      var after := rest[|page|..];
      if page == [] || |after| < |SEPARATOR| || after[..|SEPARATOR|] != SEPARATOR then None
      else
        var total := after[|SEPARATOR|..];
        if total == [] || !AllDigits(total) then None
        else Some((DecimalValue(page), DecimalValue(total)))
  }

  /** The counter text determines the page and the total it was made from. */
  lemma CounterRoundTrip(page: nat, total: nat)
    ensures ParseCounter(CounterText(page, total)) == Some((page, total))
  {
    var p, t := NatToString(page), NatToString(total);
    var text := CounterText(page, total);
    assert text[..|PREFIX|] == PREFIX;
    var rest := text[|PREFIX|..];
    assert rest == p + (SEPARATOR + t);
    LeadingDigitsOf(p, SEPARATOR + t);
    assert rest[|p|..] == SEPARATOR + t;
    assert (SEPARATOR + t)[..|SEPARATOR|] == SEPARATOR;
    assert (SEPARATOR + t)[|SEPARATOR|..] == t;
    DecimalRoundTrip(page);
    DecimalRoundTrip(total);
  }

  lemma CounterTextInjective(p1: nat, t1: nat, p2: nat, t2: nat)
    requires CounterText(p1, t1) == CounterText(p2, t2)
    ensures p1 == p2 && t1 == t2
  {
    CounterRoundTrip(p1, t1);
    CounterRoundTrip(p2, t2);
  }
}
