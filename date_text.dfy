/**
  The two textual renderings of a resolved date in the flight reply: the display form
  `DD/MM/YYYY` (`formatDateToStandard`, `format_date_to_standard`) and Python's URL form
  `YYYY-MM-DD` (`format_date_for_url`), each paired with the parser that reads it back.
*/
module DateText {

  import opened Wrappers
  import opened Text
  import opened Calendar

  /** Zero-padded day, zero-padded 1-based month, then the year as a plain numeral. */
  function FormatDateToStandard(d: Date): string
    requires ValidDate(d)
  {
    Pad2(d.day) + "/" + Pad2(d.month) + "/" + IntString(d.year)
  }

  /** `strftime('%Y-%m-%d')`: the year as a plain numeral, then zero-padded month and day. */
  function FormatDateForUrl(d: Date): string
    requires ValidDate(d)
  {
    IntString(d.year) + "-" + Pad2(d.month) + "-" + Pad2(d.day)
  }

  /** Reads `DD/MM/<year>` back into a date. */
  function ParseStandardDate(s: string): Option<Date> {
    if |s| >= 7 && s[2] == '/' && s[5] == '/' && IsNumeral(s[..2]) && IsNumeral(s[3..5]) then
      match ParseInt(s[6..])
      case Some(y) => Some(Date(y, DigitsValue(s[3..5]), DigitsValue(s[..2])))
      case None => None
    else None
  }

  /** Reads `<year>-MM-DD` back into a date, taking the fixed-width fields from the end. */
  function ParseUrlDate(s: string): Option<Date> {
    if |s| >= 7 && s[|s| - 6] == '-' && s[|s| - 3] == '-'
       && IsNumeral(s[|s| - 5..|s| - 3]) && IsNumeral(s[|s| - 2..])
    then
      match ParseInt(s[..|s| - 6])
      case Some(y) => Some(Date(y, DigitsValue(s[|s| - 5..|s| - 3]), DigitsValue(s[|s| - 2..])))
      case None => None
    else None
  }

  lemma StandardDateRoundTrip(d: Date)
    requires ValidDate(d)
    ensures ParseStandardDate(FormatDateToStandard(d)) == Some(d)
  {
    Pad2RoundTrip(d.day);
    Pad2RoundTrip(d.month);
    IntStringRoundTrip(d.year);
    var s := FormatDateToStandard(d);
    assert s[..2] == Pad2(d.day);
    assert s[3..5] == Pad2(d.month);
    assert s[6..] == IntString(d.year);
  }

  lemma UrlDateRoundTrip(d: Date)
    requires ValidDate(d)
    ensures ParseUrlDate(FormatDateForUrl(d)) == Some(d)
  {
    Pad2RoundTrip(d.day);
    Pad2RoundTrip(d.month);
    IntStringRoundTrip(d.year);
    var s := FormatDateForUrl(d);
    var n := |s|;
    assert s[..n - 6] == IntString(d.year);
    assert s[n - 5..n - 3] == Pad2(d.month);
    assert s[n - 2..] == Pad2(d.day);
  }

  /** The URL date and the display date of one `datetime` name the same calendar day. */
  lemma FormatsNameSameDay(d: Date)
    requires ValidDate(d)
    ensures ParseUrlDate(FormatDateForUrl(d)) == ParseStandardDate(FormatDateToStandard(d)) == Some(d)
  {
    StandardDateRoundTrip(d);
    UrlDateRoundTrip(d);
  }

  /** The URL date holds no `&`, so it stays one query parameter. */
  lemma UrlDateIsOneParameter(d: Date)
    requires ValidDate(d)
    ensures '&' !in FormatDateForUrl(d)
  {
    IntStringCharset(d.year);
    Pad2RoundTrip(d.month);
    Pad2RoundTrip(d.day);
    var s := FormatDateForUrl(d);
    assert forall c <- s :: c in IntString(d.year) || c == '-' || c in Pad2(d.month) || c in Pad2(d.day);
  }
}
