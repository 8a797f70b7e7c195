/**
  The JavaScript resolver's two loops as the client runs them: `parseCustomDate` and
  `getDateFromText` (client/src/App.jsx), each proved to compute the function of the
  same name in `JsDates`.
*/
module JsResolver {

  import opened Wrappers
  import opened Text
  import opened Calendar
  import opened DatePatterns
  import opened DateHits
  import opened BareDates
  import opened JsDates

  /**
    The end of each branch of `parseCustomDate`: a two-digit year is moved into
    1950..2049, then `new Date(year, month, day)`.
  */
  method NewDateOfCaptures(year: nat, month: int, day: int) returns (date: Date)
    ensures date == JsNewDate(ExpandYear(year), month, day)
  {
    var fullYear := year;
    if fullYear < 100 {
      fullYear := fullYear + if fullYear < 50 then 2000 else 1900;
    }
    date := JsNewDate(fullYear, month, day);
  }

  /**
    `parseCustomDate`: the numeric formats, then the month-name formats, each returning
    the date of the first anchored match.
  */
  method ParseCustomDate(t: string) returns (r: Option<Date>)
    ensures r == CustomDate(t)
  {
    var k := 0;
    while k < 2
      invariant 0 <= k <= 2
      invariant NoClassBefore(t, k)
    {
      var m := AnchoredMatch(t, DateClasses[k]);
      if m.Some? {
        NumericClassDate(t, k);
        var date := NewDateOfCaptures(m.value.year, m.value.month.number - 1, m.value.day);
        return Some(date);
      }
      NoClassBeforeStep(t, k);
      k := k + 1;
    }
    while k < 4
      invariant 2 <= k <= 4
      invariant NoClassBefore(t, k)
    {
      var m := AnchoredMatch(t, DateClasses[k]);
      if m.Some? {
        NamedClassDate(t, k);
        var date := NewDateOfCaptures(m.value.year, JsMonthMap[m.value.month.word], m.value.day);
        return Some(date);
      }
      NoClassBeforeStep(t, k);
      k := k + 1;
    }
    NoClassMatches(t);
    return None;
  }

  /**
    The first loop of `getDateFromText`: each class's first hit is handed to
    `parseCustomDate`, and the first date it yields is the answer.
  */
  method FirstExplicitDate(text: string) returns (r: Option<Date>)
    ensures r == ExplicitDate(text, 0)
  {
    var k := 0;
    while k < |DateClasses|
      invariant 0 <= k <= |DateClasses|
      invariant ExplicitDate(text, k) == ExplicitDate(text, 0)
    {
      var matches := FindDate(text, DateClasses[k]);
      if matches.Some? {
        var parsedDate := ParseCustomDate(text[matches.value.start..matches.value.end]);
        if parsedDate.Some? {
          return parsedDate;
        }
      }
      k := k + 1;
    }
    return None;
  }

  /**
    The second loop of `getDateFromText`: the first bare match whose month word is in the
    map and whose day is 1 to 31, placed in this year or, once past, in the next.
  */
  method FirstBareDate(text: string, now: Instant) returns (r: Option<Date>)
    ensures r == BareDate(text, now, 0)
  {
    var k := 0;
    while k < |BarePatterns|
      invariant 0 <= k <= |BarePatterns|
      invariant BareDate(text, now, k) == BareDate(text, now, 0)
    {
      var match_ := FindBare(text, BarePatterns[k]);
      if match_.Some? {
        var day: nat, monthWord: string;
        if !IsNumeral(match_.value.first) {
          monthWord := Lower(match_.value.first);
          day := DigitsValue(match_.value.second);
        } else {
          day := DigitsValue(match_.value.first);
          monthWord := Lower(match_.value.second);
        }
        if monthWord in JsMonthMap && 1 <= day <= 31 {
          var date := PlaceInYear(now, JsMonthMap[monthWord], day);
          return Some(date);
        }
      }
      k := k + 1;
    }
    return None;
  }

  /**
    The day and month a bare match named, in the current year; moved to the next year
    when its midnight has already passed.
  */
  method PlaceInYear(now: Instant, month: int, day: int) returns (date: Date)
    ensures date == BareDay(now, month, day)
  {
    var currentYear := now.date.year;
    date := JsNewDate(currentYear, month, day);
    if Before(AtMidnight(date), now) {
      date := JsNewDate(currentYear + 1, date.month - 1, date.day);
    }
  }

  /** `getDateFromText`: the keyword tests, then the two pattern loops, then tomorrow. */
  method GetDateFromText(text: string, now: Instant) returns (r: Instant)
    requires ValidDate(now.date)
    ensures r == DateFromText(text, now)
  {
    var lowerText := Lower(text);
    if Contains(lowerText, "tomorrow") || Contains(lowerText, "tommorow") {
      return DayAfter(now);
    }
    if Contains(lowerText, "next week") && Contains(lowerText, "monday") {
      return NextWeekMonday(now);
    }
    var explicit := FirstExplicitDate(text);
    if explicit.Some? {
      return AtMidnight(explicit.value);
    }
    var bare := FirstBareDate(text, now);
    if bare.Some? {
      return AtMidnight(bare.value);
    }
    return DayAfter(now);
  }
}
