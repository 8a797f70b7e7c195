/**
  The Python resolver's loops as the bot runs them: `parse_custom_date` and
  `get_date_from_text` (TelagrameBot/app.py), each proved to compute the function of the
  same name in `PyDates`. A `datetime` call that raises `ValueError` returns `None`,
  and the `except ValueError: continue` becomes moving on to the next pattern.
*/
module PyResolver {

  import opened Wrappers
  import opened Text
  import opened Calendar
  import opened DatePatterns
  import opened DateHits
  import opened BareDates
  import opened PyDates

  /**
    The end of each branch of `parse_custom_date`: a two-digit year is moved into
    1950..2049, then `datetime(year, month, day)` is tried.
  */
  method DateOfCaptures(year: nat, month: int, day: int) returns (r: Option<Date>)
    ensures r == PyDatetime(ExpandYear(year), month, day)
  {
    var fullYear := year;
    if fullYear < 100 {
      fullYear := fullYear + if fullYear < 50 then 2000 else 1900;
    }
    r := PyDatetime(fullYear, month, day);
  }

  /**
    `parse_custom_date`: the numeric formats, then the month-name formats; the first
    anchored match whose fields make a real date is returned.
  */
  method ParseCustomDate(t: string) returns (r: Option<Date>)
    ensures r == PyCustomDate(t)
  {
    var k := 0;
    while k < 2
      invariant 0 <= k <= 2
      invariant PyCustomFrom(t, k) == PyCustomDate(t)
    {
      var m := AnchoredMatch(t, DateClasses[k]);
      if m.Some? {
        MonthFieldKind(t, DateClasses[k], 0);
        var date := DateOfCaptures(m.value.year, m.value.month.number, m.value.day);
        if date.Some? {
          return date;
        }
      }
      k := k + 1;
    }
    while k < 4
      invariant 2 <= k <= 4
      invariant PyCustomFrom(t, k) == PyCustomDate(t)
    {
      var m := AnchoredMatch(t, DateClasses[k]);
      if m.Some? {
        MonthFieldKind(t, DateClasses[k], 0);
        MatchedMonthKnown(t, DateClasses[k], 0);
        var date := DateOfCaptures(m.value.year, PyMonthMap[m.value.month.word], m.value.day);
        if date.Some? {
          return date;
        }
      }
      k := k + 1;
    }
    return None;
  }

  /**
    The first loop of `get_date_from_text`: each class's first hit is handed to
    `parse_custom_date`, and the first date it returns is the answer.
  */
  method FirstExplicitDate(text: string) returns (r: Option<Date>)
    ensures r == PyExplicitDate(text, 0)
  {
    var k := 0;
    while k < |DateClasses|
      invariant 0 <= k <= |DateClasses|
      invariant PyExplicitDate(text, k) == PyExplicitDate(text, 0)
    {
      var matches := FindDate(text, DateClasses[k]);
      if matches.Some? {
        var parsedDate := ParseCustomDate(text[matches.value.start..matches.value.end]);
        if parsedDate.Some? {
          return parsedDate;
        }
      }
      k := k + 1;
    }
    return None;
  }

  /**
    The `try` block of the second loop: this year's date, next year's once this year's
    midnight has passed, `None` where `datetime` raises.
  */
  method PlaceInYear(now: Instant, month: int, day: int) returns (r: Option<Date>)
    ensures r == PyBareDay(now, month, day)
  {
    var currentYear := now.date.year;
    var date := PyDatetime(currentYear, month, day);
    if date.None? {
      return None;
    }
    if Before(AtMidnight(date.value), now) {
      date := PyDatetime(currentYear + 1, month, day);
    }
    return date;
  }

  /**
    The second loop of `get_date_from_text`: the first bare match with a day of 1 to 31
    whose `datetime` calls succeed.
  */
  method FirstBareDate(text: string, now: Instant) returns (r: Option<Date>)
    ensures r == PyBareDate(text, now, 0)
  {
    var k := 0;
    while k < |BarePatterns|
      invariant 0 <= k <= |BarePatterns|
      invariant PyBareDate(text, now, k) == PyBareDate(text, now, 0)
    {
      var match_ := FindBare(text, BarePatterns[k]);
      if match_.Some? {
        BareFieldsKnown(text, k);
        var day: nat, month: int;
        if IsNumeral(match_.value.first) {
          day := DigitsValue(match_.value.first);
          month := PyMonthMap[Lower(match_.value.second)];
        } else {
          month := PyMonthMap[Lower(match_.value.first)];
          day := DigitsValue(match_.value.second);
        }
        if 1 <= day <= 31 {
          var date := PlaceInYear(now, month, day);
          if date.Some? {
            return date;
          }
        }
      }
      k := k + 1;
    }
    return None;
  }

  /** `get_date_from_text`: the keyword tests, then the two pattern loops, then tomorrow. */
  method GetDateFromText(text: string, now: Instant) returns (r: Instant)
    requires ValidDate(now.date)
    ensures r == PyDateFromText(text, now)
  {
    var lowerText := Lower(text);
    if Contains(lowerText, "tomorrow") || Contains(lowerText, "tommorow") {
      return DayAfter(now);
    }
    if Contains(lowerText, "next week") && Contains(lowerText, "monday") {
      return PyNextWeekMonday(now);
    }
    var explicit := FirstExplicitDate(text);
    if explicit.Some? {
      return AtMidnight(explicit.value);
    }
    var bare := FirstBareDate(text, now);
    if bare.Some? {
      return AtMidnight(bare.value);
    }
    return DayAfter(now);
  }
}
