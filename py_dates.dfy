/**
  The Python resolver of the bot: `get_tomorrow_date`, `get_next_week_monday`,
  `parse_custom_date` and `get_date_from_text` (TelagrameBot/app.py), with the clock as
  the parameter `now`. Where the JavaScript resolver lets `new Date` roll impossible
  fields over, Python's `datetime` raises, and the `except ValueError: continue` moves
  on to the next pattern; the lemmas here say where the two resolvers agree and where
  they part.
*/
module PyDates {

  import opened Wrappers
  import opened Text
  import opened Calendar
  import opened DatePatterns
  import opened DateHits
  import opened BareDates
  import opened JsDates

  // ---------------------------------------------------------------------------
  // Next week's Monday

  /** `get_next_week_monday`: `7 - weekday()` days ahead, at the same time of day. */
  function PyNextWeekMonday(now: Instant): Instant
    requires ValidDate(now.date)
  {
    Instant(AddDays(now.date, 7 - Weekday(now.date)), now.time)
  }

  /** Both resolvers name the same instant for "next week monday". */
  lemma NextWeekMondaysAgree(now: Instant)
    requires ValidDate(now.date)
    ensures PyNextWeekMonday(now) == NextWeekMonday(now)
  {
    hide AddDays, DayNumber;
    JsDayIsShiftedWeekday(now.date);
    MondayFromWeekday(Weekday(now.date));
  }

  /** Seven days less Python's weekday is the JavaScript distance from the shifted weekday. */
  lemma MondayFromWeekday(w: int)
    requires 0 <= w < 7
    ensures MondayAhead((w + 1) % 7) == 7 - w
  {
  }

  // ---------------------------------------------------------------------------
  // parse_custom_date

  /** The 1-based month: `int(match.group(2))` or `month_map[match.group(2)]`. */
  function PyMonthNumber(mf: MonthField): int
    requires KnownMonth(mf)
  {
    match mf
    case MonthNumeral(n) => n
    case MonthWord(w) => PyMonthMap[w]
  }

  /** `datetime(year, month, day)` from the captures, with the year rule applied; `None` where it raises. */
  function PyDateOfMatch(m: DateMatch): Option<Date>
    requires KnownMonth(m.month)
  {
    PyDatetime(ExpandYear(m.year), PyMonthNumber(m.month), m.day)
  }

  /**
    `parse_custom_date` from class `k` on: a class that matches the whole text returns its
    date, unless `datetime` raises, and then the next class is tried.
  */
  function PyCustomFrom(t: string, k: nat): Option<Date>
    decreases |DateClasses| - k
  {
    if k >= |DateClasses| then None
    else match AnchoredMatch(t, DateClasses[k])
      case Some(m) =>
        MatchedMonthKnown(t, DateClasses[k], 0);
        (match PyDateOfMatch(m)
         case Some(d) => Some(d)
         case None => PyCustomFrom(t, k + 1))
      case None => PyCustomFrom(t, k + 1)
  }

  function PyCustomDate(t: string): Option<Date> {
    PyCustomFrom(t, 0)
  }

  /**
    `parse_custom_date` reads a text exactly as the first matching class does: the
    `continue` after a `ValueError` never finds a later class that reads it otherwise.
  */
  lemma PyCustomIsFirstAnchored(t: string)
    ensures var first := FirstAnchored(t, DateClasses);
      (first.Some? ==> KnownMonth(first.value.month) && PyCustomDate(t) == PyDateOfMatch(first.value))
      && (first.None? ==> PyCustomDate(t).None?)
  {
    PyCustomFromFirst(t, 0);
  }

  lemma {:induction false} PyCustomFromFirst(t: string, k: nat)
    requires k <= |DateClasses| && NoClassBefore(t, k)
    ensures var first := FirstAnchored(t, DateClasses);
      (first.Some? ==> KnownMonth(first.value.month) && PyCustomFrom(t, k) == PyDateOfMatch(first.value))
      && (first.None? ==> PyCustomFrom(t, k).None?)
    decreases |DateClasses| - k
  {
    hide AnchoredMatch, FirstAnchored, PyDateOfMatch;
    if k == |DateClasses| {
      NoClassMatches(t);
    } else if AnchoredMatch(t, DateClasses[k]).Some? {
      var m := AnchoredMatch(t, DateClasses[k]).value;
      NoClassBeforeMeans(t, k);
      FirstAnchoredPicks(t, DateClasses, k);
      FirstAnchoredKnown(t);
      if PyDateOfMatch(m).None? {
        forall l | k < l < |DateClasses|
          ensures AnchoredMatch(t, DateClasses[l]).None? || AnchoredMatch(t, DateClasses[l]) == Some(m)
        {
          if AnchoredMatch(t, DateClasses[l]).Some? {
            ClassesAgree(t, k, l);
          }
        }
        PyCustomSkips(t, m, k + 1);
      }
    } else {
      NoClassBeforeStep(t, k);
      PyCustomFromFirst(t, k + 1);
    }
  }

  /** Classes that fail or read the same impossible date as an earlier one add nothing. */
  lemma {:induction false} PyCustomSkips(t: string, m: DateMatch, k: nat)
    requires KnownMonth(m.month) && PyDateOfMatch(m).None?
    requires forall l | k <= l < |DateClasses| :: AnchoredMatch(t, DateClasses[l]).None? || AnchoredMatch(t, DateClasses[l]) == Some(m)
    ensures PyCustomFrom(t, k).None?
    decreases |DateClasses| - k
  {
    hide AnchoredMatch, PyDateOfMatch;
    if k < |DateClasses| {
      PyCustomSkips(t, m, k + 1);
    }
  }

  /** Where Python's `parse_custom_date` returns a date, JavaScript's `parseCustomDate` returns the same one. */
  lemma CustomDatesAgree(t: string)
    requires PyCustomDate(t).Some?
    ensures CustomDate(t) == PyCustomDate(t)
  {
    hide FirstAnchored, AnchoredMatch, JsNewDate, AddDays;
    PyCustomIsFirstAnchored(t);
    var m := FirstAnchored(t, DateClasses).value;
    if m.month.MonthWord? {
      MonthWordNumber(m.month.word);
    }
    PyDatetimeAgreesWithJs(ExpandYear(m.year), PyMonthNumber(m.month), m.day);
  }

  /**
    The two resolvers part on impossible fields: Python raises on 31 February 2025 where
    JavaScript's `new Date(2025, 1, 31)` rolls over to 3 March.
  */
  lemma ImpossibleDayDiverges()
    ensures PyDatetime(2025, 2, 31).None?
    ensures JsNewDate(2025, 1, 31) == Date(2025, 3, 3)
  {
    AddDaysSplit(Date(2025, 2, 1), 27, 3);
    AddDaysWithinMonth(2025, 2, 1, 27);
    AddDaysWithinMonth(2025, 3, 1, 2);
  }

  // ---------------------------------------------------------------------------
  // get_date_from_text

  /**
    The explicit-date step from class `k` on: `findall(...)[0]` of each class is handed to
    `parse_custom_date`, and the first date it returns wins.
  */
  function PyExplicitDate(text: string, k: nat): Option<Date>
    decreases |DateClasses| - k
  {
    if k >= |DateClasses| then None
    else match FindDate(text, DateClasses[k])
      case Some(m) =>
        (match PyCustomDate(text[m.start..m.end])
         case Some(d) => Some(d)
         case None => PyExplicitDate(text, k + 1))
      case None => PyExplicitDate(text, k + 1)
  }

  /**
    A class's first hit comes back from `parse_custom_date` as `datetime` of its own
    captures: a real date, or nothing when the captures name none.
  */
  lemma PyHitParses(text: string, k: nat)
    requires k < |DateClasses| && FindDate(text, DateClasses[k]).Some?
    ensures var m := FindDate(text, DateClasses[k]).value;
      KnownMonth(m.month) && PyCustomDate(text[m.start..m.end]) == PyDateOfMatch(m)
  {
    var m := FindDate(text, DateClasses[k]).value;
    DateHitIsRead(text, k);
    PyCustomIsFirstAnchored(text[m.start..m.end]);
  }

  /**
    The explicit-date steps agree whenever the first hit names a real date. (Otherwise
    JavaScript answers with a rolled-over date and Python tries the later classes.)
  */
  lemma {:induction false} ExplicitDatesAgree(text: string, k: nat)
    requires FirstHit(text, k).Some?
    requires KnownMonth(FirstHit(text, k).value.month) && PyDateOfMatch(FirstHit(text, k).value).Some?
    ensures PyExplicitDate(text, k) == ExplicitDate(text, k)
    decreases |DateClasses| - k
  {
    hide PyCustomDate, CustomDate, FindDate, PyDateOfMatch;
    ExplicitIsFirstHit(text, k);
    if FindDate(text, DateClasses[k]).Some? {
      var m := FindDate(text, DateClasses[k]).value;
      PyHitParses(text, k);
      HitAlwaysParses(text, k);
      CustomDatesAgree(text[m.start..m.end]);
    } else {
      ExplicitDatesAgree(text, k + 1);
    }
  }

  /** Python's explicit-date step finds nothing wherever JavaScript's finds nothing. */
  lemma {:induction false} PyExplicitNeedsHit(text: string, k: nat)
    requires FirstHit(text, k).None?
    ensures PyExplicitDate(text, k).None?
    decreases |DateClasses| - k
  {
    hide PyCustomDate, FindDate;
    if k < |DateClasses| {
      PyExplicitNeedsHit(text, k + 1);
    }
  }

  /**
    The bare day-month step's `try`: this year's date, or next year's once this year's
    midnight has passed; `None` where either `datetime` call raises.
  */
  function PyBareDay(now: Instant, month: int, day: int): Option<Date> {
    match PyDatetime(now.date.year, month, day)
    case None => None
    case Some(date) =>
      if Before(AtMidnight(date), now) then PyDatetime(now.date.year + 1, month, day) else Some(date)
  }

  /** Where Python places a bare day, JavaScript places it on the same date. */
  lemma BareDaysAgree(now: Instant, month: int, day: int)
    requires PyBareDay(now, month, day).Some?
    ensures BareDay(now, month - 1, day) == PyBareDay(now, month, day).value
  {
    hide JsNewDate, AddDays, DaysInMonth;
    var y := now.date.year;
    PyDatetimeAgreesWithJs(y, month, day);
    if Before(AtMidnight(Date(y, month, day)), now) {
      PyDatetimeAgreesWithJs(y + 1, month, day);
    }
  }

  /**
    Once 29 February of a leap year has passed, Python's move into the next year raises
    and the pattern is skipped, while JavaScript answers 1 March of the next year.
  */
  lemma LeapDayRollover(now: Instant)
    requires ValidDate(now.date) && IsLeapYear(now.date.year)
    requires Before(AtMidnight(Date(now.date.year, 2, 29)), now)
    ensures PyBareDay(now, 2, 29).None?
    ensures BareDay(now, 1, 29) == Date(now.date.year + 1, 3, 1)
  {
    var y := now.date.year;
    JsNewDateExact(y, 1, 29);
    assert !IsLeapYear(y + 1);
    AddDaysSplit(Date(y + 1, 2, 1), 27, 1);
    AddDaysWithinMonth(y + 1, 2, 1, 27);
  }

  /**
    The bare day-month step from pattern `k` on. The month lookup always succeeds (the
    captured word is in `month_map`), a day outside 1 to 31 or a raising `datetime`
    moves on to the next pattern.
  */
  function PyBareDate(text: string, now: Instant, k: nat): Option<Date>
    decreases |BarePatterns| - k
  {
    if k >= |BarePatterns| then None
    else match FindBare(text, BarePatterns[k])
      case Some(m) =>
        BareFieldsKnown(text, k);
        var (w, day) := BareFields(m);
        if 1 <= day <= 31 then
          (match PyBareDay(now, PyMonthMap[w], day)
           case Some(d) => Some(d)
           case None => PyBareDate(text, now, k + 1))
        else PyBareDate(text, now, k + 1)
      case None => PyBareDate(text, now, k + 1)
  }

  /**
    The first bare hit both resolvers accept from pattern `k` on, as a 1-based month and
    a day: the first hit whose day is 1 to 31.
  */
  function FirstBareHit(text: string, k: nat): Option<(int, nat)>
    decreases |BarePatterns| - k
  {
    if k >= |BarePatterns| then None
    else match FindBare(text, BarePatterns[k])
      case Some(m) =>
        BareFieldsKnown(text, k);
        var (w, day) := BareFields(m);
        if 1 <= day <= 31 then Some((PyMonthMap[w], day)) else FirstBareHit(text, k + 1)
      case None => FirstBareHit(text, k + 1)
  }

  /**
    JavaScript's bare step places the first accepted hit; its `month !== undefined` test
    never fails. Python agrees wherever that hit's `datetime` calls succeed, and finds
    nothing where there is no accepted hit.
  */
  lemma {:induction false} BareDatesAgree(text: string, now: Instant, k: nat)
    ensures FirstBareHit(text, k).Some? ==>
      var (month, day) := FirstBareHit(text, k).value;
      1 <= month <= 12 && 1 <= day <= 31
      && BareDate(text, now, k) == Some(BareDay(now, month - 1, day))
      && (PyBareDay(now, month, day).Some? ==> PyBareDate(text, now, k) == BareDate(text, now, k))
    ensures FirstBareHit(text, k).None? ==> BareDate(text, now, k).None? && PyBareDate(text, now, k).None?
    decreases |BarePatterns| - k
  {
    hide FindBare, BareFields, PyBareDay, BareDay, FirstBareHit, BareDate, PyBareDate;
    if RejectedBareStep(text, now, k) {
      if k < |BarePatterns| {
        BareDatesAgree(text, now, k + 1);
      }
    } else {
      AcceptedBareHit(text, now, k);
    }
  }

  /**
    Past the last pattern, at a pattern without a hit, or at a hit whose day is outside
    1 to 31, all three steps move on alike; otherwise the hit is accepted.
  */
  predicate RejectedBareStep(text: string, now: Instant, k: nat)
    ensures RejectedBareStep(text, now, k) ==>
      FirstBareHit(text, k) == (if k < |BarePatterns| then FirstBareHit(text, k + 1) else None)
      && BareDate(text, now, k) == (if k < |BarePatterns| then BareDate(text, now, k + 1) else None)
      && PyBareDate(text, now, k) == (if k < |BarePatterns| then PyBareDate(text, now, k + 1) else None)
    ensures !RejectedBareStep(text, now, k) ==>
      k < |BarePatterns| && FindBare(text, BarePatterns[k]).Some?
      && 1 <= BareFields(FindBare(text, BarePatterns[k]).value).1 <= 31
  {
    k >= |BarePatterns| || FindBare(text, BarePatterns[k]).None?
    || !(1 <= BareFields(FindBare(text, BarePatterns[k]).value).1 <= 31)
  }

  /** A hit with a day of 1 to 31 is where both bare steps stop, unless Python's `datetime` raises. */
  lemma AcceptedBareHit(text: string, now: Instant, k: nat)
    requires k < |BarePatterns| && FindBare(text, BarePatterns[k]).Some?
    requires 1 <= BareFields(FindBare(text, BarePatterns[k]).value).1 <= 31
    ensures var (w, day) := BareFields(FindBare(text, BarePatterns[k]).value);
      w in PyMonthMap && 1 <= PyMonthMap[w] <= 12
      && FirstBareHit(text, k) == Some((PyMonthMap[w], day))
      && BareDate(text, now, k) == Some(BareDay(now, PyMonthMap[w] - 1, day))
      && (PyBareDay(now, PyMonthMap[w], day).Some? ==> PyBareDate(text, now, k) == BareDate(text, now, k))
  {
    hide FindBare, BareFields, PyBareDay, BareDay;
    BareFieldsKnown(text, k);
    var (w, day) := BareFields(FindBare(text, BarePatterns[k]).value);
    MonthWordNumber(w);
    if PyBareDay(now, PyMonthMap[w], day).Some? {
      BareDaysAgree(now, PyMonthMap[w], day);
    }
  }

  /** `get_date_from_text`: the keyword tests, the explicit dates, the bare day-month patterns, then tomorrow. */
  function PyDateFromText(text: string, now: Instant): Instant
    requires ValidDate(now.date)
  {
    var lower := Lower(text);
    if Contains(lower, "tomorrow") || Contains(lower, "tommorow") then DayAfter(now)
    else if Contains(lower, "next week") && Contains(lower, "monday") then PyNextWeekMonday(now)
    else match PyExplicitDate(text, 0)
      case Some(d) => AtMidnight(d)
      case None =>
        match PyBareDate(text, now, 0)
        case Some(d) => AtMidnight(d)
        case None => DayAfter(now)
  }

  /**
    Every date the Python resolver settles on is a real calendar date: `datetime` only
    ever builds real ones.
  */
  lemma PyDateIsReal(text: string, now: Instant)
    requires ValidDate(now.date)
    ensures ValidDate(PyDateFromText(text, now).date)
  {
    PyExplicitReal(text, 0);
    PyBareReal(text, now, 0);
  }

  lemma {:induction false} PyExplicitReal(text: string, k: nat)
    ensures PyExplicitDate(text, k).Some? ==> ValidDate(PyExplicitDate(text, k).value)
    decreases |DateClasses| - k
  {
    hide FindDate, PyCustomDate;
    if k < |DateClasses| {
      PyExplicitReal(text, k + 1);
      if FindDate(text, DateClasses[k]).Some? {
        PyHitParses(text, k);
      }
    }
  }

  lemma {:induction false} PyBareReal(text: string, now: Instant, k: nat)
    ensures PyBareDate(text, now, k).Some? ==> ValidDate(PyBareDate(text, now, k).value)
    decreases |BarePatterns| - k
  {
    hide FindBare, BareFields;
    if k < |BarePatterns| {
      PyBareReal(text, now, k + 1);
    }
  }

  /**
    The two resolvers settle on the same instant unless the date they pick names an
    impossible day: the first explicit hit must make a real date for `datetime`, and,
    without an explicit hit, so must the first accepted bare hit in this year and, once
    that is past, in the next.
  */
  lemma DatesFromTextAgree(text: string, now: Instant)
    requires ValidDate(now.date)
    requires FirstHit(text, 0).Some? ==>
      KnownMonth(FirstHit(text, 0).value.month) && PyDateOfMatch(FirstHit(text, 0).value).Some?
    requires FirstHit(text, 0).None? && FirstBareHit(text, 0).Some? ==>
      PyBareDay(now, FirstBareHit(text, 0).value.0, FirstBareHit(text, 0).value.1).Some?
    ensures PyDateFromText(text, now) == DateFromText(text, now)
  {
    NextWeekMondaysAgree(now);
    ExplicitIsFirstHit(text, 0);
    if FirstHit(text, 0).Some? {
      ExplicitDatesAgree(text, 0);
    } else {
      PyExplicitNeedsHit(text, 0);
      BareDatesAgree(text, now, 0);
    }
  }

  /**
    Without a keyword, `getDateFromText` returns midnight of the leftmost explicit date of
    the first class that has one, else of the first accepted bare day placed in the coming
    year, else tomorrow. This lemma is about the client's resolver but lives here because
    it is stated through `FirstBareHit`, the bare-date hit both resolvers accept, and is
    proved with `BareDatesAgree`; both are defined in this module, which imports the
    client's.
  */
  lemma DateFromTextCases(text: string, now: Instant)
    requires ValidDate(now.date)
    requires !Contains(Lower(text), "tomorrow") && !Contains(Lower(text), "tommorow")
    requires !(Contains(Lower(text), "next week") && Contains(Lower(text), "monday"))
    ensures FirstHit(text, 0).Some? ==>
      KnownMonth(FirstHit(text, 0).value.month)
      && DateFromText(text, now) == AtMidnight(DateOfMatch(FirstHit(text, 0).value))
    ensures FirstHit(text, 0).None? && FirstBareHit(text, 0).Some? ==>
      var (month, day) := FirstBareHit(text, 0).value;
      1 <= month <= 12 && DateFromText(text, now) == AtMidnight(BareDay(now, month - 1, day))
    ensures FirstHit(text, 0).None? && FirstBareHit(text, 0).None? ==> DateFromText(text, now) == DayAfter(now)
  {
    hide FirstHit, FirstBareHit, ExplicitDate, BareDate, PyBareDate, PyExplicitDate, BareDay, PyBareDay,
      DateOfMatch, FindBare, FindDate, NextWeekMonday, DayAfter;
    ExplicitIsFirstHit(text, 0);
    BareDatesAgree(text, now, 0);
  }
}
