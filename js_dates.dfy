/**
  The JavaScript date resolver of the chat client: `getNextWeekMonday`, `parseCustomDate`
  and `getDateFromText` (client/src/App.jsx). The clock is the parameter `now`; every
  `new Date()` the source reads is taken to be that one instant.
*/
module JsDates {

  import opened Wrappers
  import opened Text
  import opened Calendar
  import opened DatePatterns
  import opened DateHits
  import opened BareDates

  // ---------------------------------------------------------------------------
  // Next week's Monday

  /** `(1 + 7 - getDay()) % 7 || 7` for `getDay()` equal to `w`: a zero distance becomes a full week. */
  function MondayAhead(w: int): int {
    var ahead := (1 + 7 - w) % 7;
    if ahead == 0 then 7 else ahead
  }

  function DaysUntilNextMonday(d: Date): int
    requires ValidDate(d)
  {
    MondayAhead(JsDay(d))
  }

  /** `getNextWeekMonday`: today's time of day, `DaysUntilNextMonday` dates later. */
  function NextWeekMonday(now: Instant): Instant
    requires ValidDate(now.date)
  {
    Instant(AddDays(now.date, DaysUntilNextMonday(now.date)), now.time)
  }

  /**
    The result is the first Monday strictly after today: one to seven days ahead, a
    Monday (`getDay()` is 1), with no Monday in between, at the same time of day.
  */
  lemma NextWeekMondayIsNextMonday(now: Instant)
    requires ValidDate(now.date)
    ensures var r := NextWeekMonday(now); var k := DayNumber(r.date) - DayNumber(now.date);
      1 <= k <= 7 && JsDay(r.date) == 1 && r.time == now.time
      && forall j | 1 <= j < k :: JsDay(AddDays(now.date, j)) != 1
  {
    var k := DaysUntilNextMonday(now.date);
    MondayDistance(JsDay(now.date));
    AddDaysNumber(now.date, k);
    JsDayAfter(now.date, k);
    forall j | 1 <= j < k ensures JsDay(AddDays(now.date, j)) != 1 {
      JsDayAfter(now.date, j);
      NoMondayBefore(JsDay(now.date), j);
    }
  }

  /** From weekday `w`, the distance lands on a Monday one to seven days later. */
  lemma MondayDistance(w: int)
    requires 0 <= w < 7
    ensures 1 <= MondayAhead(w) <= 7 && (w + MondayAhead(w)) % 7 == 1
  {
  }

  /** No day strictly before that distance is a Monday. */
  lemma NoMondayBefore(w: int, j: int)
    requires 0 <= w < 7 && 1 <= j < MondayAhead(w)
    ensures (w + j) % 7 != 1
  {
  }

  // ---------------------------------------------------------------------------
  // parseCustomDate

  /** The 0-based month index: `parseInt(match[2]) - 1` or `monthMap[match[2].toLowerCase()]`. */
  function MonthIndex(mf: MonthField): int
    requires KnownMonth(mf)
  {
    match mf
    case MonthNumeral(n) => n - 1
    case MonthWord(w) => JsMonthMap[w]
  }

  /** `new Date(year, month, day)` from the captures of an anchored match, with the year rule applied. */
  function DateOfMatch(m: DateMatch): Date
    requires KnownMonth(m.month)
  {
    JsNewDate(ExpandYear(m.year), MonthIndex(m.month), m.day)
  }

  /**
    What `parseCustomDate(t)` returns: `None` for `null`, otherwise the date of the first
    of the four anchored classes that matches the whole of `t`.
  */
  function CustomDate(t: string): (r: Option<Date>)
    ensures r.None? <==> forall f <- DateClasses :: AnchoredMatch(t, f).None?
  {
    FirstAnchoredKnown(t);
    match FirstAnchored(t, DateClasses)
    case Some(m) => Some(DateOfMatch(m))
    case None => None
  }

  /** When class `k` is the first to match anchored, `parseCustomDate` returns the date of its match. */
  lemma CustomDateOfClass(t: string, k: nat)
    requires k < |DateClasses| && AnchoredMatch(t, DateClasses[k]).Some? && NoClassBefore(t, k)
    ensures var m := AnchoredMatch(t, DateClasses[k]).value;
      KnownMonth(m.month) && CustomDate(t) == Some(DateOfMatch(m))
  {
    MatchedMonthKnown(t, DateClasses[k], 0);
    NoClassBeforeMeans(t, k);
    FirstAnchoredPicks(t, DateClasses, k);
  }

  /** The numeric classes: the month is a numeral, less one. */
  lemma NumericClassDate(t: string, k: nat)
    requires k < 2 && AnchoredMatch(t, DateClasses[k]).Some? && NoClassBefore(t, k)
    ensures var m := AnchoredMatch(t, DateClasses[k]).value;
      m.month.MonthNumeral? && CustomDate(t) == Some(JsNewDate(ExpandYear(m.year), m.month.number - 1, m.day))
  {
    MonthFieldKind(t, DateClasses[k], 0);
    CustomDateOfClass(t, k);
  }

  /** The month-name classes: the month is the map's index of the word. */
  lemma NamedClassDate(t: string, k: nat)
    requires 2 <= k < 4 && AnchoredMatch(t, DateClasses[k]).Some? && NoClassBefore(t, k)
    ensures var m := AnchoredMatch(t, DateClasses[k]).value;
      m.month.MonthWord? && m.month.word in JsMonthMap
      && CustomDate(t) == Some(JsNewDate(ExpandYear(m.year), JsMonthMap[m.month.word], m.day))
  {
    MonthFieldKind(t, DateClasses[k], 0);
    CustomDateOfClass(t, k);
  }

  // ---------------------------------------------------------------------------
  // getDateFromText

  /**
    The explicit-date step from class `k` on: the first hit of each class's search is
    handed to `parseCustomDate`, and the first non-null result wins. (`new Date` always
    yields a real date, so the `isNaN` test never rejects one.)
  */
  function ExplicitDate(text: string, k: nat): Option<Date>
    decreases |DateClasses| - k
  {
    if k >= |DateClasses| then None
    else match FindDate(text, DateClasses[k])
      case Some(m) =>
        (match CustomDate(text[m.start..m.end])
         case Some(d) => Some(d)
         case None => ExplicitDate(text, k + 1))
      case None => ExplicitDate(text, k + 1)
  }

  /** The first hit of the class searches from class `k` on, in class order. */
  function FirstHit(text: string, k: nat): Option<DateMatch>
    decreases |DateClasses| - k
  {
    if k >= |DateClasses| then None
    else if FindDate(text, DateClasses[k]).Some? then FindDate(text, DateClasses[k])
    else FirstHit(text, k + 1)
  }

  /**
    A class's first hit, cut out and handed to `parseCustomDate`, always comes back as the
    date of its own captures: the re-match never fails, so `parsedDate` is never null.
  */
  lemma HitAlwaysParses(text: string, k: nat)
    requires k < |DateClasses| && FindDate(text, DateClasses[k]).Some?
    ensures var m := FindDate(text, DateClasses[k]).value;
      KnownMonth(m.month) && CustomDate(text[m.start..m.end]) == Some(DateOfMatch(m))
  {
    var m := FindDate(text, DateClasses[k]).value;
    DateHitIsRead(text, k);
    FirstAnchoredKnown(text[m.start..m.end]);
  }

  /**
    The explicit-date step yields the date of the first hit of the class searches, and
    nothing exactly when no class has a hit.
  */
  lemma {:induction false} ExplicitIsFirstHit(text: string, k: nat)
    ensures FirstHit(text, k).Some? ==>
      KnownMonth(FirstHit(text, k).value.month) && ExplicitDate(text, k) == Some(DateOfMatch(FirstHit(text, k).value))
    ensures FirstHit(text, k).None? <==> ExplicitDate(text, k).None?
    decreases |DateClasses| - k
  {
    hide CustomDate, FindDate;
    if k < |DateClasses| {
      if FindDate(text, DateClasses[k]).Some? {
        HitAlwaysParses(text, k);
      } else {
        ExplicitIsFirstHit(text, k + 1);
      }
    }
  }

  /** The first hit is the hit of the first class that has one. */
  lemma {:induction false} FirstHitOfClass(text: string, k: nat, j: nat)
    requires k <= j < |DateClasses| && FindDate(text, DateClasses[j]).Some?
    requires forall i | k <= i < j :: FindDate(text, DateClasses[i]).None?
    ensures FirstHit(text, k) == FindDate(text, DateClasses[j])
    decreases j - k
  {
    hide FindDate;
    if k < j {
      FirstHitOfClass(text, k + 1, j);
    }
  }

  /** A month index and day of month placed in the current year, or in the next one when that is already past. */
  function BareDay(now: Instant, month: int, day: int): Date
  {
    var date := JsNewDate(now.date.year, month, day);
    if Before(AtMidnight(date), now) then JsNewDate(now.date.year + 1, date.month - 1, date.day) else date
  }

  /**
    With a month index in range and a day of 1 to 31 the date is this year's unless its
    midnight has passed, and then it is next year's: never in the past, and the same
    month and day when next year has that day.
  */
  lemma BareDayPlacement(now: Instant, month: int, day: int)
    requires ValidDate(now.date) && 0 <= month < 12 && 1 <= day <= 31
    ensures var first := JsNewDate(now.date.year, month, day); var r := BareDay(now, month, day);
      first.year == now.date.year && !Before(AtMidnight(r), now)
      && (r == first <==> !Before(AtMidnight(first), now))
      && (Before(AtMidnight(first), now) ==> r.year == now.date.year + 1)
      && (Before(AtMidnight(first), now) && first.day <= DaysInMonth(now.date.year + 1, first.month) ==>
            r == Date(now.date.year + 1, first.month, first.day))
  {
    var y := now.date.year;
    var first := JsNewDate(y, month, day);
    JsNewDateKeepsYear(y, month, day);
    if Before(AtMidnight(first), now) {
      JsNewDateKeepsYear(y + 1, first.month - 1, first.day);
      if first.day <= DaysInMonth(y + 1, first.month) {
        JsNewDateExact(y + 1, first.month - 1, first.day);
      }
    }
  }

  /** The bare day-month step from pattern `k` on. */
  function BareDate(text: string, now: Instant, k: nat): Option<Date>
    decreases |BarePatterns| - k
  {
    if k >= |BarePatterns| then None
    else match FindBare(text, BarePatterns[k])
      case Some(m) =>
        var (w, day) := BareFields(m);
        if w in JsMonthMap && 1 <= day <= 31 then Some(BareDay(now, JsMonthMap[w], day))
        else BareDate(text, now, k + 1)
      case None => BareDate(text, now, k + 1)
  }

  /** What `getDateFromText(text)` returns, the strategies tried in their order. */
  function DateFromText(text: string, now: Instant): Instant
    requires ValidDate(now.date)
  {
    var lower := Lower(text);
    if Contains(lower, "tomorrow") || Contains(lower, "tommorow") then DayAfter(now)
    else if Contains(lower, "next week") && Contains(lower, "monday") then NextWeekMonday(now)
    else match ExplicitDate(text, 0)
      case Some(d) => AtMidnight(d)
      case None =>
        match BareDate(text, now, 0)
        case Some(d) => AtMidnight(d)
        case None => DayAfter(now)
  }

  /** Every instant `getDateFromText` returns lies on a real calendar date. */
  lemma DateFromTextIsReal(text: string, now: Instant)
    requires ValidDate(now.date)
    ensures ValidDate(DateFromText(text, now).date)
  {
    ExplicitIsFirstHit(text, 0);
    BareDateIsReal(text, now, 0);
  }

  lemma {:induction false} BareDateIsReal(text: string, now: Instant, k: nat)
    ensures BareDate(text, now, k).Some? ==> ValidDate(BareDate(text, now, k).value)
    decreases |BarePatterns| - k
  {
    hide FindBare, BareFields;
    if k < |BarePatterns| {
      BareDateIsReal(text, now, k + 1);
    }
  }
}
