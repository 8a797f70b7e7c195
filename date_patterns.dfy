/**
  The date vocabulary and the date regular expressions of the resolver, written as
  hand scanners: the month lexicon and month maps, the four explicit date classes
  (`d/m/y`, `d-m-y`, `d/mon/y`, `d/month/y`) both as unanchored searches and as the
  anchored forms `parseCustomDate` / `parse_custom_date` re-match, and the four bare
  day-month patterns.
*/
module DatePatterns {

  import opened Wrappers
  import opened Text

  const MonthAbbreviations: seq<string> :=
    ["jan", "feb", "mar", "apr", "may", "jun", "jul", "aug", "sep", "oct", "nov", "dec"]

  const MonthNames: seq<string> :=
    ["january", "february", "march", "april", "may", "june", "july", "august",
     "september", "october", "november", "december"]

  /** `monthMap` of the JavaScript resolver: month words to 0-based month indices. */
  const JsMonthMap: map<string, int> := map[
    "jan" := 0, "january" := 0, "feb" := 1, "february" := 1, "mar" := 2, "march" := 2,
    "apr" := 3, "april" := 3, "may" := 4, "jun" := 5, "june" := 5,
    "jul" := 6, "july" := 6, "aug" := 7, "august" := 7, "sep" := 8, "september" := 8,
    "oct" := 9, "october" := 9, "nov" := 10, "november" := 10, "dec" := 11, "december" := 11]

  /** `month_map` of the Python resolver: month words to 1-based month numbers. */
  const PyMonthMap: map<string, int> := map[
    "jan" := 1, "january" := 1, "feb" := 2, "february" := 2, "mar" := 3, "march" := 3,
    "apr" := 4, "april" := 4, "may" := 5, "jun" := 6, "june" := 6,
    "jul" := 7, "july" := 7, "aug" := 8, "august" := 8, "sep" := 9, "september" := 9,
    "oct" := 10, "october" := 10, "nov" := 11, "november" := 11, "dec" := 12, "december" := 12]

  /** Both maps cover exactly the words of the two alternations, the `i`-th of each naming month `i + 1`. */
  lemma MonthMapsCoverLexicon()
    ensures forall i | 0 <= i < 12 ::
      MonthAbbreviations[i] in PyMonthMap && PyMonthMap[MonthAbbreviations[i]] == i + 1
      && MonthNames[i] in PyMonthMap && PyMonthMap[MonthNames[i]] == i + 1
    ensures forall w <- PyMonthMap.Keys :: w in MonthAbbreviations || w in MonthNames
  {
    forall i | 0 <= i < 12
      ensures MonthAbbreviations[i] in PyMonthMap && PyMonthMap[MonthAbbreviations[i]] == i + 1
      ensures MonthNames[i] in PyMonthMap && PyMonthMap[MonthNames[i]] == i + 1
    {
    }
    forall w <- PyMonthMap.Keys ensures w in MonthAbbreviations || w in MonthNames {
    }
  }

  /** The JavaScript map is the Python map shifted to 0-based months. */
  lemma MonthMapsAgree()
    ensures JsMonthMap.Keys == PyMonthMap.Keys
    ensures forall w <- JsMonthMap.Keys :: JsMonthMap[w] == PyMonthMap[w] - 1
  {
    assert JsMonthMap.Keys == PyMonthMap.Keys;
    forall w <- JsMonthMap.Keys ensures JsMonthMap[w] == PyMonthMap[w] - 1 {
    }
  }

  /** A month word names the same month in both maps, a month from 1 to 12. */
  lemma MonthWordNumber(w: string)
    requires w in PyMonthMap
    ensures w in JsMonthMap && 1 <= PyMonthMap[w] <= 12 && JsMonthMap[w] == PyMonthMap[w] - 1
  {
    MonthMapsAgree();
    MonthMapsCoverLexicon();
    if w in MonthAbbreviations {
      var i :| 0 <= i < 12 && MonthAbbreviations[i] == w;
    } else {
      var i :| 0 <= i < 12 && MonthNames[i] == w;
    }
  }

  /** No word of an alternation is a proper prefix of another, so at most one alternative matches at a position. */
  predicate PrefixFree(words: seq<string>) {
    forall a, b | a in words && b in words && a != b :: !(a <= b)
  }

  predicate LowerWords(words: seq<string>) {
    forall w <- words :: IsLowerWord(w)
  }

  lemma AbbreviationsShape()
    ensures LowerWords(MonthAbbreviations)
    ensures forall i | 0 <= i < 12 :: |MonthAbbreviations[i]| == 3
    ensures forall i, j | 0 <= i < j < 12 :: MonthAbbreviations[i] != MonthAbbreviations[j]
  {
    forall i | 0 <= i < 12 ensures IsLowerWord(MonthAbbreviations[i]) {
    }
  }

  /** Each month name begins with its abbreviation. */
  lemma NamesExtendAbbreviations()
    ensures LowerWords(MonthNames)
    ensures forall i | 0 <= i < 12 :: MonthAbbreviations[i] <= MonthNames[i]
  {
    forall i | 0 <= i < 12 ensures IsLowerWord(MonthNames[i]) {
    }
  }

  lemma LexiconPrefixFree()
    ensures PrefixFree(MonthAbbreviations) && PrefixFree(MonthNames)
  {
    AbbreviationsShape();
    NamesExtendAbbreviations();
    DistinctHeadsPrefixFree(MonthAbbreviations, MonthAbbreviations);
    DistinctHeadsPrefixFree(MonthNames, MonthAbbreviations);
  }

  /** Words that begin with pairwise different three-letter heads are prefix-free. */
  lemma DistinctHeadsPrefixFree(words: seq<string>, heads: seq<string>)
    requires |words| == |heads|
    requires forall i | 0 <= i < |heads| :: |heads[i]| == 3 && heads[i] <= words[i]
    requires forall i, j | 0 <= i < j < |heads| :: heads[i] != heads[j]
    ensures PrefixFree(words)
  {
    forall a, b | a in words && b in words && a != b ensures !(a <= b) {
      var i :| 0 <= i < |words| && words[i] == a;
      var j :| 0 <= j < |words| && words[j] == b;
      assert a[..3] == heads[i] && b[..3] == heads[j];
      if i < j {
        assert heads[i] != heads[j];
      } else {
        assert heads[j] != heads[i];
      }
    }
  }

  // ---------------------------------------------------------------------------
  // Month words

  /** The lower-cased word `w` appears at `s[i..]` in any letter case (the `i` flag). */
  predicate WordAt(s: string, w: string, i: nat) {
    i + |w| <= |s| && forall k | 0 <= k < |w| :: LowerChar(s[i + k]) == w[k]
  }

  /** The first alternative of `(w0|w1|…)` that matches at `i`. */
  function MonthWordAt(s: string, words: seq<string>, i: nat): (r: Option<string>)
    ensures r.Some? ==> r.value in words && WordAt(s, r.value, i)
  {
    if |words| == 0 then None
    else if WordAt(s, words[0], i) then Some(words[0])
    else MonthWordAt(s, words[1..], i)
  }

  /** The alternation fails only when no alternative matches. */
  lemma {:induction false} MonthWordAtNone(s: string, words: seq<string>, i: nat)
    ensures MonthWordAt(s, words, i).None? ==> forall w <- words :: !WordAt(s, w, i)
  {
    if |words| > 0 && MonthWordAt(s, words, i).None? {
      MonthWordAtNone(s, words[1..], i);
      assert forall w <- words :: w == words[0] || w in words[1..];
    }
  }

  /** In a prefix-free alternation the first matching alternative is the only one. */
  lemma MonthWordAtUnique(s: string, words: seq<string>, i: nat, w: string)
    requires PrefixFree(words) && w in words && WordAt(s, w, i)
    ensures MonthWordAt(s, words, i) == Some(w)
  {
    MonthWordAtNone(s, words, i);
    var v := MonthWordAt(s, words, i).value;
    var n := if |v| <= |w| then |v| else |w|;
    assert v[..n] == w[..n];
    assert v <= w || w <= v;
  }

  /** A month word found in a string is found at the same place in any slice that still holds it. */
  lemma {:induction false} MonthWordAtInSlice(s: string, words: seq<string>, lo: nat, hi: nat, p: nat)
    requires lo <= p <= hi <= |s|
    requires MonthWordAt(s, words, p).Some? && p + |MonthWordAt(s, words, p).value| <= hi
    ensures MonthWordAt(s[lo..hi], words, p - lo) == MonthWordAt(s, words, p)
  {
    var t := s[lo..hi];
    var w := words[0];
    if WordAt(s, w, p) {
      assert MonthWordAt(s, words, p) == Some(w);
      SliceOfSlice(s, lo, hi, p - lo, p - lo + |w|);
    } else {
      assert MonthWordAt(s, words, p) == MonthWordAt(s, words[1..], p);
      if p - lo + |w| <= |t| {
        SliceOfSlice(s, lo, hi, p - lo, p - lo + |w|);
      }
      MonthWordAtInSlice(s, words[1..], lo, hi, p);
    }
  }

  // ---------------------------------------------------------------------------
  // The explicit date classes

  /** The day and year are always digits; the month is digits or a month word of the given alternation. */
  datatype DateFormat = Numeric(sep: char) | Named(words: seq<string>)

  /** The four classes in the order both resolvers try them, which is also the order of the anchored forms. */
  const DateClasses: seq<DateFormat> :=
    [Numeric('/'), Numeric('-'), Named(MonthAbbreviations), Named(MonthNames)]

  function Separator(f: DateFormat): char {
    match f
    case Numeric(sep) => sep
    case Named(_) => '/'
  }

  /** The month capture: its digits read as a number, or its text lower-cased. */
  datatype MonthField = MonthNumeral(number: nat) | MonthWord(word: string)

  /** A match `s[start..end]` with its three captures. */
  datatype DateMatch = DateMatch(start: nat, end: nat, day: nat, month: MonthField, year: nat)

  function MonthFieldAt(s: string, f: DateFormat, p: nat): (r: Option<(MonthField, nat)>)
    ensures r.Some? ==> p < r.value.1 <= |s|
  {
    match f
    case Numeric(_) =>
      var n := DigitRun(s, p, 2);
      if n == 0 then None else Some((MonthNumeral(DigitsValue(s[p..p + n])), p + n))
    case Named(words) =>
      match MonthWordAt(s, words, p)
      case Some(w) => if |w| > 0 then Some((MonthWord(w), p + |w|)) else None
      case None => None
  }

  /**
    The outcome of the class's pattern tried at `i`: `\d{1,2}`, the separator, the month
    field, the separator again, `\d{2,4}`. Backtracking into a shorter digit run or into a
    later alternative cannot help, so the greedy runs and the first month word decide it.
  */
  function DateMatchAt(s: string, f: DateFormat, i: nat): (r: Option<DateMatch>)
    ensures r.Some? ==> r.value.start == i < r.value.end <= |s|
  {
    var r1 := DigitRun(s, i, 2);
    if r1 == 0 || i + r1 >= |s| || s[i + r1] != Separator(f) then None
    else
      var mf := MonthFieldAt(s, f, i + r1 + 1);
      if mf.None? then None else YearAfter(s, f, i, r1, mf.value.0, mf.value.1)
  }

  /** The rest of a match once the month field ends at `q`: the separator, then `\d{2,4}`. */
  function YearAfter(s: string, f: DateFormat, i: nat, r1: nat, month: MonthField, q: nat): (r: Option<DateMatch>)
    requires i + r1 <= q
    ensures r.Some? ==> r.value.start == i < r.value.end <= |s|
  {
    if q >= |s| || s[q] != Separator(f) then None
    else
      var r3 := DigitRun(s, q + 1, 4);
      if r3 < 2 then None
      else Some(DateMatch(i, q + 1 + r3, DigitsValue(s[i..i + r1]), month, DigitsValue(s[q + 1..q + 1 + r3])))
  }

  /**
    The first hit of the class's unanchored search over `s[i..]`, trying each position in
    turn: `text.matchAll(format)`'s first element, `re.findall(pattern, text)[0]`.
  */
  function FindDateFrom(s: string, f: DateFormat, i: nat): (r: Option<DateMatch>)
    ensures r.Some? ==> i <= r.value.start < r.value.end <= |s|
    decreases |s| - i
  {
    if i >= |s| then None
    else if DateMatchAt(s, f, i).Some? then DateMatchAt(s, f, i)
    else FindDateFrom(s, f, i + 1)
  }

  function FindDate(s: string, f: DateFormat): (r: Option<DateMatch>)
    ensures r.Some? ==> r.value.start < r.value.end <= |s|
  {
    FindDateFrom(s, f, 0)
  }

  /** The class's pattern between `^` and `$`: it must match at 0 and consume the whole text. */
  function AnchoredMatch(t: string, f: DateFormat): (r: Option<DateMatch>)
    ensures r.Some? ==> r.value.start == 0 && r.value.end == |t|
  {
    match DateMatchAt(t, f, 0)
    case Some(m) => if m.end == |t| then Some(m) else None
    case None => None
  }

  /** The first of `formats` whose anchored form matches `t`. */
  function FirstAnchored(t: string, formats: seq<DateFormat>): (r: Option<DateMatch>)
    ensures r.Some? ==> exists f <- formats :: AnchoredMatch(t, f) == r
    ensures r.None? ==> forall f <- formats :: AnchoredMatch(t, f).None?
  {
    if |formats| == 0 then None
    else if AnchoredMatch(t, formats[0]).Some? then AnchoredMatch(t, formats[0])
    else
      var r := FirstAnchored(t, formats[1..]);
      assert forall f <- formats :: f == formats[0] || f in formats[1..];
      r
  }

  /** The match moved to the start of its own text. */
  function Rebased(m: DateMatch): DateMatch
    requires m.start <= m.end
  {
    m.(start := 0, end := m.end - m.start)
  }

  /**
    The year rule of `parseCustomDate` / `parse_custom_date`: a year below 100 is taken in
    the window 1950..2049 with the same last two digits; any other year is kept.
  */
  function ExpandYear(y: nat): (r: nat)
    ensures y < 100 ==> 1950 <= r <= 2049 && r % 100 == y
    ensures y >= 100 ==> r == y
  {
    if y < 100 then (if y < 50 then y + 2000 else y + 1900) else y
  }

  /** A month capture both month maps can look up: a numeral, or a word of the lexicon. */
  predicate KnownMonth(mf: MonthField) {
    mf.MonthWord? ==> mf.word in PyMonthMap && mf.word in JsMonthMap
  }
}
