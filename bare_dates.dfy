/**
  The bare day-and-month patterns tried after the explicit date classes: `6 jul`,
  `6 july`, `jul 6`, `july 6` (case-insensitive, found anywhere in the text), with the
  two captures kept as text the way the resolvers receive them.
*/
module BareDates {

  import opened Wrappers
  import opened Text
  import opened DatePatterns

  /** `(\d{1,2})\s+(words)` or `(words)\s+(\d{1,2})`. */
  datatype BarePattern = DayFirst(words: seq<string>) | MonthFirst(words: seq<string>)

  /** The four patterns in the order both resolvers try them. */
  const BarePatterns: seq<BarePattern> :=
    [DayFirst(MonthAbbreviations), DayFirst(MonthNames), MonthFirst(MonthAbbreviations), MonthFirst(MonthNames)]

  /** The texts of capture groups 1 and 2. */
  datatype BareMatch = BareMatch(first: string, second: string)

  /**
    The pattern tried at `i`. The greedy digit and space runs and the first matching
    month word decide it: a shorter digit run is followed by a digit, a shorter space
    run by a space, and the alternations are prefix-free.
  */
  function BareMatchAt(s: string, p: BarePattern, i: nat): (r: Option<BareMatch>)
    ensures r.Some? ==> i < |s|
  {
    match p
    case DayFirst(words) =>
      var r := DigitRun(s, i, 2);
      var sp := SpaceRun(s, i + r);
      if r == 0 || sp == 0 then None
      else
        var j := i + r + sp;
        (match MonthWordAt(s, words, j)
         case Some(w) => Some(BareMatch(s[i..i + r], s[j..j + |w|]))
         case None => None)
    case MonthFirst(words) =>
      match MonthWordAt(s, words, i)
      case Some(w) =>
        var sp := SpaceRun(s, i + |w|);
        var j := i + |w| + sp;
        var r := DigitRun(s, j, 2);
        if |w| == 0 || sp == 0 || r == 0 then None
        else Some(BareMatch(s[i..i + |w|], s[j..j + r]))
      case None => None
  }

  /** `text.match(pattern)` / `re.search(pattern, text, re.IGNORECASE)` on `s[i..]`: the leftmost match. */
  function FindBareFrom(s: string, p: BarePattern, i: nat): Option<BareMatch>
    decreases |s| - i
  {
    if i >= |s| then None
    else if BareMatchAt(s, p, i).Some? then BareMatchAt(s, p, i)
    else FindBareFrom(s, p, i + 1)
  }

  function FindBare(s: string, p: BarePattern): Option<BareMatch> {
    FindBareFrom(s, p, 0)
  }

  /** The match found is the pattern's match at the leftmost position where it matches at all. */
  lemma {:induction false} FindBareIsLeftmost(s: string, p: BarePattern, i: nat) returns (at: nat)
    requires FindBareFrom(s, p, i).Some?
    ensures i <= at < |s| && BareMatchAt(s, p, at) == FindBareFrom(s, p, i)
    ensures forall j | i <= j < at :: BareMatchAt(s, p, j).None?
    decreases |s| - i
  {
    hide BareMatchAt;
    var here := BareMatchAt(s, p, i);
    if here.Some? {
      at := i;
    } else {
      at := FindBareIsLeftmost(s, p, i + 1);
      assert FindBareFrom(s, p, i) == FindBareFrom(s, p, i + 1);
    }
  }

  /** Without a match found, the pattern matches nowhere from `i` on. */
  lemma {:induction false} FindBareMisses(s: string, p: BarePattern, i: nat)
    requires FindBareFrom(s, p, i).None?
    ensures forall j | i <= j < |s| :: BareMatchAt(s, p, j).None?
    decreases |s| - i
  {
    hide BareMatchAt;
    if i < |s| {
      FindBareMisses(s, p, i + 1);
    }
  }

  /**
    The captures read as a (month word, day) pair: month first when capture 1 is not a
    numeral (`isNaN(match[1])`, `not match.group(1).isdigit()`), day first otherwise.
    The month word is lower-cased for the map lookup; the day is read as a number.
  */
  function BareFields(m: BareMatch): (string, nat) {
    if !IsNumeral(m.first) then (Lower(m.first), DigitsValue(m.second))
    else (Lower(m.second), DigitsValue(m.first))
  }

  /** The text a month word matched, lower-cased, is that word. */
  lemma MatchedWordText(s: string, words: seq<string>, j: nat)
    requires MonthWordAt(s, words, j).Some?
    ensures var w := MonthWordAt(s, words, j).value; j + |w| <= |s| && Lower(s[j..j + |w|]) == w
  {
    var w := MonthWordAt(s, words, j).value;
    forall k | 0 <= k < |w| ensures Lower(s[j..j + |w|])[k] == w[k] {
      assert s[j..j + |w|][k] == s[j + k];
    }
  }

  /** Text that starts with a letter is not a numeral. */
  lemma LetterStartIsNotNumeral(t: string)
    requires |t| > 0 && IsLetter(t[0])
    ensures !IsNumeral(t)
  {
    assert t[0] in t;
  }

  predicate IsDayText(t: string) {
    IsNumeral(t) && |t| <= 2
  }

  predicate IsMonthText(t: string) {
    !IsNumeral(t) && Lower(t) in PyMonthMap && Lower(t) in JsMonthMap
  }

  /** Both alternations hold lower-case words that both month maps know. */
  predicate KnownWords(words: seq<string>) {
    forall w <- words :: IsLowerWord(w) && w in PyMonthMap && w in JsMonthMap
  }

  lemma LexiconKnown()
    ensures KnownWords(MonthAbbreviations) && KnownWords(MonthNames)
  {
    MonthMapsCoverLexicon();
    MonthMapsAgree();
    AbbreviationsShape();
    NamesExtendAbbreviations();
  }

  /**
    The captures of every bare pattern: a one- or two-digit numeral and the text of a
    month word of the lexicon, in the pattern's order. So `isNaN(match[1])` /
    `isdigit()` tells the two orders apart, and the month lookup never misses.
  */
  lemma BareCaptures(s: string, k: nat, i: nat)
    requires k < |BarePatterns| && BareMatchAt(s, BarePatterns[k], i).Some?
    ensures var m := BareMatchAt(s, BarePatterns[k], i).value;
      if k < 2 then IsDayText(m.first) && IsMonthText(m.second)
      else IsMonthText(m.first) && IsDayText(m.second)
  {
    LexiconKnown();
    if k < 2 {
      DayFirstCaptures(s, BarePatterns[k].words, i);
    } else {
      MonthFirstCaptures(s, BarePatterns[k].words, i);
    }
  }

  lemma DayFirstCaptures(s: string, words: seq<string>, i: nat)
    requires KnownWords(words) && BareMatchAt(s, DayFirst(words), i).Some?
    ensures var m := BareMatchAt(s, DayFirst(words), i).value;
      IsDayText(m.first) && IsMonthText(m.second)
  {
    hide DigitRun, SpaceRun, MonthWordAt, Lower, DigitsValue;
    var m := BareMatchAt(s, DayFirst(words), i).value;
    var r := DigitRun(s, i, 2);
    var j := i + r + SpaceRun(s, i + r);
    var w := MonthWordAt(s, words, j).value;
    assert m == BareMatch(s[i..i + r], s[j..j + |w|]);
    DigitRunIsNumeral(s, i, 2);
    MatchedWordText(s, words, j);
    assert w[0] in w;
    assert m.second[0] == s[j];
    LetterStartIsNotNumeral(m.second);
  }

  lemma MonthFirstCaptures(s: string, words: seq<string>, i: nat)
    requires KnownWords(words) && BareMatchAt(s, MonthFirst(words), i).Some?
    ensures var m := BareMatchAt(s, MonthFirst(words), i).value;
      IsMonthText(m.first) && IsDayText(m.second)
  {
    hide BareMatchAt, DigitRun, SpaceRun, MonthWordAt, Lower, DigitsValue;
    var w, j := MonthFirstParts(s, words, i);
    var m := BareMatchAt(s, MonthFirst(words), i).value;
    DigitRunIsNumeral(s, j, 2);
    assert IsDayText(m.second);
    MatchedWordText(s, words, i);
    assert IsLowerLetter(w[0]) by {
      assert w[0] in w;
    }
    assert IsLetter(m.first[0]) by {
      assert LowerChar(s[i]) == w[0];
    }
    LetterStartIsNotNumeral(m.first);
  }

  lemma MonthFirstParts(s: string, words: seq<string>, i: nat) returns (w: string, j: nat)
    requires BareMatchAt(s, MonthFirst(words), i).Some?
    ensures MonthWordAt(s, words, i) == Some(w) && |w| > 0 && i + |w| <= j
    ensures DigitRun(s, j, 2) > 0
    ensures BareMatchAt(s, MonthFirst(words), i).value == BareMatch(s[i..i + |w|], s[j..j + DigitRun(s, j, 2)])
  {
    w := MonthWordAt(s, words, i).value;
    j := i + |w| + SpaceRun(s, i + |w|);
  }

  /** The captures of the leftmost match of a bare pattern have the shape of every match. */
  lemma FoundBareCaptures(s: string, k: nat)
    requires k < |BarePatterns| && FindBare(s, BarePatterns[k]).Some?
    ensures var m := FindBare(s, BarePatterns[k]).value;
      if k < 2 then IsDayText(m.first) && IsMonthText(m.second)
      else IsMonthText(m.first) && IsDayText(m.second)
  {
    var i := FindBareIsLeftmost(s, BarePatterns[k], 0);
    BareCaptures(s, k, i);
  }

  /** The month word read from a bare match is a key of both maps, and the day has at most two digits. */
  lemma BareFieldsKnown(s: string, k: nat)
    requires k < |BarePatterns| && FindBare(s, BarePatterns[k]).Some?
    ensures var (w, day) := BareFields(FindBare(s, BarePatterns[k]).value);
      w in PyMonthMap && w in JsMonthMap && day <= 99
  {
    FoundBareCaptures(s, k);
    var m := FindBare(s, BarePatterns[k]).value;
    if k < 2 {
      TwoDigitsValue(m.first);
    } else {
      TwoDigitsValue(m.second);
    }
  }
}
