/**
  Why the resolvers may treat the first hit of a date class as that class's date: the
  hit's text, cut out and matched again between `^` and `$`, gives the same captures,
  and no other anchored class that also matches it reads it differently.
*/
module DateHits {

  import opened Wrappers
  import opened Text
  import opened DatePatterns

  /** The hit is the class's match at the position where it starts. */
  lemma {:induction false} FindDateIsMatch(s: string, f: DateFormat, i: nat)
    requires FindDateFrom(s, f, i).Some?
    ensures DateMatchAt(s, f, FindDateFrom(s, f, i).value.start) == FindDateFrom(s, f, i)
    decreases |s| - i
  {
    hide DateMatchAt;
    if DateMatchAt(s, f, i).None? {
      FindDateIsMatch(s, f, i + 1);
    }
  }

  /** No match of the class starts between `i` and the hit: the hit is the leftmost one. */
  lemma {:induction false} FindDateIsLeftmost(s: string, f: DateFormat, i: nat)
    requires FindDateFrom(s, f, i).Some?
    ensures forall j | i <= j < FindDateFrom(s, f, i).value.start :: DateMatchAt(s, f, j).None?
    decreases |s| - i
  {
    hide DateMatchAt;
    if DateMatchAt(s, f, i).None? {
      FindDateIsLeftmost(s, f, i + 1);
    }
  }

  /** Without a hit, the class matches nowhere from `i` on. */
  lemma {:induction false} FindDateMisses(s: string, f: DateFormat, i: nat)
    requires FindDateFrom(s, f, i).None?
    ensures forall j | i <= j < |s| :: DateMatchAt(s, f, j).None?
    decreases |s| - i
  {
    hide DateMatchAt;
    if i < |s| {
      FindDateMisses(s, f, i + 1);
    }
  }

  /** The parts of a match, read back from its definition. */
  lemma {:induction false} DateMatchAtParts(s: string, f: DateFormat, i: nat) returns (r1: nat, month: MonthField, q: nat, r3: nat)
    requires DateMatchAt(s, f, i).Some?
    ensures r1 == DigitRun(s, i, 2) && 0 < r1 && i + r1 < |s| && s[i + r1] == Separator(f)
    ensures MonthFieldAt(s, f, i + r1 + 1) == Some((month, q))
    ensures q < |s| && s[q] == Separator(f) && r3 == DigitRun(s, q + 1, 4) && r3 >= 2
    ensures DateMatchAt(s, f, i) == Some(DateMatch(i, q + 1 + r3, DigitsValue(s[i..i + r1]), month, DigitsValue(s[q + 1..q + 1 + r3])))
  {
    hide MonthWordAt, DigitRun, DigitsValue;
    r1 := DigitRun(s, i, 2);
    month := MonthFieldAt(s, f, i + r1 + 1).value.0;
    q := MonthFieldAt(s, f, i + r1 + 1).value.1;
    r3 := DigitRun(s, q + 1, 4);
  }

  /** A match is determined by its parts. */
  lemma {:induction false} DateMatchAtFromParts(s: string, f: DateFormat, i: nat, r1: nat, month: MonthField, q: nat, r3: nat)
    requires r1 == DigitRun(s, i, 2) && 0 < r1 && i + r1 < |s| && s[i + r1] == Separator(f)
    requires MonthFieldAt(s, f, i + r1 + 1) == Some((month, q))
    requires q < |s| && s[q] == Separator(f) && r3 == DigitRun(s, q + 1, 4) && r3 >= 2
    ensures DateMatchAt(s, f, i) == Some(DateMatch(i, q + 1 + r3, DigitsValue(s[i..i + r1]), month, DigitsValue(s[q + 1..q + 1 + r3])))
  {
    assert YearAfter(s, f, i, r1, month, q) == Some(DateMatch(i, q + 1 + r3, DigitsValue(s[i..i + r1]), month, DigitsValue(s[q + 1..q + 1 + r3])));
    assert DateMatchAt(s, f, i) == YearAfter(s, f, i, r1, month, q);
  }

  /** A month field read in a string is read the same in any slice that still holds it. */
  lemma {:induction false} MonthFieldAtInSlice(s: string, f: DateFormat, lo: nat, hi: nat, p: nat)
    requires lo <= p <= hi <= |s|
    requires MonthFieldAt(s, f, p).Some? && MonthFieldAt(s, f, p).value.1 <= hi
    ensures MonthFieldAt(s[lo..hi], f, p - lo) == Some((MonthFieldAt(s, f, p).value.0, MonthFieldAt(s, f, p).value.1 - lo))
  {
    match f {
      case Numeric(_) =>
        var n := DigitRun(s, p, 2);
        DigitRunInSlice(s, lo, hi, p, 2);
        SliceOfSlice(s, lo, hi, p - lo, p - lo + n);
      case Named(words) =>
        MonthWordAtInSlice(s, words, lo, hi, p);
    }
  }

  /** A digit run read inside a slice has the value it has in the whole string. */
  lemma {:induction false} DigitsValueInSlice(s: string, lo: nat, hi: nat, a: nat, n: nat)
    requires lo + a + n <= hi <= |s|
    ensures DigitsValue(s[lo..hi][a..a + n]) == DigitsValue(s[lo + a..lo + a + n])
  {
    SliceOfSlice(s, lo, hi, a, a + n);
  }

  /**
    The text of a search hit, cut out, matches the same class anchored, with the same
    captures: what the search found is what `parseCustomDate` / `parse_custom_date` reads.
  */
  lemma {:induction false} SearchHitMatchesAnchored(s: string, f: DateFormat, i: nat)
    requires DateMatchAt(s, f, i).Some?
    ensures AnchoredMatch(s[i..DateMatchAt(s, f, i).value.end], f) == Some(Rebased(DateMatchAt(s, f, i).value))
  {
    hide DateMatchAt, AnchoredMatch, MonthFieldAt;
    var r1, month, q, r3 := DateMatchAtParts(s, f, i);
    HitRebased(s, f, i, r1, month, q, r3);
  }

  lemma {:induction false} HitRebased(s: string, f: DateFormat, i: nat, r1: nat, month: MonthField, q: nat, r3: nat)
    requires r1 == DigitRun(s, i, 2) && 0 < r1 && i + r1 < |s| && s[i + r1] == Separator(f)
    requires MonthFieldAt(s, f, i + r1 + 1) == Some((month, q))
    requires q < |s| && s[q] == Separator(f) && r3 == DigitRun(s, q + 1, 4) && r3 >= 2
    ensures AnchoredMatch(s[i..q + 1 + r3], f)
         == Some(DateMatch(0, q + 1 + r3 - i, DigitsValue(s[i..i + r1]), month, DigitsValue(s[q + 1..q + 1 + r3])))
  {
    hide *;
    var e := q + 1 + r3;
    var t := s[i..e];
    assert DigitRun(t, 0, 2) == r1 && t[r1] == Separator(f) && t[q - i] == Separator(f) && DigitRun(t, q - i + 1, 4) == r3 by {
      SliceKeepsRuns(s, f, i, e, r1, q, r3);
    }
    assert MonthFieldAt(t, f, r1 + 1) == Some((month, q - i)) by {
      MonthFieldAtInSlice(s, f, i, e, i + r1 + 1);
    }
    assert DigitsValue(t[0..r1]) == DigitsValue(s[i..i + r1]) && DigitsValue(t[q - i + 1..q - i + 1 + r3]) == DigitsValue(s[q + 1..e]) by {
      SliceKeepsValues(s, i, e, r1, q, r3);
    }
    AnchoredFromParts(t, f, r1, month, q - i, r3);
    assert |t| == e - i;
  }

  lemma {:induction false} AnchoredFromParts(t: string, f: DateFormat, r1: nat, month: MonthField, q: nat, r3: nat)
    requires r1 == DigitRun(t, 0, 2) && 0 < r1 && r1 < |t| && t[r1] == Separator(f)
    requires MonthFieldAt(t, f, r1 + 1) == Some((month, q))
    requires q < |t| && t[q] == Separator(f) && r3 == DigitRun(t, q + 1, 4) && r3 >= 2
    requires q + 1 + r3 == |t|
    ensures AnchoredMatch(t, f) == Some(DateMatch(0, |t|, DigitsValue(t[0..r1]), month, DigitsValue(t[q + 1..q + 1 + r3])))
  {
    DateMatchAtFromParts(t, f, 0, r1, month, q, r3);
  }

  lemma {:induction false} SliceKeepsRuns(s: string, f: DateFormat, i: nat, e: nat, r1: nat, q: nat, r3: nat)
    requires r1 == DigitRun(s, i, 2) && 0 < r1 && i + r1 < q < |s| && s[i + r1] == Separator(f)
    requires s[q] == Separator(f) && r3 == DigitRun(s, q + 1, 4) && e == q + 1 + r3 <= |s|
    ensures DigitRun(s[i..e], 0, 2) == r1 && s[i..e][r1] == Separator(f)
    ensures s[i..e][q - i] == Separator(f) && DigitRun(s[i..e], q - i + 1, 4) == r3
  {
    DigitRunInSlice(s, i, e, i, 2);
    DigitRunInSlice(s, i, e, q + 1, 4);
  }

  lemma {:induction false} SliceKeepsValues(s: string, i: nat, e: nat, r1: nat, q: nat, r3: nat)
    requires i + r1 <= q && e == q + 1 + r3 <= |s|
    ensures DigitsValue(s[i..e][0..r1]) == DigitsValue(s[i..i + r1])
    ensures DigitsValue(s[i..e][q - i + 1..q - i + 1 + r3]) == DigitsValue(s[q + 1..q + 1 + r3])
  {
    SliceOfSlice(s, i, e, 0, r1);
    SliceOfSlice(s, i, e, q - i + 1, q - i + 1 + r3);
  }

  // ---------------------------------------------------------------------------
  // The anchored classes agree

  /** A numeric month field starts with a digit; a month word, with a letter. */
  lemma MonthFieldStarts(t: string, f: DateFormat, p: nat)
    requires f in DateClasses && MonthFieldAt(t, f, p).Some?
    ensures p < |t|
    ensures f.Numeric? ==> IsDigit(t[p])
    ensures f.Named? ==> IsLetter(t[p])
  {
    if f.Named? {
      AbbreviationsShape();
      NamesExtendAbbreviations();
      var w := MonthWordAt(t, f.words, p).value;
      assert IsLowerWord(w) && LowerChar(t[p]) == w[0];
    }
  }

  /**
    Where a three-letter word and a word of at least three lower-case letters both match
    just before a `/`, they are the same word (for the month lexicon: "may").
  */
  lemma NamedFieldsAgree(t: string, p: nat, a: string, n: string)
    requires |a| == 3 && |n| >= 3 && IsLowerWord(n)
    requires WordAt(t, a, p) && WordAt(t, n, p)
    requires p + 3 < |t| && t[p + 3] == '/'
    ensures a == n
  {
    assert LowerChar(t[p + 3]) == '/';
    assert |n| == 3 by {
      assert LetterAfterPrefix(t, n, p, 3);
    }
    assert forall k | 0 <= k < 3 :: a[k] == LowerChar(t[p + k]) == n[k];
  }

  /** Past its first `k` letters a lower-case word that matches at `p` continues with a letter. */
  predicate LetterAfterPrefix(t: string, w: string, p: nat, k: nat) {
    k < |w| ==> p + k < |t| && LowerChar(t[p + k]) == w[k] && w[k] in w
  }

  /**
    A class listed before another never reads a text differently: where the later class
    matches anchored, the earlier one fails or gives the same captures.
  */
  lemma ClassesAgree(t: string, j: nat, k: nat)
    requires j < k < |DateClasses| && AnchoredMatch(t, DateClasses[k]).Some?
    ensures AnchoredMatch(t, DateClasses[j]).None? || AnchoredMatch(t, DateClasses[j]) == AnchoredMatch(t, DateClasses[k])
  {
    if k == 1 {
      SeparatorsDisagree(t);
    } else if j < 2 {
      NumeralsBeforeWords(t, DateClasses[j], DateClasses[k]);
    } else {
      NamesAgreeWithAbbreviations(t);
    }
  }

  lemma SeparatorsDisagree(t: string)
    requires AnchoredMatch(t, Numeric('-')).Some?
    ensures AnchoredMatch(t, Numeric('/')).None?
  {
    var r1, month, q, r3 := DateMatchAtParts(t, Numeric('-'), 0);
  }

  lemma NumeralsBeforeWords(t: string, f: DateFormat, g: DateFormat)
    requires f in DateClasses && f.Numeric? && g in DateClasses && g.Named?
    requires AnchoredMatch(t, g).Some?
    ensures AnchoredMatch(t, f).None?
  {
    var r1, month, q, r3 := DateMatchAtParts(t, g, 0);
    MonthFieldStarts(t, g, r1 + 1);
    assert DigitRun(t, r1 + 1, 2) == 0;
    assert MonthFieldAt(t, f, r1 + 1).None?;
  }

  lemma NamesAgreeWithAbbreviations(t: string)
    requires AnchoredMatch(t, Named(MonthNames)).Some?
    ensures AnchoredMatch(t, Named(MonthAbbreviations)).None?
         || AnchoredMatch(t, Named(MonthAbbreviations)) == AnchoredMatch(t, Named(MonthNames))
  {
    AbbreviationsShape();
    NamesExtendAbbreviations();
    forall n <- MonthNames ensures |n| >= 3 {
      var i :| 0 <= i < 12 && MonthNames[i] == n;
      assert MonthAbbreviations[i] <= n;
    }
    LongerWordsAgree(t, MonthAbbreviations, MonthNames);
  }

  /**
    The class of three-letter words and a class of longer lower-case words never read the
    same text differently: the word before the second `/` must be three letters long.
  */
  lemma LongerWordsAgree(t: string, short: seq<string>, long: seq<string>)
    requires forall a <- short :: |a| == 3
    requires forall n <- long :: |n| >= 3 && IsLowerWord(n)
    requires AnchoredMatch(t, Named(long)).Some?
    ensures AnchoredMatch(t, Named(short)).None? || AnchoredMatch(t, Named(short)) == AnchoredMatch(t, Named(long))
  {
    hide DateMatchAt, MonthFieldAt, MonthWordAt, DigitRun, DigitsValue;
    if DateMatchAt(t, Named(short), 0).Some? {
      var r1, month, q, r3 := DateMatchAtParts(t, Named(short), 0);
      var a := NamedFieldParts(t, short, r1 + 1);
      assert q == r1 + 1 + 3;
      var r1', month', q', r3' := DateMatchAtParts(t, Named(long), 0);
      assert r1' == r1;
      var n := NamedFieldParts(t, long, r1 + 1);
      NamedFieldsAgree(t, r1 + 1, a, n);
      assert month' == month && q' == q && r3' == r3;
    }
  }

  /** A named month field is the first matching word, and ends after it. */
  lemma NamedFieldParts(t: string, words: seq<string>, p: nat) returns (w: string)
    requires MonthFieldAt(t, Named(words), p).Some?
    ensures MonthWordAt(t, words, p) == Some(w) && w in words && WordAt(t, w, p) && |w| > 0
    ensures MonthFieldAt(t, Named(words), p) == Some((MonthWord(w), p + |w|))
  {
    w := MonthWordAt(t, words, p).value;
  }

  /** The first anchored format that matches is the one whose predecessors all fail or agree with it. */
  lemma {:induction false} FirstAnchoredPicks(t: string, formats: seq<DateFormat>, k: nat)
    requires k < |formats| && AnchoredMatch(t, formats[k]).Some?
    requires forall j | 0 <= j < k :: AnchoredMatch(t, formats[j]).None? || AnchoredMatch(t, formats[j]) == AnchoredMatch(t, formats[k])
    ensures FirstAnchored(t, formats) == AnchoredMatch(t, formats[k])
  {
    hide AnchoredMatch;
    if k > 0 && AnchoredMatch(t, formats[0]).None? {
      assert forall j | 0 <= j < k - 1 :: formats[1..][j] == formats[j + 1];
      FirstAnchoredPicks(t, formats[1..], k - 1);
    }
  }

  /** Whichever class matches a text anchored, the first matching class reads it the same way. */
  lemma FirstAnchoredOfClass(t: string, k: nat)
    requires k < |DateClasses| && AnchoredMatch(t, DateClasses[k]).Some?
    ensures FirstAnchored(t, DateClasses) == AnchoredMatch(t, DateClasses[k])
  {
    forall j | 0 <= j < k
      ensures AnchoredMatch(t, DateClasses[j]).None? || AnchoredMatch(t, DateClasses[j]) == AnchoredMatch(t, DateClasses[k])
    {
      ClassesAgree(t, j, k);
    }
    FirstAnchoredPicks(t, DateClasses, k);
  }

  /**
    The first hit of a class's search, cut out and handed to `parseCustomDate` /
    `parse_custom_date`, is read back with exactly the captures the search saw.
  */
  lemma DateHitIsRead(s: string, k: nat)
    requires k < |DateClasses| && FindDate(s, DateClasses[k]).Some?
    ensures var m := FindDate(s, DateClasses[k]).value;
      FirstAnchored(s[m.start..m.end], DateClasses) == Some(Rebased(m))
  {
    var m := FindDate(s, DateClasses[k]).value;
    FindDateIsMatch(s, DateClasses[k], 0);
    SearchHitMatchesAnchored(s, DateClasses[k], m.start);
    FirstAnchoredOfClass(s[m.start..m.end], k);
  }

  /** Every month word a date class captures is a key of both month maps. */
  lemma MatchedMonthKnown(s: string, f: DateFormat, i: nat)
    requires f in DateClasses && DateMatchAt(s, f, i).Some?
    ensures KnownMonth(DateMatchAt(s, f, i).value.month)
  {
    var r1, month, q, r3 := DateMatchAtParts(s, f, i);
    MonthMapsCoverLexicon();
    MonthMapsAgree();
    if f.Named? {
      var w := MonthWordAt(s, f.words, i + r1 + 1).value;
      assert w in MonthAbbreviations || w in MonthNames;
    }
  }

  /** A numeric class captures a numeral month, a named class a month word. */
  lemma MonthFieldKind(s: string, f: DateFormat, i: nat)
    requires DateMatchAt(s, f, i).Some?
    ensures DateMatchAt(s, f, i).value.month.MonthNumeral? <==> f.Numeric?
  {
    var r1, month, q, r3 := DateMatchAtParts(s, f, i);
  }

  /** None of the first `k` date classes matches `t` anchored. */
  predicate NoClassBefore(t: string, k: nat)
    decreases k
  {
    k == 0 || (k <= |DateClasses| && NoClassBefore(t, k - 1) && AnchoredMatch(t, DateClasses[k - 1]).None?)
  }

  lemma {:induction false} NoClassBeforeMeans(t: string, k: nat)
    requires NoClassBefore(t, k)
    ensures forall j | 0 <= j < k :: AnchoredMatch(t, DateClasses[j]).None?
    decreases k
  {
    if k > 0 {
      NoClassBeforeMeans(t, k - 1);
    }
  }

  lemma NoClassBeforeStep(t: string, k: nat)
    requires NoClassBefore(t, k) && k < |DateClasses| && AnchoredMatch(t, DateClasses[k]).None?
    ensures NoClassBefore(t, k + 1)
  {
  }

  /** No class matches anchored exactly when the first anchored match is missing. */
  lemma NoClassMatches(t: string)
    ensures NoClassBefore(t, |DateClasses|) <==> FirstAnchored(t, DateClasses).None?
  {
    if NoClassBefore(t, |DateClasses|) {
      NoClassBeforeMeans(t, |DateClasses|);
      FirstAnchoredMisses(t, DateClasses);
    } else if FirstAnchored(t, DateClasses).None? {
      var k: nat := 0;
      while k < |DateClasses|
        invariant k <= |DateClasses| && NoClassBefore(t, k)
      {
        assert DateClasses[k] in DateClasses;
        NoClassBeforeStep(t, k);
        k := k + 1;
      }
    }
  }

  /** When no format matches anchored there is no first one. */
  lemma {:induction false} FirstAnchoredMisses(t: string, formats: seq<DateFormat>)
    requires forall j | 0 <= j < |formats| :: AnchoredMatch(t, formats[j]).None?
    ensures FirstAnchored(t, formats).None?
  {
    if |formats| > 0 {
      assert forall j | 0 <= j < |formats| - 1 :: formats[1..][j] == formats[j + 1];
      FirstAnchoredMisses(t, formats[1..]);
    }
  }

  /** The month the first anchored class captures is known to both month maps. */
  lemma FirstAnchoredKnown(t: string)
    ensures FirstAnchored(t, DateClasses).Some? ==> KnownMonth(FirstAnchored(t, DateClasses).value.month)
  {
    if FirstAnchored(t, DateClasses).Some? {
      var f :| f in DateClasses && AnchoredMatch(t, f) == FirstAnchored(t, DateClasses);
      MatchedMonthKnown(t, f, 0);
    }
  }
}
