/**
  ASCII text primitives shared by both implementations: the character classes the
  regular expressions use (`\d`, `\s`, `\w`), case mapping (`toLowerCase`/`lower()`,
  `toUpperCase`/`upper()`), substring containment (`includes`/`in`) and decimal
  numerals (`parseInt`/`int()` and `String(n)`/`str(n)`).
*/
module Text {

  import opened Wrappers

  predicate IsDigit(c: char) { '0' <= c <= '9' }

  /** `\s` restricted to the six ASCII whitespace characters. */
  predicate IsSpace(c: char) {
    c == ' ' || c == '\t' || c == '\n' || c == '\r' || c == '\U{000B}' || c == '\U{000C}'
  }

  predicate IsLowerLetter(c: char) { 'a' <= c <= 'z' }

  predicate IsLetter(c: char) { IsLowerLetter(c) || 'A' <= c <= 'Z' }

  /** `\w` restricted to ASCII: letters, digits and the underscore. */
  predicate IsWordChar(c: char) { IsLetter(c) || IsDigit(c) || c == '_' }

  function LowerChar(c: char): char {
    if 'A' <= c <= 'Z' then (c as int + 32) as char else c
  }

  function UpperChar(c: char): char {
    if 'a' <= c <= 'z' then (c as int - 32) as char else c
  }

  function Lower(s: string): string {
    seq(|s|, i requires 0 <= i < |s| => LowerChar(s[i]))
  }

  function Upper(s: string): string {
    seq(|s|, i requires 0 <= i < |s| => UpperChar(s[i]))
  }

  /** A non-empty word of lower-case ASCII letters, the shape of every lexicon key. */
  predicate IsLowerWord(s: string) {
    |s| > 0 && forall c <- s :: IsLowerLetter(c)
  }

  lemma LowerOfLowerWord(s: string)
    requires IsLowerWord(s)
    ensures Lower(s) == s
  {
    forall i | 0 <= i < |s| ensures Lower(s)[i] == s[i] {
      assert s[i] in s;
    }
  }

  /** Case mapping forgets the case it started from. */
  lemma CaseMappingsAbsorb(s: string)
    ensures Lower(Upper(s)) == Lower(s)
    ensures Upper(Lower(s)) == Upper(s)
    ensures Upper(Upper(s)) == Upper(s)
  {
  }

  // ---------------------------------------------------------------------------
  // Substrings

  predicate OccursAt(s: string, w: string, i: nat) {
    i + |w| <= |s| && s[i..i + |w|] == w
  }

  /** `s.includes(w)` in JavaScript, `w in s` in Python. */
  predicate Contains(s: string, w: string) {
    exists i | 0 <= i <= |s| - |w| :: OccursAt(s, w, i)
  }

  /** An occurrence of a word inside an occurrence of a longer one is an occurrence. */
  lemma ContainsTransitive(s: string, t: string, w: string)
    requires Contains(s, t) && Contains(t, w)
    ensures Contains(s, w)
  {
    var i :| 0 <= i <= |s| - |t| && OccursAt(s, t, i);
    var j :| 0 <= j <= |t| - |w| && OccursAt(t, w, j);
    forall k | 0 <= k < |w| ensures s[i + j + k] == w[k] {
      assert s[i..i + |t|][j + k] == t[j + k];
      assert t[j..j + |w|][k] == w[k];
    }
    assert OccursAt(s, w, i + j);
  }

  lemma ContainsWitness(s: string, w: string, i: nat)
    requires OccursAt(s, w, i)
    ensures Contains(s, w)
  {
  }

  /** A slice of a slice is a slice of the original string. */
  lemma SliceOfSlice(s: string, lo: nat, hi: nat, a: nat, b: nat)
    requires lo <= hi <= |s| && a <= b <= hi - lo
    ensures s[lo..hi][a..b] == s[lo + a..lo + b]
  {
    forall k | 0 <= k < b - a ensures s[lo..hi][a..b][k] == s[lo + a..lo + b][k] {
      assert s[lo..hi][a + k] == s[lo + a + k];
    }
  }

  // ---------------------------------------------------------------------------
  // Runs of one character class, as a greedy quantifier consumes them

  /** The number of digits at `s[i..]`, at most `cap`: what `\d{1,cap}` consumes greedily. */
  function DigitRun(s: string, i: nat, cap: nat): (n: nat)
    ensures n <= cap
    ensures n > 0 ==> i + n <= |s|
    decreases cap
  {
    if cap == 0 || i >= |s| || !IsDigit(s[i]) then 0 else 1 + DigitRun(s, i + 1, cap - 1)
  }

  /** The run holds only digits, and it stops short of `cap` only where no digit follows. */
  lemma {:induction false} DigitRunIsGreedy(s: string, i: nat, cap: nat)
    ensures forall k | i <= k < i + DigitRun(s, i, cap) :: IsDigit(s[k])
    ensures DigitRun(s, i, cap) < cap && i + DigitRun(s, i, cap) < |s| ==> !IsDigit(s[i + DigitRun(s, i, cap)])
    decreases cap
  {
    if cap > 0 && i < |s| && IsDigit(s[i]) {
      DigitRunIsGreedy(s, i + 1, cap - 1);
    }
  }

  /** A run of digits is a numeral. */
  lemma DigitRunIsNumeral(s: string, i: nat, cap: nat)
    requires DigitRun(s, i, cap) > 0
    ensures IsNumeral(s[i..i + DigitRun(s, i, cap)])
  {
    DigitRunIsGreedy(s, i, cap);
    var n := DigitRun(s, i, cap);
    forall c <- s[i..i + n] ensures IsDigit(c) {
      var k :| 0 <= k < n && s[i..i + n][k] == c;
      assert c == s[i + k];
    }
  }

  /** The whitespace at `s[i..]`: what `\s*` consumes greedily. */
  function SpaceRun(s: string, i: nat): (n: nat)
    ensures n > 0 ==> i + n <= |s|
    ensures forall k | i <= k < i + n :: IsSpace(s[k])
    ensures i + n < |s| ==> !IsSpace(s[i + n])
    decreases |s| - i
  {
    if i >= |s| || !IsSpace(s[i]) then 0 else 1 + SpaceRun(s, i + 1)
  }

  /** The word characters at `s[i..]`: what `\w+` consumes greedily. */
  function WordRun(s: string, i: nat): (n: nat)
    ensures n > 0 ==> i + n <= |s|
    ensures forall k | i <= k < i + n :: IsWordChar(s[k])
    ensures i + n < |s| ==> !IsWordChar(s[i + n])
    decreases |s| - i
  {
    if i >= |s| || !IsWordChar(s[i]) then 0 else 1 + WordRun(s, i + 1)
  }

  /** A capped digit run inside a slice is the run of the whole string, cut at the slice's end. */
  lemma {:induction false} DigitRunInSlice(s: string, lo: nat, hi: nat, i: nat, cap: nat)
    requires lo <= i <= hi <= |s|
    ensures DigitRun(s[lo..hi], i - lo, cap) == if DigitRun(s, i, cap) <= hi - i then DigitRun(s, i, cap) else hi - i
    decreases cap
  {
    if cap > 0 && i < hi && IsDigit(s[i]) {
      assert s[lo..hi][i - lo] == s[i];
      DigitRunInSlice(s, lo, hi, i + 1, cap - 1);
    }
  }

  // ---------------------------------------------------------------------------
  // Decimal numerals

  predicate AllDigits(s: string) {
    forall c <- s :: IsDigit(c)
  }

  /** `isNaN(x)` is false / `x.isdigit()` is true: a non-empty string of digits. */
  predicate IsNumeral(s: string) {
    |s| > 0 && AllDigits(s)
  }

  /** The value of a digit character (only ever applied to digits). */
  function DigitValue(c: char): nat {
    if IsDigit(c) then c as int - '0' as int else 0
  }

  function DigitChar(n: nat): (c: char)
    requires n < 10
    ensures IsDigit(c) && DigitValue(c) == n
  {
    ('0' as int + n) as char
  }

  /** `parseInt(s)` / `int(s)` for a string of decimal digits. */
  function DigitsValue(s: string): nat {
    if |s| == 0 then 0 else 10 * DigitsValue(s[..|s| - 1]) + DigitValue(s[|s| - 1])
  }

  lemma TwoDigitsValue(s: string)
    requires |s| <= 2
    ensures DigitsValue(s) <= 99
  {
    if |s| == 2 {
      assert DigitsValue(s[..1]) == DigitValue(s[0]);
    }
  }

  /** `String(n)` / `str(n)` for a natural number. */
  function NatString(n: nat): string {
    if n < 10 then [DigitChar(n)] else NatString(n / 10) + [DigitChar(n % 10)]
  }

  /** `String(n)` for an integer. */
  function IntString(n: int): string {
    if n < 0 then "-" + NatString(-n) else NatString(n)
  }

  /** `String(n).padStart(2, '0')` in JavaScript, `%d`/`%m` in `strftime`. */
  function Pad2(n: nat): string {
    if n < 10 then "0" + NatString(n) else NatString(n)
  }

  /** Reads back an optional minus sign followed by decimal digits. */
  function ParseInt(s: string): Option<int> {
    if |s| > 0 && s[0] == '-' then
      if IsNumeral(s[1..]) then Some(-(DigitsValue(s[1..]) as int)) else None
    else if IsNumeral(s) then Some(DigitsValue(s) as int)
    else None
  }

  /** Printing a natural number and reading it back gives the number. */
  lemma {:induction false} NatStringRoundTrip(n: nat)
    ensures IsNumeral(NatString(n)) && DigitsValue(NatString(n)) == n
  {
    if n >= 10 {
      NatStringRoundTrip(n / 10);
      var s := NatString(n);
      assert s[..|s| - 1] == NatString(n / 10);
      assert forall c <- s :: c in NatString(n / 10) || c == DigitChar(n % 10);
    }
  }

  lemma IntStringRoundTrip(n: int)
    ensures ParseInt(IntString(n)) == Some(n)
  {
    if n < 0 {
      NatStringRoundTrip(-n);
      assert IntString(n)[1..] == NatString(-n);
    } else {
      NatStringRoundTrip(n);
      assert NatString(n)[0] in NatString(n);
    }
  }

  /** A printed integer holds only digits and a leading minus sign. */
  lemma IntStringCharset(n: int)
    ensures forall c <- IntString(n) :: IsDigit(c) || c == '-'
  {
    if n < 0 {
      NatStringRoundTrip(-n);
      assert forall c <- IntString(n) :: c == '-' || c in NatString(-n);
    } else {
      NatStringRoundTrip(n);
    }
  }

  lemma Pad2RoundTrip(n: nat)
    requires n < 100
    ensures |Pad2(n)| == 2 && IsNumeral(Pad2(n)) && DigitsValue(Pad2(n)) == n
  {
    NatStringRoundTrip(n);
    if n < 10 {
      var s := Pad2(n);
      assert s[..1] == "0";
      assert forall c <- s :: c == '0' || c in NatString(n);
    } else {
      NatStringRoundTrip(n / 10);
    }
  }
}
