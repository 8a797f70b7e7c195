/**
  The city-pair part of the flight-intent extractor shared by both implementations
  (`extractFlightSearchInfo`, `extract_flight_search_info`): the three connector patterns
  `(?:from\s+)?(\w+)\s+to\s+(\w+)`, `(\w+)\s+to\s+(\w+)` and `(\w+)\s*-\s*(\w+)` as hand
  scanners (case-insensitive, first match only), the registry keys found as substrings,
  and the fallback to the first two of those in table order.
*/
module FlightIntent {

  import opened Wrappers
  import opened Text
  import opened Airports

  datatype Connector = FromTo | WordTo | WordDash

  /** The connector patterns in the order both extractors try them. */
  const Connectors: seq<Connector> := [FromTo, WordTo, WordDash]

  // ---------------------------------------------------------------------------
  // Scanners

  /**
    `\s+to\s+` at `p`, `to` in any case: the position after it. Both space runs are
    greedy, and a shorter one would leave a space where `t` or a word character must be.
  */
  function ToAfter(s: string, p: nat): (r: Option<nat>)
    requires p <= |s|
    ensures r.Some? ==> p < r.value <= |s|
  {
    var a := SpaceRun(s, p);
    if a == 0 || p + a + 2 > |s| || LowerChar(s[p + a]) != 't' || LowerChar(s[p + a + 1]) != 'o' then None
    else
      var b := SpaceRun(s, p + a + 2);
      if b == 0 then None else Some(p + a + 2 + b)
  }

  /** `\s*-\s*` at `p`: the position after it. */
  function DashAfter(s: string, p: nat): (r: Option<nat>)
    requires p <= |s|
    ensures r.Some? ==> p < r.value <= |s|
  {
    var a := SpaceRun(s, p);
    if p + a >= |s| || s[p + a] != '-' then None
    else Some(p + a + 1 + SpaceRun(s, p + a + 1))
  }

  /** `from\s+` at `i`, `from` in any case: the position after it. */
  function FromAfter(s: string, i: nat): (r: Option<nat>)
    requires i <= |s|
    ensures r.Some? ==> i < r.value <= |s|
  {
    if i + 4 <= |s| && Lower(s[i..i + 4]) == "from" then
      var a := SpaceRun(s, i + 4);
      if a == 0 then None else Some(i + 4 + a)
    else None
  }

  /**
    `(\w+)` link `(\w+)` at `i`, the link being `\s+to\s+` or `\s*-\s*`: the two captured
    words. The first word run is greedy because a space or `-` must follow it, the second
    because nothing follows it.
  */
  function PairAt(s: string, dash: bool, i: nat): (r: Option<(string, string)>)
    requires i <= |s|
    ensures r.Some? ==> |r.value.0| > 0 && |r.value.1| > 0
  {
    var n := WordRun(s, i);
    if n == 0 then None
    else
      var link := if dash then DashAfter(s, i + n) else ToAfter(s, i + n);
      match link
      case None => None
      case Some(j) =>
        var m := WordRun(s, j);
        if m == 0 then None else Some((s[i..i + n], s[j..j + m]))
  }

  /**
    A connector pattern tried at `i`. The optional `from\s+` is tried first; when the rest
    fails after it, the pattern is tried again without it.
  */
  function ConnectorAt(s: string, c: Connector, i: nat): (r: Option<(string, string)>)
    requires i <= |s|
    ensures r.Some? ==> |r.value.0| > 0 && |r.value.1| > 0
  {
    match c
    case FromTo =>
      (match FromAfter(s, i)
       case Some(j) => if PairAt(s, false, j).Some? then PairAt(s, false, j) else PairAt(s, false, i)
       case None => PairAt(s, false, i))
    case WordTo => PairAt(s, false, i)
    case WordDash => PairAt(s, true, i)
  }

  /** The leftmost match of a connector pattern from `i` on: `message.match(p)`, `re.search(p, message)`. */
  function FindConnectorFrom(s: string, c: Connector, i: nat): (r: Option<(string, string)>)
    decreases |s| - i
  {
    if i >= |s| then None
    else if ConnectorAt(s, c, i).Some? then ConnectorAt(s, c, i)
    else FindConnectorFrom(s, c, i + 1)
  }

  function FindConnector(s: string, c: Connector): Option<(string, string)> {
    FindConnectorFrom(s, c, 0)
  }

  /** The match found is the pattern's match at the leftmost position where it matches at all. */
  lemma {:induction false} FindConnectorIsLeftmost(s: string, c: Connector, i: nat) returns (at: nat)
    requires FindConnectorFrom(s, c, i).Some?
    ensures i <= at < |s| && ConnectorAt(s, c, at) == FindConnectorFrom(s, c, i)
    ensures forall j | i <= j < at :: ConnectorAt(s, c, j).None?
    decreases |s| - i
  {
    hide ConnectorAt;
    if ConnectorAt(s, c, i).Some? {
      at := i;
    } else {
      at := FindConnectorIsLeftmost(s, c, i + 1);
    }
  }

  /** The search finds nothing exactly when the pattern matches at no position from `i` on. */
  lemma {:induction false} FindConnectorMisses(s: string, c: Connector, i: nat)
    ensures FindConnectorFrom(s, c, i).None? <==> forall j | i <= j < |s| :: ConnectorAt(s, c, j).None?
    decreases |s| - i
  {
    hide ConnectorAt;
    if i < |s| {
      FindConnectorMisses(s, c, i + 1);
    }
  }

  // ---------------------------------------------------------------------------
  // The city pair

  /** The pattern loop from pattern `k` on: the first match whose two words, lower-cased, are both keys. */
  function ConnectorCities(message: string, k: nat): Option<(string, string)>
    decreases |Connectors| - k
  {
    if k >= |Connectors| then None
    else match FindConnector(message, Connectors[k])
      case Some((a, b)) =>
        if Lower(a) in CityKeys() && Lower(b) in CityKeys() then Some((Lower(a), Lower(b)))
        else ConnectorCities(message, k + 1)
      case None => ConnectorCities(message, k + 1)
  }

  /** `keys.filter(k => lower.includes(k))`: the keys found in the text, in the order listed. */
  function FoundIn(lower: string, keys: seq<string>): (found: seq<string>)
    ensures forall x <- found :: x in keys && Contains(lower, x)
    ensures forall x <- keys :: Contains(lower, x) ==> x in found
  {
    if |keys| == 0 then []
    else
      var rest := FoundIn(lower, keys[1..]);
      assert forall x <- keys :: x == keys[0] || x in keys[1..];
      if Contains(lower, keys[0]) then [keys[0]] + rest else rest
  }

  function FoundCities(lower: string): seq<string> {
    FoundIn(lower, CityKeys())
  }

  /**
    `{origin, destination}` as the extractor leaves them: set by the pattern loop, else
    the first two keys found when there are at least two, else both empty.
  */
  function CityPair(message: string): (string, string) {
    var (origin, destination) := match ConnectorCities(message, 0)
      case Some(p) => p
      case None => ("", "");
    var found := FoundCities(Lower(message));
    if origin == "" && destination == "" && |found| >= 2 then (found[0], found[1])
    else (origin, destination)
  }

  /**
    The city part of `extractFlightSearchInfo` / `extract_flight_search_info`: the pattern
    loop with its `break`, then the fallback.
  */
  method ExtractCities(message: string) returns (origin: string, destination: string)
    ensures (origin, destination) == CityPair(message)
  {
    var lowerMessage := Lower(message);
    origin, destination := "", "";
    var cities := CityKeys();
    var foundCities := FoundCities(lowerMessage);
    var k := 0;
    while k < |Connectors|
      invariant 0 <= k <= |Connectors|
      invariant ConnectorCities(message, k) == ConnectorCities(message, 0)
      invariant origin == "" && destination == ""
    {
      var match_ := FindConnector(message, Connectors[k]);
      if match_.Some? {
        var city1 := Lower(match_.value.0);
        var city2 := Lower(match_.value.1);
        if city1 in cities && city2 in cities {
          origin := city1;
          destination := city2;
          break;
        }
      }
      k := k + 1;
    }
    if origin == "" && destination == "" && |foundCities| >= 2 {
      origin := foundCities[0];
      destination := foundCities[1];
    }
  }

  // ---------------------------------------------------------------------------
  // Properties

  /** Origin and destination are set together: both registry keys, or both empty. */
  lemma CityPairShape(message: string)
    ensures var (o, d) := CityPair(message);
      (o == "" <==> d == "") && (o != "" ==> o in CityKeys() && d in CityKeys())
  {
    RegistryShape();
    ConnectorCitiesAreKeys(message, 0);
    var found := FoundCities(Lower(message));
    if |found| >= 2 {
      assert found[0] in found && found[1] in found;
    }
  }

  lemma {:induction false} ConnectorCitiesAreKeys(message: string, k: nat)
    ensures ConnectorCities(message, k).Some? ==>
      ConnectorCities(message, k).value.0 in CityKeys() && ConnectorCities(message, k).value.1 in CityKeys()
    decreases |Connectors| - k
  {
    hide FindConnector;
    if k < |Connectors| {
      ConnectorCitiesAreKeys(message, k + 1);
    }
  }

  /**
    The fallback takes keys in table order, not in the order the text names them: the two
    found keys listed first in the table, whatever else the text holds.
  */
  lemma {:induction false} FoundInTableOrder(lower: string, keys: seq<string>, i0: nat, i1: nat)
    requires i0 < i1 < |keys|
    requires Contains(lower, keys[i0]) && Contains(lower, keys[i1])
    requires forall i | 0 <= i < i1 && i != i0 :: !Contains(lower, keys[i])
    ensures var found := FoundIn(lower, keys); |found| >= 2 && found[0] == keys[i0] && found[1] == keys[i1]
    decreases i1
  {
    hide Contains;
    if i0 > 0 {
      FoundInTableOrder(lower, keys[1..], i0 - 1, i1 - 1);
    } else {
      FirstFound(lower, keys[1..], i1 - 1);
    }
  }

  /** The first key found is the first one listed that the text contains. */
  lemma {:induction false} FirstFound(lower: string, keys: seq<string>, i: nat)
    requires i < |keys| && Contains(lower, keys[i])
    requires forall j | 0 <= j < i :: !Contains(lower, keys[j])
    ensures var found := FoundIn(lower, keys); |found| >= 1 && found[0] == keys[i]
    decreases i
  {
    hide Contains;
    if i > 0 {
      FirstFound(lower, keys[1..], i - 1);
    }
  }

  /** Without a connector match on two keys, the pair is the first two found keys in table order. */
  lemma FallbackPair(message: string, i0: nat, i1: nat)
    requires ConnectorCities(message, 0).None?
    requires i0 < i1 < |AirportCodes|
    requires Contains(Lower(message), AirportCodes[i0].0) && Contains(Lower(message), AirportCodes[i1].0)
    requires forall i | 0 <= i < i1 && i != i0 :: !Contains(Lower(message), AirportCodes[i].0)
    ensures CityPair(message) == (AirportCodes[i0].0, AirportCodes[i1].0)
  {
    FoundInTableOrder(Lower(message), CityKeys(), i0, i1);
  }

  /** Without a connector match on two keys and with fewer than two keys in the text, both stay empty. */
  lemma NoPairWithoutTwoKeys(message: string)
    requires ConnectorCities(message, 0).None?
    requires |FoundCities(Lower(message))| < 2
    ensures CityPair(message) == ("", "")
  {
  }

  // ---------------------------------------------------------------------------
  // "from X to Y"

  /** A word followed by a non-word character or the end is one whole `\w+` run. */
  lemma {:induction false} WordRunOfWord(s: string, i: nat, w: string)
    requires i + |w| <= |s| && s[i..i + |w|] == w && forall c <- w :: IsWordChar(c)
    requires i + |w| == |s| || !IsWordChar(s[i + |w|])
    ensures WordRun(s, i) == |w|
    decreases |w|
  {
    if |w| > 0 {
      assert s[i] == w[0] && w[0] in w;
      assert s[i + 1..i + 1 + |w[1..]|] == w[1..];
      WordRunOfWord(s, i + 1, w[1..]);
    }
  }

  /** One space before a non-space is a `\s+` run of length one. */
  lemma OneSpace(s: string, p: nat)
    requires p < |s| && s[p] == ' ' && (p + 1 == |s| || !IsSpace(s[p + 1]))
    ensures SpaceRun(s, p) == 1
  {
  }

  /**
    A message that is exactly "from X to Y" for two registry keys X and Y asks for the
    flight from X to Y: the first connector pattern matches at the start and both words
    are keys.
  */
  lemma FromToNamesPair(a: string, b: string)
    requires a in CityKeys() && b in CityKeys()
    ensures CityPair("from " + a + " to " + b) == (a, b)
  {
    var s := "from " + a + " to " + b;
    KeyIsLowerWord(a);
    KeyIsLowerWord(b);
    FromToScan(s, a, b);
    LowerOfLowerWord(a);
    LowerOfLowerWord(b);
    hide FindConnector, FoundCities, Lower, CityKeys;
    assert ConnectorCities(s, 0) == Some((a, b));
  }

  lemma KeyIsLowerWord(a: string)
    requires a in CityKeys()
    ensures IsLowerWord(a)
  {
    RegistryShape();
    var i :| 0 <= i < |CityKeys()| && CityKeys()[i] == a;
  }

  /** The first connector pattern reads "from X to Y" as the pair X, Y at the very start. */
  lemma FromToScan(s: string, a: string, b: string)
    requires IsLowerWord(a) && IsLowerWord(b) && s == "from " + a + " to " + b
    ensures FindConnector(s, FromTo) == Some((a, b))
  {
    assert s[5..] == a + " to " + b;
    FromScan(s, a + " to " + b);
    assert s[5..5 + |a|] == a && s[5 + |a|..5 + |a| + 4] == " to " && s[5 + |a| + 4..] == b;
    ToPairScan(s, 5, a, b);
    hide FromAfter, PairAt;
    assert ConnectorAt(s, FromTo, 0) == Some((a, b));
  }

  /**
    A message that is exactly "X to Y" for two registry keys asks for the flight from X to
    Y: no key starts with `f`, so the optional `from\s+` is skipped and the first pattern
    reads the pair at the start.
  */
  lemma ToNamesPair(a: string, b: string)
    requires a in CityKeys() && b in CityKeys()
    ensures CityPair(a + " to " + b) == (a, b)
  {
    var s := a + " to " + b;
    KeyIsLowerWord(a);
    KeyIsLowerWord(b);
    KeyStartsOtherThanF(a);
    assert s[0..|a|] == a && s[|a|..|a| + 4] == " to " && s[|a| + 4..] == b;
    ToPairScan(s, 0, a, b);
    NoFromAtStart(s);
    LowerOfLowerWord(a);
    LowerOfLowerWord(b);
    hide FromAfter, PairAt, FoundCities, Lower, CityKeys;
    assert ConnectorAt(s, FromTo, 0) == Some((a, b));
    assert FindConnector(s, FromTo) == Some((a, b));
    assert ConnectorCities(s, 0) == Some((a, b));
  }

  /**
    A message that is exactly "X-Y" for two registry keys asks for the flight from X to Y:
    the text holds no space, so neither `to` pattern matches anywhere, and the dash pattern
    reads the pair at the start.
  */
  lemma DashNamesPair(a: string, b: string)
    requires a in CityKeys() && b in CityKeys()
    ensures CityPair(a + "-" + b) == (a, b)
  {
    var s := a + "-" + b;
    KeyIsLowerWord(a);
    KeyIsLowerWord(b);
    DashPairScan(s, a, b);
    DashPairHasNoSpace(s, a, b);
    NoSpaceNoTo(s);
    FindConnectorMisses(s, FromTo, 0);
    FindConnectorMisses(s, WordTo, 0);
    LowerOfLowerWord(a);
    LowerOfLowerWord(b);
    hide FindConnectorFrom, ConnectorAt, PairAt, FoundCities, Lower, CityKeys;
    assert FindConnector(s, FromTo).None? && FindConnector(s, WordTo).None?;
    assert FindConnector(s, WordDash) == Some((a, b));
    assert ConnectorCities(s, 2) == Some((a, b));
    assert ConnectorCities(s, 0) == ConnectorCities(s, 1) == ConnectorCities(s, 2);
  }

  lemma KeyStartsOtherThanF(a: string)
    requires a in CityKeys()
    ensures |a| > 0 && a[0] != 'f'
  {
    RegistryShape();
    var i :| 0 <= i < |CityKeys()| && CityKeys()[i] == a;
  }

  /** A text starting with a lower-case letter other than `f` does not start with `from\s+`. */
  lemma NoFromAtStart(s: string)
    requires |s| > 0 && IsLowerLetter(s[0]) && s[0] != 'f'
    ensures FromAfter(s, 0).None?
  {
    if 4 <= |s| {
      assert Lower(s[0..4])[0] == s[0];
    }
  }

  /** Without a space in the text, `\s+to\s+` matches nowhere, and neither do the two `to` patterns. */
  lemma NoSpaceNoTo(s: string)
    requires forall k | 0 <= k < |s| :: !IsSpace(s[k])
    ensures forall j | 0 <= j < |s| :: ConnectorAt(s, FromTo, j).None? && ConnectorAt(s, WordTo, j).None?
  {
    forall p | 0 <= p <= |s|
      ensures ToAfter(s, p).None?
    {
      assert p < |s| ==> !IsSpace(s[p]);
    }
    forall i | 0 <= i <= |s|
      ensures PairAt(s, false, i).None?
    {
      var n := WordRun(s, i);
      if n > 0 {
        assert ToAfter(s, i + n).None?;
      }
    }
  }

  /** `(\w+)\s*-\s*(\w+)` at the start of "X-Y" reads the pair X, Y. */
  lemma DashPairScan(s: string, a: string, b: string)
    requires IsLowerWord(a) && IsLowerWord(b) && s == a + "-" + b
    ensures FindConnector(s, WordDash) == Some((a, b))
  {
    LowerWordsAreWords(a);
    LowerWordsAreWords(b);
    var p := |a|;
    assert s[0..p] == a && s[p + 1..] == b;
    WordRunOfWord(s, 0, a);
    WordRunOfWord(s, p + 1, b);
    assert s[p] == '-' && s[p + 1] == b[0];
    hide WordRun, SpaceRun, IsLowerWord, IsWordChar;
    assert SpaceRun(s, p) == 0 && SpaceRun(s, p + 1) == 0;
    assert DashAfter(s, p) == Some(p + 1);
    assert PairAt(s, true, 0) == Some((a, b));
  }

  /** "X-Y" for two lower-case words holds no white space. */
  lemma DashPairHasNoSpace(s: string, a: string, b: string)
    requires IsLowerWord(a) && IsLowerWord(b) && s == a + "-" + b
    ensures forall k | 0 <= k < |s| :: !IsSpace(s[k])
  {
    LowerWordsAreWords(a);
    LowerWordsAreWords(b);
    forall k | 0 <= k < |s|
      ensures !IsSpace(s[k])
    {
      if k < |a| {
        assert s[k] == a[k] && a[k] in a;
      } else if k > |a| {
        assert s[k] == b[k - |a| - 1] && b[k - |a| - 1] in b;
      } else {
        assert s[k] == '-';
      }
    }
  }

  /** `from\s+` at the start of "from " followed by a word. */
  lemma FromScan(s: string, rest: string)
    requires s == "from " + rest && |rest| > 0 && IsLowerLetter(rest[0])
    ensures FromAfter(s, 0) == Some(5)
  {
    assert s[..4] == "from";
    assert Lower("from") == "from";
    OneSpace(s, 4);
  }

  /** `(\w+)\s+to\s+(\w+)` at `i` over "X to Y" reads the pair X, Y. */
  lemma ToPairScan(s: string, i: nat, a: string, b: string)
    requires IsLowerWord(a) && IsLowerWord(b) && i + |a| + 4 + |b| == |s|
    requires s[i..i + |a|] == a && s[i + |a|..i + |a| + 4] == " to " && s[i + |a| + 4..] == b
    ensures PairAt(s, false, i) == Some((a, b))
  {
    hide WordRun, ToAfter, SpaceRun;
    LowerWordsAreWords(a);
    LowerWordsAreWords(b);
    var p := i + |a|;
    assert s[p] == ' ' && s[p + 4] == b[0];
    WordRunOfWord(s, i, a);
    ToLinkScan(s, p);
    WordRunOfWord(s, p + 4, b);
  }

  /** `\s+to\s+` over a lone " to " before a non-space. */
  lemma ToLinkScan(s: string, p: nat)
    requires p + 4 < |s| && s[p..p + 4] == " to " && !IsSpace(s[p + 4])
    ensures ToAfter(s, p) == Some(p + 4)
  {
    assert s[p] == ' ' && s[p + 1] == 't' && s[p + 2] == 'o' && s[p + 3] == ' ';
    OneSpace(s, p);
    OneSpace(s, p + 3);
  }

  /** Lower-case words are `\w` runs that do not start with a space. */
  lemma LowerWordsAreWords(w: string)
    requires IsLowerWord(w)
    ensures forall c <- w :: IsWordChar(c)
    ensures !IsSpace(w[0])
  {
    assert w[0] in w;
  }
}
