/**
  The airport registry shared by both implementations (`AIRPORT_CODES`), the code lookup
  with its upper-casing fallback, and the one-way search URL template, paired with a
  query-string reader that recovers the parameters the template embeds.
*/
module Airports {

  import opened Wrappers
  import opened Text

  /** City key to IATA code, in declaration order (the order `Object.keys` and `keys()` list them). */
  const AirportCodes: seq<(string, string)> := [
    ("chennai", "MAA"), ("mumbai", "BOM"), ("bangalore", "BLR"), ("delhi", "DEL"),
    ("kolkata", "CCU"), ("hyderabad", "HYD"), ("pune", "PNQ"), ("ahmedabad", "AMD"),
    ("goa", "GOI"), ("kochi", "COK"), ("jaipur", "JAI"), ("lucknow", "LKO"),
    ("indore", "IDR"), ("bhubaneswar", "BBI"), ("coimbatore", "CJB"), ("madurai", "IXM"),
    ("trivandrum", "TRV"), ("calicut", "CCJ"), ("vijayawada", "VGA"), ("tirupati", "TIR"),
    ("nashik", "ISK"), ("udaipur", "UDR"), ("salem", "SXV"), ("selam", "SXV")
  ]

  /** `Object.keys(AIRPORT_CODES)` / `list(AIRPORT_CODES.keys())`. */
  function CityKeys(): (keys: seq<string>)
    ensures |keys| == |AirportCodes|
    ensures forall i | 0 <= i < |keys| :: keys[i] == AirportCodes[i].0
  {
    seq(|AirportCodes|, i requires 0 <= i < |AirportCodes| => AirportCodes[i].0)
  }

  predicate IsAirportCode(c: string) {
    |c| == 3 && forall x <- c :: 'A' <= x <= 'Z'
  }

  /** Every key is a lower-case word that does not begin with `f`, and every code is three capitals. */
  lemma RegistryShape()
    ensures forall i | 0 <= i < |AirportCodes| ::
      IsLowerWord(AirportCodes[i].0) && AirportCodes[i].0[0] != 'f' && IsAirportCode(AirportCodes[i].1)
  {
  }

  /** No key is listed twice. */
  lemma KeysUnique()
    ensures forall i, j | 0 <= i < j < |AirportCodes| :: AirportCodes[i].0 != AirportCodes[j].0
  {
  }

  /** No code, read in lower case, is itself a key, so looking a code up again finds nothing. */
  lemma CodesAreNotKeys()
    ensures forall i, j | 0 <= i < |AirportCodes| && 0 <= j < |AirportCodes| ::
      Lower(AirportCodes[i].1) != AirportCodes[j].0
  {
    RegistryShape();
    assert Upper("goa")[0] == 'G' && Upper("goa")[1] == 'O' && Upper("goa")[2] == 'A';
    forall i, j | 0 <= i < |AirportCodes| && 0 <= j < |AirportCodes|
      ensures Lower(AirportCodes[i].1) != AirportCodes[j].0
    {
      var c := AirportCodes[i].1;
      if |AirportCodes[j].0| == 3 {
        assert j == 8;
        forall k | 0 <= k < 3 ensures Upper(c)[k] == c[k] {
          assert c[k] in c;
        }
        CaseMappingsAbsorb(c);
        assert c != Upper("goa");
      }
    }
  }

  // ---------------------------------------------------------------------------
  // Lookup

  /** `table[k]` on a list of pairs: the code of the first entry whose key is `k`. */
  function LookupIn(table: seq<(string, string)>, k: string): (r: Option<string>)
    ensures r.None? <==> forall i | 0 <= i < |table| :: table[i].0 != k
    ensures r.Some? ==> exists i | 0 <= i < |table| :: table[i] == (k, r.value)
  {
    if |table| == 0 then None
    else if table[0].0 == k then Some(table[0].1)
    else
      var r := LookupIn(table[1..], k);
      assert r.Some? ==> exists i | 1 <= i < |table| :: table[i] == (k, r.value) by {
        if r.Some? {
          var i :| 0 <= i < |table[1..]| && table[1..][i] == (k, r.value);
          assert table[i + 1] == (k, r.value);
        }
      }
      r
  }

  /** `AIRPORT_CODES[k]`, or nothing when `k` is not a key. */
  function Lookup(k: string): Option<string> {
    LookupIn(AirportCodes, k)
  }

  /** Each key finds exactly the code listed beside it. */
  lemma LookupFindsListedCode(i: nat)
    requires i < |AirportCodes|
    ensures Lookup(AirportCodes[i].0) == Some(AirportCodes[i].1)
  {
    KeysUnique();
    var r := Lookup(AirportCodes[i].0);
    var j :| 0 <= j < |AirportCodes| && AirportCodes[j] == (AirportCodes[i].0, r.value);
    assert j == i;
  }

  lemma LookupIsKeyTest(k: string)
    ensures Lookup(k).Some? <==> k in CityKeys()
  {
    if Lookup(k).Some? {
      var i :| 0 <= i < |AirportCodes| && AirportCodes[i] == (k, Lookup(k).value);
      assert CityKeys()[i] == k;
    }
  }

  /** `AIRPORT_CODES[x.toLowerCase()] || x.toUpperCase()`: a missing or empty code falls back to the upper-cased input. */
  function JsResolveCode(x: string): string {
    match Lookup(Lower(x))
    case Some(c) => if c != "" then c else Upper(x)
    case None => Upper(x)
  }

  /** `AIRPORT_CODES.get(x.lower(), x.upper())`. */
  function PyResolveCode(x: string): string {
    match Lookup(Lower(x))
    case Some(c) => c
    case None => Upper(x)
  }

  /** The two fallbacks differ only on an empty code, and the registry has none. */
  lemma ResolveCodesAgree(x: string)
    ensures JsResolveCode(x) == PyResolveCode(x)
  {
    RegistryShape();
    if Lookup(Lower(x)).Some? {
      var i :| 0 <= i < |AirportCodes| && AirportCodes[i] == (Lower(x), Lookup(Lower(x)).value);
    }
  }

  /** A registry key in any letter case resolves to its listed code. */
  lemma ResolveRegistryKey(x: string, i: nat)
    requires i < |AirportCodes| && Lower(x) == AirportCodes[i].0
    ensures JsResolveCode(x) == AirportCodes[i].1
    ensures PyResolveCode(x) == AirportCodes[i].1
  {
    LookupFindsListedCode(i);
    RegistryShape();
  }

  /** Any other string passes through upper-cased. */
  lemma ResolveOtherString(x: string)
    requires Lower(x) !in CityKeys()
    ensures JsResolveCode(x) == Upper(x)
    ensures PyResolveCode(x) == Upper(x)
  {
    LookupIsKeyTest(Lower(x));
  }

  /** Resolving a resolved code changes nothing. */
  lemma ResolveIdempotent(x: string)
    ensures PyResolveCode(PyResolveCode(x)) == PyResolveCode(x)
  {
    var c := PyResolveCode(x);
    CodesAreNotKeys();
    if Lookup(Lower(x)).Some? {
      var i :| 0 <= i < |AirportCodes| && AirportCodes[i] == (Lower(x), c);
      RegistryShape();
      assert IsAirportCode(c);
      forall k | 0 <= k < 3 ensures Upper(c)[k] == c[k] {
        assert c[k] in c;
      }
      assert Upper(c) == c;
      ResolveOtherStringBy(c);
    } else {
      CaseMappingsAbsorb(x);
      LookupIsKeyTest(Lower(x));
      ResolveOtherString(c);
    }
  }

  lemma ResolveOtherStringBy(c: string)
    requires exists i | 0 <= i < |AirportCodes| :: AirportCodes[i].1 == c
    ensures PyResolveCode(c) == Upper(c)
  {
    CodesAreNotKeys();
    LookupIsKeyTest(Lower(c));
  }

  // ---------------------------------------------------------------------------
  // The search URL

  const SearchBase := "https://www.codemagen.net/flights/oneway"
  const DefaultPassengers := 1
  const DefaultClassType := "ECONOMY"

  /** The query parameters of the one-way search, in template order. */
  function SearchParams(originCode: string, destCode: string, travelDate: string, passengers: int, classType: string): seq<(string, string)> {
    [("adult_count", IntString(passengers)), ("child_count", "0"), ("class_type", classType),
     ("destination", destCode), ("destinationCountry", "IN"), ("host_search", "false"),
     ("infant_count", "0"), ("non_stop", "false"), ("origin", originCode),
     ("originCountry", "IN"), ("search_type", "one_way"), ("travel_date", travelDate)]
  }

  /** `name=value` pairs joined by `&`, with no escaping, as the template interpolates them. */
  function JoinQuery(params: seq<(string, string)>): string
    requires |params| > 0
  {
    var p := params[0].0 + "=" + params[0].1;
    if |params| == 1 then p else p + "&" + JoinQuery(params[1..])
  }

  /** The template URL once the two codes are resolved. */
  function SearchUrl(originCode: string, destCode: string, travelDate: string, passengers: int, classType: string): string {
    SearchBase + "?" + JoinQuery(SearchParams(originCode, destCode, travelDate, passengers, classType))
  }

  /** `generateFlightSearchURL(origin, destination, travelDate, passengers, classType)`. */
  function JsGenerateFlightSearchUrl(origin: string, destination: string, travelDate: string, passengers: int, classType: string): string {
    SearchUrl(JsResolveCode(origin), JsResolveCode(destination), travelDate, passengers, classType)
  }

  /** `generate_flight_search_url(origin, destination, travel_date, passengers, class_type)`. */
  function PyGenerateFlightSearchUrl(origin: string, destination: string, travelDate: string, passengers: int, classType: string): string {
    SearchUrl(PyResolveCode(origin), PyResolveCode(destination), travelDate, passengers, classType)
  }

  lemma GeneratedUrlsAgree(origin: string, destination: string, travelDate: string, passengers: int, classType: string)
    ensures JsGenerateFlightSearchUrl(origin, destination, travelDate, passengers, classType)
         == PyGenerateFlightSearchUrl(origin, destination, travelDate, passengers, classType)
  {
    ResolveCodesAgree(origin);
    ResolveCodesAgree(destination);
  }

  // ---------------------------------------------------------------------------
  // Reading a search URL back

  /** `s.split(sep)`. */
  function SplitOn(s: string, sep: char): (parts: seq<string>)
    ensures |parts| > 0
  {
    if |s| == 0 then [""]
    else if s[0] == sep then [""] + SplitOn(s[1..], sep)
    else
      var rest := SplitOn(s[1..], sep);
      [[s[0]] + rest[0]] + rest[1..]
  }

  lemma {:induction false} SplitOnFree(a: string, sep: char)
    requires sep !in a
    ensures SplitOn(a, sep) == [a]
  {
    if |a| > 0 {
      assert sep !in a[1..] by {
        forall k | 0 <= k < |a[1..]| ensures a[1..][k] != sep { assert a[1..][k] == a[k + 1]; }
      }
      SplitOnFree(a[1..], sep);
      assert [a[0]] + a[1..] == a;
    }
  }

  lemma {:induction false} SplitOnJoin(a: string, b: string, sep: char)
    requires sep !in a
    ensures SplitOn(a + [sep] + b, sep) == [a] + SplitOn(b, sep)
  {
    if |a| == 0 {
      assert a + [sep] + b == [sep] + b;
      assert ([sep] + b)[1..] == b;
    } else {
      assert sep !in a[1..] by {
        forall k | 0 <= k < |a[1..]| ensures a[1..][k] != sep { assert a[1..][k] == a[k + 1]; }
      }
      SplitOnJoin(a[1..], b, sep);
      assert (a + [sep] + b)[1..] == a[1..] + [sep] + b;
      assert [a[0]] + a[1..] == a;
    }
  }

  /** The position of the first `c` in `s`, or `|s|` when there is none. */
  function IndexOf(s: string, c: char): (i: nat)
    ensures i <= |s|
    ensures i < |s| ==> s[i] == c
    ensures forall k | 0 <= k < i :: s[k] != c
  {
    if |s| == 0 || s[0] == c then 0 else 1 + IndexOf(s[1..], c)
  }

  /** `name=value` split at the first `=`; a segment without one is a name with an empty value. */
  function ParseParam(p: string): (string, string) {
    var i := IndexOf(p, '=');
    if i < |p| then (p[..i], p[i + 1..]) else (p, "")
  }

  function ParseQuery(q: string): seq<(string, string)> {
    var parts := SplitOn(q, '&');
    seq(|parts|, i requires 0 <= i < |parts| => ParseParam(parts[i]))
  }

  /** The parameters of a URL that starts with the search base, or nothing. */
  function ParseSearchUrl(url: string): Option<seq<(string, string)>> {
    var prefix := SearchBase + "?";
    if |prefix| <= |url| && url[..|prefix|] == prefix then Some(ParseQuery(url[|prefix|..])) else None
  }

  /** A parameter list survives joining and splitting while no name or value holds `&` and no name holds `=`. */
  lemma {:induction false} ParseJoinedQuery(params: seq<(string, string)>)
    requires |params| > 0
    requires forall i | 0 <= i < |params| :: '&' !in params[i].0 && '&' !in params[i].1 && '=' !in params[i].0
    ensures ParseQuery(JoinQuery(params)) == params
  {
    var n := params[0].0;
    var v := params[0].1;
    var p := n + "=" + v;
    assert '&' !in p;
    assert IndexOf(p, '=') == |n| by {
      assert p[|n|] == '=';
      forall k | 0 <= k < |n| ensures p[k] != '=' {
        assert p[k] == n[k] && n[k] in n;
      }
    }
    assert ParseParam(p) == params[0] by {
      assert p[..|n|] == n;
      assert p[|n| + 1..] == v;
    }
    if |params| == 1 {
      SplitOnFree(p, '&');
    } else {
      ParseJoinedQuery(params[1..]);
      SplitOnJoin(p, JoinQuery(params[1..]), '&');
    }
  }

  /** The search URL reads back as exactly its parameter list: the codes, the date, the passenger
      count and the class sit under their own names, with the fixed `IN` and `false` defaults. */
  lemma SearchUrlRoundTrip(originCode: string, destCode: string, travelDate: string, passengers: int, classType: string)
    requires '&' !in originCode && '&' !in destCode && '&' !in travelDate && '&' !in classType
    ensures ParseSearchUrl(SearchUrl(originCode, destCode, travelDate, passengers, classType))
         == Some(SearchParams(originCode, destCode, travelDate, passengers, classType))
  {
    var ps := SearchParams(originCode, destCode, travelDate, passengers, classType);
    IntStringCharset(passengers);
    assert '&' !in IntString(passengers);
    SearchParamsJoinable(ps, originCode, destCode, travelDate, passengers, classType);
    ParseJoinedQuery(ps);
    var url := SearchUrl(originCode, destCode, travelDate, passengers, classType);
    assert url[..|SearchBase + "?"|] == SearchBase + "?";
    assert url[|SearchBase + "?"|..] == JoinQuery(ps);
  }

  lemma SearchParamsJoinable(ps: seq<(string, string)>, originCode: string, destCode: string, travelDate: string, passengers: int, classType: string)
    requires ps == SearchParams(originCode, destCode, travelDate, passengers, classType)
    requires '&' !in originCode && '&' !in destCode && '&' !in travelDate && '&' !in classType
    requires '&' !in IntString(passengers)
    ensures forall i | 0 <= i < |ps| :: '&' !in ps[i].0 && '&' !in ps[i].1 && '=' !in ps[i].0
  {
    forall i | 0 <= i < |ps| ensures '&' !in ps[i].0 && '&' !in ps[i].1 && '=' !in ps[i].0 {
      if i == 0 { assert ps[i] == ("adult_count", IntString(passengers)); }
      else if i == 1 { assert ps[i] == ("child_count", "0"); }
      else if i == 2 { assert ps[i] == ("class_type", classType); }
      else if i == 3 { assert ps[i] == ("destination", destCode); }
      else if i == 4 { assert ps[i] == ("destinationCountry", "IN"); }
      else if i == 5 { assert ps[i] == ("host_search", "false"); }
      else if i == 6 { assert ps[i] == ("infant_count", "0"); }
      else if i == 7 { assert ps[i] == ("non_stop", "false"); }
      else if i == 8 { assert ps[i] == ("origin", originCode); }
      else if i == 9 { assert ps[i] == ("originCountry", "IN"); }
      else if i == 10 { assert ps[i] == ("search_type", "one_way"); }
      else { assert ps[i] == ("travel_date", travelDate); }
    }
  }
}
