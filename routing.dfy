/**
  The rule-based prefix of `callGroqAPI` (client/src/App.jsx) and `call_groq_api`
  (TelagrameBot/app.py): a navigation link first, then a flight-search link when a travel
  keyword and two cities are present, and otherwise the message goes on to the language
  model. The reply is reduced to the facts its text is built from.
*/
module Routing {

  import opened Wrappers
  import opened Text
  import opened Calendar
  import opened DateText
  import opened Airports
  import opened Navigation
  import opened FlightIntent
  import opened JsDates
  import opened PyDates
  import JsResolver
  import PyResolver

  const FlightKeywords: seq<string> := ["flight", "flights", "fly", "travel", "book", "search", "list"]

  /** `{origin, destination, travelDate}` as the extractor returns it. */
  datatype FlightInfo = FlightInfo(origin: string, destination: string, travelDate: Instant)

  /** What the prefix answers with, before any call to the model. */
  datatype Reply =
    | PageReply(page: PageLink)
    | FlightReply(origin: string, destination: string, originCode: string, destCode: string,
                  displayDate: string, url: string)
    | AskModel

  /** `AIRPORT_CODES[city]` for a city the extractor returned. */
  function CodeOf(city: string): (code: string)
    requires city in CityKeys()
    ensures Lookup(city) == Some(code)
  {
    LookupIsKeyTest(city);
    Lookup(city).value
  }

  // ---------------------------------------------------------------------------
  // The client

  /** `extractFlightSearchInfo(message)` with the clock read as `now`. */
  function JsFlightSearchInfo(message: string, now: Instant): FlightInfo
    requires ValidDate(now.date)
  {
    var (origin, destination) := CityPair(message);
    FlightInfo(origin, destination, DateFromText(message, now))
  }

  /**
    The prefix of `callGroqAPI`. `isoDate` stands for `formatDateForURL`, whose
    `toISOString` renders the instant in UTC rather than local time.
  */
  function JsRoute(message: string, now: Instant, isoDate: Instant -> string): Reply
    requires ValidDate(now.date)
  {
    match AccountPageRequest(message)
    case Some(page) => PageReply(page)
    case None =>
      var containsFlightKeyword := MentionsAny(Lower(message), FlightKeywords);
      var info := JsFlightSearchInfo(message, now);
      if containsFlightKeyword && info.origin != "" && info.destination != "" then
        CityPairShape(message);
        DateFromTextIsReal(message, now);
        FlightReply(info.origin, info.destination, CodeOf(info.origin), CodeOf(info.destination),
                    FormatDateToStandard(info.travelDate.date),
                    JsGenerateFlightSearchUrl(info.origin, info.destination, isoDate(info.travelDate),
                                              DefaultPassengers, DefaultClassType))
      else AskModel
  }

  method JsExtractFlightSearchInfo(message: string, now: Instant) returns (info: FlightInfo)
    requires ValidDate(now.date)
    ensures info == JsFlightSearchInfo(message, now)
  {
    var origin, destination := ExtractCities(message);
    var travelDate := JsResolver.GetDateFromText(message, now);
    info := FlightInfo(origin, destination, travelDate);
  }

  /** `callGroqAPI` up to the model call, as the client runs it. */
  method JsRoutePrefix(message: string, now: Instant, isoDate: Instant -> string) returns (reply: Reply)
    requires ValidDate(now.date)
    ensures reply == JsRoute(message, now, isoDate)
  {
    var accountPageRequest := AccountPageRequest(message);
    if accountPageRequest.Some? {
      return PageReply(accountPageRequest.value);
    }
    var containsFlightKeyword := MentionsAny(Lower(message), FlightKeywords);
    var info := JsExtractFlightSearchInfo(message, now);
    if containsFlightKeyword && info.origin != "" && info.destination != "" {
      CityPairShape(message);
      DateFromTextIsReal(message, now);
      var urlDate := isoDate(info.travelDate);
      var displayDate := FormatDateToStandard(info.travelDate.date);
      var flightUrl := JsGenerateFlightSearchUrl(info.origin, info.destination, urlDate, DefaultPassengers, DefaultClassType);
      return FlightReply(info.origin, info.destination, CodeOf(info.origin), CodeOf(info.destination), displayDate, flightUrl);
    }
    return AskModel;
  }

  // ---------------------------------------------------------------------------
  // The bot

  /** `extract_flight_search_info(message)` with the clock read as `now`. */
  function PyFlightSearchInfo(message: string, now: Instant): FlightInfo
    requires ValidDate(now.date)
  {
    var (origin, destination) := CityPair(message);
    FlightInfo(origin, destination, PyDateFromText(message, now))
  }

  /** The prefix of `call_groq_api`. */
  function PyRoute(message: string, now: Instant): Reply
    requires ValidDate(now.date)
  {
    match AccountPageRequest(message)
    case Some(page) => PageReply(page)
    case None =>
      var containsFlightKeyword := MentionsAny(Lower(message), FlightKeywords);
      var info := PyFlightSearchInfo(message, now);
      if containsFlightKeyword && info.origin != "" && info.destination != "" then
        CityPairShape(message);
        PyDateIsReal(message, now);
        FlightReply(info.origin, info.destination, CodeOf(info.origin), CodeOf(info.destination),
                    FormatDateToStandard(info.travelDate.date),
                    PyGenerateFlightSearchUrl(info.origin, info.destination, FormatDateForUrl(info.travelDate.date),
                                              DefaultPassengers, DefaultClassType))
      else AskModel
  }

  method PyExtractFlightSearchInfo(message: string, now: Instant) returns (info: FlightInfo)
    requires ValidDate(now.date)
    ensures info == PyFlightSearchInfo(message, now)
  {
    var origin, destination := ExtractCities(message);
    var travelDate := PyResolver.GetDateFromText(message, now);
    info := FlightInfo(origin, destination, travelDate);
  }

  /** `call_groq_api` up to the model call, as the bot runs it. */
  method PyRoutePrefix(message: string, now: Instant) returns (reply: Reply)
    requires ValidDate(now.date)
    ensures reply == PyRoute(message, now)
  {
    var accountPageRequest := AccountPageRequest(message);
    if accountPageRequest.Some? {
      return PageReply(accountPageRequest.value);
    }
    var containsFlightKeyword := MentionsAny(Lower(message), FlightKeywords);
    var info := PyExtractFlightSearchInfo(message, now);
    if containsFlightKeyword && info.origin != "" && info.destination != "" {
      CityPairShape(message);
      PyDateIsReal(message, now);
      var urlDate := FormatDateForUrl(info.travelDate.date);
      var displayDate := FormatDateToStandard(info.travelDate.date);
      var flightUrl := PyGenerateFlightSearchUrl(info.origin, info.destination, urlDate, DefaultPassengers, DefaultClassType);
      return FlightReply(info.origin, info.destination, CodeOf(info.origin), CodeOf(info.destination), displayDate, flightUrl);
    }
    return AskModel;
  }

  // ---------------------------------------------------------------------------
  // Properties

  /**
    How the client decides: a page link exactly when the detector finds a page; a flight
    link exactly when it does not, a travel keyword is present and the extractor found an
    origin; the model otherwise. A flight link names two registry cities with their own
    codes, and its URL is the template filled with those codes.
  */
  lemma JsRouteDecides(message: string, now: Instant, isoDate: Instant -> string)
    requires ValidDate(now.date)
    ensures var r := JsRoute(message, now, isoDate); var (o, d) := CityPair(message);
      (r.PageReply? <==> AccountPageRequest(message).Some?)
      && (r.PageReply? ==> Some(r.page) == AccountPageRequest(message))
      && (r.FlightReply? <==>
            AccountPageRequest(message).None? && MentionsAny(Lower(message), FlightKeywords) && o != "")
      && (r.FlightReply? ==>
            r.origin == o && r.destination == d
            && (exists i | 0 <= i < |AirportCodes| :: AirportCodes[i] == (o, r.originCode))
            && (exists j | 0 <= j < |AirportCodes| :: AirportCodes[j] == (d, r.destCode))
            && r.url == SearchUrl(r.originCode, r.destCode, isoDate(DateFromText(message, now)),
                                  DefaultPassengers, DefaultClassType))
  {
    CityPairShape(message);
    var r := JsRoute(message, now, isoDate);
    if r.FlightReply? {
      CodesResolveToThemselves(r.origin);
      CodesResolveToThemselves(r.destination);
    }
  }

  /**
    The same decision in the bot, and its flight URL reads back as the template's
    parameters: the two codes, the travel date as `YYYY-MM-DD` of the resolved day, one
    adult and economy.
  */
  lemma PyRouteDecides(message: string, now: Instant)
    requires ValidDate(now.date)
    ensures var r := PyRoute(message, now); var (o, d) := CityPair(message);
      (r.PageReply? <==> AccountPageRequest(message).Some?)
      && (r.PageReply? ==> Some(r.page) == AccountPageRequest(message))
      && (r.FlightReply? <==>
            AccountPageRequest(message).None? && MentionsAny(Lower(message), FlightKeywords) && o != "")
      && (r.FlightReply? ==>
            var date := PyDateFromText(message, now).date;
            ValidDate(date)
            && r.origin == o && r.destination == d
            && (exists i | 0 <= i < |AirportCodes| :: AirportCodes[i] == (o, r.originCode))
            && (exists j | 0 <= j < |AirportCodes| :: AirportCodes[j] == (d, r.destCode))
            && ParseSearchUrl(r.url) == Some(SearchParams(r.originCode, r.destCode, FormatDateForUrl(date),
                                                          DefaultPassengers, DefaultClassType))
            && ParseUrlDate(FormatDateForUrl(date)) == Some(date)
            && ParseStandardDate(r.displayDate) == Some(date))
  {
    CityPairShape(message);
    PyDateIsReal(message, now);
    var r := PyRoute(message, now);
    if r.FlightReply? {
      var date := PyDateFromText(message, now).date;
      PyFlightLinkReadsBack(r.origin, r.destination, date);
    }
  }

  /** The bot's link for two registry cities and a real day carries their codes and that day. */
  lemma PyFlightLinkReadsBack(origin: string, destination: string, date: Date)
    requires origin in CityKeys() && destination in CityKeys() && ValidDate(date)
    ensures var url := PyGenerateFlightSearchUrl(origin, destination, FormatDateForUrl(date), DefaultPassengers, DefaultClassType);
      (exists i | 0 <= i < |AirportCodes| :: AirportCodes[i] == (origin, CodeOf(origin)))
      && (exists j | 0 <= j < |AirportCodes| :: AirportCodes[j] == (destination, CodeOf(destination)))
      && ParseSearchUrl(url) == Some(SearchParams(CodeOf(origin), CodeOf(destination), FormatDateForUrl(date),
                                                  DefaultPassengers, DefaultClassType))
      && ParseUrlDate(FormatDateForUrl(date)) == Some(date)
      && ParseStandardDate(FormatDateToStandard(date)) == Some(date)
  {
    hide FormatDateForUrl, FormatDateToStandard, ParseUrlDate, ParseStandardDate, ParseSearchUrl, SearchParams;
    CodesResolveToThemselves(origin);
    CodesResolveToThemselves(destination);
    UrlDateIsOneParameter(date);
    CodeIsOneParameter(CodeOf(origin));
    CodeIsOneParameter(CodeOf(destination));
    SearchUrlRoundTrip(CodeOf(origin), CodeOf(destination), FormatDateForUrl(date), DefaultPassengers, DefaultClassType);
    FormatsNameSameDay(date);
  }

  /** A registry city resolves to its own listed code, which is `AIRPORT_CODES[city]`. */
  lemma CodesResolveToThemselves(city: string)
    requires city in CityKeys()
    ensures JsResolveCode(city) == CodeOf(city) && PyResolveCode(city) == CodeOf(city)
    ensures exists i | 0 <= i < |AirportCodes| :: AirportCodes[i] == (city, CodeOf(city))
  {
    var i :| 0 <= i < |CityKeys()| && CityKeys()[i] == city;
    RegistryShape();
    LowerOfLowerWord(city);
    ResolveRegistryKey(city, i);
    LookupFindsListedCode(i);
    assert AirportCodes[i] == (city, CodeOf(city));
  }

  /** A listed code holds no `&`. */
  lemma CodeIsOneParameter(code: string)
    requires exists i | 0 <= i < |AirportCodes| :: AirportCodes[i].1 == code
    ensures '&' !in code
  {
    RegistryShape();
    var i :| 0 <= i < |AirportCodes| && AirportCodes[i].1 == code;
    assert IsAirportCode(code);
  }

  /**
    "booking" contains the flight keyword "book", yet a message naming a booking always
    gets the bookings page, in both implementations: navigation is decided first.
  */
  lemma BookingShadowsFlights(message: string, now: Instant, isoDate: Instant -> string)
    requires ValidDate(now.date) && Contains(Lower(message), "booking")
    ensures JsRoute(message, now, isoDate) == PyRoute(message, now) == PageReply(PageOf(BookingPage))
  {
    PagePriority(message);
  }

  /**
    The client and the bot route every message alike: the same page, or flight links for
    the same cities and codes, or both to the model. The links are identical when the
    two resolvers settle on the same date and the client's ISO date is that day's
    `YYYY-MM-DD`.
  */
  lemma RoutesAgree(message: string, now: Instant, isoDate: Instant -> string)
    requires ValidDate(now.date)
    ensures var js := JsRoute(message, now, isoDate); var py := PyRoute(message, now);
      (js.PageReply? <==> py.PageReply?) && (js.FlightReply? <==> py.FlightReply?)
      && (js.PageReply? ==> js == py)
      && (js.FlightReply? ==>
            js.origin == py.origin && js.destination == py.destination
            && js.originCode == py.originCode && js.destCode == py.destCode)
    ensures var jsDate := DateFromText(message, now);
      jsDate == PyDateFromText(message, now) && ValidDate(jsDate.date)
      && isoDate(jsDate) == FormatDateForUrl(jsDate.date)
      ==> JsRoute(message, now, isoDate) == PyRoute(message, now)
  {
    hide DateFromText, PyDateFromText, CityPair, AccountPageRequest, FormatDateForUrl, FormatDateToStandard;
    var info := JsFlightSearchInfo(message, now);
    DateFromTextIsReal(message, now);
    GeneratedUrlsAgree(info.origin, info.destination, isoDate(info.travelDate), DefaultPassengers, DefaultClassType);
  }
}
