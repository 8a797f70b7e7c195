# Flight_Bot message router, modelled in Dafny

Flight_Bot is a travel assistant for Codemagen. It has two front ends: a React chat
client (`client/src/App.jsx`) and a Telegram bot (`TelagrameBot/app.py`). Each one runs a
message through the same rule-based prefix before anything reaches the language model:

- a navigation detector sends requests about bookings, account statements or the profile
  to a fixed page;
- otherwise, a message with a travel keyword and two known cities gets a one-way
  flight-search link. The link is built from the airport registry, the two IATA codes and
  a travel date that the date resolver reads from the text ("tomorrow", "next week
  monday", `7/8/25`, `7/jul/2025`, "6 jul", "july 6", and so on);
- everything else goes on to the model.

This project models that prefix in both implementations and proves what each promises, and
where the two differ:

- **Airport registry and URL** (`Airports`): the 24-entry city table, the code lookup with
  its upper-case fallback, and the fixed search-URL template, which is proved to read back
  into its parameters.
- **Date resolver:**
  - `Calendar`: a proleptic Gregorian calendar with day numbers and weekdays. It models
    JavaScript's normalising `new Date(y, m0, d)` and Python's checking
    `datetime(y, m, d)`.
  - `DatePatterns`, `DateHits`, `BareDates`: hand-written scanners for the fixed regular
    expressions. Each search is proved to find the leftmost match.
  - `JsDates` and `PyDates`: what `getDateFromText` and `get_date_from_text` return.
  - `JsResolver` and `PyResolver`: the two resolvers' loops as methods, each proved to
    compute the matching function.
  - `DateText`: the `DD/MM/YYYY` and `YYYY-MM-DD` renderings and their parsers.
- **Navigation detector** (`Navigation`): the three keyword lists and their priority.
- **Flight-intent extractor** (`FlightIntent`): the three connector patterns, the
  table-order fallback, and the extraction loop with its `break`.
- **Routing** (`Routing`): the decision both prefixes make, and the reply facts it is
  built from.

The clock is a parameter everywhere: `now` is an `Instant`, a date plus the time since
that date's midnight. Each source function that reads the clock receives the same `now`.

Where the two implementations behave differently, the model follows each one's code and
proves how far they agree:

- On an impossible day such as `31/2/25`, JavaScript rolls over into March
  (`JsNewDate`), but Python raises `ValueError` and moves on to the next pattern
  (`PyDatetime`). `PyDates.ImpossibleDayDiverges` exhibits this.
  `PyDates.DatesFromTextAgree` proves that the two resolvers return the same instant
  whenever Python's `datetime` accepts the date that both pick.
- Python places a bare "feb 29" of a leap year that has passed in the next year. That
  year has no such day, so Python skips the pattern, while JavaScript rolls over to
  1 March (`PyDates.LeapDayRollover`).
- JavaScript counts months from 0 (`JsMonthMap`) and Python from 1 (`PyMonthMap`).
  `DatePatterns.MonthMapsAgree` proves the maps are offset by one.
- `getNextWeekMonday` computes `(1 + 7 - getDay()) % 7 || 7` and `get_next_week_monday`
  computes `7 - weekday()`. `PyDates.NextWeekMondaysAgree` proves these are the same
  day.
- The client renders the URL date with `toISOString`, which is in UTC. The bot renders it
  with `strftime`, in local time. The client's rendering is therefore a parameter
  `isoDate` of `Routing.JsRoute`. Only the bot's URL date is proved to name the displayed
  day (`Routing.PyRouteDecides`).

The loops of `parseCustomDate`, `getDateFromText` and their Python counterparts are
written as one method per loop:

- `ParseCustomDate` covers the class loops;
- `FirstExplicitDate` covers the `dateFormats` loop;
- `FirstBareDate` and `PlaceInYear` cover the bare-pattern loop and its year placement;
- `GetDateFromText` covers the whole resolver.

The city half of `extractFlightSearchInfo` is `FlightIntent.ExtractCities`, and the code
shared by the branches of `parseCustomDate` is `NewDateOfCaptures` / `DateOfCaptures`.
Each method's `ensures` ties it to the function that the lemmas speak about.

## Model

| member | source | states |
|---|---|---|
| Calendar.DaysInMonth | client/src/App.jsx:108 | every month has 28 to 31 days, and 29 exactly for February of a Gregorian leap year |
| Calendar.AddDaysNumber | client/src/App.jsx:83 | moving a date `k` days with day-of-month overflow moves its day number by exactly `k` |
| Calendar.DayAfter | client/src/App.jsx:73-77 | tomorrow (`setDate(getDate() + 1)`, and `now + timedelta(days=1)` in the bot) is a real date one day number later at the same time of day, and lies after now |
| Calendar.JsDayIsShiftedWeekday | TelagrameBot/app.py:115 | JavaScript's `getDay()` (Sunday 0) is Python's `weekday()` (Monday 0) shifted by one, modulo 7 |
| Calendar.UnixEpochIsThursday | client/src/App.jsx:81 | the weekday numbering is anchored at 1970-01-01, a Thursday (`getDay()` 4, `weekday()` 3) |
| Calendar.WeekdayAfter | TelagrameBot/app.py:116 | adding `k` days advances `weekday()` by `k` modulo 7 |
| Calendar.JsDayAfter | client/src/App.jsx:83 | adding `k` days advances `getDay()` by `k` modulo 7 |
| Calendar.JsNewDate | client/src/App.jsx:108 | `new Date(y, m0, d)` always yields a real calendar date, whatever the fields |
| Calendar.JsNewDateCountsFromFirst | client/src/App.jsx:136 | `new Date(y, m0, d)` is `d - 1` days after the first of month `m0` counted from January of `y`, so overflowing months and days roll over |
| Calendar.JsNewDateExact | client/src/App.jsx:203 | on a real day of a real month, `new Date(y, m0, d)` is exactly that date |
| Calendar.JsNewDateKeepsYear | client/src/App.jsx:203 | a month index 0..11 and a day 1..31 stay within year `y` (day 31 of a short month rolls into the next month, never the next year) |
| Calendar.PyDatetime | TelagrameBot/app.py:139-142 | `datetime(y, m, d)` succeeds exactly on real dates of the years 1 to 9999 and then names that date; every other triple raises |
| Calendar.PyDatetimeAgreesWithJs | TelagrameBot/app.py:140 | where `datetime(y, m, d)` succeeds, JavaScript's `new Date(y, m - 1, d)` names the same day |
| Text.CaseMappingsAbsorb | client/src/App.jsx:216 | lower-casing forgets an earlier upper-casing, and upper-casing is idempotent |
| Text.ContainsTransitive | client/src/App.jsx:220 | a substring of a substring is a substring |
| Text.SpaceRun | client/src/App.jsx:261 | `\s+` is greedy: the run is all spaces and stops before a non-space |
| Text.WordRun | client/src/App.jsx:261 | `\w+` is greedy: the run is all word characters and stops before a non-word character |
| Text.DigitRunIsGreedy | client/src/App.jsx:92 | `\d{1,n}` takes digits up to the cap and stops only at a non-digit or at the cap |
| Text.NatStringRoundTrip | client/src/App.jsx:65 | `String(n)` of a natural number is a numeral whose value is `n` |
| Text.IntStringRoundTrip | client/src/App.jsx:59 | the interpolated passenger count reads back as the same integer |
| Text.Pad2RoundTrip | client/src/App.jsx:63-64 | `padStart(2, '0')` of a number below 100 is two digits worth that number |
| Airports.CityKeys | client/src/App.jsx:256 | `Object.keys(AIRPORT_CODES)` lists the table's cities in declaration order |
| Airports.RegistryShape | client/src/App.jsx:28-53 | every city is a lower-case word (none starting with `f`) and every code is three capital letters |
| Airports.KeysUnique | TelagrameBot/app.py:22-47 | no city is listed twice |
| Airports.CodesAreNotKeys | TelagrameBot/app.py:22-47 | no code, lower-cased, is a city name |
| Airports.LookupIn | client/src/App.jsx:56 | a lookup misses exactly when no entry has the key, and a hit is a listed `(key, code)` entry |
| Airports.LookupFindsListedCode | TelagrameBot/app.py:95 | each city finds exactly the code listed beside it |
| Airports.LookupIsKeyTest | client/src/App.jsx:272 | `cities.includes(x)` holds exactly when the lookup of `x` succeeds |
| Airports.ResolveRegistryKey | client/src/App.jsx:56-57 | a city in any letter case resolves to its listed code, in both implementations |
| Airports.ResolveOtherString | TelagrameBot/app.py:95-96 | any string whose lower-case form is not a city resolves to its own upper-case form |
| Airports.ResolveCodesAgree | TelagrameBot/app.py:95-96 | the JavaScript lookup with its falsy-code fallback and `.get(x.lower(), x.upper())` resolve every string alike |
| Airports.ResolveIdempotent | TelagrameBot/app.py:95 | resolving a resolved code changes nothing |
| Airports.GeneratedUrlsAgree | TelagrameBot/app.py:93-98 | both implementations build the identical URL for the same arguments |
| Airports.ParseJoinedQuery | client/src/App.jsx:59 | a parameter list joined with `&` and `=` splits back into itself while no value holds `&` and no name holds `=` |
| Airports.SearchUrlRoundTrip | client/src/App.jsx:55-60 | the search URL reads back as the template's twelve parameters: the codes, the date, the passengers, the class and the fixed `IN`, `0` and `false` defaults |
| DateText.StandardDateRoundTrip | client/src/App.jsx:62-67 | `DD/MM/YYYY` of a real date reads back as that date |
| DateText.UrlDateRoundTrip | TelagrameBot/app.py:100-102 | `%Y-%m-%d` of a real date reads back as that date |
| DateText.FormatsNameSameDay | TelagrameBot/app.py:100-106 | the URL date and the display date of one value name the same calendar day |
| DateText.UrlDateIsOneParameter | TelagrameBot/app.py:102 | the URL date holds no `&`, so it stays one query parameter |
| DatePatterns.MonthMapsCoverLexicon | TelagrameBot/app.py:145-155 | `month_map` gives the `i`-th abbreviation and the `i`-th name month `i + 1`, and knows no other word |
| DatePatterns.MonthMapsAgree | client/src/App.jsx:118-123 | `monthMap` has the same words as `month_map`, each one month lower |
| DatePatterns.MonthWordNumber | TelagrameBot/app.py:161 | a word `month_map` knows gives a month 1 to 12, and `monthMap` gives the same month 0-based |
| DatePatterns.AbbreviationsShape | client/src/App.jsx:114 | the twelve abbreviations are distinct three-letter lower-case words |
| DatePatterns.NamesExtendAbbreviations | client/src/App.jsx:115 | each month name begins with its abbreviation |
| DatePatterns.LexiconPrefixFree | client/src/App.jsx:114-115 | no word of either alternation is a prefix of another, so the first alternative that matches is the only one |
| DatePatterns.MonthWordAt | client/src/App.jsx:114 | a matched alternative is one of the words, present case-insensitively at that position |
| DatePatterns.MonthWordAtUnique | client/src/App.jsx:160 | in a prefix-free alternation, the word present at a position is the one matched |
| DatePatterns.DateMatchAt | client/src/App.jsx:158-161 | a date-class match starts where it is tried and ends inside the text |
| DatePatterns.AnchoredMatch | client/src/App.jsx:92-93 | a `^…$` match spans the whole string |
| DatePatterns.FirstAnchored | client/src/App.jsx:96-138 | the first class that matches anchored, and none exactly when no class matches |
| DatePatterns.ExpandYear | client/src/App.jsx:104-106 | a two-digit year becomes the year in 1950..2049 with the same last two digits, and a longer one is kept |
| DateHits.FindDateIsMatch | client/src/App.jsx:165 | the first `matchAll` hit is a match of the class at its start |
| DateHits.FindDateIsLeftmost | TelagrameBot/app.py:195 | no match of the class starts before the first `findall` hit |
| DateHits.FindDateMisses | client/src/App.jsx:166 | no hit means the class matches nowhere in the text |
| DateHits.SearchHitMatchesAnchored | client/src/App.jsx:167 | the text of a hit, re-read by the anchored form of its class, gives the same captures |
| DateHits.ClassesAgree | client/src/App.jsx:91-116 | a class tried earlier never reads a text differently from a later class that matches it |
| DateHits.SeparatorsDisagree | client/src/App.jsx:92-93 | a text of the dash form never matches the slash form |
| DateHits.NumeralsBeforeWords | TelagrameBot/app.py:123-155 | a text with a month word never matches a numeric form |
| DateHits.NamesAgreeWithAbbreviations | TelagrameBot/app.py:153-154 | a text of the full-name form never matches the abbreviation form differently |
| DateHits.FirstAnchoredOfClass | client/src/App.jsx:96-138 | the class that matches a text decides its reading, whichever earlier classes were tried |
| DateHits.DateHitIsRead | client/src/App.jsx:164-167 | the hit handed to `parseCustomDate` is always matched by the anchored forms, with the hit's own captures |
| DateHits.MatchedMonthKnown | client/src/App.jsx:129 | a matched month word is always a key of both month maps |
| DateHits.MonthFieldKind | TelagrameBot/app.py:132 | the month capture is a numeral exactly for the numeric classes |
| DateHits.NoClassMatches | client/src/App.jsx:140 | `parseCustomDate` falls through to `null` exactly when no anchored form matches |
| BareDates.FindBareIsLeftmost | client/src/App.jsx:190 | `text.match(pattern)` finds the pattern's match at the leftmost position where it matches |
| BareDates.FindBareMisses | TelagrameBot/app.py:217 | no match means the pattern matches at no position |
| BareDates.MatchedWordText | client/src/App.jsx:194 | the lower-cased text of a matched month word is that word |
| BareDates.BareCaptures | client/src/App.jsx:176-179 | the day-first patterns capture a day numeral of one or two digits and then a month word, and the month-first patterns the reverse |
| BareDates.FoundBareCaptures | client/src/App.jsx:193-199 | `isNaN(match[1])` picks month-first exactly for the month-first patterns |
| BareDates.BareFieldsKnown | TelagrameBot/app.py:219-224 | the `month_map` lookup never misses and the day is at most 99 |
| BareDates.LexiconKnown | client/src/App.jsx:182-187 | every word of both alternations is a lower-case word that both month maps know |
| JsDates.MondayDistance | client/src/App.jsx:81 | the client's distance to next Monday is between 1 and 7 and lands on Monday |
| JsDates.NoMondayBefore | client/src/App.jsx:81 | no day before that distance is a Monday |
| JsDates.NextWeekMondayIsNextMonday | client/src/App.jsx:79-85 | "next week monday" is the first Monday strictly after today, 1 to 7 days ahead, at the current time of day |
| JsDates.CustomDate | client/src/App.jsx:87-141 | `parseCustomDate` returns `null` exactly when no anchored form matches |
| JsDates.CustomDateOfClass | client/src/App.jsx:96-138 | the first matching class decides the date, built from its captures |
| JsDates.NumericClassDate | client/src/App.jsx:96-110 | a numeric text gives `new Date(expanded year, month - 1, day)` |
| JsDates.NamedClassDate | client/src/App.jsx:125-138 | a month-name text gives `new Date(expanded year, monthMap[word], day)` |
| JsDates.HitAlwaysParses | client/src/App.jsx:164-171 | `parseCustomDate` never rejects a class hit, so the `!isNaN` test always passes |
| JsDates.ExplicitIsFirstHit | client/src/App.jsx:164-172 | the explicit-date step returns the date of the first class hit, and nothing exactly when no class has a hit |
| JsDates.FirstHitOfClass | client/src/App.jsx:164-166 | the first class hit belongs to the first class with any hit |
| JsDates.BareDayPlacement | client/src/App.jsx:201-207 | a bare day is placed in the current year unless its midnight has passed, then in the next year, on the same day when the next year has it; it is never in the past |
| JsDates.BareDateIsReal | client/src/App.jsx:189-210 | every bare date is a real calendar date |
| JsDates.DateFromTextIsReal | client/src/App.jsx:143-213 | `getDateFromText` always returns a real date |
| JsResolver.NewDateOfCaptures | client/src/App.jsx:103-108 | the year fix and `new Date(year, month, day)` give the expanded-year date |
| JsResolver.ParseCustomDate | client/src/App.jsx:87-141 | the two class loops compute `CustomDate` |
| JsResolver.FirstExplicitDate | client/src/App.jsx:157-172 | the `dateFormats` loop computes the explicit-date step |
| JsResolver.PlaceInYear | client/src/App.jsx:202-207 | the year placement with `setFullYear` computes `BareDay` |
| JsResolver.FirstBareDate | client/src/App.jsx:189-210 | the `simplePatterns` loop computes the bare-date step |
| JsResolver.GetDateFromText | client/src/App.jsx:143-213 | the whole resolver computes `DateFromText` |
| PyDates.MondayFromWeekday | TelagrameBot/app.py:115 | for Python's weekday `w`, JavaScript's distance to the next Monday is `7 - w` |
| PyDates.NextWeekMondaysAgree | TelagrameBot/app.py:112-116 | `today + timedelta(days=7 - weekday())` is the client's next-week Monday |
| PyDates.PyCustomIsFirstAnchored | TelagrameBot/app.py:118-172 | `parse_custom_date` reads a text as the first matching class does, and returns `None` when no class matches |
| PyDates.PyCustomFromFirst | TelagrameBot/app.py:128-170 | from any class on which no earlier class matches, the loops return the first matching class's date |
| PyDates.PyCustomSkips | TelagrameBot/app.py:141-142 | after a `ValueError`, the later classes read the text alike, so the loops end with `None` |
| PyDates.CustomDatesAgree | TelagrameBot/app.py:118-172 | where `parse_custom_date` returns a date, `parseCustomDate` returns the same date |
| PyDates.ImpossibleDayDiverges | TelagrameBot/app.py:139-142 | `31/2/2025` is rejected by Python and becomes 3 March 2025 in JavaScript |
| PyDates.PyHitParses | TelagrameBot/app.py:194-197 | a class hit handed to `parse_custom_date` yields the `datetime` of its own captures |
| PyDates.ExplicitDatesAgree | TelagrameBot/app.py:194-199 | when the first class hit makes a real date, both resolvers' explicit steps return it |
| PyDates.PyExplicitNeedsHit | TelagrameBot/app.py:194-199 | with no class hit, the explicit step finds nothing |
| PyDates.BareDaysAgree | TelagrameBot/app.py:226-232 | where Python places a bare day, JavaScript places it on the same date |
| PyDates.LeapDayRollover | TelagrameBot/app.py:229-234 | after 29 February of a leap year, Python skips "feb 29" while JavaScript moves it to 1 March of the next year |
| PyDates.AcceptedBareHit | TelagrameBot/app.py:216-232 | an accepted bare hit gives the first bare month and day of both resolvers, and their placements agree where Python's succeed |
| PyDates.BareDatesAgree | TelagrameBot/app.py:216-234 | the first accepted bare hit decides JavaScript's bare date, Python agrees where its `datetime` calls succeed, and with no accepted hit both find nothing |
| PyDates.PyExplicitReal | TelagrameBot/app.py:194-199 | an explicit date is a real date |
| PyDates.PyBareReal | TelagrameBot/app.py:216-234 | a bare date is a real date |
| PyDates.PyDateIsReal | TelagrameBot/app.py:174-236 | `get_date_from_text` always returns a real date |
| PyDates.DateFromTextCases | client/src/App.jsx:143-213 | without a keyword, the resolver returns midnight of the first class hit's date, else of the first accepted bare day, else tomorrow |
| PyDates.DatesFromTextAgree | TelagrameBot/app.py:174-236 | the two resolvers return the same instant whenever Python's `datetime` accepts the date both pick |
| PyResolver.DateOfCaptures | TelagrameBot/app.py:131-142 | the year fix and `datetime(year, month, day)` give the expanded-year date or the `ValueError` |
| PyResolver.ParseCustomDate | TelagrameBot/app.py:118-172 | the two pattern loops with `continue` compute `PyCustomDate` |
| PyResolver.FirstExplicitDate | TelagrameBot/app.py:187-199 | the `date_patterns` loop computes the explicit-date step |
| PyResolver.PlaceInYear | TelagrameBot/app.py:227-234 | the `try` block computes `PyBareDay` |
| PyResolver.FirstBareDate | TelagrameBot/app.py:209-234 | the `simple_patterns` loop computes the bare-date step |
| PyResolver.GetDateFromText | TelagrameBot/app.py:174-236 | the whole resolver computes `PyDateFromText` |
| Navigation.PageOf | client/src/App.jsx:221-245 | each page kind has its own link under `https://www.codemagen.net/myaccounts/` |
| Navigation.KeywordRoots | client/src/App.jsx:219-240 | each keyword list matches exactly when one of its root words (booking; account or statement; profile) occurs |
| Navigation.RootsDecide | TelagrameBot/app.py:244 | a list whose every keyword contains a root that is itself listed decides like its roots |
| Navigation.PagePriority | client/src/App.jsx:215-249 | booking wins over everything, account or statement over profile, and no root word means no page |
| Navigation.DetectionIgnoresCase | TelagrameBot/app.py:240 | upper-casing a message never changes the page detected |
| FlightIntent.ToAfter | client/src/App.jsx:262 | `\s+to\s+` consumes at least one character and stays within the text |
| FlightIntent.DashAfter | client/src/App.jsx:263 | `\s*-\s*` consumes at least one character and stays within the text |
| FlightIntent.FromAfter | client/src/App.jsx:261 | `from\s+` consumes at least one character and stays within the text |
| FlightIntent.PairAt | client/src/App.jsx:261-263 | a connector match captures two non-empty words |
| FlightIntent.ConnectorAt | TelagrameBot/app.py:284-286 | each connector pattern captures two non-empty words |
| FlightIntent.FoundIn | client/src/App.jsx:257 | `cities.filter(includes)` keeps exactly the cities that occur in the message |
| FlightIntent.ExtractCities | client/src/App.jsx:252-284 | the pattern loop with `break` and the fallback compute `CityPair` |
| FlightIntent.CityPairShape | TelagrameBot/app.py:289-303 | origin and destination are both empty or both registry cities |
| FlightIntent.ConnectorCitiesAreKeys | client/src/App.jsx:272-275 | a connector pair is kept only when both words are cities |
| FlightIntent.FoundInTableOrder | client/src/App.jsx:256-257 | the found cities come in table order, not text order |
| FlightIntent.FirstFound | TelagrameBot/app.py:280 | the first found city is the first table city that occurs |
| FlightIntent.FallbackPair | client/src/App.jsx:281-284 | with no connector pair, the two lowest table cities that occur are origin and destination |
| FlightIntent.NoPairWithoutTwoKeys | TelagrameBot/app.py:301-303 | with no connector pair and fewer than two cities, both stay empty |
| FlightIntent.FromToNamesPair | client/src/App.jsx:261 | "from A to B" for two cities gives origin A and destination B |
| FlightIntent.ToNamesPair | client/src/App.jsx:261-277 | "A to B" for two cities gives origin A and destination B; the optional "from" prefix is skipped because no city name starts with f |
| FlightIntent.DashNamesPair | client/src/App.jsx:263-277 | "A-B" for two cities gives origin A and destination B; neither "to" pattern matches a text without white space |
| FlightIntent.FindConnectorIsLeftmost | TelagrameBot/app.py:290 | a found match is the pattern's match at the leftmost position where it matches, as re.search scans |
| FlightIntent.FindConnectorMisses | TelagrameBot/app.py:290-291 | the search finds nothing exactly when the pattern matches at no position |
| FlightIntent.FromToScan | TelagrameBot/app.py:284 | the first connector pattern finds the pair in "from A to B" |
| FlightIntent.ToPairScan | client/src/App.jsx:262 | `(\w+)\s+to\s+(\w+)` captures both words of "A to B" |
| Routing.CodeOf | client/src/App.jsx:395 | `AIRPORT_CODES[city]` of an extracted city is its listed code |
| Routing.CodesResolveToThemselves | TelagrameBot/app.py:350-351 | the code in the reply is the code the URL resolver uses, and is listed beside the city |
| Routing.CodeIsOneParameter | TelagrameBot/app.py:346 | a listed code holds no `&` |
| Routing.JsExtractFlightSearchInfo | client/src/App.jsx:251-290 | `extractFlightSearchInfo` returns the city pair and the resolved date |
| Routing.JsRoutePrefix | client/src/App.jsx:359-397 | `callGroqAPI` up to the model call computes `JsRoute` |
| Routing.PyExtractFlightSearchInfo | TelagrameBot/app.py:271-308 | `extract_flight_search_info` returns the city pair and the resolved date |
| Routing.PyRoutePrefix | TelagrameBot/app.py:313-355 | `call_groq_api` up to the model call computes `PyRoute` |
| Routing.JsRouteDecides | client/src/App.jsx:359-397 | a page reply exactly when a page is detected; a flight reply exactly when none is, a travel keyword occurs and an origin was found; the flight reply names two listed cities with their codes and the template URL |
| Routing.PyRouteDecides | TelagrameBot/app.py:313-355 | the same decision in the bot, and its flight URL reads back as the two codes, the day shown and the defaults |
| Routing.PyFlightLinkReadsBack | TelagrameBot/app.py:343-351 | the bot's link for two cities and a real day carries their codes and a URL date naming the displayed day |
| Routing.BookingShadowsFlights | client/src/App.jsx:359-387 | a message mentioning "booking" gets the bookings page, although "book" is a travel keyword |
| Routing.RoutesAgree | TelagrameBot/app.py:313-355 | both front ends route every message alike, and produce identical replies when the resolved dates agree and the client's ISO date is that day |

## Left out

- I/O is not modelled: the language-model HTTP calls and their error handling, the API-key
  check that throws, the Telegram send, the Flask routes and the environment loading.
  The model stops where the message would go to the model (`AskModel`).
- The React state, the rendering, and the markdown-to-HTML rewriting are presentation.
- The reply texts, emoji, descriptions and city capitalisation are left out. A reply keeps
  only the facts its text is built from: the page link; or the cities, the codes, the
  display date and the URL.
- The clock: `new Date()` and `datetime.now()` become one `now` parameter.
  - The source reads the clock again inside `parseCustomDate`, the bare-date step and
    `getTomorrowDate`. The model gives every read the same instant.
  - Milliseconds, time zones and daylight saving are reduced to a date plus an ordered
    time of day.
- `formatDateForURL` uses `toISOString`, which renders UTC. It is the uninterpreted
  parameter `isoDate` of `Routing.JsRoute`.
- Routing.JsRouteDecides: states the client's URL only in terms of `isoDate`. It does not
  claim that the client's URL date is the displayed day, because in time zones east of
  UTC it can be the day before.
- JavaScript `Date` details beyond calendar arithmetic are not modelled, such as the year
  limits of `Date`. `setFullYear(currentYear + 1)` is modelled as building the already
  normalised month and day again in the next year, so 29 February rolls over to 1 March.
- Python's `%Y` is modelled as the unpadded year, like JavaScript's `getFullYear()`.
  The two differ only for years below 1000.
- Regular expressions are hand-written scanners for the fixed patterns only, not a
  general regex engine. `\d`, `\s` and `\w` are ASCII only, where JavaScript's `\s` and
  Python 3's `\d`, `\s` and `\w` also accept other Unicode characters. Case folding is
  ASCII only.
- A JavaScript object lookup of an inherited property name (`AIRPORT_CODES["constructor"]`)
  is not modelled. The model only looks up listed keys: the resolver's fallback treats
  every other string as unlisted.
- The prompt text `CODEMAGEN_CONTEXT` is an inert constant.
