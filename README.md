# Medical-service search: the aggregation pipeline in Dafny

This project models the backend of a directory-lookup web application. The
application looks up medical services (ambulances, clinics, and so on) in Indian
cities. The model covers the `GET /api/search-services` handler and the helpers
it calls, together with the filter and sort of the search results page:

- `extractPhoneNumber` and `cleanText`, the text extractors every source adapter uses
  (`text.dfy`, `phone.dfy`);
- the two source adapters, each modelled as the `.each` loop over the parsed result
  blocks of one page (`blocks.dfy`, `google.dfy`, `justdial.dfy`):
  - `scrapeGoogleSearch` takes at most five blocks whose title has at least three
    characters;
  - `scrapeJustDial` takes at most three blocks with a non-empty name, and its request
    URL is built from `getCityCode` and the service slug;
- `generateEnhancedMockData`, the five synthetic listings, and `getRandomArea`
  (`fallback.dfy`, `lookups.dfy`);
- `searchMedicalServices`, the handler (`search.dfy`):
  - it rejects a query without a service or a city;
  - it pools the fulfilled adapter results;
  - it replaces an empty pool with the synthetic listings, or else appends the first
    two of them;
  - it keeps the first record of each name and cuts the list to eight;
- the client's filter predicate and `sortProviders` (`results.dfy`).

The listing record is the same on both sides (`Listings.Listing`). Its numbers are
kept exact:

- `rating` in tenths;
- `distance` in tenths of a kilometre;
- `estimatedTime` in minutes.

On both sides `distance` and `estimatedTime` are strings of the form "X.Y km" and
"N mins". The server prints them, and the page's sort reads them with `parseFloat`
and `parseInt`. The model keeps the numbers these strings encode. The page filters
its own static list of providers; it does not call the server.

Whatever the request takes from outside is a parameter of `SearchServices.World`:

- what the network and the HTML parser return, as each adapter's parsed page, or
  `None` when fetching or parsing failed;
- what `Math.random()` returns, as a function from a record's position to its
  `Listings.Draws`;
- what the clock returns.

Every random draw is a natural number. It is reduced into exactly the range the
source's arithmetic produces.

Three facts about the code shape the model:

- The provenance tags are "Google Search", "JustDial" and "Enhanced Directory"
  (`search-services.ts:100`, `:164`, `:239`).
- The travel time is `Math.floor(parseInt(distance) * 3 + base)` (`:81`, `:161`).
  `parseInt` keeps only the whole kilometres of "X.Y", so the time is three minutes
  per whole kilometre plus the base.
- `generateEnhancedMockData` takes no count. It always returns five records, one per
  template.

The pipeline is built on the corrected city lookups (`Lookups.CityCode`,
`Lookups.Area`), as the Findings section explains. The lookups as written are
modelled beside them.

## Model

| member | source | states |
|---|---|---|
| Phone.ExtractPhoneNumberSpec | server/routes/search-services.ts:24-28 | `extractPhoneNumber` returns "" exactly when no substring of the text matches `(\+91[\-\s]?)?[6-9]\d{9}`; otherwise it returns the match that starts leftmost and is the longest at that position |
| Phone.ExtractFromSpec | server/routes/search-services.ts:25-27 | the scan from any position returns "" iff no match starts at or after it; otherwise it returns the leftmost, longest match |
| Phone.MatchLengthCorrect | server/routes/search-services.ts:25 | at one position the backtracking match of the optional `+91` group and its optional separator has length 14, 13 or 10, is a match of the pattern, and is the longest one there; it is 0 iff no match starts there |
| Phone.ExtractPhoneNumberMatches | server/routes/search-services.ts:24-28 | the result is empty or a whole match of the pattern |
| Phone.ExtractAfterPlainText | server/routes/search-services.ts:24-28 | a text holding a number after a stretch with no `+` and no digit yields exactly that number, whichever of its three forms it takes |
| Phone.ExtractSkipsPlain | server/routes/search-services.ts:26-27 | characters that are neither `+` nor a digit never start a match, so the scan passes over them |
| Phone.PhoneChoiceFacts | server/routes/search-services.ts:73-75 | `extractPhoneNumber(...) \|\| "+91-" + random` is never empty; it is a pattern match or a synthesized `+91-` ten-digit number |
| Text.CleanTextIsClean | server/routes/search-services.ts:31-33 | `cleanText` output has no leading or trailing white space, its only white space is the blank, and no two blanks touch |
| Text.CleanTextFixpoint | server/routes/search-services.ts:31-33 | `cleanText(t) == t` iff `t` is already clean |
| Text.CleanTextIdempotent | server/routes/search-services.ts:31-33 | cleaning twice is cleaning once |
| Text.ReplaceRunsSplit | server/routes/search-services.ts:32 | `replace(/\s+/g, sep)` turns each maximal white-space run into one `sep` |
| Text.ReplaceRunsNoSpace | server/routes/search-services.ts:32 | text without white space is left unchanged by the run replacement |
| Text.SlugShape | server/routes/search-services.ts:119 | the service slug has no white space and no upper-case letter, and for a one-word service it is the lower-cased service |
| Text.NatToStringRoundTrip | server/routes/search-services.ts:75 | the decimal rendering a template string makes reads back as the number and has as many characters as the number has digits |
| Listings.PlaceholderPhone | server/routes/search-services.ts:75 | the synthesized phone is `+91-` followed by ten digits whose value lies in [10^9, 10^10) |
| Listings.TravelTimeBounds | server/routes/search-services.ts:81 | three minutes per whole kilometre plus the base is monotone in the distance, so distance bounds give time bounds |
| Lookups.CityCode | server/routes/search-services.ts:176-191 | `getCityCode` with own-entry lookup: the code is always the lower-cased city |
| Lookups.CityCodeAsWrittenAgrees | server/routes/search-services.ts:190 | the as-written `cityCodes[key] \|\| key` agrees with the own-entry lookup iff the lower-cased city is neither `constructor` nor `__proto__` |
| Lookups.CityCodeAsWrittenConstructor | server/routes/search-services.ts:190 | the city "Constructor" gets the inherited `Object` function as its code |
| Lookups.LowerHitsTwoMembers | server/routes/search-services.ts:190 | a lower-cased key names an `Object.prototype` member iff it is `constructor` or `__proto__` |
| Lookups.Area | server/routes/search-services.ts:243-272 | `getRandomArea` returns a non-empty name from the city's list, or from the five compass areas for a city not in the table |
| Lookups.AreaAsWrittenAgrees | server/routes/search-services.ts:264-271 | the as-written area equals the own-entry one unless the lower-cased city is `constructor` or `__proto__`, where it is "undefined", which is no area |
| Lookups.AreaAsWrittenConstructor | server/routes/search-services.ts:264-271 | the city "Constructor" gets the area "undefined" |
| Blocks.CollectCapped | server/routes/search-services.ts:55-62 | the `.each` loop returns the records of the accepted blocks in block order, cut to the cap |
| Blocks.CollectedAt | server/routes/search-services.ts:55-62 | the k-th collected record is built from the k-th accepted block at its own index |
| Blocks.KeptPositionsComplete | server/routes/search-services.ts:55-62 | every accepted block is among the kept positions |
| Blocks.KeptPositionsIncreasing | server/routes/search-services.ts:55 | the kept positions strictly increase, so no block is used twice |
| Blocks.CollectedAll | server/routes/search-services.ts:83-101 | a property of every accepted block's record holds of every collected record |
| GoogleSearch.ScrapeGoogleSearch | server/routes/search-services.ts:36-108 | the adapter returns nothing when the page failed, else the listings of the first five blocks with a usable title |
| GoogleSearch.GoogleResultsSelection | server/routes/search-services.ts:55-62 | the adapter returns min(5, number of usable blocks) records; the k-th is built from the k-th block whose trimmed title has at least three characters |
| GoogleSearch.GoogleResultsTagged | server/routes/search-services.ts:56-101 | at most five records, failed page or not; each is tagged "Google Search", has a title of at least three characters, and answers the query (the query's service and city; non-empty name, phone, address and description; rating 3.0-5.0) |
| GoogleSearch.SnippetAddressFacts | server/routes/search-services.ts:71-72 | the address is the snippet cut to 100 characters plus "..." exactly when the snippet is longer than that, or `<city>, India` without a snippet |
| GoogleSearch.GoogleListingFacts | server/routes/search-services.ts:58-101 | one record: the trimmed title of at least three characters; the address as above; the description is the snippet, or without one "Professional <lower-cased service> services in <city>. Contact for immediate assistance."; a map link exactly when the first link starts with "http", and then that link; the query's service and city; the "Google Search" tag |
| GoogleSearch.GoogleListingPhone | server/routes/search-services.ts:73-75 | the phone is the first number in the snippet when there is one, and otherwise the synthesized placeholder; never empty |
| GoogleSearch.GoogleListingAnswers | server/routes/search-services.ts:58-101 | a record built from a block with a usable title answers the query and carries the "Google Search" tag |
| GoogleSearch.GoogleListingNumbers | server/routes/search-services.ts:78-81 | rating 3.0-5.0, 20-219 reviews, 0.5-10.5 km, and a time of three minutes per whole km plus five (5-35) |
| JustDial.JustDialUrlFacts | server/routes/search-services.ts:117-120 | the request path is the lower-cased city, the service slug, and `nct-` with the lower-cased city; it has no white space for a one-word service and city |
| JustDial.ScrapeJustDial | server/routes/search-services.ts:111-170 | the adapter returns nothing when the page failed, else the listings of the first three blocks with a non-empty cleaned name |
| JustDial.JustDialResultsSelection | server/routes/search-services.ts:133-144 | the adapter returns min(3, number of named blocks) records; the k-th is built from the k-th block with a name |
| JustDial.JustDialResultsTagged | server/routes/search-services.ts:134-164 | at most three records, failed page or not; each is tagged "JustDial", named, marked verified, and answers the query |
| JustDial.BoxPhoneFacts | server/routes/search-services.ts:139-142 | the phone is the first number in the contact text, else the first in the whole block, else a placeholder; never empty |
| JustDial.JustDialListingFacts | server/routes/search-services.ts:136-165 | one record: a non-empty clean name; the clean address or `<city>, India`; the phone as above; verified; the description "Verified <lower-cased service> provider from JustDial. Professional medical services available."; no map link; the query's service and city; the "JustDial" tag |
| JustDial.JustDialListingAnswers | server/routes/search-services.ts:136-165 | a record built from a named block answers the query, carries the "JustDial" tag and is verified |
| JustDial.JustDialListingNumbers | server/routes/search-services.ts:146-161 | rating 3.0-5.0, 15-164 reviews, 1.0-9.0 km, and a time of three minutes per whole km plus ten (13-37) |
| EnhancedDirectory.GenerateEnhancedMockData | server/routes/search-services.ts:225-240 | one record per template, five in all |
| EnhancedDirectory.MockNamesDistinct | server/routes/search-services.ts:198-227 | the five names differ from each other for every city |
| EnhancedDirectory.MockNamesEndWithCity | server/routes/search-services.ts:227 | every name ends in " - " followed by the city |
| EnhancedDirectory.MockListingFacts | server/routes/search-services.ts:225-240 | one record has every field of `IsMockListing`: the name `<template> - <city>`; the query's service and city; a synthesized phone; the address `<area of the city>, <city>, India`; rating 3.5-5.0, 50-349 reviews, 0.8-12.8 km, 10-44 minutes; the description `<template sentence> Specializing in <lower-cased service> services.`; no map link; the "Enhanced Directory" tag. The record answers the query, and its area is one of the city's areas |
| EnhancedDirectory.MockDataFacts | server/routes/search-services.ts:225-240 | every record k of the list has all the fields of `IsMockListing` for template k and its own draws, and answers the query |
| SearchServices.SearchMedicalServices | server/routes/search-services.ts:275-333 | the handler's answer is the 400 rejection or the pooled, merged, de-duplicated and capped providers |
| SearchServices.RespondRejects | server/routes/search-services.ts:279-283 | status 400 with "Both service and city parameters are required" iff the service or the city is missing or empty |
| SearchServices.PoolResults | server/routes/search-services.ts:294-300 | the loop's pool is the concatenation, in order, of the fulfilled values |
| SearchServices.PoolMembers | server/routes/search-services.ts:296-300 | a record is pooled iff some fulfilled entry holds it |
| SearchServices.LiveResultsFacts | server/routes/search-services.ts:288-300 | the pool is the web-search records followed by the directory records; at most eight; none tagged as synthetic |
| SearchServices.FindName | server/routes/search-services.ts:322 | `findIndex` returns the first position holding the name, or -1 when none does |
| SearchServices.DedupIsKeepFirst | server/routes/search-services.ts:319-323 | the `filter`/`findIndex` de-duplication equals a single walk that keeps each record whose name it has not seen |
| SearchServices.DedupFacts | server/routes/search-services.ts:319-323 | after de-duplication records keep their order, no name repeats, every name survives, and each survivor is the first record with its name |
| SearchServices.DedupIdentity | server/routes/search-services.ts:319-323 | de-duplication leaves a list alone iff no name repeats in it, and it is idempotent |
| SearchServices.RespondFound | server/routes/search-services.ts:303-333 | a valid query is answered with the first eight records of the merged list that the keep-first walk retains; `total` is their number, at most eight; no name repeats; each provider is the first record of the merged list with its name, in merged order; the answer is never empty and opens with the first merged record, which is the first live record when there is one |
| SearchServices.MergedWellFormed | server/routes/search-services.ts:294-316 | every record of the merged list answers the query and carries one of the three provenance tags |
| SearchServices.RespondWellFormed | server/routes/search-services.ts:275-333 | every provider of a successful answer answers the query and carries one of the three provenance tags, whichever sources answered |
| SearchServices.RespondAllSourcesDown | server/routes/search-services.ts:303-308 | with no live result the providers are the five synthetic records, `total` is 5, all tagged "Enhanced Directory" |
| SearchServices.RespondSupplementBounded | server/routes/search-services.ts:309-316 | with live results at most two synthetic records reach the answer |
| SearchServices.RespondSupplemented | server/routes/search-services.ts:309-324 | live records and two supplements with distinct names, eight at most, are answered exactly as live records followed by the first two synthetic ones |
| SearchServices.CountSourceSubseq | server/routes/search-services.ts:319-324 | dropping records never raises the count of a provenance tag |
| SearchResultsPage.FilterProvidersFacts | client/pages/SearchResults.tsx:36-40 | the filter keeps, in order, exactly the providers whose lower-cased service and city contain the lower-cased queries |
| SearchResultsPage.FilterProvidersCount | client/pages/SearchResults.tsx:36-40 | each matching provider is kept as many times as the input holds it, and no other provider is kept |
| SearchResultsPage.EmptyQueryMatches | client/pages/SearchResults.tsx:38-39 | empty queries match every provider |
| SearchResultsPage.SortProviders | client/pages/SearchResults.tsx:47-59 | the result is a permutation of the input, sorted by the comparator the choice selects |
| SearchResultsPage.InsertionSort | client/pages/SearchResults.tsx:48 | the array is sorted in place by the key and keeps the same multiset of providers |
| SearchResultsPage.SortedByMeaning | client/pages/SearchResults.tsx:49-57 | sorted means ratings never rise for "rating", minutes never fall for "time", and distances never fall for "distance" and any other choice |
| SearchResultsPage.SortKeepsProviders | client/pages/SearchResults.tsx:48 | the sorted list has the input's length and exactly its providers |

## Left out

- Fetching with axios and parsing HTML with cheerio are not modelled. Each adapter receives the blocks its selectors find, each reduced to the texts the loop reads, or `None` when either step throws. The search query string, `encodeURIComponent` and the request headers of `scrapeGoogleSearch` are left out with the fetch.
- The concurrency of `Promise.allSettled` is not modelled. Both adapters catch their own errors, so both entries are always fulfilled; the pool is still computed over any settled list (`SearchServices.PoolResults`).
- `Math.random()` and `Date.now()` are inputs. Floating-point arithmetic, `Math.round` of the rating and `toFixed(1)` are replaced by integer draws in exactly the range each expression can produce.
- The ISO string of `searchedAt` is left out: the answer carries the clock value. The `console` logging is left out.
- The `id` strings (`scraped-<index>-<now>`) are built but nothing is proved about them.
- The outer `catch` of `searchMedicalServices` (`search-services.ts:334-350`) is not modelled. It can only be reached by an unexpected failure inside the handler, and none of the modelled steps fails.
- Query parameters are strings or absent. Express can also deliver an array or an object for a repeated or bracketed parameter; that is not modelled.
- Strings are sequences of Unicode scalar values. `length` and `slice` in JavaScript count UTF-16 code units, so the three-character title bound and the 100-character cut differ for characters outside the Basic Multilingual Plane.
- `toLowerCase` is modelled on the ASCII letters only. The white-space class is the one `\s` and `trim` share; characters outside it are treated as text.
- `GoogleSearch.GoogleListingNumbers`: states the range of each random field, not its distribution.
- `JustDial.JustDialListingNumbers`: states the range of each random field, not its distribution.
- `EnhancedDirectory.MockListingFacts`: states the range of each random field, not its distribution, and the coin-flip fields (`verified`, `isAvailable24x7`) are free inputs.
- `SearchResultsPage.SortProviders`: states sortedness and permutation but not stability; `Array.prototype.sort` is stable, and the insertion sort used here happens to be stable too, but that is not proved. A `NaN` from `parseFloat` or `parseInt` on a malformed distance or time cannot arise in the model, which keeps numbers.
- The client's React state, the `setTimeout` around the filter and the static `mockServiceProviders` list are not modelled; the filter is modelled over any list of providers. The client's optional `source` field is modelled as always present.
- The whole pipeline uses the corrected lookups, `Lookups.CityCode` and `Lookups.Area`. So `JustDial.JustDialUrl`, `JustDial.JustDialUrlFacts`, `JustDial.ScrapeJustDial`, `EnhancedDirectory.MockListing`, `EnhancedDirectory.MockListingFacts`, `EnhancedDirectory.MockDataFacts`, `SearchServices.RespondAllSourcesDown`, `SearchServices.RespondWellFormed` and `SearchServices.SearchMedicalServices` describe the intended program. For a city whose lower-cased name is `constructor` or `__proto__`, the code as written differs from the model. It puts the inherited member's text in the directory URL and "undefined" as the area of every synthetic address. `Lookups.CityCodeAsWritten` and `Lookups.AreaAsWritten` model that behaviour.
- The rest of the repository (page layouts, forms, the contact and about pages, the server bootstrap) is not part of this model.

## Findings

| source | as written | input that shows it | evidently intended | confidence | as-written member | corrected member |
|---|---|---|---|---|---|---|
| server/routes/search-services.ts:176-191 | `cityCodes[city.toLowerCase()] \|\| city.toLowerCase()` reads the key from a plain object literal, so it also finds members inherited from `Object.prototype` | city "Constructor": the code is the `Object` function, so the directory URL carries the function's source text in place of a city code | the table's own entry, else the lower-cased city, which is always the lower-cased city | not executed | Lookups.CityCodeAsWrittenConstructor | Lookups.CityCode |
| server/routes/search-services.ts:243-272 | `areas[city.toLowerCase()] \|\| [...]` also finds inherited members, which are no list of areas; indexing one yields `undefined` | city "Constructor" (or "__proto__"): every synthetic address becomes "undefined, Constructor, India" | an area from the city's own list, else one of the five compass areas | not executed | Lookups.AreaAsWrittenConstructor | Lookups.Area |
