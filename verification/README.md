# PopCat click counter: the API handler and the country-code lookup

This project models the core of a small "click for your country" web game in
Dafny. It covers two parts.

- **The serverless API handler.** This is one function that answers the browser's
  requests. It covers the CORS preflight, the `health` and `test` endpoints, a
  create-if-absent bootstrap of the `clicks` table, and four endpoints against
  that table:
  - `reset` (delete every row);
  - `countries` (every row, ascending by name, with their number);
  - `leaderboard` (the twenty rows with most clicks);
  - `click` (insert a country with count 1, or add one to its count, then
    return the new count and the leaderboard).
- **The client's country-code lookup.** `getCountryCode` turns a country name
  into the two-letter code that picks a flag. A code supplied by the caller
  wins. Otherwise the trimmed name is looked up exactly in a fixed table, then
  case-insensitively in table order, and the fallback is `"un"`.

The project has four modules:

- `Wrappers` holds `Option` and JavaScript string truthiness.
- `Clicks` holds the table. The database is a map from the primary key
  `country` to the row `(total_clicks, country_code)`. It also holds the
  queries as specification functions and `ClickStore`, a class whose fields
  are the table's existence in the catalog and its rows. The handler's
  statements are methods of that class.
- `Api` holds path normalisation and `Dispatch`, a pure function from a request
  to the route taken. It also holds `Handle`, which runs one request against a
  `ClickStore`. The outcome of each database statement is a parameter: the
  connection and existence query, the `CREATE TABLE`, and the route's own
  statements.
- `CountryCodes` holds the lookup table as a sequence in the object literal's
  order and `GetCountryCode`. Unicode lower-casing and trimming are function
  parameters. The worked examples use the Latin-1 lower-casing `LowerLatin1`.

## Model

| member | source | states |
|---|---|---|
| Clicks.ClickStore.constructor | netlify/functions/api.js:28-35 | a fresh database has no `clicks` table and no rows |
| Clicks.ClickStore.InitDB | netlify/functions/api.js:19-53 | reports success exactly when connecting succeeds and the table already existed or its creation succeeds; it creates the table only when it is missing; rows are never touched; success implies the table exists |
| Clicks.ClickStore.Reset | netlify/functions/api.js:106-119 | after the delete the table is empty, both listings are empty, and the next click on any country counts 1 |
| Clicks.ClickStore.Countries | netlify/functions/api.js:133-149 | returns the name-ordered listing of the current rows, and `total` equals the listing's length and the number of rows |
| Clicks.ClickStore.Leaderboard | netlify/functions/api.js:163-178 | returns a board satisfying `IsLeaderboard` for the current rows |
| Clicks.ClickStore.Click | netlify/functions/api.js:207-233 | the new table is the upsert of the old one; `newCount` is the country's stored count and is its old count plus one (1 for a new country); the board is the leaderboard of the new table |
| Clicks.CountriesByName | netlify/functions/api.js:136-147 | one entry per row, never more: each has the row's count, every key is listed, names strictly ascend, and no country is repeated |
| Clicks.SortedNames | netlify/functions/api.js:137 | the names of a set, each once, strictly ascending |
| Clicks.TopTwenty | netlify/functions/api.js:166-168 | there are min(rows, 20) entries, each a row of the table with its count and code, no country twice, counts non-increasing; every row is listed when fewer than twenty exist; an omitted row has no more clicks than the last listed one |
| Clicks.SortByClicks | netlify/functions/api.js:167 | a permutation (equal multisets) ordered by count descending, keeping countries distinct |
| Clicks.InsertByClicks | netlify/functions/api.js:167 | inserting into a count-descending list keeps it count-descending, and its multiset grows by exactly the new entry |
| Clicks.InsertKeepsDistinct | netlify/functions/api.js:167 | inserting a country not yet listed keeps every country listed once |
| Clicks.RowsByName | netlify/functions/api.js:137 | every row of the table once, with its count and code, in strictly ascending name order |
| Clicks.TotalsOfRows | netlify/functions/api.js:137-147 | projecting such a list onto country and count keeps one entry per row, the row's count, every key listed and the ascending order |
| Clicks.TopPrefixIsLeaderboard | netlify/functions/api.js:167 | the first min(n, 20) entries of a complete, count-descending listing of the table form a leaderboard |
| Clicks.Upserted | netlify/functions/api.js:210-216 | an unknown country gets the row (1, code); a known one gets its count plus one and keeps its stored code; every other row is unchanged; the key set grows by the country only |
| Clicks.ClicksAreCounted | netlify/functions/api.js:210-216 | after any series of clicks a country's count is its old count plus the number of clicks on it |
| Clicks.CodeKeptOnceInserted | netlify/functions/api.js:213-214 | once a country has a row, later clicks never change its stored code |
| Clicks.RepeatedClicksAfterReset | netlify/functions/api.js:109 | n clicks on one country after a reset leave its count at n |
| Clicks.NameLtTransitive | netlify/functions/api.js:137 | the name order used for listing is transitive |
| Clicks.NameLtTotal | netlify/functions/api.js:137 | of two different names one is smaller |
| Clicks.LeastName | netlify/functions/api.js:137 | the chosen name is in the set and is below every other name in it |
| Api.RemoveFirst | netlify/functions/api.js:63 | `replace` with a string pattern: the string is unchanged when the pattern does not occur; otherwise exactly the first occurrence is cut out, shortening it by the pattern's length |
| Api.NormalizePath | netlify/functions/api.js:63 | the two `replace` calls remove each prefix at most once, so the path loses nothing, one prefix or both |
| Api.IndexOf | netlify/functions/api.js:63 | the first occurrence of a pattern: it occurs there and nowhere before, and there is no result exactly when it occurs nowhere |
| Api.RemoveFirstCases | netlify/functions/api.js:63 | `replace` with a string removes nothing when the pattern does not occur, and strips a leading occurrence |
| Api.NetlifyPathNormalizes | netlify/functions/api.js:63 | `/.netlify/functions/api/<route>` normalises to `<route>` when the route holds no `/api/` |
| Api.NetlifyPrefixAfterApiPrefix | netlify/functions/api.js:63 | in `/api/<route>` the function-URL prefix occurs either inside the route, or at index 4, overlapping the `/api/` prefix; the second case happens only when the route starts with `.netlify/functions/api/` and so holds `/api/` |
| Api.ApiPathNormalizes | netlify/functions/api.js:63 | `/api/<route>` normalises to `<route>` when the route holds neither prefix |
| Api.UnprefixedPathKept | netlify/functions/api.js:63 | a path without either prefix is left unchanged, so `/click` does not match `click` |
| Api.RouteNamesNormalize | netlify/functions/api.js:63-192 | each of the six route names arrives intact through either prefix |
| Api.CodeOrDefault | netlify/functions/api.js:216 | the code stored for a click is never empty: a truthy code is kept, and anything else becomes "un" |
| Api.Dispatch | netlify/functions/api.js:59-255 | each route is characterised in both directions by its inputs: OPTIONS exactly gives the preflight; health and test are taken exactly for their path, whatever the database; the database-down route is taken exactly for the other requests when initDB fails; reset, countries and leaderboard are taken exactly for their method and path; a POST click is `Click` exactly when the body has a truthy country, carrying it and its code or "un", is the 400 route exactly when the country is falsy, and is the unparsable-body route exactly when there is no body object; every other request with the database up is the 404, which echoes the normalised path and the method |
| Api.StatusOfRequest | netlify/functions/api.js:60-255 | from the request alone: the status is 404 exactly for an unmatched method and path once the database is up, 400 exactly for a POST click whose body has no truthy country, 500 exactly when the database is down or a POST click has no body object (health and test excepted), and otherwise 200 |
| Api.HealthAndTestNeedNoDatabase | netlify/functions/api.js:67-90 | health and test take the same route and answer 200 whether or not the database is up |
| Api.ResetByGetNotFound | netlify/functions/api.js:247-255 | a GET on `/api/reset` is a 404 that echoes "reset" and "GET" |
| Api.ClickWithoutCodeRoutes | netlify/functions/api.js:193-216 | a POST on `/api/click` with a non-empty country and no code is the click route with code "un" and status 200 |
| Api.Handle | netlify/functions/api.js:55-268 | the route is `Dispatch`'s, with initDB's outcome as `dbReady`; the status is 500 when a table statement fails, otherwise 200/400/404/500 by route; each route gets its payload, including the health status and the test echo of the path "test"; only reset and click change rows, and only when their statement succeeds; preflight, health and test do not touch the database; a failed statement leaves the table as it was |
| CountryCodes.FirstMatch | public/country-codes.js:59-63 | the index of the first entry whose key matches: it matches and no earlier one does, and there is no result exactly when none matches |
| CountryCodes.GetCountryCode | public/country-codes.js:46-66 | a truthy provided code wins, lower-cased; a falsy name gives "un"; otherwise the result is "un" or a code of the table |
| CountryCodes.TableWellFormed | public/country-codes.js:2-43 | of `CountryCodeTable`, the literal's entries in order: each key appears once, no key is empty, and every code is two lower-case letters |
| CountryCodes.ResolvedCodeIsFlagCode | public/country-codes.js:49-65 | without a provided code, the result is always two lower-case letters |
| CountryCodes.ExactMatchWins | public/country-codes.js:51-56 | a key equal to the trimmed name decides the result, before any case-insensitive match |
| CountryCodes.FoldedMatchDecides | public/country-codes.js:58-63 | with no exact key, the first entry in table order whose lower-cased key equals the lower-cased name decides the result |
| CountryCodes.NoMatchIsUnknown | public/country-codes.js:65 | a name that matches no key, exactly or case-insensitively, gives "un" |
| CountryCodes.BlankNameIsUnknown | public/country-codes.js:49-65 | a name that trims to the empty string gives "un" |
| CountryCodes.MexicoResolves | public/country-codes.js:59-63 | "méxico" has no exact key; "México" is the first key that lower-cases to it, so the result is "mx" |
| CountryCodes.AtlantisIsUnknown | public/country-codes.js:65 | "Atlantis" matches nothing and gives "un" |
| CountryCodes.NoFoldedKeyMeansNoMatch | public/country-codes.js:60 | keys that differ from a lower-cased name in length or in one of their first two lower-cased characters do not match it |

## Left out

- The connection pool, its lazy creation and the connection string are not modelled. Each statement's outcome is a boolean parameter of `Handle`.
- Concurrency is not modelled. The model runs one request at a time with atomic statements, so interleaved clicks and the race between two bootstraps creating the table are out of scope.
- Response headers, JSON serialisation, the health timestamp and logging are not modelled. The payload is a datatype.
- The text of caught exception messages is not modelled; a caught error appears as `Thrown`.
- Clicks.NameLt: the database's collation is not modelled. Ascending name order is lexicographic order on code points.
- Clicks.TopTwenty: the order among rows with equal counts is left unspecified by `IsLeaderboard`. The function breaks ties by ascending name.
- Clicks.Row: `total_clicks` is unbounded. The BIGINT 64-bit limit is not modelled, nor is the driver returning BIGINT values as strings.
- Api.Handle: a click whose upsert succeeds and whose leaderboard query then fails is not modelled. Such a click would answer 500 with the count already raised; the model takes both statements to succeed or fail together.
- Api.Dispatch: non-string JSON values for `country` and `country_code` are not modelled. The body is `None` when its parse throws or yields `null`, the two cases in which destructuring throws; any other parsed value is a pair of optional strings, so a JSON number or string is a body with neither field and gets the 400.
- A request without a path makes the path normalisation throw before the `try`. This is not modelled, because paths are strings here.
- CountryCodes.GetCountryCode: Unicode lower-casing and trimming are parameters, not definitions. The examples fix lower-casing to Latin-1 and require trimming to leave the name alone.
- CountryCodes.GetCountryCode: exact lookup of inherited object keys such as `constructor` is not modelled. The table holds only its own entries.
- The in-page game logic, the styles and the test script are not part of this model.
