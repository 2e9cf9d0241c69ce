# Weather service: city store, cached lookup and bulk update

This project models the sequential logic of a small FastAPI service in
Dafny. The service keeps a list of cities. It fetches the current
temperature for each city from a forecast API, through a cache, and it
reports the results of a bulk update. Three pieces are modelled:

- **City store** (`city_store.dfy`, module `CityStore`). The list is an
  immutable `seq<City>`. `GET /cities` returns it. `POST /cities` appends a
  record. `DELETE /cities/{country_name}` removes every record whose country
  matches the name case-insensitively. When nothing matches, it raises
  HTTP 404 and the list is unchanged. Case-insensitivity is modelled by
  `CaseFold` (`case_fold.dfy`): an explicit ASCII lowering.
- **Cache-first weather lookup** (`weather_cache.dfy`, module
  `WeatherCache`). `get_weather` is modelled as `GetWeather`. The cache is
  a `map<string, Reading>`. The network request is not performed: the
  caller supplies the outcome the request would have (`FetchOutcome`).
  That outcome is either the decoded hourly series or the exception the
  request raises. The result records how many requests were sent (0 or
  1). This makes "a hit sends nothing" a checkable statement.
- **Bulk update** (`weather_update.dfy`, module `WeatherUpdate`). `GET
  /update` is a left fold over the city list. `Process` is the fold and
  `UpdateWeather` is the loop. Each step looks the city up through the
  cache and writes an `Entry` under its country. The entry is either a
  rounded temperature or one of the texts "Data not available", "Request
  timed out" or "Error: " followed by the message. The cache is threaded
  through the fold, so a later record for the same country is served by
  whatever an earlier record cached. `outcomes[i]` is what the network
  would answer for city `i`. It is used only when that city misses the
  cache.

`round(t, 2)` is modelled in `rounding.dfy` (module `Rounding`) on the
exact real value of the temperature. It gives the closest multiple of
0.01, with ties going to an even number of hundredths. Shared
`Option`/`Result` types are in `results.dfy`.

On these points the model follows the code:

- Cache keys are country names. `update_weather` passes `city["country"]`
  as `city_name`.
- A JSON `null` as the first hourly sample is cached as `None`. Later
  lookups for that key return `None` ("Data not available") without a
  new request.
- An empty series raises `IndexError` ("list index out of range"). It is
  reported as "Error: list index out of range".
- Exceptions are not caught inside `get_weather`. They escape to
  `update_weather`, which turns them into text. Only `httpx.ConnectTimeout`
  gets the timeout text. Any other timeout falls under "Error: …".

## Model

| member | source | states |
|---|---|---|
| CaseFold.LowerChar | main.py:99 | lowering maps `A`..`Z` to `a`..`z`, leaves every other character alone, and never yields an upper-case letter |
| CaseFold.Lower | main.py:99 | the lowered name has the same length as the name, and each character is the lowered character at that position |
| CaseFold.LowerIdempotent | main.py:99 | lowering an already lowered name changes nothing |
| CaseFold.LowerHasNoUpper | main.py:99 | a lowered name contains no upper-case ASCII letter |
| CaseFold.SameIgnoringCaseIff | main.py:99-102 | two names match case-insensitively exactly when they have the same length and each pair of characters is equal or is one letter in two cases (both directions) |
| CaseFold.SameIgnoringCaseEquivalence | main.py:99-102 | case-insensitive matching is reflexive, symmetric and transitive |
| CityStore.GetCities | main.py:83-85 | listing returns the stored records themselves, in insertion order |
| CityStore.AddCity | main.py:88-92 | the new record is last, every earlier record stays at its position, and the reply is "City added successfully!"; adding never fails |
| CityStore.FirstMatch | main.py:99 | the search finds the first record of the country (none before it matches); it finds nothing exactly when no record matches |
| CityStore.Keep | main.py:102 | the filtered list holds no record of the country; each other record occurs as often as before; it is strictly shorter whenever some record matched |
| CityStore.DeleteCity | main.py:95-106 | a record matches (`Matches`) when its country and the name are equal after lowering both, as at lines 99 and 102; 404 with the detail `NotFoundDetail`, "City with country <name> not found", exactly when no record matches, and then the list is returned unchanged; otherwise every match is gone, every non-matching record keeps its multiplicity, and the reply is `DeletedMessage`, "City from <name> deleted successfully!" |
| CityStore.KeepAppend | main.py:102 | filtering a concatenation is concatenating the filtered parts, so relative order is kept |
| CityStore.KeepInPlace | main.py:102 | a non-matching record stays between the kept records before it and the kept records after it |
| CityStore.KeepNothing | main.py:102 | with no matching record the filter returns the list unchanged |
| CityStore.DeleteKeepsOthersInOrder | main.py:101-102 | after a successful delete the list is exactly the non-matching records in their original order |
| CityStore.DeleteTwiceIsNotFound | main.py:99-106 | deleting the same country again finds nothing, raises 404 and keeps the list, so the first delete removed all matches, not only the first |
| CityStore.AddThenDelete | main.py:88-106 | adding a record and deleting its country in any letter case succeeds and removes that record together with every earlier record of the country |
| CityStore.FranceSpainScenario | main.py:83-106 | with France stored and Spain added, the list is France then Spain; deleting "france" leaves only Spain |
| WeatherCache.GetWeather | main.py:59-75 | a hit returns the cached reading, sends no request and leaves the cache as it was; a miss sends one request; a non-empty series stores sample 0 under the name and returns it; a raised exception (including the IndexError of an empty series) leaves the cache unchanged; no other entry is added or replaced |
| WeatherCache.LookupAfterSuccessIsHit | main.py:59-75 | once a lookup has produced a reading, the next lookup of that name returns it again with no request, whatever the network would answer |
| WeatherCache.LookupOfOtherName | main.py:74 | a lookup of one name neither adds nor changes the entry of another |
| WeatherCache.CacheAfter | main.py:59-75 | a run of lookups never removes a cached name |
| WeatherCache.CachedStaysCached | main.py:59-75 | a cached reading survives any run of lookups of any names unchanged |
| WeatherCache.EveryLaterLookupIsHit | main.py:59-75 | once a lookup has produced a reading, a lookup of that name after any run of further lookups returns it again with no request, whatever the network would answer |
| Rounding.Hundredths | main.py:117 | the chosen number of hundredths is within one half of the exact value, and is even on an exact tie |
| Rounding.Round2 | main.py:117 | the rounded value is a whole number of hundredths and lies within 0.005 of the reading |
| Rounding.Round2IsNearest | main.py:117 | no multiple of 0.01 is closer to the reading than the rounded value |
| Rounding.Round2Idempotent | main.py:117 | rounding a rounded value changes nothing |
| WeatherUpdate.Classify | main.py:114-123 | a number becomes its rounded value; `None` becomes "Data not available"; ConnectTimeout becomes "Request timed out"; any other exception becomes "Error: " followed by its message |
| WeatherUpdate.ClassifyReadsBack | main.py:116-123 | the four kinds of outcome stay distinguishable in the report: reading an entry back recovers its kind and the exact exception message, whatever that message says |
| WeatherUpdate.Step | main.py:113-123 | one loop pass adds or overwrites exactly the city's country in the report and sends at most one request |
| WeatherUpdate.Process | main.py:111-123 | the fold sends at most one request per city |
| WeatherUpdate.UpdateWeather | main.py:110-125 | the loop computes the left fold; the report has a key for exactly the countries in the list; at most one request per city |
| WeatherUpdate.ProcessKeys | main.py:112-123 | every country in the list gets an entry whatever its outcome, and no other key appears |
| WeatherUpdate.ProcessUntouched | main.py:112-123 | a key that no city carries keeps its report entry and its cached reading |
| WeatherUpdate.ProcessAppend | main.py:112 | processing `a` and then `b` gives the same result as processing `a + b` |
| WeatherUpdate.ProcessSplit | main.py:112 | the run splits at any city: the cities before it, then that city, then the rest |
| WeatherUpdate.LastCityWins | main.py:112-123 | for duplicate countries, the entry is the outcome of the last city of that country, looked up in the cache as the loop left it just before that city |
| WeatherUpdate.ProcessKeepsAgreement | main.py:112-123 | two loop states with the same cache and reports that differ at most under one key still agree that way after the remaining cities |
| WeatherUpdate.FailingCityIsIsolated | main.py:114-123 | a city whose lookup raises changes only its own country's entry; every other entry, and the cache, are as if that city were absent |
| WeatherUpdate.AllCachedNoFetch | main.py:112-117 | when every country is cached, the update sends no request, leaves the cache unchanged and reports each cached reading |
| WeatherUpdate.TimeoutThenSuccess | main.py:115-121 | one city timing out and the next succeeding both appear in one report: "Request timed out" and 21.375 rounded to 21.38, the even neighbour on an exact tie |
| WeatherUpdate.DuplicateCountryServedFromCache | main.py:110-125 | a second record of an already fetched country is answered from the cache; only one request is sent, whatever the second fetch would return |

## Left out

- HTTP routing, request and response objects, `JSONResponse`, `HTMLResponse` and the Jinja2 index page are framework glue. Replies are modelled as plain message strings and an `HttpError(status, detail)` value.
- The forecast request itself is not modelled: the httpx client, query parameters, the 30-second timeout and JSON decoding are foreign I/O. They are replaced by a caller-supplied `FetchOutcome`. Decoding failures and missing `hourly`/`temperature_2m` fields are covered by the `Threw(Other(message))` outcome.
- CSV loading and saving (`load_cities`, `save_cities`) are file I/O and are not modelled. Nor is the save after every add and delete. The `float(...)` parsing of coordinates is left out as well. Coordinates are opaque reals that the model never inspects.
- WeatherCache.GetWeather: the cache is an unbounded map. The 100-entry LRU capacity and its eviction are library code that is not part of this model. Its contract that cached readings are never replaced or dropped, and the lemmas built on it, therefore hold only while fewer than 100 distinct countries have been cached.
- CaseFold.LowerChar: only `A`..`Z` are lowered; every other character is left alone, whereas Python's `str.lower` also lowers non-ASCII capitals (`'É'.lower()` is `'é'`).
- CaseFold.Lower: only ASCII letters are lowered. Python's Unicode `str.lower` (for example `É`) is not modelled.
- Rounding.Round2: the input is taken to be the exact value of the float that JSON decoding produced; the decimal-to-float step of decoding is not modelled (the text 2.675 decodes to a float just below it, which Python rounds to 2.67, while `Round2(2.675)` is 2.68). The result is the exact decimal multiple of 0.01; converting it back to the nearest binary float is not modelled either.
- `add_city` accepts an arbitrary dict. The model uses a typed `City` record with a `country` field. Payloads without that key, which would make `delete_city` raise, are out of scope. For the same reason, the truthiness test on the found record always succeeds here.
- Global mutable state and races between concurrent requests are not modelled. The city list and the cache are passed explicitly as state. Cancellation and other `BaseException`s, which escape `except Exception`, are left out too.
- Readings that are neither numbers nor `null` (which `round` would reject) are not modelled.
