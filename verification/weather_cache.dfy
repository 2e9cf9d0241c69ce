/**
  The cache-first weather lookup (`get_weather`). The cache maps a city
  name to the reading last fetched for it; the forecast request is not
  performed here but supplied as the outcome the network would produce.
 */
module WeatherCache {
  import opened Results

  /**
    Element 0 of `hourly.temperature_2m` after JSON decoding: a temperature
    in degrees Celsius, or JSON `null`, which becomes `None`. `celsius` is
    the exact value of the binary float the decoder produced, not the
    decimal text of the response (the text 2.675 decodes to a float just
    below 2.675, and that float is what gets rounded).
   */
  datatype Reading = Null | Num(celsius: real)

  /**
    An exception escaping the lookup: the distinctly reported connect
    timeout, or any other exception together with its message.
   */
  datatype Exception = ConnectTimeout | Other(message: string)

  /**
    What the forecast request yields when it is made: the decoded hourly
    temperature series, or an exception (transport failure, undecodable
    body, missing `hourly` or `temperature_2m` field, with its message).
   */
  datatype FetchOutcome = Answered(hourly: seq<Reading>) | Threw(exception: Exception)

  type Cache = map<string, Reading>

  /** The cache after a lookup, what the lookup returned or raised, and how many requests it sent. */
  datatype Lookup = Lookup(cache: Cache, result: Result<Reading, Exception>, fetches: nat)

  /** The message of the `IndexError` raised by `[0]` on an empty series. */
  const EmptySeriesMessage := "list index out of range"

  /** Whether a request for `cityName`, answered with `outcome`, yields a reading. */
  predicate FetchSucceeds(outcome: FetchOutcome) {
    outcome.Answered? && |outcome.hourly| > 0
  }

  function GetWeather(cache: Cache, cityName: string, outcome: FetchOutcome): (r: Lookup)
    // a hit answers from the cache, sends nothing and changes nothing
    ensures cityName in cache ==> r == Lookup(cache, Ok(cache[cityName]), 0)
    // a miss sends exactly one request
    ensures cityName !in cache ==> r.fetches == 1
    // the lookup yields a value exactly on a hit or on a non-empty series
    ensures r.result.Ok? <==> cityName in cache || FetchSucceeds(outcome)
    // a fetched value is sample 0 of the series, and what is returned is what is cached
    ensures cityName !in cache && FetchSucceeds(outcome) ==> r.result == Ok(outcome.hourly[0])
    ensures r.result.Ok? ==> cityName in r.cache && r.cache[cityName] == r.result.value
    // a raised exception leaves the cache as it was
    ensures r.result.Err? ==> r.cache == cache
    // exceptions: the request's own, or the IndexError of an empty series
    ensures cityName !in cache && outcome.Threw? ==> r.result == Err(outcome.exception)
    ensures cityName !in cache && outcome == Answered([]) ==> r.result == Err(Other(EmptySeriesMessage))
    // only `cityName` may be added, and no cached reading is ever replaced
    ensures r.cache.Keys == cache.Keys + (if r.result.Ok? then {cityName} else {})
    ensures forall k :: k in cache ==> r.cache[k] == cache[k]
  {
    if cityName in cache then
      Lookup(cache, Ok(cache[cityName]), 0)
    else
      match outcome
      case Threw(e) => Lookup(cache, Err(e), 1)
      case Answered(hourly) =>
        if |hourly| == 0 then Lookup(cache, Err(Other(EmptySeriesMessage)), 1)
        else Lookup(cache[cityName := hourly[0]], Ok(hourly[0]), 1)
  }

  /**
    Once a lookup has produced a value, every later lookup of the same name
    returns that value again, sends no request and leaves the cache alone,
    whatever the network would have answered.
   */
  lemma LookupAfterSuccessIsHit(cache: Cache, cityName: string, first: FetchOutcome, later: FetchOutcome)
    requires GetWeather(cache, cityName, first).result.Ok?
    ensures GetWeather(GetWeather(cache, cityName, first).cache, cityName, later)
            == Lookup(GetWeather(cache, cityName, first).cache, GetWeather(cache, cityName, first).result, 0)
  {
  }

  /** Lookups of other names neither add nor change the entry for `cityName`. */
  lemma LookupOfOtherName(cache: Cache, cityName: string, other: string, outcome: FetchOutcome)
    requires other != cityName
    ensures cityName in GetWeather(cache, other, outcome).cache <==> cityName in cache
    ensures cityName in cache ==> GetWeather(cache, other, outcome).cache[cityName] == cache[cityName]
  {
  }

  /** The cache after a run of lookups, lookup `i` asking for `names[i]` and meeting `outcomes[i]`. */
  function CacheAfter(cache: Cache, names: seq<string>, outcomes: seq<FetchOutcome>): (r: Cache)
    requires |names| == |outcomes|
    // lookups only ever add entries
    ensures cache.Keys <= r.Keys
    decreases |names|
  {
    if names == [] then cache
    else CacheAfter(GetWeather(cache, names[0], outcomes[0]).cache, names[1..], outcomes[1..])
  }

  /** A cached reading survives any run of lookups, of any names, unchanged. */
  lemma {:induction false} CachedStaysCached(cache: Cache, cityName: string, names: seq<string>, outcomes: seq<FetchOutcome>)
    requires |names| == |outcomes|
    requires cityName in cache
    ensures cityName in CacheAfter(cache, names, outcomes)
    ensures CacheAfter(cache, names, outcomes)[cityName] == cache[cityName]
    decreases |names|
  {
    if names != [] {
      CachedStaysCached(GetWeather(cache, names[0], outcomes[0]).cache, cityName, names[1..], outcomes[1..]);
    }
  }

  /**
    Once a lookup of `cityName` has produced a reading, a lookup of it after
    any run of further lookups returns that reading again without a request,
    whatever the network would answer.
   */
  lemma EveryLaterLookupIsHit(cache: Cache, cityName: string, first: FetchOutcome,
                              names: seq<string>, outcomes: seq<FetchOutcome>, later: FetchOutcome)
    requires |names| == |outcomes|
    requires GetWeather(cache, cityName, first).result.Ok?
    ensures GetWeather(CacheAfter(GetWeather(cache, cityName, first).cache, names, outcomes), cityName, later).result
            == GetWeather(cache, cityName, first).result
    ensures GetWeather(CacheAfter(GetWeather(cache, cityName, first).cache, names, outcomes), cityName, later).fetches == 0
  {
    CachedStaysCached(GetWeather(cache, cityName, first).cache, cityName, names, outcomes);
  }
}
