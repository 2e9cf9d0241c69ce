/**
  The bulk update (`GET /update`): every stored city is looked up in list
  order, through the cache, and its outcome is written into a report keyed
  by country. A city's failure is turned into text in its own entry and
  never stops the walk.
 */
module WeatherUpdate {
  import opened Results
  import opened CityStore
  import opened WeatherCache
  import Rounding

  /** A report value: a rounded temperature or a text in its place. */
  datatype Entry = Celsius(value: real) | Note(text: string)

  const NotAvailable := "Data not available"
  const TimedOut := "Request timed out"
  const ErrorPrefix := "Error: "

  type Report = map<string, Entry>

  /** The state carried from one city to the next. */
  datatype Batch = Batch(report: Report, cache: Cache, fetches: nat)

  /** The report entry for one lookup's result. */
  function Classify(result: Result<Reading, Exception>): (e: Entry)
    ensures e.Celsius? <==> result.Ok? && result.value.Num?
    ensures e.Celsius? ==> e.value == Rounding.Round2(result.value.celsius)
    ensures e == Note(NotAvailable) <== result == Ok(Null)
    ensures e == Note(TimedOut) <== result == Err(ConnectTimeout)
    ensures result.Err? && result.error.Other? ==> e == Note(ErrorPrefix + result.error.message)
  {
    match result
    case Ok(Num(t)) => Celsius(Rounding.Round2(t))
    case Ok(Null) => Note(NotAvailable)
    case Err(ConnectTimeout) => Note(TimedOut)
    case Err(Other(message)) => Note(ErrorPrefix + message)
  }

  /** What a client can tell from one report entry. */
  datatype Reported = Temperature(celsius: real) | Missing | Timeout | Failure(message: string) | Unknown

  /** Reads a report entry back, the way a client of the JSON object would. */
  function ReadEntry(e: Entry): Reported {
    match e
    case Celsius(t) => Temperature(t)
    case Note(s) =>
      if s == NotAvailable then Missing
      else if s == TimedOut then Timeout
      else if |ErrorPrefix| <= |s| && s[..|ErrorPrefix|] == ErrorPrefix then Failure(s[|ErrorPrefix|..])
      else Unknown
  }

  /** What the entry for a result is meant to convey. */
  function Meaning(result: Result<Reading, Exception>): Reported {
    match result
    case Ok(Num(t)) => Temperature(Rounding.Round2(t))
    case Ok(Null) => Missing
    case Err(ConnectTimeout) => Timeout
    case Err(Other(message)) => Failure(message)
  }

  /**
    The four kinds of outcome stay distinguishable in the report: reading
    an entry back recovers the kind of its outcome and, for a failure, the
    exact exception message, whatever that message says.
   */
  lemma ClassifyReadsBack(result: Result<Reading, Exception>)
    ensures ReadEntry(Classify(result)) == Meaning(result)
  {
    match result
    case Ok(_) =>
    case Err(ConnectTimeout) =>
    case Err(Other(message)) =>
      var s := ErrorPrefix + message;
      assert s[0] == 'E';
      assert s != NotAvailable by { assert NotAvailable[0] == 'D'; }
      assert s != TimedOut by { assert TimedOut[0] == 'R'; }
      assert s[..|ErrorPrefix|] == ErrorPrefix;
      assert s[|ErrorPrefix|..] == message;
  }

  /** One pass of the loop body: look the city up and record its entry under its country. */
  function Step(st: Batch, city: City, outcome: FetchOutcome): (r: Batch)
    ensures r.report.Keys == st.report.Keys + {city.country}
    ensures forall k :: k in st.report && k != city.country ==> r.report[k] == st.report[k]
    ensures r.fetches <= st.fetches + 1
  {
    var look := GetWeather(st.cache, city.country, outcome);
    Batch(st.report[city.country := Classify(look.result)], look.cache, st.fetches + look.fetches)
  }

  /**
    The walk over the city list as a left fold; `outcomes[i]` is what the
    network would answer if city `i` were fetched.
   */
  function Process(st: Batch, cities: seq<City>, outcomes: seq<FetchOutcome>): (r: Batch)
    requires |outcomes| == |cities|
    ensures r.fetches <= st.fetches + |cities|
    decreases |cities|
  {
    if |cities| == 0 then st
    else Process(Step(st, cities[0], outcomes[0]), cities[1..], outcomes[1..])
  }

  function Countries(cities: seq<City>): set<string> {
    set i | 0 <= i < |cities| :: cities[i].country
  }

  /** The list without its element at position `i`. */
  function Drop<T>(s: seq<T>, i: nat): (r: seq<T>)
    requires i < |s|
    ensures |r| == |s| - 1
  {
    s[..i] + s[i + 1..]
  }

  function Start(cache: Cache): Batch {
    Batch(map[], cache, 0)
  }

  lemma CountriesExtend(cities: seq<City>, i: nat)
    requires i < |cities|
    ensures Countries(cities[..i + 1]) == Countries(cities[..i]) + {cities[i].country}
  {
    assert forall j :: 0 <= j < i ==> cities[..i + 1][j] == cities[..i][j];
    assert cities[..i + 1][i] == cities[i];
  }

  lemma ProcessUnfold(st: Batch, cities: seq<City>, outcomes: seq<FetchOutcome>)
    requires |outcomes| == |cities| > 0
    ensures Process(st, cities, outcomes) == Process(Step(st, cities[0], outcomes[0]), cities[1..], outcomes[1..])
  {
  }

  /** The report, the cache and the request count after the whole walk. */
  method UpdateWeather(cities: seq<City>, outcomes: seq<FetchOutcome>, cache: Cache)
    returns (report: Report, cache': Cache, fetches: nat)
    requires |outcomes| == |cities|
    ensures Batch(report, cache', fetches) == Process(Start(cache), cities, outcomes)
    ensures report.Keys == Countries(cities)
    ensures fetches <= |cities|
  {
    var st := Start(cache);
    var i := 0;
    while i < |cities|
      invariant 0 <= i <= |cities|
      invariant Process(st, cities[i..], outcomes[i..]) == Process(Start(cache), cities, outcomes)
      invariant st.report.Keys == Countries(cities[..i])
      invariant st.fetches <= i
    {
      CountriesExtend(cities, i);
      ProcessUnfold(st, cities[i..], outcomes[i..]);
      assert cities[i..][1..] == cities[i + 1..];
      assert outcomes[i..][1..] == outcomes[i + 1..];
      st := Step(st, cities[i], outcomes[i]);
      i := i + 1;
    }
    assert cities[..i] == cities;
    report, cache', fetches := st.report, st.cache, st.fetches;
  }

  /** Every country in the list gets an entry, whatever its lookup did, and no other key appears. */
  lemma {:induction false} ProcessKeys(st: Batch, cities: seq<City>, outcomes: seq<FetchOutcome>)
    requires |outcomes| == |cities|
    ensures Process(st, cities, outcomes).report.Keys == st.report.Keys + Countries(cities)
    decreases |cities|
  {
    if |cities| > 0 {
      ProcessKeys(Step(st, cities[0], outcomes[0]), cities[1..], outcomes[1..]);
      assert Countries(cities) == {cities[0].country} + Countries(cities[1..]) by {
        forall k | k in Countries(cities)
          ensures k in {cities[0].country} + Countries(cities[1..])
        {
          var j :| 0 <= j < |cities| && cities[j].country == k;
          if j > 0 { assert cities[1..][j - 1] == cities[j]; }
        }
      }
    }
  }

  /** A key no city in the list carries keeps its report entry and its cached reading. */
  lemma {:induction false} ProcessUntouched(st: Batch, cities: seq<City>, outcomes: seq<FetchOutcome>, key: string)
    requires |outcomes| == |cities|
    requires key !in Countries(cities)
    ensures key in Process(st, cities, outcomes).report <==> key in st.report
    ensures key in st.report ==> Process(st, cities, outcomes).report[key] == st.report[key]
    ensures key in Process(st, cities, outcomes).cache <==> key in st.cache
    ensures key in st.cache ==> Process(st, cities, outcomes).cache[key] == st.cache[key]
    decreases |cities|
  {
    if |cities| > 0 {
      assert cities[0].country != key;
      assert Countries(cities[1..]) <= Countries(cities) by {
        forall k | k in Countries(cities[1..]) ensures k in Countries(cities) {
          var j :| 0 <= j < |cities| - 1 && cities[1..][j].country == k;
          assert cities[j + 1].country == k;
        }
      }
      LookupOfOtherName(st.cache, key, cities[0].country, outcomes[0]);
      ProcessUntouched(Step(st, cities[0], outcomes[0]), cities[1..], outcomes[1..], key);
    }
  }

  /** Walking `a` and then `b` is walking `a + b`. */
  lemma {:induction false} ProcessAppend(st: Batch, a: seq<City>, oa: seq<FetchOutcome>, b: seq<City>, ob: seq<FetchOutcome>)
    requires |oa| == |a| && |ob| == |b|
    ensures Process(st, a + b, oa + ob) == Process(Process(st, a, oa), b, ob)
    decreases |a|
  {
    if |a| == 0 {
      assert a + b == b && oa + ob == ob;
    } else {
      assert (a + b)[1..] == a[1..] + b;
      assert (oa + ob)[1..] == oa[1..] + ob;
      ProcessAppend(Step(st, a[0], oa[0]), a[1..], oa[1..], b, ob);
    }
  }

  /** The walk seen at position `j`: everything before it, then city `j`, then the rest. */
  lemma ProcessSplit(st: Batch, cities: seq<City>, outcomes: seq<FetchOutcome>, j: nat)
    requires |outcomes| == |cities| && j < |cities|
    ensures Process(st, cities, outcomes)
            == Process(Step(Process(st, cities[..j], outcomes[..j]), cities[j], outcomes[j]), cities[j + 1..], outcomes[j + 1..])
  {
    assert cities == cities[..j] + cities[j..];
    assert outcomes == outcomes[..j] + outcomes[j..];
    ProcessAppend(st, cities[..j], outcomes[..j], cities[j..], outcomes[j..]);
    ProcessUnfold(Process(st, cities[..j], outcomes[..j]), cities[j..], outcomes[j..]);
    assert cities[j..][1..] == cities[j + 1..];
    assert outcomes[j..][1..] == outcomes[j + 1..];
  }

  /**
    For duplicate countries the last city processed wins: the entry for a
    country is the outcome of its last city, looked up in the cache as the
    walk left it just before that city.
   */
  lemma LastCityWins(cities: seq<City>, outcomes: seq<FetchOutcome>, cache: Cache, j: nat)
    requires |outcomes| == |cities| && j < |cities|
    requires forall i :: j < i < |cities| ==> cities[i].country != cities[j].country
    ensures cities[j].country in Process(Start(cache), cities, outcomes).report
    ensures Process(Start(cache), cities, outcomes).report[cities[j].country]
            == Classify(GetWeather(Process(Start(cache), cities[..j], outcomes[..j]).cache, cities[j].country, outcomes[j]).result)
  {
    var key := cities[j].country;
    var before := Process(Start(cache), cities[..j], outcomes[..j]);
    var after := Step(before, cities[j], outcomes[j]);
    ProcessSplit(Start(cache), cities, outcomes, j);
    assert key !in Countries(cities[j + 1..]);
    ProcessUntouched(after, cities[j + 1..], outcomes[j + 1..], key);
  }

  /** Two walk states that hold the same cache and differ in the report at most under `key`. */
  ghost predicate AgreeExcept(a: Batch, b: Batch, key: string) {
    && a.cache == b.cache
    && forall k :: k != key ==> (k in a.report <==> k in b.report) && (k in a.report ==> a.report[k] == b.report[k])
  }

  lemma {:induction false} ProcessKeepsAgreement(a: Batch, b: Batch, key: string, cities: seq<City>, outcomes: seq<FetchOutcome>)
    requires |outcomes| == |cities|
    requires AgreeExcept(a, b, key)
    ensures AgreeExcept(Process(a, cities, outcomes), Process(b, cities, outcomes), key)
    decreases |cities|
  {
    if |cities| > 0 {
      ProcessKeepsAgreement(Step(a, cities[0], outcomes[0]), Step(b, cities[0], outcomes[0]), key, cities[1..], outcomes[1..]);
    }
  }

  /**
    A city whose lookup raises changes nothing but its own country's entry:
    every other entry, and the cache, come out as if that city were not in
    the list at all.
   */
  lemma FailingCityIsIsolated(cities: seq<City>, outcomes: seq<FetchOutcome>, cache: Cache, i: nat)
    requires |outcomes| == |cities| && i < |cities|
    requires GetWeather(Process(Start(cache), cities[..i], outcomes[..i]).cache, cities[i].country, outcomes[i]).result.Err?
    ensures AgreeExcept(Process(Start(cache), cities, outcomes),
                        Process(Start(cache), Drop(cities, i), Drop(outcomes, i)),
                        cities[i].country)
  {
    var before := Process(Start(cache), cities[..i], outcomes[..i]);
    ProcessSplit(Start(cache), cities, outcomes, i);
    ProcessAppend(Start(cache), cities[..i], outcomes[..i], cities[i + 1..], outcomes[i + 1..]);
    ProcessKeepsAgreement(Step(before, cities[i], outcomes[i]), before, cities[i].country, cities[i + 1..], outcomes[i + 1..]);
  }

  /**
    When every country is already cached, the walk sends no request, leaves
    the cache as it was and reports each cached reading.
   */
  lemma {:induction false} AllCachedNoFetch(st: Batch, cities: seq<City>, outcomes: seq<FetchOutcome>)
    requires |outcomes| == |cities|
    requires forall i :: 0 <= i < |cities| ==> cities[i].country in st.cache
    ensures Process(st, cities, outcomes).fetches == st.fetches
    ensures Process(st, cities, outcomes).cache == st.cache
    ensures forall i :: 0 <= i < |cities| ==>
              && cities[i].country in Process(st, cities, outcomes).report
              && Process(st, cities, outcomes).report[cities[i].country] == Classify(Ok(st.cache[cities[i].country]))
    decreases |cities|
  {
    if |cities| > 0 {
      var next := Step(st, cities[0], outcomes[0]);
      assert forall i :: 0 <= i < |cities| - 1 ==> cities[1..][i] == cities[i + 1];
      AllCachedNoFetch(next, cities[1..], outcomes[1..]);
      var r := Process(st, cities, outcomes);
      var key := cities[0].country;
      if key in Countries(cities[1..]) {
        var j :| 0 <= j < |cities| - 1 && cities[1..][j].country == key;
      } else {
        ProcessUntouched(next, cities[1..], outcomes[1..], key);
      }
    }
  }

  /**
    One city times out and the next one succeeds: both appear in the same
    report, the first as the timeout text and the second as its rounded
    temperature. 21.375 is a binary float exactly, so its rounding is a true
    tie, which goes to the even number of hundredths.
   */
  lemma TimeoutThenSuccess()
    ensures Process(Start(map[]), [France, Spain], [Threw(ConnectTimeout), Answered([Num(21.375), Num(20.0)])]).report
            == map["France" := Note(TimedOut), "Spain" := Celsius(21.38)]
  {
    var cities := [France, Spain];
    var outcomes := [Threw(ConnectTimeout), Answered([Num(21.375), Num(20.0)])];
    assert Rounding.Round2(21.375) == 21.38 by {
      assert Rounding.Hundredths(21.375) == 2138;
    }
    ProcessUnfold(Start(map[]), cities, outcomes);
    var s1 := Step(Start(map[]), cities[0], outcomes[0]);
    ProcessUnfold(s1, cities[1..], outcomes[1..]);
  }

  /**
    Two records for one country: the first fetch fills the cache, so the
    second record is answered from it without a request, whatever its own
    fetch would have returned.
   */
  lemma DuplicateCountryServedFromCache(other: FetchOutcome)
    ensures Process(Start(map[]), [France, France], [Answered([Num(10.0)]), other]).report
            == map["France" := Celsius(10.0)]
    ensures Process(Start(map[]), [France, France], [Answered([Num(10.0)]), other]).fetches == 1
  {
    var cities := [France, France];
    var outcomes := [Answered([Num(10.0)]), other];
    assert Rounding.Round2(10.0) == 10.0 by {
      assert Rounding.Hundredths(10.0) == 1000;
    }
    ProcessUnfold(Start(map[]), cities, outcomes);
    var s1 := Step(Start(map[]), cities[0], outcomes[0]);
    ProcessUnfold(s1, cities[1..], outcomes[1..]);
  }
}
