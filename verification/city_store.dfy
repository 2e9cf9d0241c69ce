/**
  The in-memory city list behind the `/cities` routes: listing, appending
  and deleting by country name. The list is threaded through as an
  immutable sequence; each mutating route returns the new list together
  with the message it answers with, or the HTTP error it raises.
 */
module CityStore {
  import opened Results
  import CaseFold

  /** A city record. Coordinates are kept as exact reals and never inspected. */
  datatype City = City(country: string, capital: string, latitude: real, longitude: real)

  /** The error a route raises: an HTTP status with its detail text. */
  datatype HttpError = HttpError(status: int, detail: string)

  /** The list after a route has run, and what the route answered: a message or an error. */
  datatype Response = Response(cities: seq<City>, reply: Result<string, HttpError>)

  const NotFound := 404
  const AddedMessage := "City added successfully!"

  function DeletedMessage(countryName: string): string {
    "City from " + countryName + " deleted successfully!"
  }

  function NotFoundDetail(countryName: string): string {
    "City with country " + countryName + " not found"
  }

  /** Whether a record belongs to the named country, ignoring letter case. */
  predicate Matches(city: City, countryName: string) {
    CaseFold.SameIgnoringCase(city.country, countryName)
  }

  /** `GET /cities`: the stored list itself, in insertion order. */
  function GetCities(cities: seq<City>): (r: seq<City>)
    ensures r == cities
  {
    cities
  }

  /** `POST /cities`: the record goes at the end; nothing before it moves. */
  function AddCity(cities: seq<City>, city: City): (r: Response)
    ensures |r.cities| == |cities| + 1
    ensures r.cities[..|cities|] == cities
    ensures r.cities[|cities|] == city
    ensures r.reply == Ok(AddedMessage)
  {
    Response(cities + [city], Ok(AddedMessage))
  }

  /** The search for a first matching record that decides between delete and 404. */
  function FirstMatch(cities: seq<City>, countryName: string): (r: Option<nat>)
    ensures r.Some? ==> r.value < |cities| && Matches(cities[r.value], countryName)
    ensures r.Some? ==> forall j :: 0 <= j < r.value ==> !Matches(cities[j], countryName)
    ensures r.None? <==> forall j :: 0 <= j < |cities| ==> !Matches(cities[j], countryName)
  {
    if |cities| == 0 then None
    else if Matches(cities[0], countryName) then Some(0)
    else match FirstMatch(cities[1..], countryName)
      case None => None
      case Some(k) => Some(k + 1)
  }

  /** The records that do not belong to the named country, in their original order. */
  function Keep(cities: seq<City>, countryName: string): (r: seq<City>)
    ensures |r| <= |cities|
    ensures (exists j :: 0 <= j < |cities| && Matches(cities[j], countryName)) ==> |r| < |cities|
    ensures forall c :: c in r ==> !Matches(c, countryName)
    ensures forall c :: multiset(r)[c] == if Matches(c, countryName) then 0 else multiset(cities)[c]
  {
    if |cities| == 0 then []
    else
      var rest := Keep(cities[1..], countryName);
      assert cities == [cities[0]] + cities[1..];
      if Matches(cities[0], countryName) then rest
      else
        assert forall j :: 1 <= j < |cities| ==> cities[j] == cities[1..][j - 1];
        [cities[0]] + rest
  }

  /**
    `DELETE /cities/{country_name}`: every record of that country goes,
    compared ignoring letter case; with no such record the route raises 404
    and the list stays as it was.
   */
  function DeleteCity(cities: seq<City>, countryName: string): (r: Response)
    ensures r.reply.Err? <==> forall j :: 0 <= j < |cities| ==> !Matches(cities[j], countryName)
    ensures r.reply.Err? ==> r.reply.error == HttpError(NotFound, NotFoundDetail(countryName))
    ensures r.reply.Err? ==> r.cities == cities
    ensures r.reply.Ok? ==> r.reply.value == DeletedMessage(countryName)
    ensures r.reply.Ok? ==> |r.cities| < |cities|
    ensures r.reply.Ok? ==> forall c :: c in r.cities ==> !Matches(c, countryName)
    ensures r.reply.Ok? ==> forall c :: !Matches(c, countryName) ==> multiset(r.cities)[c] == multiset(cities)[c]
  {
    match FirstMatch(cities, countryName)
    case None => Response(cities, Err(HttpError(NotFound, NotFoundDetail(countryName))))
    case Some(k) =>
      var kept := Keep(cities, countryName);
      assert multiset(kept)[cities[k]] == 0 < multiset(cities)[cities[k]];
      Response(kept, Ok(DeletedMessage(countryName)))
  }

  /** Filtering distributes over concatenation: relative order is kept. */
  lemma {:induction false} KeepAppend(a: seq<City>, b: seq<City>, countryName: string)
    ensures Keep(a + b, countryName) == Keep(a, countryName) + Keep(b, countryName)
    decreases |a|
  {
    if |a| == 0 {
      assert a + b == b;
    } else {
      assert (a + b)[1..] == a[1..] + b;
      KeepAppend(a[1..], b, countryName);
    }
  }

  /**
    A non-matching record stays exactly between the kept records before it
    and the kept records after it.
   */
  lemma KeepInPlace(a: seq<City>, c: City, b: seq<City>, countryName: string)
    requires !Matches(c, countryName)
    ensures Keep(a + [c] + b, countryName) == Keep(a, countryName) + [c] + Keep(b, countryName)
  {
    KeepAppend(a + [c], b, countryName);
    KeepAppend(a, [c], countryName);
    assert Keep([c], countryName) == [c] by {
      assert [c][1..] == [];
    }
  }

  /** With nothing to remove, the filter is the identity. */
  lemma {:induction false} KeepNothing(cities: seq<City>, countryName: string)
    requires forall j :: 0 <= j < |cities| ==> !Matches(cities[j], countryName)
    ensures Keep(cities, countryName) == cities
    decreases |cities|
  {
    if |cities| > 0 {
      KeepNothing(cities[1..], countryName);
      assert cities == [cities[0]] + cities[1..];
    }
  }

  /** A successful delete leaves exactly the non-matching records, in order. */
  lemma DeleteKeepsOthersInOrder(cities: seq<City>, countryName: string)
    requires DeleteCity(cities, countryName).reply.Ok?
    ensures DeleteCity(cities, countryName).cities == Keep(cities, countryName)
  {
  }

  /** Deleting a country a second time finds nothing: all matches went the first time. */
  lemma DeleteTwiceIsNotFound(cities: seq<City>, countryName: string)
    requires DeleteCity(cities, countryName).reply.Ok?
    ensures DeleteCity(DeleteCity(cities, countryName).cities, countryName)
            == Response(DeleteCity(cities, countryName).cities, Err(HttpError(NotFound, NotFoundDetail(countryName))))
  {
    var after := DeleteCity(cities, countryName).cities;
    assert forall j :: 0 <= j < |after| ==> after[j] in after;
  }

  /**
    Adding a city and then deleting its country, in any letter case,
    succeeds and removes the new record together with every earlier record
    of that country; all other records remain in order.
   */
  lemma AddThenDelete(cities: seq<City>, city: City, countryName: string)
    requires CaseFold.SameIgnoringCase(city.country, countryName)
    ensures DeleteCity(AddCity(cities, city).cities, countryName)
            == Response(Keep(cities, countryName), Ok(DeletedMessage(countryName)))
  {
    var added := cities + [city];
    assert AddCity(cities, city).cities == added;
    assert Matches(added[|cities|], countryName);
    KeepAppend(cities, [city], countryName);
    assert Keep([city], countryName) == [] by {
      assert [city][1..] == [];
    }
    assert Keep(added, countryName) == Keep(cities, countryName);
    assert DeleteCity(added, countryName).reply.Ok?;
  }

  const France := City("France", "Paris", 48.85, 2.35)
  const Spain := City("Spain", "Madrid", 40.4, -3.7)

  /**
    A worked example: with France stored, adding Spain lists both in
    insertion order, and deleting "france" leaves only Spain.
   */
  lemma FranceSpainScenario()
    ensures GetCities(AddCity([France], Spain).cities) == [France, Spain]
    ensures DeleteCity(AddCity([France], Spain).cities, "france") == Response([Spain], Ok(DeletedMessage("france")))
  {
    var france, spain := France, Spain;
    assert Matches(france, "france") by {
      CaseFold.SameIgnoringCaseIff("France", "france");
    }
    assert !Matches(spain, "france") by {
      assert CaseFold.Lower("Spain")[0] == 's';
      assert CaseFold.Lower("france")[0] == 'f';
    }
    var added := [france, spain];
    assert AddCity([france], spain).cities == added;
    assert FirstMatch(added, "france") == Some(0);
    assert Keep(added, "france") == [spain] by {
      assert added[1..] == [spain];
      assert [spain][1..] == [];
    }
  }
}
