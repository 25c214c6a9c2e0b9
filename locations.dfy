/**
 * `LocationService` over its static tables: the supported cities with their
 * time zone and currency, and the currency of each country, all looked up
 * ignoring case.
 */
module Locations {
  import opened Wrappers
  import opened Text
  import opened Sorting

  /** A city of the table (its coordinates serve only `FindNearest`). */
  datatype CityRecord = CityRecord(country: string, city: string, timeZoneId: string, currency: string)

  const Cities: seq<CityRecord> := [
    CityRecord("New Zealand", "Auckland", "Pacific/Auckland", "NZD"),
    CityRecord("New Zealand", "Wellington", "Pacific/Auckland", "NZD"),
    CityRecord("New Zealand", "Christchurch", "Pacific/Auckland", "NZD"),
    CityRecord("New Zealand", "Hamilton", "Pacific/Auckland", "NZD"),
    CityRecord("New Zealand", "Tauranga", "Pacific/Auckland", "NZD"),
    CityRecord("New Zealand", "Dunedin", "Pacific/Auckland", "NZD"),
    CityRecord("Australia", "Sydney", "Australia/Sydney", "AUD"),
    CityRecord("Australia", "Melbourne", "Australia/Melbourne", "AUD"),
    CityRecord("Australia", "Brisbane", "Australia/Brisbane", "AUD"),
    CityRecord("Australia", "Perth", "Australia/Perth", "AUD"),
    CityRecord("Australia", "Adelaide", "Australia/Adelaide", "AUD"),
    CityRecord("Australia", "Canberra", "Australia/Sydney", "AUD"),
    CityRecord("Australia", "Hobart", "Australia/Hobart", "AUD"),
    CityRecord("Australia", "Gold Coast", "Australia/Brisbane", "AUD"),
    CityRecord("Australia", "Newcastle", "Australia/Sydney", "AUD")]

  /** The `CountryCurrency` dictionary, whose keys compare ignoring case. */
  const CountryCurrency: seq<(string, string)> := [("New Zealand", "NZD"), ("Australia", "AUD")]

  function CountriesOf(records: seq<CityRecord>): (r: seq<string>)
    ensures |r| == |records| && forall i :: 0 <= i < |r| ==> r[i] == records[i].country
  {
    seq(|records|, i requires 0 <= i < |records| => records[i].country)
  }

  /** The cities of the records whose country is `country`, ignoring case. */
  function CitiesIn(records: seq<CityRecord>, country: string): seq<string>
  {
    if |records| == 0 then []
    else
      var rest := CitiesIn(records[1..], country);
      if EqualsIgnoreCase(records[0].country, country) then [records[0].city] + rest else rest
  }

  lemma {:induction false} CitiesInMembers(records: seq<CityRecord>, country: string)
    ensures forall x :: x in CitiesIn(records, country) <==>
      exists r :: r in records && EqualsIgnoreCase(r.country, country) && r.city == x
  {
    if |records| > 0 {
      CitiesInMembers(records[1..], country);
      assert records == [records[0]] + records[1..];
    }
  }

  /** `GetCountries`. */
  function GetCountries(): seq<string>
  {
    SortBy(Dedup(CountriesOf(Cities)), OrdinalLe)
  }

  /** `GetCities(country)`. */
  function GetCities(country: string): seq<string>
  {
    SortBy(Dedup(CitiesIn(Cities, country)), OrdinalLe)
  }

  lemma OrdinalLeIsTotalPreorder()
    ensures IsTotalPreorder(OrdinalLe)
  {
    forall a: string, b: string ensures OrdinalLe(a, b) || OrdinalLe(b, a) {
      OrdinalLeTotal(a, b);
    }
    forall a: string, b: string, c: string | OrdinalLe(a, b) && OrdinalLe(b, c) ensures OrdinalLe(a, c) {
      OrdinalLeTrans(a, b, c);
    }
  }

  /** Sorting the distinct elements of `s` gives a sorted list holding each
    * element of `s` exactly once. */
  lemma SortedDistinct(s: seq<string>)
    ensures var r := SortBy(Dedup(s), OrdinalLe);
      && SortedBy(r, OrdinalLe) && NoDuplicates(r)
      && forall x :: x in r <==> x in s
  {
    var d := Dedup(s);
    DedupShape(s);
    OrdinalLeIsTotalPreorder();
    SortByCorrect(d, OrdinalLe);
    var r := SortBy(d, OrdinalLe);
    NoDuplicatesPermutation(d, r);
    assert forall x :: x in r <==> x in multiset(d);
  }

  /** The countries are listed once each, in order, and are exactly the
    * countries of the city table. */
  lemma GetCountriesShape()
    ensures SortedBy(GetCountries(), OrdinalLe) && NoDuplicates(GetCountries())
    ensures forall x :: x in GetCountries() <==> exists r :: r in Cities && r.country == x
  {
    var s := CountriesOf(Cities);
    SortedDistinct(s);
    forall x ensures x in s <==> exists r :: r in Cities && r.country == x {
      if exists r :: r in Cities && r.country == x {
        var r :| r in Cities && r.country == x;
        var i :| 0 <= i < |Cities| && Cities[i] == r;
        assert s[i] == x;
      }
    }
  }

  /** The cities of a country are listed once each, in order, and are
    * exactly those of its records, the country compared ignoring case; an
    * unknown country has none. */
  lemma GetCitiesShape(country: string)
    ensures SortedBy(GetCities(country), OrdinalLe) && NoDuplicates(GetCities(country))
    ensures forall x :: x in GetCities(country) <==>
      exists r :: r in Cities && EqualsIgnoreCase(r.country, country) && r.city == x
    ensures (forall r :: r in Cities ==> !EqualsIgnoreCase(r.country, country)) ==> GetCities(country) == []
  {
    CitiesInMembers(Cities, country);
    SortedDistinct(CitiesIn(Cities, country));
    if GetCities(country) != [] {
      assert GetCities(country)[0] in GetCities(country);
    }
  }

  /** Every listed country has cities. */
  lemma CountriesHaveCities(country: string)
    requires country in GetCountries()
    ensures GetCities(country) != []
  {
    GetCountriesShape();
    GetCitiesShape(country);
    var r :| r in Cities && r.country == country;
    assert r.city in GetCities(country);
  }

  /** `TryGetValue` on a dictionary whose keys compare ignoring case. */
  function LookupIgnoreCase(table: seq<(string, string)>, key: string): (r: Option<string>)
    ensures r.None? <==> forall e :: e in table ==> !EqualsIgnoreCase(e.0, key)
    ensures r.Some? ==> exists e :: e in table && EqualsIgnoreCase(e.0, key) && e.1 == r.value
  {
    if |table| == 0 then None
    else if EqualsIgnoreCase(table[0].0, key) then Some(table[0].1)
    else LookupIgnoreCase(table[1..], key)
  }

  /** `ResolveCurrency(country)`. */
  function ResolveCurrency(country: string): Option<string>
  {
    LookupIgnoreCase(CountryCurrency, country)
  }

  /** The first record for the country and city, both compared ignoring case. */
  function FirstRecord(records: seq<CityRecord>, country: string, city: string): (r: Option<CityRecord>)
    ensures r.None? <==> forall x :: x in records ==> !(EqualsIgnoreCase(x.country, country) && EqualsIgnoreCase(x.city, city))
    ensures r.Some? ==> r.value in records && EqualsIgnoreCase(r.value.country, country) && EqualsIgnoreCase(r.value.city, city)
  {
    if |records| == 0 then None
    else if EqualsIgnoreCase(records[0].country, country) && EqualsIgnoreCase(records[0].city, city) then Some(records[0])
    else FirstRecord(records[1..], country, city)
  }

  /** `GetRecord(country, city)`. */
  function GetRecord(country: string, city: string): Option<CityRecord>
  {
    FirstRecord(Cities, country, city)
  }

  /** `ResolveTimeZone(country, city)`. */
  function ResolveTimeZone(country: string, city: string): (r: Option<string>)
  {
    match FirstRecord(Cities, country, city)
    case Some(record) => Some(record.timeZoneId)
    case None => None
  }

  /** The time zone is the zone of the record `GetRecord` finds, and there
    * is none when no record matches. */
  lemma ResolveTimeZoneIsRecordZone(country: string, city: string)
    ensures ResolveTimeZone(country, city).None? <==>
      forall x :: x in Cities ==> !(EqualsIgnoreCase(x.country, country) && EqualsIgnoreCase(x.city, city))
    ensures GetRecord(country, city).Some? ==> ResolveTimeZone(country, city) == Some(GetRecord(country, city).value.timeZoneId)
  {
  }

  lemma EqualsIgnoreCaseTrans(a: string, b: string, c: string)
    requires EqualsIgnoreCase(a, b)
    ensures EqualsIgnoreCase(a, c) <==> EqualsIgnoreCase(b, c)
  {
  }

  /** Lookups do not depend on the case the country is written in. */
  lemma LookupsIgnoreCase(a: string, b: string, city: string)
    requires EqualsIgnoreCase(a, b)
    ensures ResolveCurrency(a) == ResolveCurrency(b)
    ensures GetCities(a) == GetCities(b)
    ensures GetRecord(a, city) == GetRecord(b, city)
  {
    forall s ensures EqualsIgnoreCase(s, a) <==> EqualsIgnoreCase(s, b) {
      EqualsIgnoreCaseTrans(a, b, s);
    }
    LookupAgrees(CountryCurrency, a, b);
    CitiesInAgrees(Cities, a, b);
    FirstRecordAgrees(Cities, a, b, city);
  }

  lemma {:induction false} LookupAgrees(table: seq<(string, string)>, a: string, b: string)
    requires forall s :: EqualsIgnoreCase(s, a) <==> EqualsIgnoreCase(s, b)
    ensures LookupIgnoreCase(table, a) == LookupIgnoreCase(table, b)
  {
    if |table| > 0 {
      LookupAgrees(table[1..], a, b);
    }
  }

  lemma {:induction false} CitiesInAgrees(records: seq<CityRecord>, a: string, b: string)
    requires forall s :: EqualsIgnoreCase(s, a) <==> EqualsIgnoreCase(s, b)
    ensures CitiesIn(records, a) == CitiesIn(records, b)
  {
    if |records| > 0 {
      CitiesInAgrees(records[1..], a, b);
    }
  }

  lemma {:induction false} FirstRecordAgrees(records: seq<CityRecord>, a: string, b: string, city: string)
    requires forall s :: EqualsIgnoreCase(s, a) <==> EqualsIgnoreCase(s, b)
    ensures FirstRecord(records, a, city) == FirstRecord(records, b, city)
  {
    if |records| > 0 {
      FirstRecordAgrees(records[1..], a, b, city);
    }
  }

  lemma CurrencyOfNewZealand()
    ensures ResolveCurrency("New Zealand") == Some("NZD")
  {
    assert EqualsIgnoreCase("New Zealand", "New Zealand");
  }

  lemma CurrencyOfAustralia()
    ensures ResolveCurrency("Australia") == Some("AUD")
  {
    assert !EqualsIgnoreCase("New Zealand", "Australia") by {
      assert ToLower("New Zealand")[0] != ToLower("Australia")[0];
    }
    assert EqualsIgnoreCase("Australia", "Australia");
  }

  /** The tables agree: each city's currency is its country's currency. */
  lemma CityCurrenciesAgree()
    ensures forall r :: r in Cities ==> ResolveCurrency(r.country) == Some(r.currency)
  {
    CurrencyOfNewZealand();
    CurrencyOfAustralia();
    forall r | r in Cities
      ensures (r.country == "New Zealand" && r.currency == "NZD") || (r.country == "Australia" && r.currency == "AUD")
    {
      var i :| 0 <= i < |Cities| && Cities[i] == r;
    }
  }

  /** A country written in any case has the currency of its table cities. */
  lemma CountryCurrencyOfCity(r: CityRecord, country: string)
    requires r in Cities && EqualsIgnoreCase(r.country, country)
    ensures ResolveCurrency(country) == Some(r.currency)
  {
    CityCurrenciesAgree();
    LookupsIgnoreCase(r.country, country, "");
  }

  /** A resolved currency is one of the two codes of the table. */
  lemma ResolvedCurrencyIsCode(country: string)
    ensures ResolveCurrency(country).Some? ==> ResolveCurrency(country).value in {"NZD", "AUD"}
    ensures ResolveCurrency(country).Some? ==> !IsBlank(ResolveCurrency(country).value)
  {
    if ResolveCurrency(country).Some? {
      var v := ResolveCurrency(country).value;
      assert v == "NZD" || v == "AUD";
      assert !IsWhiteSpace(v[0]);
    }
  }
}
