/** Worked inputs: a Minneapolis street address through the translator, and an
    upstream reverse answer without a place. */
module Examples {
  import opened Wrappers
  import opened Nominatim
  import opened Pelias
  import opened Proxy

  const MainStreet := Place(
    Some("1"), Some(44.98), Some(-93.26),
    Some("123 Main St, Minneapolis, MN 55401, USA"),
    Some("house"), Some("building"),
    Some(AddressDetails(
      Some("123"), Some("Main St"), Some("Minneapolis"), None, None, None,
      Some("Minnesota"), None, Some("55401"), Some("United States"), Some("us"))),
    Some(0.8), {})

  /** The house number makes it an address even though its class is `building`, and
      the `gid` says so. */
  lemma MainStreetIsAnAddress()
    ensures var p := NominatimToPelias(MainStreet).properties;
      && LayerKey in p && GidKey in p
      && p[LayerKey] == Str("address")
      && p[GidKey] == Str("nominatim:address:1")
  {
    assert Truthy(AddressOf(MainStreet).houseNumber);
    assert LayerOf(MainStreet) == Address;
    assert PlaceIdText(MainStreet) == "1";
    assert Source + ":" + "address" + ":" + "1" == "nominatim:address:1";
    AlwaysPresent(MainStreet);
  }

  /** The name is house number and road; the score is carried over as the confidence. */
  lemma MainStreetNameAndConfidence()
    ensures var p := NominatimToPelias(MainStreet).properties;
      && NameKey in p && ConfidenceKey in p
      && p[NameKey] == Str("123 Main St")
      && p[ConfidenceKey] == Num(0.8)
  {
    var a := AddressOf(MainStreet);
    assert Truthy(a.houseNumber) && Truthy(a.road);
    NameCases(MainStreet);
    assert "123" + " " + "Main St" == "123 Main St";
    assert PlaceName(MainStreet) == "123 Main St";
    AlwaysPresent(MainStreet);
  }

  /** The point is longitude first; `country_a` is the upper-cased country code,
      `region_a` is "" for lack of a state code, and there is no `county` key. */
  lemma MainStreetPointAndRegion()
    ensures var f := NominatimToPelias(MainStreet);
      && f.geometry.coordinates == [-93.26, 44.98]
      && CountryAKey in f.properties && RegionAKey in f.properties
      && f.properties[CountryAKey] == Str("US")
      && f.properties[RegionAKey] == Str("")
      && CountyKey !in f.properties
  {
  }

  /** Nominatim answers a reverse lookup over open water with an `error` object: it is
      not empty, but it has no `place_id`, so the response has no features. */
  lemma ReverseWithoutPlace()
    ensures ReverseFeatures(Place(None, None, None, None, None, None, None, None, {"error"})) == []
  {
  }
}
