/** The upstream (Nominatim) search/reverse result record, as the translator reads it.
    Nominatim returns untyped JSON objects; each key the translator looks up is a field
    here, `Some(v)` when the key is present and `None` when it is absent. */
module Nominatim {
  import opened Wrappers

  /** The `address` object that `addressdetails=1` asks Nominatim to include. */
  datatype AddressDetails = AddressDetails(
    houseNumber: Option<string>,
    road: Option<string>,
    city: Option<string>,
    town: Option<string>,
    village: Option<string>,
    county: Option<string>,
    state: Option<string>,
    stateCode: Option<string>,
    postcode: Option<string>,
    country: Option<string>,
    countryCode: Option<string>)

  /** The `{}` the translator falls back to when a result has no `address` key. */
  const EmptyAddress := AddressDetails(None, None, None, None, None, None, None, None, None, None, None)

  /** One result object. `placeId` holds the text `str()` gives for the `place_id` value;
      `lat` and `lon` hold the numbers `float()` yields for them; `importance` holds the
      JSON number as it is, since it is copied without conversion; `others`
      names the keys present that the translator never reads (`osm_id`, `licence`,
      `error`, ...). */
  datatype Place = Place(
    placeId: Option<string>,
    lat: Option<real>,
    lon: Option<real>,
    displayName: Option<string>,
    osmType: Option<string>,
    osmClass: Option<string>,
    address: Option<AddressDetails>,
    importance: Option<real>,
    others: set<string>)

  /** The keys the translator reads, each backed by a field of `Place`. */
  const ReadKeys: set<string> :=
    {"place_id", "lat", "lon", "display_name", "type", "class", "address", "importance"}

  function KeyIf<T>(o: Option<T>, key: string): set<string> {
    if o.Some? then {key} else {}
  }

  /** The set of keys of the JSON object. A name in `others` that is also a read key
      is covered by that key's own field. */
  function Keys(r: Place): (ks: set<string>)
    ensures "place_id" in ks <==> r.placeId.Some?
  {
    KeyIf(r.placeId, "place_id") + KeyIf(r.lat, "lat") + KeyIf(r.lon, "lon")
    + KeyIf(r.displayName, "display_name") + KeyIf(r.osmType, "type")
    + KeyIf(r.osmClass, "class") + KeyIf(r.address, "address")
    + KeyIf(r.importance, "importance") + (r.others - ReadKeys)
  }

  /** Python truthiness of `d.get(key)` for a string field: the only falsy lookups are
      a missing key (`None`) and the empty string. */
  predicate Truthy(v: Option<string>)
    ensures Truthy(v) <==> v != None && v != Some("")
  {
    v.Some? && v.value != ""
  }

  /** Python's `a or b` on two lookups: `a` when it is truthy, otherwise `b`. */
  function Or(a: Option<string>, b: Option<string>): (r: Option<string>)
    ensures Truthy(r) <==> Truthy(a) || Truthy(b)
  {
    if Truthy(a) then a else b
  }

  /** `result.get("address", {})`: the address object when the key is present, and
      otherwise an object in which every lookup is missing. */
  function AddressOf(r: Place): (a: AddressDetails)
    ensures r.address.Some? ==> a == r.address.value
    ensures r.address.None? ==> a == EmptyAddress
    ensures r.address.None? ==>
              && !Truthy(a.houseNumber) && !Truthy(a.road) && !Truthy(a.city)
              && !Truthy(a.town) && !Truthy(a.village) && !Truthy(a.county)
              && !Truthy(a.state) && !Truthy(a.postcode) && !Truthy(a.country)
  {
    r.address.GetOr(EmptyAddress)
  }
}
