/** Translation of one Nominatim result into one Pelias GeoJSON Feature
    (`nominatim_to_pelias` in backend/nominatim_proxy.py). */
module Pelias {
  import opened Wrappers
  import opened Text
  import opened Nominatim

  /** The source tag that namespaces `id` and `gid`, also emitted as `source`. */
  const Source := "nominatim"

  /** Pelias layers, from the most specific to the least. */
  datatype Layer = Address | Street | Locality | Region | Venue {

    function Name(): (s: string)
      ensures ':' !in s
    {
      match this
      case Address => "address"
      case Street => "street"
      case Locality => "locality"
      case Region => "region"
      case Venue => "venue"
    }

    /** Position in the first-match-wins order: the rule checked first ranks highest. */
    function Rank(): nat {
      match this
      case Address => 4
      case Street => 3
      case Locality => 2
      case Region => 1
      case Venue => 0
    }
  }

  /** OSM `type` values that make a place a locality. */
  const LocalityTypes := ["city", "town", "village", "hamlet"]

  /** Whether the rule for layer `l` holds of a result, each rule taken on its own. */
  predicate RuleHolds(l: Layer, a: AddressDetails, osmClass: string, osmType: string) {
    match l
    case Address => Truthy(a.houseNumber)
    case Street => osmClass == "highway"
    case Locality => osmType in LocalityTypes
    case Region => osmType == "administrative"
    case Venue => true
  }

  /** The layer of a result: the highest-ranked layer whose rule holds. */
  function Classify(a: AddressDetails, osmClass: string, osmType: string): (l: Layer)
    ensures RuleHolds(l, a, osmClass, osmType)
    ensures forall k: Layer :: RuleHolds(k, a, osmClass, osmType) ==> k.Rank() <= l.Rank()
  {
    if Truthy(a.houseNumber) then Address
    else if osmClass == "highway" then Street
    else if osmType in LocalityTypes then Locality
    else if osmType == "administrative" then Region
    else Venue
  }

  /** The two properties of `Classify` pin its result down: no other layer has both. */
  lemma ClassifyUnique(a: AddressDetails, osmClass: string, osmType: string, l: Layer)
    requires RuleHolds(l, a, osmClass, osmType)
    requires forall k: Layer :: RuleHolds(k, a, osmClass, osmType) ==> k.Rank() <= l.Rank()
    ensures l == Classify(a, osmClass, osmType)
  {
  }

  /** A non-empty house number makes a result an address, whatever its class and type. */
  lemma HouseNumberWins(a: AddressDetails, class1: string, type1: string, class2: string, type2: string)
    requires Truthy(a.houseNumber)
    ensures Classify(a, class1, type1) == Classify(a, class2, type2) == Address
  {
  }

  /** The layer of a result, read from its address, `class` and `type` (each `""` when
      missing). */
  function LayerOf(r: Place): (l: Layer)
    ensures RuleHolds(l, AddressOf(r), r.osmClass.GetOr(""), r.osmType.GetOr(""))
    ensures forall k: Layer :: RuleHolds(k, AddressOf(r), r.osmClass.GetOr(""), r.osmType.GetOr(""))
              ==> k.Rank() <= l.Rank()
  {
    Classify(AddressOf(r), r.osmClass.GetOr(""), r.osmType.GetOr(""))
  }

  /** The `name_parts` list: the house number, then the road, each only when non-empty. */
  function NameParts(a: AddressDetails): (parts: seq<string>)
    ensures |parts| == (if Truthy(a.houseNumber) then 1 else 0) + (if Truthy(a.road) then 1 else 0)
    ensures |parts| == 0 <==> !Truthy(a.houseNumber) && !Truthy(a.road)
    ensures forall i :: 0 <= i < |parts| ==> parts[i] != ""
    ensures Truthy(a.houseNumber) ==> parts[0] == a.houseNumber.value
    ensures Truthy(a.road) ==> parts[|parts| - 1] == a.road.value
  {
    (if Truthy(a.houseNumber) then [a.houseNumber.value] else [])
    + (if Truthy(a.road) then [a.road.value] else [])
  }

  /** The feature's `name`: the joined name parts, or the display name when there are
      none. A non-empty house number or road never gives an empty name, and the name
      then begins with the house number, or with the road when there is no house number. */
  function PlaceName(r: Place): (name: string)
    ensures Truthy(AddressOf(r).houseNumber) || Truthy(AddressOf(r).road) ==> name != ""
    ensures Truthy(AddressOf(r).houseNumber) ==> AddressOf(r).houseNumber.value <= name
    ensures !Truthy(AddressOf(r).houseNumber) && Truthy(AddressOf(r).road) ==> AddressOf(r).road.value <= name
  {
    var parts := NameParts(AddressOf(r));
    if |parts| > 0 then Join(parts, " ") else r.displayName.GetOr("")
  }

  /** The name is "house_number road" when both are non-empty, whichever one is
      non-empty otherwise, and the display name (or "") when neither is. */
  lemma NameCases(r: Place)
    ensures var a, name := AddressOf(r), PlaceName(r);
      && (Truthy(a.houseNumber) && Truthy(a.road) ==> name == a.houseNumber.value + " " + a.road.value)
      && (Truthy(a.houseNumber) && !Truthy(a.road) ==> name == a.houseNumber.value)
      && (!Truthy(a.houseNumber) && Truthy(a.road) ==> name == a.road.value)
      && (!Truthy(a.houseNumber) && !Truthy(a.road) ==> name == r.displayName.GetOr(""))
  {
    var a := AddressOf(r);
    var parts := NameParts(a);
    if Truthy(a.houseNumber) && Truthy(a.road) {
      assert parts == [a.houseNumber.value, a.road.value];
      assert Join(parts[1..], " ") == a.road.value;
    }
  }

  /** A value in the `properties` object: text, or the number carried by `confidence`. */
  datatype Value = Str(s: string) | Num(x: real)

  /** `result.get("place_id", "")`, as the f-strings render it: the place id when the key
      is present, and the empty text otherwise. */
  function PlaceIdText(r: Place): (s: string)
    ensures r.placeId.Some? ==> s == r.placeId.value
    ensures r.placeId.None? ==> s == ""
  {
    r.placeId.GetOr("")
  }

  /** The namespaced `id`: stripping the `nominatim:` namespace gives the place id back. */
  function Id(placeId: string): (s: string)
    ensures StripPrefix(s, Source + ":") == Some(placeId)
  {
    Source + ":" + placeId
  }

  /** The namespaced `gid`: the `id` of `layer:place_id`, in the same namespace. */
  function Gid(layer: Layer, placeId: string): (s: string)
    ensures s == Id(layer.Name() + ":" + placeId)
    ensures StripPrefix(s, Source + ":") == Some(layer.Name() + ":" + placeId)
  {
    Source + ":" + layer.Name() + ":" + placeId
  }

  /** Reads a `gid` back into its layer name and place id. */
  function ParseGid(gid: string): Option<(string, string)> {
    match StripPrefix(gid, Source + ":")
    case None => None
    case Some(rest) => SplitFirst(rest, ':')
  }

  /** A `gid` names its layer and place id unambiguously, even when the place id
      itself contains ':'. */
  lemma GidRoundTrip(layer: Layer, placeId: string)
    ensures ParseGid(Gid(layer, placeId)) == Some((layer.Name(), placeId))
  {
    var g := Gid(layer, placeId);
    var rest := layer.Name() + ":" + placeId;
    assert g == (Source + ":") + rest;
    assert StripPrefix(g, Source + ":") == Some(rest);
    SplitFirstJoined(layer.Name(), ':', placeId);
  }

  /** The keys of the `properties` object; `Name()` is the key as written in JSON. */
  datatype Key =
    | IdKey | GidKey | LayerKey | SourceKey | NameKey | LabelKey | ConfidenceKey
    | HouseNumberKey | StreetKey | LocalityKey | CountyKey | RegionKey | RegionAKey
    | PostalCodeKey | CountryKey | CountryAKey
  {
    function Name(): string {
      match this
      case IdKey => "id"
      case GidKey => "gid"
      case LayerKey => "layer"
      case SourceKey => "source"
      case NameKey => "name"
      case LabelKey => "label"
      case ConfidenceKey => "confidence"
      case HouseNumberKey => "housenumber"
      case StreetKey => "street"
      case LocalityKey => "locality"
      case CountyKey => "county"
      case RegionKey => "region"
      case RegionAKey => "region_a"
      case PostalCodeKey => "postalcode"
      case CountryKey => "country"
      case CountryAKey => "country_a"
    }

    /** Whether the key is written only from the `address` object. */
    predicate FromAddress() {
      !(IdKey? || GidKey? || LayerKey? || SourceKey? || NameKey? || LabelKey? || ConfidenceKey?)
    }
  }

  /** The key a JSON key name stands for, if any. */
  function KeyNamed(name: string): Option<Key> {
    if name == "id" then Some(IdKey)
    else if name == "gid" then Some(GidKey)
    else if name == "layer" then Some(LayerKey)
    else if name == "source" then Some(SourceKey)
    else if name == "name" then Some(NameKey)
    else if name == "label" then Some(LabelKey)
    else if name == "confidence" then Some(ConfidenceKey)
    else if name == "housenumber" then Some(HouseNumberKey)
    else if name == "street" then Some(StreetKey)
    else if name == "locality" then Some(LocalityKey)
    else if name == "county" then Some(CountyKey)
    else if name == "region" then Some(RegionKey)
    else if name == "region_a" then Some(RegionAKey)
    else if name == "postalcode" then Some(PostalCodeKey)
    else if name == "country" then Some(CountryKey)
    else if name == "country_a" then Some(CountryAKey)
    else None
  }

  /** Every key's JSON name reads back as that key, so no two keys share a name and a
      `map<Key, Value>` is a faithful picture of the JSON object. */
  lemma KeyNameRoundTrip(k: Key)
    ensures KeyNamed(k.Name()) == Some(k)
  {
  }

  /** The keys every feature carries. */
  const BaseKeys: set<Key> := {IdKey, GidKey, LayerKey, SourceKey, NameKey, LabelKey, ConfidenceKey}

  /** The keys written only from the `address` object. */
  const AddressKeys: set<Key> := {
    HouseNumberKey, StreetKey, LocalityKey, CountyKey, RegionKey, RegionAKey,
    PostalCodeKey, CountryKey, CountryAKey}

  /** The `properties` object as first written, before any address key is added. */
  function BaseProperties(r: Place): map<Key, Value> {
    var placeId := PlaceIdText(r);
    var layer := LayerOf(r);
    map[
      IdKey := Str(Id(placeId)),
      GidKey := Str(Gid(layer, placeId)),
      LayerKey := Str(layer.Name()),
      SourceKey := Str(Source),
      NameKey := Str(PlaceName(r)),
      LabelKey := Str(r.displayName.GetOr("")),
      ConfidenceKey := Num(r.importance.GetOr(0.5))]
  }

  /** `p` with `key` set to `v` when `cond` holds: one guarded insertion. */
  function PutIf(p: map<Key, Value>, cond: bool, key: Key, v: Value): map<Key, Value> {
    if cond then p[key := v] else p
  }

  /** A guarded insertion sets `key` to `v` when its condition holds, and otherwise
      changes nothing; every other key keeps its presence and its value. */
  lemma PutIfSets(p: map<Key, Value>, cond: bool, key: Key, v: Value, other: Key)
    requires other != key
    ensures var q := PutIf(p, cond, key, v);
      && (key in q <==> cond || key in p)
      && (cond ==> q[key] == v)
      && (!cond && key in p ==> q[key] == p[key])
      && (other in q <==> other in p)
      && (other in p ==> q[other] == p[other])
  {
  }

  /** The address keys inserted into `p`, each guarded by its own field, in source order. */
  function AddAddressKeys(p: map<Key, Value>, a: AddressDetails): map<Key, Value> {
    var p1 := PutIf(p, Truthy(a.houseNumber), HouseNumberKey, Str(a.houseNumber.GetOr("")));
    var p2 := PutIf(p1, Truthy(a.road), StreetKey, Str(a.road.GetOr("")));
    var locality := Or(Or(a.city, a.town), a.village);
    var p3 := PutIf(p2, Truthy(locality), LocalityKey, Str(locality.GetOr("")));
    var p4 := PutIf(p3, Truthy(a.county), CountyKey, Str(a.county.GetOr("")));
    var p5 := PutIf(p4, Truthy(a.state), RegionKey, Str(a.state.GetOr("")));
    var p6 := PutIf(p5, Truthy(a.state), RegionAKey, Str(a.stateCode.GetOr("")));
    var p7 := PutIf(p6, Truthy(a.postcode), PostalCodeKey, Str(a.postcode.GetOr("")));
    var p8 := PutIf(p7, Truthy(a.country), CountryKey, Str(a.country.GetOr("")));
    PutIf(p8, Truthy(a.country), CountryAKey, Str(Upper(a.countryCode.GetOr(""))))
  }

  /** Adding the address keys leaves every other key as it was. */
  lemma AddAddressKeysKeeps(p: map<Key, Value>, a: AddressDetails, k: Key)
    requires !k.FromAddress()
    ensures var q := AddAddressKeys(p, a);
      (k in q <==> k in p) && (k in p ==> q[k] == p[k])
  {
  }

  /** The `properties` object: the base keys, then the address keys. */
  function Properties(r: Place): map<Key, Value> {
    AddAddressKeys(BaseProperties(r), AddressOf(r))
  }

  /** The first write of `properties` holds exactly the seven base keys, none of them
      an address key. */
  lemma BasePropertiesKeys(r: Place)
    ensures BaseProperties(r).Keys == BaseKeys
    ensures BaseKeys !! AddressKeys
  {
  }

  /** Inserting the address keys removes no key and adds only address keys. */
  lemma AddAddressKeysAddsOnly(p: map<Key, Value>, a: AddressDetails)
    ensures var q := AddAddressKeys(p, a);
      p.Keys <= q.Keys <= p.Keys + AddressKeys
  {
  }

  /** Every base key is in `properties`, and every other key there is an address key. */
  lemma PropertiesKeys(r: Place)
    ensures BaseKeys <= Properties(r).Keys
    ensures Properties(r).Keys - BaseKeys <= AddressKeys
  {
    BasePropertiesKeys(r);
    AddAddressKeysAddsOnly(BaseProperties(r), AddressOf(r));
  }

  /** A GeoJSON Point; `coordinates` is the list `[longitude, latitude]`. */
  datatype Geometry = Point(coordinates: seq<real>)

  /** A GeoJSON Feature (`"type": "Feature"`). */
  datatype Feature = Feature(geometry: Geometry, properties: map<Key, Value>)

  /** `nominatim_to_pelias`: one upstream result to one Feature, a Point with exactly two
      coordinates and the properties of `Properties`. */
  function NominatimToPelias(r: Place): (f: Feature)
    ensures |f.geometry.coordinates| == 2
  {
    Feature(Point([r.lon.GetOr(0.0), r.lat.GetOr(0.0)]), Properties(r))
  }

  /** The point is written longitude first; a missing coordinate reads as 0. */
  lemma GeometryIsLonLat(r: Place)
    ensures var c := NominatimToPelias(r).geometry.coordinates;
      && |c| == 2
      && (r.lon.Some? ==> c[0] == r.lon.value) && (r.lon.None? ==> c[0] == 0.0)
      && (r.lat.Some? ==> c[1] == r.lat.value) && (r.lat.None? ==> c[1] == 0.0)
  {
  }

  /** The keys every feature carries, with their values. */
  lemma AlwaysPresent(r: Place)
    ensures var p := NominatimToPelias(r).properties;
      && IdKey in p && GidKey in p && LayerKey in p && SourceKey in p
      && NameKey in p && LabelKey in p && ConfidenceKey in p
      && p[IdKey] == Str(Source + ":" + PlaceIdText(r))
      && p[GidKey] == Str(Source + ":" + LayerOf(r).Name() + ":" + PlaceIdText(r))
      && p[LayerKey] == Str(LayerOf(r).Name())
      && p[SourceKey] == Str(Source)
      && p[NameKey] == Str(PlaceName(r))
      && p[LabelKey] == Str(r.displayName.GetOr(""))
      && p[ConfidenceKey] == Num(if r.importance.Some? then r.importance.value else 0.5)
  {
    var base, a := BaseProperties(r), AddressOf(r);
    AddAddressKeysKeeps(base, a, IdKey);
    AddAddressKeysKeeps(base, a, GidKey);
    AddAddressKeysKeeps(base, a, LayerKey);
    AddAddressKeysKeeps(base, a, SourceKey);
    AddAddressKeysKeeps(base, a, NameKey);
    AddAddressKeysKeeps(base, a, LabelKey);
    AddAddressKeysKeeps(base, a, ConfidenceKey);
  }

  /** A result without an `address` object yields only the seven base keys. */
  lemma NoAddressOnlyBaseKeys(r: Place)
    requires r.address.None?
    ensures NominatimToPelias(r).properties.Keys == BaseKeys
  {
  }

  /** `housenumber` and `street` are present exactly when the house number and the road
      are non-empty, and carry their values; an absent field leaves no key behind. */
  lemma HouseNumberAndStreetKeys(r: Place)
    ensures var p, a := NominatimToPelias(r).properties, AddressOf(r);
      && (HouseNumberKey in p <==> Truthy(a.houseNumber))
      && (Truthy(a.houseNumber) ==> p[HouseNumberKey] == Str(a.houseNumber.value))
      && (StreetKey in p <==> Truthy(a.road))
      && (Truthy(a.road) ==> p[StreetKey] == Str(a.road.value))
  {
    BasePropertiesKeys(r);
    HouseNumberAndStreetOver(BaseProperties(r), AddressOf(r));
  }

  /** As `HouseNumberAndStreetKeys`, for the address keys inserted into any map that holds none of
      them yet. */
  lemma HouseNumberAndStreetOver(p: map<Key, Value>, a: AddressDetails)
    requires HouseNumberKey !in p && StreetKey !in p
    ensures var q := AddAddressKeys(p, a);
      && (HouseNumberKey in q <==> Truthy(a.houseNumber))
      && (Truthy(a.houseNumber) ==> q[HouseNumberKey] == Str(a.houseNumber.value))
      && (StreetKey in q <==> Truthy(a.road))
      && (Truthy(a.road) ==> q[StreetKey] == Str(a.road.value))
  {
  }

  /** `county` and `postalcode` are present exactly when the county and the postcode
      are non-empty, and carry their values; an absent field leaves no key behind. */
  lemma CountyAndPostalCodeKeys(r: Place)
    ensures var p, a := NominatimToPelias(r).properties, AddressOf(r);
      && (CountyKey in p <==> Truthy(a.county))
      && (Truthy(a.county) ==> p[CountyKey] == Str(a.county.value))
      && (PostalCodeKey in p <==> Truthy(a.postcode))
      && (Truthy(a.postcode) ==> p[PostalCodeKey] == Str(a.postcode.value))
  {
    BasePropertiesKeys(r);
    CountyAndPostalCodeOver(BaseProperties(r), AddressOf(r));
  }

  /** As `CountyAndPostalCodeKeys`, for the address keys inserted into any map that holds none of
      them yet. */
  lemma CountyAndPostalCodeOver(p: map<Key, Value>, a: AddressDetails)
    requires CountyKey !in p && PostalCodeKey !in p
    ensures var q := AddAddressKeys(p, a);
      && (CountyKey in q <==> Truthy(a.county))
      && (Truthy(a.county) ==> q[CountyKey] == Str(a.county.value))
      && (PostalCodeKey in q <==> Truthy(a.postcode))
      && (Truthy(a.postcode) ==> q[PostalCodeKey] == Str(a.postcode.value))
  {
  }

  /** `locality` is present exactly when one of city, town, village is non-empty, and
      holds the first non-empty one in that order. */
  lemma LocalityFromFirstNonEmpty(r: Place)
    ensures var p, a := NominatimToPelias(r).properties, AddressOf(r);
      && (LocalityKey in p <==> Truthy(a.city) || Truthy(a.town) || Truthy(a.village))
      && (Truthy(a.city) ==> p[LocalityKey] == Str(a.city.value))
      && (!Truthy(a.city) && Truthy(a.town) ==> p[LocalityKey] == Str(a.town.value))
      && (!Truthy(a.city) && !Truthy(a.town) && Truthy(a.village) ==> p[LocalityKey] == Str(a.village.value))
  {
    BasePropertiesKeys(r);
    LocalityOver(BaseProperties(r), AddressOf(r));
  }

  /** As `LocalityFromFirstNonEmpty`, for the address keys inserted into any map that holds none of
      them yet. */
  lemma LocalityOver(p: map<Key, Value>, a: AddressDetails)
    requires LocalityKey !in p
    ensures var q := AddAddressKeys(p, a);
      && (LocalityKey in q <==> Truthy(a.city) || Truthy(a.town) || Truthy(a.village))
      && (Truthy(a.city) ==> q[LocalityKey] == Str(a.city.value))
      && (!Truthy(a.city) && Truthy(a.town) ==> q[LocalityKey] == Str(a.town.value))
      && (!Truthy(a.city) && !Truthy(a.town) && Truthy(a.village) ==> q[LocalityKey] == Str(a.village.value))
  {
  }

  /** `region` and `region_a` come together, exactly when the state is non-empty;
      `region_a` falls back to "" rather than being left out. */
  lemma RegionKeys(r: Place)
    ensures var p, a := NominatimToPelias(r).properties, AddressOf(r);
      && (RegionKey in p <==> Truthy(a.state))
      && (RegionAKey in p <==> Truthy(a.state))
      && (Truthy(a.state) ==> p[RegionKey] == Str(a.state.value))
      && (Truthy(a.state) && a.stateCode.Some? ==> p[RegionAKey] == Str(a.stateCode.value))
      && (Truthy(a.state) && a.stateCode.None? ==> p[RegionAKey] == Str(""))
  {
    BasePropertiesKeys(r);
    RegionOver(BaseProperties(r), AddressOf(r));
  }

  /** As `RegionKeys`, for the address keys inserted into any map that holds none of
      them yet. */
  lemma RegionOver(p: map<Key, Value>, a: AddressDetails)
    requires RegionKey !in p && RegionAKey !in p
    ensures var q := AddAddressKeys(p, a);
      && (RegionKey in q <==> Truthy(a.state))
      && (RegionAKey in q <==> Truthy(a.state))
      && (Truthy(a.state) ==> q[RegionKey] == Str(a.state.value))
      && (Truthy(a.state) && a.stateCode.Some? ==> q[RegionAKey] == Str(a.stateCode.value))
      && (Truthy(a.state) && a.stateCode.None? ==> q[RegionAKey] == Str(""))
  {
  }

  /** `country` and `country_a` come together, exactly when the country is non-empty;
      `country_a` is the upper-cased country code, or "" when there is none, and
      never holds a lower-case ASCII letter. */
  lemma CountryKeys(r: Place)
    ensures var p, a := NominatimToPelias(r).properties, AddressOf(r);
      && (CountryKey in p <==> Truthy(a.country))
      && (CountryAKey in p <==> Truthy(a.country))
      && (Truthy(a.country) ==> p[CountryKey] == Str(a.country.value))
      && (Truthy(a.country) && a.countryCode.Some? ==> p[CountryAKey] == Str(Upper(a.countryCode.value)))
      && (Truthy(a.country) && a.countryCode.None? ==> p[CountryAKey] == Str(""))
      && (Truthy(a.country) ==> forall i :: 0 <= i < |p[CountryAKey].s| ==> !IsLowerAscii(p[CountryAKey].s[i]))
  {
    BasePropertiesKeys(r);
    CountryOver(BaseProperties(r), AddressOf(r));
  }

  /** As `CountryKeys`, for the address keys inserted into any map that holds none of
      them yet. */
  lemma CountryOver(p: map<Key, Value>, a: AddressDetails)
    requires CountryKey !in p && CountryAKey !in p
    ensures var q := AddAddressKeys(p, a);
      && (CountryKey in q <==> Truthy(a.country))
      && (CountryAKey in q <==> Truthy(a.country))
      && (Truthy(a.country) ==> q[CountryKey] == Str(a.country.value))
      && (Truthy(a.country) && a.countryCode.Some? ==> q[CountryAKey] == Str(Upper(a.countryCode.value)))
      && (Truthy(a.country) && a.countryCode.None? ==> q[CountryAKey] == Str(""))
      && (Truthy(a.country) ==> forall i :: 0 <= i < |q[CountryAKey].s| ==> !IsLowerAscii(q[CountryAKey].s[i]))
  {
  }

  /** `id` and `gid` name the same place, and `gid` embeds the emitted `layer`. */
  lemma IdentifiersAgree(r: Place)
    ensures var p := NominatimToPelias(r).properties;
      && IdKey in p && GidKey in p && LayerKey in p
      && p[IdKey].Str? && p[GidKey].Str? && p[LayerKey].Str?
      && StripPrefix(p[IdKey].s, Source + ":") == Some(PlaceIdText(r))
      && ParseGid(p[GidKey].s) == Some((p[LayerKey].s, PlaceIdText(r)))
  {
    AlwaysPresent(r);
    GidRoundTrip(LayerOf(r), PlaceIdText(r));
  }

  /** The name rule restated over the keys of any properties map that carries it. */
  lemma NameFromKeys(p: map<Key, Value>, houseNumber: Option<string>, road: Option<string>, labelText: string)
    requires NameKey in p && LabelKey in p && p[LabelKey] == Str(labelText)
    requires HouseNumberKey in p <==> Truthy(houseNumber)
    requires Truthy(houseNumber) ==> p[HouseNumberKey] == Str(houseNumber.value)
    requires StreetKey in p <==> Truthy(road)
    requires Truthy(road) ==> p[StreetKey] == Str(road.value)
    requires Truthy(houseNumber) && Truthy(road) ==> p[NameKey] == Str(houseNumber.value + " " + road.value)
    requires Truthy(houseNumber) && !Truthy(road) ==> p[NameKey] == Str(houseNumber.value)
    requires !Truthy(houseNumber) && Truthy(road) ==> p[NameKey] == Str(road.value)
    requires !Truthy(houseNumber) && !Truthy(road) ==> p[NameKey] == Str(labelText)
    ensures HouseNumberKey in p && StreetKey in p ==>
      p[NameKey].Str? && p[HouseNumberKey].Str? && p[StreetKey].Str?
      && p[NameKey].s == p[HouseNumberKey].s + " " + p[StreetKey].s
    ensures HouseNumberKey in p && StreetKey !in p ==> p[NameKey] == p[HouseNumberKey]
    ensures HouseNumberKey !in p && StreetKey in p ==> p[NameKey] == p[StreetKey]
    ensures HouseNumberKey !in p && StreetKey !in p ==> p[NameKey] == p[LabelKey]
  {
  }

  /** The name agrees with the emitted address keys: house number and street joined
      by a space, whichever of them is present, else the label. */
  lemma NameAgreesWithKeys(r: Place)
    ensures var p := NominatimToPelias(r).properties;
      && NameKey in p && LabelKey in p
      && (HouseNumberKey in p && StreetKey in p ==>
            p[NameKey].Str? && p[HouseNumberKey].Str? && p[StreetKey].Str?
            && p[NameKey].s == p[HouseNumberKey].s + " " + p[StreetKey].s)
      && (HouseNumberKey in p && StreetKey !in p ==> p[NameKey] == p[HouseNumberKey])
      && (HouseNumberKey !in p && StreetKey in p ==> p[NameKey] == p[StreetKey])
      && (HouseNumberKey !in p && StreetKey !in p ==> p[NameKey] == p[LabelKey])
  {
    var p, a := NominatimToPelias(r).properties, AddressOf(r);
    AlwaysPresent(r);
    HouseNumberAndStreetKeys(r);
    NameCases(r);
    NameFromKeys(p, a.houseNumber, a.road, r.displayName.GetOr(""));
  }
}
