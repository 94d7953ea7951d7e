# Nominatim-to-Pelias translation, modelled in Dafny

The proxy in `backend/nominatim_proxy.py` answers Pelias-style geocoding requests
(`/v1/autocomplete`, `/v1/search`, `/v1/reverse`) by querying Nominatim and rewriting
each Nominatim result as a Pelias GeoJSON Feature. This project models the rewriting:

- `nominatim_to_pelias`: layer classification (first matching rule wins: address,
  street, locality, region, venue), the display `name`, the namespaced `id` and
  `gid`, and the projection and renaming of the optional address fields;
- the upstream parameters the search and reverse endpoints send;
- the feature lists the endpoints build from the upstream answer: one feature per
  search result in order, and zero or one for a reverse lookup.

Modules, one per concern of the source file:

| file | module | what |
|---|---|---|
| wrappers.dfy | `Wrappers` | `Option`, with `GetOr` for Python's `dict.get(key, default)` |
| text.dfy | `Text` | `" ".join`, ASCII `str.upper`, splitting at the first `:` |
| nominatim.dfy | `Nominatim` | the upstream result record, its key set, Python truthiness and `or` |
| pelias.dfy | `Pelias` | layers, property keys, `NominatimToPelias` and its properties |
| proxy.dfy | `Proxy` | upstream parameters and the search / reverse feature lists |
| examples.dfy | `Examples` | a Minneapolis address and an empty reverse answer, worked through |

Modelling choices:

- A Nominatim result is an untyped JSON object. `Nominatim.Place` has one `Option`
  field per key the translator reads (`Some` when the key is present, `None` when
  absent) and a set `others` naming the keys it never reads. That set is what makes
  the reverse endpoint's `if nominatim_result and "place_id" in nominatim_result`
  test exact: a non-empty object without `place_id` yields no feature.
- `address.get(k)` used as a condition is `Truthy`: present and non-empty.
  `a or b or c` is `Or`, which returns the first truthy operand.
- `lat` and `lon` are carried as the numbers `float()` yields (`real`).
  `importance` is copied without conversion; the JSON number is carried as a `real`.
  `place_id` is carried as the text the f-string renders for it.
- The `properties` dict is a `map<Key, Value>`. `Key` lists the sixteen Pelias
  property names, and `KeyNameRoundTrip` shows their JSON names are distinct.
  `Value` is text, or the number stored under `confidence`. The address keys are
  inserted by a chain of guarded insertions (`PutIf`) in the order of the source.
  `BaseProperties`, `PutIf`, `AddAddressKeys` and `Properties` only build maps; the
  lemmas `BasePropertiesKeys`, `PutIfSets`, `AddAddressKeysAddsOnly` and
  `PropertiesKeys` state what they build, and the per-key lemmas state the values.
- The translation is a pure function of its input, so it is modelled as functions.
  The source's local list `name_parts` and its key-by-key filling of `properties`
  are folded into those functions. The translation is deterministic because Dafny
  functions are.

Two keys are exceptions to the rule that an absent address field leaves no key
behind. `region_a` is emitted as `""` when the state is non-empty but `state_code`
is missing. `country_a` is emitted as `""` when the country is non-empty but
`country_code` is missing (backend/nominatim_proxy.py lines 122 and 127). The model
follows the code here, and `RegionKeys` and `CountryKeys` state it.

## Model

| member | source | states |
|---|---|---|
| `Text.Join` | backend/nominatim_proxy.py:97 | `" ".join(parts)`: `""` for no parts; otherwise the result begins with the first part and is as long as all parts plus one separator per gap |
| `Text.JoinSnoc` | backend/nominatim_proxy.py:97 | joining one more part appends one separator and that part, so the parts appear in order with exactly one separator between neighbours |
| `Text.Upper` | backend/nominatim_proxy.py:127 | `upper()` keeps the length and maps each character through ASCII upper-casing |
| `Text.UpperChar` | backend/nominatim_proxy.py:127 | one character upper-cased: never a lower-case ASCII letter, unchanged exactly when it was not one |
| `Text.UpperIdempotent` | backend/nominatim_proxy.py:127 | upper-casing twice equals upper-casing once, and the result has no lower-case ASCII letter |
| `Text.SplitFirst` | backend/nominatim_proxy.py:102 | not code of the source: the inverse of the `:`-joined `gid` format of line 102. The input is `before + sep + after` with no separator in `before`; `None` exactly when the separator is absent |
| `Text.SplitFirstJoined` | backend/nominatim_proxy.py:102 | the inverse applied to the `gid` format of line 102: splitting `before + ":" + after`, with no `:` in `before`, gives back `before` and `after` |
| `Text.StripPrefix` | backend/nominatim_proxy.py:101 | not code of the source: the inverse of the `nominatim:` prefix of line 101. Removing a prefix succeeds exactly when the text starts with it, and prefix plus remainder is the text |
| `Nominatim.Truthy` | backend/nominatim_proxy.py:79 | `if address.get(k)` on a string lookup: false exactly for a missing key and for `""` |
| `Nominatim.AddressOf` | backend/nominatim_proxy.py:69 | `result.get("address", {})`: the address object when present; otherwise `{}`, in which no lookup is truthy |
| `Nominatim.Or` | backend/nominatim_proxy.py:115-116 | Python's `a or b` on two lookups is truthy exactly when one of them is |
| `Nominatim.Keys` | backend/nominatim_proxy.py:233 | `place_id` is among the result object's keys exactly when the result carries a place id |
| `Pelias.Classify` | backend/nominatim_proxy.py:78-88 | the layer's own rule holds, and no layer with a higher priority has a rule that holds |
| `Pelias.ClassifyUnique` | backend/nominatim_proxy.py:79-88 | those two properties determine the layer: any layer that has both is the one computed |
| `Pelias.HouseNumberWins` | backend/nominatim_proxy.py:79-80 | a non-empty house number gives layer `address`, whatever `class` and `type` say |
| `Pelias.LayerOf` | backend/nominatim_proxy.py:75-88 | the layer of a result, with `type` and `class` read as `""` when missing: its rule holds and no higher-ranked rule does |
| `Pelias.NameParts` | backend/nominatim_proxy.py:91-95 | `name_parts` has one entry per truthy field among house number and road, none empty; it is empty exactly when both house number and road are falsy; the house number comes first and the road last |
| `Pelias.PlaceName` | backend/nominatim_proxy.py:97 | a truthy house number or road never gives an empty name, and the name then begins with the house number, or with the road when there is none |
| `Pelias.NameCases` | backend/nominatim_proxy.py:90-97 | name is `house_number + " " + road` when both are non-empty, the one non-empty field otherwise, else `display_name` when present, else `""` |
| `Pelias.PlaceIdText` | backend/nominatim_proxy.py:72 | `place_id` is the result's place id when the key is present, else `""` |
| `Pelias.Id` | backend/nominatim_proxy.py:101 | stripping the `nominatim:` namespace from `id` gives the place id back |
| `Pelias.Gid` | backend/nominatim_proxy.py:102 | `gid` is the `id` of `layer:place_id`: the same namespace, with the layer in front of the place id |
| `Pelias.GidRoundTrip` | backend/nominatim_proxy.py:102 | a `gid` parses back into its layer name and place id, even when the place id contains `:` |
| `Pelias.KeyNameRoundTrip` | backend/nominatim_proxy.py:100-127 | a check on the representation, not behaviour of these lines: each of the sixteen keys written here reads back from its JSON name, so no two share a name and `map<Key, Value>` stands for the dict |
| `Pelias.BasePropertiesKeys` | backend/nominatim_proxy.py:100-108 | `BaseProperties`, the dict literal: exactly the seven keys `id`, `gid`, `layer`, `source`, `name`, `label` and `confidence`, none of them an address key |
| `Pelias.PutIfSets` | backend/nominatim_proxy.py:111-127 | `PutIf`, one guarded `properties[k] = v`: sets `k` to `v` when the condition holds, otherwise leaves `k` as it was; every other key keeps its presence and value |
| `Pelias.AddAddressKeysAddsOnly` | backend/nominatim_proxy.py:110-127 | `AddAddressKeys`, the chain of guarded insertions: removes no key and adds only address keys |
| `Pelias.AddAddressKeysKeeps` | backend/nominatim_proxy.py:110-127 | inserting the address keys never adds, removes or overwrites a base key |
| `Pelias.PropertiesKeys` | backend/nominatim_proxy.py:100-127 | `Properties`, the whole dict: every base key is present, and every other key present is an address key |
| `Pelias.NoAddressOnlyBaseKeys` | backend/nominatim_proxy.py:69-127 | a result with no `address` key yields exactly the seven base keys |
| `Pelias.NominatimToPelias` | backend/nominatim_proxy.py:49-136 | the Feature's Point has exactly two coordinates; its properties are `Properties`, specified by the key lemmas in this table |
| `Pelias.AlwaysPresent` | backend/nominatim_proxy.py:72-108 | every feature has `id = "nominatim:" + place_id`, `gid = "nominatim:" + layer + ":" + place_id`, `layer`, `source = "nominatim"`, `name`, `label` = `display_name` when present, else `""`, and `confidence` = `importance` when the key is present (even 0), else 0.5 |
| `Pelias.HouseNumberAndStreetKeys` | backend/nominatim_proxy.py:111-114 | `housenumber` and `street` are present exactly when `house_number` and `road` are non-empty, and hold those values; otherwise the key is absent |
| `Pelias.CountyAndPostalCodeKeys` | backend/nominatim_proxy.py:117-124 | `county` and `postalcode` are present exactly when `county` and `postcode` are non-empty, and hold those values; otherwise the key is absent |
| `Pelias.LocalityFromFirstNonEmpty` | backend/nominatim_proxy.py:115-116 | `locality` is present exactly when city, town or village is non-empty, and holds the first non-empty one in that order |
| `Pelias.RegionKeys` | backend/nominatim_proxy.py:119-122 | `region` and `region_a` are present exactly when `state` is non-empty; `region_a` is `state_code`, or `""` when that is missing |
| `Pelias.CountryKeys` | backend/nominatim_proxy.py:125-127 | `country` and `country_a` are present exactly when `country` is non-empty; `country_a` is the upper-cased `country_code` or `""`, and has no lower-case ASCII letter |
| `Pelias.GeometryIsLonLat` | backend/nominatim_proxy.py:129-135 | the Point's coordinates are `[lon, lat]`, longitude first, with 0 for a missing coordinate (the defaults of lines 70-71) |
| `Pelias.IdentifiersAgree` | backend/nominatim_proxy.py:101-103 | `id` and `gid` carry the same place id, and `gid` embeds the `layer` the feature reports |
| `Pelias.NameAgreesWithKeys` | backend/nominatim_proxy.py:91-114 | `name` is `housenumber + " " + street` when both keys are present, the one present otherwise, else equal to `label` |
| `Pelias.NameFromKeys` | backend/nominatim_proxy.py:91-114 | over any properties map that follows the name rule, the name is determined by the `housenumber`, `street` and `label` keys |
| `Proxy.SearchParams` | backend/nominatim_proxy.py:168-176 | the request's text and size are sent as `q` and `limit` |
| `Proxy.SearchParamsContent` | backend/nominatim_proxy.py:168-176 | search sends exactly `q`, `format=json`, `addressdetails=1`, `limit=size`, `countrycodes=us`, the Minneapolis viewbox and `bounded=0` |
| `Proxy.SearchIgnoresFocus` | backend/nominatim_proxy.py:158-176 | the focus point does not change the search parameters |
| `Proxy.ReverseParams` | backend/nominatim_proxy.py:221-227 | the request's point is sent as `lat` and `lon`, and no `limit` is sent |
| `Proxy.ReverseParamsContent` | backend/nominatim_proxy.py:212-227 | reverse sends exactly `lat`, `lon`, `format=json`, `addressdetails=1` and `zoom=18`, and `size` does not change them |
| `Proxy.SearchFeatures` | backend/nominatim_proxy.py:182 | one feature per upstream result: same length, and position `i` holds the translation of result `i` |
| `Proxy.SearchFeaturesAppend` | backend/nominatim_proxy.py:182 | translating a concatenation is the concatenation of the translations, so no result changes place |
| `Proxy.ReverseFeatures` | backend/nominatim_proxy.py:232-237 | at most one feature; none exactly when the result has no `place_id`; otherwise its translation |
| `Examples.MainStreetIsAnAddress` | backend/nominatim_proxy.py:79-102 | a house with class `building` and a house number is layer `address`, with `gid` `nominatim:address:1` |
| `Examples.MainStreetNameAndConfidence` | backend/nominatim_proxy.py:91-107 | the same house is named `123 Main St` and has confidence 0.8 |
| `Examples.MainStreetPointAndRegion` | backend/nominatim_proxy.py:119-135 | the same house has coordinates `[-93.26, 44.98]`, `country_a` `US`, `region_a` `""` and no `county` key |
| `Examples.ReverseWithoutPlace` | backend/nominatim_proxy.py:233-237 | a non-empty reverse answer holding only an `error` key yields no features |

## Left out

- Rate limiting (`rate_limit` and `last_request_time`) is not modelled. It reads and sleeps on the wall clock and is shared by concurrent requests.
- The upstream HTTP call (`query_nominatim`) is not modelled: its timeout, User-Agent header and `raise_for_status`. The functions in `Proxy` take its parsed JSON body as a parameter.
- Turning exceptions into an HTTP 500 `{"error": ...}` response is not modelled, and neither is the `FeatureCollection` envelope (`"type"` and `"bbox": null`) around the feature list.
- FastAPI routing, query-parameter aliases and defaults, the alias endpoints (`/search`, `/autocomplete`, `/reverse`, `/v1/search`), `/health`, CORS and the uvicorn startup are framework plumbing and are not modelled.
- `float()` parsing of `lat` and `lon` is not modelled. The model carries the parsed number, so a malformed string, which makes the source raise, has no counterpart.
- Values of unexpected JSON types are not modelled. An address field must be a string. A non-object `address` such as `null` makes the source raise. A non-list search answer is iterated as a dict by the source.
- `Text.Upper` covers ASCII only: Python's `str.upper()` also upper-cases non-ASCII letters and can lengthen a string (`"ß"` becomes `"SS"`). Country codes from Nominatim are ASCII.
- `Pelias.AlwaysPresent`: `confidence` is carried as a number. A JSON `null` or a non-numeric `importance`, which the source copies unchanged, is not represented.
- The order of keys in the emitted JSON objects is not modelled: maps are unordered.
