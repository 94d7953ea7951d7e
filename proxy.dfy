/** Request and response shaping of the `/v1/autocomplete` (and `/v1/search`) and
    `/v1/reverse` endpoints: the parameters sent upstream, and the list of features
    built from what comes back. The upstream call itself is a parameter: the
    functions here take its parsed JSON body. */
module Proxy {
  import opened Wrappers
  import opened Nominatim
  import opened Pelias

  /** A query-parameter value as the endpoints write it: text, an integer or a float. */
  datatype ParamValue = TextParam(s: string) | IntParam(n: int) | FloatParam(x: real)

  /** The Minneapolis metro viewbox, west,north,east,south. */
  const MinneapolisViewbox := "-93.8,45.2,-92.8,44.7"

  /** Zoom level of reverse lookups: building / address resolution. */
  const ReverseZoom := 18

  /** A forward search request: `text`, `size` and the optional focus point. */
  datatype SearchQuery = SearchQuery(
    text: string, size: int, focusLat: Option<real>, focusLon: Option<real>)

  /** A reverse lookup request: `point.lat`, `point.lon` and `size`. */
  datatype ReverseQuery = ReverseQuery(lat: real, lon: real, size: int)

  /** The parameters of the upstream `search` call: the request's text and size are
      passed on as the query and the result limit. */
  function SearchParams(q: SearchQuery): (p: map<string, ParamValue>)
    ensures "q" in p && p["q"] == TextParam(q.text)
    ensures "limit" in p && p["limit"] == IntParam(q.size)
  {
    map[
      "q" := TextParam(q.text),
      "format" := TextParam("json"),
      "addressdetails" := IntParam(1),
      "limit" := IntParam(q.size),
      "countrycodes" := TextParam("us"),
      "viewbox" := TextParam(MinneapolisViewbox),
      "bounded" := IntParam(0)]
  }

  /** The parameters of the upstream `reverse` call: the request's point is passed on,
      and no result limit is sent. */
  function ReverseParams(q: ReverseQuery): (p: map<string, ParamValue>)
    ensures "lat" in p && p["lat"] == FloatParam(q.lat)
    ensures "lon" in p && p["lon"] == FloatParam(q.lon)
    ensures "limit" !in p
  {
    map[
      "lat" := FloatParam(q.lat),
      "lon" := FloatParam(q.lon),
      "format" := TextParam("json"),
      "addressdetails" := IntParam(1),
      "zoom" := IntParam(ReverseZoom)]
  }

  /** Every search asks for JSON with address details, at most `size` results, in the
      United States, biased toward (not bounded by) the Minneapolis viewbox; the query
      text is passed on unchanged. */
  lemma SearchParamsContent(q: SearchQuery)
    ensures var p := SearchParams(q);
      && p.Keys == {"q", "format", "addressdetails", "limit", "countrycodes", "viewbox", "bounded"}
      && p["q"] == TextParam(q.text) && p["limit"] == IntParam(q.size)
      && p["format"] == TextParam("json") && p["addressdetails"] == IntParam(1)
      && p["countrycodes"] == TextParam("us") && p["viewbox"] == TextParam(MinneapolisViewbox)
      && p["bounded"] == IntParam(0)
  {
  }

  /** The focus point has no effect on what is sent upstream. */
  lemma SearchIgnoresFocus(q: SearchQuery, lat: Option<real>, lon: Option<real>)
    ensures SearchParams(q.(focusLat := lat, focusLon := lon)) == SearchParams(q)
  {
  }

  /** A reverse lookup asks for JSON with address details at the point given, at
      building zoom; `size` is not sent. */
  lemma ReverseParamsContent(q: ReverseQuery, size: int)
    ensures var p := ReverseParams(q);
      && p.Keys == {"lat", "lon", "format", "addressdetails", "zoom"}
      && p["lat"] == FloatParam(q.lat) && p["lon"] == FloatParam(q.lon)
      && p["format"] == TextParam("json") && p["addressdetails"] == IntParam(1)
      && p["zoom"] == IntParam(18)
      && ReverseParams(q.(size := size)) == p
  {
  }

  /** The features of a search response: one per upstream result, in upstream order. */
  function SearchFeatures(results: seq<Place>): (features: seq<Feature>)
    ensures |features| == |results|
    ensures forall i :: 0 <= i < |results| ==> features[i] == NominatimToPelias(results[i])
  {
    if results == [] then [] else [NominatimToPelias(results[0])] + SearchFeatures(results[1..])
  }

  /** Translating a concatenation translates each part in place: no result moves. */
  lemma {:induction false} SearchFeaturesAppend(xs: seq<Place>, ys: seq<Place>)
    ensures SearchFeatures(xs + ys) == SearchFeatures(xs) + SearchFeatures(ys)
  {
    if xs == [] {
      assert xs + ys == ys;
    } else {
      assert (xs + ys)[0] == xs[0] && (xs + ys)[1..] == xs[1..] + ys;
      SearchFeaturesAppend(xs[1..], ys);
    }
  }

  /** The features of a reverse response: the one result, when it is a non-empty object
      with a `place_id`, and nothing otherwise. */
  function ReverseFeatures(result: Place): (features: seq<Feature>)
    ensures |features| <= 1
    ensures features == [] <==> result.placeId.None?
    ensures features != [] ==> features[0] == NominatimToPelias(result)
  {
    var keys := Keys(result);
    if keys != {} && "place_id" in keys then [NominatimToPelias(result)] else []
  }
}
