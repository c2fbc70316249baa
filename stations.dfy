/**
 * `get_all_weather_geojson` of app.py: poll the weather stations 1..43 one
 * after the other, turn every station whose first upstream record carries a
 * usable position into a GeoJSON Point feature with a fixed set of eleven
 * properties, skip every station whose request or record fails, and wrap the
 * features in a FeatureCollection.
 *
 * The upstream is a function from the request URL to the response it gives;
 * Python's `float(...)` and the `str(...)` of floats, lists and dicts are
 * supplied as functions too (`Runtime`), because they are floating-point
 * parsing and printing the model does not reproduce.
 */
module Stations {
  import opened Wrappers
  import opened Json
  import Decimal

  // ---------------------------------------------------------------------------
  // Configuration and upstream

  const BaseApiUrl := "https://<dominio>/api/getInstantaneas.php"
  const ChartPrefix := "https://agrometeo.mendoza.gov.ar/informes/grafico.php?estacion="

  /** `range(1, 44)` as a list. */
  const FirstStation := 1
  const EndStation := 44

  /** The ids `range(lo, hi)` yields, in order. */
  function Range(lo: int, hi: int): (ids: seq<int>)
    ensures |ids| == if lo < hi then hi - lo else 0
    ensures forall i | 0 <= i < |ids| :: ids[i] == lo + i
    decreases hi - lo
  {
    if lo < hi then [lo] + Range(lo + 1, hi) else []
  }

  function StationIds(): seq<int> {
    Range(FirstStation, EndStation)
  }

  /** The URL requested for one station: `f"{BASE_API_URL}?estacion={estacion}"`. */
  function ApiUrl(station: int): string {
    BaseApiUrl + "?estacion=" + Decimal.IntString(station)
  }

  /**
   * What `requests.get` gives back: either it raises (`ConnectionFailed`), or
   * there is a status code and a body that `response.json()` either decodes
   * (`Some`) or fails on (`None`).
   */
  datatype Response = ConnectionFailed | Response(status: int, body: Option<Value>)

  /** `float(v)` (which raises on a value it cannot convert) and `str(v)` for floats, lists and dicts. */
  datatype Runtime = Runtime(toFloat: Value -> Option<real>, show: Value -> string)

  // ---------------------------------------------------------------------------
  // Features

  datatype Point = Point(lng: real, lat: real)

  /** A GeoJSON feature: a Point geometry and its property map. */
  datatype Feature = Feature(geometry: Point, properties: map<string, Value>)

  /** The eleven property names every emitted feature carries. */
  const PropertyNames: set<string> := {
    "Nombre", "Fecha", "Temperatura Aire", "Humedad", "Punto de Rocío",
    "Velocidad Viento", "Dirección del Viento", "Atraso",
    "Máximo Atraso Permitido", "Web Disponible", "URL Gráfico"
  }

  /** `f"{data.get(key, 'N/A')} {unit}"`: the field as `str` prints it, or `N/A`, then the unit. */
  function WithUnit(data: map<string, Value>, key: string, unit: string, rt: Runtime): string {
    Display(Get(data, key, Str("N/A")), rt.show) + " " + unit
  }

  function ChartUrl(station: int): string {
    ChartPrefix + Decimal.IntString(station)
  }

  /** The property map built from the first upstream record of `station` (app.py lines 31-43). */
  function Properties(station: int, data: map<string, Value>, rt: Runtime): map<string, Value> {
    map[
      "Nombre" := Get(data, "Nombre", Str("N/A")),
      "Fecha" := Get(data, "fecha", Str("N/A")),
      "Temperatura Aire" := Str(WithUnit(data, "tempAire", "°C", rt)),
      "Humedad" := Str(WithUnit(data, "humedad", "%", rt)),
      "Punto de Rocío" := Str(WithUnit(data, "puntoRocio", "°C", rt)),
      "Velocidad Viento" := Str(WithUnit(data, "velocidadViento", "m/s", rt)),
      "Dirección del Viento" := Get(data, "direccionVientoTexto", Str("N/A")),
      "Atraso" := Get(data, "atraso", Str("N/A")),
      "Máximo Atraso Permitido" := Get(data, "atraso_max", Str("N/A")),
      "Web Disponible" := Str(if EqualsOne(Get(data, "web", Int(0))) then "Sí" else "No"),
      "URL Gráfico" := Str(ChartUrl(station))
    ]
  }

  /**
   * `[float(data["lng"]), float(data["lat"])]`: `None` where the key is
   * missing or `float` raises.
   */
  function Coordinates(data: map<string, Value>, rt: Runtime): Option<Point> {
    if "lng" in data && "lat" in data
       && rt.toFloat(data["lng"]).Some? && rt.toFloat(data["lat"]).Some?
    then Some(Point(rt.toFloat(data["lng"]).value, rt.toFloat(data["lat"]).value))
    else None
  }

  /** The feature literal of app.py lines 25-44, or `None` where building it raises. */
  function Normalize(station: int, data: map<string, Value>, rt: Runtime): (r: Option<Feature>)
    ensures r.Some? <==> Coordinates(data, rt).Some?
    ensures r.Some? ==> r.value.properties.Keys == PropertyNames
  {
    match Coordinates(data, rt)
    case None => None
    case Some(p) => Some(Feature(p, Properties(station, data, rt)))
  }

  /**
   * `response.json()[0]` when the status is 200: only a JSON array whose
   * first element is an object gets through; an empty array, an object, a
   * string or a number raises before or at `data["lng"]`.
   */
  function FirstRecord(resp: Response): Option<map<string, Value>> {
    if resp.Response? && resp.status == 200 && resp.body.Some?
       && resp.body.value.Arr? && |resp.body.value.items| > 0
       && resp.body.value.items[0].Obj?
    then Some(resp.body.value.items[0].fields)
    else None
  }

  /** The body of the `try` block for one station: its feature, or `None` when it is skipped. */
  function Station(station: int, resp: Response, rt: Runtime): Option<Feature> {
    match FirstRecord(resp)
    case None => None
    case Some(data) => Normalize(station, data, rt)
  }

  /**
   * A station yields a feature exactly when the status is 200, the body
   * decodes to a non-empty array whose first element is an object, and that
   * object's `lng` and `lat` are present and convert with `float`.
   */
  lemma StationSucceeds(station: int, resp: Response, rt: Runtime)
    ensures Station(station, resp, rt).Some? <==>
      && resp.Response? && resp.status == 200
      && resp.body.Some? && resp.body.value.Arr? && |resp.body.value.items| > 0
      && resp.body.value.items[0].Obj?
      && "lng" in resp.body.value.items[0].fields && "lat" in resp.body.value.items[0].fields
      && rt.toFloat(resp.body.value.items[0].fields["lng"]).Some?
      && rt.toFloat(resp.body.value.items[0].fields["lat"]).Some?
  {
  }

  // ---------------------------------------------------------------------------
  // The aggregation, as a specification

  /** The features that `outcome` yields for `ids`, in the order of `ids`, skipping the ids it yields none for. */
  function Gather(ids: seq<int>, outcome: int -> Option<Feature>): seq<Feature> {
    if ids == [] then []
    else
      var rest := Gather(ids[1..], outcome);
      match outcome(ids[0])
      case Some(f) => [f] + rest
      case None => rest
  }

  /** The ids in `ids` for which `outcome` yields a feature, in order. */
  function Chosen(ids: seq<int>, outcome: int -> Option<Feature>): seq<int> {
    if ids == [] then []
    else
      var rest := Chosen(ids[1..], outcome);
      if outcome(ids[0]).Some? then [ids[0]] + rest else rest
  }

  /** What each station turns into, given the upstream's answers. */
  function Outcomes(fetch: string -> Response, rt: Runtime): int -> Option<Feature> {
    k => Station(k, fetch(ApiUrl(k)), rt)
  }

  /** The features of the stations in `ids` that succeed, in the order of `ids`. */
  function Collect(ids: seq<int>, fetch: string -> Response, rt: Runtime): seq<Feature> {
    Gather(ids, Outcomes(fetch, rt))
  }

  /** The ids in `ids` whose station yields a feature, in order. */
  function Kept(ids: seq<int>, fetch: string -> Response, rt: Runtime): seq<int> {
    Chosen(ids, Outcomes(fetch, rt))
  }

  /** The dict `{"type": "Feature", "geometry": {...}, "properties": {...}}`. */
  function FeatureJson(f: Feature): Value {
    Obj(map[
      "type" := Str("Feature"),
      "geometry" := Obj(map[
        "type" := Str("Point"),
        "coordinates" := Arr([Float(f.geometry.lng), Float(f.geometry.lat)])
      ]),
      "properties" := Obj(f.properties)
    ])
  }

  /** The dict `{"type": "FeatureCollection", "features": features}`. */
  function CollectionJson(features: seq<Feature>): Value {
    Obj(map[
      "type" := Str("FeatureCollection"),
      "features" := Arr(seq(|features|, i requires 0 <= i < |features| => FeatureJson(features[i])))
    ])
  }

  // ---------------------------------------------------------------------------
  // The endpoint

  /**
   * The loop of `get_all_weather_geojson`: for each station in order, request
   * it, and append its feature when every step succeeds.
   */
  method GetAllWeatherGeojson(fetch: string -> Response, rt: Runtime) returns (geojson: Value)
    ensures geojson == CollectionJson(Collect(StationIds(), fetch, rt))
  {
    var features: seq<Feature> := [];
    for estacion := FirstStation to EndStation
      invariant features == Collect(Range(FirstStation, estacion), fetch, rt)
    {
      var response := fetch(ApiUrl(estacion));
      if response.Response? && response.status == 200 {
        match response.body {
          case Some(Arr(items)) =>
            if |items| > 0 && items[0].Obj? {
              var data := items[0].fields;
              var point := Coordinates(data, rt);
              if point.Some? {
                var feature := Feature(point.value, Properties(estacion, data, rt));
                features := features + [feature];
              }
            }
          case _ =>
        }
      }
      CollectStep(FirstStation, estacion, fetch, rt);
    }
    geojson := CollectionJson(features);
  }

  // ---------------------------------------------------------------------------
  // Properties of the aggregation

  /** Gathering over two consecutive lists of ids is gathering over each in turn. */
  lemma {:induction false} GatherAppend(a: seq<int>, b: seq<int>, outcome: int -> Option<Feature>)
    ensures Gather(a + b, outcome) == Gather(a, outcome) + Gather(b, outcome)
  {
    if a == [] {
      assert a + b == b;
    } else {
      assert (a + b)[1..] == a[1..] + b;
      GatherAppend(a[1..], b, outcome);
    }
  }

  /** The gathered features are, position by position, the outcomes of the chosen ids. */
  lemma {:induction false} GatherChosen(ids: seq<int>, outcome: int -> Option<Feature>)
    ensures |Gather(ids, outcome)| == |Chosen(ids, outcome)| <= |ids|
    ensures forall i | 0 <= i < |Chosen(ids, outcome)| ::
      outcome(Chosen(ids, outcome)[i]) == Some(Gather(ids, outcome)[i])
  {
    if ids != [] {
      GatherChosen(ids[1..], outcome);
    }
  }

  /** An id is chosen exactly when it is in `ids` and its outcome is a feature. */
  lemma {:induction false} ChosenMembers(ids: seq<int>, outcome: int -> Option<Feature>)
    ensures forall k :: k in Chosen(ids, outcome) <==> k in ids && outcome(k).Some?
  {
    if ids != [] {
      ChosenMembers(ids[1..], outcome);
      assert forall k :: k in ids <==> k == ids[0] || k in ids[1..];
    }
  }

  /** Over strictly increasing ids, the chosen ids are strictly increasing too. */
  lemma {:induction false} ChosenAscending(ids: seq<int>, outcome: int -> Option<Feature>)
    requires forall i, j | 0 <= i < j < |ids| :: ids[i] < ids[j]
    ensures forall i, j | 0 <= i < j < |Chosen(ids, outcome)| :: Chosen(ids, outcome)[i] < Chosen(ids, outcome)[j]
  {
    if ids != [] && outcome(ids[0]).Some? {
      var chosen, tail := Chosen(ids, outcome), ids[1..];
      var rest := Chosen(tail, outcome);
      ChosenAscending(tail, outcome);
      ChosenMembers(tail, outcome);
      assert chosen == [ids[0]] + rest;
      forall k | k in rest ensures ids[0] < k {
        var j :| 0 <= j < |tail| && tail[j] == k;
        assert ids[0] < ids[j + 1];
      }
      forall i, j | 0 <= i < j < |chosen| ensures chosen[i] < chosen[j] {
        assert chosen[j] == rest[j - 1];
        if i == 0 {
          assert rest[j - 1] in rest;
        } else {
          assert chosen[i] == rest[i - 1];
        }
      }
    } else if ids != [] {
      ChosenAscending(ids[1..], outcome);
    }
  }

  /** Ids whose outcome is none contribute nothing. */
  lemma {:induction false} GatherNone(ids: seq<int>, outcome: int -> Option<Feature>)
    requires forall i | 0 <= i < |ids| :: outcome(ids[i]).None?
    ensures Gather(ids, outcome) == []
  {
    if ids != [] {
      GatherNone(ids[1..], outcome);
    }
  }

  /** Gathering depends on `outcome` only at the ids in `ids`. */
  lemma {:induction false} GatherAgrees(ids: seq<int>, f: int -> Option<Feature>, g: int -> Option<Feature>)
    requires forall i | 0 <= i < |ids| :: f(ids[i]) == g(ids[i])
    ensures Gather(ids, f) == Gather(ids, g)
  {
    if ids != [] {
      GatherAgrees(ids[1..], f, g);
    }
  }

  /** An id whose outcome becomes none drops out, and nothing else changes. */
  lemma {:induction false} GatherWithout(ids: seq<int>, j: int, f: int -> Option<Feature>, g: int -> Option<Feature>)
    requires forall k | k != j :: g(k) == f(k)
    requires g(j).None?
    ensures Gather(ids, g) == Gather(Without(ids, j), f)
  {
    if ids != [] {
      GatherWithout(ids[1..], j, f, g);
      if ids[0] != j {
        assert Without(ids, j)[1..] == Without(ids[1..], j);
      }
    }
  }

  /** Collecting over two consecutive lists of ids is collecting over each in turn. */
  lemma CollectAppend(a: seq<int>, b: seq<int>, fetch: string -> Response, rt: Runtime)
    ensures Collect(a + b, fetch, rt) == Collect(a, fetch, rt) + Collect(b, fetch, rt)
  {
    GatherAppend(a, b, Outcomes(fetch, rt));
  }

  /** One more turn of the loop: the features so far, plus the new station's feature if it has one. */
  lemma CollectStep(lo: int, hi: int, fetch: string -> Response, rt: Runtime)
    requires lo <= hi
    ensures Collect(Range(lo, hi + 1), fetch, rt) ==
      Collect(Range(lo, hi), fetch, rt) +
      (match Station(hi, fetch(ApiUrl(hi)), rt) case Some(f) => [f] case None => [])
  {
    assert Range(lo, hi + 1) == Range(lo, hi) + [hi];
    GatherAppend(Range(lo, hi), [hi], Outcomes(fetch, rt));
  }

  /** The polled ids are exactly 1 through 43. */
  lemma StationIdsMembers()
    ensures forall k :: k in StationIds() <==> 1 <= k <= 43
  {
    forall k ensures k in StationIds() <==> 1 <= k <= 43 {
      if 1 <= k <= 43 {
        assert StationIds()[k - 1] == k;
      }
    }
  }

  /**
   * The endpoint's answer: a FeatureCollection of at most 43 features, one per
   * kept station, listed in strictly ascending station order, each exactly
   * the feature its own station's response yields.
   */
  lemma EndpointOutput(fetch: string -> Response, rt: Runtime)
    ensures var features := Collect(StationIds(), fetch, rt);
      var kept := Kept(StationIds(), fetch, rt);
      && |features| == |kept| <= 43
      && (forall i, j | 0 <= i < j < |kept| :: kept[i] < kept[j])
      && (forall k :: k in kept <==> 1 <= k <= 43 && Station(k, fetch(ApiUrl(k)), rt).Some?)
      && (forall i | 0 <= i < |kept| :: Station(kept[i], fetch(ApiUrl(kept[i])), rt) == Some(features[i]))
  {
    var ids, outcome := StationIds(), Outcomes(fetch, rt);
    ChosenAscending(ids, outcome);
    ChosenMembers(ids, outcome);
    GatherChosen(ids, outcome);
    StationIdsMembers();
  }

  /** Distinct stations are requested at distinct URLs. */
  lemma ApiUrlInjective(a: int, b: int)
    requires ApiUrl(a) == ApiUrl(b)
    ensures a == b
  {
    Decimal.PrefixedIntStringInjective(BaseApiUrl + "?estacion=", a, b);
  }

  /** Distinct stations get distinct chart URLs, so the chart URL identifies the station. */
  lemma ChartUrlInjective(a: int, b: int)
    requires ChartUrl(a) == ChartUrl(b)
    ensures a == b
  {
    Decimal.PrefixedIntStringInjective(ChartPrefix, a, b);
  }

  /** `ids` without `j`. */
  function Without(ids: seq<int>, j: int): (r: seq<int>)
    ensures forall k :: k in r <==> k in ids && k != j
  {
    if ids == [] then []
    else if ids[0] == j then Without(ids[1..], j)
    else [ids[0]] + Without(ids[1..], j)
  }

  /**
   * Failure isolation: if the upstream for station `j` changes so that the
   * station fails (a connection error, a non-200 status, a bad body or a
   * record without a usable position), and nothing else changes, the output
   * is what it would be had station `j` never been polled; every other
   * station's feature is untouched.
   */
  lemma FailureIsIsolated(ids: seq<int>, j: int, fetch: string -> Response, broken: string -> Response, rt: Runtime)
    requires forall url | url != ApiUrl(j) :: broken(url) == fetch(url)
    requires Station(j, broken(ApiUrl(j)), rt).None?
    ensures Collect(ids, broken, rt) == Collect(Without(ids, j), fetch, rt)
  {
    var f, g := Outcomes(fetch, rt), Outcomes(broken, rt);
    forall k | k != j ensures g(k) == f(k) {
      if ApiUrl(k) == ApiUrl(j) {
        ApiUrlInjective(k, j);
      }
    }
    GatherWithout(ids, j, f, g);
  }

  /** The output depends on the upstream only through the URLs of the polled stations. */
  lemma CollectDependsOnPolledStations(ids: seq<int>, fetch: string -> Response, other: string -> Response, rt: Runtime)
    requires forall k | k in ids :: fetch(ApiUrl(k)) == other(ApiUrl(k))
    ensures Collect(ids, fetch, rt) == Collect(ids, other, rt)
  {
    var f, g := Outcomes(fetch, rt), Outcomes(other, rt);
    forall i | 0 <= i < |ids| ensures f(ids[i]) == g(ids[i]) {
      assert ids[i] in ids;
    }
    GatherAgrees(ids, f, g);
  }

  /** Stations that all fail contribute nothing. */
  lemma AllFailing(ids: seq<int>, fetch: string -> Response, rt: Runtime)
    requires forall k | k in ids :: Station(k, fetch(ApiUrl(k)), rt).None?
    ensures Collect(ids, fetch, rt) == []
  {
    var outcome := Outcomes(fetch, rt);
    forall i | 0 <= i < |ids| ensures outcome(ids[i]).None? {
      assert ids[i] in ids;
    }
    GatherNone(ids, outcome);
  }

  /**
   * Stations 1 and 2 answer with a usable record and stations 3..43 fail:
   * the collection holds exactly two features, for stations 1 and 2 in that
   * order, at the positions their records give.
   */
  lemma TwoGoodStations(fetch: string -> Response, rt: Runtime, f1: Feature, f2: Feature)
    requires Station(1, fetch(ApiUrl(1)), rt) == Some(f1)
    requires Station(2, fetch(ApiUrl(2)), rt) == Some(f2)
    requires forall k | 3 <= k <= 43 :: Station(k, fetch(ApiUrl(k)), rt).None?
    ensures Collect(StationIds(), fetch, rt) == [f1, f2]
  {
    var outcome, rest := Outcomes(fetch, rt), Range(3, 44);
    assert StationIds() == [1, 2] + rest;
    forall i | 0 <= i < |rest| ensures outcome(rest[i]).None? {
      assert 3 <= rest[i] <= 43;
    }
    GatherTwo(1, 2, rest, outcome);
  }

  /** Two ids that yield features, followed by ids that yield none, gather to exactly those two features. */
  lemma GatherTwo(a: int, b: int, rest: seq<int>, outcome: int -> Option<Feature>)
    requires outcome(a).Some? && outcome(b).Some?
    requires forall i | 0 <= i < |rest| :: outcome(rest[i]).None?
    ensures Gather([a, b] + rest, outcome) == [outcome(a).value, outcome(b).value]
  {
    GatherNone(rest, outcome);
    assert ([a, b] + rest)[1..] == [b] + rest;
    assert ([b] + rest)[1..] == rest;
  }

  // ---------------------------------------------------------------------------
  // Properties of one feature

  /**
   * Geometry: a Point at `[lng, lat]`, in that order, converted from the
   * first element of the response array.
   */
  lemma FeatureGeometry(station: int, resp: Response, rt: Runtime)
    requires Station(station, resp, rt).Some?
    ensures var data := resp.body.value.items[0].fields;
      var f := Station(station, resp, rt).value;
      && Some(f.geometry.lng) == rt.toFloat(data["lng"])
      && Some(f.geometry.lat) == rt.toFloat(data["lat"])
      && FeatureJson(f).fields["geometry"].fields["coordinates"]
         == Arr([Float(rt.toFloat(data["lng"]).value), Float(rt.toFloat(data["lat"]).value)])
  {
  }

  /** The five properties copied from the record as they are, each with the upstream field it is read from. */
  const PassThrough: map<string, string> := map[
    "Nombre" := "Nombre",
    "Fecha" := "fecha",
    "Dirección del Viento" := "direccionVientoTexto",
    "Atraso" := "atraso",
    "Máximo Atraso Permitido" := "atraso_max"
  ]

  /**
   * Optional fields: a pass-through property is the upstream value when the
   * field is present and the string `N/A` when it is absent; it is never
   * omitted.
   */
  lemma MissingFieldsBecomeNA(station: int, data: map<string, Value>, rt: Runtime, name: string)
    requires name in PassThrough
    ensures var props := Properties(station, data, rt);
      && props.Keys == PropertyNames
      && (PassThrough[name] !in data ==> props[name] == Str("N/A"))
      && (PassThrough[name] in data ==> props[name] == data[PassThrough[name]])
  {
    var props := Properties(station, data, rt);
    if name == "Nombre" {
      assert props[name] == Get(data, "Nombre", Str("N/A"));
    } else if name == "Fecha" {
      assert props[name] == Get(data, "fecha", Str("N/A"));
    } else if name == "Dirección del Viento" {
      assert props[name] == Get(data, "direccionVientoTexto", Str("N/A"));
    } else if name == "Atraso" {
      assert props[name] == Get(data, "atraso", Str("N/A"));
    } else {
      assert props[name] == Get(data, "atraso_max", Str("N/A"));
    }
  }

  /** The four upstream readings that are shown with a unit. */
  const Readings := ["tempAire", "humedad", "puntoRocio", "velocidadViento"]

  /**
   * Readings with units: each is the value's `str` (or `N/A` when missing)
   * followed by a space and the unit, so a missing temperature reads
   * `N/A °C`.
   */
  lemma ReadingCarriesUnit(station: int, data: map<string, Value>, rt: Runtime, key: string)
    requires key in Readings
    ensures key !in data ==> Properties(station, data, rt)[ReadingName(key)] == Str("N/A " + ReadingUnit(key))
    ensures key in data ==>
      Properties(station, data, rt)[ReadingName(key)] == Str(Display(data[key], rt.show) + " " + ReadingUnit(key))
    ensures key in data && data[key].Int? ==>
      Properties(station, data, rt)[ReadingName(key)] == Str(Decimal.IntString(data[key].i) + " " + ReadingUnit(key))
    ensures key in data && data[key].Str? ==>
      Properties(station, data, rt)[ReadingName(key)] == Str(data[key].s + " " + ReadingUnit(key))
  {
    var props := Properties(station, data, rt);
    if key == "tempAire" {
      assert props[ReadingName(key)] == Str(WithUnit(data, "tempAire", "°C", rt));
    } else if key == "humedad" {
      assert props[ReadingName(key)] == Str(WithUnit(data, "humedad", "%", rt));
    } else if key == "puntoRocio" {
      assert props[ReadingName(key)] == Str(WithUnit(data, "puntoRocio", "°C", rt));
    } else {
      assert props[ReadingName(key)] == Str(WithUnit(data, "velocidadViento", "m/s", rt));
    }
  }

  /** The property under which an upstream reading appears. */
  function ReadingName(key: string): string {
    if key == "tempAire" then "Temperatura Aire"
    else if key == "humedad" then "Humedad"
    else if key == "puntoRocio" then "Punto de Rocío"
    else "Velocidad Viento"
  }

  function ReadingUnit(key: string): string {
    if key == "tempAire" || key == "puntoRocio" then "°C"
    else if key == "humedad" then "%"
    else "m/s"
  }

  /**
   * `Web Disponible` is `Sí` exactly when `web` is present and equals 1 in
   * Python's sense (`1`, `1.0` or `True`), and `No` otherwise, a missing
   * field included.
   */
  lemma WebFlag(station: int, data: map<string, Value>, rt: Runtime)
    ensures var flag := Properties(station, data, rt)["Web Disponible"];
      && (flag == Str("Sí") || flag == Str("No"))
      && ("web" !in data ==> flag == Str("No"))
      && (flag == Str("Sí") <==> "web" in data && data["web"] in {Int(1), Float(1.0), Bool(true)})
  {
  }

  /** `URL Gráfico` is the chart prefix followed by the station id, and tells stations apart. */
  lemma ChartUrlProperty(station: int, data: map<string, Value>, rt: Runtime)
    ensures Properties(station, data, rt)["URL Gráfico"] == Str(ChartPrefix + Decimal.IntString(station))
  {
  }

  /** Every feature in the output has the same eleven property names, whatever its record held. */
  lemma UniformSchema(fetch: string -> Response, rt: Runtime)
    ensures forall f | f in Collect(StationIds(), fetch, rt) :: f.properties.Keys == PropertyNames
  {
    SchemaOfCollect(StationIds(), fetch, rt);
  }

  lemma SchemaOfCollect(ids: seq<int>, fetch: string -> Response, rt: Runtime)
    ensures forall f | f in Collect(ids, fetch, rt) :: f.properties.Keys == PropertyNames
  {
    var outcome := Outcomes(fetch, rt);
    var features, kept := Gather(ids, outcome), Chosen(ids, outcome);
    GatherChosen(ids, outcome);
    forall f | f in features ensures f.properties.Keys == PropertyNames {
      var i :| 0 <= i < |features| && features[i] == f;
      assert Station(kept[i], fetch(ApiUrl(kept[i])), rt) == Some(f);
    }
  }

  /** The response body is a FeatureCollection whose `features` list encodes the collected features in order. */
  lemma CollectionShape(features: seq<Feature>)
    ensures var doc := CollectionJson(features);
      && doc.Obj? && doc.fields.Keys == {"type", "features"}
      && doc.fields["type"] == Str("FeatureCollection")
      && doc.fields["features"].Arr? && |doc.fields["features"].items| == |features|
      && (forall i | 0 <= i < |features| :: doc.fields["features"].items[i] == FeatureJson(features[i]))
  {
  }
}
