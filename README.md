# Weather stations as GeoJSON and WFS: a Dafny model

The repository serves weather-station readings from Mendoza in two ways:

* `app.py`, `get_all_weather_geojson`: it polls stations 1 to 43 one after
  the other. Each station whose upstream answer carries a usable position
  becomes a GeoJSON Point feature with eleven fixed properties. A station
  whose request, status, body or coordinates fail is skipped, and the loop
  goes on. The features are wrapped in a `FeatureCollection`.
* `estaciones.py`: `escape_xml` (Python's `xml.sax.saxutils.escape` behind a
  `None` check) and `wfs_capabilities`, which fills a fixed WFS 1.1.0
  `WFS_Capabilities` template with the base URL, the type name `Estaciones`
  and the SRS `EPSG:4326`.

The model has six modules, one per file:

* `Wrappers` (`wrappers.dfy`): the `Option` type.
* `Decimal` (`decimal.dfy`): Python's `str(n)` for an integer. Station ids
  are printed this way into request URLs and chart URLs. `ParseDigits` is its
  inverse, so the rendering loses nothing.
* `Json` (`json.dfy`): decoded JSON values as Python sees them. It also holds
  the three Python operations the normaliser applies to them: `str(v)`,
  `dict.get(key, default)` and `v == 1`.
* `Stations` (`stations.dfy`): the polling loop, as the method
  `GetAllWeatherGeojson`. A `for` loop appends to `features`, and its
  invariant ties `features` to `Collect` over the stations visited so far.
  The pure parts are:
  * `Station`: the `try` body for one station.
  * `Normalize` and `Properties`: the feature literal.
  * `Collect` and `Kept`: the filter-and-map over a list of ids.
  * `CollectionJson`: the final wrapper.

  The upstream is a function `fetch` from the request URL to a `Response`.
  A `Response` is either a connection failure, or a status code plus a body
  that `response.json()` decodes or fails on. Python's `float(v)`, and `str`
  of floats, lists and dicts, are supplied as the functions in `Runtime`.
* `XmlEscape` (`xml_escape.dfy`): Python's `str.replace`, modelled as `Replace`
  (a left-to-right, non-overlapping rewrite). `Escape` is the three passes in
  saxutils order: `&` first, then `>`, then `<`. `EscapeXml` is
  `escape_xml`. `Unescape` is `saxutils.unescape`: `&lt;`, then `&gt;`, then
  `&amp;`. `FlatMap(EscapeChar, s)` is a per-character reference definition,
  and the lemmas prove `Escape` equal to it.
* `Capabilities` (`capabilities.dfy`): the template as a list of 51 lines.
  `Join` puts them together with newlines, and `WfsCapabilities()` is the
  served text. `CapabilitiesLines` takes the base URL, type name and SRS name
  as parameters, so that most lemmas hold for any values; `Served…` lemmas
  specialise them to the module's constants.

The code and the service's design description differ in several places, and
the model follows the code:

* The design calls for a request dispatcher. It would route
  `GetCapabilities`, `DescribeFeatureType` and `GetFeature`, and answer 400
  on an invalid combination. The `/wfs` route in `estaciones.py` returns the
  capabilities document unconditionally.
* The design calls for per-fetch timeouts. `requests.get` is called without
  a timeout.
* The design requires finite coordinates. The code accepts whatever
  `float()` returns.
* The design requires accented attribute names to be escaped. The code
  escapes only the type name and SRS name of the capabilities document, and
  builds the GeoJSON through `jsonify`.

## Model

| member | source | states |
|---|---|---|
| Stations.GetAllWeatherGeojson | app.py:14-53 | the loop over `range(1, 44)` returns `CollectionJson` of the features of exactly the stations that succeed, in station order; the loop invariant keeps `features` equal to the collected prefix |
| Stations.Range | app.py:14 | `range(lo, hi)` has `hi - lo` elements (none when `hi <= lo`) and its `i`-th element is `lo + i` |
| Stations.StationIdsMembers | app.py:14 | the polled ids are exactly 1 through 43 |
| Stations.Station | app.py:18-47 | definition of the `try` body for one station; stated by `Stations.StationSucceeds` and `Stations.FeatureGeometry` |
| Stations.Properties | app.py:31-43 | definition of the property dict; stated by `Stations.MissingFieldsBecomeNA`, `Stations.ReadingCarriesUnit`, `Stations.WebFlag` and `Stations.ChartUrlProperty` |
| Stations.FeatureJson | app.py:25-30 | definition of the feature dict; stated by `Stations.FeatureGeometry` and `Stations.CollectionShape` |
| Stations.CollectionJson | app.py:50-53 | definition of the collection dict; stated by `Stations.CollectionShape` |
| Stations.Normalize | app.py:25-44 | building the feature literal succeeds exactly when both coordinates are present and convert with `float`, and a built feature has exactly the eleven property names |
| Stations.StationSucceeds | app.py:18-30 | one station yields a feature if and only if the request does not raise, the status is 200, the body decodes to a non-empty array whose first element is an object, and that object has `lng` and `lat` that `float` accepts |
| Stations.FeatureGeometry | app.py:23-30 | a kept station's geometry is the Point `[float(lng), float(lat)]`, in that order, taken from the first array element |
| Stations.MissingFieldsBecomeNA | app.py:31-43 | the property names are always the same eleven; each of the five pass-through properties is the upstream value when its field is present and `N/A` when it is missing, never omitted |
| Stations.ReadingCarriesUnit | app.py:34-37 | temperature, humidity, dew point and wind speed are `str` of the value (or `N/A`) followed by a space and `°C`, `%`, `°C`, `m/s` respectively; an integer reading shows its decimal digits and a string reading itself |
| Stations.WebFlag | app.py:41 | `Web Disponible` is always `Sí` or `No`; it is `No` when `web` is missing (the default 0); it is `Sí` exactly when `web` is present and is `1`, `1.0` or `True` |
| Stations.ChartUrlProperty | app.py:42 | `URL Gráfico` is the chart prefix followed by the station id |
| Stations.ChartUrlInjective | app.py:42 | distinct stations get distinct chart URLs |
| Stations.ApiUrlInjective | app.py:19 | distinct stations are requested at distinct URLs |
| Stations.CollectStep | app.py:17-47 | one more loop turn appends the new station's feature when it has one and leaves the list unchanged otherwise |
| Stations.CollectAppend | app.py:17-45 | collecting over consecutive id lists concatenates the results |
| Stations.EndpointOutput | app.py:14-45 | there are at most 43 features, one per kept station; the kept ids are strictly ascending; an id is kept exactly when it is in 1..43 and its station succeeds; the `i`-th feature is the one the `i`-th kept station yields |
| Stations.FailureIsIsolated | app.py:18-47 | if one station's answer changes so that it fails, the output equals the output without that station, so no other station's feature changes |
| Stations.CollectDependsOnPolledStations | app.py:19-20 | the output depends on the upstream only through the answers to the polled stations' URLs |
| Stations.AllFailing | app.py:46-47 | stations that all fail contribute no features |
| Stations.TwoGoodStations | app.py:14-53 | when only stations 1 and 2 succeed, the output is exactly their two features in that order |
| Stations.UniformSchema | app.py:31-45 | every feature in the endpoint's output has the same eleven property names |
| Stations.SchemaOfCollect | app.py:31-45 | the same holds for any list of polled ids |
| Stations.CollectionShape | app.py:50-53 | the result is an object with exactly `type` = `FeatureCollection` and `features`, a list encoding each feature in order |
| Json.Get | app.py:32-41 | definition of `dict.get`; stated by `Stations.MissingFieldsBecomeNA` and `Stations.WebFlag` |
| Decimal.IntString | app.py:19 | definition of `str` on an integer; stated by `Decimal.IntStringInjective` and `Decimal.PrefixedIntStringInjective` |
| Decimal.ParseDigitsOfDigits | app.py:19 | reading back the decimal digits of a station id gives the id |
| Decimal.IntStringInjective | app.py:19 | distinct integers have distinct `str` renderings |
| Decimal.PrefixedIntStringInjective | app.py:42 | a common URL prefix followed by `str(i)` identifies `i` |
| XmlEscape.Escape | estaciones.py:22 | definition of `saxutils.escape` as three replace passes; stated by `XmlEscape.EscapeIsPerCharacter` and `XmlEscape.UnescapeEscape` |
| XmlEscape.Unescape | estaciones.py:22 | definition of `saxutils.unescape`, the inverse an XML reader applies; stated by `XmlEscape.UnescapeEscape` |
| XmlEscape.EscapeXml | estaciones.py:18-22 | `escape_xml(None)` is the empty string, and the result for a value never contains `<` or `>` |
| XmlEscape.EscapeXmlIdentity | estaciones.py:18-22 | `escape_xml` returns a value without `&`, `<` and `>` unchanged |
| XmlEscape.EscapeIsPerCharacter | estaciones.py:22 | the three sequential replace passes equal the per-character rewrite: `&` to `&amp;`, `<` to `&lt;`, `>` to `&gt;`, every other character (quotes and accented letters included) kept |
| XmlEscape.EscapeAppend | estaciones.py:22 | escaping a concatenation is the concatenation of the escaped parts |
| XmlEscape.NoAngleBrackets | estaciones.py:22 | the escaped text contains neither `<` nor `>` |
| XmlEscape.EveryAmpersandIsEntity | estaciones.py:22 | every `&` in the escaped text begins `&amp;`, `&lt;` or `&gt;` |
| XmlEscape.EscapeLength | estaciones.py:22 | escaping never shortens the text, and keeps its length exactly when there is no `&`, `<` or `>` |
| XmlEscape.EscapeIdentity | estaciones.py:22 | escaping leaves the text unchanged if and only if it contains no `&`, `<` or `>` |
| XmlEscape.UnescapeEscape | estaciones.py:22 | unescaping (`&lt;`, then `&gt;`, then `&amp;`) the escaped text gives back the original |
| XmlEscape.EscapeInjective | estaciones.py:22 | distinct texts escape to distinct texts |
| XmlEscape.EscapeAroundAmpersand | estaciones.py:22 | escaping markup-free text around one `&` rewrites only that `&` |
| Capabilities.CapabilitiesLines | estaciones.py:27-77 | definition of the template, line by line; stated by `Capabilities.FeatureTypeContent`, `Capabilities.OperationUrls` and `Capabilities.OneFeatureType` |
| Capabilities.WfsCapabilities | estaciones.py:25-77 | definition of the served text, the lines joined by newlines; stated by `Capabilities.LineInText` with `Capabilities.ServedFeatureType` and `Capabilities.ServedOperations` |
| Capabilities.OneFeatureType | estaciones.py:68-76 | the `<FeatureType>` line occurs exactly once in the document, whatever the base URL, type name and SRS name |
| Capabilities.FeatureTypeContent | estaciones.py:68-76 | the document has 51 lines; the feature type's `Name` is the escaped type name, its `DefaultSRS` the escaped SRS name, and its bounding box the fixed -70/-35/-68/-32 |
| Capabilities.ServedFeatureType | estaciones.py:68-76 | in the served document the feature type is named `Estaciones` and its default SRS is `EPSG:4326`, unescaped |
| Capabilities.OperationUrls | estaciones.py:44-66 | the request section lists GetCapabilities, DescribeFeatureType and GetFeature in that order, each bound by GET to `base + "?SERVICE=WFS&amp;REQUEST=" + op` |
| Capabilities.HrefIsEscapedUrl | estaciones.py:44-66 | for a markup-free base URL and operation, each `href` is the escaped request URL, and unescaping it gives `base + "?SERVICE=WFS&REQUEST=" + op` |
| Capabilities.ServedOperations | estaciones.py:44-66 | each served operation's GET line is in the document, and its `href` reads back as the service's own base URL with `SERVICE=WFS&REQUEST=op` |
| Capabilities.PlainNames | estaciones.py:12 | the base URL and the three operation names contain no `&`, `<` or `>` |
| Capabilities.ConstantsNeedNoEscaping | estaciones.py:13-14 | `escape_xml` returns `Estaciones` and `EPSG:4326` unchanged |
| Capabilities.LineInText | estaciones.py:27-77 | each template line appears verbatim in the joined document, at the offset `LineStart` gives |

## Left out

- Flask: the app objects, the routes, `Response`, `jsonify`, content types, `app.run` and the logging setup. These are framework plumbing, so the model stops at the value handed to `jsonify` and the text handed to `Response`.
- `requests.get` and `response.json()`: these are network I/O and JSON decoding. The model takes them as the `fetch` parameter, which maps a URL to a `Response`.
- `float(...)` and `str(...)` of floats, lists and dicts: these are floating-point parsing and printing. `Runtime` supplies them as functions. Real numbers stand in for floats, so NaN and infinities are not modelled.
- The `print` of a per-station error: it is output only. The model keeps the skip it accompanies.
- The bodiless `if __name__ == '__main__':` at the end of `app.py`: it has no statements, and the model has no entry point.
- Timeouts, retries and parallel fetching: the code has none.
- A WFS request dispatcher, DescribeFeatureType and GetFeature: the code has none. `/wfs` always returns the capabilities document.
- XML well-formedness and namespaces: the template is literal text, and the model treats it as lines of text.
- WfsCapabilities: the code promises the same document on every call. This holds by construction, because the model is a function of no arguments, so no lemma states it.
- Stations.Properties: a Dafny `map` has no order, so the insertion order of the eleven keys in the dict literal is not modelled. Flask's `jsonify` sorts keys by default, so the served JSON does not show that order either.
- XmlEscape.EscapeXml: takes a string or `None`. `str(value)` of other types is not modelled, because the template passes only the two string constants.
- Capabilities.OneFeatureType: counts lines equal to `<FeatureType>` in the line list, rather than substring occurrences in the joined text. `LineInText` connects the lines to the text.
- Capabilities.ServedFeatureType: specialised to the two constants through its `requires`, rather than stated about `WfsCapabilities()` directly.
- Capabilities.ServedOperations: specialised to the constants through its `requires` in the same way.
- The base URL is inserted into the `href` attributes unescaped. `HrefIsEscapedUrl` shows this is correct only because the base URL contains no markup. A base URL with `&` would not be handled.
