/** The live METAR path (backend/src/integrate_metar.py): airports are requested from
    the Aviation Weather Center in batches, the JSON reports are parsed into
    observation records, and flights are enhanced with them through the two left
    joins. The HTTP exchange is a parameter: `fetch` gives, for a request, the list
    of reports returned or `None` when the request failed. */
module IntegrateMetar {
  import opened Wrappers
  import opened Text
  import opened WeatherImpact
  import opened FlightJoin

  /** A decoded JSON value. */
  datatype Json =
    | JNull
    | JBool(b: bool)
    | JNum(n: real)
    | JStr(s: string)
    | JArr(items: seq<Json>)
    | JObj(fields: map<string, Json>)

  // ----- the request -----

  /** The query parameters of one request. */
  datatype RequestParams = RequestParams(ids: string, format: string, hours: int)

  /** `get_metar_data`'s parameters: the codes comma-joined, JSON format, and the
      look-back window in hours. */
  function MetarRequestParams(airports: seq<string>, hoursBack: int): (p: RequestParams)
    ensures p.format == "json" && p.hours == hoursBack
  {
    RequestParams(Join(airports, ','), "json", hoursBack)
  }

  /** The `ids` parameter names exactly the requested airports, in order, when the
      batch is non-empty and no code contains a comma. */
  lemma RequestNamesEveryAirport(airports: seq<string>, hoursBack: int)
    requires |airports| > 0
    requires forall k :: 0 <= k < |airports| ==> ',' !in airports[k]
    ensures Split(MetarRequestParams(airports, hoursBack).ids, ',') == airports
  {
    SplitJoin(airports, ',');
  }

  // ----- batching -----

  const BatchSize: nat := 20
  const AirportLimit: nat := 100
  /** The look-back window used by the batch loop. */
  const HoursBack: int := 6

  function Min(a: int, b: int): int {
    if a < b then a else b
  }

  /** The batches `airports[i:i + 20]` for `i` in `range(start, limit, 20)`. */
  function BatchesFrom(airports: seq<string>, start: nat, limit: nat): seq<seq<string>>
    requires limit <= |airports|
    decreases limit - start
  {
    if start >= limit then []
    else [airports[start..Min(start + BatchSize, |airports|)]] + BatchesFrom(airports, start + BatchSize, limit)
  }

  /** The batches requested: the first `min(len(airports), 100)` airports, 20 at a time. */
  function Batches(airports: seq<string>): seq<seq<string>> {
    BatchesFrom(airports, 0, Min(|airports|, AirportLimit))
  }

  /** The reports a response adds: those of a non-empty list; a failed request
      (`None`) and an empty list add nothing. */
  function Received(response: Option<seq<Json>>): seq<Json> {
    if response.Some? && |response.value| > 0 then response.value else []
  }

  /** All reports received for `batches`, batch by batch. */
  function Collected(batches: seq<seq<string>>, fetch: RequestParams -> Option<seq<Json>>): seq<Json> {
    if |batches| == 0 then []
    else Received(fetch(MetarRequestParams(batches[0], HoursBack))) + Collected(batches[1..], fetch)
  }

  /** The batch loop of `enhance_flight_data_with_metar`. */
  method FetchAllMetar(airports: seq<string>, fetch: RequestParams -> Option<seq<Json>>) returns (all: seq<Json>)
    ensures all == Collected(Batches(airports), fetch)
  {
    all := [];
    var limit := Min(|airports|, AirportLimit);
    var i := 0;
    while i < limit
      invariant all + Collected(BatchesFrom(airports, i, limit), fetch) == Collected(Batches(airports), fetch)
      decreases limit - i
    {
      var batch := airports[i..Min(i + BatchSize, |airports|)];
      var response := fetch(MetarRequestParams(batch, HoursBack));
      if response.Some? && |response.value| > 0 {
        all := all + response.value;
      }
      i := i + BatchSize;
    }
  }

  /** The truthiness guard changes nothing: a list response is added whole, a
      failed one adds nothing. */
  lemma ReceivedIsResponseOrNothing(response: Option<seq<Json>>)
    ensures Received(response) == response.GetOr([])
  {
  }

  /** The batches cover the first `min(len(airports), 100)` airports exactly, in
      order: later airports are never requested. */
  lemma BatchesCover(airports: seq<string>)
    ensures Flatten(Batches(airports)) == airports[..Min(|airports|, AirportLimit)]
  {
    var limit := Min(|airports|, AirportLimit);
    BatchesFromCover(airports, 0, limit);
    assert airports[0..limit] == airports[..limit];
  }

  lemma {:induction false} BatchesFromCover(airports: seq<string>, start: nat, limit: nat)
    requires limit <= |airports| && start <= limit
    requires limit == |airports| || (limit - start) % BatchSize == 0
    ensures Flatten(BatchesFrom(airports, start, limit)) == airports[start..limit]
    decreases limit - start
  {
    if start < limit {
      var stop := Min(start + BatchSize, |airports|);
      var batch := airports[start..stop];
      var rest := BatchesFrom(airports, start + BatchSize, limit);
      FlattenAppend([batch], rest);
      assert Flatten([batch]) == batch by {
        assert [batch][..0] == [];
      }
      if start + BatchSize <= limit {
        BatchesFromCover(airports, start + BatchSize, limit);
        assert stop == start + BatchSize;
        assert airports[start..limit] == batch + airports[start + BatchSize..limit];
      } else {
        assert limit == |airports| && stop == limit;
        assert rest == [];
      }
    }
  }

  /** Every batch holds between 1 and 20 airports, and there are
      `ceil(min(len(airports), 100) / 20)` of them, so at most 5 requests. */
  lemma BatchShape(airports: seq<string>)
    ensures forall k :: 0 <= k < |Batches(airports)| ==> 1 <= |Batches(airports)[k]| <= BatchSize
    ensures |Batches(airports)| == (Min(|airports|, AirportLimit) + BatchSize - 1) / BatchSize
    ensures |Batches(airports)| <= AirportLimit / BatchSize
  {
    BatchesFromShape(airports, 0, Min(|airports|, AirportLimit));
  }

  lemma {:induction false} BatchesFromShape(airports: seq<string>, start: nat, limit: nat)
    requires limit <= |airports| && start <= limit
    ensures forall k :: 0 <= k < |BatchesFrom(airports, start, limit)| ==> 1 <= |BatchesFrom(airports, start, limit)[k]| <= BatchSize
    ensures |BatchesFrom(airports, start, limit)| == (limit - start + BatchSize - 1) / BatchSize
    decreases limit - start
  {
    if start < limit {
      var bs := BatchesFrom(airports, start, limit);
      if start + BatchSize <= limit {
        BatchesFromShape(airports, start + BatchSize, limit);
        assert forall k :: 1 <= k < |bs| ==> bs[k] == BatchesFrom(airports, start + BatchSize, limit)[k - 1];
      } else {
        assert BatchesFrom(airports, start + BatchSize, limit) == [];
      }
    }
  }

  /** When every request fails, nothing is received. */
  lemma {:induction false} AllFailedReceivesNothing(batches: seq<seq<string>>, fetch: RequestParams -> Option<seq<Json>>)
    requires forall k :: 0 <= k < |batches| ==> fetch(MetarRequestParams(batches[k], HoursBack)).None?
    ensures Collected(batches, fetch) == []
  {
    if |batches| > 0 {
      assert forall k :: 0 <= k < |batches[1..]| ==> batches[1..][k] == batches[k + 1];
      AllFailedReceivesNothing(batches[1..], fetch);
    }
  }

  // ----- parsing -----

  /** One parsed report; each field is the report's value for its key, or the
      default when the key is absent. */
  datatype ParsedObservation = ParsedObservation(
    icaoId: Json,
    observationTime: Json,
    temperatureC: Json,
    dewpointC: Json,
    windSpeedKt: Json,
    windDirectionDeg: Json,
    windGustKt: Json,
    visibilitySm: Json,
    altimeterInHg: Json,
    seaLevelPressureMb: Json,
    presentWeather: Json,
    skyCover: Json,
    cloudBaseFt: Json,
    flightCategory: Json,
    rawText: Json)

  /** `dict.get(key, default)`. */
  function Get(fields: map<string, Json>, key: string, default: Json): Json {
    if key in fields then fields[key] else default
  }

  /** `parse_metar_data` on one report object: empty string for the station, time,
      weather string, category and raw text, null for the numbers, empty list for
      the cloud layers. */
  function ParseObservation(fields: map<string, Json>): ParsedObservation {
    ParsedObservation(
      Get(fields, "icaoId", JStr("")),
      Get(fields, "obsTime", JStr("")),
      Get(fields, "temp", JNull),
      Get(fields, "dewp", JNull),
      Get(fields, "wspd", JNull),
      Get(fields, "wdir", JNull),
      Get(fields, "wgst", JNull),
      Get(fields, "visib", JNull),
      Get(fields, "altim", JNull),
      Get(fields, "slp", JNull),
      Get(fields, "wxString", JStr("")),
      Get(fields, "cover", JArr([])),
      Get(fields, "base", JArr([])),
      Get(fields, "fltcat", JStr("")),
      Get(fields, "rawOb", JStr("")))
  }

  /** The report object holding every field of a parsed observation under its key. */
  function ReportOf(p: ParsedObservation): map<string, Json> {
    map[
      "icaoId" := p.icaoId, "obsTime" := p.observationTime, "temp" := p.temperatureC,
      "dewp" := p.dewpointC, "wspd" := p.windSpeedKt, "wdir" := p.windDirectionDeg,
      "wgst" := p.windGustKt, "visib" := p.visibilitySm, "altim" := p.altimeterInHg,
      "slp" := p.seaLevelPressureMb, "wxString" := p.presentWeather, "cover" := p.skyCover,
      "base" := p.cloudBaseFt, "fltcat" := p.flightCategory, "rawOb" := p.rawText]
  }

  /** Parsing reads each field from its own key: writing a record out as a report
      and parsing it back gives the record. */
  lemma ParseReportRoundTrip(p: ParsedObservation)
    ensures ParseObservation(ReportOf(p)) == p
  {
  }

  /** A report with no keys parses to all defaults. */
  lemma ParseEmptyReport()
    ensures ParseObservation(map[]) == ParsedObservation(
      JStr(""), JStr(""), JNull, JNull, JNull, JNull, JNull, JNull, JNull, JNull,
      JStr(""), JArr([]), JArr([]), JStr(""), JStr(""))
  {
  }

  /** The parsed reports, in order. A list element that is not an object has no
      `.get`; the resulting exception is caught and the element skipped. */
  function ParseAll(data: seq<Json>): seq<ParsedObservation> {
    if |data| == 0 then []
    else
      var last := data[|data| - 1];
      ParseAll(data[..|data| - 1]) + (if last.JObj? then [ParseObservation(last.fields)] else [])
  }

  method ParseMetarData(data: seq<Json>) returns (parsed: seq<ParsedObservation>)
    ensures parsed == ParseAll(data)
  {
    parsed := [];
    for i := 0 to |data|
      invariant parsed == ParseAll(data[..i])
    {
      assert data[..i + 1][..i] == data[..i];
      var observation := data[i];
      if observation.JObj? {
        parsed := parsed + [ParseObservation(observation.fields)];
      }
    }
    assert data[..|data|] == data;
  }

  /** Parsing distributes over concatenation: batches can be parsed separately. */
  lemma {:induction false} ParseAllAppend(a: seq<Json>, b: seq<Json>)
    ensures ParseAll(a + b) == ParseAll(a) + ParseAll(b)
    decreases |b|
  {
    if |b| == 0 {
      assert a + b == a;
    } else {
      assert (a + b)[..|a + b| - 1] == a + b[..|b| - 1];
      assert (a + b)[|a + b| - 1] == b[|b| - 1];
      ParseAllAppend(a, b[..|b| - 1]);
    }
  }

  /** One record per report object: all elements are kept exactly when all are objects. */
  lemma {:induction false} ParseAllCount(data: seq<Json>)
    ensures |ParseAll(data)| <= |data|
    ensures |ParseAll(data)| == |data| <==> forall k :: 0 <= k < |data| ==> data[k].JObj?
    ensures |ParseAll(data)| == 0 <==> forall k :: 0 <= k < |data| ==> !data[k].JObj?
  {
    if |data| > 0 {
      var init := data[..|data| - 1];
      ParseAllCount(init);
      assert forall k :: 0 <= k < |init| ==> init[k] == data[k];
    }
  }

  // ----- enhancing the flights -----

  /** The join key of a report: its station code when it is a string. */
  function StationKey(p: ParsedObservation): Option<string> {
    if p.icaoId.JStr? then Some(p.icaoId.s) else None
  }

  /** A cell used in arithmetic: `Some(None)` when missing (null), `Some(Some(x))`
      for a number (booleans count as 0 and 1), `None` when Python arithmetic on it
      raises a `TypeError` (a string, list or object). */
  function NumericCell(j: Json): Option<Option<real>> {
    match j
    case JNull => Some(None)
    case JNum(x) => Some(Some(x))
    case JBool(b) => Some(Some(if b then 1.0 else 0.0))
    case _ => None
  }

  /** A cell read as text: only a string is text; anything else counts as missing. */
  function TextCell(j: Json): Option<string> {
    if j.JStr? then Some(j.s) else None
  }

  /** The weather columns one side of a joined row holds, or `None` when its wind
      speed or visibility is not a number: each side's own arithmetic
      (`fillna(0) * 0.3`, `10 - fillna(10)`) raises on it. A temperature that is not
      a number is kept as missing here; whether it raises depends on the other end
      of the row (TemperaturesSubtract). */
  function MetarSide(p: Option<ParsedObservation>): Option<SideWeather> {
    match p
    case None => Some(NoWeather)
    case Some(x) =>
      var wind, visibility := NumericCell(x.windSpeedKt), NumericCell(x.visibilitySm);
      if wind.Some? && visibility.Some? then
        Some(SideWeather(NumericCell(x.temperatureC).GetOr(None), wind.value, visibility.value,
                         TextCell(x.presentWeather), TextCell(x.flightCategory),
                         NumericCell(x.seaLevelPressureMb).GetOr(None)))
      else None
  }

  /** The temperature cell of one side of a joined row: null when no report was joined. */
  function TemperatureCell(p: Option<ParsedObservation>): Json {
    if p.Some? then p.value.temperatureC else JNull
  }

  /** Whether `dest_temperature_c - origin_temperature_c` goes through on a row.
      When the column subtraction raises, pandas retries it only on the rows where
      both cells are non-null, so a row raises exactly when both cells are non-null
      and one of them is not a number; a row with a null side gets a missing
      difference. */
  predicate TemperaturesSubtract(origin: Json, dest: Json) {
    origin.JNull? || dest.JNull? || (NumericCell(origin).Some? && NumericCell(dest).Some?)
  }

  /** The weather-derived columns this path adds. */
  datatype MetarWeatherFeatures = MetarWeatherFeatures(
    tempDiffC: Option<real>,
    originWindImpact: real, destWindImpact: real,
    originVisibilityImpact: real, destVisibilityImpact: real,
    originWeatherSeverity: real, destWeatherSeverity: real, totalWeatherImpact: real)

  function MetarFeatures(origin: SideWeather, dest: SideWeather): MetarWeatherFeatures {
    var os, ds := WeatherSeverity(origin), WeatherSeverity(dest);
    MetarWeatherFeatures(
      Difference(dest.temperatureC, origin.temperatureC),
      WindImpact(origin), WindImpact(dest),
      VisibilityImpact(origin), VisibilityImpact(dest),
      os, ds, os + ds)
  }

  /** The live path computes the same columns as the simulated path, with the same
      weights and defaults, for the columns both have. */
  lemma MetarFeaturesAgreeWithSimulated(origin: SideWeather, dest: SideWeather)
    ensures var m, f := MetarFeatures(origin, dest), DeriveFeatures(origin, dest);
      && m.tempDiffC == f.tempDiffC
      && m.originWindImpact == f.originWindImpact && m.destWindImpact == f.destWindImpact
      && m.originVisibilityImpact == f.originVisibilityImpact && m.destVisibilityImpact == f.destVisibilityImpact
      && m.originWeatherSeverity == f.originWeatherSeverity && m.destWeatherSeverity == f.destWeatherSeverity
      && m.totalWeatherImpact == f.totalWeatherImpact
  {
  }

  datatype MetarRow<F> = MetarRow(flight: F, origin: Option<ParsedObservation>, dest: Option<ParsedObservation>,
                                  features: MetarWeatherFeatures)

  /** What `enhance_flight_data_with_metar` returns: the flights unchanged when no
      report was parsed, the enhanced rows, or the `TypeError` raised when a joined
      report has a non-numeric wind speed or visibility, or a row holds two
      non-null temperatures one of which is not a number. */
  datatype MetarOutcome<F> = Unchanged(flights: seq<F>) | Enhanced(rows: seq<MetarRow<F>>) | ArithmeticError

  predicate NumericSides<F>(r: Joined<F, ParsedObservation>) {
    && MetarSide(r.origin).Some? && MetarSide(r.dest).Some?
    && TemperaturesSubtract(TemperatureCell(r.origin), TemperatureCell(r.dest))
  }

  function EnhanceWithMetar<F>(flights: seq<F>, depOf: F -> Option<string>, arrOf: F -> Option<string>,
                               parsed: seq<ParsedObservation>): MetarOutcome<F>
  {
    if |parsed| == 0 then Unchanged(flights)
    else
      var joined := LeftJoin(flights, depOf, arrOf, parsed, StationKey);
      if forall k :: 0 <= k < |joined| ==> NumericSides(joined[k]) then
        Enhanced(seq(|joined|, k requires 0 <= k < |joined| && NumericSides(joined[k]) =>
          MetarRow(joined[k].flight, joined[k].origin, joined[k].dest,
                   MetarFeatures(MetarSide(joined[k].origin).value, MetarSide(joined[k].dest).value))))
      else ArithmeticError
  }

  /** The whole live path: fetch in batches, parse, join and score. */
  method EnhanceFlightDataWithMetar<F>(flights: seq<F>, depOf: F -> Option<string>, arrOf: F -> Option<string>,
                                       airports: seq<string>, fetch: RequestParams -> Option<seq<Json>>)
    returns (outcome: MetarOutcome<F>)
    ensures outcome == EnhanceWithMetar(flights, depOf, arrOf, ParseAll(Collected(Batches(airports), fetch)))
  {
    var allMetar := FetchAllMetar(airports, fetch);
    var metar := ParseMetarData(allMetar);
    outcome := EnhanceWithMetar(flights, depOf, arrOf, metar);
  }

  /** When every request fails the flights come back unchanged. */
  lemma NoReportsLeaveFlightsUnchanged<F>(flights: seq<F>, depOf: F -> Option<string>, arrOf: F -> Option<string>,
                                          airports: seq<string>, fetch: RequestParams -> Option<seq<Json>>)
    requires forall ids: seq<string> :: fetch(MetarRequestParams(ids, HoursBack)).None?
    ensures EnhanceWithMetar(flights, depOf, arrOf, ParseAll(Collected(Batches(airports), fetch))) == Unchanged(flights)
  {
    AllFailedReceivesNothing(Batches(airports), fetch);
  }

  /** When flights are enhanced no flight is lost, each row keeps its flight, and a
      flight with no report at either airport gets zero severity. */
  lemma EnhancedKeepsFlights<F>(flights: seq<F>, depOf: F -> Option<string>, arrOf: F -> Option<string>,
                                parsed: seq<ParsedObservation>)
    requires EnhanceWithMetar(flights, depOf, arrOf, parsed).Enhanced?
    ensures var rows := EnhanceWithMetar(flights, depOf, arrOf, parsed).rows;
      && |rows| >= |flights|
      && (forall r :: r in rows ==> r.flight in flights)
      && (forall r :: r in rows && r.origin.None? && r.dest.None? ==> r.features.totalWeatherImpact == 0.0)
  {
    JoinKeepsEveryFlight(flights, depOf, arrOf, parsed, StationKey);
    JoinIsSound(flights, depOf, arrOf, parsed, StationKey);
    var joined := LeftJoin(flights, depOf, arrOf, parsed, StationKey);
    var rows := EnhanceWithMetar(flights, depOf, arrOf, parsed).rows;
    forall r | r in rows ensures r.flight in flights {
      var k :| 0 <= k < |rows| && rows[k] == r;
      assert joined[k] in joined;
    }
    assert WeatherSeverity(NoWeather) == 0.0;
  }

  /** A report whose visibility is a string (the service writes "10+" for more than
      ten miles) makes the enhancement fail once it is joined to a flight. */
  lemma NonNumericVisibilityFails<F>(f: F, depOf: F -> Option<string>, arrOf: F -> Option<string>, code: string)
    requires depOf(f) == Some(code)
    ensures var report := ParsedObservation(JStr(code), JStr(""), JNum(20.0), JNull, JNum(5.0), JNull, JNull,
                                            JStr("10+"), JNull, JNull, JStr(""), JArr([]), JArr([]), JStr("VFR"), JStr(""));
      EnhanceWithMetar([f], depOf, arrOf, [report]) == ArithmeticError
  {
    var report := ParsedObservation(JStr(code), JStr(""), JNum(20.0), JNull, JNum(5.0), JNull, JNull,
                                    JStr("10+"), JNull, JNull, JStr(""), JArr([]), JArr([]), JStr("VFR"), JStr(""));
    var joined := LeftJoin([f], depOf, arrOf, [report], StationKey);
    assert Matching([report], StationKey, Some(code)) == [report];
    assert JoinSide([report], StationKey, Some(code)) == [Some(report)];
    var ds := JoinSide([report], StationKey, arrOf(f));
    assert [f][..0] == [];
    assert LeftJoin([f][..0], depOf, arrOf, [report], StationKey) == [];
    assert joined == LeftJoin([f][..0], depOf, arrOf, [report], StationKey) + Combine(f, JoinSide([report], StationKey, depOf(f)), ds);
    assert joined == Combine(f, [Some(report)], ds);
    assert joined[0] == Joined(f, Some(report), ds[0]);
    assert !NumericSides(joined[0]);
  }

  /** A report whose temperature is a string (here "M"), joined at the departure end
      of a flight with no report at its arrival end, does not raise: the flight is
      enhanced and its temperature difference is missing. */
  lemma OneSidedTextTemperatureIsMissing<F>(f: F, depOf: F -> Option<string>, arrOf: F -> Option<string>, code: string)
    requires depOf(f) == Some(code) && arrOf(f) != Some(code)
    ensures var report := ParsedObservation(JStr(code), JStr(""), JStr("M"), JNull, JNum(5.0), JNull, JNull,
                                            JNum(5.0), JNull, JNull, JStr(""), JArr([]), JArr([]), JStr("VFR"), JStr(""));
      var outcome := EnhanceWithMetar([f], depOf, arrOf, [report]);
      && outcome.Enhanced? && |outcome.rows| == 1
      && outcome.rows[0].flight == f && outcome.rows[0].origin == Some(report) && outcome.rows[0].dest.None?
      && outcome.rows[0].features.tempDiffC.None?
  {
    var report := ParsedObservation(JStr(code), JStr(""), JStr("M"), JNull, JNum(5.0), JNull, JNull,
                                    JNum(5.0), JNull, JNull, JStr(""), JArr([]), JArr([]), JStr("VFR"), JStr(""));
    assert Matching([report], StationKey, Some(code)) == [report];
    assert JoinSide([report], StationKey, Some(code)) == [Some(report)];
    MatchingEmpty([report], StationKey, arrOf(f));
    assert JoinSide([report], StationKey, arrOf(f)) == [None];
    assert [f][..0] == [];
    assert LeftJoin([f][..0], depOf, arrOf, [report], StationKey) == [];
    var joined := LeftJoin([f], depOf, arrOf, [report], StationKey);
    assert joined == Combine(f, [Some(report)], [None]);
    assert joined == [Joined(f, Some(report), None)];
    assert NumericSides(joined[0]);
  }

  /** The same report joined at the departure end of a flight whose arrival report
      has a numeric temperature makes the subtraction raise. */
  lemma TextTemperatureAgainstNumberFails<F>(f: F, depOf: F -> Option<string>, arrOf: F -> Option<string>,
                                             origin: string, dest: string)
    requires depOf(f) == Some(origin) && arrOf(f) == Some(dest) && origin != dest
    ensures var o := ParsedObservation(JStr(origin), JStr(""), JStr("M"), JNull, JNum(5.0), JNull, JNull,
                                       JNum(5.0), JNull, JNull, JStr(""), JArr([]), JArr([]), JStr("VFR"), JStr(""));
      var d := ParsedObservation(JStr(dest), JStr(""), JNum(20.0), JNull, JNum(5.0), JNull, JNull,
                                 JNum(5.0), JNull, JNull, JStr(""), JArr([]), JArr([]), JStr("VFR"), JStr(""));
      EnhanceWithMetar([f], depOf, arrOf, [o, d]) == ArithmeticError
  {
    var o := ParsedObservation(JStr(origin), JStr(""), JStr("M"), JNull, JNum(5.0), JNull, JNull,
                               JNum(5.0), JNull, JNull, JStr(""), JArr([]), JArr([]), JStr("VFR"), JStr(""));
    var d := ParsedObservation(JStr(dest), JStr(""), JNum(20.0), JNull, JNum(5.0), JNull, JNull,
                               JNum(5.0), JNull, JNull, JStr(""), JArr([]), JArr([]), JStr("VFR"), JStr(""));
    var obs := [o, d];
    assert obs[..1] == [o];
    assert Matching([o], StationKey, Some(origin)) == [o];
    assert Matching(obs, StationKey, Some(origin)) == [o];
    assert Matching([o], StationKey, Some(dest)) == [];
    assert Matching(obs, StationKey, Some(dest)) == [d];
    assert JoinSide(obs, StationKey, Some(origin)) == [Some(o)];
    assert JoinSide(obs, StationKey, Some(dest)) == [Some(d)];
    assert [f][..0] == [];
    assert LeftJoin([f][..0], depOf, arrOf, obs, StationKey) == [];
    var joined := LeftJoin([f], depOf, arrOf, obs, StationKey);
    assert joined == Combine(f, [Some(o)], [Some(d)]);
    assert joined[0] == Joined(f, Some(o), Some(d));
    assert !NumericSides(joined[0]);
  }
}
