/** Preparing the weather-enhanced training data
    (backend/src/train_weather_enhanced_models.py): distances from airport
    coordinates or from flight duration, baseline and weather-adjusted fuel, the
    extra-fuel target, and the feature-column and target-row filters. The
    great-circle distance is a parameter. */
module WeatherEnhancedModels {
  import opened Wrappers
  import opened Text
  import EstimateFuel

  // ----- fuel rates -----

  /** `fuel_lookup`: kg per hour by exact aircraft model code. */
  const FuelLookup: map<string, real> := map[
    "CRJ2" := 850.0, "CRJ7" := 950.0, "CRJ9" := 1050.0, "E145" := 900.0,
    "E170" := 1100.0, "E175" := 1150.0, "B737" := 2500.0, "A320" := 2400.0,
    "B757" := 3200.0, "B767" := 4200.0, "A330" := 5500.0, "B777" := 7500.0,
    "B787" := 5400.0, "A350" := 5800.0]

  const DefaultFuelRate: real := 1000.0

  /** `Model.map(fuel_lookup).fillna(1000)`. */
  function FuelRate(model: Option<string>): real {
    if model.Some? && model.value in FuelLookup then FuelLookup[model.value] else DefaultFuelRate
  }

  /** The rate is the default exactly when the model is not a key: no listed rate
      equals 1000. */
  lemma FuelRateIsDefaultIffUnmapped(model: Option<string>)
    ensures FuelRate(model) == DefaultFuelRate <==> !(model.Some? && model.value in FuelLookup)
    ensures FuelRate(model) > 0.0
  {
    assert forall k :: k in FuelLookup ==> FuelLookup[k] != DefaultFuelRate && FuelLookup[k] > 0.0;
  }

  /** Lookup is by exact key, not by substring: "CRJ9" has its own rate but
      "CRJ900" and "crj9" get the default. */
  lemma FuelRateExactKey()
    ensures FuelRate(Some("CRJ9")) == 1050.0
    ensures FuelRate(Some("CRJ900")) == DefaultFuelRate
    ensures FuelRate(Some("crj9")) == DefaultFuelRate
    ensures FuelRate(None) == DefaultFuelRate
  {
    assert "CRJ900" !in FuelLookup.Keys;
    assert "crj9" !in FuelLookup.Keys;
  }

  // ----- fuel columns (missing cells propagate as in pandas arithmetic) -----

  /** `rate * Flight_Duration / 60`. */
  function BaselineFuel(rate: real, durationMin: Option<real>): Option<real> {
    if durationMin.Some? then Some(rate * durationMin.value / 60.0) else None
  }

  /** `1.0 + comprehensive_weather_impact / 50`. */
  function WeatherImpactFactor(comprehensive: Option<real>): Option<real> {
    if comprehensive.Some? then Some(1.0 + comprehensive.value / 50.0) else None
  }

  function Times(a: Option<real>, b: Option<real>): Option<real> {
    if a.Some? && b.Some? then Some(a.value * b.value) else None
  }

  function Minus(a: Option<real>, b: Option<real>): Option<real> {
    if a.Some? && b.Some? then Some(a.value - b.value) else None
  }

  /** The extra fuel is the baseline scaled by a fiftieth of the comprehensive
      impact: zero when the impact is zero, non-negative when baseline and impact
      are, and negative when the impact is negative on a positive baseline. There is
      no clamp. */
  lemma ExtraFuelIsScaledBaseline(rate: real, durationMin: Option<real>, comprehensive: Option<real>)
    ensures var baseline := BaselineFuel(rate, durationMin);
      var extra := Minus(Times(baseline, WeatherImpactFactor(comprehensive)), baseline);
      && (extra.Some? <==> durationMin.Some? && comprehensive.Some?)
      && (extra.Some? ==> extra.value == baseline.value * comprehensive.value / 50.0)
      && (extra.Some? && comprehensive.value == 0.0 ==> extra.value == 0.0)
      && (extra.Some? && baseline.value >= 0.0 && comprehensive.value >= 0.0 ==> extra.value >= 0.0)
      && (extra.Some? && baseline.value > 0.0 && comprehensive.value < 0.0 ==> extra.value < 0.0)
  {
    if durationMin.Some? && comprehensive.Some? {
      var b, c := BaselineFuel(rate, durationMin).value, comprehensive.value;
      assert b * (1.0 + c / 50.0) - b == b * c / 50.0;
      if b > 0.0 && c < 0.0 {
        assert b * c < 0.0;
      }
      if b >= 0.0 && c >= 0.0 {
        assert b * c >= 0.0;
      }
    }
  }

  // ----- the table -----

  datatype Coordinates = Coordinates(latitude: Option<real>, longitude: Option<real>)

  /** Great-circle distance in km, arguments (lon1, lat1, lon2, lat2). */
  type GreatCircle = (real, real, real, real) -> real

  /** The columns of the enhanced flight table this step reads and writes. */
  datatype TrainingRow = TrainingRow(
    depAirport: Option<string>,
    arrAirport: Option<string>,
    model: Option<string>,
    flightDurationMin: Option<real>,
    comprehensiveWeatherImpact: Option<real>,
    estimatedDistanceKm: Option<real>,
    fuelRateKgPerHour: Option<real>,
    baselineFuelKg: Option<real>,
    weatherImpactFactor: Option<real>,
    weatherAdjustedFuelKg: Option<real>,
    extraFuelKg: Option<real>)

  /** The coordinates the left join on the airport table attaches to a code. */
  function CoordinatesOf(airports: map<string, Coordinates>, code: Option<string>): Coordinates {
    if code.Some? && code.value in airports then airports[code.value] else Coordinates(None, None)
  }

  /** The row's mask value: all four coordinates present. */
  predicate HasCoordinates(r: TrainingRow, airports: map<string, Coordinates>) {
    var o, d := CoordinatesOf(airports, r.depAirport), CoordinatesOf(airports, r.arrAirport);
    o.latitude.Some? && o.longitude.Some? && d.latitude.Some? && d.longitude.Some?
  }

  /** `mask.sum()`. */
  function CountWithCoordinates(rows: seq<TrainingRow>, airports: map<string, Coordinates>): (count: nat)
    ensures count <= |rows|
  {
    if |rows| == 0 then 0
    else CountWithCoordinates(rows[..|rows| - 1], airports) + (if HasCoordinates(rows[|rows| - 1], airports) then 1 else 0)
  }

  /** `Flight_Duration * 850 / 60`: the distance covered at cruise speed. */
  function DistanceFallback(durationMin: Option<real>): Option<real> {
    if durationMin.Some? then Some(durationMin.value * 850.0 / 60.0) else None
  }

  /** Whether the great-circle branch is taken: the airport table loaded and at least
      one row has all four coordinates. */
  function UsesGreatCircle(rows: seq<TrainingRow>, airports: Option<map<string, Coordinates>>): bool {
    airports.Some? && CountWithCoordinates(rows, airports.value) > 0
  }

  /** One row after the distance step. */
  function WithDistance(r: TrainingRow, airports: Option<map<string, Coordinates>>, useGreatCircle: bool,
                        greatCircle: GreatCircle): TrainingRow
    requires useGreatCircle ==> airports.Some?
  {
    if useGreatCircle then
      if HasCoordinates(r, airports.value) then
        var o, d := CoordinatesOf(airports.value, r.depAirport), CoordinatesOf(airports.value, r.arrAirport);
        r.(estimatedDistanceKm := Some(greatCircle(o.longitude.value, o.latitude.value, d.longitude.value, d.latitude.value)))
      else r
    else r.(estimatedDistanceKm := DistanceFallback(r.flightDurationMin))
  }

  /** One row after the fuel columns are written. */
  function WithFuelColumns(r: TrainingRow): TrainingRow {
    var rate := FuelRate(r.model);
    var baseline := BaselineFuel(rate, r.flightDurationMin);
    var factor := WeatherImpactFactor(r.comprehensiveWeatherImpact);
    var adjusted := Times(baseline, factor);
    r.(fuelRateKgPerHour := Some(rate), baselineFuelKg := baseline, weatherImpactFactor := factor,
       weatherAdjustedFuelKg := adjusted, extraFuelKg := Minus(adjusted, baseline))
  }

  /** The table `prepare_enhanced_data_for_modeling` returns; `airports` is `None`
      when loading the airport table failed. */
  function Prepared(rows: seq<TrainingRow>, airports: Option<map<string, Coordinates>>, greatCircle: GreatCircle): (result: seq<TrainingRow>)
    ensures |result| == |rows|
  {
    var useGreatCircle := UsesGreatCircle(rows, airports);
    seq(|rows|, i requires 0 <= i < |rows| => WithFuelColumns(WithDistance(rows[i], airports, useGreatCircle, greatCircle)))
  }

  /** `prepare_enhanced_data_for_modeling`, updating the table in place: the mask
      count, the distance column, then the fuel columns. */
  method PrepareEnhancedData(rows: array<TrainingRow>, airports: Option<map<string, Coordinates>>, greatCircle: GreatCircle)
    modifies rows
    ensures rows[..] == Prepared(old(rows[..]), airports, greatCircle)
  {
    ghost var original := rows[..];
    var useGreatCircle := false;
    if airports.Some? {
      var count := 0;
      for i := 0 to rows.Length
        invariant count == CountWithCoordinates(original[..i], airports.value)
      {
        assert original[..i + 1][..i] == original[..i];
        if HasCoordinates(rows[i], airports.value) {
          count := count + 1;
        }
      }
      assert original[..rows.Length] == original;
      useGreatCircle := count > 0;
    }
    assert useGreatCircle == UsesGreatCircle(original, airports);
    for i := 0 to rows.Length
      invariant forall k :: 0 <= k < i ==> rows[k] == WithDistance(original[k], airports, useGreatCircle, greatCircle)
      invariant forall k :: i <= k < rows.Length ==> rows[k] == original[k]
    {
      rows[i] := WithDistance(rows[i], airports, useGreatCircle, greatCircle);
    }
    for i := 0 to rows.Length
      invariant forall k :: 0 <= k < i ==> rows[k] == WithFuelColumns(WithDistance(original[k], airports, useGreatCircle, greatCircle))
      invariant forall k :: i <= k < rows.Length ==> rows[k] == WithDistance(original[k], airports, useGreatCircle, greatCircle)
    {
      rows[i] := WithFuelColumns(rows[i]);
    }
  }

  /** The three distance cases: a row with all four coordinates gets the
      great-circle distance when the table loaded; when the table did not load or
      no row has coordinates every row gets the cruise-speed fallback; otherwise a
      row lacking coordinates keeps its previous distance. */
  lemma DistanceCases(rows: seq<TrainingRow>, airports: Option<map<string, Coordinates>>, greatCircle: GreatCircle, i: nat)
    requires i < |rows|
    ensures var r, p := rows[i], Prepared(rows, airports, greatCircle)[i];
      && (airports.Some? && HasCoordinates(r, airports.value) ==>
            var o, d := CoordinatesOf(airports.value, r.depAirport), CoordinatesOf(airports.value, r.arrAirport);
            p.estimatedDistanceKm == Some(greatCircle(o.longitude.value, o.latitude.value, d.longitude.value, d.latitude.value)))
      && (airports.None? || CountWithCoordinates(rows, airports.value) == 0 ==>
            p.estimatedDistanceKm == DistanceFallback(r.flightDurationMin))
      && (airports.Some? && CountWithCoordinates(rows, airports.value) > 0 && !HasCoordinates(r, airports.value) ==>
            p.estimatedDistanceKm == r.estimatedDistanceKm)
  {
    if airports.Some? && HasCoordinates(rows[i], airports.value) {
      CountPositive(rows, airports.value, i);
    }
  }

  lemma {:induction false} CountPositive(rows: seq<TrainingRow>, airports: map<string, Coordinates>, i: nat)
    requires i < |rows| && HasCoordinates(rows[i], airports)
    ensures CountWithCoordinates(rows, airports) > 0
  {
    if i < |rows| - 1 {
      CountPositive(rows[..|rows| - 1], airports, i);
    }
  }

  /** The fallback distance flown at the 850 km/h cruise speed of the fuel
      estimator takes exactly the flight's duration. */
  lemma FallbackMatchesCruiseSpeed(durationMin: real)
    ensures EstimateFuel.FlightTimeHours(DistanceFallback(Some(durationMin)).value) * 60.0 == durationMin
  {
  }

  /** The prepared rows carry the fuel columns of their model and duration, and the
      target is the scaled baseline. */
  lemma PreparedFuelColumns(rows: seq<TrainingRow>, airports: Option<map<string, Coordinates>>, greatCircle: GreatCircle, i: nat)
    requires i < |rows|
    ensures var r, p := rows[i], Prepared(rows, airports, greatCircle)[i];
      && p.fuelRateKgPerHour == Some(FuelRate(r.model))
      && p.baselineFuelKg == BaselineFuel(FuelRate(r.model), r.flightDurationMin)
      && (p.extraFuelKg.Some? <==> r.flightDurationMin.Some? && r.comprehensiveWeatherImpact.Some?)
      && (p.extraFuelKg.Some? ==> p.extraFuelKg.value == p.baselineFuelKg.value * r.comprehensiveWeatherImpact.value / 50.0)
      && p.model == r.model && p.flightDurationMin == r.flightDurationMin
  {
    var r := rows[i];
    var d := WithDistance(r, airports, UsesGreatCircle(rows, airports), greatCircle);
    assert Prepared(rows, airports, greatCircle)[i] == WithFuelColumns(d);
    assert d.model == r.model && d.flightDurationMin == r.flightDurationMin
      && d.comprehensiveWeatherImpact == r.comprehensiveWeatherImpact;
    ExtraFuelIsScaledBaseline(FuelRate(r.model), r.flightDurationMin, r.comprehensiveWeatherImpact);
  }

  // ----- features and targets -----

  /** `feature_columns`. */
  const FeatureColumns: seq<string> := [
    "Flight_Duration", "Estimated_Distance_km", "Dep_Delay", "Arr_Delay",
    "origin_temperature_c", "dest_temperature_c", "temp_diff_c",
    "origin_wind_speed_kt", "dest_wind_speed_kt", "avg_wind_impact",
    "origin_visibility_sm", "dest_visibility_sm", "avg_visibility_impact",
    "origin_flight_category_impact", "dest_flight_category_impact", "avg_flight_category_impact",
    "pressure_diff_mb", "total_weather_impact", "comprehensive_weather_impact",
    "Fuel_Rate_kg_per_hour", "Aicraft_age"]

  /** `[col for col in wanted if col in present]`. */
  function KeepPresent(wanted: seq<string>, present: set<string>): seq<string> {
    if |wanted| == 0 then []
    else KeepPresent(wanted[..|wanted| - 1], present)
           + (if wanted[|wanted| - 1] in present then [wanted[|wanted| - 1]] else [])
  }

  /** The available features are exactly the wanted columns that are present, in
      their listed order. */
  lemma {:induction false} KeepPresentSpec(wanted: seq<string>, present: set<string>)
    ensures forall c :: c in KeepPresent(wanted, present) <==> c in wanted && c in present
    ensures IsSubsequence(KeepPresent(wanted, present), wanted)
  {
    if |wanted| > 0 {
      var init, last := wanted[..|wanted| - 1], wanted[|wanted| - 1];
      KeepPresentSpec(init, present);
      assert wanted == init + [last];
      var kept := KeepPresent(init, present);
      if last in present {
        SubsequenceExtend(kept, init, last);
      } else {
        assert KeepPresent(wanted, present) == kept + [] == kept;
        SubsequenceAppend(kept, init, [last]);
      }
    }
  }

  lemma {:induction false} SubsequenceExtend(sub: seq<string>, s: seq<string>, x: string)
    requires IsSubsequence(sub, s)
    ensures IsSubsequence(sub + [x], s + [x])
    decreases |s|
  {
    if |sub| == 0 {
      assert sub + [x] == [x];
      SubsequenceOfSingleton(s, x);
    } else if sub[0] == s[0] {
      assert (sub + [x])[1..] == sub[1..] + [x];
      assert (s + [x])[1..] == s[1..] + [x];
      SubsequenceExtend(sub[1..], s[1..], x);
    } else {
      assert (s + [x])[1..] == s[1..] + [x];
      SubsequenceExtend(sub, s[1..], x);
    }
  }

  lemma {:induction false} SubsequenceOfSingleton(s: seq<string>, x: string)
    ensures IsSubsequence([x], s + [x])
    decreases |s|
  {
    if |s| == 0 {
      assert IsSubsequence([x][1..], [x][1..]);
    } else if s[0] == x {
      assert IsSubsequence([x][1..], (s + [x])[1..]);
    } else {
      assert (s + [x])[1..] == s[1..] + [x];
      SubsequenceOfSingleton(s[1..], x);
    }
  }

  lemma {:induction false} SubsequenceAppend(sub: seq<string>, s: seq<string>, t: seq<string>)
    requires IsSubsequence(sub, s)
    ensures IsSubsequence(sub, s + t)
    decreases |s|
  {
    if |sub| == 0 {
    } else if sub[0] == s[0] {
      assert (s + t)[1..] == s[1..] + t;
      SubsequenceAppend(sub[1..], s[1..], t);
    } else {
      assert (s + t)[1..] == s[1..] + t;
      SubsequenceAppend(sub, s[1..], t);
    }
  }

  /** `available_features`. */
  function AvailableFeatures(present: set<string>): seq<string> {
    KeepPresent(FeatureColumns, present)
  }

  /** `Extra_Fuel_kg.fillna(0)`. */
  function Target(r: TrainingRow): real {
    r.extraFuelKg.GetOr(0.0)
  }

  /** The positions `valid_mask = y >= 0` keeps, in increasing order. */
  function KeptIndices(targets: seq<real>): (idx: seq<nat>)
    ensures forall k :: 0 <= k < |idx| ==> idx[k] < |targets| && targets[idx[k]] >= 0.0
  {
    if |targets| == 0 then []
    else KeptIndices(targets[..|targets| - 1]) + (if targets[|targets| - 1] >= 0.0 then [|targets| - 1] else [])
  }

  /** The mask keeps every non-negative target and nothing else, in the original order. */
  lemma {:induction false} KeptIndicesComplete(targets: seq<real>)
    ensures forall k, l :: 0 <= k < l < |KeptIndices(targets)| ==> KeptIndices(targets)[k] < KeptIndices(targets)[l]
    ensures forall i :: 0 <= i < |targets| && targets[i] >= 0.0 ==> i in KeptIndices(targets)
  {
    if |targets| > 0 {
      var init := targets[..|targets| - 1];
      KeptIndicesComplete(init);
      forall i | 0 <= i < |targets| && targets[i] >= 0.0 ensures i in KeptIndices(targets) {
        if i < |init| {
          assert init[i] == targets[i];
        }
      }
    }
  }

  /** When no target is negative the mask keeps every row. */
  lemma {:induction false} KeptIndicesAll(targets: seq<real>)
    requires forall i :: 0 <= i < |targets| ==> targets[i] >= 0.0
    ensures KeptIndices(targets) == seq(|targets|, i requires 0 <= i < |targets| => i as nat)
  {
    if |targets| > 0 {
      KeptIndicesAll(targets[..|targets| - 1]);
    }
  }

  /** The feature matrix, the target vector and the feature names. */
  datatype TrainingSet = TrainingSet(x: seq<seq<Option<real>>>, y: seq<real>, features: seq<string>)

  /** `create_weather_enhanced_features` before imputation: `cell(row, name)` reads
      one column of a row of the enhanced table whose column names are `present`. */
  function CreateWeatherEnhancedFeatures(rows: seq<TrainingRow>, present: set<string>,
                                         cell: (TrainingRow, string) -> Option<real>): (ts: TrainingSet)
    ensures |ts.x| == |ts.y|
    ensures forall k :: 0 <= k < |ts.y| ==> ts.y[k] >= 0.0
    ensures forall k :: 0 <= k < |ts.x| ==> |ts.x[k]| == |ts.features|
  {
    var features := AvailableFeatures(present);
    var targets := seq(|rows|, i requires 0 <= i < |rows| => Target(rows[i]));
    var idx := KeptIndices(targets);
    TrainingSet(
      seq(|idx|, k requires 0 <= k < |idx| =>
        seq(|features|, j requires 0 <= j < |features| => cell(rows[idx[k]], features[j]))),
      seq(|idx|, k requires 0 <= k < |idx| => targets[idx[k]]),
      features)
  }

  /** Features and targets are filtered by the same mask: the `k`-th kept row of
      both comes from the same original row, rows keep their relative order, and
      every row with a non-negative (or missing) target is kept. */
  lemma TrainingSetRowsAligned(rows: seq<TrainingRow>, present: set<string>, cell: (TrainingRow, string) -> Option<real>)
    ensures var ts := CreateWeatherEnhancedFeatures(rows, present, cell);
      var idx := KeptIndices(seq(|rows|, i requires 0 <= i < |rows| => Target(rows[i])));
      && |idx| == |ts.y|
      && (forall k :: 0 <= k < |idx| ==>
            && idx[k] < |rows| && ts.y[k] == Target(rows[idx[k]])
            && forall j :: 0 <= j < |ts.features| ==> ts.x[k][j] == cell(rows[idx[k]], ts.features[j]))
      && (forall k, l :: 0 <= k < l < |idx| ==> idx[k] < idx[l])
      && (forall i :: 0 <= i < |rows| && Target(rows[i]) >= 0.0 ==> i in idx)
  {
    KeptIndicesComplete(seq(|rows|, i requires 0 <= i < |rows| => Target(rows[i])));
  }

  /** Non-negative impacts and durations, as the simulated weather produces, give
      non-negative targets, so the mask drops no prepared row. */
  lemma NonNegativeImpactKeepsEveryRow(rows: seq<TrainingRow>, airports: Option<map<string, Coordinates>>,
                                       greatCircle: GreatCircle, present: set<string>,
                                       cell: (TrainingRow, string) -> Option<real>)
    requires forall i :: 0 <= i < |rows| ==>
      && (rows[i].comprehensiveWeatherImpact.Some? ==> rows[i].comprehensiveWeatherImpact.value >= 0.0)
      && (rows[i].flightDurationMin.Some? ==> rows[i].flightDurationMin.value >= 0.0)
    ensures |CreateWeatherEnhancedFeatures(Prepared(rows, airports, greatCircle), present, cell).y| == |rows|
  {
    var prepared := Prepared(rows, airports, greatCircle);
    var targets := seq(|prepared|, i requires 0 <= i < |prepared| => Target(prepared[i]));
    forall i | 0 <= i < |targets| ensures targets[i] >= 0.0 {
      PreparedFuelColumns(rows, airports, greatCircle, i);
      FuelRateIsDefaultIffUnmapped(rows[i].model);
      var p := prepared[i];
      if p.extraFuelKg.Some? {
        var rate, minutes := FuelRate(rows[i].model), rows[i].flightDurationMin.value;
        var b, c := p.baselineFuelKg.value, rows[i].comprehensiveWeatherImpact.value;
        assert b == rate * minutes / 60.0;
        assert rate * minutes >= 0.0;
        assert b >= 0.0 && c >= 0.0;
        assert b * c >= 0.0;
      }
    }
    KeptIndicesAll(targets);
  }
}
