/** Weather severity scoring and the derived per-flight weather features, shared by
    the simulated path (backend/src/simulate_weather_integration.py) and the live
    METAR path (backend/src/integrate_metar.py), which use the same weights and
    defaults. */
module WeatherImpact {
  import opened Wrappers

  /** The weather columns a flight row carries for one of its airports after the
      left join on the airport code. Every field is missing when no observation
      was joined, and may be missing in a joined observation too. */
  datatype SideWeather = SideWeather(
    temperatureC: Option<real>,
    windSpeedKt: Option<real>,
    visibilitySm: Option<real>,
    presentWeather: Option<string>,
    flightCategory: Option<string>,
    seaLevelPressureMb: Option<real>)

  /** The columns of a flight whose airport had no observation. */
  const NoWeather: SideWeather := SideWeather(None, None, None, None, None, None)

  /** Wind impact: the wind speed, missing counted as 0. */
  function WindImpact(w: SideWeather): real {
    w.windSpeedKt.GetOr(0.0)
  }

  /** Visibility impact: the deficit below 10 statute miles, missing counted as 10. */
  function VisibilityImpact(w: SideWeather): real {
    10.0 - w.visibilitySm.GetOr(10.0)
  }

  /** 1 when the present-weather string is non-empty, else 0 (missing counts as empty). */
  function PresentWeatherIndicator(w: SideWeather): real {
    if w.presentWeather.Some? && |w.presentWeather.value| > 0 then 1.0 else 0.0
  }

  /** Per-airport severity. */
  function WeatherSeverity(w: SideWeather): real {
    WindImpact(w) * 0.3 + VisibilityImpact(w) * 0.4 + PresentWeatherIndicator(w) * 0.3
  }

  /** The flight-category map VFR 0, MVFR 1, IFR 2, LIFR 3; anything else,
      missing included, is 0. */
  function FlightCategoryImpact(category: Option<string>): (impact: real)
    ensures 0.0 <= impact <= 3.0
    ensures impact != 0.0 <==> category in {Some("MVFR"), Some("IFR"), Some("LIFR")}
  {
    match category
    case Some("VFR") => 0.0
    case Some("MVFR") => 1.0
    case Some("IFR") => 2.0
    case Some("LIFR") => 3.0
    case _ => 0.0
  }

  /** destination minus origin, missing when either side is missing. */
  function Difference(dest: Option<real>, origin: Option<real>): (d: Option<real>)
    ensures d.Some? <==> dest.Some? && origin.Some?
    ensures d.Some? ==> origin.value + d.value == dest.value
  {
    if dest.Some? && origin.Some? then Some(dest.value - origin.value) else None
  }

  function Abs(x: real): real {
    if x < 0.0 then -x else x
  }

  /** The weather-derived columns computed for one flight row. */
  datatype FlightWeatherFeatures = FlightWeatherFeatures(
    tempDiffC: Option<real>,
    originWindImpact: real, destWindImpact: real, avgWindImpact: real,
    originVisibilityImpact: real, destVisibilityImpact: real, avgVisibilityImpact: real,
    originWeatherSeverity: real, destWeatherSeverity: real, totalWeatherImpact: real,
    originFlightCategoryImpact: real, destFlightCategoryImpact: real, avgFlightCategoryImpact: real,
    pressureDiffMb: Option<real>,
    comprehensiveWeatherImpact: real)

  /** The comprehensive impact from the averaged impacts and the two differences,
      missing differences counted as 0. */
  function ComprehensiveImpact(avgWind: real, avgVisibility: real, avgCategory: real,
                               tempDiff: Option<real>, pressureDiff: Option<real>): real
  {
    avgWind * 0.25 + avgVisibility * 0.25 + avgCategory * 0.3
      + Abs(tempDiff.GetOr(0.0)) * 0.1 + Abs(pressureDiff.GetOr(0.0)) * 0.1
  }

  /** All derived weather columns of a flight with the given origin and destination weather. */
  function DeriveFeatures(origin: SideWeather, dest: SideWeather): FlightWeatherFeatures {
    var tempDiff := Difference(dest.temperatureC, origin.temperatureC);
    var ow, dw := WindImpact(origin), WindImpact(dest);
    var ov, dv := VisibilityImpact(origin), VisibilityImpact(dest);
    var os, ds := WeatherSeverity(origin), WeatherSeverity(dest);
    var oc, dc := FlightCategoryImpact(origin.flightCategory), FlightCategoryImpact(dest.flightCategory);
    var pressureDiff := Difference(dest.seaLevelPressureMb, origin.seaLevelPressureMb);
    var avgWind, avgVisibility, avgCategory := (ow + dw) / 2.0, (ov + dv) / 2.0, (oc + dc) / 2.0;
    FlightWeatherFeatures(
      tempDiff, ow, dw, avgWind, ov, dv, avgVisibility, os, ds, os + ds, oc, dc, avgCategory,
      pressureDiff, ComprehensiveImpact(avgWind, avgVisibility, avgCategory, tempDiff, pressureDiff))
  }

  /** Weather as real observations report it: a non-negative wind speed and a
      visibility between 0 and 10 statute miles. */
  predicate Plausible(w: SideWeather) {
    (w.windSpeedKt.Some? ==> w.windSpeedKt.value >= 0.0)
    && (w.visibilitySm.Some? ==> 0.0 <= w.visibilitySm.value <= 10.0)
  }

  // ----- properties of the scores -----

  /** A missing cell scores as its default: missing wind as calm (0 kt), missing
      visibility as 10 miles, missing present weather as the empty string. */
  lemma SeverityMissingDefaults(w: SideWeather)
    ensures WeatherSeverity(w.(windSpeedKt := None)) == WeatherSeverity(w.(windSpeedKt := Some(0.0)))
    ensures WeatherSeverity(w.(visibilitySm := None)) == WeatherSeverity(w.(visibilitySm := Some(10.0)))
    ensures WeatherSeverity(w.(presentWeather := None)) == WeatherSeverity(w.(presentWeather := Some("")))
  {
  }

  /** Severity rises with wind and falls with visibility: more wind or less
      visibility never lowers it, each extra knot adds 0.3 and each mile of
      visibility lost adds 0.4. */
  lemma SeverityMonotone(w: SideWeather, calmer: real, windier: real, clearer: real, hazier: real)
    requires calmer <= windier && hazier <= clearer
    ensures var before := w.(windSpeedKt := Some(calmer), visibilitySm := Some(clearer));
      var after := w.(windSpeedKt := Some(windier), visibilitySm := Some(hazier));
      && WeatherSeverity(before) <= WeatherSeverity(after)
      && WeatherSeverity(after) - WeatherSeverity(before) == 0.3 * (windier - calmer) + 0.4 * (clearer - hazier)
  {
  }

  /** No observation at all scores 0; wind 10 with visibility missing and weather ""
      scores 3.0. */
  lemma SeverityExamples()
    ensures WeatherSeverity(NoWeather) == 0.0
    ensures WeatherSeverity(SideWeather(None, Some(10.0), None, Some(""), None, None)) == 3.0
  {
  }

  /** Plausible weather has a severity between 0 and 0.3 x wind + 4.3; any present
      weather adds exactly 0.3. */
  lemma SeverityBounds(w: SideWeather)
    requires Plausible(w)
    ensures WeatherSeverity(w) >= 0.0
    ensures WeatherSeverity(w) <= 0.3 * WindImpact(w) + 4.3
    ensures w.presentWeather.Some? && |w.presentWeather.value| > 0 ==>
      WeatherSeverity(w) == WeatherSeverity(w.(presentWeather := None)) + 0.3
  {
  }

  /** Plausible weather at both ends gives non-negative total and comprehensive impact. */
  lemma ImpactNonNegative(origin: SideWeather, dest: SideWeather)
    requires Plausible(origin) && Plausible(dest)
    ensures DeriveFeatures(origin, dest).totalWeatherImpact >= 0.0
    ensures DeriveFeatures(origin, dest).comprehensiveWeatherImpact >= 0.0
  {
    SeverityBounds(origin);
    SeverityBounds(dest);
  }

  /** A visibility above 10 miles can make the impact negative: visibility 15 at
      both ends, with calm wind, no present weather, VFR and no temperature or
      pressure difference, gives a negative total and comprehensive impact. */
  lemma HighVisibilityGivesNegativeImpact()
    ensures var clearSky := SideWeather(None, Some(0.0), Some(15.0), Some(""), Some("VFR"), None);
      DeriveFeatures(clearSky, clearSky).totalWeatherImpact < 0.0
      && DeriveFeatures(clearSky, clearSky).comprehensiveWeatherImpact < 0.0
  {
  }

  /** Swapping origin and destination keeps total and comprehensive impact, swaps the
      per-airport columns and negates the temperature and pressure differences. */
  lemma SwapOriginAndDestination(origin: SideWeather, dest: SideWeather)
    ensures var f, g := DeriveFeatures(origin, dest), DeriveFeatures(dest, origin);
      && g.totalWeatherImpact == f.totalWeatherImpact
      && g.comprehensiveWeatherImpact == f.comprehensiveWeatherImpact
      && g.originWeatherSeverity == f.destWeatherSeverity
      && g.destWeatherSeverity == f.originWeatherSeverity
      && g.avgWindImpact == f.avgWindImpact
      && g.avgVisibilityImpact == f.avgVisibilityImpact
      && g.avgFlightCategoryImpact == f.avgFlightCategoryImpact
      && (g.tempDiffC.Some? <==> f.tempDiffC.Some?)
      && (g.tempDiffC.Some? ==> g.tempDiffC.value == -f.tempDiffC.value)
      && (g.pressureDiffMb.Some? <==> f.pressureDiffMb.Some?)
      && (g.pressureDiffMb.Some? ==> g.pressureDiffMb.value == -f.pressureDiffMb.value)
  {
  }

  /** A flight with no weather at either end gets zero for every impact column and
      missing differences. */
  lemma NoWeatherNoImpact()
    ensures var f := DeriveFeatures(NoWeather, NoWeather);
      && f.totalWeatherImpact == 0.0 && f.comprehensiveWeatherImpact == 0.0
      && f.avgFlightCategoryImpact == 0.0 && f.tempDiffC.None? && f.pressureDiffMb.None?
  {
    assert FlightCategoryImpact(None) == 0.0;
    assert WeatherSeverity(NoWeather) == 0.0;
  }

  // ----- column renaming before the joins -----

  /** The observation column naming the airport. */
  const KeyColumn: string := "icao_id"

  /** `[prefix + col if col != 'icao_id' else keyName for col in columns]`. */
  function RenameColumns(columns: seq<string>, prefix: string, keyName: string): (renamed: seq<string>)
    ensures |renamed| == |columns|
  {
    seq(|columns|, i requires 0 <= i < |columns| =>
      if columns[i] == KeyColumn then keyName else prefix + columns[i])
  }

  /** The inverse of renaming one column. */
  function OriginalColumn(column: string, prefix: string, keyName: string): string {
    if column == keyName then KeyColumn
    else if |prefix| <= |column| then column[|prefix|..]
    else column
  }

  /** Renaming loses nothing: when the join key does not itself start with the
      prefix, every original column name, in order, is recovered from the renamed one. */
  lemma RenameRoundTrip(columns: seq<string>, prefix: string, keyName: string)
    requires !(|prefix| <= |keyName| && keyName[..|prefix|] == prefix)
    ensures forall i :: 0 <= i < |columns| ==>
      OriginalColumn(RenameColumns(columns, prefix, keyName)[i], prefix, keyName) == columns[i]
  {
    var renamed := RenameColumns(columns, prefix, keyName);
    forall i | 0 <= i < |columns|
      ensures OriginalColumn(renamed[i], prefix, keyName) == columns[i]
    {
      if columns[i] != KeyColumn {
        var r := prefix + columns[i];
        assert r[..|prefix|] == prefix;
        assert r != keyName;
        assert r[|prefix|..] == columns[i];
      }
    }
  }

  /** The origin copy and the destination copy of the observation table share no
      column name, so the two joins never collide. */
  lemma OriginAndDestinationColumnsDisjoint(columns: seq<string>)
    ensures forall i, j :: 0 <= i < |columns| && 0 <= j < |columns| ==>
      RenameColumns(columns, "origin_", "Dep_Airport")[i] != RenameColumns(columns, "dest_", "Arr_Airport")[j]
  {
    var o := RenameColumns(columns, "origin_", "Dep_Airport");
    var d := RenameColumns(columns, "dest_", "Arr_Airport");
    forall i, j | 0 <= i < |columns| && 0 <= j < |columns| ensures o[i] != d[j] {
      assert o[i][0] in {'o', 'D'};
      assert d[j][0] in {'d', 'A'};
    }
  }
}
