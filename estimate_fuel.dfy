/** Aircraft fuel-rate resolver and per-flight fuel estimator
    (backend/src/estimate_fuel.py). */
module EstimateFuel {
  import opened Wrappers
  import opened Text

  /** One row of the ordered lookup table: a canonical model key and its cruise
      fuel flow in kg/hr. */
  datatype FuelEntry = FuelEntry(key: string, rate: real)

  /** The lookup table in its iteration (insertion) order. The two A220 rates are
      2600 L/hr converted at a jet-fuel density of 0.8 kg/L. */
  const FuelConsumptionLookup: seq<FuelEntry> := [
    FuelEntry("CRJ-100", 1800.0),
    FuelEntry("CRJ-200", 1900.0),
    FuelEntry("CRJ-400", 1850.0),
    FuelEntry("CRJ-700", 1500.0),
    FuelEntry("CRJ-705", 1600.0),
    FuelEntry("CRJ-900", 1600.0),
    FuelEntry("CRJ-1000", 1740.0),
    FuelEntry("A220-100", 2600.0 * 0.8),
    FuelEntry("A220-300", 2600.0 * 0.8)
  ]

  /** Assumed cruise speed of a jet, km/h. */
  const CruiseSpeedKmh: real := 850.0

  /** Aircraft type label reported when no table key matches. */
  const NoInfo: string := "no info"

  /** Python's `str()` of a Model cell: a missing cell (NaN) prints as "nan". */
  function CellText(model: Option<string>): string {
    if model.Some? then model.value else "nan"
  }

  /** The cleaning chain: upper-case, spaces become hyphens, then the
      manufacturer prefixes "CANADAI-" and "BOMBARDIER-" are deleted, in that order.
      "CANADAI-" is the program's own literal. It is kept as written, so it never
      fires on a "Canadair ..." name, which upper-cases to "CANADAIR-...". The rate
      is unaffected, since table matching is a substring test in both directions.
      The hyphen step is `replace(" ", "-")` by Text.HyphenateIsReplace. */
  function CleanModel(raw: string): (cleaned: string)
    ensures ' ' !in cleaned
    ensures forall c :: c in cleaned ==> !IsLowerAscii(c)
  {
    var upper := Upper(raw);
    var hyphenated := HyphenateSpaces(upper);
    var noCanadair := ReplaceAll(hyphenated, "CANADAI-", "");
    var r := ReplaceAll(noCanadair, "BOMBARDIER-", "");
    assert forall c :: c in hyphenated ==> c != ' ' && !IsLowerAscii(c) by {
      forall c | c in hyphenated ensures c != ' ' && !IsLowerAscii(c) {
        var k :| 0 <= k < |hyphenated| && hyphenated[k] == c;
        assert upper[k] in upper;
      }
    }
    RemovalKeepsCharacters(hyphenated, "CANADAI-");
    RemovalKeepsCharacters(noCanadair, "BOMBARDIER-");
    r
  }

  /** The bidirectional substring test of the lookup loop. */
  predicate Matches(key: string, cleaned: string) {
    IsSubstring(key, cleaned) || IsSubstring(cleaned, key)
  }

  /** The rate of the first entry, in table order, whose key matches
      (characterised by FirstMatchIsFirst). */
  function FirstMatch(table: seq<FuelEntry>, cleaned: string): Option<real> {
    if |table| == 0 then None
    else if Matches(table[0].key, cleaned) then Some(table[0].rate)
    else FirstMatch(table[1..], cleaned)
  }

  /** The lookup yields nothing exactly when no key matches; otherwise it yields the
      rate of a matching entry that no earlier entry precedes with a match. */
  lemma {:induction false} FirstMatchIsFirst(table: seq<FuelEntry>, cleaned: string)
    ensures FirstMatch(table, cleaned).None? <==> forall j :: 0 <= j < |table| ==> !Matches(table[j].key, cleaned)
    ensures FirstMatch(table, cleaned).Some? ==>
      exists k :: (0 <= k < |table| && Matches(table[k].key, cleaned)
        && FirstMatch(table, cleaned).value == table[k].rate
        && forall j :: 0 <= j < k ==> !Matches(table[j].key, cleaned))
  {
    if |table| > 0 && !Matches(table[0].key, cleaned) {
      FirstMatchIsFirst(table[1..], cleaned);
      assert forall j :: 1 <= j < |table| ==> table[j] == table[1..][j - 1];
      var r := FirstMatch(table[1..], cleaned);
      if r.Some? {
        var k :| 0 <= k < |table[1..]| && Matches(table[1..][k].key, cleaned)
          && r.value == table[1..][k].rate
          && forall j :: 0 <= j < k ==> !Matches(table[1..][j].key, cleaned);
        assert Matches(table[k + 1].key, cleaned) && r.value == table[k + 1].rate;
      }
    }
  }

  /** Flight time at cruise speed; a zero distance is special-cased to zero. */
  function FlightTimeHours(distanceKm: real): (hours: real)
    ensures hours * CruiseSpeedKmh == distanceKm
  {
    if distanceKm == 0.0 then 0.0 else distanceKm / CruiseSpeedKmh
  }

  /** Total fuel burnt over a flight of `distanceKm` at fuel flow `rate`. */
  function TotalFuelKg(rate: real, distanceKm: real): (fuel: real)
    ensures distanceKm == 0.0 ==> fuel == 0.0
    ensures fuel * CruiseSpeedKmh == rate * distanceKm
  {
    rate * FlightTimeHours(distanceKm)
  }

  /** The triple (fuel flow, total fuel, aircraft type info) returned by the estimator. */
  datatype LookupResult = LookupResult(fuelFlowKgHr: Option<real>, totalFuelKg: Option<real>, aircraftTypeInfo: string)

  /** What `estimate_fuel_consumption_from_lookup` returns, as a function of its inputs. */
  function Estimate(model: Option<string>, distanceKm: real): LookupResult {
    var flow := FirstMatch(FuelConsumptionLookup, CleanModel(CellText(model)));
    if flow.Some? then
      LookupResult(flow, Some(TotalFuelKg(flow.value, distanceKm)), CellText(model))
    else
      LookupResult(None, None, NoInfo)
  }

  /** The lookup loop: walk the table in order and stop at the first key that is a
      substring of the cleaned name or contains it. */
  method ScanTable(table: seq<FuelEntry>, cleaned: string) returns (fuelFlow: Option<real>)
    ensures fuelFlow == FirstMatch(table, cleaned)
  {
    fuelFlow := None;
    var i := 0;
    while i < |table|
      invariant 0 <= i <= |table|
      invariant fuelFlow == None
      invariant FirstMatch(table, cleaned) == FirstMatch(table[i..], cleaned)
    {
      var entry := table[i];
      if IsSubstring(entry.key, cleaned) || IsSubstring(cleaned, entry.key) {
        fuelFlow := Some(entry.rate);
        break;
      }
      assert table[i..][1..] == table[i + 1..];
      i := i + 1;
    }
  }

  /** The estimator: clean the name, scan the table until the first match, then
      turn distance into fuel. */
  method EstimateFuelConsumptionFromLookup(model: Option<string>, distanceKm: real) returns (r: LookupResult)
    ensures r == Estimate(model, distanceKm)
  {
    var cleaned := CleanModel(CellText(model));
    var fuelFlow := ScanTable(FuelConsumptionLookup, cleaned);
    if fuelFlow.Some? {
      var totalFuelKg := FuelForDistance(fuelFlow.value, distanceKm);
      r := LookupResult(fuelFlow, Some(totalFuelKg), CellText(model));
    } else {
      r := LookupResult(None, None, NoInfo);
    }
  }

  /** The arithmetic branch of the estimator: flight time at cruise speed, with
      zero distance special-cased, times the fuel flow. */
  method FuelForDistance(fuelFlowKgHr: real, distanceKm: real) returns (totalFuelKg: real)
    ensures totalFuelKg == TotalFuelKg(fuelFlowKgHr, distanceKm)
  {
    var flightTimeHours: real;
    if distanceKm == 0.0 {
      flightTimeHours := 0.0;
    } else {
      flightTimeHours := distanceKm / CruiseSpeedKmh;
    }
    totalFuelKg := fuelFlowKgHr * flightTimeHours;
  }

  // ----- the per-row driver -----

  /** A flight row after the airport-coordinate joins. */
  datatype FlightRow = FlightRow(
    flightDate: string, tailNumber: string, manufacturer: string, model: Option<string>,
    depLatitude: Option<real>, depLongitude: Option<real>,
    arrLatitude: Option<real>, arrLongitude: Option<real>)

  /** One row of the fuel-estimate table. */
  datatype FuelRow = FuelRow(
    flightDate: string, tailNumber: string, manufacturer: string, model: Option<string>,
    aircraftTypeInfo: Option<string>, estimatedDistanceKm: Option<real>,
    estimatedCruiseFuelFlowKgHr: Option<real>, estimatedTotalFuelKg: Option<real>)

  /** Great-circle distance, argument order (lat1, lon1, lat2, lon2). */
  type Haversine = (real, real, real, real) -> real

  predicate HasCoordinates(row: FlightRow) {
    row.depLatitude.Some? && row.depLongitude.Some? && row.arrLatitude.Some? && row.arrLongitude.Some?
  }

  /** The result row the driver emits for one flight row. */
  function EstimateRow(row: FlightRow, haversine: Haversine): FuelRow {
    if HasCoordinates(row) then
      var d := haversine(row.depLatitude.value, row.depLongitude.value,
                         row.arrLatitude.value, row.arrLongitude.value);
      var e := Estimate(row.model, d);
      FuelRow(row.flightDate, row.tailNumber, row.manufacturer, row.model,
              Some(e.aircraftTypeInfo), Some(d), e.fuelFlowKgHr, e.totalFuelKg)
    else
      FuelRow(row.flightDate, row.tailNumber, row.manufacturer, row.model, None, None, None, None)
  }

  /** The driver loop: one result row per input row, in input order. */
  method EstimateAll(rows: seq<FlightRow>, haversine: Haversine) returns (results: seq<FuelRow>)
    ensures |results| == |rows|
    ensures forall i :: 0 <= i < |rows| ==> results[i] == EstimateRow(rows[i], haversine)
  {
    results := [];
    var index := 0;
    while index < |rows|
      invariant 0 <= index <= |rows|
      invariant |results| == index
      invariant forall i :: 0 <= i < index ==> results[i] == EstimateRow(rows[i], haversine)
    {
      var row := rows[index];
      var distanceKm: Option<real> := None;
      if row.depLatitude.Some? && row.depLongitude.Some? && row.arrLatitude.Some? && row.arrLongitude.Some? {
        distanceKm := Some(haversine(row.depLatitude.value, row.depLongitude.value,
                                     row.arrLatitude.value, row.arrLongitude.value));
      }
      var fuelFlow: Option<real>, totalFuel: Option<real>, typeInfo: Option<string> := None, None, None;
      if distanceKm.Some? {
        var e := EstimateFuelConsumptionFromLookup(row.model, distanceKm.value);
        fuelFlow, totalFuel, typeInfo := e.fuelFlowKgHr, e.totalFuelKg, Some(e.aircraftTypeInfo);
      }
      results := results + [FuelRow(row.flightDate, row.tailNumber, row.manufacturer, row.model,
                                    typeInfo, distanceKm, fuelFlow, totalFuel)];
      index := index + 1;
    }
  }

  // ----- properties -----

  /** "Bombardier CRJ-900" cleans to "CRJ-900". */
  lemma CleanBombardierExample()
    ensures CleanModel("Bombardier CRJ-900") == "CRJ-900"
  {
    assert Upper("Bombardier CRJ-900") == "BOMBARDIER CRJ-900";
    assert HyphenateSpaces("BOMBARDIER CRJ-900") == "BOMBARDIER-CRJ-900";
    assert ReplaceAll("BOMBARDIER-CRJ-900", "CANADAI-", "") == "BOMBARDIER-CRJ-900" by {
      MissingCharNotSubstring("CANADAI-", "BOMBARDIER-CRJ-900", 'N');
      ReplaceAbsentPattern("BOMBARDIER-CRJ-900", "CANADAI-", "");
    }
    assert ReplaceAll("BOMBARDIER-CRJ-900", "BOMBARDIER-", "") == "CRJ-900";
  }

  /** The lookup returns the rate of entry `k` when `k` matches and no earlier entry does. */
  lemma {:induction false} FirstMatchAt(table: seq<FuelEntry>, cleaned: string, k: nat)
    requires k < |table| && Matches(table[k].key, cleaned)
    requires forall j :: 0 <= j < k ==> !Matches(table[j].key, cleaned)
    ensures FirstMatch(table, cleaned) == Some(table[k].rate)
  {
    if k > 0 {
      FirstMatchAt(table[1..], cleaned, k - 1);
    }
  }

  /** Two witness characters rule out a match in both directions. */
  lemma NoMatchByChars(key: string, cleaned: string, inKeyOnly: char, inCleanedOnly: char)
    requires inKeyOnly in key && inKeyOnly !in cleaned
    requires inCleanedOnly in cleaned && inCleanedOnly !in key
    ensures !Matches(key, cleaned)
  {
    MissingCharNotSubstring(key, cleaned, inKeyOnly);
    MissingCharNotSubstring(cleaned, key, inCleanedOnly);
  }

  /** A cleaned name with no "CANADAI-" and no "BOMBARDIER-" in its upper-cased,
      hyphenated form only goes through the first two steps. */
  lemma CleanWithoutPrefixes(raw: string, notCanadair: char, notBombardier: char)
    requires notCanadair in "CANADAI-" && notCanadair !in HyphenateSpaces(Upper(raw))
    requires notBombardier in "BOMBARDIER-" && notBombardier !in HyphenateSpaces(Upper(raw))
    ensures CleanModel(raw) == HyphenateSpaces(Upper(raw))
  {
    var h := HyphenateSpaces(Upper(raw));
    MissingCharNotSubstring("CANADAI-", h, notCanadair);
    ReplaceAbsentPattern(h, "CANADAI-", "");
    MissingCharNotSubstring("BOMBARDIER-", h, notBombardier);
    ReplaceAbsentPattern(h, "BOMBARDIER-", "");
  }

  /** Every cleaned name containing the first key "CRJ-100" resolves to its rate 1800.
      Every name containing "CRJ-1000" contains "CRJ-100", so the CRJ-1000 rate 1740
      is never returned for it (Crj1000Estimate). */
  lemma {:induction false} Crj1000ShadowedByCrj100(cleaned: string)
    requires IsSubstring("CRJ-100", cleaned)
    ensures FirstMatch(FuelConsumptionLookup, cleaned) == Some(1800.0)
  {
    FirstMatchAt(FuelConsumptionLookup, cleaned, 0);
  }

  /** When no entry matches, the lookup yields nothing. */
  lemma FirstMatchNone(table: seq<FuelEntry>, cleaned: string)
    requires forall j :: 0 <= j < |table| ==> !Matches(table[j].key, cleaned)
    ensures FirstMatch(table, cleaned) == None
  {
    FirstMatchIsFirst(table, cleaned);
  }

  lemma CleanCrj1000()
    ensures CleanModel("CRJ-1000") == "CRJ-1000"
  {
    assert Upper("CRJ-1000") == "CRJ-1000";
    assert HyphenateSpaces("CRJ-1000") == "CRJ-1000";
    CleanWithoutPrefixes("CRJ-1000", 'N', 'B');
  }

  /** The full name "CRJ-1000" starts with the earlier key "CRJ-100", so it gets fuel
      flow 1800 and not its own entry's 1740. */
  lemma Crj1000Estimate(distanceKm: real)
    ensures Estimate(Some("CRJ-1000"), distanceKm).fuelFlowKgHr == Some(1800.0)
  {
    CleanCrj1000();
    assert IsPrefix("CRJ-100", "CRJ-1000"[0..]);
    Crj1000ShadowedByCrj100("CRJ-1000");
  }

  /** The empty cleaned name is contained in every key, so the first key wins. */
  lemma EmptyNameResolvesToFirstEntry()
    ensures FirstMatch(FuelConsumptionLookup, "") == Some(1800.0)
  {
    assert IsPrefix("", "CRJ-100"[0..]);
    FirstMatchAt(FuelConsumptionLookup, "", 0);
  }

  /** No key before "CRJ-900" matches "CRJ-900", so its own rate 1600 is returned. */
  lemma Crj900Rate()
    ensures FirstMatch(FuelConsumptionLookup, "CRJ-900") == Some(1600.0)
  {
    var c := "CRJ-900";
    var t := FuelConsumptionLookup;
    forall j | 0 <= j < 5 ensures !Matches(t[j].key, c) {
      if j == 0 {
        NoMatchByChars(t[j].key, c, '1', '9');
      } else if j == 1 {
        NoMatchByChars(t[j].key, c, '2', '9');
      } else if j == 2 {
        NoMatchByChars(t[j].key, c, '4', '9');
      } else {
        NoMatchByChars(t[j].key, c, '7', '9');
      }
    }
    SubstringReflexive(c);
    FirstMatchAt(t, c, 5);
  }

  /** "Bombardier CRJ-900" gets the CRJ-900 rate 1600. */
  lemma BombardierCrj900Estimate(distanceKm: real)
    ensures Estimate(Some("Bombardier CRJ-900"), distanceKm).fuelFlowKgHr == Some(1600.0)
  {
    CleanBombardierExample();
    Crj900Rate();
  }

  /** "A220-100" resolves to 2600 * 0.8 = 2080: no CRJ key matches it. */
  lemma A220Dash100Rate()
    ensures FirstMatch(FuelConsumptionLookup, "A220-100") == Some(2080.0)
  {
    var t := FuelConsumptionLookup;
    var a := "A220-100";
    forall j | 0 <= j < 7 ensures !Matches(t[j].key, a) {
      KeyAlphabet(j);
      NoMatchByChars(t[j].key, a, 'C', 'A');
    }
    SubstringReflexive(a);
    FirstMatchAt(t, a, 7);
  }

  /** "A220-300" also resolves to 2080: neither the CRJ keys nor "A220-100" match it. */
  lemma A220Dash300Rate()
    ensures FirstMatch(FuelConsumptionLookup, "A220-300") == Some(2080.0)
  {
    var t := FuelConsumptionLookup;
    var b := "A220-300";
    forall j | 0 <= j < 7 ensures !Matches(t[j].key, b) {
      KeyAlphabet(j);
      NoMatchByChars(t[j].key, b, 'C', 'A');
    }
    assert t[7].key == "A220-100";
    NoMatchByChars(t[7].key, b, '1', '3');
    assert forall j :: 0 <= j < 8 ==> !Matches(t[j].key, b);
    SubstringReflexive(b);
    FirstMatchAt(t, b, 8);
  }

  /** The characters of each key: the CRJ keys start with 'C' and have 'J' and no
      'A'; the A220 keys start with 'A' and have '2' and no 'C'. */
  lemma KeyAlphabet(j: nat)
    requires j < |FuelConsumptionLookup|
    ensures var key := FuelConsumptionLookup[j].key;
      && (forall c :: c in key ==> c in "CRJ-01234579A")
      && (j < 7 ==> 'C' in key && 'J' in key && 'A' !in key)
      && (j >= 7 ==> 'A' in key && '2' in key && 'C' !in key)
  {
    var key := FuelConsumptionLookup[j].key;
    if j == 0 { assert key == "CRJ-100"; }
    else if j == 1 { assert key == "CRJ-200"; }
    else if j == 2 { assert key == "CRJ-400"; }
    else if j == 3 { assert key == "CRJ-700"; }
    else if j == 4 { assert key == "CRJ-705"; }
    else if j == 5 { assert key == "CRJ-900"; }
    else if j == 6 { assert key == "CRJ-1000"; }
    else if j == 7 { assert key == "A220-100"; }
    else { assert key == "A220-300"; }
  }

  /** A cleaned name matches no key when it lacks 'J' and '2' and has a character
      that occurs in no key. */
  lemma NoKeyMatches(cleaned: string, foreign: char)
    requires 'J' !in cleaned && '2' !in cleaned
    requires foreign in cleaned && foreign !in "CRJ-01234579A"
    ensures FirstMatch(FuelConsumptionLookup, cleaned) == None
  {
    forall j | 0 <= j < |FuelConsumptionLookup| ensures !Matches(FuelConsumptionLookup[j].key, cleaned) {
      KeyAlphabet(j);
      NoMatchByChars(FuelConsumptionLookup[j].key, cleaned, if j < 7 then 'J' else '2', foreign);
    }
    FirstMatchNone(FuelConsumptionLookup, cleaned);
  }

  lemma CleanUnknownExample()
    ensures CleanModel("Unknown-Aircraft-XYZ") == "UNKNOWN-AIRCRAFT-XYZ"
  {
    var u := Upper("Unknown-Aircraft-XYZ");
    assert u == "UNKNOWN-AIRCRAFT-XYZ";
    var h := HyphenateSpaces(u);
    assert h == u by {
      forall i | 0 <= i < |u| ensures h[i] == u[i] {
        assert u[i] != ' ';
      }
    }
    assert 'D' !in h && 'B' !in h by {
      forall i | 0 <= i < |h| ensures h[i] != 'D' && h[i] != 'B' {
        assert h[i] == "UNKNOWN-AIRCRAFT-XYZ"[i];
      }
    }
    CleanWithoutPrefixes("Unknown-Aircraft-XYZ", 'D', 'B');
  }

  /** "Unknown-Aircraft-XYZ" matches no key: the result is (None, None, "no info"). */
  lemma UnknownAircraftUnresolved(distanceKm: real)
    ensures Estimate(Some("Unknown-Aircraft-XYZ"), distanceKm) == LookupResult(None, None, NoInfo)
  {
    CleanUnknownExample();
    NoKeyMatches("UNKNOWN-AIRCRAFT-XYZ", 'U');
  }

  lemma CleanNanExample()
    ensures CleanModel("nan") == "NAN"
  {
    assert Upper("nan") == "NAN";
    assert HyphenateSpaces("NAN") == "NAN";
    CleanWithoutPrefixes("nan", 'C', 'B');
  }

  /** A missing Model cell prints as "nan", which cleans to "NAN" and matches no key. */
  lemma MissingModelUnresolved(distanceKm: real)
    ensures Estimate(None, distanceKm) == LookupResult(None, None, NoInfo)
  {
    CleanNanExample();
    NoKeyMatches("NAN", 'N');
  }

  /** The estimator's result: fuel flow and total fuel are set together; when they
      are missing the type info is "no info"; when they are set the model was present,
      the type info is that original (uncleaned) model string, the rate is the
      first-match rate and the total is rate x distance / 850. */
  lemma EstimateShape(model: Option<string>, distanceKm: real)
    ensures var e := Estimate(model, distanceKm);
      && (e.fuelFlowKgHr.Some? <==> e.totalFuelKg.Some?)
      && (e.fuelFlowKgHr.None? ==> e.aircraftTypeInfo == NoInfo)
      && (e.fuelFlowKgHr.Some? ==>
            && model.Some? && e.aircraftTypeInfo == model.value
            && e.fuelFlowKgHr == FirstMatch(FuelConsumptionLookup, CleanModel(model.value))
            && e.totalFuelKg.value * CruiseSpeedKmh == e.fuelFlowKgHr.value * distanceKm)
  {
    if model.None? {
      MissingModelUnresolved(distanceKm);
    }
  }

  /** 850 km at 1800 kg/hr is one hour of flight: 1800 kg. */
  lemma OneHourExample()
    ensures TotalFuelKg(1800.0, 850.0) == 1800.0
  {
  }

  /** Per result row: fuel flow and total fuel are set together; a row with a
      missing coordinate has no distance, no fuel and no type info (None, not
      "no info"); a row with fuel has a distance and carries the original model. */
  lemma EstimateRowShape(row: FlightRow, haversine: Haversine)
    ensures var r := EstimateRow(row, haversine);
      && r.flightDate == row.flightDate && r.tailNumber == row.tailNumber
      && r.manufacturer == row.manufacturer && r.model == row.model
      && (r.estimatedCruiseFuelFlowKgHr.Some? <==> r.estimatedTotalFuelKg.Some?)
      && (!HasCoordinates(row) ==>
            r.estimatedDistanceKm.None? && r.estimatedCruiseFuelFlowKgHr.None?
            && r.estimatedTotalFuelKg.None? && r.aircraftTypeInfo.None?)
      && (HasCoordinates(row) <==> r.estimatedDistanceKm.Some?)
      && (r.estimatedCruiseFuelFlowKgHr.Some? ==> r.aircraftTypeInfo == row.model)
      && (HasCoordinates(row) && r.estimatedCruiseFuelFlowKgHr.None? ==> r.aircraftTypeInfo == Some(NoInfo))
  {
    if HasCoordinates(row) {
      var d := haversine(row.depLatitude.value, row.depLongitude.value,
                         row.arrLatitude.value, row.arrLongitude.value);
      EstimateShape(row.model, d);
    }
  }

  lemma CleanB737Example()
    ensures CleanModel("B737") == "B737"
  {
    assert Upper("B737") == "B737";
    assert HyphenateSpaces("B737") == "B737";
    CleanWithoutPrefixes("B737", 'C', 'O');
  }

  /** A row can have a distance but no fuel: coordinates resolved, aircraft type not
      (here model "B737"). Distance, fuel flow and total fuel are therefore not
      "all set or all missing"; only fuel flow and total fuel go together. */
  lemma DistanceWithoutFuel(haversine: Haversine)
    ensures var r := EstimateRow(FlightRow("2023-01-01", "N1", "Boeing", Some("B737"),
                                           Some(40.0), Some(-73.0), Some(42.0), Some(-71.0)), haversine);
      r.estimatedDistanceKm.Some? && r.estimatedCruiseFuelFlowKgHr.None? && r.aircraftTypeInfo == Some(NoInfo)
  {
    CleanB737Example();
    NoKeyMatches("B737", 'B');
  }
}
