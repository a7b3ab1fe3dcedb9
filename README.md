# Flight fuel and weather-impact pipeline — a Dafny model

This project models the per-flight feature pipeline of a flight-fuel study.
The pipeline turns flight rows into fuel estimates and weather-impact scores.
It has four steps, one Dafny module each:

- `EstimateFuel` (`estimate_fuel.dfy`) — the lookup-based fuel estimator.
  - An aircraft model name is cleaned: upper-cased, spaces become hyphens, and the prefixes "CANADAI-" and "BOMBARDIER-" are removed.
  - The cleaned name is then matched against an ordered table of nine CRJ/A220 keys. The test is a substring test in both directions, and the first match wins.
  - The matched fuel flow is turned into total fuel at a cruise speed of 850 km/h.
  - A driver loop emits one result row per flight. Rows whose coordinates are missing are left empty.
- `SimulateWeather` (`simulate_weather.dfy`) — the synthetic weather generator.
  - Four scenarios: clear, cloudy, rainy and stormy. The nested generator loop draws `n` observations per airport.
  - The flights are joined with these observations at both ends.
- `IntegrateMetar` (`integrate_metar.dfy`) — the live METAR path.
  - Airport codes are requested in batches of 20, with at most 100 airports. The JSON reports are parsed with per-key defaults.
  - The flights are joined with the reports, or left unchanged when nothing was parsed.
- `WeatherEnhancedModels` (`weather_enhanced_models.dfy`) — the training-data preparation.
  - Distance comes from the great circle or from the fallback duration × 850 / 60.
  - The fuel rate is an exact-key lookup with a default of 1000 kg/h.
  - It computes baseline fuel, the weather impact factor 1 + impact / 50, adjusted fuel and extra fuel.
  - Features are filtered by column, and rows by a non-negative target.

The remaining modules are shared:

- `WeatherImpact` (`weather_impact.dfy`) has the scores that both weather paths compute:
  - per-airport wind, visibility and severity;
  - the flight-category scale;
  - temperature and pressure differences;
  - the total and "comprehensive" impacts;
  - the `origin_`/`dest_` column renaming.
- `FlightJoin` (`weather_join.dfy`) is the two left joins on departure and arrival code. Each flight yields one row for every pair of matching origin and destination observations, or one row with missing weather.
- `Text` (`text.dfy`) holds the string operations:
  - upper-casing;
  - replace-all;
  - comma join and split;
  - substring and subsequence tests.
- `Wrappers` (`wrappers.dfy`) holds `Option`.

A missing data-frame cell is `None`. Floating-point columns are `real`. A table is a `seq` of records.

The loops that update variables step by step are methods. Each is proved equal to a specification function:

- the table scan and the driver loop of the estimator;
- the generator's nested loops;
- the batch loop and the parse loop of the METAR path.

The training-data preparation updates its table in place, column by column. It is a method over an `array` of rows with three loops.

The great-circle distance, the HTTP request and the random draws are parameters of the model.

Where the model follows the code rather than its evident intent:

- In the estimator, a row with coordinates but an unresolved aircraft type has a distance and no fuel. So distance, fuel flow and total fuel are not "all set or all missing"; only fuel flow and total fuel go together (`EstimateFuel.DistanceWithoutFuel`).
- The extra fuel is not always non-negative. A visibility above 10 miles can make the comprehensive impact negative. It does so, for instance, at visibility 15 at both ends with calm wind, no present weather, VFR and no temperature or pressure difference (`WeatherImpact.HighVisibilityGivesNegativeImpact`). On a positive baseline the extra fuel is then negative (`WeatherEnhancedModels.ExtraFuelIsScaledBaseline`), and the target mask drops that row.
- When the coordinate table loads and some rows have all four coordinates, the other rows keep whatever `Estimated_Distance_km` they already had. They are not reset to missing (`WeatherEnhancedModels.DistanceCases`).
- The joins are modelled with pandas' row multiplication. Several observations for one airport give several rows for one flight (`FlightJoin.CombineLength`). One row per flight is proved for the case of at most one observation per code (`FlightJoin.JoinWithDistinctKeys`), which is the case for the simulated data when `n = 1` (`SimulateWeather.SimulatedOneRowPerFlight`).

## Model

| member | source | states |
|---|---|---|
| EstimateFuel.CleanModel | backend/src/estimate_fuel.py:36 | the cleaned name has no space and no lower-case ASCII letter |
| Text.HyphenateIsReplace | backend/src/estimate_fuel.py:36 | the hyphenation step equals `replace(" ", "-")` |
| Text.RemovalKeepsCharacters | backend/src/estimate_fuel.py:36 | deleting a prefix occurrence never lengthens the name nor introduces a character |
| Text.ReplaceAbsentPattern | backend/src/estimate_fuel.py:36 | replacing a pattern that does not occur leaves the string unchanged |
| EstimateFuel.CleanWithoutPrefixes | backend/src/estimate_fuel.py:36 | a name lacking a character of each prefix cleans to its upper-cased, hyphenated form |
| EstimateFuel.CleanBombardierExample | backend/src/estimate_fuel.py:36 | "Bombardier CRJ-900" cleans to "CRJ-900" |
| EstimateFuel.CleanCrj1000 | backend/src/estimate_fuel.py:36 | "CRJ-1000" is unchanged by cleaning |
| EstimateFuel.CleanUnknownExample | backend/src/estimate_fuel.py:36 | "Unknown-Aircraft-XYZ" cleans to "UNKNOWN-AIRCRAFT-XYZ" |
| EstimateFuel.CleanNanExample | backend/src/estimate_fuel.py:36 | a missing model, printed "nan", cleans to "NAN" |
| EstimateFuel.CleanB737Example | backend/src/estimate_fuel.py:36 | "B737" is unchanged by cleaning |
| EstimateFuel.FirstMatchIsFirst | backend/src/estimate_fuel.py:38-42 | no rate exactly when no key matches in either direction; otherwise the rate of a matching key that no earlier key precedes with a match |
| EstimateFuel.FirstMatchAt | backend/src/estimate_fuel.py:38-42 | a matching entry preceded by no match determines the rate |
| EstimateFuel.FirstMatchNone | backend/src/estimate_fuel.py:38-42 | when no key matches the scan yields nothing |
| EstimateFuel.NoMatchByChars | backend/src/estimate_fuel.py:40 | a key and a name each holding a character the other lacks do not match in either direction |
| EstimateFuel.ScanTable | backend/src/estimate_fuel.py:38-42 | the loop with `break` returns the first-match rate |
| EstimateFuel.KeyAlphabet | backend/src/estimate_fuel.py:8-18 | the characters of the nine keys: CRJ keys have 'C','J' and no 'A'; A220 keys have 'A','2' and no 'C' |
| EstimateFuel.NoKeyMatches | backend/src/estimate_fuel.py:38-42 | a name without 'J' and '2' holding a character foreign to every key resolves to nothing |
| EstimateFuel.Crj1000ShadowedByCrj100 | backend/src/estimate_fuel.py:9-15 | every cleaned name containing the first key "CRJ-100" (so every name containing "CRJ-1000") resolves to 1800, the CRJ-100 rate |
| EstimateFuel.Crj1000Estimate | backend/src/estimate_fuel.py:9-15 | the model "CRJ-1000" gets 1800, not its own 1740 |
| EstimateFuel.EmptyNameResolvesToFirstEntry | backend/src/estimate_fuel.py:39-41 | the empty cleaned name is in every key, so the first entry's 1800 is returned |
| EstimateFuel.Crj900Rate | backend/src/estimate_fuel.py:14 | "CRJ-900" matches no earlier key and gets 1600 |
| EstimateFuel.BombardierCrj900Estimate | backend/src/estimate_fuel.py:34-54 | "Bombardier CRJ-900" gets fuel flow 1600 |
| EstimateFuel.A220Dash100Rate | backend/src/estimate_fuel.py:16 | "A220-100" gets 2600 × 0.8 = 2080 |
| EstimateFuel.A220Dash300Rate | backend/src/estimate_fuel.py:17 | "A220-300" also gets 2080 |
| EstimateFuel.UnknownAircraftUnresolved | backend/src/estimate_fuel.py:55-56 | an unknown model gives exactly (None, None, "no info") |
| EstimateFuel.MissingModelUnresolved | backend/src/estimate_fuel.py:34-56 | a missing model ("NAN") gives exactly (None, None, "no info") |
| EstimateFuel.FlightTimeHours | backend/src/estimate_fuel.py:46-50 | flight time at 850 km/h covers exactly the distance, zero included |
| EstimateFuel.TotalFuelKg | backend/src/estimate_fuel.py:46-52 | zero distance gives zero fuel; otherwise fuel × 850 = rate × distance |
| EstimateFuel.FuelForDistance | backend/src/estimate_fuel.py:44-52 | the branchy arithmetic computes the total-fuel function |
| EstimateFuel.OneHourExample | backend/src/estimate_fuel.py:46-52 | 850 km at 1800 kg/h is 1800 kg |
| EstimateFuel.EstimateFuelConsumptionFromLookup | backend/src/estimate_fuel.py:34-56 | the estimator returns the specified triple |
| EstimateFuel.EstimateShape | backend/src/estimate_fuel.py:44-56 | flow and total set together; unresolved gives "no info"; resolved gives the original uncleaned model, the first-match rate and total × 850 = rate × distance |
| EstimateFuel.EstimateAll | backend/src/estimate_fuel.py:80-105 | one result row per input row, in input order, each the specified row |
| EstimateFuel.EstimateRowShape | backend/src/estimate_fuel.py:82-103 | identity columns copied; flow and total together; missing coordinate gives no distance, no fuel and type info None; distance present iff all four coordinates are |
| EstimateFuel.DistanceWithoutFuel | backend/src/estimate_fuel.py:83-92 | a row with coordinates and model "B737" has a distance, no fuel flow and "no info" |
| SimulateWeather.SimulateMetarData | backend/src/simulate_weather_integration.py:51-85 | the nested loops produce the observations airport by airport, draw by draw |
| SimulateWeather.ForAirport | backend/src/simulate_weather_integration.py:52-83 | one observation per draw for an airport |
| SimulateWeather.GeneratedLength | backend/src/simulate_weather_integration.py:51-83 | len(airports) × n observations |
| SimulateWeather.GeneratedAt | backend/src/simulate_weather_integration.py:51-83 | observation a·n + i is built from airport a's i-th draw |
| SimulateWeather.GeneratedLayout | backend/src/simulate_weather_integration.py:51-83 | length len(airports) × n, grouped by airport in input order |
| SimulateWeather.ObserveFollowsScenario | backend/src/simulate_weather_integration.py:54-81 | an observation from a valid draw carries its airport and scenario and follows the scenario's ranges and labels |
| SimulateWeather.GeneratedFollowsScenario | backend/src/simulate_weather_integration.py:51-83 | every generated observation follows its scenario (gust 5-15 above wind, direction 0-360) and names a requested airport |
| SimulateWeather.ScenarioScores | backend/src/simulate_weather_integration.py:20-49 | the scenarios score 0, 1, 2, 3 on the category scale, and only clear weather has no weather code |
| SimulateWeather.GeneratedOnePerAirport | backend/src/simulate_weather_integration.py:110 | with one draw per airport, observation a is airport a's |
| SimulateWeather.LookupDrawn | backend/src/simulate_weather_integration.py:126-127 | the observation joined for a code is the one drawn for it |
| SimulateWeather.EnhanceWithSimulatedWeather | backend/src/simulate_weather_integration.py:110-182 | a KeyError exactly when no observation was generated (the empty frame has no join column); otherwise one scored row per joined row |
| SimulateWeather.NoAirportsRaiseKeyError | backend/src/simulate_weather_integration.py:102-126 | flights without any airport code draw no observation, so the first merge raises KeyError |
| SimulateWeather.DrawnAirportHasFlight | backend/src/simulate_weather_integration.py:102-104 | every airport drawn for is the departure or arrival code of some flight |
| SimulateWeather.SimulatedOneRowPerFlight | backend/src/simulate_weather_integration.py:102-127 | with the airports distinct, at least one, and n = 1, the enhancement succeeds with exactly one row per flight, in order, holding the weather drawn for its airports |
| SimulateWeather.SidePlausible | backend/src/simulate_weather_integration.py:60-63 | a simulated observation has non-negative wind and visibility between 0 and 10 |
| SimulateWeather.SimulatedImpactNonNegative | backend/src/simulate_weather_integration.py:158-182 | when the enhancement succeeds, every row scored from valid draws has non-negative total and comprehensive impact |
| WeatherImpact.SeverityMissingDefaults | backend/src/simulate_weather_integration.py:136-156 | a missing wind scores as calm (0), a missing visibility as 10 miles, missing weather as "" |
| WeatherImpact.SeverityMonotone | backend/src/simulate_weather_integration.py:146-156 | more wind or less visibility never lowers severity; each knot adds 0.3, each mile of visibility lost adds 0.4 |
| WeatherImpact.SeverityExamples | backend/src/simulate_weather_integration.py:146-150 | no observation scores 0; wind 10, visibility missing, weather "" scores 3.0 |
| WeatherImpact.SeverityBounds | backend/src/simulate_weather_integration.py:146-156 | plausible weather (wind ≥ 0, visibility in [0, 10] or missing): severity ≥ 0 and at most 0.3·wind + 4.3, present weather adds exactly 0.3 |
| WeatherImpact.FlightCategoryImpact | backend/src/simulate_weather_integration.py:161-169 | in [0, 3], and non-zero exactly for MVFR, IFR and LIFR |
| WeatherImpact.Difference | backend/src/simulate_weather_integration.py:133 | present iff both sides are, and origin + difference = destination |
| WeatherImpact.ImpactNonNegative | backend/src/simulate_weather_integration.py:158-182 | plausible weather at both ends gives non-negative total and comprehensive impact |
| WeatherImpact.HighVisibilityGivesNegativeImpact | backend/src/simulate_weather_integration.py:141-182 | visibility 15 at both ends, with calm wind, no present weather, VFR and no temperature or pressure difference, makes total and comprehensive impact negative (a visibility above 10 can, not must, do so) |
| WeatherImpact.SwapOriginAndDestination | backend/src/simulate_weather_integration.py:133-182 | swapping ends keeps total, comprehensive and averages, swaps the severities and negates both differences |
| WeatherImpact.NoWeatherNoImpact | backend/src/simulate_weather_integration.py:133-182 | no weather at either end gives zero impacts and missing differences |
| WeatherImpact.RenameColumns | backend/src/simulate_weather_integration.py:118-122 | the renaming keeps the column count |
| WeatherImpact.RenameRoundTrip | backend/src/simulate_weather_integration.py:118-122 | every original column, in order, is recovered from its renamed column |
| WeatherImpact.OriginAndDestinationColumnsDisjoint | backend/src/simulate_weather_integration.py:118-127 | origin and destination copies share no column name |
| FlightJoin.Matching | backend/src/simulate_weather_integration.py:126-127 | the observations matching a code are at most all of them |
| FlightJoin.MatchingIsSound | backend/src/simulate_weather_integration.py:126-127 | a matched observation is in the table and carries the code |
| FlightJoin.MatchingIsComplete | backend/src/simulate_weather_integration.py:126-127 | every observation carrying the flight's code is among the matches |
| FlightJoin.MatchingEmpty | backend/src/simulate_weather_integration.py:126-127 | no match exactly when the code is missing or no observation carries it |
| FlightJoin.JoinSide | backend/src/simulate_weather_integration.py:126-127 | a left join gives every flight at least one side value |
| FlightJoin.CombineIsSound | backend/src/simulate_weather_integration.py:126-127 | each combined row holds the flight and one of its origin and destination values |
| FlightJoin.CombineLength | backend/src/simulate_weather_integration.py:126-127 | a flight yields (origin matches) × (destination matches) rows |
| FlightJoin.CombineNonEmpty | backend/src/simulate_weather_integration.py:126-127 | a flight yields at least one row |
| FlightJoin.JoinIsSound | backend/src/simulate_weather_integration.py:126-127 | every joined row holds an input flight and observations for its own departure and arrival codes |
| FlightJoin.JoinKeepsEveryFlight | backend/src/simulate_weather_integration.py:126-127 | the left joins have at least as many rows as flights |
| FlightJoin.DistinctKeysMatchOnce | backend/src/simulate_weather_integration.py:126-127 | with distinct codes a code matches at most once |
| FlightJoin.OneRowPerFlight | backend/src/simulate_weather_integration.py:126-127 | the reference join has one row per flight |
| FlightJoin.OneRowPerFlightSnoc | backend/src/simulate_weather_integration.py:126-127 | the reference join extends flight by flight |
| FlightJoin.SingleRow | backend/src/simulate_weather_integration.py:126-127 | with distinct codes one flight yields exactly its looked-up row |
| FlightJoin.JoinWithDistinctKeys | backend/src/simulate_weather_integration.py:126-127 | with distinct codes the joins equal one row per flight in flight order |
| IntegrateMetar.MetarRequestParams | backend/src/integrate_metar.py:22-28 | format is "json" and hours is the look-back window |
| IntegrateMetar.RequestNamesEveryAirport | backend/src/integrate_metar.py:22 | splitting `ids` at commas gives back the airport list, in order |
| IntegrateMetar.FetchAllMetar | backend/src/integrate_metar.py:104-118 | the batch loop collects each batch's reports in batch order |
| IntegrateMetar.ReceivedIsResponseOrNothing | backend/src/integrate_metar.py:111-115 | a batch adds its list, or nothing when the request failed |
| IntegrateMetar.AllFailedReceivesNothing | backend/src/integrate_metar.py:111-115 | when every request fails nothing is collected |
| IntegrateMetar.BatchesCover | backend/src/integrate_metar.py:107-108 | the batches, concatenated, are exactly the first min(n, 100) airports in order |
| IntegrateMetar.BatchesFromCover | backend/src/integrate_metar.py:107-108 | when `limit` is the table's end or `limit - start` is a multiple of 20, the batches from `start` to `limit` concatenate to that slice |
| IntegrateMetar.BatchShape | backend/src/integrate_metar.py:104-108 | each batch holds 1 to 20 codes, there are ⌈min(n, 100) / 20⌉ of them and at most 5 |
| IntegrateMetar.BatchesFromShape | backend/src/integrate_metar.py:104-108 | batch sizes and count for a general slice |
| IntegrateMetar.ParseReportRoundTrip | backend/src/integrate_metar.py:55-71 | each field is read from its own key: parsing a written report gives the record back |
| IntegrateMetar.ParseEmptyReport | backend/src/integrate_metar.py:55-71 | a report with no keys parses to "" for icaoId, obsTime, wxString, fltcat and rawOb, null for the eight numeric fields, and [] for cover and base |
| IntegrateMetar.ParseMetarData | backend/src/integrate_metar.py:51-78 | the loop with `continue` returns the parsed reports in order |
| IntegrateMetar.ParseAllAppend | backend/src/integrate_metar.py:53-76 | parsing distributes over concatenation, so a skipped entry does not disturb the others |
| IntegrateMetar.ParseAllCount | backend/src/integrate_metar.py:53-76 | at most one row per entry; all kept iff all are objects; none iff none is |
| IntegrateMetar.MetarFeaturesAgreeWithSimulated | backend/src/integrate_metar.py:151-175 | same temperature difference, wind, visibility and severity columns as the simulated path |
| IntegrateMetar.EnhanceFlightDataWithMetar | backend/src/integrate_metar.py:96-175 | fetch, parse, join and score give: the flights unchanged when nothing parsed; a TypeError when a joined wind or visibility is not a number, or a row holds two non-null temperatures one of which is not a number; otherwise the scored rows |
| IntegrateMetar.NoReportsLeaveFlightsUnchanged | backend/src/integrate_metar.py:125-128 | when every request fails the flights come back unchanged |
| IntegrateMetar.EnhancedKeepsFlights | backend/src/integrate_metar.py:144-175 | no flight is lost, each row holds an input flight, and a flight without reports gets zero total impact |
| IntegrateMetar.NonNumericVisibilityFails | backend/src/integrate_metar.py:158-159 | a joined report with visibility "10+" makes the arithmetic fail |
| IntegrateMetar.OneSidedTextTemperatureIsMissing | backend/src/integrate_metar.py:151 | a text temperature at one end with no report at the other does not raise: the flight is enhanced with a missing temperature difference |
| IntegrateMetar.TextTemperatureAgainstNumberFails | backend/src/integrate_metar.py:151 | a text temperature at one end against a numeric one at the other makes the subtraction raise |
| WeatherEnhancedModels.FuelRateIsDefaultIffUnmapped | backend/src/train_weather_enhanced_models.py:69-91 | the rate is 1000 exactly when the model is not a key; it is always positive |
| WeatherEnhancedModels.FuelRateExactKey | backend/src/train_weather_enhanced_models.py:69-91 | "CRJ9" gets 1050; "CRJ900", "crj9" and a missing model get 1000 |
| WeatherEnhancedModels.ExtraFuelIsScaledBaseline | backend/src/train_weather_enhanced_models.py:94-103 | extra = baseline × impact / 50: zero for zero impact, ≥ 0 for non-negative baseline and impact, negative for negative impact |
| WeatherEnhancedModels.CountWithCoordinates | backend/src/train_weather_enhanced_models.py:54-55 | the mask count is at most the row count |
| WeatherEnhancedModels.CountPositive | backend/src/train_weather_enhanced_models.py:54-55 | a row with all four coordinates makes the mask count positive |
| WeatherEnhancedModels.Prepared | backend/src/train_weather_enhanced_models.py:54-103 | preparation keeps the row count |
| WeatherEnhancedModels.PrepareEnhancedData | backend/src/train_weather_enhanced_models.py:38-103 | the in-place column updates leave the specified prepared table |
| WeatherEnhancedModels.DistanceCases | backend/src/train_weather_enhanced_models.py:54-66 | great-circle distance with coordinates; fallback for all when the table failed or no row has coordinates; previous value otherwise |
| WeatherEnhancedModels.FallbackMatchesCruiseSpeed | backend/src/train_weather_enhanced_models.py:61 | the fallback distance flown at 850 km/h takes exactly the flight duration |
| WeatherEnhancedModels.PreparedFuelColumns | backend/src/train_weather_enhanced_models.py:87-103 | rate by exact key, baseline = rate × duration / 60, extra = baseline × impact / 50 |
| WeatherEnhancedModels.KeepPresentSpec | backend/src/train_weather_enhanced_models.py:149 | a column is kept iff it is wanted and present, in the wanted order |
| WeatherEnhancedModels.KeptIndices | backend/src/train_weather_enhanced_models.py:163-165 | every kept index points to a non-negative target |
| WeatherEnhancedModels.KeptIndicesComplete | backend/src/train_weather_enhanced_models.py:163-165 | kept indices are increasing and include every non-negative target |
| WeatherEnhancedModels.KeptIndicesAll | backend/src/train_weather_enhanced_models.py:163-165 | with all targets non-negative every row is kept |
| WeatherEnhancedModels.CreateWeatherEnhancedFeatures | backend/src/train_weather_enhanced_models.py:149-172 | X and y have equal length, every kept target is ≥ 0, each X row has one value per feature |
| WeatherEnhancedModels.TrainingSetRowsAligned | backend/src/train_weather_enhanced_models.py:153-165 | the k-th X row and y value come from the same original row; order is kept; no non-negative target is dropped |
| WeatherEnhancedModels.NonNegativeImpactKeepsEveryRow | backend/src/train_weather_enhanced_models.py:94-165 | non-negative impacts and durations give every prepared row a kept target |

## Left out

- Both great-circle `haversine` functions (estimate_fuel.py:20-32 and train_weather_enhanced_models.py:16-24) rely on trigonometry. The distance is a function parameter that takes its arguments in the order of each version: (lat, lon, lat, lon) in the estimator, and (lon, lat, lon, lat) in training.
- The HTTP request, the response decoding and the two-second sleep between batches (integrate_metar.py:31-39, 118) are left out. A request is a function parameter giving the list of reports, or `None` for a failed request. A response that is a JSON object rather than a list is not modelled.
- The random draws are parameters: scenario choice, uniform draws, integer draws and the gust coin flip. So are `round(…, 1)` and `datetime.now()` (simulate_weather_integration.py:54-69). The draw record carries the values after rounding, and the observation time is carried as hours ago.
- The order of `list(set(...))` for the unique airports (simulate_weather_integration.py:102-104, integrate_metar.py:96-98) is not modelled. The airport list is a parameter.
- CSV reading and writing, and the progress messages, are left out.
- The suffix and rename handling of the coordinate merges in the estimator (estimate_fuel.py:63-77) is not modelled. The driver takes rows that already carry the four coordinates.
- In training, the airport coordinate table is a map from code to coordinates. Duplicate codes in that table, which would multiply flight rows, are not modelled. A table that fails to load is `None`.
- Median imputation of the features (train_weather_enhanced_models.py:156) is left out. The feature matrix holds the cells as read.
- Model training, scaling, metrics and feature importance (train_weather_enhanced_models.py:174 onwards) are library calls and are left out.
- Floating point is left out. All columns are `real`, so rounding and NaN propagation beyond "missing" are not modelled.
- Upper-casing covers ASCII letters only. Other scripts' case mappings are not modelled.
- In the METAR path, a `wxString` or `fltcat` that is not a string is treated as missing text. A station code that is not a string never matches a flight. pandas' merge pairs missing keys with each other: a report whose `icaoId` is null would join every flight whose `Dep_Airport` or `Arr_Airport` is missing. The model does not capture this, because `FlightJoin.Matching` matches only a present code.
- pandas dtype effects are not modelled, such as integer columns becoming float after a left join.
- WeatherImpact.RenameColumns: the ensures states only the column count. The inverse is proved in RenameRoundTrip, which requires that the join key does not start with the prefix.
