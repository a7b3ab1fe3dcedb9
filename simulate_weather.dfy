/** The simulated METAR path (backend/src/simulate_weather_integration.py): weather
    observations drawn per airport from four scenarios, attached to flights by the
    two left joins, and scored with the shared weather features. The random draws
    are a parameter: one `Draw` per observation, holding the values already drawn
    and rounded. */
module SimulateWeather {
  import opened Wrappers
  import opened WeatherImpact
  import opened FlightJoin

  datatype Scenario = Clear | Cloudy | Rainy | Stormy

  /** A closed interval, as passed to `random.uniform`. */
  datatype Interval = Interval(lo: real, hi: real) {
    predicate Contains(x: real) {
      lo <= x <= hi
    }
  }

  datatype ScenarioData = ScenarioData(
    temperatureC: Interval, windSpeedKt: Interval, visibilitySm: Interval,
    presentWeather: string, flightCategory: string)

  /** The `weather_scenarios` table. */
  function ScenarioOf(s: Scenario): ScenarioData {
    match s
    case Clear => ScenarioData(Interval(15.0, 25.0), Interval(5.0, 15.0), Interval(8.0, 10.0), "", "VFR")
    case Cloudy => ScenarioData(Interval(10.0, 20.0), Interval(8.0, 20.0), Interval(5.0, 8.0), "BKN", "MVFR")
    case Rainy => ScenarioData(Interval(8.0, 18.0), Interval(12.0, 25.0), Interval(2.0, 6.0), "RA", "IFR")
    case Stormy => ScenarioData(Interval(5.0, 15.0), Interval(20.0, 35.0), Interval(0.5, 3.0), "TSRA", "LIFR")
  }

  /** The random values drawn for one observation: the scenario, the rounded
      uniform draws, the `randint` draws, the gust increment when the gust coin
      came up (`random() > 0.7`), and how many hours before now it was observed. */
  datatype Draw = Draw(
    scenario: Scenario,
    temperatureC: real,
    dewpointC: real,
    windSpeedKt: int,
    windDirectionDeg: int,
    gustIncrementKt: Option<int>,
    visibilitySm: real,
    altimeterInHg: real,
    seaLevelPressureMb: real,
    hoursAgo: int)

  /** What the random calls can return. Rounding keeps each draw inside its
      interval because every endpoint is a whole number of the rounding unit. */
  predicate ValidDraw(d: Draw) {
    var s := ScenarioOf(d.scenario);
    && s.temperatureC.Contains(d.temperatureC)
    && d.temperatureC - 8.0 <= d.dewpointC <= d.temperatureC - 2.0
    && s.windSpeedKt.Contains(d.windSpeedKt as real)
    && 0 <= d.windDirectionDeg <= 360
    && (d.gustIncrementKt.Some? ==> 5 <= d.gustIncrementKt.value <= 15)
    && s.visibilitySm.Contains(d.visibilitySm)
    && 29.5 <= d.altimeterInHg <= 30.5
    && 1010.0 <= d.seaLevelPressureMb <= 1025.0
    && 0 <= d.hoursAgo <= 6
  }

  /** One simulated observation; `observationTime` is `hoursAgo` hours before now. */
  datatype Observation = Observation(
    icaoId: string,
    hoursAgo: int,
    temperatureC: real,
    dewpointC: real,
    windSpeedKt: int,
    windDirectionDeg: int,
    windGustKt: Option<int>,
    visibilitySm: real,
    altimeterInHg: real,
    seaLevelPressureMb: real,
    presentWeather: string,
    flightCategory: string,
    weatherScenario: Scenario)

  /** The observation built from one draw for `airport`. */
  function Observe(airport: string, d: Draw): Observation {
    var s := ScenarioOf(d.scenario);
    Observation(
      airport, d.hoursAgo, d.temperatureC, d.dewpointC, d.windSpeedKt, d.windDirectionDeg,
      if d.gustIncrementKt.Some? then Some(d.windSpeedKt + d.gustIncrementKt.value) else None,
      d.visibilitySm, d.altimeterInHg, d.seaLevelPressureMb,
      s.presentWeather, s.flightCategory, d.scenario)
  }

  /** The observations of one airport, in draw order. */
  function ForAirport(airport: string, draws: seq<Draw>): (obs: seq<Observation>)
    ensures |obs| == |draws|
  {
    seq(|draws|, i requires 0 <= i < |draws| => Observe(airport, draws[i]))
  }

  /** All observations, airport by airport. */
  function Generated(airports: seq<string>, draws: seq<seq<Draw>>): seq<Observation>
    requires |draws| == |airports|
  {
    if |airports| == 0 then []
    else Generated(airports[..|airports| - 1], draws[..|draws| - 1])
           + ForAirport(airports[|airports| - 1], draws[|draws| - 1])
  }

  /** `simulate_metar_data`: `n` observations for each airport, in airport order,
      the observations of one airport consecutive and in draw order. */
  method SimulateMetarData(airports: seq<string>, n: nat, draws: seq<seq<Draw>>) returns (data: seq<Observation>)
    requires |draws| == |airports|
    requires forall a :: 0 <= a < |draws| ==> |draws[a]| == n
    ensures data == Generated(airports, draws)
  {
    data := [];
    var a := 0;
    while a < |airports|
      invariant 0 <= a <= |airports|
      invariant data == Generated(airports[..a], draws[..a])
    {
      var i := 0;
      while i < n
        invariant 0 <= i <= n
        invariant data == Generated(airports[..a], draws[..a]) + ForAirport(airports[a], draws[a][..i])
      {
        assert ForAirport(airports[a], draws[a][..i + 1])
          == ForAirport(airports[a], draws[a][..i]) + [Observe(airports[a], draws[a][i])];
        data := data + [Observe(airports[a], draws[a][i])];
        i := i + 1;
      }
      assert draws[a][..i] == draws[a];
      assert airports[..a + 1][..a] == airports[..a] && draws[..a + 1][..a] == draws[..a];
      a := a + 1;
    }
    assert airports[..a] == airports && draws[..a] == draws;
  }

  // ----- properties of the generator -----

  /** There are `|airports| * n` observations, and the one at `a * n + i` is the
      `i`-th draw for the `a`-th airport. */
  lemma {:induction false} GeneratedLayout(airports: seq<string>, n: nat, draws: seq<seq<Draw>>)
    requires |draws| == |airports|
    requires forall a :: 0 <= a < |draws| ==> |draws[a]| == n
    ensures |Generated(airports, draws)| == |airports| * n
    ensures forall a, i :: 0 <= a < |airports| && 0 <= i < n ==>
      var k := a * n + i; k < |Generated(airports, draws)| && Generated(airports, draws)[k] == Observe(airports[a], draws[a][i])
  {
    GeneratedLength(airports, n, draws);
    var g := Generated(airports, draws);
    forall a, i | 0 <= a < |airports| && 0 <= i < n
      ensures var k := a * n + i; k < |g| && g[k] == Observe(airports[a], draws[a][i])
    {
      GeneratedAt(airports, n, draws, a, i);
    }
  }

  lemma {:induction false} GeneratedLength(airports: seq<string>, n: nat, draws: seq<seq<Draw>>)
    requires |draws| == |airports|
    requires forall a :: 0 <= a < |draws| ==> |draws[a]| == n
    ensures |Generated(airports, draws)| == |airports| * n
  {
    if |airports| > 0 {
      var m := |airports| - 1;
      GeneratedLength(airports[..m], n, draws[..m]);
      assert m * n + n == (m + 1) * n;
    }
  }

  lemma {:induction false} GeneratedAt(airports: seq<string>, n: nat, draws: seq<seq<Draw>>, a: nat, i: nat)
    requires |draws| == |airports|
    requires forall a :: 0 <= a < |draws| ==> |draws[a]| == n
    requires a < |airports| && i < n
    ensures a * n + i < |Generated(airports, draws)|
    ensures Generated(airports, draws)[a * n + i] == Observe(airports[a], draws[a][i])
  {
    var m := |airports| - 1;
    var init, initDraws := airports[..m], draws[..m];
    GeneratedLength(init, n, initDraws);
    var prev := Generated(init, initDraws);
    var last := ForAirport(airports[m], draws[m]);
    assert Generated(airports, draws) == prev + last;
    if a < m {
      GeneratedAt(init, n, initDraws, a, i);
      assert prev[a * n + i] == Observe(airports[a], draws[a][i]);
    } else {
      assert a * n + i == |prev| + i;
      assert last[i] == Observe(airports[a], draws[a][i]);
    }
  }


  /** The observation built from a valid draw follows its scenario: the scenario's
      present weather and flight category, temperature, wind and visibility inside
      the scenario's intervals, dewpoint 2 to 8 degrees below temperature, direction
      0 to 360, and a gust, if any, 5 to 15 knots above the wind speed. */
  predicate FollowsScenario(o: Observation) {
    var s := ScenarioOf(o.weatherScenario);
    && o.presentWeather == s.presentWeather
    && o.flightCategory == s.flightCategory
    && s.temperatureC.Contains(o.temperatureC)
    && s.windSpeedKt.Contains(o.windSpeedKt as real)
    && s.visibilitySm.Contains(o.visibilitySm)
    && o.dewpointC < o.temperatureC
    && 0 <= o.windDirectionDeg <= 360
    && (o.windGustKt.Some? ==> o.windSpeedKt + 5 <= o.windGustKt.value <= o.windSpeedKt + 15)
    && 0 <= o.hoursAgo <= 6
  }

  lemma ObserveFollowsScenario(airport: string, d: Draw)
    requires ValidDraw(d)
    ensures Observe(airport, d).icaoId == airport
    ensures Observe(airport, d).weatherScenario == d.scenario
    ensures FollowsScenario(Observe(airport, d))
  {
  }

  /** Every generated observation from valid draws follows its scenario and names
      one of the requested airports. */
  lemma {:induction false} GeneratedFollowsScenario(airports: seq<string>, draws: seq<seq<Draw>>)
    requires |draws| == |airports|
    requires forall a, i :: 0 <= a < |draws| && 0 <= i < |draws[a]| ==> ValidDraw(draws[a][i])
    ensures forall k :: 0 <= k < |Generated(airports, draws)| ==>
      FollowsScenario(Generated(airports, draws)[k]) && Generated(airports, draws)[k].icaoId in airports
  {
    if |airports| > 0 {
      var m := |airports| - 1;
      GeneratedFollowsScenario(airports[..m], draws[..m]);
      var g := Generated(airports, draws);
      var prev := Generated(airports[..m], draws[..m]);
      forall k | 0 <= k < |g| ensures FollowsScenario(g[k]) && g[k].icaoId in airports {
        if k < |prev| {
          assert g[k] == prev[k];
          assert prev[k].icaoId in airports[..m];
        } else {
          var i := k - |prev|;
          assert g[k] == Observe(airports[m], draws[m][i]);
          ObserveFollowsScenario(airports[m], draws[m][i]);
        }
      }
    }
  }

  /** Scenario severity orders the flight category: clear 0, cloudy 1, rainy 2,
      stormy 3, and only clear weather has no present-weather code. */
  lemma ScenarioScores(s: Scenario)
    ensures FlightCategoryImpact(Some(ScenarioOf(s).flightCategory))
      == match s case Clear => 0.0 case Cloudy => 1.0 case Rainy => 2.0 case Stormy => 3.0
    ensures (ScenarioOf(s).presentWeather == "") <==> s == Clear
  {
  }

  // ----- enhancing flights with the simulated observations -----

  function KeyOf(o: Observation): Option<string> {
    Some(o.icaoId)
  }

  /** The weather columns of one side of a joined row; all missing without a match. */
  function SideOf(o: Option<Observation>): SideWeather {
    match o
    case None => NoWeather
    case Some(x) =>
      SideWeather(Some(x.temperatureC), Some(x.windSpeedKt as real), Some(x.visibilitySm),
                  Some(x.presentWeather), Some(x.flightCategory), Some(x.seaLevelPressureMb))
  }

  /** A flight row after enhancement: the joined observations and the derived columns. */
  datatype EnhancedFlight<F> = EnhancedFlight(flight: F, origin: Option<Observation>, dest: Option<Observation>,
                                              features: FlightWeatherFeatures)

  /** What the enhancement ends in: the scored rows, or the `KeyError` the first
      merge raises when no observation was generated (a data frame built from an
      empty list has no `Dep_Airport` column to join on). */
  datatype SimulatedOutcome<F> = Scored(rows: seq<EnhancedFlight<F>>) | KeyError

  /** `enhance_flight_data_with_simulated_weather` after the observations are drawn:
      both joins, then the derived features of each joined row. */
  function EnhanceWithSimulatedWeather<F>(flights: seq<F>, depOf: F -> Option<string>, arrOf: F -> Option<string>,
                                          obs: seq<Observation>): (outcome: SimulatedOutcome<F>)
    ensures outcome.KeyError? <==> |obs| == 0
    ensures outcome.Scored? ==> |outcome.rows| == |LeftJoin(flights, depOf, arrOf, obs, KeyOf)|
  {
    if |obs| == 0 then KeyError
    else
      var joined := LeftJoin(flights, depOf, arrOf, obs, KeyOf);
      Scored(seq(|joined|, k requires 0 <= k < |joined| =>
        EnhancedFlight(joined[k].flight, joined[k].origin, joined[k].dest,
                       DeriveFeatures(SideOf(joined[k].origin), SideOf(joined[k].dest)))))
  }

  /** Flights without any airport code draw no observation, and the merge fails. */
  lemma NoAirportsRaiseKeyError<F>(flights: seq<F>, depOf: F -> Option<string>, arrOf: F -> Option<string>,
                                   airports: seq<string>, draws: seq<seq<Draw>>)
    requires AirportsOf(airports, flights, depOf, arrOf)
    requires |draws| == |airports|
    requires forall f :: f in flights ==> depOf(f).None? && arrOf(f).None?
    ensures EnhanceWithSimulatedWeather(flights, depOf, arrOf, Generated(airports, draws)) == KeyError
  {
    if |airports| > 0 {
      DrawnAirportHasFlight(airports, flights, depOf, arrOf, 0);
      assert false;
    }
  }

  /** Each drawn airport is the departure or arrival code of some flight. */
  lemma DrawnAirportHasFlight<F>(airports: seq<string>, flights: seq<F>, depOf: F -> Option<string>, arrOf: F -> Option<string>,
                                 a: nat)
    requires AirportsOf(airports, flights, depOf, arrOf)
    requires a < |airports|
    ensures exists f :: f in flights && (depOf(f) == Some(airports[a]) || arrOf(f) == Some(airports[a]))
  {
    assert airports[a] in airports;
  }

  /** The airports `enhance_flight_data_with_simulated_weather` draws for: the distinct non-missing codes of both
      columns (in whatever order the set yields them). */
  ghost predicate AirportsOf<F>(airports: seq<string>, flights: seq<F>, depOf: F -> Option<string>, arrOf: F -> Option<string>) {
    && (forall i, j :: 0 <= i < j < |airports| ==> airports[i] != airports[j])
    && (forall c :: c in airports <==> exists f :: f in flights && (depOf(f) == Some(c) || arrOf(f) == Some(c)))
  }

  /** Simulated observations are plausible weather (non-negative wind, visibility at
      most 10 miles), so every enhanced flight gets a non-negative total and
      comprehensive weather impact. */
  lemma SimulatedImpactNonNegative<F>(flights: seq<F>, depOf: F -> Option<string>, arrOf: F -> Option<string>,
                                      airports: seq<string>, n: nat, draws: seq<seq<Draw>>)
    requires |draws| == |airports|
    requires forall a :: 0 <= a < |draws| ==> |draws[a]| == n
    requires forall a, i :: 0 <= a < |draws| && 0 <= i < |draws[a]| ==> ValidDraw(draws[a][i])
    ensures var outcome := EnhanceWithSimulatedWeather(flights, depOf, arrOf, Generated(airports, draws));
      outcome.Scored? ==> forall r :: r in outcome.rows ==>
        r.features.totalWeatherImpact >= 0.0 && r.features.comprehensiveWeatherImpact >= 0.0
  {
    var obs := Generated(airports, draws);
    if |obs| == 0 {
      return;
    }
    GeneratedFollowsScenario(airports, draws);
    JoinIsSound(flights, depOf, arrOf, obs, KeyOf);
    var joined := LeftJoin(flights, depOf, arrOf, obs, KeyOf);
    var rows := EnhanceWithSimulatedWeather(flights, depOf, arrOf, obs).rows;
    forall k | 0 <= k < |rows|
      ensures rows[k].features.totalWeatherImpact >= 0.0 && rows[k].features.comprehensiveWeatherImpact >= 0.0
    {
      assert joined[k] in joined;
      SidePlausible(obs, joined[k].origin);
      SidePlausible(obs, joined[k].dest);
      ImpactNonNegative(SideOf(joined[k].origin), SideOf(joined[k].dest));
    }
  }

  lemma SidePlausible(obs: seq<Observation>, o: Option<Observation>)
    requires forall k :: 0 <= k < |obs| ==> FollowsScenario(obs[k])
    requires o.Some? ==> o.value in obs
    ensures Plausible(SideOf(o))
  {
    if o.Some? {
      var k :| 0 <= k < |obs| && obs[k] == o.value;
      assert FollowsScenario(obs[k]);
    }
  }

  /** With one observation per distinct airport, as the program draws them, the joins
      keep one row per flight in flight order, and each row is scored from the
      observations drawn for its own departure and arrival airports. */
  lemma SimulatedOneRowPerFlight<F>(flights: seq<F>, depOf: F -> Option<string>, arrOf: F -> Option<string>,
                                    airports: seq<string>, draws: seq<seq<Draw>>)
    requires AirportsOf(airports, flights, depOf, arrOf)
    requires |draws| == |airports|
    requires forall a :: 0 <= a < |draws| ==> |draws[a]| == 1
    requires |airports| > 0
    ensures EnhanceWithSimulatedWeather(flights, depOf, arrOf, Generated(airports, draws)).Scored?
    ensures var rows := EnhanceWithSimulatedWeather(flights, depOf, arrOf, Generated(airports, draws)).rows;
      && |rows| == |flights|
      && forall i :: 0 <= i < |flights| ==>
        && rows[i].flight == flights[i]
        && rows[i].origin == DrawnFor(airports, draws, depOf(flights[i]))
        && rows[i].dest == DrawnFor(airports, draws, arrOf(flights[i]))
  {
    var obs := Generated(airports, draws);
    GeneratedOnePerAirport(airports, draws);
    assert DistinctKeys(obs, KeyOf) by {
      forall i, j | 0 <= i < j < |obs| ensures KeyOf(obs[i]) != KeyOf(obs[j]) {
        assert obs[i].icaoId == airports[i] && obs[j].icaoId == airports[j];
      }
    }
    JoinWithDistinctKeys(flights, depOf, arrOf, obs, KeyOf);
    var rows := EnhanceWithSimulatedWeather(flights, depOf, arrOf, obs).rows;
    var joined := OneRowPerFlight(flights, depOf, arrOf, obs, KeyOf);
    forall i | 0 <= i < |flights|
      ensures rows[i].flight == flights[i]
      ensures rows[i].origin == DrawnFor(airports, draws, depOf(flights[i]))
      ensures rows[i].dest == DrawnFor(airports, draws, arrOf(flights[i]))
    {
      assert rows[i].origin == joined[i].origin == Lookup(obs, KeyOf, depOf(flights[i]));
      assert rows[i].dest == joined[i].dest == Lookup(obs, KeyOf, arrOf(flights[i]));
      LookupDrawn(airports, draws, obs, depOf(flights[i]));
      LookupDrawn(airports, draws, obs, arrOf(flights[i]));
    }
  }

  /** With one draw per airport the observations line up with the airports. */
  lemma {:induction false} GeneratedOnePerAirport(airports: seq<string>, draws: seq<seq<Draw>>)
    requires |draws| == |airports|
    requires forall a :: 0 <= a < |draws| ==> |draws[a]| == 1
    ensures |Generated(airports, draws)| == |airports|
    ensures forall a :: 0 <= a < |airports| ==> Generated(airports, draws)[a] == Observe(airports[a], draws[a][0])
  {
    if |airports| > 0 {
      var m := |airports| - 1;
      var init, initDraws := airports[..m], draws[..m];
      GeneratedOnePerAirport(init, initDraws);
      var g, prev := Generated(airports, draws), Generated(init, initDraws);
      assert g == prev + [Observe(airports[m], draws[m][0])];
      forall a | 0 <= a < |airports| ensures g[a] == Observe(airports[a], draws[a][0]) {
        if a < m {
          assert init[a] == airports[a] && initDraws[a] == draws[a];
        }
      }
    }
  }

  /** The observation drawn for `code`: the single draw of that airport, none for a
      missing or unknown code. */
  ghost function DrawnFor(airports: seq<string>, draws: seq<seq<Draw>>, code: Option<string>): Option<Observation>
    requires |draws| == |airports|
    requires forall a :: 0 <= a < |draws| ==> |draws[a]| == 1
  {
    if code.Some? && code.value in airports then
      var a :| 0 <= a < |airports| && airports[a] == code.value;
      Some(Observe(airports[a], draws[a][0]))
    else None
  }

  lemma LookupDrawn(airports: seq<string>, draws: seq<seq<Draw>>, obs: seq<Observation>, code: Option<string>)
    requires |draws| == |airports|
    requires forall a :: 0 <= a < |draws| ==> |draws[a]| == 1
    requires |obs| == |airports|
    requires forall a :: 0 <= a < |airports| ==> obs[a] == Observe(airports[a], draws[a][0])
    requires forall i, j :: 0 <= i < j < |airports| ==> airports[i] != airports[j]
    ensures Lookup(obs, KeyOf, code) == DrawnFor(airports, draws, code)
  {
    var ms := Matching(obs, KeyOf, code);
    MatchingEmpty(obs, KeyOf, code);
    MatchingIsSound(obs, KeyOf, code);
    if code.Some? && code.value in airports {
      var a :| 0 <= a < |airports| && airports[a] == code.value;
      assert KeyOf(obs[a]) == code;
      assert |ms| > 0;
      assert ms[0] in ms;
      var b :| 0 <= b < |obs| && obs[b] == ms[0];
      assert airports[b] == code.value;
    } else {
      forall k | 0 <= k < |obs| ensures code.None? || KeyOf(obs[k]) != code {
        assert obs[k].icaoId == airports[k];
      }
    }
  }
}
