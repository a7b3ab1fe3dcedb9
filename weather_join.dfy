/** The two left joins that attach observations to flights:
    `flight_data.merge(origin_weather, on='Dep_Airport', how='left')` followed by
    `.merge(dest_weather, on='Arr_Airport', how='left')`. Flights keep their order;
    a flight whose code has several observations is repeated once per combination
    (origin-major), and a flight whose code has none keeps one row with the
    observation columns missing. */
module FlightJoin {
  import opened Wrappers

  /** One row of the joined table: the flight with its origin and destination
      observation, `None` where the left join found no match. */
  datatype Joined<F, W> = Joined(flight: F, origin: Option<W>, dest: Option<W>)

  /** The observations whose key equals `code`, in table order. A missing flight
      code matches nothing. */
  function Matching<W>(obs: seq<W>, keyOf: W -> Option<string>, code: Option<string>): (ms: seq<W>)
    ensures |ms| <= |obs|
  {
    if |obs| == 0 then []
    else
      var last := obs[|obs| - 1];
      Matching(obs[..|obs| - 1], keyOf, code) + (if code.Some? && keyOf(last) == code then [last] else [])
  }

  /** Each match is an observation of the table carrying the requested code. */
  lemma {:induction false} MatchingIsSound<W>(obs: seq<W>, keyOf: W -> Option<string>, code: Option<string>)
    ensures forall w :: w in Matching(obs, keyOf, code) ==> w in obs && code.Some? && keyOf(w) == code
  {
    if |obs| > 0 {
      MatchingIsSound(obs[..|obs| - 1], keyOf, code);
    }
  }

  /** Every observation carrying the (present) code is among the matches. */
  lemma {:induction false} MatchingIsComplete<W>(obs: seq<W>, keyOf: W -> Option<string>, code: Option<string>)
    ensures forall k :: 0 <= k < |obs| && code.Some? && keyOf(obs[k]) == code ==> obs[k] in Matching(obs, keyOf, code)
  {
    if |obs| > 0 {
      var init := obs[..|obs| - 1];
      MatchingIsComplete(init, keyOf, code);
      forall k | 0 <= k < |init| ensures obs[k] == init[k] {
      }
    }
  }

  /** Nothing matches exactly when no observation carries the (present) code. */
  lemma {:induction false} MatchingEmpty<W>(obs: seq<W>, keyOf: W -> Option<string>, code: Option<string>)
    ensures |Matching(obs, keyOf, code)| == 0 <==> forall k :: 0 <= k < |obs| ==> code.None? || keyOf(obs[k]) != code
  {
    if |obs| > 0 {
      var init := obs[..|obs| - 1];
      MatchingEmpty(init, keyOf, code);
      if |Matching(obs, keyOf, code)| == 0 {
        forall k | 0 <= k < |obs| ensures code.None? || keyOf(obs[k]) != code {
          if k < |init| { assert obs[k] == init[k]; }
        }
      }
    }
  }

  /** The right-hand rows one side of a left join contributes for `code`. */
  function JoinSide<W>(obs: seq<W>, keyOf: W -> Option<string>, code: Option<string>): (side: seq<Option<W>>)
    ensures |side| >= 1
  {
    var ms := Matching(obs, keyOf, code);
    if |ms| == 0 then [None] else seq(|ms|, k requires 0 <= k < |ms| => Some(ms[k]))
  }

  /** Every origin row paired with every destination row, origin-major. */
  function Combine<F, W>(f: F, origins: seq<Option<W>>, dests: seq<Option<W>>): seq<Joined<F, W>> {
    if |origins| == 0 then []
    else
      seq(|dests|, j requires 0 <= j < |dests| => Joined(f, origins[0], dests[j]))
        + Combine(f, origins[1..], dests)
  }

  /** Both left joins, flight by flight. */
  function LeftJoin<F, W>(flights: seq<F>, depOf: F -> Option<string>, arrOf: F -> Option<string>,
                          obs: seq<W>, keyOf: W -> Option<string>): seq<Joined<F, W>>
  {
    if |flights| == 0 then []
    else
      var f := flights[|flights| - 1];
      LeftJoin(flights[..|flights| - 1], depOf, arrOf, obs, keyOf)
        + Combine(f, JoinSide(obs, keyOf, depOf(f)), JoinSide(obs, keyOf, arrOf(f)))
  }

  /** The single observation for `code`, if there is one (the first otherwise). */
  function Lookup<W>(obs: seq<W>, keyOf: W -> Option<string>, code: Option<string>): Option<W> {
    var ms := Matching(obs, keyOf, code);
    if |ms| == 0 then None else Some(ms[0])
  }

  /** No two observations share a key. */
  predicate DistinctKeys<W>(obs: seq<W>, keyOf: W -> Option<string>) {
    forall i, j :: 0 <= i < j < |obs| && keyOf(obs[i]).Some? ==> keyOf(obs[i]) != keyOf(obs[j])
  }

  // ----- properties -----

  /** Every joined row holds a flight of the input, and each observation attached
      to it comes from the table and carries that flight's airport code. */
  lemma {:induction false} JoinIsSound<F, W>(flights: seq<F>, depOf: F -> Option<string>, arrOf: F -> Option<string>,
                                             obs: seq<W>, keyOf: W -> Option<string>)
    ensures forall r :: r in LeftJoin(flights, depOf, arrOf, obs, keyOf) ==>
      && r.flight in flights
      && (r.origin.Some? ==> r.origin.value in obs && keyOf(r.origin.value) == depOf(r.flight))
      && (r.dest.Some? ==> r.dest.value in obs && keyOf(r.dest.value) == arrOf(r.flight))
  {
    if |flights| > 0 {
      var f := flights[|flights| - 1];
      var init := flights[..|flights| - 1];
      JoinIsSound(init, depOf, arrOf, obs, keyOf);
      var os, ds := JoinSide(obs, keyOf, depOf(f)), JoinSide(obs, keyOf, arrOf(f));
      MatchingIsSound(obs, keyOf, depOf(f));
      MatchingIsSound(obs, keyOf, arrOf(f));
      CombineIsSound(f, os, ds);
      forall r | r in LeftJoin(init, depOf, arrOf, obs, keyOf) ensures r.flight in flights {
        assert r.flight in init;
      }
    }
  }

  lemma {:induction false} CombineIsSound<F, W>(f: F, origins: seq<Option<W>>, dests: seq<Option<W>>)
    ensures forall r :: r in Combine(f, origins, dests) ==> r.flight == f && r.origin in origins && r.dest in dests
  {
    if |origins| > 0 {
      CombineIsSound(f, origins[1..], dests);
    }
  }

  /** The left joins never lose a flight: there are at least as many rows as flights. */
  lemma {:induction false} JoinKeepsEveryFlight<F, W>(flights: seq<F>, depOf: F -> Option<string>, arrOf: F -> Option<string>,
                                                      obs: seq<W>, keyOf: W -> Option<string>)
    ensures |LeftJoin(flights, depOf, arrOf, obs, keyOf)| >= |flights|
  {
    if |flights| > 0 {
      var f := flights[|flights| - 1];
      JoinKeepsEveryFlight(flights[..|flights| - 1], depOf, arrOf, obs, keyOf);
      var os, ds := JoinSide(obs, keyOf, depOf(f)), JoinSide(obs, keyOf, arrOf(f));
      CombineNonEmpty(f, os, ds);
    }
  }

  /** Combining has one row per (origin, destination) pair. */
  lemma {:induction false} CombineLength<F, W>(f: F, origins: seq<Option<W>>, dests: seq<Option<W>>)
    ensures |Combine(f, origins, dests)| == |origins| * |dests|
  {
    if |origins| > 0 {
      CombineLength(f, origins[1..], dests);
      calc {
        |Combine(f, origins, dests)|;
        |dests| + (|origins| - 1) * |dests|;
        |origins| * |dests|;
      }
    }
  }

  lemma CombineNonEmpty<F, W>(f: F, origins: seq<Option<W>>, dests: seq<Option<W>>)
    requires |origins| >= 1 && |dests| >= 1
    ensures |Combine(f, origins, dests)| >= 1
  {
    assert Combine(f, origins, dests)[0] == Joined(f, origins[0], dests[0]);
  }

  /** With at most one observation per key, a key matches at most once. */
  lemma {:induction false} DistinctKeysMatchOnce<W>(obs: seq<W>, keyOf: W -> Option<string>, code: Option<string>)
    requires DistinctKeys(obs, keyOf)
    ensures |Matching(obs, keyOf, code)| <= 1
  {
    if |obs| > 0 {
      var init := obs[..|obs| - 1];
      var last := obs[|obs| - 1];
      assert DistinctKeys(init, keyOf) by {
        forall i, j | 0 <= i < j < |init| && keyOf(init[i]).Some? ensures keyOf(init[i]) != keyOf(init[j]) {
          assert init[i] == obs[i] && init[j] == obs[j];
        }
      }
      DistinctKeysMatchOnce(init, keyOf, code);
      if code.Some? && keyOf(last) == code {
        forall k | 0 <= k < |init| ensures keyOf(init[k]) != code {
          assert init[k] == obs[k];
        }
        MatchingEmpty(init, keyOf, code);
      }
    }
  }

  /** One row per flight, in flight order, holding the flight's own observations. */
  function OneRowPerFlight<F, W>(flights: seq<F>, depOf: F -> Option<string>, arrOf: F -> Option<string>,
                                 obs: seq<W>, keyOf: W -> Option<string>): (rows: seq<Joined<F, W>>)
    ensures |rows| == |flights|
  {
    seq(|flights|, i requires 0 <= i < |flights| =>
      Joined(flights[i], Lookup(obs, keyOf, depOf(flights[i])), Lookup(obs, keyOf, arrOf(flights[i]))))
  }

  /** With at most one observation per airport code, the joins keep exactly one row
      per flight, in flight order, holding that flight's own observations. */
  lemma {:induction false} JoinWithDistinctKeys<F, W>(flights: seq<F>, depOf: F -> Option<string>, arrOf: F -> Option<string>,
                                                      obs: seq<W>, keyOf: W -> Option<string>)
    requires DistinctKeys(obs, keyOf)
    ensures LeftJoin(flights, depOf, arrOf, obs, keyOf) == OneRowPerFlight(flights, depOf, arrOf, obs, keyOf)
  {
    if |flights| > 0 {
      var f := flights[|flights| - 1];
      var init := flights[..|flights| - 1];
      JoinWithDistinctKeys(init, depOf, arrOf, obs, keyOf);
      SingleRow(f, obs, keyOf, depOf(f), arrOf(f));
      OneRowPerFlightSnoc(flights, depOf, arrOf, obs, keyOf);
    }
  }

  lemma OneRowPerFlightSnoc<F, W>(flights: seq<F>, depOf: F -> Option<string>, arrOf: F -> Option<string>,
                                  obs: seq<W>, keyOf: W -> Option<string>)
    requires |flights| > 0
    ensures var f := flights[|flights| - 1];
      OneRowPerFlight(flights, depOf, arrOf, obs, keyOf)
        == OneRowPerFlight(flights[..|flights| - 1], depOf, arrOf, obs, keyOf)
           + [Joined(f, Lookup(obs, keyOf, depOf(f)), Lookup(obs, keyOf, arrOf(f)))]
  {
    var init := flights[..|flights| - 1];
    var expected := OneRowPerFlight(flights, depOf, arrOf, obs, keyOf);
    var prev := OneRowPerFlight(init, depOf, arrOf, obs, keyOf);
    forall i | 0 <= i < |init| ensures expected[i] == prev[i] {
      assert flights[i] == init[i];
    }
  }

  /** With distinct keys one flight contributes exactly one joined row. */
  lemma SingleRow<F, W>(f: F, obs: seq<W>, keyOf: W -> Option<string>, dep: Option<string>, arr: Option<string>)
    requires DistinctKeys(obs, keyOf)
    ensures Combine(f, JoinSide(obs, keyOf, dep), JoinSide(obs, keyOf, arr))
      == [Joined(f, Lookup(obs, keyOf, dep), Lookup(obs, keyOf, arr))]
  {
    DistinctKeysMatchOnce(obs, keyOf, dep);
    DistinctKeysMatchOnce(obs, keyOf, arr);
    var os, ds := JoinSide(obs, keyOf, dep), JoinSide(obs, keyOf, arr);
    assert os == [Lookup(obs, keyOf, dep)];
    assert ds == [Lookup(obs, keyOf, arr)];
    assert Combine(f, os[1..], ds) == [];
  }
}
