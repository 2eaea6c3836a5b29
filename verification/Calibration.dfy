/** Calibrating KV and overhead costs from observations (lmrs/calibration.py). */
module Calibration {
  import opened Outcomes
  import opened VramCapacity
  import opened Estimation

  datatype Observation = Observation(
    promptTokens: int, outputTokens: int, predictedVram: int, actualVram: int, perRequestOverhead: int, batchOverhead: int)
  {
    function Tokens(): int { promptTokens + outputTokens }

    function Overhead(): int { perRequestOverhead + batchOverhead }

    predicate Valid() {
      && promptTokens >= 0 && outputTokens >= 0
      && actualVram >= 0 && predictedVram >= 0
      && perRequestOverhead >= 0 && batchOverhead >= 0
    }
  }

  datatype CalibrationProfile = CalibrationProfile(costs: Costs, observationCount: nat)

  predicate AllValid(obs: seq<Observation>) {
    forall o | o in obs :: o.Valid()
  }

  // ----- the totals a calibration is made of -----

  function TotalTokens(obs: seq<Observation>): int {
    if obs == [] then 0 else TotalTokens(obs[..|obs| - 1]) + obs[|obs| - 1].Tokens()
  }

  function TotalActual(obs: seq<Observation>): int {
    if obs == [] then 0 else TotalActual(obs[..|obs| - 1]) + obs[|obs| - 1].actualVram
  }

  function TotalOverhead(obs: seq<Observation>): int {
    if obs == [] then 0 else TotalOverhead(obs[..|obs| - 1]) + obs[|obs| - 1].Overhead()
  }

  /** The largest overheads observed, and 0 when there are none: attained, and bounding all. */
  predicate AreMaxOverheads(obs: seq<Observation>, perRequest: int, batch: int) {
    && perRequest >= 0 && batch >= 0
    && (forall o | o in obs :: o.perRequestOverhead <= perRequest && o.batchOverhead <= batch)
    && (perRequest == 0 || exists o | o in obs :: o.perRequestOverhead == perRequest)
    && (batch == 0 || exists o | o in obs :: o.batchOverhead == batch)
  }

  function KvBytesPerToken(obs: seq<Observation>): int {
    if TotalTokens(obs) > 0 then Max(0, (TotalActual(obs) - TotalOverhead(obs)) / TotalTokens(obs)) else 0
  }

  method BuildCalibrationProfile(observations: seq<Observation>) returns (r: Result<CalibrationProfile>)
    ensures r.Ok? <==>
              && observations != []
              && forall o | o in observations ::
                   && o.promptTokens >= 0 && o.outputTokens >= 0 && o.actualVram >= 0 && o.predictedVram >= 0
                   && o.perRequestOverhead >= 0 && o.batchOverhead >= 0
    ensures r.Ok? ==>
              && r.value.costs.kvBytesPerToken == KvBytesPerToken(observations)
              && AreMaxOverheads(observations, r.value.costs.perRequestOverhead, r.value.costs.batchOverhead)
              && r.value.observationCount == |observations|
  {
    if observations == [] { return ValueError; }
    var totalTokens, totalActual, totalOverhead, maxPerRequest, maxBatch := 0, 0, 0, 0, 0;
    for i := 0 to |observations|
      invariant Accumulated(observations[..i], totalTokens, totalActual, totalOverhead, maxPerRequest, maxBatch)
    {
      var obs := observations[i];
      InvalidPrefix(observations, i);
      if obs.promptTokens < 0 || obs.outputTokens < 0 { return ValueError; }
      if obs.actualVram < 0 || obs.predictedVram < 0 { return ValueError; }
      if obs.perRequestOverhead < 0 || obs.batchOverhead < 0 { return ValueError; }
      AccumulatedStep(observations, i, totalTokens, totalActual, totalOverhead, maxPerRequest, maxBatch);
      totalTokens := totalTokens + (obs.promptTokens + obs.outputTokens);
      totalActual := totalActual + obs.actualVram;
      totalOverhead := totalOverhead + (obs.perRequestOverhead + obs.batchOverhead);
      if obs.perRequestOverhead > maxPerRequest { maxPerRequest := obs.perRequestOverhead; }
      if obs.batchOverhead > maxBatch { maxBatch := obs.batchOverhead; }
    }
    assert observations[..|observations|] == observations;
    var kv := 0;
    if totalTokens > 0 {
      kv := (totalActual - totalOverhead) / totalTokens;
      if kv < 0 { kv := 0; }
    }
    r := Ok(CalibrationProfile(Costs(kv, maxPerRequest, maxBatch), |observations|));
  }

  /** What the loop's five accumulators hold after some observations, all of them valid. */
  ghost predicate Accumulated(obs: seq<Observation>, tokens: int, actual: int, overhead: int, perRequest: int, batch: int) {
    && AllValid(obs)
    && tokens == TotalTokens(obs) && actual == TotalActual(obs) && overhead == TotalOverhead(obs)
    && AreMaxOverheads(obs, perRequest, batch)
  }

  lemma PrefixStep(obs: seq<Observation>, i: nat)
    requires i < |obs|
    ensures TotalTokens(obs[..i + 1]) == TotalTokens(obs[..i]) + obs[i].Tokens()
    ensures TotalActual(obs[..i + 1]) == TotalActual(obs[..i]) + obs[i].actualVram
    ensures TotalOverhead(obs[..i + 1]) == TotalOverhead(obs[..i]) + obs[i].Overhead()
  {
    assert obs[..i + 1][..i] == obs[..i];
  }

  lemma InvalidPrefix(obs: seq<Observation>, i: nat)
    requires i < |obs|
    ensures !obs[i].Valid() ==> !AllValid(obs)
  {
    assert obs[i] in obs;
  }

  lemma AccumulatedStep(obs: seq<Observation>, i: nat, tokens: int, actual: int, overhead: int, perRequest: int, batch: int)
    requires i < |obs| && obs[i].Valid() && Accumulated(obs[..i], tokens, actual, overhead, perRequest, batch)
    ensures Accumulated(obs[..i + 1], tokens + obs[i].Tokens(), actual + obs[i].actualVram, overhead + obs[i].Overhead(),
                        Max(perRequest, obs[i].perRequestOverhead), Max(batch, obs[i].batchOverhead))
  {
    PrefixStep(obs, i);
    MaxOverheadsStep(obs[..i], obs[i], perRequest, batch);
    assert obs[..i + 1] == obs[..i] + [obs[i]];
  }

  lemma MaxOverheadsStep(obs: seq<Observation>, o: Observation, perRequest: int, batch: int)
    requires AreMaxOverheads(obs, perRequest, batch)
    ensures AreMaxOverheads(obs + [o], Max(perRequest, o.perRequestOverhead), Max(batch, o.batchOverhead))
  {
    var all := obs + [o];
    assert o in all;
    assert forall p | p in obs :: p in all;
  }

  // ----- predictions with the calibrated costs -----

  /** What the estimator predicts for an observation under given costs. */
  function Predicted(o: Observation, costs: Costs): int {
    o.Tokens() * costs.kvBytesPerToken + costs.perRequestOverhead + costs.batchOverhead
  }

  function TotalPredicted(obs: seq<Observation>, costs: Costs): int {
    if obs == [] then 0 else TotalPredicted(obs[..|obs| - 1], costs) + Predicted(obs[|obs| - 1], costs)
  }

  lemma PredictedIsRequirement(o: Observation, costs: Costs)
    requires o.Valid() && costs.kvBytesPerToken >= 0 && costs.perRequestOverhead >= 0 && costs.batchOverhead >= 0
    ensures CalculateDynamicVramRequirement(o.Tokens(), costs) == Ok(Predicted(o, costs))
  {}

  lemma Distribute(a: int, b: int, k: int)
    ensures (a + b) * k == a * k + b * k
  {}

  lemma {:induction false} PredictionsCoverOverheads(obs: seq<Observation>, costs: Costs)
    requires forall o | o in obs :: o.perRequestOverhead <= costs.perRequestOverhead && o.batchOverhead <= costs.batchOverhead
    ensures TotalPredicted(obs, costs) >= TotalTokens(obs) * costs.kvBytesPerToken + TotalOverhead(obs)
  {
    if obs != [] {
      var prefix, last := obs[..|obs| - 1], obs[|obs| - 1];
      PredictionsCoverOverheads(prefix, costs);
      Distribute(TotalTokens(prefix), last.Tokens(), costs.kvBytesPerToken);
      assert last in obs;
    }
  }

  /** Rounding down loses less than one byte per token: over all observations the
      calibrated predictions exceed the measured memory less the token count. */
  lemma CalibrationBound(obs: seq<Observation>, costs: Costs)
    requires AllValid(obs) && TotalTokens(obs) > 0
    requires costs.kvBytesPerToken == KvBytesPerToken(obs)
    requires AreMaxOverheads(obs, costs.perRequestOverhead, costs.batchOverhead)
    ensures TotalPredicted(obs, costs) > TotalActual(obs) - TotalTokens(obs)
  {
    PredictionsCoverOverheads(obs, costs);
    var t, x, kv := TotalTokens(obs), TotalActual(obs) - TotalOverhead(obs), costs.kvBytesPerToken;
    FloorDivision(x / t + 1, x, t);
    MulOrder(x / t + 1, kv + 1, t);
    Distribute(kv, 1, t);
  }

  predicate ExactlyLinear(o: Observation, k: int) {
    o.actualVram == o.Tokens() * k + o.Overhead()
  }

  lemma {:induction false} LinearTotals(obs: seq<Observation>, k: int)
    requires forall o | o in obs :: ExactlyLinear(o, k)
    ensures TotalActual(obs) == TotalTokens(obs) * k + TotalOverhead(obs)
  {
    if obs != [] {
      var prefix, last := obs[..|obs| - 1], obs[|obs| - 1];
      LinearTotals(prefix, k);
      Distribute(TotalTokens(prefix), last.Tokens(), k);
      assert last in obs && ExactlyLinear(last, k);
    }
  }

  /** Observations that cost exactly k per token calibrate to k, and every one of
      them is covered by its own prediction. */
  lemma CalibrationExact(obs: seq<Observation>, k: nat, costs: Costs)
    requires AllValid(obs) && TotalTokens(obs) > 0
    requires forall o | o in obs :: ExactlyLinear(o, k)
    requires costs.kvBytesPerToken == KvBytesPerToken(obs)
    requires AreMaxOverheads(obs, costs.perRequestOverhead, costs.batchOverhead)
    ensures costs.kvBytesPerToken == k
    ensures forall o | o in obs :: Predicted(o, costs) >= o.actualVram
  {
    LinearTotals(obs, k);
    var t := TotalTokens(obs);
    FloorDivision(k, t * k, t);
    FloorDivision(k + 1, t * k, t);
    Distribute(k, 1, t);
  }

  // ----- the order of observations does not matter -----

  lemma {:induction false} TotalsOfConcat(a: seq<Observation>, b: seq<Observation>)
    ensures TotalTokens(a + b) == TotalTokens(a) + TotalTokens(b)
    ensures TotalActual(a + b) == TotalActual(a) + TotalActual(b)
    ensures TotalOverhead(a + b) == TotalOverhead(a) + TotalOverhead(b)
  {
    if b == [] {
      assert a + b == a;
    } else {
      assert (a + b)[..|a + b| - 1] == a + b[..|b| - 1];
      TotalsOfConcat(a, b[..|b| - 1]);
    }
  }

  /** The last element of one order, found in the other. */
  lemma FindLast(a: seq<Observation>, b: seq<Observation>) returns (i: nat)
    requires multiset(a) == multiset(b) && a != []
    ensures i < |b| && b[i] == a[|a| - 1]
    ensures multiset(a[..|a| - 1]) == multiset(b[..i] + b[i + 1..])
  {
    var last := a[|a| - 1];
    assert a == a[..|a| - 1] + [last];
    assert last in multiset(b);
    i :| 0 <= i < |b| && b[i] == last;
    assert b == b[..i] + [last] + b[i + 1..];
    assert multiset(b) == multiset(b[..i]) + multiset{last} + multiset(b[i + 1..]);
    assert multiset(b[..i] + b[i + 1..]) == multiset(b) - multiset{last};
    assert multiset(a) == multiset(a[..|a| - 1]) + multiset{last};
    assert multiset(a[..|a| - 1]) == multiset(a) - multiset{last};
  }

  lemma {:induction false} TotalsOfPermutation(a: seq<Observation>, b: seq<Observation>)
    requires multiset(a) == multiset(b)
    ensures TotalTokens(a) == TotalTokens(b) && TotalActual(a) == TotalActual(b) && TotalOverhead(a) == TotalOverhead(b)
    decreases |a|
  {
    if a == [] {
      assert |multiset(b)| == 0;
    } else {
      var i := FindLast(a, b);
      TotalsOfPermutation(a[..|a| - 1], b[..i] + b[i + 1..]);
      TotalsWithout(b, i);
    }
  }

  lemma TotalsWithout(b: seq<Observation>, i: nat)
    requires i < |b|
    ensures var rest := b[..i] + b[i + 1..];
            && TotalTokens(b) == TotalTokens(rest) + b[i].Tokens()
            && TotalActual(b) == TotalActual(rest) + b[i].actualVram
            && TotalOverhead(b) == TotalOverhead(rest) + b[i].Overhead()
  {
    assert b == b[..i + 1] + b[i + 1..];
    PrefixStep(b, i);
    TotalsOfConcat(b[..i + 1], b[i + 1..]);
    TotalsOfConcat(b[..i], b[i + 1..]);
  }

  /** The totals are sums over the observations, of both token counts, of the actual
      memory and of both overheads. */
  lemma TotalsAreSums(a: seq<Observation>, o: Observation)
    ensures TotalTokens([]) == TotalActual([]) == TotalOverhead([]) == 0
    ensures TotalTokens(a + [o]) == TotalTokens(a) + o.promptTokens + o.outputTokens
    ensures TotalActual(a + [o]) == TotalActual(a) + o.actualVram
    ensures TotalOverhead(a + [o]) == TotalOverhead(a) + o.perRequestOverhead + o.batchOverhead
  {
    TotalsOfConcat(a, [o]);
  }

  /** The calibrated cost is the largest whole number of bytes per token that the
      measured memory pays for beside the overheads, and zero if it pays for none. */
  lemma CalibratedCostMeaning(obs: seq<Observation>, k: nat)
    ensures KvBytesPerToken(obs) >= 0
    ensures TotalTokens(obs) <= 0 ==> KvBytesPerToken(obs) == 0
    ensures TotalTokens(obs) > 0 && k > 0 ==>
              (k <= KvBytesPerToken(obs) <==> k * TotalTokens(obs) + TotalOverhead(obs) <= TotalActual(obs))
  {
    if TotalTokens(obs) > 0 {
      FloorDivision(k, TotalActual(obs) - TotalOverhead(obs), TotalTokens(obs));
    }
  }

  /** Two orders of the same observations calibrate to the same costs. */
  lemma CalibrationIgnoresOrder(a: seq<Observation>, b: seq<Observation>, costs: Costs, costs': Costs)
    requires multiset(a) == multiset(b)
    requires costs.kvBytesPerToken == KvBytesPerToken(a) && AreMaxOverheads(a, costs.perRequestOverhead, costs.batchOverhead)
    requires costs'.kvBytesPerToken == KvBytesPerToken(b) && AreMaxOverheads(b, costs'.perRequestOverhead, costs'.batchOverhead)
    ensures costs == costs' && (AllValid(a) <==> AllValid(b))
  {
    TotalsOfPermutation(a, b);
    assert forall o :: o in a <==> o in multiset(a);
    assert forall o :: o in b <==> o in multiset(b);
    assert forall o :: o in a <==> o in b;
  }
}
