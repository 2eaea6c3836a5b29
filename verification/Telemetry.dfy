/** Aggregating telemetry records into calibration input
    (collect_calibration_observations in lmrs/telemetry.py). */
module Telemetry {
  import opened Outcomes

  datatype GroupKey = GroupKey(modelName: string, runtimeBackend: string, quantization: string, hardware: string)

  datatype TelemetryRecord = TelemetryRecord(
    requestId: string, key: GroupKey,
    promptTokens: Option<int>, vramGrowth: Option<int>, kvCacheCost: Option<int>, overhead: Option<int>)

  datatype Aggregate = Aggregate(
    key: GroupKey, promptLength: Option<int>, vramGrowth: Option<int>, kvCacheCost: Option<int>, overhead: Option<int>,
    sampleCount: nat, requestIds: seq<string>)

  // ----- averages -----

  function Sum(values: seq<int>): int {
    if values == [] then 0 else values[0] + Sum(values[1..])
  }

  /** The average of what was measured, cut off towards zero as int() does; None when nothing was. */
  function AverageInt(values: seq<int>): (average: Option<int>)
    ensures average.None? <==> values == []
  {
    if values == [] then None
    else
      var sum := Sum(values);
      Some(if sum >= 0 then sum / |values| else -(-sum / |values|))
  }

  // ----- grouping -----

  /** The records of one group, in the order they came. */
  function Select(records: seq<TelemetryRecord>, key: GroupKey): seq<TelemetryRecord> {
    if records == [] then []
    else
      var before, last := Select(records[..|records| - 1], key), records[|records| - 1];
      if last.key == key then before + [last] else before
  }

  /** The group keys in the order they first appear. */
  function FirstKeys(records: seq<TelemetryRecord>): seq<GroupKey> {
    if records == [] then []
    else
      var before, last := FirstKeys(records[..|records| - 1]), records[|records| - 1];
      if last.key in before then before else before + [last.key]
  }

  /** The values a group's records carry in one field, absent ones left out. */
  function Present(group: seq<TelemetryRecord>, field: TelemetryRecord -> Option<int>): seq<int> {
    if group == [] then []
    else (if field(group[0]).Some? then [field(group[0]).value] else []) + Present(group[1..], field)
  }

  function RequestIds(group: seq<TelemetryRecord>): seq<string> {
    if group == [] then [] else [group[0].requestId] + RequestIds(group[1..])
  }

  function Summarize(key: GroupKey, group: seq<TelemetryRecord>): Aggregate {
    Aggregate(key, AverageInt(Present(group, (r: TelemetryRecord) => r.promptTokens)),
              AverageInt(Present(group, (r: TelemetryRecord) => r.vramGrowth)),
              AverageInt(Present(group, (r: TelemetryRecord) => r.kvCacheCost)),
              AverageInt(Present(group, (r: TelemetryRecord) => r.overhead)), |group|, RequestIds(group))
  }

  lemma PrefixStep(records: seq<TelemetryRecord>, n: nat)
    requires n < |records|
    ensures records[..n + 1] != []
    ensures records[..n + 1][..|records[..n + 1]| - 1] == records[..n]
    ensures records[..n + 1][|records[..n + 1]| - 1] == records[n]
  {
    assert records[..n + 1][..n] == records[..n];
  }

  /** First pass: a dictionary from key to records, and its keys in insertion order. */
  method Group(records: seq<TelemetryRecord>) returns (keys: seq<GroupKey>, groups: map<GroupKey, seq<TelemetryRecord>>)
    ensures keys == FirstKeys(records)
    ensures forall k :: k in keys <==> k in groups
    ensures forall k | k in groups :: groups[k] == Select(records, k)
  {
    keys, groups := [], map[];
    for n := 0 to |records|
      invariant keys == FirstKeys(records[..n])
      invariant forall k :: k in keys <==> k in groups
      invariant forall k | k in groups :: groups[k] == Select(records[..n], k)
    {
      var record := records[n];
      PrefixStep(records, n);
      if record.key in groups {
        groups := groups[record.key := groups[record.key] + [record]];
      } else {
        UnseenKeyIsEmpty(records[..n], record.key);
        keys := keys + [record.key];
        groups := groups[record.key := [record]];
      }
    }
    assert records[..|records|] == records;
  }

  /** One aggregate per key. */
  function Aggregates(records: seq<TelemetryRecord>, keys: seq<GroupKey>): seq<Aggregate> {
    if keys == [] then []
    else
      var last := keys[|keys| - 1];
      Aggregates(records, keys[..|keys| - 1]) + [Summarize(last, Select(records, last))]
  }

  lemma {:induction false} AggregateAt(records: seq<TelemetryRecord>, keys: seq<GroupKey>, i: nat)
    requires i < |keys|
    ensures |Aggregates(records, keys)| == |keys|
    ensures Aggregates(records, keys)[i] == Summarize(keys[i], Select(records, keys[i]))
  {
    var n := |keys| - 1;
    if n > 0 {
      AggregateAt(records, keys[..n], if i < n then i else 0);
    }
  }

  /** Second pass: one aggregate per group, in the order the groups first appeared. */
  method CollectCalibrationObservations(records: seq<TelemetryRecord>) returns (observations: seq<Aggregate>)
    ensures observations == Aggregates(records, FirstKeys(records))
    ensures TotalSamples(observations) == |records|
  {
    var keys, groups := Group(records);
    observations := [];
    for i := 0 to |keys|
      invariant observations == Aggregates(records, keys[..i])
    {
      assert keys[..i + 1][..i] == keys[..i];
      assert keys[i] in groups;
      var group := groups[keys[i]];
      observations := observations + [Summarize(keys[i], group)];
    }
    assert keys[..|keys|] == keys;
    SamplesAreConserved(records);
  }

  // ----- the groups partition the records -----

  function GroupSizes(records: seq<TelemetryRecord>, keys: seq<GroupKey>): nat {
    if keys == [] then 0 else GroupSizes(records, keys[..|keys| - 1]) + |Select(records, keys[|keys| - 1])|
  }

  lemma {:induction false} KeysAreDistinctAndComplete(records: seq<TelemetryRecord>)
    ensures var keys := FirstKeys(records);
            && (forall i, j | 0 <= i < j < |keys| :: keys[i] != keys[j])
            && (forall r | r in records :: r.key in keys)
  {
    if records != [] {
      var prefix := records[..|records| - 1];
      KeysAreDistinctAndComplete(prefix);
      assert records == prefix + [records[|records| - 1]];
    }
  }

  /** One more record enlarges exactly its own group. */
  lemma {:induction false} GroupSizesStep(records: seq<TelemetryRecord>, keys: seq<GroupKey>)
    requires records != []
    requires forall i, j | 0 <= i < j < |keys| :: keys[i] != keys[j]
    ensures GroupSizes(records, keys)
         == GroupSizes(records[..|records| - 1], keys) + (if records[|records| - 1].key in keys then 1 else 0)
  {
    if keys != [] {
      GroupSizesStep(records, keys[..|keys| - 1]);
      assert keys == keys[..|keys| - 1] + [keys[|keys| - 1]];
    }
  }

  lemma {:induction false} GroupsHoldAllRecords(records: seq<TelemetryRecord>)
    ensures GroupSizes(records, FirstKeys(records)) == |records|
  {
    if records != [] {
      var prefix, last := records[..|records| - 1], records[|records| - 1];
      var before, keys := FirstKeys(prefix), FirstKeys(records);
      GroupsHoldAllRecords(prefix);
      KeysAreDistinctAndComplete(records);
      GroupSizesStep(records, keys);
      if last.key !in before {
        assert keys[..|keys| - 1] == before;
        UnseenKeyIsEmpty(prefix, last.key);
      }
    }
  }

  function TotalSamples(observations: seq<Aggregate>): nat {
    if observations == [] then 0
    else TotalSamples(observations[..|observations| - 1]) + observations[|observations| - 1].sampleCount
  }

  lemma {:induction false} SampleCountsAreSizes(records: seq<TelemetryRecord>, keys: seq<GroupKey>)
    ensures TotalSamples(Aggregates(records, keys)) == GroupSizes(records, keys)
  {
    if keys != [] {
      var n := |keys| - 1;
      SampleCountsAreSizes(records, keys[..n]);
      assert Aggregates(records, keys)[..|Aggregates(records, keys)| - 1] == Aggregates(records, keys[..n]);
    }
  }

  /** Conservation: the sample counts of the aggregates add up to the number of records. */
  lemma SamplesAreConserved(records: seq<TelemetryRecord>)
    ensures TotalSamples(Aggregates(records, FirstKeys(records))) == |records|
  {
    GroupsHoldAllRecords(records);
    SampleCountsAreSizes(records, FirstKeys(records));
  }

  lemma {:induction false} UnseenKeyIsEmpty(records: seq<TelemetryRecord>, key: GroupKey)
    requires key !in FirstKeys(records)
    ensures Select(records, key) == []
  {
    if records != [] {
      UnseenKeyIsEmpty(records[..|records| - 1], key);
    }
  }

  /** A group holds exactly the records with its key, as often as they occur. */
  lemma {:induction false} GroupMembers(records: seq<TelemetryRecord>, key: GroupKey, r: TelemetryRecord)
    ensures multiset(Select(records, key))[r] == if r.key == key then multiset(records)[r] else 0
  {
    if records != [] {
      var prefix, last := records[..|records| - 1], records[|records| - 1];
      GroupMembers(prefix, key, r);
      assert records == prefix + [last];
      assert multiset(records) == multiset(prefix) + multiset{last};
      if last.key == key {
        assert multiset(Select(records, key)) == multiset(Select(prefix, key)) + multiset{last};
      }
    }
  }

  /** Grouping looks at each record by itself and keeps the order. */
  lemma {:induction false} SelectConcat(a: seq<TelemetryRecord>, b: seq<TelemetryRecord>, key: GroupKey)
    ensures Select(a + b, key) == Select(a, key) + Select(b, key)
  {
    if b == [] {
      assert a + b == a;
    } else {
      assert (a + b)[..|a + b| - 1] == a + b[..|b| - 1];
      SelectConcat(a, b[..|b| - 1], key);
    }
  }

  /** A key stands where its group first appeared: before the keys that only come later. */
  lemma {:induction false} KeysInOrder(a: seq<TelemetryRecord>, b: seq<TelemetryRecord>)
    ensures FirstKeys(a) <= FirstKeys(a + b)
  {
    if b == [] {
      assert a + b == a;
    } else {
      assert (a + b)[..|a + b| - 1] == a + b[..|b| - 1];
      KeysInOrder(a, b[..|b| - 1]);
    }
  }

  // ----- what an aggregate says -----

  lemma {:induction false} SumBounds(values: seq<int>, low: int, high: int)
    requires forall v | v in values :: low <= v <= high
    ensures low * |values| <= Sum(values) <= high * |values|
  {
    if values != [] {
      assert forall v | v in values[1..] :: v in values;
      SumBounds(values[1..], low, high);
      assert values[0] in values;
      OneMore(low, |values| - 1);
      OneMore(high, |values| - 1);
    }
  }

  lemma OneMore(x: int, n: int)
    ensures x * (n + 1) == x * n + x
  {}

  /** The average is off the exact mean by less than one, towards zero. */
  predicate Truncates(sum: int, n: int, average: int) {
    && (sum >= 0 ==> average >= 0 && average * n <= sum < (average + 1) * n)
    && (sum < 0 ==> average <= 0 && (average - 1) * n < sum <= average * n)
  }

  lemma AverageTruncates(values: seq<int>)
    requires values != []
    ensures Truncates(Sum(values), |values|, AverageInt(values).value)
  {
    TruncatedDivision(Sum(values), |values|, AverageInt(values).value);
  }

  /** An average exists exactly when something was measured, is the truncated mean of
      the values, and lies between the least and the greatest of them. */
  lemma AverageMeaning(values: seq<int>, average: int, low: int, high: int)
    requires AverageInt(values) == Some(average) && forall v | v in values :: low <= v <= high
    ensures Truncates(Sum(values), |values|, average) && low <= average <= high
  {
    SumBounds(values, low, high);
    AverageTruncates(values);
    AverageBetween(Sum(values), |values|, average, low, high);
  }

  lemma {:induction false} SumConcat(a: seq<int>, b: seq<int>)
    ensures Sum(a + b) == Sum(a) + Sum(b)
    ensures |a| == 1 ==> Sum(a) == a[0]
  {
    if a == [] {
      assert a + b == b;
    } else {
      assert (a + b)[1..] == a[1..] + b;
      SumConcat(a[1..], b);
    }
  }

  lemma AverageBetween(sum: int, n: int, average: int, low: int, high: int)
    requires n > 0 && low * n <= sum <= high * n
    requires Truncates(sum, n, average)
    ensures low <= average <= high
  {
    if average < low { Scale(average + 1, low, n); }
    if average > high { Scale(high, average - 1, n); Scale(high + 1, average, n); }
  }

  lemma DivisionBounds(x: int, n: int)
    requires x >= 0 && n > 0
    ensures x / n >= 0 && (x / n) * n <= x < (x / n + 1) * n
  {
    var q := x / n;
    assert q * n <= x < q * n + n;
    OneMore(n, q);
  }

  lemma Negate(q: int, n: int)
    ensures (-q) * n == -(q * n) && (-q - 1) * n == -((q + 1) * n)
  {}

  lemma TruncatedDivision(sum: int, n: int, average: int)
    requires n > 0 && average == if sum >= 0 then sum / n else -(-sum / n)
    ensures Truncates(sum, n, average)
  {
    if sum >= 0 {
      DivisionBounds(sum, n);
    } else {
      DivisionBounds(-sum, n);
      Negate(-sum / n, n);
    }
  }

  lemma Scale(a: int, b: int, n: int)
    requires a <= b && n >= 0
    ensures a * n <= b * n
  {}

  /** The records in which a field is present give their values, each once and in order. */
  lemma {:induction false} PresentMeaning(group: seq<TelemetryRecord>, field: TelemetryRecord -> Option<int>, v: int)
    ensures v in Present(group, field) <==> exists r | r in group :: field(r) == Some(v)
    ensures (forall r | r in group :: field(r).Some?) ==>
              && |Present(group, field)| == |group|
              && forall i | 0 <= i < |group| :: field(group[i]) == Some(Present(group, field)[i])
  {
    if group != [] {
      assert group == [group[0]] + group[1..];
      PresentMeaning(group[1..], field, v);
    }
  }

  lemma AverageOfEqual(group: seq<TelemetryRecord>, field: TelemetryRecord -> Option<int>, v: int)
    requires exists r | r in group :: field(r) == Some(v)
    requires forall r | r in group && field(r).Some? :: field(r) == Some(v)
    ensures AverageInt(Present(group, field)) == Some(v)
  {
    PresentMeaning(group, field, v);
    forall w | w in Present(group, field) ensures w == v { PresentMeaning(group, field, w); }
    AverageMeaning(Present(group, field), AverageInt(Present(group, field)).value, v, v);
  }

  predicate Agree(group: seq<TelemetryRecord>, prompt: int, growth: int, cost: int, overhead: int) {
    forall r | r in group ::
      && r.promptTokens == Some(prompt) && r.vramGrowth == Some(growth)
      && r.kvCacheCost == Some(cost) && r.overhead == Some(overhead)
  }

  /** Each field of an aggregate is the average of its own measurement: records that
      agree aggregate to what they say, and request ids and their number are kept. */
  lemma AggregateFields(key: GroupKey, group: seq<TelemetryRecord>, prompt: int, growth: int, cost: int, overhead: int)
    requires group != [] && Agree(group, prompt, growth, cost, overhead)
    ensures var a := Summarize(key, group);
            && a.key == key && a.sampleCount == |group|
            && a.promptLength == Some(prompt) && a.vramGrowth == Some(growth)
            && a.kvCacheCost == Some(cost) && a.overhead == Some(overhead)
            && |a.requestIds| == |group| && forall i | 0 <= i < |group| :: a.requestIds[i] == group[i].requestId
  {
    assert group[0] in group;
    AverageOfEqual(group, (r: TelemetryRecord) => r.promptTokens, prompt);
    AverageOfEqual(group, (r: TelemetryRecord) => r.vramGrowth, growth);
    AverageOfEqual(group, (r: TelemetryRecord) => r.kvCacheCost, cost);
    AverageOfEqual(group, (r: TelemetryRecord) => r.overhead, overhead);
    RequestIdsInOrder(group);
  }

  lemma {:induction false} RequestIdsInOrder(group: seq<TelemetryRecord>)
    ensures |RequestIds(group)| == |group|
    ensures forall i | 0 <= i < |group| :: RequestIds(group)[i] == group[i].requestId
  {
    if group != [] { RequestIdsInOrder(group[1..]); }
  }
}
