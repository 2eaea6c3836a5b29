/** Capacity arithmetic over VRAM readings (lmrs/vram.py, lmrs/model_lifecycle.py).
    Readings are integers of any sign, as the source accepts them; the ValueError
    paths are part of the model. */
module VramCapacity {
  import opened Outcomes

  function Max(a: int, b: int): (m: int)
    ensures m >= a && m >= b && (m == a || m == b)
  {
    if a >= b then a else b
  }

  function CalculateStaticVram(baselineFree: int, loadedFree: Option<int>): Result<int> {
    if loadedFree.None? then ValueError
    else if baselineFree < 0 || loadedFree.value < 0 then ValueError
    else if loadedFree.value > baselineFree then ValueError
    else Ok(baselineFree - loadedFree.value)
  }

  function MeasureModelStaticVram(baselineFree: int, loadedFree: int): Result<int> {
    if baselineFree < 0 then ValueError
    else if loadedFree < 0 then ValueError
    else
      var measured := baselineFree - loadedFree;
      if measured < 0 then ValueError else Ok(measured)
  }

  datatype DynamicVramState = DynamicVramState(
    modelLoadedFree: int, safetyMargin: int, runtimeReserve: int, activeReservation: int)

  function CalculateMaxDynamicPool(state: DynamicVramState): Result<int> {
    if state.modelLoadedFree < 0 then ValueError
    else if state.safetyMargin < 0 || state.runtimeReserve < 0 then ValueError
    else Ok(Max(0, state.modelLoadedFree - state.safetyMargin - state.runtimeReserve))
  }

  function CalculateUsableDynamicVram(state: DynamicVramState): Result<int> {
    if state.activeReservation < 0 then ValueError
    else
      match CalculateMaxDynamicPool(state)
      case ValueError => ValueError
      case Ok(pool) => Ok(Max(0, pool - state.activeReservation))
  }

  /** The two static-VRAM calculators are one: both give the difference exactly for
      readings that are not negative and not larger with the model than without. */
  lemma StaticVramFormsAgree(baselineFree: int, loadedFree: int)
    ensures CalculateStaticVram(baselineFree, Some(loadedFree)) == MeasureModelStaticVram(baselineFree, loadedFree)
    ensures MeasureModelStaticVram(baselineFree, loadedFree).Ok? <==> 0 <= loadedFree <= baselineFree
    ensures 0 <= loadedFree <= baselineFree ==> MeasureModelStaticVram(baselineFree, loadedFree).value + loadedFree == baselineFree
    ensures CalculateStaticVram(baselineFree, None) == ValueError
  {}

  /** Margin, reserve, reservations and what stays usable share out the free memory;
      the pools are zero exactly when nothing is left of it. */
  lemma PoolsShareFreeMemory(state: DynamicVramState)
    ensures var pool, usable := CalculateMaxDynamicPool(state), CalculateUsableDynamicVram(state);
            && (pool.Ok? <==> state.modelLoadedFree >= 0 && state.safetyMargin >= 0 && state.runtimeReserve >= 0)
            && (usable.Ok? <==> pool.Ok? && state.activeReservation >= 0)
            && (pool.Ok? ==>
                  && pool.value >= 0
                  && (pool.value > 0 ==> pool.value + state.safetyMargin + state.runtimeReserve == state.modelLoadedFree)
                  && (pool.value == 0 <==> state.modelLoadedFree <= state.safetyMargin + state.runtimeReserve))
            && (usable.Ok? ==>
                  && 0 <= usable.value
                  && (usable.value > 0 ==> usable.value + state.activeReservation == pool.value)
                  && (usable.value == 0 <==> pool.value <= state.activeReservation))
  {}

  /** The fraction given to --gpu-memory-utilization, in hundredths. Dafny's
      division by a positive total rounds down, as math.floor does. */
  function DeriveGpuMemoryUtilization(free: int, total: int, reserve: int, residentPeak: int): Result<int> {
    if free < 0 || total < 0 || reserve < 0 || residentPeak < 0 then ValueError
    else if total == 0 then ValueError
    else if free > total then ValueError
    else
      var residentGrowth := Max(0, residentPeak - (total - free));
      var allocatable := free - reserve - residentGrowth;
      var utilization := allocatable * 100 / total;
      if utilization <= 0 then ValueError else Ok(utilization)
  }

  predicate ValidReading(free: int, total: int, reserve: int, residentPeak: int) {
    0 <= free <= total && 0 < total && 0 <= reserve && 0 <= residentPeak
  }

  /** u hundredths of the card, the reserve, and whatever the co-resident services
      use now or will at their declared peak, fit on the card together. */
  predicate Startable(u: int, free: int, total: int, reserve: int, residentPeak: int) {
    u * total + 100 * (reserve + Max(residentPeak, total - free)) <= 100 * total
  }

  lemma MulOrder(a: int, b: int, d: int)
    requires a <= b && 0 <= d
    ensures a * d <= b * d
  {}

  lemma FloorDivision(u: int, x: int, d: int)
    requires d > 0
    ensures u * d <= x <==> u <= x / d
  {
    var q := x / d;
    assert q * d <= x < q * d + d;
    if u <= q {
      MulOrder(u, q, d);
    } else {
      MulOrder(q + 1, u, d);
      assert (q + 1) * d == q * d + d;
    }
  }

  /** The derived value is the largest whole percentage the card can hold, and
      there is none exactly when not even one percent fits. */
  lemma UtilizationIsLargestStartable(free: int, total: int, reserve: int, residentPeak: int)
    ensures !ValidReading(free, total, reserve, residentPeak) ==>
              DeriveGpuMemoryUtilization(free, total, reserve, residentPeak) == ValueError
    ensures ValidReading(free, total, reserve, residentPeak) ==>
              match DeriveGpuMemoryUtilization(free, total, reserve, residentPeak)
              case Ok(u) =>
                && 1 <= u <= 100
                && (forall v :: Startable(v, free, total, reserve, residentPeak) <==> v <= u)
              case ValueError => forall v | v >= 1 :: !Startable(v, free, total, reserve, residentPeak)
  {
    if ValidReading(free, total, reserve, residentPeak) {
      var allocatable := free - reserve - Max(0, residentPeak - (total - free));
      forall v ensures Startable(v, free, total, reserve, residentPeak) <==> v <= allocatable * 100 / total {
        FloorDivision(v, allocatable * 100, total);
      }
      FloorDivision(101, allocatable * 100, total);
      assert 101 * total > allocatable * 100;
    }
  }

  /** More free memory, a smaller reserve or a smaller declared peak never lowers the value. */
  lemma UtilizationMonotone(free: int, total: int, reserve: int, peak: int, free': int, reserve': int, peak': int)
    requires ValidReading(free, total, reserve, peak) && ValidReading(free', total, reserve', peak')
    requires free <= free' && reserve' <= reserve && peak' <= peak
    ensures var r, r' := DeriveGpuMemoryUtilization(free, total, reserve, peak),
                         DeriveGpuMemoryUtilization(free', total, reserve', peak');
            r.Ok? ==> r'.Ok? && r.value <= r'.value
  {
    var r := DeriveGpuMemoryUtilization(free, total, reserve, peak);
    if r.Ok? {
      UtilizationIsLargestStartable(free, total, reserve, peak);
      UtilizationIsLargestStartable(free', total, reserve', peak');
      assert Startable(r.value, free, total, reserve, peak);
      assert Startable(r.value, free', total, reserve', peak');
    }
  }
}
