/** The persistent request queue, its scheduler and its dispatch worker (lmrs/queue.py). */
module RequestQueues {
  import opened Outcomes
  import opened Text
  import opened Admission

  datatype RequestQueue = RequestQueue(entries: seq<QueueEntry>) {
    function Add(entry: QueueEntry): RequestQueue {
      RequestQueue(entries + [entry])
    }

    function Cancel(requestId: string): RequestQueue {
      RequestQueue(Without(entries, requestId))
    }
  }

  function Without(entries: seq<QueueEntry>, requestId: string): (kept: seq<QueueEntry>)
    ensures forall e :: e in kept <==> e in entries && e.requestId != requestId
    ensures |kept| <= |entries|
    ensures |kept| == |entries| <==> forall e | e in entries :: e.requestId != requestId
    ensures (forall e | e in entries :: e.requestId != requestId) ==> kept == entries
  {
    if entries == [] then []
    else
      var rest := Without(entries[1..], requestId);
      assert entries == [entries[0]] + entries[1..];
      if entries[0].requestId != requestId then [entries[0]] + rest else rest
  }

  /** Cancelling looks at each entry by itself and keeps the order. */
  lemma {:induction false} WithoutConcat(a: seq<QueueEntry>, b: seq<QueueEntry>, requestId: string)
    ensures Without(a + b, requestId) == Without(a, requestId) + Without(b, requestId)
  {
    if a == [] {
      assert a + b == b;
    } else {
      assert (a + b)[0] == a[0] && (a + b)[1..] == a[1..] + b;
      WithoutConcat(a[1..], b, requestId);
    }
  }

  // ----- the scheduling key -----

  datatype Key = Key(vram: int, priority: int, admittedAt: string)

  function KeyOf(e: QueueEntry): Key { Key(e.requiredVram, e.priority, e.admittedAt) }

  /** The order Python gives to tuples. */
  predicate KeyLe(a: Key, b: Key) {
    || a.vram < b.vram
    || (a.vram == b.vram && (a.priority < b.priority || (a.priority == b.priority && StrLe(a.admittedAt, b.admittedAt))))
  }

  lemma KeyLeTotal(a: Key, b: Key)
    ensures KeyLe(a, b) || KeyLe(b, a)
  {
    StrLeTotal(a.admittedAt, b.admittedAt);
  }

  lemma KeyLeTransitive(a: Key, b: Key, c: Key)
    requires KeyLe(a, b) && KeyLe(b, c)
    ensures KeyLe(a, c)
  {
    if a.vram == b.vram == c.vram && a.priority == b.priority == c.priority {
      StrLeTransitive(a.admittedAt, b.admittedAt, c.admittedAt);
    }
  }

  // ----- the scheduler -----

  predicate Fits(e: QueueEntry, usable: int) {
    e.status == "queued" && e.requiredVram <= usable
  }

  function Candidates(entries: seq<QueueEntry>, usable: int): seq<QueueEntry> {
    if entries == [] then []
    else
      var before := Candidates(entries[..|entries| - 1], usable);
      var last := entries[|entries| - 1];
      if Fits(last, usable) then before + [last] else before
  }

  /** Python's max with a key: the first of the greatest. */
  function MaxByKey(candidates: seq<QueueEntry>): QueueEntry
    requires candidates != []
  {
    var last := candidates[|candidates| - 1];
    if |candidates| == 1 then last
    else
      var best := MaxByKey(candidates[..|candidates| - 1]);
      if KeyLe(KeyOf(last), KeyOf(best)) then best else last
  }

  function LargestFit(entries: seq<QueueEntry>, usable: int): Option<QueueEntry> {
    var candidates := Candidates(entries, usable);
    if candidates == [] then None else Some(MaxByKey(candidates))
  }

  /** What it means for the i-th entry to be the right choice. */
  ghost predicate IsFirstLargest(entries: seq<QueueEntry>, usable: int, i: nat) {
    && i < |entries|
    && Fits(entries[i], usable)
    && (forall j | 0 <= j < |entries| && Fits(entries[j], usable) :: KeyLe(KeyOf(entries[j]), KeyOf(entries[i])))
    && (forall j | 0 <= j < i && Fits(entries[j], usable) :: !KeyLe(KeyOf(entries[i]), KeyOf(entries[j])))
  }

  lemma LargestFitStep(entries: seq<QueueEntry>, usable: int)
    requires entries != []
    ensures var before, last := LargestFit(entries[..|entries| - 1], usable), entries[|entries| - 1];
            LargestFit(entries, usable) ==
            if !Fits(last, usable) || (before.Some? && KeyLe(KeyOf(last), KeyOf(before.value))) then before else Some(last)
  {
    var before := Candidates(entries[..|entries| - 1], usable);
    var last := entries[|entries| - 1];
    if Fits(last, usable) && before != [] {
      assert (before + [last])[..|before|] == before;
    }
  }

  /** Nothing is scheduled exactly when nothing fits; otherwise it is the first
      entry with the greatest key among those that fit. */
  lemma {:induction false} SchedulerCorrect(entries: seq<QueueEntry>, usable: int)
    ensures LargestFit(entries, usable).None? <==> forall e | e in entries :: !Fits(e, usable)
    ensures LargestFit(entries, usable).Some? ==>
              exists i: nat :: IsFirstLargest(entries, usable, i) && entries[i] == LargestFit(entries, usable).value
  {
    if entries != [] {
      var n := |entries| - 1;
      var prefix, last := entries[..n], entries[n];
      assert entries == prefix + [last];
      SchedulerCorrect(prefix, usable);
      LargestFitStep(entries, usable);
      var before := LargestFit(prefix, usable);
      KeyLeTotal(KeyOf(last), KeyOf(last));
      if before.None? {
        if Fits(last, usable) {
          assert forall j | 0 <= j < n :: prefix[j] in prefix;
          assert IsFirstLargest(entries, usable, n);
        }
      } else {
        var i: nat :| IsFirstLargest(prefix, usable, i) && prefix[i] == before.value;
        KeyLeTotal(KeyOf(last), KeyOf(before.value));
        if !Fits(last, usable) || KeyLe(KeyOf(last), KeyOf(before.value)) {
          assert IsFirstLargest(entries, usable, i);
        } else {
          forall j | 0 <= j < n && Fits(entries[j], usable)
            ensures KeyLe(KeyOf(entries[j]), KeyOf(last)) && !KeyLe(KeyOf(last), KeyOf(entries[j]))
          {
            assert entries[j] == prefix[j];
            KeyLeTransitive(KeyOf(entries[j]), KeyOf(before.value), KeyOf(last));
            if KeyLe(KeyOf(last), KeyOf(entries[j])) {
              KeyLeTransitive(KeyOf(last), KeyOf(entries[j]), KeyOf(before.value));
            }
          }
          assert IsFirstLargest(entries, usable, n);
        }
      }
    }
  }

  /** The parts of the choice that do not depend on positions. */
  lemma ScheduledEntry(entries: seq<QueueEntry>, usable: int)
    ensures var chosen := LargestFit(entries, usable);
            && (chosen.None? <==> forall e | e in entries :: !Fits(e, usable))
            && (chosen.Some? ==>
                  && chosen.value in entries && Fits(chosen.value, usable)
                  && forall e | e in entries && Fits(e, usable) :: KeyLe(KeyOf(e), KeyOf(chosen.value)))
  {
    SchedulerCorrect(entries, usable);
  }

  /** More capacity never schedules a smaller key. */
  lemma SchedulerMonotone(entries: seq<QueueEntry>, usable: int, usable': int)
    requires usable <= usable'
    ensures var chosen, chosen' := LargestFit(entries, usable), LargestFit(entries, usable');
            chosen.Some? ==> chosen'.Some? && KeyLe(KeyOf(chosen.value), KeyOf(chosen'.value))
  {
    ScheduledEntry(entries, usable);
    ScheduledEntry(entries, usable');
    if LargestFit(entries, usable).Some? {
      assert Fits(LargestFit(entries, usable).value, usable');
    }
  }

  /** e does not come before c: it needs less memory, or as much with a lower priority,
      or as much with the same priority and was admitted no later. */
  predicate NoLarger(e: QueueEntry, c: QueueEntry) {
    || e.requiredVram < c.requiredVram
    || (e.requiredVram == c.requiredVram && e.priority < c.priority)
    || (e.requiredVram == c.requiredVram && e.priority == c.priority && StrLe(e.admittedAt, c.admittedAt))
  }

  predicate Waits(e: QueueEntry, usable: int) {
    e.status == "queued" && e.requiredVram <= usable
  }

  /** The scheduler picks a waiting entry that needs the most memory among those that
      fit, then the highest priority, then the latest admission, then the first in the queue. */
  lemma LargestIsScheduled(entries: seq<QueueEntry>, usable: int)
    ensures LargestFit(entries, usable).None? <==> forall e | e in entries :: !Waits(e, usable)
    ensures LargestFit(entries, usable).Some? ==>
              exists i: nat | i < |entries| ::
                && entries[i] == LargestFit(entries, usable).value && Waits(entries[i], usable)
                && (forall e | e in entries && Waits(e, usable) :: NoLarger(e, entries[i]))
                && (forall j | 0 <= j < i && Waits(entries[j], usable) :: !NoLarger(entries[i], entries[j]))
  {
    SchedulerCorrect(entries, usable);
    if LargestFit(entries, usable).Some? {
      var i: nat :| IsFirstLargest(entries, usable, i) && entries[i] == LargestFit(entries, usable).value;
      assert forall e | e in entries && Waits(e, usable) :: NoLarger(e, entries[i]);
    }
  }

  // ----- dispatch -----

  predicate LaunchRecheck(entry: QueueEntry, usable: int) {
    entry.requiredVram <= usable
  }

  /** What one trigger did: its result, and the entries handed to the executor. */
  datatype DispatchRun = DispatchRun(result: Outcome<Option<QueueEntry>>, handedOff: seq<QueueEntry>)

  /** One trigger: capacity is read once to select and once more before the
      hand-off; either reading, and the executor, may raise. */
  function Dispatch(queue: RequestQueue, first: Outcome<int>, second: Outcome<int>, executor: Outcome<()>): (run: DispatchRun)
    ensures |run.handedOff| <= 1
    ensures run.handedOff != [] ==>
              && first.Returned? && second.Returned?
              && LargestFit(queue.entries, first.value) == Some(run.handedOff[0])
              && run.handedOff[0] in queue.entries
              && Fits(run.handedOff[0], first.value) && Fits(run.handedOff[0], second.value)
    ensures run.handedOff == [] && first.Returned? && second.Returned? ==>
              forall e | e in queue.entries && Fits(e, first.value) :: exists f ::
                f in queue.entries && KeyLe(KeyOf(e), KeyOf(f)) && Fits(f, first.value) && !LaunchRecheck(f, second.value)
    ensures run.result.Returned? ==> run.handedOff == (if run.result.value.Some? then [run.result.value.value] else [])
  {
    ScheduledEntry(queue.entries, if first.Returned? then first.value else 0);
    match first
    case Raised(e) => DispatchRun(Raised(e), [])
    case Returned(c1) =>
      match LargestFit(queue.entries, c1)
      case None => DispatchRun(Returned(None), [])
      case Some(selected) =>
        match second
        case Raised(e) => DispatchRun(Raised(e), [])
        case Returned(c2) =>
          if !LaunchRecheck(selected, c2) then DispatchRun(Returned(None), [])
          else
            match executor
            case Raised(e) => DispatchRun(Raised(e), [selected])
            case Returned(_) => DispatchRun(Returned(Some(selected)), [selected])
  }

  /** A trigger hands off exactly the entry the scheduler's rule names for the first
      reading, and exactly when the second reading still holds it. */
  lemma LargestIsHandedOff(queue: RequestQueue, first: Outcome<int>, second: Outcome<int>, executor: Outcome<()>)
    ensures var handed := Dispatch(queue, first, second, executor).handedOff;
            && (handed != [] ==>
                  && first.Returned? && second.Returned?
                  && handed[0] in queue.entries && Waits(handed[0], first.value) && handed[0].requiredVram <= second.value
                  && forall e | e in queue.entries && Waits(e, first.value) :: NoLarger(e, handed[0]))
            && (handed == [] && first.Returned? && second.Returned? ==>
                  forall e | e in queue.entries && Waits(e, first.value) ::
                    exists f :: f in queue.entries && Waits(f, first.value) && NoLarger(e, f) && f.requiredVram > second.value)
  {
    if first.Returned? { LargestIsScheduled(queue.entries, first.value); }
  }

  // ----- runs of triggers and cancellations -----

  /** One step of a run: a trigger, whose readings and executor may raise, or the
      cancellation of a queued request. */
  datatype Step =
    | Trigger(first: Outcome<int>, second: Outcome<int>, executor: Outcome<()>)
    | Cancellation(requestId: string)

  /** An entry given to the executor, and whether the executor returned. */
  datatype HandOff = HandOff(entry: QueueEntry, launched: bool)

  function HandedOff(queue: RequestQueue, step: Step): (handed: seq<HandOff>)
    ensures |handed| <= 1
  {
    if step.Cancellation? then []
    else
      var run := Dispatch(queue, step.first, step.second, step.executor);
      if run.handedOff == [] then [] else [HandOff(run.handedOff[0], run.result.Returned?)]
  }

  /** The queue after a step: a launched request is cancelled, and one whose executor raised stays. */
  function AfterStep(queue: RequestQueue, step: Step): RequestQueue {
    match step
    case Cancellation(requestId) => queue.Cancel(requestId)
    case Trigger(_, _, _) =>
      var handed := HandedOff(queue, step);
      if handed != [] && handed[0].launched then queue.Cancel(handed[0].entry.requestId) else queue
  }

  /** Everything handed off by a run, in order. */
  function Drain(queue: RequestQueue, steps: seq<Step>): seq<HandOff>
    decreases |steps|
  {
    if steps == [] then []
    else HandedOff(queue, steps[0]) + Drain(AfterStep(queue, steps[0]), steps[1..])
  }

  function Leftover(queue: RequestQueue, steps: seq<Step>): RequestQueue
    decreases |steps|
  {
    if steps == [] then queue
    else Leftover(AfterStep(queue, steps[0]), steps[1..])
  }

  function LaunchCount(handed: seq<HandOff>): nat {
    if handed == [] then 0 else (if handed[0].launched then 1 else 0) + LaunchCount(handed[1..])
  }

  lemma StepShrinks(queue: RequestQueue, step: Step)
    ensures var handed, after := HandedOff(queue, step), AfterStep(queue, step);
            && LaunchCount(handed) + |after.entries| <= |queue.entries|
            && (forall h | h in handed :: h.entry in queue.entries)
            && (forall e | e in after.entries :: e in queue.entries)
            && (forall h | h in handed && h.launched :: forall e | e in after.entries :: e.requestId != h.entry.requestId)
  {}

  /** An entry leaves the queue only by being launched or cancelled under its id. */
  lemma LeavesQueue(queue: RequestQueue, step: Step, e: QueueEntry)
    requires e in queue.entries && e !in AfterStep(queue, step).entries
    ensures step == Cancellation(e.requestId)
            || (HandedOff(queue, step) != [] && HandedOff(queue, step)[0].launched
                && HandedOff(queue, step)[0].entry.requestId == e.requestId)
  {}

  lemma {:induction false} DrainedWereQueued(queue: RequestQueue, steps: seq<Step>)
    ensures LaunchCount(Drain(queue, steps)) + |Leftover(queue, steps).entries| <= |queue.entries|
    ensures forall h | h in Drain(queue, steps) :: h.entry in queue.entries
    decreases |steps|
  {
    if steps != [] {
      StepShrinks(queue, steps[0]);
      DrainedWereQueued(AfterStep(queue, steps[0]), steps[1..]);
      var now, later := HandedOff(queue, steps[0]), Drain(AfterStep(queue, steps[0]), steps[1..]);
      if now == [] {
        assert now + later == later;
      } else {
        assert (now + later)[0] == now[0] && (now + later)[1..] == later;
      }
    }
  }

  /** Once a request is launched its id is never handed off again. */
  ghost predicate NothingAfterLaunch(handed: seq<HandOff>) {
    forall i, j | 0 <= i < j < |handed| && handed[i].launched :: handed[i].entry.requestId != handed[j].entry.requestId
  }

  /** Whatever the readings, the executor and the cancellations do, a run hands off
      queued entries only, launches no more than were queued, and never hands off an
      id again that it launched: an id is handed off twice only after its executor raised. */
  lemma {:induction false} DrainIsExclusive(queue: RequestQueue, steps: seq<Step>)
    ensures var handed := Drain(queue, steps);
            && LaunchCount(handed) + |Leftover(queue, steps).entries| <= |queue.entries|
            && (forall h | h in handed :: h.entry in queue.entries)
            && NothingAfterLaunch(handed)
    decreases |steps|
  {
    DrainedWereQueued(queue, steps);
    if steps != [] {
      var after := AfterStep(queue, steps[0]);
      StepShrinks(queue, steps[0]);
      DrainedWereQueued(after, steps[1..]);
      DrainIsExclusive(after, steps[1..]);
      LaunchedFirst(HandedOff(queue, steps[0]), Drain(after, steps[1..]));
    }
  }

  lemma LaunchedFirst(now: seq<HandOff>, later: seq<HandOff>)
    requires |now| <= 1 && NothingAfterLaunch(later)
    requires forall h, l | h in now && h.launched && l in later :: h.entry.requestId != l.entry.requestId
    ensures NothingAfterLaunch(now + later)
  {
    var handed := now + later;
    forall i, j | 0 <= i < j < |handed| && handed[i].launched
      ensures handed[i].entry.requestId != handed[j].entry.requestId
    {
      assert handed[j] == later[j - |now|];
      if i < |now| { assert handed[i] in now && handed[j] in later; }
    }
  }

  /** What a trigger handed off, the next trigger with the same readings hands off
      again exactly when the executor raised. */
  lemma HandedOffAgain(queue: RequestQueue, step: Step, next: Step)
    requires step.Trigger? && next.Trigger? && next.first == step.first && next.second == step.second
    requires HandedOff(queue, step) != []
    ensures var again := HandedOff(AfterStep(queue, step), next);
            (again != [] && again[0].entry.requestId == HandedOff(queue, step)[0].entry.requestId) <==> step.executor.Raised?
  {
    StepShrinks(queue, step);
    var again := HandedOff(AfterStep(queue, step), next);
    if step.executor.Returned? && again != [] {
      assert again[0].entry in AfterStep(queue, step).entries;
    }
  }

  /** Nothing is lost: every entry stays queued, is cancelled, or shares its id with one launched. */
  lemma {:induction false} DrainLosesNothing(queue: RequestQueue, steps: seq<Step>, e: QueueEntry)
    requires e in queue.entries
    ensures || e in Leftover(queue, steps).entries
            || Cancellation(e.requestId) in steps
            || exists h :: h in Drain(queue, steps) && h.launched && h.entry.requestId == e.requestId
    decreases |steps|
  {
    if steps != [] {
      var after := AfterStep(queue, steps[0]);
      if e in after.entries {
        DrainLosesNothing(after, steps[1..], e);
      } else {
        LeavesQueue(queue, steps[0], e);
        if steps[0].Trigger? {
          assert HandedOff(queue, steps[0])[0] in Drain(queue, steps);
        }
      }
    }
  }

  predicate KeysFall(handed: seq<HandOff>) {
    forall i, j | 0 <= i < j < |handed| :: KeyLe(KeyOf(handed[j].entry), KeyOf(handed[i].entry))
  }

  lemma KeysFallFrom(first: HandOff, rest: seq<HandOff>)
    requires KeysFall(rest) && forall h | h in rest :: KeyLe(KeyOf(h.entry), KeyOf(first.entry))
    ensures KeysFall([first] + rest)
  {}

  /** The reading a step selects against, when it gets one. */
  function SelectedAgainst(step: Step): Option<int> {
    if step.Trigger? && step.first.Returned? then Some(step.first.value) else None
  }

  predicate SelectsWithin(step: Step, usable: int) {
    SelectedAgainst(step).Some? ==> SelectedAgainst(step).value <= usable
  }

  predicate ReadingsNeverGrow(steps: seq<Step>) {
    forall i, j | 0 <= i < j < |steps| && SelectedAgainst(steps[i]).Some? ::
      SelectsWithin(steps[j], SelectedAgainst(steps[i]).value)
  }

  lemma {:induction false} DrainedFit(queue: RequestQueue, steps: seq<Step>, usable: int)
    requires forall i | 0 <= i < |steps| :: SelectsWithin(steps[i], usable)
    ensures forall h | h in Drain(queue, steps) :: h.entry in queue.entries && Fits(h.entry, usable)
    decreases |steps|
  {
    if steps != [] {
      StepShrinks(queue, steps[0]);
      DrainedFit(AfterStep(queue, steps[0]), steps[1..], usable);
    }
  }

  /** Selecting against readings that never grow, whatever the second readings, the
      executor and the cancellations do, the keys handed off never increase. */
  lemma {:induction false} DrainKeysNeverIncrease(queue: RequestQueue, steps: seq<Step>)
    requires ReadingsNeverGrow(steps)
    ensures KeysFall(Drain(queue, steps))
    decreases |steps|
  {
    if steps != [] {
      var now, after := HandedOff(queue, steps[0]), AfterStep(queue, steps[0]);
      var rest := steps[1..];
      DrainKeysNeverIncrease(after, rest);
      if now == [] {
        assert [] + Drain(after, rest) == Drain(after, rest);
      } else {
        StepShrinks(queue, steps[0]);
        DrainedFit(after, rest, steps[0].first.value);
        ScheduledEntry(queue.entries, steps[0].first.value);
        KeysFallFrom(now[0], Drain(after, rest));
        assert now == [now[0]];
      }
    }
  }

  /** In particular every hand-off needs at most as much memory as the one before. */
  lemma DrainMemoryNeverIncreases(queue: RequestQueue, steps: seq<Step>)
    requires ReadingsNeverGrow(steps)
    ensures var handed := Drain(queue, steps);
            forall i, j | 0 <= i < j < |handed| :: NoLarger(handed[j].entry, handed[i].entry)
  {
    DrainKeysNeverIncrease(queue, steps);
  }

  // ----- runs at constant capacity -----

  predicate Steady(steps: seq<Step>, usable: int) {
    forall i | 0 <= i < |steps| :: steps[i] == Trigger(Returned(usable), Returned(usable), Returned(()))
  }

  /** At constant capacity and with an executor that returns, the keys handed off
      never increase, and as many triggers as there are entries leave nothing that fits. */
  lemma {:induction false} DrainAtConstantCapacity(queue: RequestQueue, steps: seq<Step>, usable: int)
    requires Steady(steps, usable)
    ensures var handed := Drain(queue, steps);
            && (forall h | h in handed :: h.launched && Fits(h.entry, usable))
            && KeysFall(handed)
            && (|steps| >= |queue.entries| ==> forall e | e in Leftover(queue, steps).entries :: !Fits(e, usable))
    decreases |steps|
  {
    if steps != [] {
      var now, after := HandedOff(queue, steps[0]), AfterStep(queue, steps[0]);
      StepShrinks(queue, steps[0]);
      ScheduledEntry(queue.entries, usable);
      DrainAtConstantCapacity(after, steps[1..], usable);
      DrainKeysNeverIncrease(queue, steps);
      if now == [] {
        NothingFitsStays(queue, steps, usable);
      } else {
        assert LaunchCount(now) == 1;
      }
    }
  }

  lemma {:induction false} NothingFitsStays(queue: RequestQueue, steps: seq<Step>, usable: int)
    requires Steady(steps, usable) && forall e | e in queue.entries :: !Fits(e, usable)
    ensures Drain(queue, steps) == [] && Leftover(queue, steps) == queue
    decreases |steps|
  {
    if steps != [] {
      NothingFitsStays(queue, steps[1..], usable);
    }
  }

  ghost predicate DistinctIds(entries: seq<QueueEntry>) {
    forall e, f | e in entries && f in entries :: e.requestId == f.requestId ==> e == f
  }

  /** With distinct ids, enough triggers at constant capacity launch exactly the entries that fit. */
  lemma DrainServesAllThatFit(queue: RequestQueue, steps: seq<Step>, usable: int, e: QueueEntry)
    requires DistinctIds(queue.entries) && e in queue.entries
    requires Steady(steps, usable) && |steps| >= |queue.entries|
    ensures HandOff(e, true) in Drain(queue, steps) <==> Fits(e, usable)
  {
    DrainIsExclusive(queue, steps);
    DrainAtConstantCapacity(queue, steps, usable);
    DrainLosesNothing(queue, steps, e);
    if h :| h in Drain(queue, steps) && h.launched && h.entry.requestId == e.requestId {
      assert h == HandOff(e, true);
    }
  }
}
