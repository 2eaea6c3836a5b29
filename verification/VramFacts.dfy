/** The persisted VRAM measurements of one host (VramFactsStore in lmrs/vram.py).

    The store reads a JSON mapping, updates it and writes it back. Reading can
    fail (the mapping is then taken as empty), writing can fail (the disk keeps
    its old content), and the driver reading itself can fail. Each event carries
    those outcomes as inputs. The fields one call writes together are one record. */
module VramFacts {
  import opened Outcomes
  import opened VramCapacity

  datatype Measurement = Measurement(ok: bool, total: int, free: int, measuredAt: string)

  datatype BaselineFacts = BaselineFacts(
    free: int, total: int, residentServices: seq<string>, measuredAt: string, modelServed: bool)

  datatype LoadFacts = LoadFacts(
    modelName: string, free: int, measuredAt: string, runtimeBackend: string, quantization: string)

  datatype UnavailableReason = BaselineWasModelServed | NoBaselineAboveReading

  datatype Facts = Facts(
    baseline: Option<BaselineFacts>,
    load: Option<LoadFacts>,
    staticVram: Option<int>,
    unavailable: Option<UnavailableReason>)

  const EMPTY := Facts(None, None, None, None)

  /** Whether the facts file can be read and written at the moment of one event. */
  datatype Io = Io(readable: bool, writable: bool)

  datatype Event =
    | BaselineEvent(measurement: Measurement, residentServices: seq<string>, modelServed: bool, io: Io)
    | LoadEvent(modelName: string, measurement: Measurement, runtimeBackend: string, quantization: string, io: Io)

  /** The mapping a call returns; writeFailed stands for its "write_error" key. */
  datatype Reply = Reply(facts: Facts, writeFailed: bool)

  // ----- one event -----

  function BaselineOf(e: Event): BaselineFacts
    requires e.BaselineEvent?
  {
    BaselineFacts(e.measurement.free, e.measurement.total, e.residentServices, e.measurement.measuredAt, e.modelServed)
  }

  function LoadOf(e: Event): LoadFacts
    requires e.LoadEvent?
  {
    LoadFacts(e.modelName, e.measurement.free, e.measurement.measuredAt, e.runtimeBackend, e.quantization)
  }

  /** A model-served reading never replaces a model-free baseline. */
  predicate KeepsBaseline(facts: Facts, modelServed: bool) {
    modelServed && facts.baseline.Some? && !facts.baseline.value.modelServed
  }

  /** The mapping after one successful driver reading, before it is written. */
  function Update(facts: Facts, e: Event): Facts {
    if e.BaselineEvent? then
      if KeepsBaseline(facts, e.modelServed) then facts
      else facts.(baseline := Some(BaselineOf(e)))
    else
      var updated := facts.(load := Some(LoadOf(e)));
      if facts.baseline.Some? && facts.baseline.value.modelServed then
        updated.(staticVram := None, unavailable := Some(BaselineWasModelServed))
      else if facts.baseline.Some? && facts.baseline.value.free >= e.measurement.free then
        updated.(staticVram := Some(facts.baseline.value.free - e.measurement.free), unavailable := None)
      else
        updated.(staticVram := None, unavailable := Some(NoBaselineAboveReading))
  }

  function Seen(disk: Facts, io: Io): Facts {
    if io.readable then disk else EMPTY
  }

  /** What is on disk after an event. */
  function Step(disk: Facts, e: Event): Facts {
    if Lands(e) then Update(Seen(disk, e.io), e) else disk
  }

  /** The reading succeeded and its write reached disk. */
  predicate Lands(e: Event) {
    e.measurement.ok && e.io.writable
  }

  function Run(history: seq<Event>): Facts {
    if history == [] then EMPTY
    else Step(Run(history[..|history| - 1]), history[|history| - 1])
  }

  // ----- the store -----

  class VramFactsStore {
    var disk: Facts
    ghost var history: seq<Event>

    ghost predicate Valid()
      reads this
    {
      disk == Run(history)
    }

    constructor ()
      ensures Valid() && history == []
    {
      disk, history := EMPTY, [];
    }

    method Read(io: Io) returns (facts: Facts)
      ensures facts == Seen(disk, io)
    {
      if io.readable { facts := disk; } else { facts := EMPTY; }
    }

    method Write(facts: Facts, io: Io) returns (reply: Reply)
      modifies this`disk
      ensures disk == if io.writable then facts else old(disk)
      ensures reply == Reply(facts, !io.writable)
    {
      reply := Reply(facts, false);
      if io.writable {
        disk := facts;
      } else {
        reply := reply.(writeFailed := true);
      }
    }

    method RecordServiceBaseline(measurement: Measurement, residentServices: seq<string>, modelServed: bool, io: Io)
      returns (reply: Reply)
      requires Valid()
      modifies this
      ensures Valid()
      ensures history == old(history) + [BaselineEvent(measurement, residentServices, modelServed, io)]
      ensures !measurement.ok || !io.writable ==> disk == old(disk)
      // whatever the disk did, the caller is told the facts as they should now stand
      ensures reply.facts == if measurement.ok
                             then Update(Seen(old(disk), io), BaselineEvent(measurement, residentServices, modelServed, io))
                             else Seen(old(disk), io)
      ensures reply.writeFailed <==> measurement.ok && !io.writable && !KeepsBaseline(Seen(old(disk), io), modelServed)
    {
      ghost var e := BaselineEvent(measurement, residentServices, modelServed, io);
      history := history + [e];
      assert history[..|history| - 1] == old(history);
      var facts := Read(io);
      if !measurement.ok {
        return Reply(facts, false);
      }
      if modelServed && facts.baseline.Some? && !facts.baseline.value.modelServed {
        // a readable store: an unreadable one shows no baseline
        return Reply(facts, false);
      }
      facts := facts.(baseline := Some(BaselineFacts(
        measurement.free, measurement.total, residentServices, measurement.measuredAt, modelServed)));
      reply := Write(facts, io);
    }

    method RecordModelLoaded(modelName: string, measurement: Measurement, runtimeBackend: string, quantization: string, io: Io)
      returns (reply: Reply)
      requires Valid()
      modifies this
      ensures Valid()
      ensures history == old(history) + [LoadEvent(modelName, measurement, runtimeBackend, quantization, io)]
      ensures !measurement.ok || !io.writable ==> disk == old(disk)
      ensures reply.facts == if measurement.ok
                             then Update(Seen(old(disk), io), LoadEvent(modelName, measurement, runtimeBackend, quantization, io))
                             else Seen(old(disk), io)
      ensures reply.writeFailed <==> measurement.ok && !io.writable
    {
      ghost var e := LoadEvent(modelName, measurement, runtimeBackend, quantization, io);
      history := history + [e];
      assert history[..|history| - 1] == old(history);
      var facts := Read(io);
      if !measurement.ok {
        return Reply(facts, false);
      }
      facts := facts.(load := Some(LoadFacts(
        modelName, measurement.free, measurement.measuredAt, runtimeBackend, quantization)));
      if facts.baseline.Some? && facts.baseline.value.modelServed {
        facts := facts.(staticVram := None);
        facts := facts.(unavailable := Some(BaselineWasModelServed));
      } else if facts.baseline.Some? && facts.baseline.value.free >= measurement.free {
        facts := facts.(staticVram := Some(facts.baseline.value.free - measurement.free));
        facts := facts.(unavailable := None);
      } else {
        facts := facts.(staticVram := None);
        facts := facts.(unavailable := Some(NoBaselineAboveReading));
      }
      reply := Write(facts, io);
    }
  }

  // ----- what the history says -----

  datatype Kind = ModelFreeBaseline | ModelServedBaseline | ModelLoad

  predicate IsKind(e: Event, kind: Kind) {
    Lands(e) && match kind
                case ModelFreeBaseline => e.BaselineEvent? && !e.modelServed
                case ModelServedBaseline => e.BaselineEvent? && e.modelServed
                case ModelLoad => e.LoadEvent?
  }

  /** A write made over a file that could not be read loses everything recorded before it. */
  predicate Forgets(e: Event) {
    Lands(e) && !e.io.readable
  }

  /** Where the remembered part of the history starts. */
  ghost function Start(history: seq<Event>): (start: nat)
    ensures start <= |history|
    ensures start == 0 || (start < |history| && Forgets(history[start]))
    ensures forall j | start < j < |history| :: !Forgets(history[j])
    ensures start == 0 ==> forall j | 0 < j < |history| :: !Forgets(history[j])
  {
    if history == [] then 0
    else if Forgets(history[|history| - 1]) then |history| - 1
    else Start(history[..|history| - 1])
  }

  /** The last event of a kind at or after start. */
  ghost function Latest(history: seq<Event>, start: nat, kind: Kind): (index: Option<nat>)
    requires start <= |history|
    ensures index.Some? ==>
              && start <= index.value < |history|
              && IsKind(history[index.value], kind)
              && (forall j | index.value < j < |history| :: !IsKind(history[j], kind))
    ensures index.None? ==> forall j | start <= j < |history| :: !IsKind(history[j], kind)
  {
    if start == |history| then None
    else if IsKind(history[|history| - 1], kind) then Some(|history| - 1)
    else Latest(history[..|history| - 1], start, kind)
  }

  /** The reading behind the stored baseline: the latest model-free one if there is
      one, else the latest model-served one. */
  ghost function Backing(history: seq<Event>, start: nat): (index: Option<nat>)
    requires start <= |history|
    ensures index.Some? ==> index.value < |history| && history[index.value].BaselineEvent?
  {
    var free := Latest(history, start, ModelFreeBaseline);
    if free.Some? then free else Latest(history, start, ModelServedBaseline)
  }

  ghost function BestBaseline(history: seq<Event>, start: nat): Option<BaselineFacts>
    requires start <= |history|
  {
    match Backing(history, start)
    case Some(i) => Some(BaselineOf(history[i]))
    case None => None
  }

  lemma BestBaselineStep(history: seq<Event>, start: nat)
    requires start < |history|
    ensures var e, before := history[|history| - 1], BestBaseline(history[..|history| - 1], start);
            BestBaseline(history, start) ==
            if IsKind(e, ModelFreeBaseline) || (IsKind(e, ModelServedBaseline) && (before.None? || before.value.modelServed))
            then Some(BaselineOf(e)) else before
  {}

  lemma StartStep(history: seq<Event>)
    requires history != []
    ensures var e := history[|history| - 1];
            Start(history) == if Forgets(e) then |history| - 1 else Start(history[..|history| - 1])
  {}

  /** The stored baseline is the best reading of the remembered history. */
  lemma {:induction false} BaselineRefinement(history: seq<Event>)
    ensures Run(history).baseline == BestBaseline(history, Start(history))
  {
    if history != [] {
      var prefix, e := history[..|history| - 1], history[|history| - 1];
      StartStep(history);
      BaselineRefinement(prefix);
      if Forgets(e) {
        BestBaselineStep(history, |history| - 1);
      } else if prefix != [] {
        BestBaselineStep(history, Start(prefix));
      }
    }
  }

  /** What a load reading yields against the baseline known at that moment. */
  ghost function FigureAt(history: seq<Event>, start: nat, k: nat): (Option<int>, Option<UnavailableReason>)
    requires start <= k < |history| && history[k].LoadEvent?
  {
    match BestBaseline(history[..k], start)
    case None => (None, Some(NoBaselineAboveReading))
    case Some(b) =>
      if b.modelServed then (None, Some(BaselineWasModelServed))
      else if b.free < history[k].measurement.free then (None, Some(NoBaselineAboveReading))
      else (Some(b.free - history[k].measurement.free), None)
  }

  /** The stored figure, reason and load record are those of the latest remembered load. */
  ghost predicate LoadRefined(history: seq<Event>) {
    var start, facts := Start(history), Run(history);
    match Latest(history, start, ModelLoad)
    case None => facts.load.None? && facts.staticVram.None? && facts.unavailable.None?
    case Some(k) =>
      && facts.load == Some(LoadOf(history[k]))
      && (facts.staticVram, facts.unavailable) == FigureAt(history, start, k)
  }

  lemma LatestStep(history: seq<Event>, kind: Kind)
    requires history != [] && !Forgets(history[|history| - 1])
    ensures var n := |history| - 1;
            Start(history) == Start(history[..n]) <= n
            && Latest(history, Start(history), kind)
               == if IsKind(history[n], kind) then Some(n) else Latest(history[..n], Start(history), kind)
  {
    StartStep(history);
  }

  lemma ForgettingLoad(history: seq<Event>)
    requires history != [] && Forgets(history[|history| - 1])
    ensures LoadRefined(history)
  {
    var n := |history| - 1;
    StartStep(history);
    assert BestBaseline(history[..n], n).None?;
    assert Latest(history[..n], n, ModelLoad).None?;
  }

  lemma RememberedLoad(history: seq<Event>)
    requires history != [] && !Forgets(history[|history| - 1]) && IsKind(history[|history| - 1], ModelLoad)
    ensures LoadRefined(history)
  {
    LatestStep(history, ModelLoad);
    BaselineRefinement(history[..|history| - 1]);
  }

  lemma NoNewLoad(history: seq<Event>)
    requires history != [] && !Forgets(history[|history| - 1]) && !IsKind(history[|history| - 1], ModelLoad)
    requires LoadRefined(history[..|history| - 1])
    ensures LoadRefined(history)
  {
    var prefix := history[..|history| - 1];
    LatestStep(history, ModelLoad);
    var latest := Latest(prefix, Start(prefix), ModelLoad);
    if latest.Some? {
      assert history[..latest.value] == prefix[..latest.value];
    }
  }

  lemma {:induction false} StaticVramRefinement(history: seq<Event>)
    ensures LoadRefined(history)
  {
    if history != [] {
      StaticVramRefinement(history[..|history| - 1]);
      if Forgets(history[|history| - 1]) {
        ForgettingLoad(history);
      } else if IsKind(history[|history| - 1], ModelLoad) {
        RememberedLoad(history);
      } else {
        NoNewLoad(history);
      }
    }
  }

  /** Whenever a load is remembered, exactly one of the figure and the reason it is
      missing is stored; and a stored figure is non-negative and is what both
      calculators return for the two readings it came from. */
  lemma StaticVramAgrees(history: seq<Event>)
    ensures var start, facts := Start(history), Run(history);
            match Latest(history, start, ModelLoad)
            case None => facts.staticVram.None? && facts.unavailable.None?
            case Some(k) =>
              && (facts.staticVram.Some? <==> facts.unavailable.None?)
              && (facts.staticVram.Some? ==> DerivedFrom(
                    facts.staticVram.value, BestBaseline(history[..k], start), history[k].measurement.free))
  {
    StaticVramRefinement(history);
  }

  ghost predicate DerivedFrom(figure: int, baseline: Option<BaselineFacts>, loadedFree: int) {
    && baseline.Some?
    && !baseline.value.modelServed
    && figure == baseline.value.free - loadedFree
    && figure >= 0
    && (loadedFree >= 0 ==>
          && CalculateStaticVram(baseline.value.free, Some(loadedFree)) == Ok(figure)
          && MeasureModelStaticVram(baseline.value.free, loadedFree) == Ok(figure))
  }

  /** A model-free reading that landed is still the stored baseline exactly when
      since then nothing was written over an unreadable file and no other model-free
      reading landed; model-served readings do not matter. */
  lemma ModelFreeBaselineSurvives(history: seq<Event>, i: nat)
    requires i < |history| && IsKind(history[i], ModelFreeBaseline)
    ensures Backing(history, Start(history)) == Some(i) <==>
              forall j | i < j < |history| :: !Forgets(history[j]) && !IsKind(history[j], ModelFreeBaseline)
    ensures Backing(history, Start(history)) == Some(i) ==> Run(history).baseline == Some(BaselineOf(history[i]))
  {
    BaselineRefinement(history);
  }

  /** A model-free baseline is stored exactly when one landed in the remembered part
      of the history, whichever it is. */
  lemma ModelFreeBaselineStored(history: seq<Event>)
    ensures Run(history).baseline.Some? && !Run(history).baseline.value.modelServed <==>
              exists j | Start(history) <= j < |history| :: IsKind(history[j], ModelFreeBaseline)
  {
    BaselineRefinement(history);
  }

  /** A model-free baseline that is lost: a load recorded while the file cannot be
      read is written over it, and has no baseline to subtract from. */
  lemma LostBaseline(idle: Measurement, loaded: Measurement)
    requires idle.ok && loaded.ok
    ensures var history := [
              BaselineEvent(idle, [], false, Io(true, true)),
              LoadEvent("m", loaded, "vllm", "fp16", Io(false, true))];
            && Run(history[..1]).baseline == Some(BaselineOf(history[0]))
            && Run(history).baseline.None? && Run(history).unavailable == Some(NoBaselineAboveReading)
  {
    var history := [
      BaselineEvent(idle, [], false, Io(true, true)),
      LoadEvent("m", loaded, "vllm", "fp16", Io(false, true))];
    assert history[..2] == history && history[..2][..1] == history[..1] && history[..1][..0] == [];
    assert Run(history[..0]) == EMPTY;
    assert Run(history[..1]) == Step(Run(history[..1][..0]), history[0]);
    assert Run(history) == Step(Run(history[..1]), history[1]);
  }

  /** The figure is taken at load time and not recomputed: after any history it is
      the difference of the two stored readings exactly when the baseline stored now
      reads the same free memory as the one the load was compared with. */
  lemma FigureIsNotRecomputed(history: seq<Event>)
    requires Run(history).staticVram.Some?
    ensures var start, facts := Start(history), Run(history);
            var k := Latest(history, start, ModelLoad);
            && k.Some? && facts.load.Some? && facts.baseline.Some?
            && BestBaseline(history[..k.value], start).Some?
            && (facts.staticVram.value == facts.baseline.value.free - facts.load.value.free
                <==> BestBaseline(history, start).value.free == BestBaseline(history[..k.value], start).value.free)
  {
    var start := Start(history);
    StaticVramRefinement(history);
    BaselineRefinement(history);
    var k := Latest(history, start, ModelLoad).value;
    BaselinePersists(history, start, k);
  }

  lemma BaselinePersists(history: seq<Event>, start: nat, k: nat)
    requires start <= k <= |history| && BestBaseline(history[..k], start).Some?
    ensures BestBaseline(history, start).Some?
  {
    var i := Backing(history[..k], start).value;
    assert history[..k][i] == history[i];
  }

  /** A baseline taken later, with less memory free, leaves the figure of the load before it. */
  lemma StaleFigure(idle: Measurement, loaded: Measurement, later: Measurement)
    requires idle.ok && loaded.ok && later.ok
    requires idle.free == 100 && loaded.free == 40 && later.free == 90
    ensures var history := [
              BaselineEvent(idle, [], false, Io(true, true)),
              LoadEvent("m", loaded, "vllm", "fp16", Io(true, true)),
              BaselineEvent(later, [], false, Io(true, true))];
            && Run(history).baseline == Some(BaselineOf(history[2]))
            && Run(history).staticVram == Some(60) != Some(later.free - loaded.free)
  {
    var history := [
      BaselineEvent(idle, [], false, Io(true, true)),
      LoadEvent("m", loaded, "vllm", "fp16", Io(true, true)),
      BaselineEvent(later, [], false, Io(true, true))];
    assert history[..2][..1] == history[..1] && history[..1][..0] == [];
    assert Run(history[..0]) == EMPTY;
    assert Run(history[..1]) == Step(Run(history[..1][..0]), history[0]);
    assert Run(history[..2]) == Step(Run(history[..2][..1]), history[1]);
    assert Run(history) == Step(Run(history[..2]), history[2]);
  }

  /** Every field of the stored baseline is that of the reading behind it, and every
      field of the stored load that of the latest remembered load. */
  lemma StoredFields(history: seq<Event>)
    ensures match Backing(history, Start(history))
            case None => Run(history).baseline.None?
            case Some(i) =>
              var stored, e := Run(history).baseline, history[i];
              && stored.Some?
              && stored.value.free == e.measurement.free && stored.value.total == e.measurement.total
              && stored.value.measuredAt == e.measurement.measuredAt
              && stored.value.residentServices == e.residentServices && stored.value.modelServed == e.modelServed
    ensures match Latest(history, Start(history), ModelLoad)
            case None => Run(history).load.None?
            case Some(k) =>
              var stored, e := Run(history).load, history[k];
              && stored.Some?
              && stored.value.modelName == e.modelName && stored.value.free == e.measurement.free
              && stored.value.measuredAt == e.measurement.measuredAt
              && stored.value.runtimeBackend == e.runtimeBackend && stored.value.quantization == e.quantization
  {
    BaselineRefinement(history);
    StaticVramRefinement(history);
  }
}
