/** The full model switch and the startup autoload (switch_model in
    lmrs/model_lifecycle.py, autoload_default_model in lmrs/adapter/runtime.py).
    Both drive the same disk cache and the same residency; every call they make may
    raise. Calls are recorded in order, so that what each one did can be compared. */
module Switching {
  import opened Outcomes
  import opened CacheStates
  import opened Lifecycle

  datatype Stage = PreloadingStage | UnloadingStage | LoadingStage

  function Rank(stage: Stage): nat {
    match stage case PreloadingStage => 0 case UnloadingStage => 1 case LoadingStage => 2
  }

  /** A stable reason code: one from the lifecycle, one reported by a preload, or an exception's type name. */
  datatype ReasonCode = FromLifecycle(reason: Reason) | Reported(code: string) | FromException(exception: string)

  const PRELOAD_FAILED := Reported("MODEL_CACHE_PRELOAD_FAILED")

  datatype PreloadResult = PreloadResult(success: bool, reasonCode: Option<string>) {
    function FailureReason(): ReasonCode {
      if reasonCode.Some? && reasonCode.value != "" then Reported(reasonCode.value) else PRELOAD_FAILED
    }
  }

  /** What the progress callback does at each stage, when there is a callback. */
  datatype Callback = NoCallback | Callback(preloading: Outcome<()>, unloading: Outcome<()>, loading: Outcome<()>) {
    function At(stage: Stage): Outcome<()> {
      if NoCallback? then Returned(()) else
        match stage
        case PreloadingStage => preloading
        case UnloadingStage => unloading
        case LoadingStage => loading
    }

    predicate NeverRaises() {
      NoCallback? || (preloading.Returned? && unloading.Returned? && loading.Returned?)
    }
  }

  datatype SwitchWorld = SwitchWorld(
    cacheStatus: Outcome<CacheState>, preload: Outcome<PreloadResult>, callback: Callback, load: LoadWorld)

  /** One call made to the outside, in the order it was made. */
  datatype Call = StatusCall | PreloadCall | Announce(stage: Stage) | UnloadCall | LoadCall

  datatype SwitchResult =
    | Switched(reason: Option<ReasonCode>, state: LifecycleState, figures: LoadFigures)
    | SwitchFailed(reasonCode: ReasonCode, failedStage: Stage)

  datatype SwitchRun = SwitchRun(after: Option<Residency>, result: SwitchResult, calls: seq<Call>)

  // ----- the switch as a function of its inputs -----

  /** Why the target is not on disk after the first stage, if it is not. */
  function EnsureCached(world: SwitchWorld): (Option<SwitchResult>, seq<Call>) {
    match world.cacheStatus
    case Raised(e) => (Some(SwitchFailed(FromException(e), LoadingStage)), [StatusCall])
    case Returned(CachedOnDisk) => (None, [StatusCall])
    case Returned(_) =>
      var announced := [StatusCall, Announce(PreloadingStage)];
      match world.callback.At(PreloadingStage)
      case Raised(e) => (Some(SwitchFailed(FromException(e), LoadingStage)), announced)
      case Returned(_) =>
        match world.preload
        case Raised(e) => (Some(SwitchFailed(FromException(e), LoadingStage)), announced + [PreloadCall])
        case Returned(preload) =>
          (if preload.success then None else Some(SwitchFailed(preload.FailureReason(), PreloadingStage)),
           announced + [PreloadCall])
  }

  function Evict(config: Config, current: Option<Residency>, target: string, world: SwitchWorld)
    : (Option<Residency>, Option<SwitchResult>, seq<Call>)
  {
    if current.None? || current.value.modelName == target then (current, None, [])
    else
      match world.callback.At(UnloadingStage)
      case Raised(e) => (current, Some(SwitchFailed(FromException(e), LoadingStage)), [Announce(UnloadingStage)])
      case Returned(_) =>
        var (after, unloaded) := Unload(config, current, current.value.modelName);
        (after,
         if unloaded.success then None else Some(SwitchFailed(FromLifecycle(unloaded.reason.value), UnloadingStage)),
         [Announce(UnloadingStage), UnloadCall])
  }

  function BringUp(config: Config, current: Option<Residency>, target: string, world: SwitchWorld): SwitchRun {
    match world.callback.At(LoadingStage)
    case Raised(e) => SwitchRun(current, SwitchFailed(FromException(e), LoadingStage), [Announce(LoadingStage)])
    case Returned(_) =>
      var (after, loaded) := Load(config, current, target, true, world.load);
      SwitchRun(
        after,
        match loaded
          case Raised(e) => SwitchFailed(FromException(e), LoadingStage)
          case Returned(r) =>
            if r.success then Switched(CodeOf(r.reason), r.state, r.figures)
            else SwitchFailed(FromLifecycle(r.reason.value), LoadingStage),
        [Announce(LoadingStage), LoadCall])
  }

  function CodeOf(reason: Option<Reason>): Option<ReasonCode> {
    if reason.Some? then Some(FromLifecycle(reason.value)) else None
  }

  function Switch(config: Config, current: Option<Residency>, target: string, world: SwitchWorld): SwitchRun {
    var (notCached, calls) := EnsureCached(world);
    if notCached.Some? then SwitchRun(current, notCached.value, calls) else
      var (emptied, stuck, unloadCalls) := Evict(config, current, target, world);
      if stuck.Some? then SwitchRun(emptied, stuck.value, calls + unloadCalls) else
        var run := BringUp(config, emptied, target, world);
        run.(calls := calls + unloadCalls + run.calls)
  }

  // ----- the switch as it runs -----

  /** The module-level set of models being switched to. */
  class SwitchRegistry {
    var inProgress: set<string>

    constructor ()
      ensures inProgress == {}
    {
      inProgress := {};
    }

    predicate ModelSwitchInProgress(modelName: string)
      reads this
    {
      modelName in inProgress
    }
  }

  /** The guarded body: what it returns, or the exception that leaves it. marked
      says whether the target was marked as switching at every single call. */
  method SwitchStages(target: string, world: SwitchWorld, lifecycle: ModelMemoryLifecycle, registry: SwitchRegistry)
    returns (result: Outcome<SwitchResult>, calls: seq<Call>, marked: bool)
    modifies lifecycle
    ensures SwitchRun(lifecycle.currentResidency, Caught(result), calls)
         == Switch(lifecycle.config, old(lifecycle.currentResidency), target, world)
    ensures marked <==> registry.ModelSwitchInProgress(target)
  {
    marked := registry.ModelSwitchInProgress(target);
    calls := [StatusCall];
    if world.cacheStatus.Raised? { result := Raised(world.cacheStatus.exception); return; }
    if world.cacheStatus.value != CachedOnDisk {
      marked := marked && registry.ModelSwitchInProgress(target);
      calls := calls + [Announce(PreloadingStage)];
      if world.callback.At(PreloadingStage).Raised? { result := Raised(world.callback.At(PreloadingStage).exception); return; }
      calls := calls + [PreloadCall];
      if world.preload.Raised? { result := Raised(world.preload.exception); return; }
      if !world.preload.value.success {
        result := Returned(SwitchFailed(world.preload.value.FailureReason(), PreloadingStage));
        return;
      }
    }
    assert calls == EnsureCached(world).1 && EnsureCached(world).0.None?;
    var resident := lifecycle.currentResidency;
    if resident.Some? && resident.value.modelName != target {
      marked := marked && registry.ModelSwitchInProgress(target);
      calls := calls + [Announce(UnloadingStage)];
      if world.callback.At(UnloadingStage).Raised? { result := Raised(world.callback.At(UnloadingStage).exception); return; }
      calls := calls + [UnloadCall];
      var unloaded := lifecycle.UnloadModel(resident.value.modelName);
      assert calls == EnsureCached(world).1 + [Announce(UnloadingStage), UnloadCall];
      if !unloaded.success {
        result := Returned(SwitchFailed(FromLifecycle(unloaded.reason.value), UnloadingStage));
        return;
      }
    }
    ghost var before := calls;
    marked := marked && registry.ModelSwitchInProgress(target);
    calls := calls + [Announce(LoadingStage)];
    if world.callback.At(LoadingStage).Raised? { result := Raised(world.callback.At(LoadingStage).exception); return; }
    calls := calls + [LoadCall];
    assert calls == before + [Announce(LoadingStage), LoadCall];
    var loaded := lifecycle.LoadModel(target, true, world.load);
    marked := marked && registry.ModelSwitchInProgress(target);
    match loaded {
      case Raised(e) => result := Raised(e);
      case Returned(r) =>
        if !r.success {
          result := Returned(SwitchFailed(FromLifecycle(r.reason.value), LoadingStage));
        } else {
          result := Returned(Switched(CodeOf(r.reason), r.state, r.figures));
        }
    }
  }

  function Caught(result: Outcome<SwitchResult>): SwitchResult {
    match result
    case Returned(r) => r
    case Raised(e) => SwitchFailed(FromException(e), LoadingStage)
  }

  /** The switch marks its target before the first call, keeps it marked through
      every call, and clears the mark on every way out. */
  method SwitchModel(target: string, world: SwitchWorld, lifecycle: ModelMemoryLifecycle, registry: SwitchRegistry)
    returns (result: SwitchResult, calls: seq<Call>, marked: bool)
    modifies lifecycle, registry
    ensures SwitchRun(lifecycle.currentResidency, result, calls)
         == Switch(lifecycle.config, old(lifecycle.currentResidency), target, world)
    ensures marked
    ensures registry.inProgress == old(registry.inProgress) - {target}
  {
    registry.inProgress := registry.inProgress + {target};
    var outcome;
    outcome, calls, marked := SwitchStages(target, world, lifecycle, registry);
    result := Caught(outcome);
    registry.inProgress := registry.inProgress - {target};
  }

  // ----- what a switch guarantees -----

  function Stages(calls: seq<Call>): seq<Stage> {
    if calls == [] then []
    else if calls[0].Announce? then [calls[0].stage] + Stages(calls[1..])
    else Stages(calls[1..])
  }

  lemma StagesConcat(a: seq<Call>, b: seq<Call>)
    ensures Stages(a + b) == Stages(a) + Stages(b)
  {
    if a == [] {
      assert a + b == b;
    } else {
      assert (a + b)[1..] == a[1..] + b;
      StagesConcat(a[1..], b);
    }
  }

  predicate EvictsFirst(current: Option<Residency>, target: string) {
    current.Some? && current.value.modelName != target
  }

  /** Which stages a switch announces: preloading when the target is not on disk,
      unloading when another model is resident, loading when it gets that far. */
  lemma AnnouncedStages(config: Config, current: Option<Residency>, target: string, world: SwitchWorld)
    ensures var (notCached, _) := EnsureCached(world);
            var (emptied, stuck, _) := Evict(config, current, target, world);
            Stages(Switch(config, current, target, world).calls) ==
              (if world.cacheStatus.Returned? && world.cacheStatus.value != CachedOnDisk then [PreloadingStage] else [])
            + (if notCached.None? && EvictsFirst(current, target) then [UnloadingStage] else [])
            + (if notCached.None? && stuck.None? then [LoadingStage] else [])
  {
    var (notCached, calls) := EnsureCached(world);
    EnsureCachedStages(world);
    if notCached.None? {
      var (emptied, stuck, unloadCalls) := Evict(config, current, target, world);
      StagesConcat(calls, unloadCalls);
      StagesConcat([Announce(UnloadingStage)], [UnloadCall]);
      if stuck.None? {
        StagesConcat(calls + unloadCalls, BringUp(config, emptied, target, world).calls);
        StagesConcat([Announce(LoadingStage)], [LoadCall]);
        assert [Announce(LoadingStage)] + [LoadCall] == [Announce(LoadingStage), LoadCall];
      }
    }
  }

  lemma EnsureCachedStages(world: SwitchWorld)
    ensures Stages(EnsureCached(world).1) ==
            if world.cacheStatus.Returned? && world.cacheStatus.value != CachedOnDisk then [PreloadingStage] else []
  {
    StagesConcat([StatusCall], [Announce(PreloadingStage)]);
    StagesConcat([StatusCall, Announce(PreloadingStage)], [PreloadCall]);
    assert [StatusCall] + [Announce(PreloadingStage)] == [StatusCall, Announce(PreloadingStage)];
  }

  /** Stages are announced in the order preloading, unloading, loading, each at most once. */
  lemma StagesInOrder(config: Config, current: Option<Residency>, target: string, world: SwitchWorld)
    ensures var stages := Stages(Switch(config, current, target, world).calls);
            forall i, j | 0 <= i < j < |stages| :: Rank(stages[i]) < Rank(stages[j])
  {
    AnnouncedStages(config, current, target, world);
  }

  // The inputs a caller can look at before the call.

  /** The target is on disk once the first stage is over. */
  predicate GetsOnDisk(world: SwitchWorld) {
    && world.cacheStatus.Returned?
    && (world.cacheStatus.value == CachedOnDisk
        || (world.callback.At(PreloadingStage).Returned? && world.preload.Returned? && world.preload.value.success))
  }

  /** Another model, if one is resident, can be unloaded. */
  predicate MakesRoom(config: Config, current: Option<Residency>, target: string, world: SwitchWorld) {
    EvictsFirst(current, target) ==> world.callback.At(UnloadingStage).Returned? && !config.hasProbe
  }

  /** The runtime, if it is asked, serves the target, and the recorder, if there is one, does not raise. */
  predicate Serves(config: Config, world: LoadWorld) {
    && (config.hasProbe ==> world.probeOk == Returned(true))
    && (config.hasRecorder ==> world.recorded.Returned?)
  }

  predicate BringsUp(config: Config, current: Option<Residency>, target: string, world: SwitchWorld) {
    world.callback.At(LoadingStage).Returned? && (Resident(current, target) || Serves(config, world.load))
  }

  /** The switch is a transaction with one leak: success leaves the target
      resident, failure leaves the old residency, except that a failure after the
      old model was really unloaded leaves none. */
  lemma SwitchTransaction(config: Config, current: Option<Residency>, target: string, world: SwitchWorld)
    ensures var run := Switch(config, current, target, world);
            && (run.result.Switched? <==>
                  GetsOnDisk(world) && MakesRoom(config, current, target, world) && BringsUp(config, current, target, world))
            && (run.result.Switched? ==> Resident(run.after, target))
            && (run.result.SwitchFailed? ==>
                  run.after == if GetsOnDisk(world) && EvictsFirst(current, target) && MakesRoom(config, current, target, world)
                               then None else current)
  {}

  /** Exactly which switches leave nothing resident although a model was resident before. */
  lemma SwitchLeaks(config: Config, current: Option<Residency>, target: string, world: SwitchWorld)
    requires current.Some?
    ensures Switch(config, current, target, world).after.None? <==>
              && EvictsFirst(current, target) && !config.hasProbe
              && GetsOnDisk(world)
              && world.callback.At(UnloadingStage).Returned?
              && (world.callback.At(LoadingStage).Raised? || (config.hasRecorder && world.load.recorded.Raised?))
  {
    SwitchTransaction(config, current, target, world);
  }

  /** One such switch: the recorder raises after the old model was unloaded. */
  lemma LeakingSwitch(old': Residency)
    requires old'.modelName == "old"
    ensures var load := LoadWorld(Returned(CachedOnDisk), Returned(true), Raised("OSError"), "now");
            var world := SwitchWorld(Returned(CachedOnDisk), Returned(PreloadResult(true, None)), NoCallback, load);
            var run := Switch(Config("vllm", false, true, true), Some(old'), "new", world);
            run.after == None && run.result == SwitchFailed(FromException("OSError"), LoadingStage)
  {}

  /** With a runtime probe a resident model cannot be switched away from at all. */
  lemma ProbedSwitchNeverReplaces(config: Config, current: Option<Residency>, target: string, world: SwitchWorld)
    requires config.hasProbe && EvictsFirst(current, target)
    ensures var run := Switch(config, current, target, world);
            run.after == current && run.result.SwitchFailed? && LoadCall !in run.calls
  {}

  /** An exception before the loading stage was reached. */
  predicate RaisesBeforeLoading(current: Option<Residency>, target: string, world: SwitchWorld) {
    || world.cacheStatus.Raised?
    || (world.cacheStatus.value != CachedOnDisk && (world.callback.At(PreloadingStage).Raised? || world.preload.Raised?))
    || (GetsOnDisk(world) && EvictsFirst(current, target) && world.callback.At(UnloadingStage).Raised?)
  }

  predicate ReportsLastStage(run: SwitchRun) {
    var stages := Stages(run.calls);
    run.result.SwitchFailed? ==> stages != [] && run.result.failedStage == stages[|stages| - 1]
  }

  /** A failed switch reports the stage it stopped at, the last one announced,
      exactly unless an exception came before the loading stage: that is reported
      as a loading failure. */
  lemma FailedStageExact(config: Config, current: Option<Residency>, target: string, world: SwitchWorld)
    ensures ReportsLastStage(Switch(config, current, target, world)) <==> !RaisesBeforeLoading(current, target, world)
  {
    AnnouncedStages(config, current, target, world);
  }

  /** The exception the progress callback raises when a stage is announced, if it does. */
  function CallbackException(callback: Callback, stage: Stage): Option<string> {
    match (callback, stage)
    case (Callback(Raised(e), _, _), PreloadingStage) => Some(e)
    case (Callback(_, Raised(e), _), UnloadingStage) => Some(e)
    case (Callback(_, _, Raised(e)), LoadingStage) => Some(e)
    case _ => None
  }

  /** Why a switch fails before the old model is unloaded: the reason and the stage
      reported for every obstacle in getting the target on disk. */
  lemma PreloadingRefusal(config: Config, current: Option<Residency>, target: string, world: SwitchWorld, e: string)
    ensures var result := Switch(config, current, target, world).result;
            && (world.cacheStatus == Raised(e) ==> result == SwitchFailed(FromException(e), LoadingStage))
            && (world.cacheStatus.Returned? && world.cacheStatus.value != CachedOnDisk ==>
                  && (CallbackException(world.callback, PreloadingStage) == Some(e) ==> result == SwitchFailed(FromException(e), LoadingStage))
                  && (CallbackException(world.callback, PreloadingStage).None? ==>
                        && (world.preload == Raised(e) ==> result == SwitchFailed(FromException(e), LoadingStage))
                        && (world.preload.Returned? && !world.preload.value.success ==>
                              result == SwitchFailed(
                                match world.preload.value.reasonCode
                                  case Some(code) => Reported(if code != "" then code else "MODEL_CACHE_PRELOAD_FAILED")
                                  case None => Reported("MODEL_CACHE_PRELOAD_FAILED"),
                                PreloadingStage))))
  {}

  /** Why a switch whose target is on disk fails to unload the old model. */
  lemma UnloadingRefusal(config: Config, current: Option<Residency>, target: string, world: SwitchWorld, e: string)
    requires GetsOnDisk(world) && current.Some? && current.value.modelName != target
    ensures var result := Switch(config, current, target, world).result;
            && (CallbackException(world.callback, UnloadingStage) == Some(e) ==> result == SwitchFailed(FromException(e), LoadingStage))
            && (CallbackException(world.callback, UnloadingStage).None? && config.hasProbe ==>
                  result == SwitchFailed(FromLifecycle(VllmDynamicUnloadUnsupported), UnloadingStage))
  {}

  /** Why a switch that reaches its last stage fails, and what it answers when it succeeds. */
  lemma LoadingAnswer(config: Config, current: Option<Residency>, target: string, world: SwitchWorld, e: string)
    requires GetsOnDisk(world) && MakesRoom(config, current, target, world)
    ensures var result := Switch(config, current, target, world).result;
            && (CallbackException(world.callback, LoadingStage) == Some(e) ==> result == SwitchFailed(FromException(e), LoadingStage))
            && (CallbackException(world.callback, LoadingStage).None? ==>
                  if current.Some? && current.value.modelName == target then
                    result == Switched(Some(FromLifecycle(ModelAlreadyLoaded)), current.value.state, current.value.figures)
                  else
                    && (config.hasProbe && world.load.probeOk == Raised(e) ==> result == SwitchFailed(FromException(e), LoadingStage))
                    && (config.hasProbe && world.load.probeOk == Returned(false) ==>
                          result == SwitchFailed(FromLifecycle(ModelNotServedByVllm), LoadingStage))
                    && (config.hasRecorder && world.load.recorded == Raised(e) ==>
                          (config.hasProbe ==> world.load.probeOk == Returned(true)) ==>
                            result == SwitchFailed(FromException(e), LoadingStage))
                    && (Serves(config, world.load) ==>
                          result == Switched(None, Loaded,
                                             if config.hasRecorder then world.load.recorded.value else LoadFigures(None, None))))
  {}

  /** A cache status that raises is reported as a loading failure before any stage was announced. */
  lemma MisreportedStage(config: Config, current: Option<Residency>, target: string, world: SwitchWorld)
    requires world.cacheStatus == Raised("OSError")
    ensures var run := Switch(config, current, target, world);
            run.result == SwitchFailed(FromException("OSError"), LoadingStage) && Stages(run.calls) == []
  {
    AnnouncedStages(config, current, target, world);
  }

  // ----- autoload at startup -----

  datatype AutoloadResult =
    | NotAttempted
    | Attempted(modelName: string, preloaded: bool, loaded: bool, reason: Option<ReasonCode>)

  datatype AutoloadRun = AutoloadRun(after: Option<Residency>, result: AutoloadResult, calls: seq<Call>)

  function Autoload(config: Config, current: Option<Residency>, modelName: string, world: SwitchWorld): AutoloadRun {
    match world.cacheStatus
    case Raised(e) => AutoloadRun(current, Attempted(modelName, false, false, Some(FromException(e))), [StatusCall])
    case Returned(CachedOnDisk) => AutoloadFrom(config, current, modelName, world, false, [StatusCall])
    case Returned(_) =>
      match world.preload
      case Raised(e) => AutoloadRun(current, Attempted(modelName, false, false, Some(FromException(e))), [StatusCall, PreloadCall])
      case Returned(preload) =>
        if preload.success then AutoloadFrom(config, current, modelName, world, true, [StatusCall, PreloadCall])
        else AutoloadRun(current, Attempted(modelName, false, false, Some(preload.FailureReason())), [StatusCall, PreloadCall])
  }

  function AutoloadFrom(config: Config, current: Option<Residency>, modelName: string, world: SwitchWorld,
                        preloaded: bool, calls: seq<Call>): AutoloadRun
  {
    var (after, loaded) := Load(config, current, modelName, true, world.load);
    AutoloadRun(
      after,
      match loaded
        case Raised(e) => Attempted(modelName, preloaded, false, Some(FromException(e)))
        case Returned(r) => Attempted(modelName, preloaded, r.success, CodeOf(r.reason)),
      calls + [LoadCall])
  }

  /** The startup autoload; its outcome record is filled in step by step. */
  method AutoloadDefaultModel(defaultModelName: Option<string>, world: SwitchWorld, lifecycle: ModelMemoryLifecycle)
    returns (outcome: AutoloadResult, calls: seq<Call>)
    modifies lifecycle
    ensures defaultModelName.None? ==>
              outcome == NotAttempted && calls == [] && lifecycle.currentResidency == old(lifecycle.currentResidency)
    ensures defaultModelName.Some? ==>
              AutoloadRun(lifecycle.currentResidency, outcome, calls)
              == Autoload(lifecycle.config, old(lifecycle.currentResidency), defaultModelName.value, world)
  {
    if defaultModelName.None? { return NotAttempted, []; }
    var modelName := defaultModelName.value;
    outcome, calls := Attempted(modelName, false, false, None), [StatusCall];
    if world.cacheStatus.Raised? {
      outcome := outcome.(reason := Some(FromException(world.cacheStatus.exception)));
      return;
    }
    if world.cacheStatus.value != CachedOnDisk {
      calls := calls + [PreloadCall];
      if world.preload.Raised? {
        outcome := outcome.(reason := Some(FromException(world.preload.exception)));
        return;
      }
      outcome := outcome.(preloaded := world.preload.value.success);
      if !outcome.preloaded {
        outcome := outcome.(reason := Some(world.preload.value.FailureReason()));
        return;
      }
    }
    calls := calls + [LoadCall];
    var loaded := lifecycle.LoadModel(modelName, true, world.load);
    match loaded {
      case Raised(e) => outcome := outcome.(reason := Some(FromException(e)));
      case Returned(r) => outcome := outcome.(loaded := r.success, reason := CodeOf(r.reason));
    }
  }

  /** What the startup autoload does, whatever is resident: it succeeds exactly when
      the model is on disk or gets preloaded, and is resident or served; it says
      preloaded exactly when it preloaded; and it loads over any other model. */
  lemma AutoloadMeaning(config: Config, current: Option<Residency>, modelName: string, world: SwitchWorld)
    ensures var run := Autoload(config, current, modelName, world);
            var preloads := world.cacheStatus.Returned? && world.cacheStatus.value != CachedOnDisk
                            && world.preload.Returned? && world.preload.value.success;
            && run.result.Attempted? && run.result.modelName == modelName
            && (run.result.preloaded <==> preloads)
            && (run.result.loaded <==>
                  (world.cacheStatus == Returned(CachedOnDisk) || preloads)
                  && (Resident(current, modelName) || Serves(config, world.load)))
            && (run.result.loaded ==> Resident(run.after, modelName))
            && (!run.result.loaded ==> run.after == current)
  {}

  function WithoutAnnouncements(calls: seq<Call>): seq<Call> {
    if calls == [] then []
    else if calls[0].Announce? then WithoutAnnouncements(calls[1..])
    else [calls[0]] + WithoutAnnouncements(calls[1..])
  }

  lemma WithoutAnnouncementsConcat(a: seq<Call>, b: seq<Call>)
    ensures WithoutAnnouncements(a + b) == WithoutAnnouncements(a) + WithoutAnnouncements(b)
  {
    if a == [] {
      assert a + b == b;
    } else {
      assert (a + b)[1..] == a[1..] + b;
      WithoutAnnouncementsConcat(a[1..], b);
    }
  }

  predicate SameVerdict(switched: SwitchResult, autoloaded: AutoloadResult) {
    && autoloaded.Attempted?
    && (switched.Switched? <==> autoloaded.loaded)
    && autoloaded.reason == if switched.Switched? then switched.reason else Some(switched.reasonCode)
  }

  // With nothing else resident the two commands are the same operation,
  // exceptions included.

  lemma AutoloadMakesSwitchCalls(config: Config, current: Option<Residency>, target: string, world: SwitchWorld)
    requires !EvictsFirst(current, target) && world.callback.NeverRaises()
    ensures WithoutAnnouncements(Switch(config, current, target, world).calls)
         == Autoload(config, current, target, world).calls
  {
    var (notCached, calls) := EnsureCached(world);
    WithoutAnnouncementsConcat([StatusCall, Announce(PreloadingStage)], [PreloadCall]);
    assert WithoutAnnouncements([StatusCall]) == [StatusCall];
    assert WithoutAnnouncements([StatusCall, Announce(PreloadingStage)]) == [StatusCall];
    assert WithoutAnnouncements([PreloadCall]) == [PreloadCall];
    assert [StatusCall] + [PreloadCall] == [StatusCall, PreloadCall];
    if notCached.None? {
      assert calls + [] == calls;
      WithoutAnnouncementsConcat(calls, [Announce(LoadingStage), LoadCall]);
      assert WithoutAnnouncements([Announce(LoadingStage), LoadCall]) == [LoadCall];
    }
  }

  lemma AutoloadReachesSwitchResidency(config: Config, current: Option<Residency>, target: string, world: SwitchWorld)
    requires !EvictsFirst(current, target) && world.callback.NeverRaises()
    ensures Switch(config, current, target, world).after == Autoload(config, current, target, world).after
  {}

  lemma AutoloadGivesSwitchVerdict(config: Config, current: Option<Residency>, target: string, world: SwitchWorld)
    requires !EvictsFirst(current, target) && world.callback.NeverRaises()
    ensures SameVerdict(Switch(config, current, target, world).result, Autoload(config, current, target, world).result)
  {}

  /** With another model resident they differ: autoload loads straight over it.
      They still reach the same residency exactly when the target never gets on
      disk, when a probed load would fail, or when an unprobed load cannot fail. */
  lemma AutoloadDiffersFromSwitch(config: Config, current: Option<Residency>, target: string, world: SwitchWorld)
    requires EvictsFirst(current, target)
    requires world.callback.NeverRaises()
    ensures Switch(config, current, target, world).after == Autoload(config, current, target, world).after <==>
              GetsOnDisk(world) ==> (config.hasProbe <==> !Serves(config, world.load))
  {}
}
