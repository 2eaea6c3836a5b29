/** Model residency and the commands that change it (ModelMemoryLifecycle in
    lmrs/model_lifecycle.py). Every call out of the object, to the disk cache, the
    runtime probe and the VRAM recorder, is an input that either returns or raises. */
module Lifecycle {
  import opened Outcomes
  import opened CacheStates

  /** The states the commands produce; the transitional ones of the source are never set. */
  datatype LifecycleState = NotLoaded | Loaded | Failed

  /** The VRAM facts a recorder hands back. */
  datatype LoadFigures = LoadFigures(staticVram: Option<int>, freeVram: Option<int>)

  const NO_FIGURES := LoadFigures(None, None)

  datatype Residency = Residency(
    modelName: string, runtimeBackend: string, state: LifecycleState, keepLoaded: bool,
    figures: LoadFigures, loadedAt: string)

  /** Which optional collaborators the object was built with, and its backend name. */
  datatype Config = Config(runtimeBackend: string, hasProbe: bool, hasDiskCache: bool, hasRecorder: bool)

  /** What the outside answers during one load: the disk cache status, whether the
      probe reports the model as served, the recorded figures, and the clock. */
  datatype LoadWorld = LoadWorld(
    diskStatus: Outcome<CacheState>, probeOk: Outcome<bool>, recorded: Outcome<LoadFigures>, now: string)

  datatype Command = LoadModel | UnloadModel | ReloadModel | ModelStatus

  datatype Reason =
    | ModelAlreadyLoaded
    | ModelNotCached
    | ModelNotServedByVllm
    | ModelNotLoaded
    | VllmDynamicUnloadUnsupported

  datatype CommandResult = CommandResult(
    command: Command, modelName: string, state: LifecycleState, success: bool,
    reason: Option<Reason>, figures: LoadFigures)

  // ----- what each command does -----

  predicate Resident(current: Option<Residency>, modelName: string) {
    current.Some? && current.value.modelName == modelName
  }

  /** A command that reports success acted; any other outcome, an exception
      included, left residency as it was and says why. */
  predicate Atomic(before: Option<Residency>, after: Option<Residency>, result: Outcome<CommandResult>) {
    && (result.Raised? ==> after == before)
    && (result.Returned? && !result.value.success ==> after == before && result.value.reason.Some?)
  }

  /** A load and its effect on residency. Residency changes only to the loaded
      model, only when the runtime serves it, and without allowPreload only from an
      empty residency to a model that is on disk. */
  function Load(config: Config, current: Option<Residency>, modelName: string, allowPreload: bool, world: LoadWorld)
    : (r: (Option<Residency>, Outcome<CommandResult>))
    ensures Atomic(current, r.0, r.1)
    ensures r.1.Returned? && r.1.value.success <==> Resident(r.0, modelName) && r.1.Returned?
    ensures r.0 != current ==>
              && Resident(r.0, modelName) && !Resident(current, modelName)
              && r.1.Returned?
              && (config.hasProbe ==> world.probeOk == Returned(true))
              && (!allowPreload ==> current.None? && (config.hasDiskCache ==> world.diskStatus == Returned(CachedOnDisk)))
  {
    if Resident(current, modelName) then
      (current, Returned(CommandResult(LoadModel, modelName, current.value.state, true, Some(ModelAlreadyLoaded), current.value.figures)))
    else if current.Some? && !allowPreload then
      (current, Returned(CommandResult(LoadModel, modelName, current.value.state, false, Some(ModelAlreadyLoaded), NO_FIGURES)))
    else if config.hasDiskCache && !allowPreload && world.diskStatus.Raised? then
      (current, Raised(world.diskStatus.exception))
    else if config.hasDiskCache && !allowPreload && world.diskStatus.value != CachedOnDisk then
      (current, Returned(CommandResult(LoadModel, modelName, NotLoaded, false, Some(ModelNotCached), NO_FIGURES)))
    else if config.hasProbe && world.probeOk.Raised? then
      (current, Raised(world.probeOk.exception))
    else if config.hasProbe && !world.probeOk.value then
      (current, Returned(CommandResult(LoadModel, modelName, Failed, false, Some(ModelNotServedByVllm), NO_FIGURES)))
    else if config.hasRecorder && world.recorded.Raised? then
      (current, Raised(world.recorded.exception))
    else
      var figures := if config.hasRecorder then world.recorded.value else NO_FIGURES;
      (Some(Residency(modelName, config.runtimeBackend, Loaded, true, figures, world.now)),
       Returned(CommandResult(LoadModel, modelName, Loaded, true, None, figures)))
  }

  function Unload(config: Config, current: Option<Residency>, modelName: string): (Option<Residency>, CommandResult) {
    if !Resident(current, modelName) then
      (current, CommandResult(UnloadModel, modelName, NotLoaded, false, Some(ModelNotLoaded), NO_FIGURES))
    else if config.hasProbe then
      (current, CommandResult(UnloadModel, modelName, current.value.state, false, Some(VllmDynamicUnloadUnsupported), current.value.figures))
    else
      (None, CommandResult(UnloadModel, modelName, NotLoaded, true, None, current.value.figures))
  }

  function Reload(config: Config, current: Option<Residency>, modelName: string, world: LoadWorld)
    : (Option<Residency>, Outcome<CommandResult>)
  {
    if !Resident(current, modelName) then Load(config, current, modelName, true, world)
    else (Some(current.value.(state := Loaded)),
          Returned(CommandResult(ReloadModel, modelName, Loaded, true, None, current.value.figures)))
  }

  // ----- what each command answers -----

  /** Nothing in the way of a load: no other model, unless it may be replaced, and
      without that permission the model on disk. */
  predicate MayLoad(config: Config, current: Option<Residency>, allowPreload: bool, world: LoadWorld) {
    allowPreload || (current.None? && (config.hasDiskCache ==> world.diskStatus == Returned(CachedOnDisk)))
  }

  /** Exactly which loads succeed, and the residency each leaves. */
  lemma LoadSucceeds(config: Config, current: Option<Residency>, modelName: string, allowPreload: bool, world: LoadWorld)
    ensures var (after, result) := Load(config, current, modelName, allowPreload, world);
            && (result.Returned? && result.value.success <==>
                  || (current.Some? && current.value.modelName == modelName)
                  || (&& MayLoad(config, current, allowPreload, world)
                      && (config.hasProbe ==> world.probeOk == Returned(true))
                      && (config.hasRecorder ==> world.recorded.Returned?)))
            && (!(result.Returned? && result.value.success) || Resident(current, modelName) ==> after == current)
            && (result.Returned? && result.value.success && !Resident(current, modelName) ==>
                  after.Some? && after.value.modelName == modelName && after.value.runtimeBackend == config.runtimeBackend
                  && after.value.state == Loaded && after.value.keepLoaded && after.value.loadedAt == world.now
                  && (config.hasRecorder ==> after.value.figures == world.recorded.value)
                  && (!config.hasRecorder ==> after.value.figures.staticVram.None? && after.value.figures.freeVram.None?))
  {}

  /** What a load that does not succeed says, by the first obstacle in its way. */
  lemma LoadRefusal(config: Config, current: Option<Residency>, modelName: string, allowPreload: bool, world: LoadWorld)
    requires !(current.Some? && current.value.modelName == modelName)
    ensures var result := Load(config, current, modelName, allowPreload, world).1;
            && (!allowPreload && current.Some? ==> result.Returned? && result.value.reason == Some(ModelAlreadyLoaded))
            && (!allowPreload && current.None? && config.hasDiskCache ==>
                  match world.diskStatus
                  case Raised(e) => result == Raised(e)
                  case Returned(status) =>
                    status != CachedOnDisk ==> result.Returned? && result.value.reason == Some(ModelNotCached))
            && (MayLoad(config, current, allowPreload, world) && config.hasProbe ==>
                  match world.probeOk
                  case Raised(e) => result == Raised(e)
                  case Returned(ok) =>
                    !ok ==> result.Returned? && result.value.reason == Some(ModelNotServedByVllm) && result.value.state == Failed)
            && (MayLoad(config, current, allowPreload, world) && config.hasRecorder && world.recorded.Raised? ==>
                  (config.hasProbe ==> world.probeOk == Returned(true)) ==> result == Raised(world.recorded.exception))
  {}

  /** A load's answer names the model and carries the figures of the residency it reports. */
  lemma LoadAnswer(config: Config, current: Option<Residency>, modelName: string, allowPreload: bool, world: LoadWorld)
    ensures var (after, result) := Load(config, current, modelName, allowPreload, world);
            result.Returned? ==>
              && result.value.command == LoadModel && result.value.modelName == modelName
              && (result.value.success ==>
                    && after.Some? && result.value.figures == after.value.figures && result.value.state == after.value.state
                    && result.value.reason == if Resident(current, modelName) then Some(ModelAlreadyLoaded) else None)
              && (!result.value.success ==> result.value.figures == LoadFigures(None, None))
  {}

  /** Unloading empties residency exactly for the resident model of a lifecycle without
      a probe, which is exactly when it succeeds; otherwise it says what stood in the way. */
  lemma UnloadMeaning(config: Config, current: Option<Residency>, modelName: string)
    ensures var (after, result) := Unload(config, current, modelName);
            var resident := current.Some? && current.value.modelName == modelName;
            && after == (if resident && !config.hasProbe then None else current)
            && (result.success <==> resident && !config.hasProbe)
            && result.command == UnloadModel && result.modelName == modelName
            && result.reason == (if !resident then Some(ModelNotLoaded)
                                 else if config.hasProbe then Some(VllmDynamicUnloadUnsupported) else None)
            && result.figures == (if resident then current.value.figures else LoadFigures(None, None))
            && result.state == (if resident && config.hasProbe then current.value.state else NotLoaded)
  {}

  /** Reloading the resident model succeeds whatever the outside answers and keeps its
      record; reloading another one is a load that may replace. */
  lemma ReloadMeaning(config: Config, current: Option<Residency>, modelName: string, world: LoadWorld)
    ensures var (after, result) := Reload(config, current, modelName, world);
            if current.Some? && current.value.modelName == modelName then
              && after == Some(Residency(modelName, current.value.runtimeBackend, Loaded, current.value.keepLoaded,
                                         current.value.figures, current.value.loadedAt))
              && result == Returned(CommandResult(ReloadModel, modelName, Loaded, true, None, current.value.figures))
            else (after, result) == Load(config, current, modelName, true, world)
  {}

  // ----- the object -----

  class ModelMemoryLifecycle {
    var currentResidency: Option<Residency>
    const config: Config

    constructor (config: Config)
      ensures this.config == config && currentResidency.None?
    {
      this.config := config;
      currentResidency := None;
    }

    method LoadModel(modelName: string, allowPreload: bool, world: LoadWorld) returns (result: Outcome<CommandResult>)
      modifies this
      ensures (currentResidency, result) == Load(config, old(currentResidency), modelName, allowPreload, world)
    {
      if currentResidency.Some? && currentResidency.value.modelName == modelName {
        return Returned(CommandResult(Command.LoadModel, modelName, currentResidency.value.state, true,
                                      Some(ModelAlreadyLoaded), currentResidency.value.figures));
      }
      if currentResidency.Some? && !allowPreload {
        return Returned(CommandResult(Command.LoadModel, modelName, currentResidency.value.state, false,
                                      Some(ModelAlreadyLoaded), NO_FIGURES));
      }
      if config.hasDiskCache && !allowPreload {
        match world.diskStatus {
          case Raised(exception) => return Raised(exception);
          case Returned(status) =>
            if status != CachedOnDisk {
              return Returned(CommandResult(Command.LoadModel, modelName, NotLoaded, false, Some(ModelNotCached), NO_FIGURES));
            }
        }
      }
      if config.hasProbe {
        match world.probeOk {
          case Raised(exception) => return Raised(exception);
          case Returned(ok) =>
            if !ok {
              return Returned(CommandResult(Command.LoadModel, modelName, Failed, false, Some(ModelNotServedByVllm), NO_FIGURES));
            }
        }
      }
      var figures := NO_FIGURES;
      if config.hasRecorder {
        match world.recorded {
          case Raised(exception) => return Raised(exception);
          case Returned(facts) => figures := facts;
        }
      }
      currentResidency := Some(Residency(modelName, config.runtimeBackend, Loaded, true, figures, world.now));
      result := Returned(CommandResult(Command.LoadModel, modelName, Loaded, true, None, figures));
    }

    method UnloadModel(modelName: string) returns (result: CommandResult)
      modifies this
      ensures (currentResidency, result) == Unload(config, old(currentResidency), modelName)
    {
      if currentResidency.None? || currentResidency.value.modelName != modelName {
        return CommandResult(Command.UnloadModel, modelName, NotLoaded, false, Some(ModelNotLoaded), NO_FIGURES);
      }
      var previous := currentResidency.value;
      if config.hasProbe {
        return CommandResult(Command.UnloadModel, modelName, previous.state, false,
                             Some(VllmDynamicUnloadUnsupported), previous.figures);
      }
      currentResidency := None;
      result := CommandResult(Command.UnloadModel, modelName, NotLoaded, true, None, previous.figures);
    }

    method ReloadModel(modelName: string, world: LoadWorld) returns (result: Outcome<CommandResult>)
      modifies this
      ensures (currentResidency, result) == Reload(config, old(currentResidency), modelName, world)
    {
      if currentResidency.None? || currentResidency.value.modelName != modelName {
        result := LoadModel(modelName, true, world);
        return;
      }
      var previous := currentResidency.value;
      currentResidency := Some(Residency(modelName, previous.runtimeBackend, Loaded, previous.keepLoaded,
                                         previous.figures, previous.loadedAt));
      result := Returned(CommandResult(Command.ReloadModel, modelName, Loaded, true, None, previous.figures));
    }

    method ModelStatus(modelName: string) returns (result: CommandResult)
      ensures result.success <==> Resident(currentResidency, modelName)
      ensures result.modelName == modelName && result.command == Command.ModelStatus
      ensures result.success ==>
                && result.state == currentResidency.value.state
                && result.figures == currentResidency.value.figures
                && result.reason.None?
      ensures !result.success ==> result.state == NotLoaded && result.reason == Some(ModelNotLoaded)
    {
      if currentResidency.None? || currentResidency.value.modelName != modelName {
        return CommandResult(Command.ModelStatus, modelName, NotLoaded, false, Some(ModelNotLoaded), NO_FIGURES);
      }
      result := CommandResult(Command.ModelStatus, modelName, currentResidency.value.state, true, None,
                              currentResidency.value.figures);
    }
  }
}
