/** Whole runs of lifecycle commands over one residency, from an empty start. */
module LifecycleRuns {
  import opened Outcomes
  import opened Lifecycle
  import opened Switching

  datatype Op =
    | DoLoad(modelName: string, allowPreload: bool, world: LoadWorld)
    | DoUnload(modelName: string)
    | DoReload(modelName: string, world: LoadWorld)
    | DoSwitch(modelName: string, switchWorld: SwitchWorld)
    | DoAutoload(modelName: string, switchWorld: SwitchWorld)

  function Apply(config: Config, current: Option<Residency>, op: Op): Option<Residency> {
    match op
    case DoLoad(name, allowPreload, world) => Load(config, current, name, allowPreload, world).0
    case DoUnload(name) => Unload(config, current, name).0
    case DoReload(name, world) => Reload(config, current, name, world).0
    case DoSwitch(name, world) => Switch(config, current, name, world).after
    case DoAutoload(name, world) => Autoload(config, current, name, world).after
  }

  /** What the runtime probe answers during the load an operation may make. */
  function ProbeAnswer(op: Op): Outcome<bool> {
    match op
    case DoLoad(_, _, world) => world.probeOk
    case DoUnload(_) => Returned(false)
    case DoReload(_, world) => world.probeOk
    case DoSwitch(_, world) => world.load.probeOk
    case DoAutoload(_, world) => world.load.probeOk
  }

  function After(config: Config, ops: seq<Op>): Option<Residency> {
    if ops == [] then None
    else Apply(config, After(config, ops[..|ops| - 1]), ops[|ops| - 1])
  }

  /** What every residency record of this object looks like. */
  predicate WellKept(config: Config, current: Option<Residency>) {
    current.Some? ==>
      && current.value.state == Loaded
      && current.value.keepLoaded
      && current.value.runtimeBackend == config.runtimeBackend
  }

  lemma ApplyKeeps(config: Config, current: Option<Residency>, op: Op)
    requires WellKept(config, current)
    ensures WellKept(config, Apply(config, current, op))
    ensures config.hasProbe && current.Some? ==> Apply(config, current, op).Some?
    ensures var after := Apply(config, current, op);
            after.Some? && !Resident(current, after.value.modelName) ==>
              op.modelName == after.value.modelName && (config.hasProbe ==> ProbeAnswer(op) == Returned(true))
    ensures op.DoLoad? && !op.allowPreload && current.Some? ==> Apply(config, current, op) == current
  {
    if op.DoSwitch? {
      SwitchTransaction(config, current, op.modelName, op.switchWorld);
    }
  }

  /** After any run the resident model, if any, is loaded, kept loaded and on the configured backend. */
  lemma {:induction false} RunKeepsResidency(config: Config, ops: seq<Op>)
    ensures WellKept(config, After(config, ops))
  {
    if ops != [] {
      RunKeepsResidency(config, ops[..|ops| - 1]);
      ApplyKeeps(config, After(config, ops[..|ops| - 1]), ops[|ops| - 1]);
    }
  }

  /** Where the resident model came from: one operation named it while it was not
      resident, the runtime (if asked) then reported it served, and it has been
      resident ever since. */
  ghost predicate BecameResidentAt(config: Config, ops: seq<Op>, i: nat, modelName: string)
    requires i < |ops|
  {
    && ops[i].modelName == modelName
    && !Resident(After(config, ops[..i]), modelName)
    && (config.hasProbe ==> ProbeAnswer(ops[i]) == Returned(true))
    && forall j | i < j <= |ops| :: Resident(After(config, ops[..j]), modelName)
  }

  lemma {:induction false} ResidentModelWasServed(config: Config, ops: seq<Op>)
    requires After(config, ops).Some?
    ensures exists i: nat | i < |ops| :: BecameResidentAt(config, ops, i, After(config, ops).value.modelName)
  {
    var n := |ops| - 1;
    var prefix, name := ops[..n], After(config, ops).value.modelName;
    assert ops[..|ops|] == ops;
    RunKeepsResidency(config, prefix);
    ApplyKeeps(config, After(config, prefix), ops[n]);
    if Resident(After(config, prefix), name) {
      ResidentModelWasServed(config, prefix);
      var i: nat :| i < |prefix| && BecameResidentAt(config, prefix, i, name);
      assert ops[..i] == prefix[..i];
      forall j | i < j <= |ops| ensures Resident(After(config, ops[..j]), name) {
        if j <= n { assert ops[..j] == prefix[..j]; }
      }
      assert BecameResidentAt(config, ops, i, name);
    } else {
      assert BecameResidentAt(config, ops, n, name);
    }
  }

  /** With a probe configured, once a model is resident some model always is. */
  lemma {:induction false} ProbedResidencyNeverEmpties(config: Config, ops: seq<Op>, i: nat, j: nat)
    requires config.hasProbe && i <= j <= |ops|
    requires After(config, ops[..i]).Some?
    ensures After(config, ops[..j]).Some?
    decreases j
  {
    if i < j {
      ProbedResidencyNeverEmpties(config, ops, i, j - 1);
      assert ops[..j][..j - 1] == ops[..j - 1];
      RunKeepsResidency(config, ops[..j - 1]);
      ApplyKeeps(config, After(config, ops[..j - 1]), ops[j - 1]);
    }
  }

  /** With a probe, the resident model changes only through a load that allows
      preload, a reload, or the autoload: never through an unload or a switch. */
  lemma ProbedEviction(config: Config, current: Option<Residency>, op: Op)
    requires config.hasProbe && current.Some?
    requires !Resident(Apply(config, current, op), current.value.modelName)
    ensures (op.DoLoad? && op.allowPreload) || op.DoReload? || op.DoAutoload?
    ensures op.modelName != current.value.modelName && ProbeAnswer(op) == Returned(true)
  {
    if op.DoSwitch? && EvictsFirst(current, op.modelName) {
      ProbedSwitchNeverReplaces(config, current, op.modelName, op.switchWorld);
    }
  }
}
