/** The chat and cancel commands as the adapter wires them (ChatCommand,
    CancelCommand, _QueueHolder and the capacity functions of
    lmrs/adapter/registration.py): the capacity a request is admitted against is
    computed from the driver's reading and from the queue's own reservations. */
module WiredAdapter {
  import opened Outcomes
  import opened VramCapacity
  import VramFacts
  import opened Estimation
  import opened Admission
  import opened Configuration
  import opened RequestQueues
  import opened ChatHandler

  /** Settings read from the environment; each falls back to its default when negative. */
  datatype Settings = Settings(safetyMargin: nat, runtimeReserve: nat, perRequestOverhead: nat, batchOverhead: nat)

  /** One chat call: what the caller sent, and what the cache, the runtime tokenizer,
      the driver, the facts file and the runtime answer. */
  datatype ChatParams = ChatParams(
    requestId: string, modelName: string, sessionId: string, message: string, system: string, maxTokens: int,
    kvProfile: Option<KVCacheProfile>, countedTokens: Option<int>, live: Option<int>, stored: Option<int>,
    modelLoaded: bool, runtimeReady: bool, admittedAt: string, expiresAt: string, runtime: RuntimeReply)

  // ----- the inputs of admission -----

  /** The free memory pools are computed from: the driver's reading, or, when the
      driver does not answer, the one stored at the last model load. */
  function FreeVram(p: ChatParams): Option<int> {
    if p.live.Some? then p.live else p.stored
  }

  /** The tokenizer's own count, or one token for every four characters begun. */
  function PromptTokenBreakdown(counted: Option<int>, characters: nat, reservedOutput: int): (b: TokenBreakdown)
    ensures counted.Some? ==> b.inputTokens == counted.value
    ensures counted.None? ==> characters <= 4 * b.inputTokens < characters + 4
    ensures CalculateRequiredTokens(b).Ok? ==> CalculateRequiredTokens(b).value == b.inputTokens + reservedOutput
  {
    TokenBreakdown(if counted.Some? then counted.value else (characters + 3) / 4, 0, 0, reservedOutput)
  }

  function VramState(settings: Settings, free: int, reserved: int): DynamicVramState {
    DynamicVramState(free, settings.safetyMargin, settings.runtimeReserve, reserved)
  }

  /** The pools admission sees: zero when nothing was measured. */
  function CapacitySnapshot(settings: Settings, p: ChatParams, reserved: int): Result<Capacity> {
    if FreeVram(p).None? then Ok(Capacity(0, 0, p.modelLoaded, p.runtimeReady))
    else
      var state := VramState(settings, FreeVram(p).value, reserved);
      match CalculateMaxDynamicPool(state)
      case ValueError => ValueError
      case Ok(pool) =>
        match CalculateUsableDynamicVram(state)
        case ValueError => ValueError
        case Ok(usable) => Ok(Capacity(usable, pool, p.modelLoaded, p.runtimeReady))
  }

  function RequestOf(settings: Settings, p: ChatParams, profile: KVCacheProfile): Request {
    Request(p.requestId, p.modelName, PromptTokenBreakdown(p.countedTokens, |p.system| + |p.message|, p.maxTokens),
            profile.declaredContextWindow,
            Costs(profile.KvBytesPerToken(), settings.perRequestOverhead, settings.batchOverhead), false, None)
  }

  function MetadataOf(p: ChatParams): QueueMetadata {
    QueueMetadata(Some(p.sessionId), Some(p.admittedAt), Some(p.expiresAt), None, None)
  }

  // ----- the commands -----

  /** The two parameters a chat call must name. */
  predicate Named(p: ChatParams) {
    p.message != "" && p.modelName != ""
  }

  function ChatDelegate(settings: Settings, switching: bool, queue: RequestQueue, p: ChatParams): ChatRun {
    if !Named(p) then ChatRun(Raised(VALUE_ERROR), None, 0)
    else if p.kvProfile.None? then ChatRun(Returned(FailureResult(HardwareCapacityUnknown)), None, 0)
    else
      match CapacitySnapshot(settings, p, Reserved(queue.entries))
      case ValueError => ChatRun(Raised(VALUE_ERROR), None, 0)
      case Ok(capacity) =>
        Chat(switching, queue, MetadataOf(p), p.runtime, RequestOf(settings, p, p.kvProfile.value), capacity)
  }

  class LmrsCommands {
    const settings: Settings
    const holder: QueueHolder

    constructor (settings: Settings, holder: QueueHolder)
      ensures this.settings == settings && this.holder == holder
    {
      this.settings, this.holder := settings, holder;
    }

    method Chat(switching: bool, p: ChatParams) returns (result: Outcome<CommandResult>, runtimeCalls: nat)
      modifies holder
      ensures var run := ChatDelegate(settings, switching, old(holder.queue), p);
              && result == run.result && runtimeCalls == run.runtimeCalls
              && holder.queue == run.published.GetOr(old(holder.queue))
    {
      if p.message == "" || p.modelName == "" {
        return Raised(VALUE_ERROR), 0;
      }
      if p.kvProfile.None? {
        return Returned(FailureResult(HardwareCapacityUnknown)), 0;
      }
      var reserved := holder.ReservedBytes();
      var capacity := CapacitySnapshot(settings, p, reserved);
      if capacity.ValueError? {
        return Raised(VALUE_ERROR), 0;
      }
      result, runtimeCalls := ChatThrough(switching, holder.queue, MetadataOf(p), p.runtime, holder,
                                          RequestOf(settings, p, p.kvProfile.value), capacity.value);
    }

    method Cancel(requestId: string) returns (snapshot: seq<QueueEntry>)
      modifies holder
      ensures holder.queue == old(holder.queue).Cancel(requestId) && snapshot == holder.queue.entries
    {
      snapshot := holder.Cancel(requestId);
    }
  }

  // ----- runs -----

  datatype Command = ChatCommand(switching: bool, params: ChatParams) | CancelCommand(requestId: string)

  function Apply(settings: Settings, queue: RequestQueue, c: Command): RequestQueue {
    match c
    case ChatCommand(switching, p) => ChatDelegate(settings, switching, queue, p).published.GetOr(queue)
    case CancelCommand(requestId) => queue.Cancel(requestId)
  }

  function After(settings: Settings, queue: RequestQueue, commands: seq<Command>): RequestQueue {
    if commands == [] then queue
    else Apply(settings, After(settings, queue, commands[..|commands| - 1]), commands[|commands| - 1])
  }

  /** The memory a chat call's request is admitted for, when it can be sized. */
  function Cost(settings: Settings, p: ChatParams): int
    requires p.kvProfile.Some? && WellFormed(RequestOf(settings, p, p.kvProfile.value))
  {
    EffectiveVram(RequestOf(settings, p, p.kvProfile.value))
  }

  function Pool(settings: Settings, p: ChatParams): int {
    if FreeVram(p).None? then 0 else Max(0, FreeVram(p).value - settings.safetyMargin - settings.runtimeReserve)
  }

  function Usable(settings: Settings, p: ChatParams, reserved: int): int {
    if FreeVram(p).None? then 0 else Max(0, Pool(settings, p) - reserved)
  }

  lemma SnapshotPools(settings: Settings, p: ChatParams, reserved: int)
    ensures var c := CapacitySnapshot(settings, p, reserved);
            && (c.Ok? <==> FreeVram(p).None? || (FreeVram(p).value >= 0 && reserved >= 0))
            && (c.Ok? ==> c.value.maxPool == Pool(settings, p) && c.value.usableVram == Usable(settings, p, reserved))
            && (c.Ok? ==> c.value.modelLoaded == p.modelLoaded && c.value.runtimeReady == p.runtimeReady)
  {}

  /** Each command changes the reservations by exactly what it queues or frees. */
  lemma ReservationAccounting(settings: Settings, queue: RequestQueue, c: Command)
    ensures var after := Apply(settings, queue, c);
            match c
            case CancelCommand(id) =>
              Reserved(after.entries) == Reserved(queue.entries) - Reserved(Matching(queue.entries, id))
            case ChatCommand(switching, p) =>
              if ChatDelegate(settings, switching, queue, p).published.None? then after == queue
              else p.kvProfile.Some? && WellFormed(RequestOf(settings, p, p.kvProfile.value))
                   && Reserved(after.entries) == Reserved(queue.entries) + Cost(settings, p)
  {
    match c
    case CancelCommand(id) => CancelFrees(queue.entries, id);
    case ChatCommand(switching, p) =>
      if ChatDelegate(settings, switching, queue, p).published.Some? {
        var request := RequestOf(settings, p, p.kvProfile.value);
        var capacity := CapacitySnapshot(settings, p, Reserved(queue.entries)).value;
        ChatQueueing(switching, queue, MetadataOf(p), p.runtime, request, capacity);
        var entries := Apply(settings, queue, c).entries;
        assert entries == queue.entries + [entries[|queue.entries|]];
        ReservedConcat(queue.entries, [entries[|queue.entries|]]);
      }
  }

  /** When a chat call queues: the pool could hold the request but what is reserved
      already leaves too little. So something was reserved before, and afterwards
      more is reserved than the pool holds. */
  lemma QueueingOvercommits(settings: Settings, switching: bool, queue: RequestQueue, p: ChatParams)
    ensures var queues := ChatDelegate(settings, switching, queue, p).published.Some?;
            queues ==> Apply(settings, queue, ChatCommand(switching, p)) != queue
    ensures ChatDelegate(settings, switching, queue, p).published.Some? ==>
              && Reserved(queue.entries) > 0
              && Reserved(Apply(settings, queue, ChatCommand(switching, p)).entries) > Pool(settings, p)
              && FreeVram(p).Some?
              && Usable(settings, p, Reserved(Apply(settings, queue, ChatCommand(switching, p)).entries)) == 0
  {
    ReservationAccounting(settings, queue, ChatCommand(switching, p));
    if ChatDelegate(settings, switching, queue, p).published.Some? {
      var request := RequestOf(settings, p, p.kvProfile.value);
      SnapshotPools(settings, p, Reserved(queue.entries));
      var capacity := CapacitySnapshot(settings, p, Reserved(queue.entries)).value;
      ChatQueueing(switching, queue, MetadataOf(p), p.runtime, request, capacity);
    }
  }

  /** From an empty queue the wired adapter never queues anything, whatever is asked of it. */
  lemma {:induction false} EmptyQueueStaysEmpty(settings: Settings, commands: seq<Command>)
    ensures After(settings, RequestQueue([]), commands) == RequestQueue([])
  {
    if commands != [] {
      EmptyQueueStaysEmpty(settings, commands[..|commands| - 1]);
      var c := commands[|commands| - 1];
      if c.ChatCommand? {
        QueueingOvercommits(settings, c.switching, RequestQueue([]), c.params);
      }
    }
  }

  /** A chat call whose pool does not exceed the given one. */
  predicate ChatWithin(settings: Settings, c: Command, pool: int) {
    c.ChatCommand? && Pool(settings, c.params) <= pool
  }

  /** A chat call that finds no usable memory, and reaches the runtime only if it needs none. */
  predicate RunsOnlyFree(settings: Settings, before: RequestQueue, c: Command) {
    c.ChatCommand? ==>
      var p := c.params;
      && Usable(settings, p, Reserved(before.entries)) == 0
      && (ChatDelegate(settings, c.switching, before, p).runtimeCalls > 0 ==>
            && p.kvProfile.Some? && WellFormed(RequestOf(settings, p, p.kvProfile.value))
            && Cost(settings, p) == 0)
  }

  lemma ExhaustedStep(settings: Settings, before: RequestQueue, c: Command, pool: int)
    requires Reserved(before.entries) >= pool && ChatWithin(settings, c, pool)
    ensures RunsOnlyFree(settings, before, c)
  {
    var p := c.params;
    RuntimeReached(settings, c.switching, before, p);
    if p.kvProfile.Some? && WellFormed(RequestOf(settings, p, p.kvProfile.value)) {
      CostIsNonNegative(settings, p);
    }
  }

  lemma ChatKeepsReservations(settings: Settings, before: RequestQueue, c: Command)
    requires c.ChatCommand?
    ensures Reserved(Apply(settings, before, c).entries) >= Reserved(before.entries)
  {
    ReservationAccounting(settings, before, c);
    if c.params.kvProfile.Some? && WellFormed(RequestOf(settings, c.params, c.params.kvProfile.value)) {
      CostIsNonNegative(settings, c.params);
    }
  }

  lemma {:induction false} ChatsKeepReservations(settings: Settings, queue: RequestQueue, commands: seq<Command>)
    requires forall c | c in commands :: c.ChatCommand?
    ensures Reserved(After(settings, queue, commands).entries) >= Reserved(queue.entries)
  {
    if commands != [] {
      var n := |commands| - 1;
      ChatsKeepReservations(settings, queue, commands[..n]);
      ChatKeepsReservations(settings, After(settings, queue, commands[..n]), commands[n]);
    }
  }

  /** Once reservations reach a pool they stay there through any run of chats that
      never sees a larger pool: at every one of them no memory is usable, and its
      request still reaches the runtime only if it needs none. */
  lemma ExhaustedUntilCancelOrGrowth(settings: Settings, queue: RequestQueue, commands: seq<Command>, pool: int, i: nat)
    requires Reserved(queue.entries) >= pool
    requires forall c | c in commands :: ChatWithin(settings, c, pool)
    requires i < |commands|
    ensures Reserved(After(settings, queue, commands).entries) >= Reserved(queue.entries)
    ensures RunsOnlyFree(settings, After(settings, queue, commands[..i]), commands[i])
  {
    ChatsKeepReservations(settings, queue, commands);
    ChatsKeepReservations(settings, queue, commands[..i]);
    ExhaustedStep(settings, After(settings, queue, commands[..i]), commands[i], pool);
  }

  lemma CostIsNonNegative(settings: Settings, p: ChatParams)
    requires p.kvProfile.Some? && WellFormed(RequestOf(settings, p, p.kvProfile.value))
    ensures Cost(settings, p) >= 0
  {
    var request := RequestOf(settings, p, p.kvProfile.value);
    ProductMonotone(0, 0, Tokens(request), request.costs.kvBytesPerToken);
  }

  /** Exactly when the wired chat reaches the runtime. */
  lemma RuntimeReached(settings: Settings, switching: bool, queue: RequestQueue, p: ChatParams)
    ensures ChatDelegate(settings, switching, queue, p).runtimeCalls ==
            if && Named(p) && !switching && p.kvProfile.Some?
               && (FreeVram(p).Some? ==> FreeVram(p).value >= 0 && Reserved(queue.entries) >= 0)
               && WellFormed(RequestOf(settings, p, p.kvProfile.value))
               && Tokens(RequestOf(settings, p, p.kvProfile.value)) <= p.kvProfile.value.declaredContextWindow
               && Cost(settings, p) <= Pool(settings, p)
               && Cost(settings, p) <= Usable(settings, p, Reserved(queue.entries))
            then 1 else 0
  {
    SnapshotPools(settings, p, Reserved(queue.entries));
    if p.kvProfile.Some? && CapacitySnapshot(settings, p, Reserved(queue.entries)).Ok? {
      ChatSafety(switching, queue, MetadataOf(p), p.runtime, RequestOf(settings, p, p.kvProfile.value),
                 CapacitySnapshot(settings, p, Reserved(queue.entries)).value);
    }
  }

  /** Exactly when the wired chat queues its request. */
  lemma QueueReached(settings: Settings, switching: bool, queue: RequestQueue, p: ChatParams)
    ensures ChatDelegate(settings, switching, queue, p).published.Some? <==>
              && Named(p) && !switching && p.kvProfile.Some?
              && FreeVram(p).Some? && FreeVram(p).value >= 0 && Reserved(queue.entries) >= 0
              && WellFormed(RequestOf(settings, p, p.kvProfile.value))
              && Tokens(RequestOf(settings, p, p.kvProfile.value)) <= p.kvProfile.value.declaredContextWindow
              && Usable(settings, p, Reserved(queue.entries)) < Cost(settings, p) <= Pool(settings, p)
  {
    SnapshotPools(settings, p, Reserved(queue.entries));
    if p.kvProfile.Some? && CapacitySnapshot(settings, p, Reserved(queue.entries)).Ok? {
      ChatQueueing(switching, queue, MetadataOf(p), p.runtime, RequestOf(settings, p, p.kvProfile.value),
                   CapacitySnapshot(settings, p, Reserved(queue.entries)).value);
    }
  }

  // ----- the chat, told from its inputs -----

  /** The figures a request is judged by: its prompt tokens, as counted or at four
      characters each, begun ones included; its memory; and the reading that counts,
      the live one if there is one. */
  datatype Figures = Figures(tokens: int, memory: int, free: Option<int>)

  predicate AreFigures(settings: Settings, p: ChatParams, f: Figures) {
    && p.kvProfile.Some?
    && (p.countedTokens.Some? ==> f.tokens == p.countedTokens.value + p.maxTokens)
    && (p.countedTokens.None? ==>
          var prompt := f.tokens - p.maxTokens;
          |p.system| + |p.message| <= 4 * prompt < |p.system| + |p.message| + 4)
    && f.memory == f.tokens * p.kvProfile.value.KvBytesPerToken() + settings.perRequestOverhead + settings.batchOverhead
    && (p.live.Some? ==> f.free == p.live)
    && (p.live.None? ==> f.free == p.stored)
  }

  /** The call can be sized: no count is negative, nor the reading, nor the reservations beside one. */
  predicate Sizeable(p: ChatParams, reserved: int, f: Figures) {
    && p.maxTokens >= 0 && f.tokens >= p.maxTokens
    && (f.free.Some? ==> f.free.value >= 0 && reserved >= 0)
  }

  /** The memory fits what margin and reserve leave of the reading, and what the reservations leave of that. */
  predicate FitsPool(settings: Settings, f: Figures) {
    if f.free.Some? && f.free.value > settings.safetyMargin + settings.runtimeReserve
    then f.memory + settings.safetyMargin + settings.runtimeReserve <= f.free.value
    else f.memory <= 0
  }

  predicate FitsNow(settings: Settings, reserved: int, f: Figures) {
    if f.free.Some? && f.free.value > settings.safetyMargin + settings.runtimeReserve + reserved
    then f.memory + settings.safetyMargin + settings.runtimeReserve + reserved <= f.free.value
    else f.memory <= 0
  }

  lemma FiguresAgree(settings: Settings, p: ChatParams, reserved: int, f: Figures)
    requires AreFigures(settings, p, f) && p.kvProfile.value.KvBytesPerToken() > 0
    ensures var request := RequestOf(settings, p, p.kvProfile.value);
            && (WellFormed(request) <==> p.maxTokens >= 0 && f.tokens >= p.maxTokens)
            && (WellFormed(request) ==> Tokens(request) == f.tokens && Cost(settings, p) == f.memory)
    ensures FreeVram(p) == f.free
    ensures f.memory <= Pool(settings, p) <==> FitsPool(settings, f)
    ensures reserved >= 0 ==> (f.memory <= Usable(settings, p, reserved) <==> FitsNow(settings, reserved, f))
  {
    var counted, characters := p.countedTokens, |p.system| + |p.message|;
    PromptIsCounted(counted, characters, p.maxTokens, f.tokens);
  }

  lemma PromptIsCounted(counted: Option<int>, characters: nat, reservedOutput: int, tokens: int)
    requires counted.Some? ==> tokens == counted.value + reservedOutput
    requires counted.None? ==> characters <= 4 * (tokens - reservedOutput) < characters + 4
    ensures PromptTokenBreakdown(counted, characters, reservedOutput).inputTokens == tokens - reservedOutput
  {}

  /** Exactly when a wired chat reaches the runtime, and exactly when it is queued. */
  lemma ChatMeaning(settings: Settings, switching: bool, queue: RequestQueue, p: ChatParams, f: Figures)
    requires AreFigures(settings, p, f) && PassesKvChecks(p.kvProfile.value)
    ensures var run, reserved := ChatDelegate(settings, switching, queue, p), Reserved(queue.entries);
            var judged := p.message != "" && p.modelName != "" && !switching && Sizeable(p, reserved, f)
                          && f.tokens <= p.kvProfile.value.declaredContextWindow && FitsPool(settings, f);
            && (reserved >= 0 ==> (run.runtimeCalls == 1 <==> judged && FitsNow(settings, reserved, f)))
            && (reserved >= 0 ==> (run.published.Some? <==> judged && f.free.Some? && !FitsNow(settings, reserved, f)))
            && run.runtimeCalls <= 1
  {
    KvCostIsPositive(p.kvProfile.value);
    FiguresAgree(settings, p, Reserved(queue.entries), f);
    RuntimeReached(settings, switching, queue, p);
    QueueReached(settings, switching, queue, p);
  }

  /** The entry a queued chat leaves at the end of the queue. */
  lemma QueuedEntry(settings: Settings, switching: bool, queue: RequestQueue, p: ChatParams)
    requires ChatDelegate(settings, switching, queue, p).published.Some?
    ensures var entries := ChatDelegate(settings, switching, queue, p).published.value.entries;
            && |entries| == |queue.entries| + 1 && entries[..|queue.entries|] == queue.entries
            && var e := entries[|queue.entries|];
               && e.requestId == p.requestId && e.modelName == p.modelName && e.sessionId == p.sessionId
               && e.admittedAt == p.admittedAt && e.expiresAt == p.expiresAt
               && e.priority == 0 && e.status == "queued"
  {
    ChatQueueing(switching, queue, MetadataOf(p), p.runtime, RequestOf(settings, p, p.kvProfile.value),
                 CapacitySnapshot(settings, p, Reserved(queue.entries)).value);
  }

  /** What a chat that neither runs nor queues answers. */
  lemma ChatRefusal(settings: Settings, switching: bool, queue: RequestQueue, p: ChatParams)
    ensures var result := ChatDelegate(settings, switching, queue, p).result;
            && (p.message == "" || p.modelName == "" ==> result == Raised("ValueError"))
            && (Named(p) && p.kvProfile.None? ==> Refuses(result, HardwareCapacityUnknown))
            && (Named(p) && p.kvProfile.Some? ==>
                  var request := RequestOf(settings, p, p.kvProfile.value);
                  if FreeVram(p).Some? && (FreeVram(p).value < 0 || Reserved(queue.entries) < 0) then result == Raised("ValueError")
                  else if switching then Refuses(result, ModelSwitching)
                  else if !WellFormed(request) then result == Raised("ValueError")
                  else if Tokens(request) > p.kvProfile.value.declaredContextWindow then Refuses(result, FromAdmission(ContextOverflow))
                  else Cost(settings, p) > Pool(settings, p) ==> Refuses(result, FromAdmission(RequestTooLarge)))
  {
    SnapshotPools(settings, p, Reserved(queue.entries));
    if p.kvProfile.Some? && CapacitySnapshot(settings, p, Reserved(queue.entries)).Ok? {
      var request, capacity := RequestOf(settings, p, p.kvProfile.value), CapacitySnapshot(settings, p, Reserved(queue.entries)).value;
      VerdictMeaning(request, capacity);
      DecisionWords();
    }
  }

  predicate Refuses(result: Outcome<CommandResult>, reason: ReasonCode) {
    result.Returned? && result.value.outcome == Rejected && !result.value.success && result.value.reason == reason
  }

  // ----- a driver that answers -----

  /** When the driver answers, only its reading counts, whatever is stored. */
  lemma LiveReadingCounts(settings: Settings, switching: bool, queue: RequestQueue, p: ChatParams)
    requires p.live.Some?
    ensures ChatDelegate(settings, switching, queue, p).runtimeCalls == 1
       <==> !switching && FitsReading(settings, Reserved(queue.entries), p, p.live.value)
    ensures ChatDelegate(settings, switching, queue, p).published.Some?
       <==> !switching && WaitsForReading(settings, Reserved(queue.entries), p, p.live.value)
  {
    RuntimeReached(settings, switching, queue, p);
    QueueReached(settings, switching, queue, p);
  }

  /** A live reading too small refuses what the stored one would admit. */
  lemma StoredReadingIgnored(p: ChatParams)
    requires p.message == "hi" && p.system == "" && p.modelName == "m" && p.maxTokens == 8
    requires p.kvProfile == Some(KVCacheProfile(1, 1, 1, 2, 16))
    requires p.countedTokens == Some(1) && p.live == Some(10) && p.stored == Some(1000)
    ensures var run := ChatDelegate(Settings(0, 0, 0, 0), false, RequestQueue([]), p);
            run.runtimeCalls == 0 && Refuses(run.result, FromAdmission(RequestTooLarge))
  {
    LiveReadingCounts(Settings(0, 0, 0, 0), false, RequestQueue([]), p);
    RuntimeReached(Settings(0, 0, 0, 0), false, RequestQueue([]), p);
    assert p.kvProfile.value.KvBytesPerToken() == 4;
    assert Cost(Settings(0, 0, 0, 0), p) == 36;
    ChatRefusal(Settings(0, 0, 0, 0), false, RequestQueue([]), p);
  }

  // ----- an unmeasured GPU -----

  /** The tokenizer counts the prompt as nothing, no reply is reserved, and no overhead is configured. */
  predicate NeedsNothing(settings: Settings, p: ChatParams) {
    && p.countedTokens == Some(0)
    && p.maxTokens == 0
    && settings.perRequestOverhead == 0 && settings.batchOverhead == 0
  }

  lemma ZeroRequirement(tokens: int, kv: int, overhead: int)
    requires tokens >= 0 && kv > 0 && overhead >= 0
    ensures tokens * kv + overhead >= 0
    ensures tokens * kv + overhead == 0 <==> tokens == 0 && overhead == 0
  {
    if tokens > 0 {
      ProductMonotone(1, 1, tokens, kv);
    }
  }

  lemma FreeRequest(request: Request)
    requires WellFormed(request) && !request.hitConfirmed && request.costs.kvBytesPerToken > 0
    ensures EffectiveVram(request) >= 0
    ensures EffectiveVram(request) == 0 <==>
              Tokens(request) == 0 && request.costs.perRequestOverhead == 0 && request.costs.batchOverhead == 0
  {
    ZeroRequirement(Tokens(request), request.costs.kvBytesPerToken,
                    request.costs.perRequestOverhead + request.costs.batchOverhead);
  }

  lemma NoTokens(counted: Option<int>, characters: nat, reservedOutput: int)
    requires characters > 0
    requires CalculateRequiredTokens(PromptTokenBreakdown(counted, characters, reservedOutput)).Ok?
    ensures CalculateRequiredTokens(PromptTokenBreakdown(counted, characters, reservedOutput)) == Ok(0) <==>
              counted == Some(0) && reservedOutput == 0
  {
    var b := PromptTokenBreakdown(counted, characters, reservedOutput);
    assert CalculateRequiredTokens(b).value == b.inputTokens + reservedOutput;
    if counted.None? {
      assert characters <= 4 * b.inputTokens;
    }
  }

  /** Among requests with a message, only that kind can be sized at no cost. */
  lemma CostsNothing(settings: Settings, p: ChatParams, profile: KVCacheProfile)
    requires Named(p) && profile.KvBytesPerToken() > 0
    ensures var request := RequestOf(settings, p, profile);
            WellFormed(request) && EffectiveVram(request) <= 0 <==> NeedsNothing(settings, p)
    ensures NeedsNothing(settings, p) ==> Tokens(RequestOf(settings, p, profile)) == 0
  {
    var request := RequestOf(settings, p, profile);
    if WellFormed(request) {
      NoTokens(p.countedTokens, |p.system| + |p.message|, p.maxTokens);
      FreeRequest(request);
    }
  }

  /** A request that fits the window of its profile and the pools of a free reading. */
  predicate FitsReading(settings: Settings, reserved: int, p: ChatParams, free: int) {
    && Named(p) && p.kvProfile.Some? && free >= 0 && reserved >= 0
    && WellFormed(RequestOf(settings, p, p.kvProfile.value))
    && Tokens(RequestOf(settings, p, p.kvProfile.value)) <= p.kvProfile.value.declaredContextWindow
    && Cost(settings, p) <= Max(0, Max(0, free - settings.safetyMargin - settings.runtimeReserve) - reserved)
  }

  /** A request that fits the pool of a free reading but not what the reservations leave of it. */
  predicate WaitsForReading(settings: Settings, reserved: int, p: ChatParams, free: int) {
    && Named(p) && p.kvProfile.Some? && free >= 0 && reserved >= 0
    && WellFormed(RequestOf(settings, p, p.kvProfile.value))
    && Tokens(RequestOf(settings, p, p.kvProfile.value)) <= p.kvProfile.value.declaredContextWindow
    && Max(0, Max(0, free - settings.safetyMargin - settings.runtimeReserve) - reserved) < Cost(settings, p)
    && Cost(settings, p) <= Max(0, free - settings.safetyMargin - settings.runtimeReserve)
  }

  /** What a GPU that cannot be measured admits. With a reading stored at an earlier
      load, whatever fits that reading, as if it had just been taken. With none the
      pools are zero: of the requests a derived profile can size, only one that needs
      no memory at all passes. */
  lemma UnmeasuredAdmitsExactly(settings: Settings, switching: bool, queue: RequestQueue, p: ChatParams)
    requires p.live.None?
    requires p.kvProfile.Some? ==> PassesKvChecks(p.kvProfile.value) && p.kvProfile.value.declaredContextWindow > 0
    ensures p.stored.Some? ==>
              (ChatDelegate(settings, switching, queue, p).runtimeCalls == 1
               <==> !switching && FitsReading(settings, Reserved(queue.entries), p, p.stored.value))
    ensures p.stored.Some? ==>
              (ChatDelegate(settings, switching, queue, p).published.Some?
               <==> !switching && WaitsForReading(settings, Reserved(queue.entries), p, p.stored.value))
    ensures p.stored.None? ==>
              && (ChatDelegate(settings, switching, queue, p).runtimeCalls == 1
                  <==> Named(p) && !switching && p.kvProfile.Some? && NeedsNothing(settings, p))
              && Apply(settings, queue, ChatCommand(switching, p)) == queue
  {
    RuntimeReached(settings, switching, queue, p);
    QueueReached(settings, switching, queue, p);
    if p.stored.None? {
      NothingStored(settings, switching, queue, p);
    }
  }

  lemma NothingStored(settings: Settings, switching: bool, queue: RequestQueue, p: ChatParams)
    requires FreeVram(p).None?
    requires p.kvProfile.Some? ==> PassesKvChecks(p.kvProfile.value) && p.kvProfile.value.declaredContextWindow > 0
    ensures ChatDelegate(settings, switching, queue, p).runtimeCalls ==
            (if Named(p) && !switching && p.kvProfile.Some? && NeedsNothing(settings, p) then 1 else 0)
    ensures Apply(settings, queue, ChatCommand(switching, p)) == queue
  {
    RuntimeReached(settings, switching, queue, p);
    QueueReached(settings, switching, queue, p);
    if Named(p) && p.kvProfile.Some? {
      KvCostIsPositive(p.kvProfile.value);
      CostsNothing(settings, p, p.kvProfile.value);
    }
  }

  /** The facts store hands over the free reading of the latest load it remembers, however old. */
  lemma StoredReading(history: seq<VramFacts.Event>)
    ensures var facts := VramFacts.Run(history);
            match VramFacts.Latest(history, VramFacts.Start(history), VramFacts.ModelLoad)
            case None => facts.load.None?
            case Some(k) => facts.load.Some? && facts.load.value.free == history[k].measurement.free
  {
    VramFacts.StaticVramRefinement(history);
  }

  /** A one-token prompt with eight tokens reserved is admitted on a stored reading, with no driver answering. */
  lemma AdmittedOnStoredReading(p: ChatParams)
    requires p.message == "hi" && p.system == "" && p.modelName == "m" && p.maxTokens == 8
    requires p.kvProfile == Some(KVCacheProfile(1, 1, 1, 2, 16))
    requires p.countedTokens == Some(1) && p.live.None? && p.stored == Some(1000)
    ensures ChatDelegate(Settings(0, 0, 0, 0), false, RequestQueue([]), p).runtimeCalls == 1
  {
    UnmeasuredAdmitsExactly(Settings(0, 0, 0, 0), false, RequestQueue([]), p);
    assert p.kvProfile.value.KvBytesPerToken() == 4;
    assert Cost(Settings(0, 0, 0, 0), p) == 36;
  }

  /** A request that is admitted although nothing was ever measured. */
  lemma UnmeasuredAdmission(p: ChatParams, queue: RequestQueue)
    requires p.message == "hi" && p.system == "" && p.modelName == "m" && p.maxTokens == 0
    requires p.kvProfile == Some(KVCacheProfile(1, 1, 1, 2, 16))
    requires p.countedTokens == Some(0) && p.live.None? && p.stored.None?
    ensures ChatDelegate(Settings(0, 0, 0, 0), false, queue, p).runtimeCalls == 1
  {
    UnmeasuredAdmitsExactly(Settings(0, 0, 0, 0), false, queue, p);
  }

  // ----- a pool for the full window -----

  /** A pool never rejects a request of this profile as too large exactly when it
      holds the whole window's KV cache and the overheads. */
  lemma FullWindowPool(profile: KVCacheProfile, perRequest: nat, batch: nat, capacity: Capacity)
    requires PassesKvChecks(profile) && profile.declaredContextWindow > 0
    ensures capacity.maxPool >= profile.KvFullWindowBytes() + perRequest + batch
       <==> forall request | SizedBy(request, profile, perRequest, batch) :: !RejectedTooLarge(request, capacity)
  {
    ProfileCostsArePositive(profile);
    var kv, window := profile.KvBytesPerToken(), profile.declaredContextWindow;
    if capacity.maxPool >= profile.KvFullWindowBytes() + perRequest + batch {
      forall request | SizedBy(request, profile, perRequest, batch) ensures !RejectedTooLarge(request, capacity) {
        VerdictMeaning(request, capacity);
        if WellFormed(request) && Tokens(request) <= window {
          ProductMonotone(Tokens(request), kv, window, kv);
        }
      }
    } else {
      var full := Request("", "", TokenBreakdown(window, 0, 0, 0), window, Costs(kv, perRequest, batch), false, None);
      ProductMonotone(0, 0, window, kv);
      assert WellFormed(full) && Tokens(full) == window;
      VerdictMeaning(full, capacity);
      assert SizedBy(full, profile, perRequest, batch) && RejectedTooLarge(full, capacity);
    }
  }

  /** A request sized by this profile, with no cache hit claimed. */
  predicate SizedBy(request: Request, profile: KVCacheProfile, perRequest: nat, batch: nat) {
    && request.declaredContextWindow == profile.declaredContextWindow
    && request.costs == Costs(profile.KvBytesPerToken(), perRequest, batch)
    && !request.hitConfirmed
  }

  predicate RejectedTooLarge(request: Request, capacity: Capacity) {
    EstimateAndAdmit(request, capacity).Ok? && EstimateAndAdmit(request, capacity).value.1.reason == RequestTooLarge
  }
}
