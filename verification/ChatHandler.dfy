/** The estimate and chat commands (CanonicalChatHandler in lmrs/commands.py). */
module ChatHandler {
  import opened Outcomes
  import opened Estimation
  import opened Admission
  import opened RequestQueues

  datatype CommandOutcome = Executed | Queued | Rejected | WouldExecute | WouldQueue | WouldReject

  datatype ReasonCode =
    | FromAdmission(reason: Reason)
    | ModelSwitching
    | FromRuntime(code: string)
    | HardwareCapacityUnknown

  datatype CommandResult = CommandResult(
    outcome: CommandOutcome, success: bool, reason: ReasonCode,
    breakdown: Option<TokenBreakdown>, capacity: Option<Capacity>, queueState: Option<seq<QueueEntry>>)

  function DryRunOutcome(decision: string): Result<CommandOutcome> {
    match CanonicalDecision(decision)
    case ValueError => ValueError
    case Ok(Execute) => Ok(WouldExecute)
    case Ok(Queue) => Ok(WouldQueue)
    case Ok(Reject) => Ok(WouldReject)
  }

  function ExecutionOutcome(decision: string): Result<CommandOutcome> {
    match CanonicalDecision(decision)
    case ValueError => ValueError
    case Ok(Execute) => Ok(Executed)
    case Ok(Queue) => Ok(Queued)
    case Ok(Reject) => Ok(Rejected)
  }

  const VALUE_ERROR := "ValueError"

  function EstimateResult(decision: string, reason: ReasonCode, breakdown: TokenBreakdown, capacity: Capacity): Outcome<CommandResult> {
    match DryRunOutcome(decision)
    case ValueError => Raised(VALUE_ERROR)
    case Ok(outcome) =>
      Returned(CommandResult(outcome, outcome != WouldReject, reason, Some(breakdown), Some(capacity), None))
  }

  function ChatResult(decision: string, reason: ReasonCode, breakdown: TokenBreakdown, capacity: Capacity,
                      queueState: Option<seq<QueueEntry>>): Outcome<CommandResult>
  {
    match ExecutionOutcome(decision)
    case ValueError => Raised(VALUE_ERROR)
    case Ok(outcome) =>
      Returned(CommandResult(outcome, outcome != Rejected, reason, Some(breakdown), Some(capacity), queueState))
  }

  function FailureResult(reason: ReasonCode): CommandResult {
    CommandResult(Rejected, false, reason, None, None, None)
  }

  /** What running an admitted request gives: a result, a structured failure, or an exception. */
  datatype RuntimeReply = RuntimeOk | RuntimeFailure(code: string) | RuntimeRaises(exception: string)

  // ----- the dry run -----

  function EstimateCommand(switching: bool, request: Request, capacity: Capacity): Outcome<CommandResult> {
    if switching then EstimateResult("reject", ModelSwitching, request.breakdown, capacity)
    else
      match EstimateAndAdmit(request, capacity)
      case ValueError => Raised(VALUE_ERROR)
      case Ok((estimate, verdict)) =>
        EstimateResult(verdict.decision, FromAdmission(verdict.reason), estimate.breakdown, capacity)
  }

  // ----- the chat -----

  /** What one chat command did: its result, the queue it published, and how often it called the runtime. */
  datatype ChatRun = ChatRun(result: Outcome<CommandResult>, published: Option<RequestQueue>, runtimeCalls: nat)

  function Chat(switching: bool, queue: RequestQueue, metadata: QueueMetadata, runtime: RuntimeReply,
                request: Request, capacity: Capacity): ChatRun
  {
    if switching then ChatRun(ChatResult("reject", ModelSwitching, request.breakdown, capacity, None), None, 0)
    else
      match EstimateAndAdmit(request, capacity)
      case ValueError => ChatRun(Raised(VALUE_ERROR), None, 0)
      case Ok((estimate, verdict)) =>
        var reason := FromAdmission(verdict.reason);
        match CanonicalDecision(verdict.decision)
        case ValueError => ChatRun(Raised(VALUE_ERROR), None, 0)
        case Ok(Reject) =>
          ChatRun(ChatResult(verdict.decision, reason, estimate.breakdown, capacity, None), None, 0)
        case Ok(Queue) =>
          (match BuildQueueEntryRequest(verdict, estimate, metadata)
           case ValueError => ChatRun(Raised(VALUE_ERROR), None, 0)
           case Ok(entry) =>
             var updated := queue.Add(entry);
             ChatRun(ChatResult(verdict.decision, reason, estimate.breakdown, capacity, Some(updated.entries)), Some(updated), 0))
        case Ok(Execute) =>
          match runtime
          case RuntimeRaises(e) => ChatRun(Raised(e), None, 1)
          case RuntimeFailure(code) => ChatRun(Returned(FailureResult(FromRuntime(code))), None, 1)
          case RuntimeOk => ChatRun(ChatResult(verdict.decision, reason, estimate.breakdown, capacity, None), None, 1)
  }

  /** Owns the single mutable reference to the process queue. */
  class QueueHolder {
    var queue: RequestQueue

    constructor ()
      ensures queue == RequestQueue([])
    {
      queue := RequestQueue([]);
    }

    method Replace(queue: RequestQueue)
      modifies this
      ensures this.queue == queue
    {
      this.queue := queue;
    }

    /** The memory held by queued requests. */
    method ReservedBytes() returns (sum: int)
      ensures sum == Reserved(queue.entries)
    {
      sum := 0;
      var n := 0;
      while n < |queue.entries|
        invariant 0 <= n <= |queue.entries|
        invariant sum + Reserved(queue.entries[n..]) == Reserved(queue.entries)
      {
        sum := sum + queue.entries[n].requiredVram;
        n := n + 1;
      }
    }

    method Cancel(requestId: string) returns (snapshot: seq<QueueEntry>)
      modifies this
      ensures queue == old(queue).Cancel(requestId) && snapshot == queue.entries
      ensures Reserved(queue.entries) == Reserved(old(queue.entries)) - Reserved(Matching(old(queue.entries), requestId))
    {
      queue := queue.Cancel(requestId);
      snapshot := queue.entries;
      CancelFrees(old(queue.entries), requestId);
    }
  }

  function Reserved(entries: seq<QueueEntry>): int {
    if entries == [] then 0 else entries[0].requiredVram + Reserved(entries[1..])
  }

  function Matching(entries: seq<QueueEntry>, requestId: string): seq<QueueEntry> {
    if entries == [] then []
    else (if entries[0].requestId == requestId then [entries[0]] else []) + Matching(entries[1..], requestId)
  }

  lemma ReservedConcat(a: seq<QueueEntry>, b: seq<QueueEntry>)
    ensures Reserved(a + b) == Reserved(a) + Reserved(b)
  {
    if a == [] {
      assert a + b == b;
    } else {
      assert (a + b)[1..] == a[1..] + b;
      ReservedConcat(a[1..], b);
    }
  }

  lemma {:induction false} CancelFrees(entries: seq<QueueEntry>, requestId: string)
    ensures Reserved(Without(entries, requestId)) + Reserved(Matching(entries, requestId)) == Reserved(entries)
  {
    if entries != [] {
      CancelFrees(entries[1..], requestId);
      ReservedConcat([entries[0]], Without(entries[1..], requestId));
      ReservedConcat([entries[0]], Matching(entries[1..], requestId));
      assert [] + Matching(entries[1..], requestId) == Matching(entries[1..], requestId);
    }
  }

  /** The chat command acting through the queue sink; runtimeCalls counts calls to the runtime. */
  method ChatThrough(switching: bool, queue: RequestQueue, metadata: QueueMetadata, runtime: RuntimeReply,
                     sink: QueueHolder, request: Request, capacity: Capacity)
    returns (result: Outcome<CommandResult>, runtimeCalls: nat)
    modifies sink
    ensures var run := Chat(switching, queue, metadata, runtime, request, capacity);
            && result == run.result && runtimeCalls == run.runtimeCalls
            && sink.queue == run.published.GetOr(old(sink.queue))
  {
    runtimeCalls := 0;
    if switching {
      result := ChatResult("reject", ModelSwitching, request.breakdown, capacity, None);
      return;
    }
    var admitted := EstimateAndAdmit(request, capacity);
    if admitted.ValueError? { result := Raised(VALUE_ERROR); return; }
    var (estimate, verdict) := admitted.value;
    var decision := CanonicalDecision(verdict.decision);
    var reason := FromAdmission(verdict.reason);
    if decision.ValueError? { result := Raised(VALUE_ERROR); return; }
    if decision.value == Reject {
      result := ChatResult(verdict.decision, reason, estimate.breakdown, capacity, None);
      return;
    }
    if decision.value == Queue {
      var record := BuildQueueEntryRequest(verdict, estimate, metadata);
      if record.ValueError? { result := Raised(VALUE_ERROR); return; }
      var updated := queue.Add(record.value);
      sink.Replace(updated);
      result := ChatResult(verdict.decision, reason, estimate.breakdown, capacity, Some(updated.entries));
      return;
    }
    runtimeCalls := 1;
    match runtime {
      case RuntimeRaises(e) => result := Raised(e);
      case RuntimeFailure(code) => result := Returned(FailureResult(FromRuntime(code)));
      case RuntimeOk => result := ChatResult(verdict.decision, reason, estimate.breakdown, capacity, None);
    }
  }

  // ----- what the two commands guarantee -----

  predicate Admissible(request: Request, capacity: Capacity) {
    && WellFormed(request)
    && Tokens(request) <= request.declaredContextWindow
    && EffectiveVram(request) <= capacity.maxPool
  }

  predicate Complete(metadata: QueueMetadata) {
    metadata.sessionId.Some? && metadata.admittedAt.Some? && metadata.expiresAt.Some?
  }

  /** The runtime is reached exactly by a request that is not switching, fits the
      window, fits the pool and fits now; and then exactly once. */
  lemma ChatSafety(switching: bool, queue: RequestQueue, metadata: QueueMetadata, runtime: RuntimeReply,
                   request: Request, capacity: Capacity)
    ensures var run := Chat(switching, queue, metadata, runtime, request, capacity);
            run.runtimeCalls == if !switching && Admissible(request, capacity) && EffectiveVram(request) <= capacity.usableVram
                                then 1 else 0
    ensures var run := Chat(switching, queue, metadata, runtime, request, capacity);
            run.runtimeCalls == 1 ==>
              match runtime
              case RuntimeOk => run.result.Returned? && run.result.value.outcome == Executed && run.result.value.success
              case RuntimeFailure(code) => run.result == Returned(CommandResult(Rejected, false, FromRuntime(code), None, None, None))
              case RuntimeRaises(e) => run.result == Raised(e)
    ensures var run := Chat(switching, queue, metadata, runtime, request, capacity);
            run.result.Returned? && run.result.value.outcome == Executed ==> run.runtimeCalls == 1
  {
    VerdictMeaning(request, capacity);
  }

  /** What the dry run says, told from the request and the capacity. */
  lemma EstimateMeaning(switching: bool, request: Request, capacity: Capacity)
    requires switching || WellFormed(request)
    ensures var dry := EstimateCommand(switching, request, capacity);
            && dry.Returned?
            && dry.value.outcome == (if switching || !Admissible(request, capacity) then WouldReject
                                     else if EffectiveVram(request) > capacity.usableVram then WouldQueue
                                     else WouldExecute)
            && (dry.value.success <==> dry.value.outcome != WouldReject)
            && dry.value.reason == (if switching then ModelSwitching
                                    else if Tokens(request) > request.declaredContextWindow then FromAdmission(ContextOverflow)
                                    else if EffectiveVram(request) > capacity.maxPool then FromAdmission(RequestTooLarge)
                                    else if EffectiveVram(request) > capacity.usableVram then FromAdmission(CapacityConstrained)
                                    else FromAdmission(CapacityAvailable))
            && dry.value.breakdown == Some(request.breakdown) && dry.value.capacity == Some(capacity)
            && dry.value.queueState.None?
  {
    if switching {
      CanonicalDecisionExact("reject", Reject);
    } else {
      VerdictMeaning(request, capacity);
    }
  }

  /** The queue changes exactly on a queue decision with complete metadata, and
      then by one entry at the end carrying the request's id and effective cost. */
  lemma ChatQueueing(switching: bool, queue: RequestQueue, metadata: QueueMetadata, runtime: RuntimeReply,
                     request: Request, capacity: Capacity)
    ensures var run := Chat(switching, queue, metadata, runtime, request, capacity);
            run.published.Some? <==>
              && !switching && Admissible(request, capacity) && EffectiveVram(request) > capacity.usableVram
              && Complete(metadata)
    ensures var run := Chat(switching, queue, metadata, runtime, request, capacity);
            run.published.Some? ==>
              && |run.published.value.entries| == |queue.entries| + 1
              && run.published.value.entries[..|queue.entries|] == queue.entries
              && run.result.Returned? && run.result.value.outcome == Queued
              && run.result.value.queueState == Some(run.published.value.entries)
              && (var entry := run.published.value.entries[|queue.entries|];
                 && entry.requestId == request.requestId && entry.modelName == request.modelName
                 && entry.requiredVram == EffectiveVram(request) && entry.requiredTokens == Tokens(request)
                 && Some(entry.sessionId) == metadata.sessionId
                 && Some(entry.admittedAt) == metadata.admittedAt && Some(entry.expiresAt) == metadata.expiresAt
                 && entry.priority == metadata.priority.GetOr(0) && entry.status == metadata.status.GetOr("queued"))
  {
    VerdictMeaning(request, capacity);
  }

  function DryRunOf(outcome: CommandOutcome): CommandOutcome {
    match outcome
    case Executed => WouldExecute
    case Queued => WouldQueue
    case Rejected => WouldReject
    case other => other
  }

  /** The dry run foretells the chat: both raise on the same malformed inputs, and
      otherwise the outcome and reason match unless the runtime call itself failed
      or the queue metadata was incomplete. */
  lemma DryRunAgrees(switching: bool, queue: RequestQueue, metadata: QueueMetadata, runtime: RuntimeReply,
                     request: Request, capacity: Capacity)
    ensures var run := Chat(switching, queue, metadata, runtime, request, capacity);
            var dry := EstimateCommand(switching, request, capacity);
            && (dry.Raised? <==> !switching && !WellFormed(request))
            && (dry.Raised? ==> run.result.Raised?)
            && (dry.Returned? ==>
                  ((run.result.Returned?
                    && dry.value == run.result.value.(outcome := DryRunOf(run.result.value.outcome), queueState := None))
                   <==>
                   && (run.runtimeCalls == 1 ==> runtime.RuntimeOk?)
                   && (dry.value.outcome == WouldQueue ==> Complete(metadata))))
  {
    VerdictMeaning(request, capacity);
    assert CanonicalDecision("reject") == Ok(Reject) by { CanonicalDecisionExact("reject", Reject); }
    SpellingsDiffer();
  }
}
