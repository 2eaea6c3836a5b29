/** Admission decisions (lmrs/admission.py and the decision vocabulary of
    lmrs/commands.py). */
module Admission {
  import opened Outcomes
  import opened Estimation

  datatype Capacity = Capacity(usableVram: int, maxPool: int, modelLoaded: bool, runtimeReady: bool)

  datatype Reason = ContextOverflow | RequestTooLarge | CapacityConstrained | CapacityAvailable

  datatype Verdict = Verdict(
    decision: string, reason: Reason, requestId: string, modelName: string,
    requiredTokens: int, requiredVram: int, queueable: bool)

  // ----- the decision vocabulary -----

  datatype Decision = Execute | Queue | Reject

  function Spelling(d: Decision): string {
    match d case Execute => "execute" case Queue => "queue" case Reject => "reject"
  }

  const DRY_RUN_PREFIX := "would_"

  function DryRunSpelling(d: Decision): string {
    DRY_RUN_PREFIX + Spelling(d)
  }

  /** The decision a verdict spells, with or without the dry-run prefix. */
  function CanonicalDecision(decision: string): Result<Decision> {
    var canonical := if DRY_RUN_PREFIX <= decision then decision[6..] else decision;
    if canonical == Spelling(Execute) then Ok(Execute)
    else if canonical == Spelling(Queue) then Ok(Queue)
    else if canonical == Spelling(Reject) then Ok(Reject)
    else ValueError
  }

  /** The two spellings of each decision are recognized, and nothing else is. */
  lemma CanonicalDecisionExact(decision: string, d: Decision)
    ensures CanonicalDecision(decision) == Ok(d) <==> decision == Spelling(d) || decision == DryRunSpelling(d)
  {
    assert (DRY_RUN_PREFIX + Spelling(d))[6..] == Spelling(d);
    if DRY_RUN_PREFIX <= decision {
      assert decision == DRY_RUN_PREFIX + decision[6..];
      assert decision[0] == 'w';
    }
  }

  /** The vocabulary, spelled out. */
  lemma DecisionWords()
    ensures CanonicalDecision("execute") == CanonicalDecision("would_execute") == Ok(Execute)
    ensures CanonicalDecision("queue") == CanonicalDecision("would_queue") == Ok(Queue)
    ensures CanonicalDecision("reject") == CanonicalDecision("would_reject") == Ok(Reject)
  {
    assert "would_" + "execute" == "would_execute" && "would_" + "queue" == "would_queue" && "would_" + "reject" == "would_reject";
    CanonicalDecisionExact("execute", Execute);
    CanonicalDecisionExact("would_execute", Execute);
    CanonicalDecisionExact("queue", Queue);
    CanonicalDecisionExact("would_queue", Queue);
    CanonicalDecisionExact("reject", Reject);
    CanonicalDecisionExact("would_reject", Reject);
  }

  function Rank(d: Decision): nat {
    match d case Reject => 0 case Queue => 1 case Execute => 2
  }

  // ----- the decision -----

  function EvaluateLmcacheAdmission(hitConfirmed: bool, fullVram: int, adjustedVram: Option<int>): int {
    if hitConfirmed && adjustedVram.Some? then adjustedVram.value else fullVram
  }

  function DecideAdmission(estimate: Estimate, capacity: Capacity, hitConfirmed: bool, adjustedVram: Option<int>): Verdict {
    var vram := EvaluateLmcacheAdmission(hitConfirmed, estimate.requiredVram, adjustedVram);
    var verdict := (d: Decision, reason: Reason) =>
      Verdict(DryRunSpelling(d), reason, estimate.requestId, estimate.modelName, estimate.requiredTokens, vram, d == Queue);
    if estimate.requiredTokens > estimate.declaredContextWindow then verdict(Reject, ContextOverflow)
    else if vram > capacity.maxPool then verdict(Reject, RequestTooLarge)
    else if vram > capacity.usableVram then verdict(Queue, CapacityConstrained)
    else verdict(Execute, CapacityAvailable)
  }

  /** Everything the estimate and chat commands feed into admission. */
  datatype Request = Request(
    requestId: string, modelName: string, breakdown: TokenBreakdown, declaredContextWindow: int,
    costs: Costs, hitConfirmed: bool, adjustedVram: Option<int>)

  function EstimateAndAdmit(request: Request, capacity: Capacity): Result<(Estimate, Verdict)> {
    match EstimateRequestCapacity(request.requestId, request.modelName, request.breakdown,
                                  request.declaredContextWindow, capacity.usableVram, request.costs)
    case ValueError => ValueError
    case Ok(estimate) => Ok((estimate, DecideAdmission(estimate, capacity, request.hitConfirmed, request.adjustedVram)))
  }

  // ----- what admission guarantees -----

  predicate WellFormed(request: Request) {
    && CalculateRequiredTokens(request.breakdown).Ok?
    && CalculateDynamicVramRequirement(CalculateRequiredTokens(request.breakdown).value, request.costs).Ok?
  }

  function Tokens(request: Request): int
    requires WellFormed(request)
  {
    CalculateRequiredTokens(request.breakdown).value
  }

  /** The memory the decision is taken on: the cache-adjusted figure of a confirmed hit, else the full one. */
  function EffectiveVram(request: Request): int
    requires WellFormed(request)
  {
    EvaluateLmcacheAdmission(
      request.hitConfirmed, CalculateDynamicVramRequirement(Tokens(request), request.costs).value, request.adjustedVram)
  }

  /** Only a confirmed hit with an adjusted figure changes the memory the decision is taken on. */
  lemma EffectiveVramMeaning(request: Request)
    requires WellFormed(request)
    ensures request.hitConfirmed && request.adjustedVram.Some? ==> EffectiveVram(request) == request.adjustedVram.value
    ensures !request.hitConfirmed || request.adjustedVram.None? ==>
              EffectiveVram(request) == Tokens(request) * request.costs.kvBytesPerToken
                                        + request.costs.perRequestOverhead + request.costs.batchOverhead
  {}

  /** What each verdict means, in terms of the request and the capacity alone. In
      particular no cache hit, however small its figure, gets past the window. */
  lemma VerdictMeaning(request: Request, capacity: Capacity)
    ensures EstimateAndAdmit(request, capacity).Ok? <==> WellFormed(request)
    ensures WellFormed(request) ==>
              var v := EstimateAndAdmit(request, capacity).value.1;
              var tokens, vram := Tokens(request), EffectiveVram(request);
              var fitsWindow, fitsPool, fitsNow :=
                tokens <= request.declaredContextWindow, vram <= capacity.maxPool, vram <= capacity.usableVram;
              && v.requestId == request.requestId && v.modelName == request.modelName
              && v.requiredTokens == tokens && v.requiredVram == vram
              && (CanonicalDecision(v.decision) == Ok(Reject) <==> !fitsWindow || !fitsPool)
              && (CanonicalDecision(v.decision) == Ok(Queue) <==> fitsWindow && fitsPool && !fitsNow)
              && (CanonicalDecision(v.decision) == Ok(Execute) <==> fitsWindow && fitsPool && fitsNow)
              && (v.reason == ContextOverflow <==> !fitsWindow)
              && (v.reason == RequestTooLarge <==> fitsWindow && !fitsPool)
              && (v.reason == CapacityConstrained <==> v.queueable)
              && (v.queueable <==> CanonicalDecision(v.decision) == Ok(Queue))
  {
    if WellFormed(request) {
      var v := EstimateAndAdmit(request, capacity).value.1;
      CanonicalDecisionExact(v.decision, Execute);
      CanonicalDecisionExact(v.decision, Queue);
      CanonicalDecisionExact(v.decision, Reject);
      SpellingsDiffer();
    }
  }

  lemma SpellingsDiffer()
    ensures forall d, e: Decision :: DryRunSpelling(d) == DryRunSpelling(e) ==> d == e
    ensures forall d, e: Decision :: DryRunSpelling(d) != Spelling(e)
  {
    forall d, e: Decision | DryRunSpelling(d) == DryRunSpelling(e) ensures d == e {
      assert DryRunSpelling(d)[6] == Spelling(d)[0] && DryRunSpelling(e)[6] == Spelling(e)[0];
      assert |DryRunSpelling(d)| == 6 + |Spelling(d)|;
      assert DryRunSpelling(d)[8] == Spelling(d)[2] && DryRunSpelling(e)[8] == Spelling(e)[2];
    }
    forall d, e: Decision ensures DryRunSpelling(d) != Spelling(e) {
      assert DryRunSpelling(d)[0] == 'w';
    }
  }

  /** No less demand on no more capacity never gets a better decision. */
  lemma AdmissionMonotone(light: Request, ample: Capacity, heavy: Request, tight: Capacity)
    requires WellFormed(light) && WellFormed(heavy)
    requires NoLighter(light.breakdown, light.costs, heavy.breakdown, heavy.costs)
    requires heavy.declaredContextWindow <= light.declaredContextWindow
    requires light.hitConfirmed == heavy.hitConfirmed && light.adjustedVram == heavy.adjustedVram
    requires tight.usableVram <= ample.usableVram && tight.maxPool <= ample.maxPool
    ensures var before, after := EstimateAndAdmit(light, ample), EstimateAndAdmit(heavy, tight);
            && before.Ok? && after.Ok?
            && CanonicalDecision(before.value.1.decision).Ok? && CanonicalDecision(after.value.1.decision).Ok?
            && Rank(CanonicalDecision(after.value.1.decision).value) <= Rank(CanonicalDecision(before.value.1.decision).value)
  {
    RequirementMonotone(light.breakdown, light.costs, heavy.breakdown, heavy.costs);
    VerdictMeaning(light, ample);
    VerdictMeaning(heavy, tight);
  }

  // ----- queue records -----

  datatype QueueMetadata = QueueMetadata(
    sessionId: Option<string>, admittedAt: Option<string>, expiresAt: Option<string>,
    priority: Option<int>, status: Option<string>)

  datatype QueueEntry = QueueEntry(
    requestId: string, sessionId: string, modelName: string, requiredTokens: int, requiredVram: int,
    admittedAt: string, expiresAt: string, priority: int, status: string)

  /** The queue record of a queueable verdict, already in the shape of a queue entry. */
  function BuildQueueEntryRequest(verdict: Verdict, estimate: Estimate, metadata: QueueMetadata): Result<QueueEntry> {
    if !verdict.queueable then ValueError
    else if estimate.requestId != verdict.requestId then ValueError
    else if metadata.sessionId.None? || metadata.admittedAt.None? || metadata.expiresAt.None? then ValueError
    else Ok(QueueEntry(
      verdict.requestId, metadata.sessionId.value, verdict.modelName, verdict.requiredTokens, verdict.requiredVram,
      metadata.admittedAt.value, metadata.expiresAt.value, metadata.priority.GetOr(0), metadata.status.GetOr("queued")))
  }

  /** A record is built exactly for a queueable verdict on its own estimate with the
      session and both timestamps present, and carries each of them in its place. */
  lemma QueueRecordExact(verdict: Verdict, estimate: Estimate, metadata: QueueMetadata)
    ensures var record := BuildQueueEntryRequest(verdict, estimate, metadata);
            && (record.Ok? <==>
                  && verdict.queueable && verdict.requestId == estimate.requestId
                  && metadata.sessionId.Some? && metadata.admittedAt.Some? && metadata.expiresAt.Some?)
            && (record.Ok? ==>
                  var e := record.value;
                  && e.requestId == verdict.requestId && e.modelName == verdict.modelName
                  && e.requiredTokens == verdict.requiredTokens && e.requiredVram == verdict.requiredVram
                  && Some(e.sessionId) == metadata.sessionId
                  && Some(e.admittedAt) == metadata.admittedAt && Some(e.expiresAt) == metadata.expiresAt
                  && (metadata.priority.Some? ==> e.priority == metadata.priority.value)
                  && (metadata.priority.None? ==> e.priority == 0)
                  && (metadata.status.Some? ==> e.status == metadata.status.value)
                  && (metadata.status.None? ==> e.status == "queued"))
  {}
}
