/** Preflight sizing of a request (lmrs/estimation.py). */
module Estimation {
  import opened Outcomes

  datatype TokenBreakdown = TokenBreakdown(
    inputTokens: int, toolTokens: int, serviceTokens: int, reservedOutputTokens: int)

  datatype Costs = Costs(kvBytesPerToken: int, perRequestOverhead: int, batchOverhead: int)

  datatype Estimate = Estimate(
    requestId: string, modelName: string, breakdown: TokenBreakdown,
    requiredTokens: int, requiredVram: int, usableVram: int, declaredContextWindow: int, costs: Costs)

  function CalculateRequiredTokens(b: TokenBreakdown): Result<int> {
    if b.inputTokens < 0 then ValueError
    else if b.toolTokens < 0 then ValueError
    else if b.serviceTokens < 0 then ValueError
    else if b.reservedOutputTokens < 0 then ValueError
    else Ok(b.inputTokens + b.toolTokens + b.serviceTokens + b.reservedOutputTokens)
  }

  function CalculateDynamicVramRequirement(requiredTokens: int, costs: Costs): Result<int> {
    if requiredTokens < 0 then ValueError
    else if costs.kvBytesPerToken < 0 then ValueError
    else if costs.perRequestOverhead < 0 then ValueError
    else if costs.batchOverhead < 0 then ValueError
    else Ok(requiredTokens * costs.kvBytesPerToken + costs.perRequestOverhead + costs.batchOverhead)
  }

  function EstimateRequestCapacity(requestId: string, modelName: string, breakdown: TokenBreakdown,
                                   declaredContextWindow: int, usableVram: int, costs: Costs): Result<Estimate>
  {
    match CalculateRequiredTokens(breakdown)
    case ValueError => ValueError
    case Ok(tokens) =>
      match CalculateDynamicVramRequirement(tokens, costs)
      case ValueError => ValueError
      case Ok(vram) =>
        Ok(Estimate(requestId, modelName, breakdown, tokens, vram, usableVram, declaredContextWindow, costs))
  }

  /** The requirement is the sum of the four token counts, and then of one KV cost
      for each of them and the two overheads; it exists exactly when nothing is negative. */
  lemma RequirementExact(b: TokenBreakdown, c: Costs)
    ensures var tokens := CalculateRequiredTokens(b);
            && (tokens.Ok? <==> b.inputTokens >= 0 && b.toolTokens >= 0 && b.serviceTokens >= 0 && b.reservedOutputTokens >= 0)
            && (tokens.Ok? ==>
                  && tokens.value == b.inputTokens + b.toolTokens + b.serviceTokens + b.reservedOutputTokens
                  && var vram := CalculateDynamicVramRequirement(tokens.value, c);
                     && (vram.Ok? <==> c.kvBytesPerToken >= 0 && c.perRequestOverhead >= 0 && c.batchOverhead >= 0)
                     && (vram.Ok? ==>
                           vram.value == b.inputTokens * c.kvBytesPerToken + b.toolTokens * c.kvBytesPerToken
                                         + b.serviceTokens * c.kvBytesPerToken + b.reservedOutputTokens * c.kvBytesPerToken
                                         + c.perRequestOverhead + c.batchOverhead))
  {
    var k := c.kvBytesPerToken;
    assert (b.inputTokens + b.toolTokens + b.serviceTokens + b.reservedOutputTokens) * k
        == b.inputTokens * k + b.toolTokens * k + b.serviceTokens * k + b.reservedOutputTokens * k;
  }

  lemma ProductMonotone(a: int, b: int, c: int, d: int)
    requires 0 <= a <= c && 0 <= b <= d
    ensures 0 <= a * b <= c * d
  {
    assert a * b <= c * b by { assert (c - a) * b >= 0; }
    assert c * b <= c * d by { assert c * (d - b) >= 0; }
  }

  /** A request that needs no less of anything needs no less memory. */
  lemma RequirementMonotone(b: TokenBreakdown, c: Costs, b': TokenBreakdown, c': Costs)
    requires NoLighter(b, c, b', c')
    requires CalculateRequiredTokens(b).Ok? && CalculateRequiredTokens(b').Ok?
    requires CalculateDynamicVramRequirement(CalculateRequiredTokens(b).value, c).Ok?
    requires CalculateDynamicVramRequirement(CalculateRequiredTokens(b').value, c').Ok?
    ensures CalculateRequiredTokens(b).value <= CalculateRequiredTokens(b').value
    ensures CalculateDynamicVramRequirement(CalculateRequiredTokens(b).value, c).value
         <= CalculateDynamicVramRequirement(CalculateRequiredTokens(b').value, c').value
  {
    ProductMonotone(CalculateRequiredTokens(b).value, c.kvBytesPerToken,
                    CalculateRequiredTokens(b').value, c'.kvBytesPerToken);
  }

  predicate NoLighter(b: TokenBreakdown, c: Costs, b': TokenBreakdown, c': Costs) {
    && b.inputTokens <= b'.inputTokens
    && b.toolTokens <= b'.toolTokens
    && b.serviceTokens <= b'.serviceTokens
    && b.reservedOutputTokens <= b'.reservedOutputTokens
    && c.kvBytesPerToken <= c'.kvBytesPerToken
    && c.perRequestOverhead <= c'.perRequestOverhead
    && c.batchOverhead <= c'.batchOverhead
  }
}
