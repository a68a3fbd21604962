/**
 Deciding one request against the shared table, while other workers use it too.
 */
module Service {
  import opened Text
  import opened Decision
  import opened Repository

  /** Answers of the decision service: a response, or the 409 of a request id reused for another body. */
  datatype Answer = Answered(response: Response) | IdempotencyConflict

  class DecisionService {
    const repository: DynamoRepository
    const config: Config

    constructor (repository: DynamoRepository, config: Config)
      ensures this.repository == repository && this.config == config
    {
      this.repository, this.config := repository, config;
    }

    /**
     Decides a request once. `world` is what the providers answer, and `meanwhile` is what other
     workers write between this worker's read and its save.
     */
    method Decide(requestId: string, candidateId: string, bodyHash: string, world: World,
            meanwhile: Table) returns (answer: Answer)
      requires repository.Valid() && Typed(meanwhile)
      modifies repository
      ensures repository.Valid()
      ensures forall key :: key in old(repository.items) ==>
        key in repository.items && repository.items[key] == old(repository.items)[key]
      ensures var row := StoredDecision(repository.items, requestId);
        && row.Some?
        && (answer.Answered? ==> row.value == (bodyHash, answer.response))
        && (answer.IdempotencyConflict? <==> row.value.0 != bodyHash)
      ensures var earlier := StoredDecision(old(repository.items), requestId);
        var other := StoredDecision(meanwhile, requestId);
        StoredDecision(repository.items, requestId)
        == if earlier.Some? then earlier
           else if other.Some? then other
           else Some((bodyHash, Evaluate(config, requestId, world)))
      ensures StoredDecision(old(repository.items), requestId).None? && StoredDecision(meanwhile, requestId).None? ==>
        var r := Evaluate(config, requestId, world);
        && DecisionKey(requestId) in repository.items
        && repository.items[DecisionKey(requestId)]
          == DecisionItem(bodyHash, r, r.expiresAt + 86_400, AuditOf(config, candidateId, r.llm))
      ensures StoredDecision(old(repository.items), requestId).None? && StoredDecision(meanwhile, requestId).None? ==>
        var item := repository.items[DecisionKey(requestId)];
        && answer == Answered(item.response)
        && Describes(config, requestId, world, item.response)
        && AuditDescribes(config, candidateId, world, item.audit)
    {
      EvaluationDescribes(config, requestId, candidateId, world);
      hide Typed, OrderedTimes, TimeRemains, DecisionKey, EventKey, NonceKey, Describes, AuditDescribes;
      var existing := repository.GetDecision(requestId);
      if existing.Some? {
        return if existing.value.0 != bodyHash then IdempotencyConflict else Answered(existing.value.1);
      }
      var ml, llm := MlError(""), NotCalled;
      var reasonCode;
      var finalDecision := VETO;
      var audit := Audit(candidateId, None, None, None);
      if world.prediction.Returned? && GoodPrediction(world.prediction.value) {
        var p := world.prediction.value;
        var passed := p.winProbability.n.v >= config.minWinProbability
          && p.expectedReturn.n.v >= config.minExpectedReturn;
        if passed {
          ml, reasonCode := Passed(p.winProbability.n.v, p.expectedReturn.n.v, p.modelVersion.s), ML_PASSED;
        } else {
          ml, reasonCode := Rejected(p.winProbability.n.v, p.expectedReturn.n.v, p.modelVersion.s),
            ML_THRESHOLD_NOT_MET;
        }
      } else {
        ml, reasonCode := MlError(FallbackVersion(world.modelVersion)), ML_INFERENCE_ERROR;
      }
      if ml.Passed? {
        if TimeRemains(config, world.remaining) && world.llm.Returned? && GoodLlm(config, world.llm.value) {
          var d := world.llm.value;
          var said := if d.decision == Str("ALLOW") then ALLOW else VETO;
          llm := Said(said, d.provider.s, d.model.s, d.promptVersion.s, d.confidence.n.v, d.reason.s);
          finalDecision := said;
          reasonCode := if finalDecision == ALLOW then APPROVED else LLM_VETO;
          if config.shadowMode && said == VETO {
            finalDecision, reasonCode := ALLOW, LLM_SHADOW_VETO_RECORDED;
          }
          audit := audit.(llmDecision := Some(VerdictText(said)), shadowMode := Some(config.shadowMode),
            applied := Some(!config.shadowMode));
        } else {
          llm, reasonCode := LlmError, LLM_INFERENCE_ERROR;
          audit := audit.(llmDecision := Some("ERROR"));
        }
      }
      var expires := world.createdAt + config.responseTtlSeconds;
      var response := Response(requestId, finalDecision, reasonCode, ml, llm, world.createdAt, expires);
      repository.OthersWrite(meanwhile);
      var saved := repository.SaveDecision(requestId, bodyHash, response, expires + 86_400, audit);
      if !saved {
        existing := repository.GetDecision(requestId);
        return if existing.None? || existing.value.0 != bodyHash then IdempotencyConflict
          else Answered(existing.value.1);
      }
      answer := Answered(response);
    }
  }
}
