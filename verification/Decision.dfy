/** The trade decision: a prediction must pass before a language model is asked for a veto. */
module Decision {
  import opened Floats
  import opened Text

  /** A field of a provider's answer, which may hold anything; anything unexpected is a veto. */
  datatype Value = Str(s: string) | Number(n: Num) | Opaque

  datatype Prediction = Prediction(winProbability: Value, expectedReturn: Value, modelVersion: Value)

  datatype LlmDecision = LlmDecision(
    decision: Value, confidence: Value, provider: Value, model: Value, promptVersion: Value, reason: Value,
    requestTime: Value, responseTime: Value
  )

  /** A call that returns or raises. */
  datatype Call<T> = Returned(value: T) | Raises

  /** What the providers and clocks do while one request is evaluated. */
  datatype World = World(
    prediction: Call<Prediction>,
    modelVersion: Call<Value>,
    remaining: Option<Call<Num>>,
    llm: Call<LlmDecision>,
    createdAt: int
  )

  /** `parseTime` reads an ISO 8601 time. */
  datatype Config = Config(
    minWinProbability: real,
    minExpectedReturn: real,
    responseTtlSeconds: int,
    shadowMode: bool,
    llmMinRemainingSeconds: real,
    parseTime: string -> Option<int>
  )

  datatype Verdict = ALLOW | VETO

  datatype ReasonCode =
    | ML_PASSED
    | ML_THRESHOLD_NOT_MET
    | ML_INFERENCE_ERROR
    | APPROVED
    | LLM_VETO
    | LLM_SHADOW_VETO_RECORDED
    | LLM_INFERENCE_ERROR

  datatype MlResult =
    | Passed(winProbability: real, expectedReturn: real, modelVersion: string)
    | Rejected(winProbability: real, expectedReturn: real, modelVersion: string)
    | MlError(modelVersion: string)

  datatype LlmResult =
    | NotCalled
    | Said(verdict: Verdict, provider: string, model: string, promptVersion: string, confidence: real, reason: string)
    | LlmError

  datatype Response = Response(
    requestId: string, verdict: Verdict, reasonCode: ReasonCode, ml: MlResult, llm: LlmResult, createdAt: int,
      expiresAt: int
  )

  /** The part of the audit record that says what the language model answered and whether it counted. */
  datatype Audit = Audit(candidateId: string, llmDecision: Option<string>, shadowMode: Option<bool>,
      applied: Option<bool>)

  // ---------- well-formed answers ----------

  predicate IsIdentifier(v: Value, limit: nat) {
    v.Str? && 1 <= |v.s| <= limit && forall i :: 0 <= i < |v.s| ==> IsIdChar(v.s[i])
  }

  predicate IsProbability(v: Value) {
    v.Number? && v.n.Finite? && 0.0 <= v.n.v <= 1.0
  }

  predicate IsFinite(v: Value) {
    v.Number? && v.n.Finite?
  }

  predicate GoodPrediction(p: Prediction) {
    IsProbability(p.winProbability) && IsFinite(p.expectedReturn) && IsIdentifier(p.modelVersion, 64)
  }

  predicate IsReason(v: Value) {
    v.Str? && 1 <= |v.s| <= 512 && forall i :: 0 <= i < |v.s| ==> v.s[i] as int >= 32
  }

  predicate EndsInZ(s: string) {
    s != "" && s[|s| - 1] == 'Z'
  }

  predicate OrderedTimes(config: Config, from: Value, to: Value) {
    && from.Str? && to.Str? && EndsInZ(from.s) && EndsInZ(to.s)
    && config.parseTime(from.s).Some? && config.parseTime(to.s).Some?
    && config.parseTime(from.s).value <= config.parseTime(to.s).value
  }

  predicate GoodLlm(config: Config, d: LlmDecision) {
    && (d.decision == Str("ALLOW") || d.decision == Str("VETO"))
    && IsProbability(d.confidence)
    && IsIdentifier(d.provider, 32) && IsIdentifier(d.model, 64) && IsIdentifier(d.promptVersion, 32)
    && IsReason(d.reason)
    && OrderedTimes(config, d.requestTime, d.responseTime)
  }

  /** A float is at least a bound; NaN never is. */
  predicate AtLeast(n: Num, bound: real) {
    match n
    case Finite(v) => v >= bound
    case Infinite(positive) => positive
    case NaN => false
  }

  /** Enough time remains for the call. Without a clock it always does; a clock that raises is a fault. */
  predicate TimeRemains(config: Config, remaining: Option<Call<Num>>) {
    remaining.Some? ==> remaining.value.Returned? && AtLeast(remaining.value.value, config.llmMinRemainingSeconds)
  }

  /** A text of the letters, digits and marks that names are made of. */
  ghost predicate IdText(s: string, limit: nat) {
    1 <= |s| <= limit
    && forall c :: c in s ==> 'A' <= c <= 'Z' || 'a' <= c <= 'z' || '0' <= c <= '9' || c == '.' || c == '_' || c == '-'
  }

  lemma IdentifierMeans(v: Value, limit: nat)
    ensures IsIdentifier(v, limit) <==> exists s :: v == Str(s) && IdText(s, limit)
  {
    if v.Str? {
      assert v == Str(v.s);
      assert forall i :: 0 <= i < |v.s| ==> v.s[i] in v.s;
    }
  }

  /** The predictions that count: a share between 0 and 1, a number and a name, and every such one. */
  lemma GoodPredictionMeans(p: Prediction)
    ensures GoodPrediction(p)
      <==> exists win: real, ret: real, version ::
             p == Prediction(Number(Finite(win)), Number(Finite(ret)), Str(version))
             && 0.0 <= win <= 1.0 && IdText(version, 64)
  {
    IdentifierMeans(p.modelVersion, 64);
    hide IsIdentifier, IdText;
    if GoodPrediction(p) {
      var win, ret, version := p.winProbability.n.v, p.expectedReturn.n.v, p.modelVersion.s;
      assert p == Prediction(Number(Finite(win)), Number(Finite(ret)), Str(version));
    }
  }

  /** The answers of the language model that count. */
  lemma GoodLlmMeans(config: Config, d: LlmDecision)
    ensures GoodLlm(config, d) <==>
      && (d.decision == Str("ALLOW") || d.decision == Str("VETO"))
      && (exists confidence: real :: d.confidence == Number(Finite(confidence)) && 0.0 <= confidence <= 1.0)
      && (exists s :: d.provider == Str(s) && IdText(s, 32))
      && (exists s :: d.model == Str(s) && IdText(s, 64))
      && (exists s :: d.promptVersion == Str(s) && IdText(s, 32))
      && (exists s :: d.reason == Str(s) && 1 <= |s| <= 512 && forall c :: c in s ==> ' ' <= c)
      && (exists a, b :: TimesAre(config, d, a, b) && a <= b)
  {
    IdentifierMeans(d.provider, 32);
    IdentifierMeans(d.model, 64);
    IdentifierMeans(d.promptVersion, 32);
    ReasonMeans(d.reason);
    TimesMean(config, d);
    hide IsIdentifier, IdText, IsReason, OrderedTimes, TimesAre;
    if IsProbability(d.confidence) {
      assert d.confidence == Number(Finite(d.confidence.n.v));
    }
  }

  /** The call was made at `a` and answered at `b`, both written in UTC. */
  ghost predicate TimesAre(config: Config, d: LlmDecision, a: int, b: int) {
    exists s, t :: d.requestTime == Str(s + "Z") && d.responseTime == Str(t + "Z")
      && config.parseTime(s + "Z") == Some(a) && config.parseTime(t + "Z") == Some(b)
  }

  lemma TimesMean(config: Config, d: LlmDecision)
    ensures OrderedTimes(config, d.requestTime, d.responseTime) <==> exists a, b :: TimesAre(config, d, a, b) && a <= b
  {
    if OrderedTimes(config, d.requestTime, d.responseTime) {
      var s, t := d.requestTime.s, d.responseTime.s;
      assert s == s[..|s| - 1] + "Z" && t == t[..|t| - 1] + "Z";
      assert TimesAre(config, d, config.parseTime(s).value, config.parseTime(t).value);
    }
  }

  lemma ReasonMeans(v: Value)
    ensures IsReason(v) <==> exists s :: v == Str(s) && 1 <= |s| <= 512 && forall c :: c in s ==> ' ' <= c
  {
    if v.Str? {
      assert v == Str(v.s);
      assert forall i :: 0 <= i < |v.s| ==> v.s[i] in v.s;
    }
  }

  /** The language model is asked exactly without a deadline, or with enough time left; NaN never is enough. */
  lemma TimeRemainsMeans(config: Config, remaining: Option<Call<Num>>)
    ensures TimeRemains(config, remaining) <==>
      || remaining == None
      || remaining == Some(Returned(Infinite(true)))
      || exists left: real :: remaining == Some(Returned(Finite(left))) && left >= config.llmMinRemainingSeconds
  {
    if TimeRemains(config, remaining) && remaining.Some? && remaining.value.value.Finite? {
      assert remaining == Some(Returned(Finite(remaining.value.value.v)));
    }
  }

  // ---------- what an approval requires ----------

  ghost predicate MlApproves(config: Config, w: World) {
    && w.prediction.Returned? && GoodPrediction(w.prediction.value)
    && w.prediction.value.winProbability.n.v >= config.minWinProbability
    && w.prediction.value.expectedReturn.n.v >= config.minExpectedReturn
  }

  ghost predicate LlmAnswers(config: Config, w: World) {
    TimeRemains(config, w.remaining) && w.llm.Returned? && GoodLlm(config, w.llm.value)
  }

  ghost predicate LlmApproves(config: Config, w: World) {
    LlmAnswers(config, w) && (w.llm.value.decision == Str("ALLOW") || config.shadowMode)
  }

  // ---------- the evaluation as a function ----------

  function FallbackVersion(v: Call<Value>): string {
    match v
    case Returned(value) => if IsIdentifier(value, 64) then value.s else "invalid-model"
    case Raises => "unavailable"
  }

  function EvaluateMl(config: Config, w: World): MlResult {
    if w.prediction.Raises? || !GoodPrediction(w.prediction.value) then MlError(FallbackVersion(w.modelVersion))
    else
      var p := w.prediction.value;
      var win, ret, version := p.winProbability.n.v, p.expectedReturn.n.v, p.modelVersion.s;
      if win >= config.minWinProbability && ret >= config.minExpectedReturn then Passed(win, ret, version)
      else Rejected(win, ret, version)
  }

  function EvaluateLlm(config: Config, w: World): LlmResult {
    if !TimeRemains(config, w.remaining) || w.llm.Raises? || !GoodLlm(config, w.llm.value) then LlmError
    else
      var d := w.llm.value;
      var verdict := if d.decision == Str("ALLOW") then ALLOW else VETO;
      Said(verdict, d.provider.s, d.model.s, d.promptVersion.s, d.confidence.n.v, d.reason.s)
  }

  function Outcome(config: Config, ml: MlResult, llm: LlmResult): (Verdict, ReasonCode) {
    match (ml, llm)
    case (MlError(_), _) => (VETO, ML_INFERENCE_ERROR)
    case (Rejected(_, _, _), _) => (VETO, ML_THRESHOLD_NOT_MET)
    case (Passed(_, _, _), NotCalled) => (VETO, ML_PASSED)
    case (Passed(_, _, _), LlmError) => (VETO, LLM_INFERENCE_ERROR)
    case (Passed(_, _, _), Said(verdict, _, _, _, _, _)) =>
      if verdict == ALLOW then (ALLOW, APPROVED)
      else if config.shadowMode then (ALLOW, LLM_SHADOW_VETO_RECORDED)
      else (VETO, LLM_VETO)
  }

  function VerdictText(v: Verdict): string {
    if v == ALLOW then "ALLOW" else "VETO"
  }

  function AuditOf(config: Config, candidateId: string, llm: LlmResult): Audit {
    match llm
    case NotCalled => Audit(candidateId, None, None, None)
    case LlmError => Audit(candidateId, Some("ERROR"), None, None)
    case Said(verdict, _, _, _, _, _) =>
      Audit(candidateId, Some(VerdictText(verdict)), Some(config.shadowMode), Some(!config.shadowMode))
  }

  function Evaluate(config: Config, requestId: string, w: World): Response {
    var ml := EvaluateMl(config, w);
    var llm := if ml.Passed? then EvaluateLlm(config, w) else NotCalled;
    var (verdict, code) := Outcome(config, ml, llm);
    Response(requestId, verdict, code, ml, llm, w.createdAt, w.createdAt + config.responseTtlSeconds)
  }

  /**
   A decision is ALLOW exactly when the prediction is well-formed and meets both thresholds, time
   remains, and the language model's answer is well-formed and either allows the trade or vetoes
   it in shadow mode.
   */
  lemma AllowMeans(config: Config, requestId: string, w: World)
    ensures Evaluate(config, requestId, w).verdict == ALLOW <==> MlApproves(config, w) && LlmApproves(config, w)
    ensures Evaluate(config, requestId, w).reasonCode == LLM_SHADOW_VETO_RECORDED
       <==> MlApproves(config, w) && LlmAnswers(config, w) && w.llm.value.decision == Str("VETO") && config.shadowMode
  {
    hide GoodPrediction, OrderedTimes, IsIdentifier, IsReason, IsProbability, TimeRemains;
  }

  /** A fault of either provider is a veto, whatever the other one says and whatever the mode. */
  lemma FaultsVeto(config: Config, requestId: string, w: World)
    ensures w.prediction.Raises? || !GoodPrediction(w.prediction.value) ==>
      Evaluate(config, requestId, w).verdict == VETO && Evaluate(config, requestId, w).llm == NotCalled
    ensures w.llm.Raises? || !GoodLlm(config, w.llm.value) || !TimeRemains(config, w.remaining) ==>
      Evaluate(config, requestId, w).verdict == VETO
  {
    hide GoodPrediction, GoodLlm, TimeRemains;
  }

  // ---------- what a response says ----------

  ghost predicate MlFails(w: World) {
    w.prediction.Raises? || !GoodPrediction(w.prediction.value)
  }

  ghost predicate LlmAllows(config: Config, w: World) {
    LlmAnswers(config, w) && w.llm.value.decision == Str("ALLOW")
  }

  ghost predicate LlmVetoes(config: Config, w: World) {
    LlmAnswers(config, w) && w.llm.value.decision == Str("VETO")
  }

  /** The version reported with an error: the provider's own, if it is an identifier. */
  ghost predicate FallsBackTo(v: Call<Value>, version: string) {
    && (v.Raises? ==> version == "unavailable")
    && (v.Returned? && IsIdentifier(v.value, 64) ==> v.value == Str(version))
    && (v.Returned? && !IsIdentifier(v.value, 64) ==> version == "invalid-model")
  }

  /** The model's part of a response against what the model said. */
  ghost predicate MlDescribes(config: Config, w: World, ml: MlResult) {
    && (ml.Passed? <==> MlApproves(config, w))
    && (ml.Rejected? <==> !MlFails(w) && !MlApproves(config, w))
    && (ml.MlError? <==> MlFails(w))
    && (ml.MlError? ==> FallsBackTo(w.modelVersion, ml.modelVersion))
    && (!ml.MlError? && w.prediction.Returned? ==>
         w.prediction.value
         == Prediction(Number(Finite(ml.winProbability)), Number(Finite(ml.expectedReturn)), Str(ml.modelVersion)))
  }

  /** The language model's part of a response against what the language model said. */
  ghost predicate LlmDescribes(config: Config, w: World, llm: LlmResult) {
    && (llm.NotCalled? <==> !MlApproves(config, w))
    && (llm.LlmError? <==> MlApproves(config, w) && !LlmAnswers(config, w))
    && (llm.Said? <==> MlApproves(config, w) && LlmAnswers(config, w))
    && (llm.Said? && w.llm.Returned? ==>
         var d := w.llm.value;
         && (llm.verdict == ALLOW <==> d.decision == Str("ALLOW"))
         && (llm.verdict == VETO <==> d.decision == Str("VETO"))
         && d.provider == Str(llm.provider) && d.model == Str(llm.model) && d.promptVersion == Str(llm.promptVersion)
         && d.confidence == Number(Finite(llm.confidence)) && d.reason == Str(llm.reason))
  }

  /** Each reason is given exactly under its condition, and the verdict allows exactly for two of them. */
  ghost predicate ReasonDescribes(config: Config, w: World, verdict: Verdict, reason: ReasonCode) {
    && (reason == ML_INFERENCE_ERROR <==> MlFails(w))
    && (reason == ML_THRESHOLD_NOT_MET <==> !MlFails(w) && !MlApproves(config, w))
    && (reason == LLM_INFERENCE_ERROR <==> MlApproves(config, w) && !LlmAnswers(config, w))
    && (reason == APPROVED <==> MlApproves(config, w) && LlmAllows(config, w))
    && (reason == LLM_SHADOW_VETO_RECORDED <==> MlApproves(config, w) && LlmVetoes(config, w) && config.shadowMode)
    && (reason == LLM_VETO <==> MlApproves(config, w) && LlmVetoes(config, w) && !config.shadowMode)
    && reason != ML_PASSED
    && (verdict == ALLOW <==> reason == APPROVED || reason == LLM_SHADOW_VETO_RECORDED)
  }

  /** A response reports what the providers said, and nothing else. */
  ghost predicate Describes(config: Config, requestId: string, w: World, r: Response) {
    && r.requestId == requestId
    && r.createdAt == w.createdAt
    && r.expiresAt - r.createdAt == config.responseTtlSeconds
    && MlDescribes(config, w, r.ml)
    && LlmDescribes(config, w, r.llm)
    && ReasonDescribes(config, w, r.verdict, r.reasonCode)
  }

  /** The audit record names what the language model answered, and the mode only if its answer could be used. */
  ghost predicate AuditDescribes(config: Config, candidateId: string, w: World, audit: Audit) {
    && audit.candidateId == candidateId
    && (audit.llmDecision == None <==> !MlApproves(config, w))
    && (audit.llmDecision == Some("ERROR") <==> MlApproves(config, w) && !LlmAnswers(config, w))
    && (audit.llmDecision == Some("ALLOW") <==> MlApproves(config, w) && LlmAllows(config, w))
    && (audit.llmDecision == Some("VETO") <==> MlApproves(config, w) && LlmVetoes(config, w))
    && audit.shadowMode
       == (if MlApproves(config, w) && LlmAnswers(config, w) then Some(config.shadowMode) else None)
    && audit.applied
       == (if MlApproves(config, w) && LlmAnswers(config, w) then Some(!config.shadowMode) else None)
  }

  /** Whatever the providers do, the evaluation and its audit record describe it. */
  lemma EvaluationDescribes(config: Config, requestId: string, candidateId: string, w: World)
    ensures Describes(config, requestId, w, Evaluate(config, requestId, w))
    ensures AuditDescribes(config, candidateId, w, AuditOf(config, candidateId, Evaluate(config, requestId, w).llm))
  {
    hide OrderedTimes, TimeRemains;
    assert "ERROR"[0] == 'E' && "ALLOW"[0] == 'A' && "VETO"[0] == 'V';
  }
}
