/** Previewing an action plan and validating it before execution (app/kernel/action_plan.py, with the
    plan's own validator in app/domain/decision.py). */
module ActionPlan {
  import opened Basics
  import opened Slugs
  import opened Domain

  // ---------------------------------------------------------------------------------------------
  // Data
  // ---------------------------------------------------------------------------------------------

  datatype Value = Null | Flag(flag: bool) | Number(number: int) | Str(text: string) | List(items: seq<Value>)
                 | Object(fields: map<string, Value>)

  datatype PolicyStatus = Enabled | DisabledByPolicy | DisabledByReadiness | PolicyBlocked

  datatype CandidateStatus = Recommended | Available | OffByPolicy | OffByReadiness | CandidateBlocked

  datatype MethodCandidate = MethodCandidate(methodId: string, status: CandidateStatus, policyStatus: PolicyStatus)

  datatype BlockedMethod = BlockedMethod(methodId: string, reasonCode: string)

  datatype RecommendedMethod = RecommendedMethod(methodId: string, pluginId: string, requiresApproval: bool)

  datatype MethodRecommendation = MethodRecommendation(
    id: string, issueId: string, actionType: string, policyVersion: string, target: map<string, Value>,
    recommended: RecommendedMethod, candidates: seq<MethodCandidate>, blocked: seq<BlockedMethod>,
    expectedOutputs: seq<string>, modelImpactRequired: bool)

  datatype RetryPolicy = RetryPolicy(maxAttempts: nat, retryableErrors: seq<string>)

  datatype Step = Step(
    id: string, kind: string, dependsOn: seq<string>, idempotencyKey: string, methodId: string, pluginId: string,
    pluginVersion: string, configHash: string, policyVersion: string, validationGates: seq<string>,
    preconditions: seq<string>, inputArtifacts: seq<string>, outputArtifactKind: string,
    config: map<string, Value>, randomSeed: Option<int>, retryPolicy: RetryPolicy, onFailure: string,
    promotionScope: string)

  datatype Plan = Plan(
    id: string, schema: string, source: string, targetName: string, report: string, selectedIds: seq<string>,
    createdBy: string, policyVersion: string, requiresApproval: bool, approvalRequestId: Option<string>,
    mode: WorkflowType, steps: seq<Step>, validationGates: seq<string>, expectedOutputs: seq<string>, createdAt: int)

  datatype PreviewRequest = PreviewRequest(
    report: string, source: string, selectedIds: seq<string>, overrides: map<string, string>,
    recommendations: seq<MethodRecommendation>, createdBy: string, inputArtifacts: seq<string>,
    targetName: Option<string>, createdAt: Option<int>)

  datatype ApprovalMetadata = ApprovalMetadata(requestId: string, planId: string, planHash: string, report: string, source: string)

  /** What is hashed.  A hash is a function of one of these; the JSON encoding between the two is
      taken to lose nothing. */
  datatype Payload =
    | OfConfig(actionType: string, config: map<string, Value>, methodId: string, recommendationId: string)
    | OfStep(configHash: string, dependsOn: seq<string>, stepId: string)
    | OfRequest(report: string, selectedIds: seq<string>, overrides: map<string, string>, source: string)
    | OfPlan(plan: Plan)

  type Hash = Payload -> string

  datatype PreviewError =
    | DuplicateRecommendationId
    | SelectedDecisionNotFound(id: string)
    | MethodBlocked(reasonCode: string)
    | MethodCandidateNotFound(recommendation: string, methodId: string)
    | MethodNotSelectable(recommendation: string, methodId: string)
    | InvalidPlan

  // ---------------------------------------------------------------------------------------------
  // Choosing a candidate
  // ---------------------------------------------------------------------------------------------

  /** Looking an id up in a dict built from a list: of equal ids the last one wins. */
  function LastWith<T>(items: seq<T>, key: T -> string, id: string): Option<T> {
    if items == [] then None
    else if key(items[|items| - 1]) == id then Some(items[|items| - 1])
    else LastWith(items[..|items| - 1], key, id)
  }

  lemma {:induction false} LastWithIs<T>(items: seq<T>, key: T -> string, id: string)
    ensures LastWith(items, key, id).None? <==> forall i | 0 <= i < |items| :: key(items[i]) != id
    ensures LastWith(items, key, id).Some? ==>
              exists i | 0 <= i < |items| ::
                && LastWith(items, key, id).value == items[i] && key(items[i]) == id
                && forall j | i < j < |items| :: key(items[j]) != id
  {
    if items != [] && key(items[|items| - 1]) != id {
      var front := items[..|items| - 1];
      LastWithIs(front, key, id);
      if LastWith(front, key, id).Some? {
        var i :| 0 <= i < |front| && LastWith(front, key, id).value == front[i] && key(front[i]) == id
                 && forall j | i < j < |front| :: key(front[j]) != id;
        assert items[i] == front[i] && forall j | i < j < |front| :: items[j] == front[j];
      }
    }
  }

  function RecommendationId(r: MethodRecommendation): string { r.id }

  function CandidateId(c: MethodCandidate): string { c.methodId }

  function BlockedId(b: BlockedMethod): string { b.methodId }

  function SelectCandidate(rec: MethodRecommendation, methodId: string): Result<MethodCandidate, PreviewError> {
    var blocked := LastWith(rec.blocked, BlockedId, methodId);
    if blocked.Some? then Err(MethodBlocked(blocked.value.reasonCode))
    else
      var candidate := LastWith(rec.candidates, CandidateId, methodId);
      if candidate.None? then Err(MethodCandidateNotFound(rec.id, methodId))
      else if !(candidate.value.status.Recommended? || candidate.value.status.Available?) || !candidate.value.policyStatus.Enabled? then
        Err(MethodNotSelectable(rec.id, methodId))
      else Ok(candidate.value)
  }

  /** Candidate i is the one that counts for a method: of equal ids the last. */
  ghost predicate LastCandidate(rec: MethodRecommendation, methodId: string, i: int) {
    && 0 <= i < |rec.candidates| && rec.candidates[i].methodId == methodId
    && forall j | i < j < |rec.candidates| :: rec.candidates[j].methodId != methodId
  }

  /** A method may be selected: not blocked, recommended or available, and enabled by policy. */
  ghost predicate Selectable(rec: MethodRecommendation, methodId: string) {
    && (forall b | b in rec.blocked :: b.methodId != methodId)
    && exists i | LastCandidate(rec, methodId, i) ::
         (rec.candidates[i].status.Recommended? || rec.candidates[i].status.Available?) && rec.candidates[i].policyStatus.Enabled?
  }

  /** What is selected and what is refused, and with which reason: a blocked method with the reason of
      its last block, an unknown one as unknown, and any other as not selectable. */
  lemma SelectCandidateIff(rec: MethodRecommendation, methodId: string)
    ensures var r := SelectCandidate(rec, methodId);
            && (r.Ok? <==> Selectable(rec, methodId))
            && (r.Ok? ==> r.value.methodId == methodId && r.value in rec.candidates)
            && (r.Err? ==>
                  if exists b :: b in rec.blocked && b.methodId == methodId
                  then exists i | 0 <= i < |rec.blocked| ::
                         && rec.blocked[i].methodId == methodId && (forall j | i < j < |rec.blocked| :: rec.blocked[j].methodId != methodId)
                         && r.error == MethodBlocked(rec.blocked[i].reasonCode)
                  else if forall c | c in rec.candidates :: c.methodId != methodId then r.error == MethodCandidateNotFound(rec.id, methodId)
                  else r.error == MethodNotSelectable(rec.id, methodId))
  {
    LastWithIs(rec.blocked, BlockedId, methodId);
    LastWithIs(rec.candidates, CandidateId, methodId);
    var blocked, candidate := LastWith(rec.blocked, BlockedId, methodId), LastWith(rec.candidates, CandidateId, methodId);
    if blocked.Some? {
      var i :| 0 <= i < |rec.blocked| && blocked.value == rec.blocked[i] && rec.blocked[i].methodId == methodId
               && forall j | i < j < |rec.blocked| :: BlockedId(rec.blocked[j]) != methodId;
      assert rec.blocked[i] in rec.blocked && forall j | i < j < |rec.blocked| :: BlockedId(rec.blocked[j]) == rec.blocked[j].methodId;
    } else {
      assert forall i | 0 <= i < |rec.blocked| :: BlockedId(rec.blocked[i]) == rec.blocked[i].methodId;
      if candidate.Some? {
        var i :| 0 <= i < |rec.candidates| && candidate.value == rec.candidates[i] && CandidateId(rec.candidates[i]) == methodId
                 && forall j | i < j < |rec.candidates| :: CandidateId(rec.candidates[j]) != methodId;
        assert forall j | i < j < |rec.candidates| :: CandidateId(rec.candidates[j]) == rec.candidates[j].methodId;
        assert LastCandidate(rec, methodId, i);
        assert forall j | LastCandidate(rec, methodId, j) :: j == i;
      } else {
        assert forall i | 0 <= i < |rec.candidates| :: CandidateId(rec.candidates[i]) == rec.candidates[i].methodId;
      }
    }
  }

  /** The recommendation contract enforced where recommendations are built. */
  predicate WellFormed(rec: MethodRecommendation) {
    var candidate := LastWith(rec.candidates, CandidateId, rec.recommended.methodId);
    && candidate.Some? && candidate.value.status.Recommended?
    && forall i | 0 <= i < |rec.blocked| :: rec.blocked[i].methodId != rec.recommended.methodId
  }

  /** Without an override a well-formed recommendation can fail in one way only: its method is not
      enabled by policy. */
  lemma DefaultSelectionIff(rec: MethodRecommendation)
    requires WellFormed(rec)
    ensures var r := SelectCandidate(rec, rec.recommended.methodId);
            if LastWith(rec.candidates, CandidateId, rec.recommended.methodId).value.policyStatus.Enabled?
            then r.Ok? && r.value.methodId == rec.recommended.methodId
            else r == Err(MethodNotSelectable(rec.id, rec.recommended.methodId))
  {
    LastWithIs(rec.blocked, BlockedId, rec.recommended.methodId);
    LastWithIs(rec.candidates, CandidateId, rec.recommended.methodId);
  }

  // ---------------------------------------------------------------------------------------------
  // One step
  // ---------------------------------------------------------------------------------------------

  const IMPUTE := "IMPUTE_MISSING_VALUES"
  const AUGMENT := "AUGMENT_RARE_CLASS"
  const MODEL_IMPACT_GATE := "model_impact_check"
  const CANDIDATE_ONLY := "candidate_only"

  predicate IsSynthetic(methodId: string) {
    methodId in {"smote", "gaussian_copula", "borderline_smote", "adasyn", "ctgan"}
  }

  function Field(target: map<string, Value>, name: string, default: Value): Value {
    if name in target then target[name] else default
  }

  function StepConfig(rec: MethodRecommendation, methodId: string): map<string, Value> {
    if rec.actionType == IMPUTE then
      var config := map["column" := Field(rec.target, "column", Null), "method" := Str(methodId),
                        "add_missingness_indicator" := Flag(true)];
      if methodId == "group_median" then config["group_key" := Field(rec.target, "group_key", Str("customer_segment"))]
      else config
    else if rec.actionType == AUGMENT then
      map["target_column" := Field(rec.target, "target_column", Null),
          "rare_class_label" := Field(rec.target, "rare_class_label", Null),
          "method" := Str(methodId),
          "source_split" := if IsSynthetic(methodId) then Str("train") else Null]
    else map["method" := Str(methodId), "target" := Object(rec.target)]
  }

  function ValidationGates(rec: MethodRecommendation, methodId: string): seq<string> {
    if rec.actionType == AUGMENT then
      if IsSynthetic(methodId) then
        ["split_leakage_check", "schema_validation", "business_rules_check", "synthetic_quality_check", "privacy_check",
         MODEL_IMPACT_GATE]
      else ["schema_validation", "business_rules", MODEL_IMPACT_GATE]
    else
      ["schema_validation", "business_rules", "privacy_check"] + (if rec.modelImpactRequired then [MODEL_IMPACT_GATE] else [])
  }

  function Preconditions(rec: MethodRecommendation, methodId: string): seq<string> {
    ["source_version_is_immutable"]
    + (if rec.actionType == IMPUTE then ["target_column_not_used_for_imputation"] else [])
    + (if IsSynthetic(methodId) then ["train_split_exists", "leakage_checks_passed"] else [])
  }

  function StepId(rec: MethodRecommendation, methodId: string): string {
    Slug(rec.actionType + "_" + methodId + "_" + rec.issueId)
  }

  function ConfigHash(rec: MethodRecommendation, methodId: string, hash: Hash): string {
    hash(OfConfig(rec.actionType, StepConfig(rec, methodId), methodId, rec.id))
  }

  /** A step that lacks only its place in the chain and the key that depends on it. */
  function DraftStep(rec: MethodRecommendation, methodId: string, inputs: seq<string>, hash: Hash): Step {
    var classWeights := rec.actionType == AUGMENT && methodId == "class_weights";
    Step(
      StepId(rec, methodId), if classWeights then "CONFIGURE_CLASS_WEIGHTS" else rec.actionType, [], "", methodId,
      rec.recommended.pluginId, "0.1.0", ConfigHash(rec, methodId, hash), rec.policyVersion,
      ValidationGates(rec, methodId), Preconditions(rec, methodId), inputs,
      if classWeights then "TRAINING_STRATEGY_CONFIG" else "CANDIDATE_DATASET_VERSION",
      StepConfig(rec, methodId), if IsSynthetic(methodId) then Some(42) else None,
      RetryPolicy(2, ["TRANSIENT_STORAGE_ERROR", "DAGSTER_WORKER_RESTART"]),
      "fail_plan_keep_artifacts_unpromoted", CANDIDATE_ONLY)
  }

  function Linked(draft: Step, dependsOn: seq<string>, hash: Hash): Step {
    draft.(dependsOn := dependsOn, idempotencyKey := hash(OfStep(draft.configHash, dependsOn, draft.id)))
  }

  /** One selection: a recommendation, the method to apply for it, and the step they draft. */
  datatype Pick = Pick(rec: MethodRecommendation, methodId: string, draft: Step)

  // ---------------------------------------------------------------------------------------------
  // The plan as a whole, in closed form
  // ---------------------------------------------------------------------------------------------

  function Ids(recs: seq<MethodRecommendation>): seq<string> {
    seq(|recs|, i requires 0 <= i < |recs| => recs[i].id)
  }

  function StepIds(steps: seq<Step>): seq<string> {
    seq(|steps|, i requires 0 <= i < |steps| => steps[i].id)
  }

  function Find(req: PreviewRequest, k: nat): Option<MethodRecommendation>
    requires k < |req.selectedIds|
  {
    LastWith(req.recommendations, RecommendationId, req.selectedIds[k])
  }

  function MethodFor(req: PreviewRequest, rec: MethodRecommendation): string {
    if rec.id in req.overrides then req.overrides[rec.id] else rec.recommended.methodId
  }

  predicate AllFound(req: PreviewRequest) {
    forall k | 0 <= k < |req.selectedIds| :: Find(req, k).Some?
  }

  function SelectedRecs(req: PreviewRequest): seq<MethodRecommendation>
    requires AllFound(req)
  {
    seq(|req.selectedIds|, k requires 0 <= k < |req.selectedIds| => Find(req, k).value)
  }

  function PicksFrom(req: PreviewRequest, recs: seq<MethodRecommendation>, hash: Hash): seq<Pick> {
    seq(|recs|, k requires 0 <= k < |recs| =>
      Pick(recs[k], MethodFor(req, recs[k]), DraftStep(recs[k], MethodFor(req, recs[k]), req.inputArtifacts, hash)))
  }

  function Picks(req: PreviewRequest, hash: Hash): seq<Pick>
    requires AllFound(req)
  {
    PicksFrom(req, SelectedRecs(req), hash)
  }

  function Choice(p: Pick): Result<MethodCandidate, PreviewError> {
    SelectCandidate(p.rec, p.methodId)
  }

  /** What step k waits for: step k - 1 and nothing else. */
  function Before(picks: seq<Pick>, k: nat): seq<string>
    requires k <= |picks|
  {
    if k == 0 then [] else [picks[k - 1].draft.id]
  }

  function StepAt(picks: seq<Pick>, hash: Hash, k: nat): Step
    requires k < |picks|
  {
    Linked(picks[k].draft, Before(picks, k), hash)
  }

  function Steps(picks: seq<Pick>, hash: Hash): seq<Step> {
    seq(|picks|, k requires 0 <= k < |picks| => StepAt(picks, hash, k))
  }

  function GatesOf(steps: seq<Step>): seq<string> {
    if steps == [] then [] else GatesOf(steps[..|steps| - 1]) + steps[|steps| - 1].validationGates
  }

  function OutputsOf(recs: seq<MethodRecommendation>): seq<string> {
    if recs == [] then [] else OutputsOf(recs[..|recs| - 1]) + recs[|recs| - 1].expectedOutputs
  }

  function PolicyVersions(recs: seq<MethodRecommendation>): seq<string> {
    seq(|recs|, i requires 0 <= i < |recs| => recs[i].policyVersion)
  }

  function PolicyVersion(recs: seq<MethodRecommendation>): string {
    var versions := OrderedUnique(PolicyVersions(recs));
    if |versions| == 1 then versions[0] else "mixed_method_policies"
  }

  function StableId(prefix: string, digest: string): string {
    var bare := if "sha256:" <= digest then digest[7..] else digest;
    prefix + "_" + (if |bare| <= 16 then bare else bare[..16])
  }

  function PlanWith(req: PreviewRequest, recs: seq<MethodRecommendation>, steps: seq<Step>, gates: seq<string>,
                    outputs: seq<string>, hash: Hash, now: int): Plan
  {
    Plan(
      StableId("action_plan", hash(OfRequest(req.report, req.selectedIds, req.overrides, req.source))),
      "action_plan.v1", req.source,
      if req.targetName.Some? && req.targetName.value != "" then req.targetName.value else req.source + "_candidate_preview",
      req.report, req.selectedIds, req.createdBy, PolicyVersion(recs), exists r | r in recs :: r.recommended.requiresApproval,
      None, PreviewActionPlan, steps, gates, outputs, if req.createdAt.Some? then req.createdAt.value else now)
  }

  function StepsOf(req: PreviewRequest, hash: Hash): seq<Step>
    requires AllFound(req)
  {
    Steps(Picks(req, hash), hash)
  }

  function PlanOf(req: PreviewRequest, hash: Hash, now: int): Plan
    requires AllFound(req)
  {
    PlanWith(req, SelectedRecs(req), StepsOf(req, hash), OrderedUnique(GatesOf(StepsOf(req, hash))),
             OrderedUnique(OutputsOf(SelectedRecs(req))), hash, now)
  }

  /** The method that a selected recommendation stands for. */
  ghost predicate MethodChosen(req: PreviewRequest, rec: MethodRecommendation, methodId: string) {
    if rec.id in req.overrides then methodId == req.overrides[rec.id] else methodId == rec.recommended.methodId
  }

  /** The configuration of a step, key by key. */
  ghost predicate Configures(config: map<string, Value>, rec: MethodRecommendation, methodId: string, synthetic: bool) {
    && "method" in config && config["method"] == Str(methodId)
    && if rec.actionType == "IMPUTE_MISSING_VALUES" then
         && config.Keys == {"column", "method", "add_missingness_indicator"} + (if methodId == "group_median" then {"group_key"} else {})
         && config["add_missingness_indicator"] == Flag(true)
         && config["column"] == (if "column" in rec.target then rec.target["column"] else Null)
         && (methodId == "group_median" ==>
               config["group_key"] == if "group_key" in rec.target then rec.target["group_key"] else Str("customer_segment"))
       else if rec.actionType == "AUGMENT_RARE_CLASS" then
         && config.Keys == {"target_column", "rare_class_label", "method", "source_split"}
         && config["target_column"] == (if "target_column" in rec.target then rec.target["target_column"] else Null)
         && config["rare_class_label"] == (if "rare_class_label" in rec.target then rec.target["rare_class_label"] else Null)
         && config["source_split"] == if synthetic then Str("train") else Null
       else config.Keys == {"method", "target"} && config["target"] == Object(rec.target)
  }

  /** What the step of a selection does and what guards it: the privacy check is left out for
      augmentation that makes no synthetic rows and for nothing else, the model-impact check is in
      for augmentation and wherever the recommendation requires it. */
  ghost predicate Guards(s: Step, rec: MethodRecommendation, synthetic: bool) {
    var augments, imputes := rec.actionType == "AUGMENT_RARE_CLASS", rec.actionType == "IMPUTE_MISSING_VALUES";
    && s.validationGates ==
       (if augments && synthetic then ["split_leakage_check", "schema_validation", "business_rules_check",
                                       "synthetic_quality_check", "privacy_check", "model_impact_check"]
        else if augments then ["schema_validation", "business_rules", "model_impact_check"]
        else if rec.modelImpactRequired then ["schema_validation", "business_rules", "privacy_check", "model_impact_check"]
        else ["schema_validation", "business_rules", "privacy_check"])
    && s.preconditions ==
       (if imputes && synthetic then ["source_version_is_immutable", "target_column_not_used_for_imputation",
                                      "train_split_exists", "leakage_checks_passed"]
        else if imputes then ["source_version_is_immutable", "target_column_not_used_for_imputation"]
        else if synthetic then ["source_version_is_immutable", "train_split_exists", "leakage_checks_passed"]
        else ["source_version_is_immutable"])
    && s.retryPolicy == RetryPolicy(2, ["TRANSIENT_STORAGE_ERROR", "DAGSTER_WORKER_RESTART"])
    && s.onFailure == "fail_plan_keep_artifacts_unpromoted" && s.promotionScope == "candidate_only"
  }

  /** The step that a selected recommendation turns into. */
  ghost predicate StepFor(s: Step, rec: MethodRecommendation, methodId: string, inputs: seq<string>, hash: Hash) {
    var synthetic := methodId in {"smote", "gaussian_copula", "borderline_smote", "adasyn", "ctgan"};
    var classWeights := rec.actionType == "AUGMENT_RARE_CLASS" && methodId == "class_weights";
    && s.id == Slug(rec.actionType + "_" + methodId + "_" + rec.issueId)
    && s.kind == (if classWeights then "CONFIGURE_CLASS_WEIGHTS" else rec.actionType)
    && s.outputArtifactKind == (if classWeights then "TRAINING_STRATEGY_CONFIG" else "CANDIDATE_DATASET_VERSION")
    && s.methodId == methodId && s.pluginId == rec.recommended.pluginId && s.pluginVersion == "0.1.0"
    && s.policyVersion == rec.policyVersion && s.inputArtifacts == inputs
    && s.randomSeed == (if synthetic then Some(42) else None)
    && Configures(s.config, rec, methodId, synthetic)
    && s.configHash == hash(OfConfig(rec.actionType, s.config, methodId, rec.id))
    && s.idempotencyKey == hash(OfStep(s.configHash, s.dependsOn, s.id))
    && Guards(s, rec, synthetic)
  }

  lemma DraftStepIs(rec: MethodRecommendation, methodId: string, inputs: seq<string>, hash: Hash, before: seq<string>)
    ensures StepFor(Linked(DraftStep(rec, methodId, inputs, hash), before, hash), rec, methodId, inputs, hash)
    ensures Linked(DraftStep(rec, methodId, inputs, hash), before, hash).dependsOn == before
  {
    DraftGuards(rec, methodId, inputs, hash);
    StepConfigIs(rec, methodId);
  }

  lemma StepConfigIs(rec: MethodRecommendation, methodId: string)
    ensures Configures(StepConfig(rec, methodId), rec, methodId, IsSynthetic(methodId))
  {
  }

  lemma DraftGuards(rec: MethodRecommendation, methodId: string, inputs: seq<string>, hash: Hash)
    ensures Guards(DraftStep(rec, methodId, inputs, hash), rec, IsSynthetic(methodId))
  {
  }

  /** The steps of a preview: one per selection, in the order of selection, each for its recommendation,
      each waiting for the one before it. */
  ghost predicate StepsFor(steps: seq<Step>, req: PreviewRequest, hash: Hash)
    requires AllFound(req)
  {
    |steps| == |req.selectedIds| && forall k | 0 <= k < |steps| :: StepForSelection(steps, k, req, hash)
  }

  ghost predicate StepForSelection(steps: seq<Step>, k: nat, req: PreviewRequest, hash: Hash)
    requires AllFound(req) && k < |steps| == |req.selectedIds|
  {
    && steps[k].dependsOn == (if k == 0 then [] else [steps[k - 1].id])
    && var rec := Find(req, k).value;
    && exists m | MethodChosen(req, rec, m) :: StepFor(steps[k], rec, m, req.inputArtifacts, hash)
  }

  lemma StepsOfAre(req: PreviewRequest, hash: Hash)
    requires AllFound(req)
    ensures StepsFor(StepsOf(req, hash), req, hash)
  {
    forall k | 0 <= k < |req.selectedIds| ensures StepForSelection(StepsOf(req, hash), k, req, hash) {
      StepOfIs(req, hash, k);
    }
  }

  lemma StepOfIs(req: PreviewRequest, hash: Hash, k: nat)
    requires AllFound(req) && k < |req.selectedIds|
    ensures |StepsOf(req, hash)| == |req.selectedIds| && StepForSelection(StepsOf(req, hash), k, req, hash)
  {
    var picks := Picks(req, hash);
    var rec := Find(req, k).value;
    var m := MethodFor(req, rec);
    assert picks[k] == Pick(rec, m, DraftStep(rec, m, req.inputArtifacts, hash));
    DraftStepIs(rec, m, req.inputArtifacts, hash, Before(picks, k));
    assert StepsOf(req, hash)[k] == Linked(picks[k].draft, Before(picks, k), hash);
    assert MethodChosen(req, rec, m);
    if k > 0 {
      StepsLink(picks, hash, k - 1);
    }
  }

  /** Some selected method has to be approved. */
  ghost predicate NeedsApproval(req: PreviewRequest) {
    exists k | 0 <= k < |req.selectedIds| :: Find(req, k).Some? && Find(req, k).value.recommended.requiresApproval
  }

  /** Everything a preview says besides its steps, from what was asked for. */
  ghost predicate PlanFor(plan: Plan, req: PreviewRequest, hash: Hash, now: int)
    requires AllFound(req)
  {
    && plan.schema == "action_plan.v1" && plan.mode == PreviewActionPlan && plan.approvalRequestId == None
    && plan.source == req.source && plan.report == req.report && plan.selectedIds == req.selectedIds && plan.createdBy == req.createdBy
    && plan.targetName == (if req.targetName in {None, Some("")} then req.source + "_candidate_preview" else req.targetName.value)
    && plan.createdAt == (if req.createdAt == None then now else req.createdAt.value)
    && (plan.requiresApproval <==> NeedsApproval(req))
    && (forall digest | hash(OfRequest(req.report, req.selectedIds, req.overrides, req.source)) == "sha256:" + digest && |digest| >= 16 ::
          plan.id == "action_plan_" + digest[..16])
    && (forall version {:trigger CommonVersion(req, version)} | CommonVersion(req, version) :: plan.policyVersion == version)
    && ((forall version :: !CommonVersion(req, version)) ==> plan.policyVersion == "mixed_method_policies")
  }

  /** All selections were made under one policy version. */
  ghost predicate CommonVersion(req: PreviewRequest, version: string)
    requires AllFound(req)
  {
    req.selectedIds != [] && forall k | 0 <= k < |req.selectedIds| :: Find(req, k).value.policyVersion == version
  }

  /** The checks and outputs of a preview are those of its steps and selections, each once. */
  ghost predicate SumsUp(plan: Plan, req: PreviewRequest)
    requires AllFound(req)
  {
    && NoDuplicates(plan.validationGates) && NoDuplicates(plan.expectedOutputs)
    && (forall g :: g in plan.validationGates <==> exists k :: 0 <= k < |plan.steps| && g in plan.steps[k].validationGates)
    && (forall o :: o in plan.expectedOutputs <==>
          exists k :: 0 <= k < |req.selectedIds| && o in Find(req, k).value.expectedOutputs)
  }

  ghost predicate IsPreview(plan: Plan, req: PreviewRequest, hash: Hash, now: int)
    requires AllFound(req)
  {
    PlanFor(plan, req, hash, now) && StepsFor(plan.steps, req, hash) && SumsUp(plan, req)
  }

  lemma PlanOfIs(req: PreviewRequest, hash: Hash, now: int)
    requires AllFound(req)
    ensures IsPreview(PlanOf(req, hash, now), req, hash, now)
    ensures PlanOf(req, hash, now).requiresApproval <==> NeedsApproval(req)
  {
    StepsOfAre(req, hash);
    PlanForHolds(req, hash, now);
    PlanSumsUp(req, hash, now);
  }

  lemma PlanForHolds(req: PreviewRequest, hash: Hash, now: int)
    requires AllFound(req)
    ensures PlanFor(PlanOf(req, hash, now), req, hash, now)
  {
    ApprovalOf(req);
    PolicyVersionIs(req);
    StableIdIs(hash(OfRequest(req.report, req.selectedIds, req.overrides, req.source)));
  }

  lemma PlanSumsUp(req: PreviewRequest, hash: Hash, now: int)
    requires AllFound(req)
    ensures SumsUp(PlanOf(req, hash, now), req)
  {
    var recs := SelectedRecs(req);
    GatesOfIs(StepsOf(req, hash));
    OutputsOfIs(recs);
    forall o | exists k :: 0 <= k < |req.selectedIds| && o in Find(req, k).value.expectedOutputs ensures o in OutputsOf(recs) {
      var k :| 0 <= k < |req.selectedIds| && o in Find(req, k).value.expectedOutputs;
      assert o in recs[k].expectedOutputs;
    }
    forall o | o in OutputsOf(recs) ensures exists k :: 0 <= k < |req.selectedIds| && o in Find(req, k).value.expectedOutputs {
      var k :| 0 <= k < |recs| && o in recs[k].expectedOutputs;
      assert recs[k] == Find(req, k).value;
    }
  }

  lemma ApprovalOf(req: PreviewRequest)
    requires AllFound(req)
    ensures (exists r | r in SelectedRecs(req) :: r.recommended.requiresApproval) <==> NeedsApproval(req)
  {
    var recs := SelectedRecs(req);
    forall k | 0 <= k < |recs| && recs[k].recommended.requiresApproval ensures NeedsApproval(req) {
      assert Find(req, k).value.recommended.requiresApproval;
    }
    forall k | 0 <= k < |req.selectedIds| && Find(req, k).value.recommended.requiresApproval
      ensures exists r | r in recs :: r.recommended.requiresApproval
    {
      assert recs[k] in recs;
    }
  }

  lemma PolicyVersionIs(req: PreviewRequest)
    requires AllFound(req)
    ensures forall version | CommonVersion(req, version) :: PolicyVersion(SelectedRecs(req)) == version
    ensures (forall version :: !CommonVersion(req, version)) ==> PolicyVersion(SelectedRecs(req)) == "mixed_method_policies"
  {
    var versions := PolicyVersions(SelectedRecs(req));
    var distinct := OrderedUnique(versions);
    assert |distinct| > 1 ==> distinct[0] != distinct[1];
    assert |versions| == |req.selectedIds|;
    assert forall k | 0 <= k < |versions| :: versions[k] == Find(req, k).value.policyVersion;
    forall version | CommonVersion(req, version) ensures distinct == [version] {
      assert versions[0] in distinct;
      forall k | 0 <= k < |distinct| ensures distinct[k] == version {
        assert distinct[k] in versions;
      }
    }
    if |distinct| == 1 {
      assert versions != [];
      assert forall k | 0 <= k < |versions| :: versions[k] in distinct;
      assert CommonVersion(req, distinct[0]);
    }
  }

  /** The checks of a plan are its steps' checks in the order of the steps, as are its outputs. */
  lemma {:induction false} GatesOfAppend(a: seq<Step>, b: seq<Step>)
    ensures GatesOf(a + b) == GatesOf(a) + GatesOf(b)
    ensures forall s :: GatesOf([s]) == s.validationGates
  {
    forall s ensures GatesOf([s]) == s.validationGates {
      assert GatesOf([s][..0]) == [];
    }
    if b == [] {
      assert a + b == a;
    } else {
      assert (a + b)[..|a + b| - 1] == a + b[..|b| - 1];
      GatesOfAppend(a, b[..|b| - 1]);
    }
  }

  lemma {:induction false} OutputsOfAppend(a: seq<MethodRecommendation>, b: seq<MethodRecommendation>)
    ensures OutputsOf(a + b) == OutputsOf(a) + OutputsOf(b)
    ensures forall r :: OutputsOf([r]) == r.expectedOutputs
  {
    forall r ensures OutputsOf([r]) == r.expectedOutputs {
      assert OutputsOf([r][..0]) == [];
    }
    if b == [] {
      assert a + b == a;
    } else {
      assert (a + b)[..|a + b| - 1] == a + b[..|b| - 1];
      OutputsOfAppend(a, b[..|b| - 1]);
    }
  }

  lemma {:induction false} GatesOfIs(steps: seq<Step>)
    ensures forall g :: g in GatesOf(steps) <==> exists k :: 0 <= k < |steps| && g in steps[k].validationGates
  {
    if steps != [] {
      var front, last := steps[..|steps| - 1], steps[|steps| - 1];
      GatesOfIs(front);
      assert steps[|steps| - 1] == last;
      forall g | g in GatesOf(steps) ensures exists k :: 0 <= k < |steps| && g in steps[k].validationGates {
        if g in GatesOf(front) {
          var k :| 0 <= k < |front| && g in front[k].validationGates;
          assert g in steps[k].validationGates;
        }
      }
      forall k, g | 0 <= k < |steps| && g in steps[k].validationGates ensures g in GatesOf(steps) {
        if k < |front| {
          assert g in front[k].validationGates;
        }
      }
    }
  }

  lemma {:induction false} OutputsOfIs(recs: seq<MethodRecommendation>)
    ensures forall o :: o in OutputsOf(recs) <==> exists k :: 0 <= k < |recs| && o in recs[k].expectedOutputs
  {
    if recs != [] {
      var front, last := recs[..|recs| - 1], recs[|recs| - 1];
      OutputsOfIs(front);
      assert recs[|recs| - 1] == last;
      forall o | o in OutputsOf(recs) ensures exists k :: 0 <= k < |recs| && o in recs[k].expectedOutputs {
        if o in OutputsOf(front) {
          var k :| 0 <= k < |front| && o in front[k].expectedOutputs;
          assert o in recs[k].expectedOutputs;
        }
      }
      forall k, o | 0 <= k < |recs| && o in recs[k].expectedOutputs ensures o in OutputsOf(recs) {
        if k < |front| {
          assert o in front[k].expectedOutputs;
        }
      }
    }
  }

  lemma StableIdIs(digest: string)
    ensures forall hex | digest == "sha256:" + hex && |hex| >= 16 :: StableId("action_plan", digest) == "action_plan_" + hex[..16]
  {
    forall hex | digest == "sha256:" + hex && |hex| >= 16 ensures StableId("action_plan", digest) == "action_plan_" + hex[..16] {
      assert digest[7..] == hex;
    }
  }

  /** The plan's own validator: distinct step ids, and no dependency on a step that is not there. */
  ghost predicate ValidSteps(steps: seq<Step>) {
    && NoDuplicates(StepIds(steps))
    && forall i, d | 0 <= i < |steps| && d in steps[i].dependsOn :: d in StepIds(steps)
  }

  /** The first k selections can be made. */
  ghost predicate Chosen(picks: seq<Pick>, k: nat)
    requires k <= |picks|
  {
    forall j | 0 <= j < k :: Choice(picks[j]).Ok?
  }

  ghost predicate DistinctSteps(picks: seq<Pick>) {
    forall i, j | 0 <= i < j < |picks| :: picks[i].draft.id != picks[j].draft.id
  }

  /** When a preview is given. */
  ghost predicate Acceptable(req: PreviewRequest, hash: Hash) {
    NoDuplicates(Ids(req.recommendations)) && AllFound(req) && Chosen(Picks(req, hash), |Picks(req, hash)|)
    && DistinctSteps(Picks(req, hash))
  }

  // ---------------------------------------------------------------------------------------------
  // The builder
  // ---------------------------------------------------------------------------------------------

  /** Comparing the size of a set with the length of the list it came from tells duplicates. */
  lemma {:induction false} DistinctIffCount(s: seq<string>)
    ensures |set x | x in s| <= |s|
    ensures |set x | x in s| == |s| <==> NoDuplicates(s)
  {
    if s != [] {
      var front, last := s[..|s| - 1], s[|s| - 1];
      DistinctIffCount(front);
      var before := set x | x in front;
      assert s == front + [last];
      assert (set x | x in s) == before + {last};
      assert forall i | 0 <= i < |front| :: front[i] == s[i];
      if last in front {
        var i :| 0 <= i < |front| && front[i] == last;
        assert s[i] == s[|s| - 1];
        assert before + {last} == before;
      }
    }
  }

  lemma StepsLink(picks: seq<Pick>, hash: Hash, k: nat)
    requires k < |picks|
    ensures Steps(picks, hash)[k].id == picks[k].draft.id
    ensures Steps(picks, hash)[k].dependsOn == Before(picks, k)
  {
  }

  /** Dependencies always exist, so the plan's validator objects to repeated step ids only. */
  lemma ValidIffDistinct(picks: seq<Pick>, hash: Hash)
    ensures ValidSteps(Steps(picks, hash)) <==> DistinctSteps(picks)
    ensures NoDuplicates(StepIds(Steps(picks, hash))) <==> DistinctSteps(picks)
  {
    var steps := Steps(picks, hash);
    forall k | 0 <= k < |picks| ensures StepIds(steps)[k] == picks[k].draft.id && steps[k].dependsOn == Before(picks, k) {
      StepsLink(picks, hash, k);
    }
    forall i, d | 0 <= i < |steps| && d in steps[i].dependsOn ensures d in StepIds(steps) {
      assert d == StepIds(steps)[i - 1];
    }
  }

  /** The id of the step before position k, if there is one. */
  function IdBefore(steps: seq<Step>, k: nat): seq<string>
    requires k <= |steps|
  {
    if k == 0 then [] else [steps[k - 1].id]
  }

  lemma NextStep(picks: seq<Pick>, hash: Hash, k: nat, steps: seq<Step>)
    requires k == |steps| < |picks| && (k > 0 ==> steps[k - 1] == Steps(picks, hash)[k - 1])
    ensures Linked(picks[k].draft, IdBefore(steps, |steps|), hash) == Steps(picks, hash)[k]
  {
    if k > 0 {
      StepsLink(picks, hash, k - 1);
    }
  }

  /** The loop that appends a step per selection, each depending on the one before. */
  method BuildSteps(picks: seq<Pick>, hash: Hash) returns (r: Result<seq<Step>, PreviewError>, ghost failed: nat)
    ensures r.Ok? ==> Chosen(picks, |picks|) && r.value == Steps(picks, hash)
    ensures r.Err? ==> failed < |picks| && Chosen(picks, failed) && Choice(picks[failed]) == Err(r.error)
  {
    ghost var planned := Steps(picks, hash);
    var steps: seq<Step> := [];
    for k := 0 to |picks|
      invariant |steps| == k && Chosen(picks, k)
      invariant forall j | 0 <= j < k :: steps[j] == planned[j]
    {
      var candidate := Choice(picks[k]);
      if candidate.Err? {
        return Err(candidate.error), k;
      }
      NextStep(picks, hash, k, steps);
      var step := Linked(picks[k].draft, IdBefore(steps, |steps|), hash);
      assert step == planned[k];
      steps := steps + [step];
    }
    assert steps == planned;
    return Ok(steps), |picks|;
  }

  /** The selected recommendations, or the first id that names none. */
  method Select(req: PreviewRequest) returns (r: Result<seq<MethodRecommendation>, PreviewError>)
    ensures r.Ok? <==> AllFound(req)
    ensures r.Ok? ==> r.value == SelectedRecs(req)
    ensures r.Err? ==>
              exists k | 0 <= k < |req.selectedIds| ::
                && r.error == SelectedDecisionNotFound(req.selectedIds[k])
                && Find(req, k).None? && forall j | 0 <= j < k :: Find(req, j).Some?
  {
    var selected: seq<MethodRecommendation> := [];
    for k := 0 to |req.selectedIds|
      invariant |selected| == k
      invariant forall j | 0 <= j < k :: Find(req, j) == Some(selected[j])
    {
      var found := Find(req, k);
      if found.None? {
        return Err(SelectedDecisionNotFound(req.selectedIds[k]));
      }
      selected := selected + [found.value];
    }
    return Ok(selected);
  }

  /** A plan exactly when the request is acceptable, and then the plan in closed form; otherwise the
      first thing that is wrong, in the order ids, selections, methods, step ids. */
  method Preview(req: PreviewRequest, hash: Hash, now: int) returns (r: Result<Plan, PreviewError>, ghost failed: nat)
    ensures r.Ok? <==> Acceptable(req, hash)
    ensures r.Ok? ==> r.value == PlanOf(req, hash, now) && ValidSteps(r.value.steps)
    ensures !NoDuplicates(Ids(req.recommendations)) ==> r == Err(DuplicateRecommendationId)
    ensures NoDuplicates(Ids(req.recommendations)) && !AllFound(req) ==>
              exists k | 0 <= k < |req.selectedIds| ::
                && r == Err(SelectedDecisionNotFound(req.selectedIds[k]))
                && Find(req, k).None? && forall j | 0 <= j < k :: Find(req, j).Some?
    ensures NoDuplicates(Ids(req.recommendations)) && AllFound(req) && !Chosen(Picks(req, hash), |Picks(req, hash)|) ==>
              && r.Err? && failed < |Picks(req, hash)|
              && Chosen(Picks(req, hash), failed) && Choice(Picks(req, hash)[failed]) == Err(r.error)
    ensures NoDuplicates(Ids(req.recommendations)) && AllFound(req) && Chosen(Picks(req, hash), |Picks(req, hash)|)
            && !DistinctSteps(Picks(req, hash)) ==>
              r == Err(InvalidPlan)
  {
    var ids := Ids(req.recommendations);
    DistinctIffCount(ids);
    if |set x | x in ids| != |ids| {
      return Err(DuplicateRecommendationId), 0;
    }
    var selected := Select(req);
    if selected.Err? {
      return Err(selected.error), 0;
    }
    var picks := PicksFrom(req, selected.value, hash);
    var steps;
    steps, failed := BuildSteps(picks, hash);
    if steps.Err? {
      return Err(steps.error), failed;
    }
    var gates := CollectUnique(GatesOf(steps.value));
    var outputs := CollectUnique(OutputsOf(selected.value));
    ValidIffDistinct(picks, hash);
    var stepIds := StepIds(steps.value);
    DistinctIffCount(stepIds);
    if |set x | x in stepIds| != |stepIds| {
      return Err(InvalidPlan), failed;
    }
    return Ok(PlanWith(req, selected.value, steps.value, gates, outputs, hash, now)), failed;
  }

  /** A plan is given exactly if recommendation ids are distinct, every selected id names one, every
      method may be selected and the step ids differ; it says what the request asks for, and needs
      approval exactly if some selected method does.  Otherwise the first thing that is wrong is
      reported: repeated ids, then the first selection that names nothing, then the first selection
      whose method may not be selected, then repeated step ids. */
  method BuildActionPlanPreview(req: PreviewRequest, hash: Hash, now: int) returns (r: Result<Plan, PreviewError>)
    ensures r.Ok? <==> DistinctIds(req) && AllFound(req) && AllSelectable(req) && DistinctSlugs(req)
    ensures r.Ok? ==> (r.value.requiresApproval <==> exists k | 0 <= k < |req.selectedIds| :: Find(req, k).value.recommended.requiresApproval)
    ensures r.Ok? ==> r.value == PlanOf(req, hash, now) && IsPreview(r.value, req, hash, now)
    ensures !DistinctIds(req) ==> r == Err(DuplicateRecommendationId)
    ensures DistinctIds(req) && !AllFound(req) ==>
              exists k | 0 <= k < |req.selectedIds| ::
                && r == Err(SelectedDecisionNotFound(req.selectedIds[k]))
                && Find(req, k).None? && forall j | 0 <= j < k :: Find(req, j).Some?
    ensures DistinctIds(req) && AllFound(req) && !AllSelectable(req) ==>
              r.Err? && exists k | 0 <= k < |req.selectedIds| :: FirstRefused(req, k, r.error)
    ensures DistinctIds(req) && AllFound(req) && AllSelectable(req) && !DistinctSlugs(req) ==> r == Err(InvalidPlan)
  {
    ghost var failed;
    r, failed := Preview(req, hash, now);
    DistinctIdsIff(req);
    if AllFound(req) {
      AcceptableIff(req, hash);
      if r.Ok? {
        PlanOfIs(req, hash, now);
      } else if !Chosen(Picks(req, hash), |Picks(req, hash)|) && DistinctIds(req) {
        RefusalIsFirst(req, hash, failed, r.error);
      }
    }
  }

  ghost predicate AllSelectable(req: PreviewRequest)
    requires AllFound(req)
  {
    forall k | 0 <= k < |req.selectedIds| :: SelectableAt(req, k)
  }

  /** Selection k is the first whose method may not be selected, and this is why. */
  ghost predicate FirstRefused(req: PreviewRequest, k: nat, error: PreviewError)
    requires k < |req.selectedIds| && AllFound(req)
  {
    && !SelectableAt(req, k) && (forall j | 0 <= j < k :: SelectableAt(req, j))
    && exists m | MethodChosen(req, Find(req, k).value, m) :: SelectCandidate(Find(req, k).value, m) == Err(error)
  }

  lemma RefusalIsFirst(req: PreviewRequest, hash: Hash, k: nat, error: PreviewError)
    requires AllFound(req) && k < |Picks(req, hash)|
    requires Chosen(Picks(req, hash), k) && Choice(Picks(req, hash)[k]) == Err(error)
    ensures k < |req.selectedIds| && FirstRefused(req, k, error)
  {
    forall j | 0 <= j <= k ensures Choice(Picks(req, hash)[j]).Ok? <==> SelectableAt(req, j) {
      ChoiceIs(req, hash, j);
    }
    ChoiceIs(req, hash, k);
  }

  /** No two recommendations have one id. */
  ghost predicate DistinctIds(req: PreviewRequest) {
    forall i, j | 0 <= i < j < |req.recommendations| :: req.recommendations[i].id != req.recommendations[j].id
  }

  /** The method of selection k may be selected. */
  ghost predicate SelectableAt(req: PreviewRequest, k: nat)
    requires k < |req.selectedIds| && Find(req, k).Some?
  {
    exists m | MethodChosen(req, Find(req, k).value, m) :: Selectable(Find(req, k).value, m)
  }

  /** No two selections come to one step id. */
  ghost predicate DistinctSlugs(req: PreviewRequest)
    requires AllFound(req)
  {
    forall i, j, m, n | 0 <= i < j < |req.selectedIds| && MethodChosen(req, Find(req, i).value, m) && MethodChosen(req, Find(req, j).value, n) ::
      Slug(Find(req, i).value.actionType + "_" + m + "_" + Find(req, i).value.issueId)
      != Slug(Find(req, j).value.actionType + "_" + n + "_" + Find(req, j).value.issueId)
  }

  lemma DistinctIdsIff(req: PreviewRequest)
    ensures NoDuplicates(Ids(req.recommendations)) <==> DistinctIds(req)
  {
    var ids := Ids(req.recommendations);
    assert forall i | 0 <= i < |ids| :: ids[i] == req.recommendations[i].id;
  }

  lemma ChoiceIs(req: PreviewRequest, hash: Hash, k: nat)
    requires AllFound(req) && k < |req.selectedIds|
    ensures k < |Picks(req, hash)| && (Choice(Picks(req, hash)[k]).Ok? <==> SelectableAt(req, k))
    ensures exists m | MethodChosen(req, Find(req, k).value, m) :: SelectCandidate(Find(req, k).value, m) == Choice(Picks(req, hash)[k])
  {
    var rec := Find(req, k).value;
    var m := MethodFor(req, rec);
    assert MethodChosen(req, rec, m) && forall n | MethodChosen(req, rec, n) :: n == m;
    SelectCandidateIff(rec, m);
    assert Picks(req, hash)[k] == Pick(rec, m, DraftStep(rec, m, req.inputArtifacts, hash));
  }

  lemma AcceptableIff(req: PreviewRequest, hash: Hash)
    requires AllFound(req)
    ensures Chosen(Picks(req, hash), |Picks(req, hash)|) <==> AllSelectable(req)
    ensures DistinctSteps(Picks(req, hash)) <==> DistinctSlugs(req)
  {
    var picks := Picks(req, hash);
    forall k | 0 <= k < |picks| ensures Choice(picks[k]).Ok? <==> SelectableAt(req, k) {
      ChoiceIs(req, hash, k);
    }
    PickSlugs(req, hash);
  }

  lemma PickSlugs(req: PreviewRequest, hash: Hash)
    requires AllFound(req)
    ensures DistinctSteps(Picks(req, hash)) <==> DistinctSlugs(req)
  {
    var picks := Picks(req, hash);
    forall k | 0 <= k < |picks|
      ensures MethodChosen(req, Find(req, k).value, picks[k].methodId)
      ensures picks[k].draft.id == Slug(Find(req, k).value.actionType + "_" + picks[k].methodId + "_" + Find(req, k).value.issueId)
      ensures forall n | MethodChosen(req, Find(req, k).value, n) :: n == picks[k].methodId
    {
      DraftStepIs(picks[k].rec, picks[k].methodId, req.inputArtifacts, hash, []);
    }
  }

  /** Selecting one recommendation twice can never be previewed. */
  lemma RepeatedSelectionIsRejected(req: PreviewRequest, hash: Hash, i: nat, j: nat)
    requires i < j < |req.selectedIds| && req.selectedIds[i] == req.selectedIds[j]
    ensures !Acceptable(req, hash)
  {
    if AllFound(req) {
      assert Picks(req, hash)[i] == Picks(req, hash)[j];
    }
  }

  // ---------------------------------------------------------------------------------------------
  // One chain
  // ---------------------------------------------------------------------------------------------

  /** A schedule of all steps in which each step comes after the steps it depends on. */
  ghost predicate IsSchedule(steps: seq<Step>, order: seq<nat>) {
    && |order| == |steps|
    && (forall k | 0 <= k < |order| :: order[k] < |steps|)
    && NoDuplicates(order)
    && forall k, d | 0 <= k < |order| && 0 <= d < |steps| && steps[d].id in steps[order[k]].dependsOn ::
         exists m: nat :: m < k && order[m] == d
  }

  /** Each step waits for the one before it in the list, and for nothing else. */
  ghost predicate IsChain(steps: seq<Step>) {
    && NoDuplicates(StepIds(steps))
    && forall k {:trigger steps[k].dependsOn} | 0 <= k < |steps| :: steps[k].dependsOn == IdBefore(steps, k)
  }

  lemma PreviewedStepsFormAChain(req: PreviewRequest, hash: Hash)
    requires Acceptable(req, hash)
    ensures IsChain(StepsOf(req, hash))
  {
    var picks, steps := Picks(req, hash), StepsOf(req, hash);
    ValidIffDistinct(picks, hash);
    forall k | 0 <= k < |steps| ensures steps[k].dependsOn == IdBefore(steps, k) {
      StepsLink(picks, hash, k);
      if k > 0 {
        StepsLink(picks, hash, k - 1);
      }
    }
  }

  /** The list order of a chain is a schedule, and there is no other. */
  lemma ListOrderIsTheOnlySchedule(steps: seq<Step>, order: seq<nat>)
    requires IsChain(steps)
    ensures IsSchedule(steps, order) <==> order == seq(|steps|, k requires 0 <= k => k)
  {
    if IsSchedule(steps, order) {
      ScheduleIsListOrder(steps, order, |steps|);
    }
    var list := seq(|steps|, k requires 0 <= k => k);
    forall k, d | 0 <= k < |list| && 0 <= d < |steps| && steps[d].id in steps[list[k]].dependsOn
      ensures exists m: nat :: m < k && list[m] == d
    {
      DependsOnPrevious(steps, k, d);
      assert list[d] == d;
    }
  }

  lemma DependsOnPrevious(steps: seq<Step>, k: nat, d: nat)
    requires IsChain(steps) && k < |steps| && d < |steps| && steps[d].id in steps[k].dependsOn
    ensures k > 0 && d == k - 1
  {
    assert steps[k].dependsOn == IdBefore(steps, k);
    assert StepIds(steps)[d] == steps[d].id;
    assert k > 0 ==> StepIds(steps)[k - 1] == steps[d].id;
  }

  lemma {:induction false} ScheduleIsListOrder(steps: seq<Step>, order: seq<nat>, k: nat)
    requires IsChain(steps) && IsSchedule(steps, order) && k <= |order|
    ensures forall i | 0 <= i < k :: order[i] == i
  {
    if k > 0 {
      ScheduleIsListOrder(steps, order, k - 1);
      EarlierIsTaken(order, k - 1, k - 1);
      if order[k - 1] > 0 {
        var m := DependencyComesFirst(steps, order, k - 1);
        assert order[m] == m;
      }
    }
  }

  lemma DependencyComesFirst(steps: seq<Step>, order: seq<nat>, k: nat) returns (m: nat)
    requires IsChain(steps) && IsSchedule(steps, order) && k < |order| && order[k] > 0
    ensures m < k && order[m] == order[k] - 1
  {
    var x := order[k];
    assert steps[x].dependsOn == IdBefore(steps, x);
    assert steps[x - 1].id in steps[order[k]].dependsOn;
    m :| m < k && order[m] == x - 1;
  }

  lemma {:induction false} EarlierIsTaken(order: seq<nat>, k: nat, j: nat)
    requires j <= k < |order| && NoDuplicates(order) && forall i | 0 <= i < k :: order[i] == i
    ensures order[k] >= j
  {
    if j > 0 {
      EarlierIsTaken(order, k, j - 1);
      assert order[j - 1] == j - 1;
    }
  }

  // ---------------------------------------------------------------------------------------------
  // Validation before execution
  // ---------------------------------------------------------------------------------------------

  datatype ExecutionError =
    | SourceVersionMismatch | NotPreviewMode | NoSteps
    | StepKeyMismatch(stepId: string) | InvalidPromotionScope(stepId: string)
    | ApprovalMetadataRequired | ApprovalRequestMismatch | ApprovalIntegrityMismatch

  function StepError(s: Step, hash: Hash): Option<ExecutionError> {
    if s.idempotencyKey != hash(OfStep(s.configHash, s.dependsOn, s.id)) then Some(StepKeyMismatch(s.id))
    else if s.promotionScope != CANDIDATE_ONLY then Some(InvalidPromotionScope(s.id))
    else None
  }

  method ValidateStepIntegrity(plan: Plan, hash: Hash) returns (failed: Option<ExecutionError>)
    ensures failed == FirstStepError(plan.steps, hash)
  {
    for i := 0 to |plan.steps|
      invariant FirstStepError(plan.steps, hash) == FirstStepError(plan.steps[i..], hash)
    {
      assert plan.steps[i..][1..] == plan.steps[i + 1..];
      var e := StepError(plan.steps[i], hash);
      if e.Some? {
        return e;
      }
    }
    return None;
  }

  function FirstStepError(steps: seq<Step>, hash: Hash): Option<ExecutionError> {
    if steps == [] then None
    else
      var e := StepError(steps[0], hash);
      if e.Some? then e else FirstStepError(steps[1..], hash)
  }

  lemma {:induction false} NoStepErrorIff(steps: seq<Step>, hash: Hash)
    ensures FirstStepError(steps, hash) == None <==> forall i | 0 <= i < |steps| :: StepError(steps[i], hash) == None
  {
    if steps != [] {
      NoStepErrorIff(steps[1..], hash);
      assert steps == [steps[0]] + steps[1..];
    }
  }

  function MetadataError(plan: Plan, m: ApprovalMetadata, integrity: string): Option<ExecutionError> {
    if plan.approvalRequestId.Some? && plan.approvalRequestId.value != "" && m.requestId != plan.approvalRequestId.value then
      Some(ApprovalRequestMismatch)
    else if m.planId != plan.id || m.planHash != integrity || m.report != plan.report || m.source != plan.source then
      Some(ApprovalIntegrityMismatch)
    else None
  }

  function Validate(plan: Plan, source: string, metadata: Option<ApprovalMetadata>, hash: Hash): Result<string, ExecutionError> {
    if plan.source != source then Err(SourceVersionMismatch)
    else if !plan.mode.PreviewActionPlan? then Err(NotPreviewMode)
    else if plan.steps == [] then Err(NoSteps)
    else
      var broken := FirstStepError(plan.steps, hash);
      if broken.Some? then Err(broken.value)
      else
        var integrity := hash(OfPlan(plan));
        if metadata.None? then if plan.requiresApproval then Err(ApprovalMetadataRequired) else Ok(integrity)
        else
          var e := MetadataError(plan, metadata.value, integrity);
          if e.Some? then Err(e.value) else Ok(integrity)
  }

  /** Approval metadata that binds a plan: everything it names is the plan's own. */
  ghost predicate Binds(m: ApprovalMetadata, plan: Plan, hash: Hash) {
    && m.planId == plan.id && m.planHash == hash(OfPlan(plan)) && m.report == plan.report && m.source == plan.source
    && (plan.approvalRequestId.Some? && plan.approvalRequestId.value != "" ==> m.requestId == plan.approvalRequestId.value)
  }

  /** A step that is as it was previewed: its key covers it, and it may only produce candidates. */
  ghost predicate Intact(s: Step, hash: Hash) {
    s.idempotencyKey == hash(OfStep(s.configHash, s.dependsOn, s.id)) && s.promotionScope == "candidate_only"
  }

  /** Step k is the first that is not intact, and the error says what is wrong with it. */
  ghost predicate FirstBroken(steps: seq<Step>, hash: Hash, k: nat, error: ExecutionError)
    requires k < |steps|
  {
    && !Intact(steps[k], hash) && (forall j | 0 <= j < k :: Intact(steps[j], hash))
    && error == if steps[k].idempotencyKey != hash(OfStep(steps[k].configHash, steps[k].dependsOn, steps[k].id))
                then StepKeyMismatch(steps[k].id) else InvalidPromotionScope(steps[k].id)
  }

  lemma {:induction false} FirstStepErrorIs(steps: seq<Step>, hash: Hash)
    ensures FirstStepError(steps, hash) == None <==> forall k | 0 <= k < |steps| :: Intact(steps[k], hash)
    ensures var e := FirstStepError(steps, hash);
            e.Some? ==> exists k | 0 <= k < |steps| :: FirstBroken(steps, hash, k, e.value)
  {
    if steps != [] {
      var rest := steps[1..];
      FirstStepErrorIs(rest, hash);
      assert steps == [steps[0]] + rest;
      var e := FirstStepError(rest, hash);
      if !Intact(steps[0], hash) {
        assert FirstBroken(steps, hash, 0, StepError(steps[0], hash).value);
      } else if e.Some? {
        var k :| 0 <= k < |rest| && FirstBroken(rest, hash, k, e.value);
        assert forall j | 0 <= j < k + 1 :: Intact(steps[j], hash) by {
          assert forall j | 0 < j < k + 1 :: steps[j] == rest[j - 1];
        }
        assert steps[k + 1] == rest[k] && FirstBroken(steps, hash, k + 1, e.value);
      }
    }
  }

  /** The plan's steps can all run, and nobody has to be asked or the right approval is there. */
  lemma ValidateIff(plan: Plan, source: string, metadata: Option<ApprovalMetadata>, hash: Hash)
    ensures var r := Validate(plan, source, metadata, hash);
            && (r.Ok? <==>
                  && source == plan.source && plan.mode.PreviewActionPlan? && plan.steps != []
                  && (forall k | 0 <= k < |plan.steps| :: Intact(plan.steps[k], hash))
                  && (if metadata.Some? then Binds(metadata.value, plan, hash) else !plan.requiresApproval))
            && (r.Ok? ==> r.value == hash(OfPlan(plan)))
  {
    FirstStepErrorIs(plan.steps, hash);
  }

  /** Why a plan is refused: the first of its faults in the order source, mode, steps, approval; an
      approval for another request is told from one that does not fit the plan. */
  lemma RefusalIsFirstFault(plan: Plan, source: string, metadata: Option<ApprovalMetadata>, hash: Hash)
    requires Validate(plan, source, metadata, hash).Err?
    ensures var e := Validate(plan, source, metadata, hash).error;
            if plan.source != source then e == SourceVersionMismatch
            else if !plan.mode.PreviewActionPlan? then e == NotPreviewMode
            else if plan.steps == [] then e == NoSteps
            else if !(forall k | 0 <= k < |plan.steps| :: Intact(plan.steps[k], hash))
            then exists k | 0 <= k < |plan.steps| :: FirstBroken(plan.steps, hash, k, e)
            else if metadata.None? then plan.requiresApproval && e == ApprovalMetadataRequired
            else if plan.approvalRequestId.Some? && plan.approvalRequestId.value !in {"", metadata.value.requestId}
            then e == ApprovalRequestMismatch
            else e == ApprovalIntegrityMismatch
  {
    FirstStepErrorIs(plan.steps, hash);
  }

  lemma PreviewedStepsAreIntact(req: PreviewRequest, hash: Hash)
    requires AllFound(req)
    ensures FirstStepError(StepsOf(req, hash), hash) == None
  {
    var picks, steps := Picks(req, hash), StepsOf(req, hash);
    NoStepErrorIff(steps, hash);
    forall k | 0 <= k < |steps| ensures StepError(steps[k], hash) == None {
      assert steps[k] == Linked(picks[k].draft, Before(picks, k), hash);
      assert picks[k].draft.promotionScope == CANDIDATE_ONLY;
    }
  }

  /** Preview, then validate: a previewed plan passes every check that is not about approval, and the
      answer is its integrity hash.  Without approval metadata it is accepted exactly if none of the
      selected methods has to be approved. */
  lemma PreviewedPlanIsAccepted(req: PreviewRequest, hash: Hash, now: int, source: string, metadata: Option<ApprovalMetadata>)
    requires AllFound(req) && req.selectedIds != []
    ensures var plan := PlanOf(req, hash, now);
            var r := Validate(plan, source, metadata, hash);
            && (metadata.None? ==>
                  (r.Ok? <==> source == req.source && forall k | 0 <= k < |req.selectedIds| :: !Find(req, k).value.recommended.requiresApproval))
            && (metadata.Some? ==>
                  (r.Ok? <==>
                     && source == req.source && metadata.value.source == req.source && metadata.value.report == req.report
                     && metadata.value.planId == plan.id && metadata.value.planHash == hash(OfPlan(plan))))
            && (r.Ok? ==> r.value == hash(OfPlan(plan)))
  {
    var plan := PlanOf(req, hash, now);
    PreviewedStepsAreIntact(req, hash);
    PlanForHolds(req, hash, now);
    ValidateIff(plan, source, metadata, hash);
    FirstStepErrorIs(plan.steps, hash);
  }

  /** Approval given for one plan is worth nothing for another, unless the two collide. */
  lemma ApprovalBindsOnePlan(p: Plan, q: Plan, source: string, m: ApprovalMetadata, hash: Hash)
    requires Validate(p, p.source, Some(m), hash).Ok? && p != q && !Collide(hash, OfPlan(p), OfPlan(q))
    ensures Validate(q, source, Some(m), hash).Err?
  {
    assert OfPlan(p) != OfPlan(q);
  }

  /** An accepted plan's steps can be edited after the fact only outside what their keys cover: a
      step that keeps its key keeps its configuration hash, its dependencies and its id. */
  lemma KeysSealSteps(p: Plan, q: Plan, i: nat, j: nat, sourceP: string, sourceQ: string,
                      mp: Option<ApprovalMetadata>, mq: Option<ApprovalMetadata>, hash: Hash)
    requires Validate(p, sourceP, mp, hash).Ok? && Validate(q, sourceQ, mq, hash).Ok?
    requires i < |p.steps| && j < |q.steps| && p.steps[i].idempotencyKey == q.steps[j].idempotencyKey
    ensures var a, b := p.steps[i], q.steps[j];
            || (a.configHash == b.configHash && a.dependsOn == b.dependsOn && a.id == b.id)
            || Collide(hash, OfStep(a.configHash, a.dependsOn, a.id), OfStep(b.configHash, b.dependsOn, b.id))
  {
    NoStepErrorIff(p.steps, hash);
    NoStepErrorIff(q.steps, hash);
    assert StepError(p.steps[i], hash) == None && StepError(q.steps[j], hash) == None;
  }

  /** Building the same preview again, by anyone at any time and under any target name, gives the same
      plan id and the same steps with the same keys. */
  lemma PreviewIsRepeatable(req: PreviewRequest, hash: Hash, now: int, later: int, user: string, name: Option<string>, at: Option<int>)
    requires Acceptable(req, hash)
    ensures var again := req.(createdBy := user, targetName := name, createdAt := at);
            && Acceptable(again, hash)
            && PlanOf(again, hash, later).id == PlanOf(req, hash, now).id
            && PlanOf(again, hash, later).steps == PlanOf(req, hash, now).steps
  {
    var again := req.(createdBy := user, targetName := name, createdAt := at);
    assert forall k | 0 <= k < |req.selectedIds| :: Find(again, k) == Find(req, k);
    if AllFound(req) {
      assert Picks(again, hash) == Picks(req, hash);
    }
  }
}
