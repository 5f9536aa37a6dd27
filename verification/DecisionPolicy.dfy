/** Hard gates, recommendation rules and object value scores (app/kernel/decision_policy.py). */
module DecisionPolicy {
  import opened Basics
  import opened Domain

  /** The reason codes of the registry, which policies may not go beyond, and the two that the report
      adds itself. */
  datatype Code =
    | PiiUnmasked | TargetColumnMissing | SplitLeakage | ExternalApiRawPii | TargetLeakageCandidate | BusinessRuleFailure
    | PluginDisabled | MethodDisabledByPolicy | MethodDisabledByReadiness | MissingNumeric | ExactDuplicate
    | RareClassUnderrepresented | TextPiiDetected | SevereOutlier | OutlierCappingDisabled | AmbiguousObject
    | HighModelUncertainty | LowPredictionMargin | ProbableLabelError | HighConfidenceLabelConflict
    | NeighborLabelDisagreement | ExportReadyCode | ReviewRequiredCode

  datatype GateId =
    | PiiGate | TargetColumnGate | SplitGate | ExternalApiGate | TargetLeakageGate | BusinessRuleGate | PluginGate
    | MethodPolicyGate | MethodReadinessGate

  datatype ActionType =
    | ReportAndReview | ToLabelReview | ToPrivacyReview | ToDuplicateReview | ImputationReview | RareClassAugmentation

  type Score = r: real | 0.0 <= r <= 1.0

  datatype Signal = Signal(available: bool, value: Option<Score>)

  datatype Signals = Signals(
    technicalQuality: Signal, duplicate: Signal, labelIssue: Signal, modelUncertainty: Signal, predictionEntropy: Signal,
    predictionConfidence: Signal, rareSegment: Signal, privacyRisk: Signal, businessImportance: Signal,
    probableLabelError: Signal, ambiguousObject: Signal)

  datatype Evidence = Evidence(id: string, modality: Modality, signals: Signals, refs: seq<string>)

  datatype HardGate = HardGate(id: GateId, code: Code, action: string, enabled: bool)

  datatype Rule = Rule(code: Code, action: ActionType, threshold: Score, enabled: bool)

  datatype Policy = Policy(gates: seq<HardGate>, rules: seq<Rule>)

  datatype Availability = Available | OffByPolicy | OffByReadiness

  /** The normalized inputs a gate looks at. */
  datatype Inputs = Inputs(
    piiInRisk: bool, piiInProfile: bool, targetColumnMissing: bool, splitLeakage: bool, externalApiRawPii: bool,
    targetLeakage: bool, businessRuleFailure: bool, pluginsDisabled: seq<bool>,
    methods: seq<(Availability, Availability)>)

  datatype GateResult = GateResult(id: GateId, triggered: bool, action: string, code: Code)

  // ---------------------------------------------------------------------------------------------
  // Gates
  // ---------------------------------------------------------------------------------------------

  predicate Fires(id: GateId, inputs: Inputs) {
    match id
    case PiiGate => inputs.piiInRisk || inputs.piiInProfile
    case TargetColumnGate => inputs.targetColumnMissing
    case SplitGate => inputs.splitLeakage
    case ExternalApiGate => inputs.externalApiRawPii
    case TargetLeakageGate => inputs.targetLeakage
    case BusinessRuleGate => inputs.businessRuleFailure
    case PluginGate => true in inputs.pluginsDisabled
    case MethodPolicyGate => exists m | m in inputs.methods :: m.0.OffByPolicy? || m.1.OffByPolicy?
    case MethodReadinessGate => exists m | m in inputs.methods :: m.0.OffByReadiness? || m.1.OffByReadiness?
  }

  const CLEAN := Inputs(false, false, false, false, false, false, false, [], [])

  /** Nothing fires on clean inputs, and each finding fires its own gate and no other. */
  lemma EachFindingFiresItsGate(id: GateId)
    ensures !Fires(id, CLEAN)
    ensures Fires(id, CLEAN.(piiInRisk := true)) <==> id == PiiGate
    ensures Fires(id, CLEAN.(piiInProfile := true)) <==> id == PiiGate
    ensures Fires(id, CLEAN.(targetColumnMissing := true)) <==> id == TargetColumnGate
    ensures Fires(id, CLEAN.(splitLeakage := true)) <==> id == SplitGate
    ensures Fires(id, CLEAN.(externalApiRawPii := true)) <==> id == ExternalApiGate
    ensures Fires(id, CLEAN.(targetLeakage := true)) <==> id == TargetLeakageGate
    ensures Fires(id, CLEAN.(businessRuleFailure := true)) <==> id == BusinessRuleGate
    ensures forall disabled :: Fires(id, CLEAN.(pluginsDisabled := [disabled])) <==> id == PluginGate && disabled
    ensures forall status: Availability, policyStatus: Availability ::
              Fires(id, CLEAN.(methods := [(status, policyStatus)])) <==>
                || (id == MethodPolicyGate && (status == OffByPolicy || policyStatus == OffByPolicy))
                || (id == MethodReadinessGate && (status == OffByReadiness || policyStatus == OffByReadiness))
  {
    forall status: Availability, policyStatus: Availability
      ensures Fires(id, CLEAN.(methods := [(status, policyStatus)])) <==>
                || (id == MethodPolicyGate && (status == OffByPolicy || policyStatus == OffByPolicy))
                || (id == MethodReadinessGate && (status == OffByReadiness || policyStatus == OffByReadiness))
    {
      assert (status, policyStatus) in CLEAN.(methods := [(status, policyStatus)]).methods;
    }
  }

  /** The findings of both. */
  ghost function Together(a: Inputs, b: Inputs): Inputs {
    Inputs(a.piiInRisk || b.piiInRisk, a.piiInProfile || b.piiInProfile, a.targetColumnMissing || b.targetColumnMissing,
           a.splitLeakage || b.splitLeakage, a.externalApiRawPii || b.externalApiRawPii, a.targetLeakage || b.targetLeakage,
           a.businessRuleFailure || b.businessRuleFailure, a.pluginsDisabled + b.pluginsDisabled, a.methods + b.methods)
  }

  /** Findings do not interact: a gate fires on several exactly when it fires on one of them. */
  lemma FindingsAddUp(id: GateId, a: Inputs, b: Inputs)
    ensures Fires(id, Together(a, b)) <==> Fires(id, a) || Fires(id, b)
  {
    var both := Together(a, b);
    match id
    case PluginGate => assert true in both.pluginsDisabled <==> true in a.pluginsDisabled || true in b.pluginsDisabled;
    case MethodPolicyGate => assert forall m :: m in both.methods <==> m in a.methods || m in b.methods;
    case MethodReadinessGate => assert forall m :: m in both.methods <==> m in a.methods || m in b.methods;
    case _ =>
  }

  function DatasetGates(gates: seq<HardGate>, inputs: Inputs): seq<GateResult> {
    if gates == [] then []
    else
      var g := gates[|gates| - 1];
      DatasetGates(gates[..|gates| - 1], inputs)
      + (if g.enabled then [GateResult(g.id, Fires(g.id, inputs), g.action, g.code)] else [])
  }

  /** The loop that skips disabled gates. */
  method EvaluateHardGates(policy: Policy, inputs: Inputs) returns (results: seq<GateResult>)
    ensures results == DatasetGates(policy.gates, inputs)
  {
    results := [];
    for i := 0 to |policy.gates|
      invariant results == DatasetGates(policy.gates[..i], inputs)
    {
      var gate := policy.gates[i];
      assert policy.gates[..i + 1][..i] == policy.gates[..i];
      if !gate.enabled {
        continue;
      }
      results := results + [GateResult(gate.id, Fires(gate.id, inputs), gate.action, gate.code)];
    }
    assert policy.gates[..|policy.gates|] == policy.gates;
  }

  lemma {:induction false} DatasetGatesHold(gates: seq<HardGate>, inputs: Inputs, r: GateResult)
    ensures r in DatasetGates(gates, inputs) <==>
              exists g :: g in gates && g.enabled && r == GateResult(g.id, Fires(g.id, inputs), g.action, g.code)
  {
    if gates != [] {
      DatasetGatesHold(gates[..|gates| - 1], inputs, r);
      assert gates == gates[..|gates| - 1] + [gates[|gates| - 1]];
    }
  }

  predicate AtLeast(s: Signal, threshold: real) {
    s.available && s.value.Some? && s.value.value >= threshold
  }

  function InputTriggered(results: seq<GateResult>, id: GateId): bool {
    if results == [] then false
    else if results[|results| - 1].id == id then results[|results| - 1].triggered
    else InputTriggered(results[..|results| - 1], id)
  }

  /** The gates of one object.  The result for the inputs is looked up by gate id among the enabled
      gates; the privacy signal of the object is added to the PII gate, enabled or not. */
  function ObjectGates(policy: Policy, inputs: Inputs, e: Evidence): seq<GateResult> {
    var found := DatasetGates(policy.gates, inputs);
    seq(|policy.gates|, i requires 0 <= i < |policy.gates| =>
      var g := policy.gates[i];
      GateResult(g.id, InputTriggered(found, g.id) || (g.id.PiiGate? && AtLeast(e.signals.privacyRisk, 0.8)), g.action, g.code))
  }

  /** Some enabled gate fires on the inputs. */
  ghost predicate InputsBlock(policy: Policy, inputs: Inputs) {
    exists i | 0 <= i < |policy.gates| :: policy.gates[i].enabled && Fires(policy.gates[i].id, inputs)
  }

  /** The object carries unmasked personal data and the policy has a PII gate, switched on or off. */
  ghost predicate EvidenceBlocks(policy: Policy, e: Evidence) {
    Level(e.signals.privacyRisk) >= 0.8 && exists i | 0 <= i < |policy.gates| :: policy.gates[i].id.PiiGate?
  }

  lemma {:induction false} InputTriggeredIff(gates: seq<HardGate>, inputs: Inputs, id: GateId)
    ensures InputTriggered(DatasetGates(gates, inputs), id) <==>
              Fires(id, inputs) && exists i | 0 <= i < |gates| :: gates[i].enabled && gates[i].id == id
  {
    if gates != [] {
      var front, g := gates[..|gates| - 1], gates[|gates| - 1];
      InputTriggeredIff(front, inputs, id);
      var before := DatasetGates(front, inputs);
      if g.enabled {
        assert (before + [GateResult(g.id, Fires(g.id, inputs), g.action, g.code)])[..|before|] == before;
      } else {
        assert before + [] == before;
      }
      assert forall i | 0 <= i < |front| :: front[i] == gates[i];
    }
  }

  /** An object is gated exactly when the inputs block the whole dataset or its own evidence does. */
  lemma ObjectGatedIff(policy: Policy, inputs: Inputs, e: Evidence)
    ensures (exists i | 0 <= i < |policy.gates| :: ObjectGates(policy, inputs, e)[i].triggered) <==>
              InputsBlock(policy, inputs) || EvidenceBlocks(policy, e)
  {
    var results := ObjectGates(policy, inputs, e);
    forall i | 0 <= i < |policy.gates|
      ensures results[i].triggered <==>
                || (Fires(policy.gates[i].id, inputs)
                    && exists j | 0 <= j < |policy.gates| :: policy.gates[j].enabled && policy.gates[j].id == policy.gates[i].id)
                || (policy.gates[i].id.PiiGate? && AtLeast(e.signals.privacyRisk, 0.8))
    {
      InputTriggeredIff(policy.gates, inputs, policy.gates[i].id);
    }
    AtLeastIff(e.signals.privacyRisk, 0.8);
    if InputsBlock(policy, inputs) {
      var i :| 0 <= i < |policy.gates| && policy.gates[i].enabled && Fires(policy.gates[i].id, inputs);
      assert results[i].triggered;
    }
    if EvidenceBlocks(policy, e) {
      var i :| 0 <= i < |policy.gates| && policy.gates[i].id.PiiGate?;
      assert results[i].triggered;
    }
  }

  // ---------------------------------------------------------------------------------------------
  // Recommendation rules
  // ---------------------------------------------------------------------------------------------

  datatype Recommendation = Recommendation(action: ActionType, codes: seq<Code>)

  predicate Matches(rule: Rule, e: Evidence) {
    var s := e.signals;
    match rule.code
    case ExactDuplicate => AtLeast(s.duplicate, rule.threshold)
    case RareClassUnderrepresented => AtLeast(s.rareSegment, rule.threshold)
    case TextPiiDetected => (e.modality.TextModality? || e.modality.DocumentOcr?) && AtLeast(s.privacyRisk, rule.threshold)
    case SevereOutlier =>
      s.technicalQuality.available && s.technicalQuality.value.Some? && s.technicalQuality.value.value <= 1.0 - rule.threshold
    case AmbiguousObject => AtLeast(s.ambiguousObject, rule.threshold)
    case ProbableLabelError => AtLeast(s.probableLabelError, rule.threshold)
    case _ => false
  }

  /** The reading of a signal; a signal without one reads below every threshold. */
  ghost function Level(s: Signal): real {
    if s.available && s.value != None then s.value.value else -1.0
  }

  lemma AtLeastIff(s: Signal, threshold: Score)
    ensures AtLeast(s, threshold) <==> Level(s) >= threshold
  {
  }

  /** The evidence reaches the rule's threshold: each rule reads one signal, personal data counts in
      text and scanned documents only, an outlier is a low quality, and there are no other rules. */
  ghost predicate Warrants(rule: Rule, e: Evidence) {
    var s := e.signals;
    || (rule.code == ExactDuplicate && Level(s.duplicate) >= rule.threshold)
    || (rule.code == RareClassUnderrepresented && Level(s.rareSegment) >= rule.threshold)
    || (rule.code == TextPiiDetected && e.modality in {TextModality, DocumentOcr} && Level(s.privacyRisk) >= rule.threshold)
    || (rule.code == SevereOutlier && 0.0 <= Level(s.technicalQuality) <= 1.0 - rule.threshold)
    || (rule.code == AmbiguousObject && Level(s.ambiguousObject) >= rule.threshold)
    || (rule.code == ProbableLabelError && Level(s.probableLabelError) >= rule.threshold)
  }

  lemma MatchesIff(rule: Rule, e: Evidence)
    ensures Matches(rule, e) <==> Warrants(rule, e)
  {
  }

  /** A code is given as a reason by a rule: its own, or one of the companions of two label rules. */
  ghost predicate GivesCode(rule: Rule, code: Code) {
    || code == rule.code
    || (rule.code == AmbiguousObject && (code == HighModelUncertainty || code == LowPredictionMargin))
    || (rule.code == ProbableLabelError && code == HighConfidenceLabelConflict)
  }

  lemma RuleCodesIff(rule: Rule, code: Code)
    ensures code in RuleCodes(rule.code) <==> GivesCode(rule, code)
    ensures RuleCodes(rule.code)[0] == rule.code
  {
  }

  function RuleCodes(code: Code): seq<Code> {
    match code
    case AmbiguousObject => [AmbiguousObject, HighModelUncertainty, LowPredictionMargin]
    case ProbableLabelError => [ProbableLabelError, HighConfidenceLabelConflict]
    case _ => [code]
  }

  function Recommendations(rules: seq<Rule>, e: Evidence): seq<Recommendation> {
    if rules == [] then []
    else
      var rule := rules[|rules| - 1];
      Recommendations(rules[..|rules| - 1], e)
      + (if rule.enabled && Matches(rule, e) then [Recommendation(rule.action, RuleCodes(rule.code))] else [])
  }

  method RecommendFromEvidence(policy: Policy, e: Evidence) returns (recs: seq<Recommendation>)
    ensures recs == Recommendations(policy.rules, e)
  {
    recs := [];
    for i := 0 to |policy.rules|
      invariant recs == Recommendations(policy.rules[..i], e)
    {
      var rule := policy.rules[i];
      assert policy.rules[..i + 1][..i] == policy.rules[..i];
      if !rule.enabled || !Matches(rule, e) {
        continue;
      }
      recs := recs + [Recommendation(rule.action, RuleCodes(rule.code))];
    }
    assert policy.rules[..|policy.rules|] == policy.rules;
  }

  /** A recommendation stands for an enabled rule that matched, and every such rule is heard; a
      missing-value rule never matches, whatever its threshold. */
  lemma {:induction false} RecommendedIff(rules: seq<Rule>, e: Evidence, r: Recommendation)
    ensures r in Recommendations(rules, e) <==>
              exists rule :: rule in rules && rule.enabled && Matches(rule, e) && r == Recommendation(rule.action, RuleCodes(rule.code))
    ensures forall i | 0 <= i < |Recommendations(rules, e)| :: MissingNumeric !in Recommendations(rules, e)[i].codes
  {
    if rules != [] {
      RecommendedIff(rules[..|rules| - 1], e, r);
      assert rules == rules[..|rules| - 1] + [rules[|rules| - 1]];
    }
  }

  // ---------------------------------------------------------------------------------------------
  // Object value
  // ---------------------------------------------------------------------------------------------

  function Max(a: real, b: real): real {
    if a >= b then a else b
  }

  function Value(s: Signal, default: Score): Score {
    if !s.available || s.value.None? then default else s.value.value
  }

  function Uncertainty(s: Signals): Score {
    if s.modelUncertainty.available then Value(s.modelUncertainty, 0.0)
    else if s.predictionEntropy.available then Value(s.predictionEntropy, 0.0)
    else if s.ambiguousObject.available then Value(s.ambiguousObject, 0.0)
    else if s.predictionConfidence.available then 1.0 - Value(s.predictionConfidence, 0.0)
    else 0.0
  }

  datatype Components = Components(
    learningValue: real, rarity: real, uncertainty: real, diversity: real, businessImportance: real, duplicate: real,
    quality: real, privacyRisk: real, labelRisk: real)

  function ComponentsOf(s: Signals): Components {
    var rare, uncertainty := Value(s.rareSegment, 0.0), Uncertainty(s);
    var issue, wrong, ambiguous := Value(s.labelIssue, 0.0), Value(s.probableLabelError, 0.0), Value(s.ambiguousObject, 0.0);
    Components(
      Max(rare, Max(uncertainty, Max(ambiguous, Max(wrong, issue)))), rare, uncertainty, 0.0, Value(s.businessImportance, 0.0),
      Value(s.duplicate, 0.0), 1.0 - Value(s.technicalQuality, 1.0), Value(s.privacyRisk, 0.0), Max(issue, wrong))
  }

  datatype Weights = Weights(
    learningValue: real, rarity: real, uncertainty: real, diversity: real, businessImportance: real, duplicate: real,
    quality: real, privacyRisk: real, labelRisk: real)

  const DEFAULT_WEIGHTS := Weights(0.25, 0.20, 0.20, 0.15, 0.10, -0.15, -0.10, -0.25, -0.10)

  function RawValue(c: Components, w: Weights): real {
    c.learningValue * w.learningValue + c.rarity * w.rarity + c.uncertainty * w.uncertainty + c.diversity * w.diversity
    + c.businessImportance * w.businessImportance + c.duplicate * w.duplicate + c.quality * w.quality
    + c.privacyRisk * w.privacyRisk + c.labelRisk * w.labelRisk
  }

  function Raw(s: Signals): real {
    RawValue(ComponentsOf(s), DEFAULT_WEIGHTS)
  }

  function Clamped(raw: real): Score {
    if raw < 0.0 then 0.0 else if raw > 1.0 then 1.0 else raw
  }

  const UNKNOWN := Signal(false, None)

  function Known(x: Score): Signal {
    Signal(true, Some(x))
  }

  const SILENT := Signals(UNKNOWN, UNKNOWN, UNKNOWN, UNKNOWN, UNKNOWN, UNKNOWN, UNKNOWN, UNKNOWN, UNKNOWN, UNKNOWN, UNKNOWN)

  /** Where uncertainty is read: the first of these signals that is available, even if it has no value. */
  lemma UncertaintyIs(s: Signals)
    ensures s.modelUncertainty.available ==> Uncertainty(s) == Max(0.0, Level(s.modelUncertainty))
    ensures !s.modelUncertainty.available && s.predictionEntropy.available ==>
              Uncertainty(s) == Max(0.0, Level(s.predictionEntropy))
    ensures !s.modelUncertainty.available && !s.predictionEntropy.available && s.ambiguousObject.available ==>
              Uncertainty(s) == Max(0.0, Level(s.ambiguousObject))
    ensures !s.modelUncertainty.available && !s.predictionEntropy.available && !s.ambiguousObject.available
            && s.predictionConfidence.available ==>
              Uncertainty(s) == 1.0 - Max(0.0, Level(s.predictionConfidence))
    ensures !s.modelUncertainty.available && !s.predictionEntropy.available && !s.ambiguousObject.available
            && !s.predictionConfidence.available ==>
              Uncertainty(s) == 0.0
  {
  }

  /** What one signal alone is worth.  A silent object is worth nothing, and perfect quality adds
      nothing; confidence counts by what it lacks. */
  lemma WorthOfOneSignal(x: Score)
    ensures Raw(SILENT) == 0.0
    ensures Raw(SILENT.(rareSegment := Known(x))) == 0.45 * x
    ensures Raw(SILENT.(modelUncertainty := Known(x))) == 0.45 * x
    ensures Raw(SILENT.(predictionEntropy := Known(x))) == 0.45 * x
    ensures Raw(SILENT.(ambiguousObject := Known(x))) == 0.45 * x
    ensures Raw(SILENT.(predictionConfidence := Known(x))) == 0.45 * (1.0 - x)
    ensures Raw(SILENT.(labelIssue := Known(x))) == 0.15 * x
    ensures Raw(SILENT.(probableLabelError := Known(x))) == 0.15 * x
    ensures Raw(SILENT.(businessImportance := Known(x))) == 0.10 * x
    ensures Raw(SILENT.(duplicate := Known(x))) == -0.15 * x
    ensures Raw(SILENT.(technicalQuality := Known(x))) == -0.10 * (1.0 - x)
    ensures Raw(SILENT.(privacyRisk := Known(x))) == -0.25 * x
  {
  }

  /** What two signals are worth together where they do not simply add up: learning value takes the
      greatest, label risk the greater, and an ambiguous object counts for learning value even if its
      uncertainty is read from elsewhere. */
  lemma WorthOfTwoSignals(x: Score, y: Score)
    ensures Raw(SILENT.(rareSegment := Known(x), modelUncertainty := Known(y))) == 0.20 * x + 0.20 * y + 0.25 * Max(x, y)
    ensures Raw(SILENT.(rareSegment := Known(x), labelIssue := Known(y))) == 0.20 * x - 0.10 * y + 0.25 * Max(x, y)
    ensures Raw(SILENT.(labelIssue := Known(x), probableLabelError := Known(y))) == 0.15 * Max(x, y)
    ensures Raw(SILENT.(modelUncertainty := Known(x), ambiguousObject := Known(y))) == 0.20 * x + 0.25 * Max(x, y)
  {
  }

  /** With the default weights the raw value of any object lies in [-0.50, 0.75], although the positive
      weights add up to 0.90 and the negative ones to -0.60: diversity is never measured, and label
      risk pays back through learning value at least what it costs. */
  lemma RawValueBounds(s: Signals)
    ensures -0.50 <= Raw(s) <= 0.75
    ensures Clamped(Raw(s)) == Max(0.0, Raw(s))
  {
    var c := ComponentsOf(s);
    assert c.labelRisk <= c.learningValue;
  }

  /** Both bounds are reached. */
  lemma RawValueBoundsAreTight()
    ensures Raw(SILENT.(rareSegment := Known(1.0), modelUncertainty := Known(1.0), businessImportance := Known(1.0))) == 0.75
    ensures Raw(SILENT.(duplicate := Known(1.0), technicalQuality := Known(0.0), privacyRisk := Known(1.0))) == -0.50
  {
  }

  /** Two objects that differ only in the given respects: rarer, more important, less duplicated, less
      risky never scores lower. */
  lemma RawValueIsMonotone(s: Signals, rare: Signal, business: Signal, duplicate: Signal, privacy: Signal)
    requires Value(rare, 0.0) >= Value(s.rareSegment, 0.0) && Value(business, 0.0) >= Value(s.businessImportance, 0.0)
    requires Value(duplicate, 0.0) <= Value(s.duplicate, 0.0) && Value(privacy, 0.0) <= Value(s.privacyRisk, 0.0)
    ensures Raw(s.(rareSegment := rare, businessImportance := business, duplicate := duplicate, privacyRisk := privacy)) >= Raw(s)
  {
    var t := s.(rareSegment := rare, businessImportance := business, duplicate := duplicate, privacyRisk := privacy);
    assert Uncertainty(t) == Uncertainty(s);
    assert ComponentsOf(t).learningValue >= ComponentsOf(s).learningValue;
  }

  /** Label risk cuts both ways.  Raising the label-issue signal alone can only raise learning value
      and label risk; it lowers the object's value exactly when learning value gains less than two
      fifths of what label risk gains, as when another signal already dominates learning value. */
  lemma LabelIssueMovesValue(s: Signals, issue: Signal)
    requires Value(issue, 0.0) >= Value(s.labelIssue, 0.0)
    ensures var t := s.(labelIssue := issue);
            var (c, d) := (ComponentsOf(s), ComponentsOf(t));
            && Raw(t) - Raw(s) == 0.25 * (d.learningValue - c.learningValue) - 0.10 * (d.labelRisk - c.labelRisk)
            && d.learningValue >= c.learningValue && d.labelRisk >= c.labelRisk
            && (Raw(t) < Raw(s) <==> 5.0 * (d.learningValue - c.learningValue) < 2.0 * (d.labelRisk - c.labelRisk))
  {
    var t := s.(labelIssue := issue);
    assert Uncertainty(t) == Uncertainty(s);
  }
}
