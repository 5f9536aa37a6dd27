/** Assembling the decision report: objects, blockers, recommendation groups and readiness
    (app/kernel/decision_report.py). */
module DecisionReport {
  import opened Basics
  import opened Domain
  import opened DecisionPolicy

  datatype Action =
    | Keep | RemoveDuplicate | SendToLabelReview | SendToPrivacyReview | ImputeMissingValues | AugmentRareClass
    | GenerateSyntheticCandidate | BlockExport | ExportReady

  /** One object: its evidence, the gates that fired for it, the action and the reasons. */
  datatype Context = Context(evidence: Evidence, gates: seq<GateResult>, action: Action, reasons: seq<Code>, value: Score)

  // ---------------------------------------------------------------------------------------------
  // One object
  // ---------------------------------------------------------------------------------------------

  predicate HardBlocked(gates: seq<GateResult>) {
    exists i | 0 <= i < |gates| :: gates[i].triggered
  }

  predicate Reasons(recs: seq<Recommendation>, code: Code) {
    exists r | r in recs :: code in r.codes
  }

  predicate Suggests(recs: seq<Recommendation>, action: ActionType) {
    exists r | r in recs :: r.action == action
  }

  function ObjectAction(gates: seq<GateResult>, recs: seq<Recommendation>): Action {
    if HardBlocked(gates) then BlockExport
    else if Reasons(recs, ProbableLabelError) || Reasons(recs, AmbiguousObject) then SendToLabelReview
    else if Suggests(recs, ToPrivacyReview) then SendToPrivacyReview
    else if Suggests(recs, ToDuplicateReview) then RemoveDuplicate
    else if Suggests(recs, ImputationReview) then ImputeMissingValues
    else if Suggests(recs, RareClassAugmentation) then AugmentRareClass
    else Keep
  }

  function CodesOf(recs: seq<Recommendation>): seq<Code> {
    if recs == [] then [] else CodesOf(recs[..|recs| - 1]) + recs[|recs| - 1].codes
  }

  function FiredCodes(gates: seq<GateResult>): seq<Code> {
    if gates == [] then []
    else FiredCodes(gates[..|gates| - 1]) + (if gates[|gates| - 1].triggered then [gates[|gates| - 1].code] else [])
  }

  function ComponentCodes(c: Components): seq<Code> {
    (if c.duplicate >= 0.5 then [ExactDuplicate] else [])
    + (if c.rarity >= 0.7 then [RareClassUnderrepresented] else [])
    + (if c.privacyRisk > 0.0 then [TextPiiDetected] else [])
    + (if c.quality >= 0.75 then [SevereOutlier] else [])
    + (if c.uncertainty >= 0.5 then [AmbiguousObject] else [])
    + (if c.labelRisk >= 0.5 then [ProbableLabelError] else [])
  }

  function ReasonCodes(gates: seq<GateResult>, recs: seq<Recommendation>, s: Signals): seq<Code> {
    var codes := CodesOf(recs) + FiredCodes(gates) + ComponentCodes(ComponentsOf(s));
    if codes == [] then [ExportReadyCode] else OrderedUnique(codes)
  }

  function ContextOf(policy: Policy, inputs: Inputs, e: Evidence): Context {
    var gates, recs := ObjectGates(policy, inputs, e), Recommendations(policy.rules, e);
    Context(e, gates, ObjectAction(gates, recs), ReasonCodes(gates, recs, e.signals), Clamped(Raw(e.signals)))
  }

  function Contexts(policy: Policy, inputs: Inputs, evidence: seq<Evidence>): seq<Context> {
    seq(|evidence|, i requires 0 <= i < |evidence| => ContextOf(policy, inputs, evidence[i]))
  }

  // ---------------------------------------------------------------------------------------------
  // What is decided for one object
  // ---------------------------------------------------------------------------------------------

  /** An enabled rule that the evidence warrants asks for an action. */
  ghost predicate Asks(policy: Policy, e: Evidence, action: ActionType) {
    exists rule :: rule in policy.rules && rule.enabled && Warrants(rule, e) && rule.action == action
  }

  /** An enabled rule doubts the label: it found a probable error or an ambiguous object. */
  ghost predicate DoubtsLabel(policy: Policy, e: Evidence) {
    exists rule :: rule in policy.rules && rule.enabled && Warrants(rule, e) && rule.code in {ProbableLabelError, AmbiguousObject}
  }

  ghost predicate Gated(policy: Policy, inputs: Inputs, e: Evidence) {
    InputsBlock(policy, inputs) || EvidenceBlocks(policy, e)
  }

  /** The action for an object: what is gated is blocked; then a doubtful label goes before whatever the
      rules ask for, privacy before duplicates, duplicates before missing values, missing values
      before rare classes; and what no rule asks about is kept. */
  ghost predicate Decides(policy: Policy, inputs: Inputs, e: Evidence, a: Action) {
    && (a == BlockExport <==> Gated(policy, inputs, e))
    && (a == SendToLabelReview <==> !Gated(policy, inputs, e) && DoubtsLabel(policy, e))
    && (a == SendToPrivacyReview <==> !Gated(policy, inputs, e) && !DoubtsLabel(policy, e) && Asks(policy, e, ToPrivacyReview))
    && (a == RemoveDuplicate <==>
          !Gated(policy, inputs, e) && !DoubtsLabel(policy, e) && !Asks(policy, e, ToPrivacyReview) && Asks(policy, e, ToDuplicateReview))
    && (a == ImputeMissingValues <==>
          && !Gated(policy, inputs, e) && !DoubtsLabel(policy, e) && !Asks(policy, e, ToPrivacyReview)
          && !Asks(policy, e, ToDuplicateReview) && Asks(policy, e, ImputationReview))
    && (a == AugmentRareClass <==>
          && !Gated(policy, inputs, e) && !DoubtsLabel(policy, e) && !Asks(policy, e, ToPrivacyReview)
          && !Asks(policy, e, ToDuplicateReview) && !Asks(policy, e, ImputationReview) && Asks(policy, e, RareClassAugmentation))
    && (a == Keep <==>
          && !Gated(policy, inputs, e) && !DoubtsLabel(policy, e) && !Asks(policy, e, ToPrivacyReview)
          && !Asks(policy, e, ToDuplicateReview) && !Asks(policy, e, ImputationReview) && !Asks(policy, e, RareClassAugmentation))
  }

  lemma SuggestsIff(policy: Policy, e: Evidence, action: ActionType)
    ensures Suggests(Recommendations(policy.rules, e), action) <==> Asks(policy, e, action)
  {
    var recs := Recommendations(policy.rules, e);
    if Suggests(recs, action) {
      var r :| r in recs && r.action == action;
      RecommendedIff(policy.rules, e, r);
      var rule :| rule in policy.rules && rule.enabled && Matches(rule, e) && r == Recommendation(rule.action, RuleCodes(rule.code));
      MatchesIff(rule, e);
    }
    if Asks(policy, e, action) {
      var rule :| rule in policy.rules && rule.enabled && Warrants(rule, e) && rule.action == action;
      MatchesIff(rule, e);
      RecommendedIff(policy.rules, e, Recommendation(rule.action, RuleCodes(rule.code)));
    }
  }

  /** A rule that the evidence warrants gives this code as a reason. */
  ghost predicate GivenByRule(policy: Policy, e: Evidence, code: Code) {
    exists rule :: rule in policy.rules && rule.enabled && Warrants(rule, e) && GivesCode(rule, code)
  }

  lemma ReasonsIff(policy: Policy, e: Evidence, code: Code)
    ensures Reasons(Recommendations(policy.rules, e), code) <==> GivenByRule(policy, e, code)
  {
    var recs := Recommendations(policy.rules, e);
    if Reasons(recs, code) {
      var r :| r in recs && code in r.codes;
      RecommendedIff(policy.rules, e, r);
      var rule :| rule in policy.rules && rule.enabled && Matches(rule, e) && r == Recommendation(rule.action, RuleCodes(rule.code));
      MatchesIff(rule, e);
      RuleCodesIff(rule, code);
    }
    if GivenByRule(policy, e, code) {
      var rule :| rule in policy.rules && rule.enabled && Warrants(rule, e) && GivesCode(rule, code);
      MatchesIff(rule, e);
      RuleCodesIff(rule, code);
      RecommendedIff(policy.rules, e, Recommendation(rule.action, RuleCodes(rule.code)));
    }
  }

  lemma LabelDoubts(policy: Policy, e: Evidence)
    ensures GivenByRule(policy, e, ProbableLabelError) || GivenByRule(policy, e, AmbiguousObject) <==> DoubtsLabel(policy, e)
  {
    if DoubtsLabel(policy, e) {
      var rule :| rule in policy.rules && rule.enabled && Warrants(rule, e) && rule.code in {ProbableLabelError, AmbiguousObject};
      assert GivesCode(rule, rule.code);
    }
  }

  lemma ObjectActionIs(policy: Policy, inputs: Inputs, e: Evidence)
    ensures Decides(policy, inputs, e, ContextOf(policy, inputs, e).action)
  {
    ObjectGatedIff(policy, inputs, e);
    ReasonsIff(policy, e, ProbableLabelError);
    ReasonsIff(policy, e, AmbiguousObject);
    LabelDoubts(policy, e);
    SuggestsIff(policy, e, ToPrivacyReview);
    SuggestsIff(policy, e, ToDuplicateReview);
    SuggestsIff(policy, e, ImputationReview);
    SuggestsIff(policy, e, RareClassAugmentation);
  }

  /** Gate g fires for the object: on the inputs, if a gate of its kind is enabled, or on the object's
      own personal data if it is a PII gate. */
  ghost predicate GateFires(policy: Policy, inputs: Inputs, e: Evidence, g: HardGate) {
    || (Fires(g.id, inputs) && exists i | 0 <= i < |policy.gates| :: policy.gates[i].enabled && policy.gates[i].id == g.id)
    || (g.id == PiiGate && Level(e.signals.privacyRisk) >= 0.8)
  }

  ghost predicate GivenByGate(policy: Policy, inputs: Inputs, e: Evidence, code: Code) {
    exists i | 0 <= i < |policy.gates| :: policy.gates[i].code == code && GateFires(policy, inputs, e, policy.gates[i])
  }

  /** A signal alone can give a reason, with or without a rule for it. */
  ghost predicate GivenBySignal(s: Signals, code: Code) {
    || (code == ExactDuplicate && Level(s.duplicate) >= 0.5)
    || (code == RareClassUnderrepresented && Level(s.rareSegment) >= 0.7)
    || (code == TextPiiDetected && Level(s.privacyRisk) > 0.0)
    || (code == SevereOutlier && 0.0 <= Level(s.technicalQuality) <= 0.25)
    || (code == AmbiguousObject && Uncertainty(s) >= 0.5)
    || (code == ProbableLabelError && (Level(s.labelIssue) >= 0.5 || Level(s.probableLabelError) >= 0.5))
  }

  ghost predicate Given(policy: Policy, inputs: Inputs, e: Evidence, code: Code) {
    GivenByRule(policy, e, code) || GivenByGate(policy, inputs, e, code) || GivenBySignal(e.signals, code)
  }

  /** The reasons of an object: from rules, from gates and from its signals, or ready for export if
      there are none. */
  lemma ObjectReasonsAre(policy: Policy, inputs: Inputs, e: Evidence, code: Code)
    ensures code in ContextOf(policy, inputs, e).reasons <==>
              Given(policy, inputs, e, code) || (code == ExportReadyCode && forall c :: !Given(policy, inputs, e, c))
    ensures NoDuplicates(ContextOf(policy, inputs, e).reasons) && ContextOf(policy, inputs, e).reasons != []
  {
    var codes := AllReasons(policy, inputs, e);
    forall c ensures c in codes <==> Given(policy, inputs, e, c) {
      AllReasonsIff(policy, inputs, e, c);
    }
    if codes == [] {
      assert forall c :: c !in codes;
    } else {
      assert Given(policy, inputs, e, codes[0]) && codes[0] in OrderedUnique(codes);
    }
  }

  ghost function AllReasons(policy: Policy, inputs: Inputs, e: Evidence): seq<Code> {
    CodesOf(Recommendations(policy.rules, e)) + FiredCodes(ObjectGates(policy, inputs, e)) + ComponentCodes(ComponentsOf(e.signals))
  }

  lemma AllReasonsIff(policy: Policy, inputs: Inputs, e: Evidence, c: Code)
    ensures c in AllReasons(policy, inputs, e) <==> Given(policy, inputs, e, c)
  {
    ReasonsIff(policy, e, c);
    CodesOfIff(Recommendations(policy.rules, e), c);
    FiredCodesIff(policy, inputs, e, c);
    ComponentCodesIff(e.signals, c);
  }

  lemma {:induction false} CodesOfIff(recs: seq<Recommendation>, code: Code)
    ensures code in CodesOf(recs) <==> Reasons(recs, code)
  {
    if recs != [] {
      CodesOfIff(recs[..|recs| - 1], code);
      assert recs == recs[..|recs| - 1] + [recs[|recs| - 1]];
    }
  }

  lemma {:induction false} FiredIff(gates: seq<GateResult>, code: Code)
    ensures code in FiredCodes(gates) <==> exists i | 0 <= i < |gates| :: gates[i].triggered && gates[i].code == code
  {
    if gates != [] {
      var front := gates[..|gates| - 1];
      FiredIff(front, code);
      assert forall i | 0 <= i < |front| :: front[i] == gates[i];
    }
  }

  lemma FiredCodesIff(policy: Policy, inputs: Inputs, e: Evidence, code: Code)
    ensures code in FiredCodes(ObjectGates(policy, inputs, e)) <==> GivenByGate(policy, inputs, e, code)
  {
    var gates := ObjectGates(policy, inputs, e);
    FiredIff(gates, code);
    forall i | 0 <= i < |gates| ensures gates[i].triggered <==> GateFires(policy, inputs, e, policy.gates[i]) {
      ObjectGateIff(policy, inputs, e, i);
    }
    if GivenByGate(policy, inputs, e, code) {
      var i :| 0 <= i < |policy.gates| && policy.gates[i].code == code && GateFires(policy, inputs, e, policy.gates[i]);
      assert gates[i].triggered && gates[i].code == code;
    }
  }

  lemma ObjectGateIff(policy: Policy, inputs: Inputs, e: Evidence, i: nat)
    requires i < |policy.gates|
    ensures ObjectGates(policy, inputs, e)[i].triggered <==> GateFires(policy, inputs, e, policy.gates[i])
  {
    InputTriggeredIff(policy.gates, inputs, policy.gates[i].id);
    AtLeastIff(e.signals.privacyRisk, 0.8);
  }

  lemma ComponentCodesIff(s: Signals, code: Code)
    ensures code in ComponentCodes(ComponentsOf(s)) <==> GivenBySignal(s, code)
  {
  }

  /** Reasons from rules come first, in the order of the rules, then those from gates. */
  lemma {:induction false} CodesOfAppend(a: seq<Recommendation>, b: seq<Recommendation>)
    ensures CodesOf(a + b) == CodesOf(a) + CodesOf(b)
    ensures forall r :: CodesOf([r]) == r.codes
  {
    forall r ensures CodesOf([r]) == r.codes {
      assert CodesOf([r][..0]) == [];
    }
    if b == [] {
      assert a + b == a;
    } else {
      assert (a + b)[..|a + b| - 1] == a + b[..|b| - 1];
      CodesOfAppend(a, b[..|b| - 1]);
    }
  }

  // ---------------------------------------------------------------------------------------------
  // Blockers
  // ---------------------------------------------------------------------------------------------

  /** One gate that fired, with the evidence it brings: none for the dataset, the first three
      references for an object. */
  datatype Firing = Firing(code: Code, refs: seq<string>)

  function FiringsOf(gates: seq<GateResult>, refs: seq<string>): seq<Firing> {
    if gates == [] then []
    else
      var g := gates[|gates| - 1];
      FiringsOf(gates[..|gates| - 1], refs) + (if g.triggered then [Firing(g.code, refs)] else [])
  }

  function Limited(refs: seq<string>): seq<string> {
    if |refs| <= 3 then refs else refs[..3]
  }

  function ObjectFirings(contexts: seq<Context>): seq<Firing> {
    if contexts == [] then []
    else
      var c := contexts[|contexts| - 1];
      ObjectFirings(contexts[..|contexts| - 1]) + FiringsOf(c.gates, Limited(c.evidence.refs))
  }

  function Firings(policy: Policy, inputs: Inputs, evidence: seq<Evidence>): seq<Firing> {
    FiringsOf(DatasetGates(policy.gates, inputs), []) + ObjectFirings(Contexts(policy, inputs, evidence))
  }

  function Codes(firings: seq<Firing>): seq<Code> {
    seq(|firings|, i requires 0 <= i < |firings| => firings[i].code)
  }

  /** How often a code fired, and all the evidence its firings bring, in order. */
  function Count(firings: seq<Firing>, code: Code): nat {
    if firings == [] then 0
    else Count(firings[..|firings| - 1], code) + (if firings[|firings| - 1].code == code then 1 else 0)
  }

  function AllEvidence(firings: seq<Firing>, code: Code): seq<string> {
    if firings == [] then []
    else
      var f := firings[|firings| - 1];
      AllEvidence(firings[..|firings| - 1], code) + (if f.code == code then f.refs else [])
  }

  /** What a blocker lists: a code that fired once keeps its references as they are, repetitions and
      all; otherwise each reference is listed once, in the order first given. */
  function EvidenceFor(firings: seq<Firing>, code: Code): seq<string> {
    if Count(firings, code) == 1 then AllEvidence(firings, code) else OrderedUnique(AllEvidence(firings, code))
  }

  lemma {:induction false} NeverFired(firings: seq<Firing>, code: Code)
    ensures Count(firings, code) == 0 <==> code !in Codes(firings)
    ensures code !in Codes(firings) ==> AllEvidence(firings, code) == []
  {
    if firings != [] {
      var front, f := firings[..|firings| - 1], firings[|firings| - 1];
      NeverFired(front, code);
      assert Codes(firings) == Codes(front) + [f.code];
    }
  }

  lemma FiredSnoc(firings: seq<Firing>, f: Firing, code: Code)
    ensures Count(firings + [f], code) == Count(firings, code) + (if f.code == code then 1 else 0)
    ensures AllEvidence(firings + [f], code) == AllEvidence(firings, code) + (if f.code == code then f.refs else [])
  {
    assert (firings + [f])[..|firings|] == firings;
  }

  lemma EvidenceSnoc(firings: seq<Firing>, f: Firing, code: Code)
    ensures f.code != code ==> EvidenceFor(firings + [f], code) == EvidenceFor(firings, code)
    ensures f.code == code && code !in Codes(firings) ==> EvidenceFor(firings + [f], code) == f.refs
    ensures f.code == code && code in Codes(firings) ==>
              EvidenceFor(firings + [f], code) == OrderedUnique(EvidenceFor(firings, code) + f.refs)
  {
    var all := AllEvidence(firings, code);
    FiredSnoc(firings, f, code);
    NeverFired(firings, code);
    OrderedUniqueAbsorbs(all, f.refs);
    assert all + [] == all && [] + f.refs == f.refs;
  }

  /** One entry per code that fired, holding its evidence. */
  ghost predicate Gathers(blockers: map<Code, seq<string>>, firings: seq<Firing>) {
    && (forall c :: c in blockers <==> c in Codes(firings))
    && (forall c | c in blockers :: blockers[c] == EvidenceFor(firings, c))
  }

  /** The dict after one more firing. */
  function Gather(blockers: map<Code, seq<string>>, f: Firing): map<Code, seq<string>> {
    if f.code !in blockers then blockers[f.code := f.refs]
    else blockers[f.code := OrderedUnique(blockers[f.code] + f.refs)]
  }

  lemma GatherKeeps(blockers: map<Code, seq<string>>, firings: seq<Firing>, f: Firing)
    requires Gathers(blockers, firings)
    ensures Gathers(Gather(blockers, f), firings + [f])
  {
    var more, after := firings + [f], Gather(blockers, f);
    assert Codes(more) == Codes(firings) + [f.code];
    forall c | c in after ensures after[c] == EvidenceFor(more, c) {
      EvidenceSnoc(firings, f, c);
    }
  }

  lemma UniqueCodesSnoc(firings: seq<Firing>, f: Firing)
    ensures OrderedUnique(Codes(firings + [f])) ==
            OrderedUnique(Codes(firings)) + (if f.code in Codes(firings) then [] else [f.code])
  {
    assert Codes(firings + [f]) == Codes(firings) + [f.code];
    OrderedUniqueAppend(Codes(firings), f.code);
  }

  /** One blocker per reason code, in the order in which the codes first fired, with its evidence. */
  method CriticalBlockers(firings: seq<Firing>) returns (codes: seq<Code>, blockers: map<Code, seq<string>>)
    ensures codes == OrderedUnique(Codes(firings))
    ensures Gathers(blockers, firings)
  {
    codes, blockers := [], map[];
    ghost var done: seq<Firing> := [];
    for n := 0 to |firings|
      invariant done == firings[..n]
      invariant codes == OrderedUnique(Codes(done)) && Gathers(blockers, done)
    {
      var f := firings[n];
      UniqueCodesSnoc(done, f);
      GatherKeeps(blockers, done, f);
      if f.code !in blockers {
        codes := codes + [f.code];
      }
      blockers := Gather(blockers, f);
      done := done + [f];
    }
    assert done == firings;
  }

  /** An enabled gate with this code fires on the inputs. */
  ghost predicate FiresForDataset(policy: Policy, inputs: Inputs, code: Code) {
    exists g :: g in policy.gates && g.enabled && g.code == code && Fires(g.id, inputs)
  }

  lemma {:induction false} FiringsOfIff(gates: seq<GateResult>, refs: seq<string>, f: Firing)
    ensures f in FiringsOf(gates, refs) <==>
              f.refs == refs && exists i | 0 <= i < |gates| :: gates[i].triggered && gates[i].code == f.code
  {
    if gates != [] {
      var front := gates[..|gates| - 1];
      FiringsOfIff(front, refs, f);
      assert forall i | 0 <= i < |front| :: front[i] == gates[i];
    }
  }

  lemma {:induction false} ObjectFiringsIff(contexts: seq<Context>, f: Firing)
    ensures f in ObjectFirings(contexts) <==>
              exists i | 0 <= i < |contexts| :: f in FiringsOf(contexts[i].gates, Limited(contexts[i].evidence.refs))
  {
    if contexts != [] {
      var front := contexts[..|contexts| - 1];
      ObjectFiringsIff(front, f);
      assert forall i | 0 <= i < |front| :: front[i] == contexts[i];
    }
  }

  /** What fires: gates on the inputs, without evidence, and gates on objects, with the first three
      references of the object. */
  lemma FiringsIff(policy: Policy, inputs: Inputs, evidence: seq<Evidence>, f: Firing)
    ensures f in Firings(policy, inputs, evidence) <==>
              || (f.refs == [] && FiresForDataset(policy, inputs, f.code))
              || exists i | 0 <= i < |evidence| :: GivenByGate(policy, inputs, evidence[i], f.code) && f.refs == Limited(evidence[i].refs)
  {
    var found, contexts := DatasetGates(policy.gates, inputs), Contexts(policy, inputs, evidence);
    FiringsOfIff(found, [], f);
    DatasetFiringIff(policy, inputs, f.code);
    ObjectFiringsIff(contexts, f);
    forall i | 0 <= i < |evidence|
      ensures f in FiringsOf(contexts[i].gates, Limited(contexts[i].evidence.refs)) <==>
                GivenByGate(policy, inputs, evidence[i], f.code) && f.refs == Limited(evidence[i].refs)
    {
      FiringsOfIff(contexts[i].gates, Limited(evidence[i].refs), f);
      FiredIff(contexts[i].gates, f.code);
      FiredCodesIff(policy, inputs, evidence[i], f.code);
    }
  }

  lemma DatasetFiringIff(policy: Policy, inputs: Inputs, code: Code)
    ensures (exists i | 0 <= i < |DatasetGates(policy.gates, inputs)| ::
               DatasetGates(policy.gates, inputs)[i].triggered && DatasetGates(policy.gates, inputs)[i].code == code)
            <==> FiresForDataset(policy, inputs, code)
  {
    var found := DatasetGates(policy.gates, inputs);
    forall i | 0 <= i < |found| && found[i].triggered && found[i].code == code ensures FiresForDataset(policy, inputs, code) {
      DatasetGatesHold(policy.gates, inputs, found[i]);
    }
    if FiresForDataset(policy, inputs, code) {
      var g :| g in policy.gates && g.enabled && g.code == code && Fires(g.id, inputs);
      var r := GateResult(g.id, Fires(g.id, inputs), g.action, g.code);
      DatasetGatesHold(policy.gates, inputs, r);
      assert r in found;
    }
  }

  lemma {:induction false} AllEvidenceIff(firings: seq<Firing>, code: Code, ref: string)
    ensures ref in AllEvidence(firings, code) <==> exists f :: f in firings && f.code == code && ref in f.refs
  {
    if firings != [] {
      AllEvidenceIff(firings[..|firings| - 1], code, ref);
      assert firings == firings[..|firings| - 1] + [firings[|firings| - 1]];
    }
  }

  /** Reference `ref` is one of the first three that an object brings. */
  ghost predicate AmongFirstThree(refs: seq<string>, ref: string) {
    exists k | 0 <= k < 3 && k < |refs| :: refs[k] == ref
  }

  /** What a blocker stands for: a gate with its code fired, on the inputs or for some object, and its
      evidence are the first three references of the objects it fired for. */
  lemma BlockerIff(policy: Policy, inputs: Inputs, evidence: seq<Evidence>, code: Code, ref: string)
    ensures code in Codes(Firings(policy, inputs, evidence)) <==>
              || FiresForDataset(policy, inputs, code)
              || exists i | 0 <= i < |evidence| :: GivenByGate(policy, inputs, evidence[i], code)
    ensures ref in EvidenceFor(Firings(policy, inputs, evidence), code) <==>
              exists i | 0 <= i < |evidence| :: GivenByGate(policy, inputs, evidence[i], code) && AmongFirstThree(evidence[i].refs, ref)
  {
    BlockerCodeIff(policy, inputs, evidence, code);
    BlockerEvidenceIff(policy, inputs, evidence, code, ref);
  }

  lemma BlockerCodeIff(policy: Policy, inputs: Inputs, evidence: seq<Evidence>, code: Code)
    ensures code in Codes(Firings(policy, inputs, evidence)) <==>
              || FiresForDataset(policy, inputs, code)
              || exists i | 0 <= i < |evidence| :: GivenByGate(policy, inputs, evidence[i], code)
  {
    var firings := Firings(policy, inputs, evidence);
    forall f | f in firings && f.code == code
      ensures FiresForDataset(policy, inputs, code) || exists i | 0 <= i < |evidence| :: GivenByGate(policy, inputs, evidence[i], code)
    {
      FiringsIff(policy, inputs, evidence, f);
    }
    forall i | 0 <= i < |evidence| && GivenByGate(policy, inputs, evidence[i], code)
      ensures Firing(code, Limited(evidence[i].refs)) in firings
    {
      FiringsIff(policy, inputs, evidence, Firing(code, Limited(evidence[i].refs)));
    }
    FiringsIff(policy, inputs, evidence, Firing(code, []));
    CodesIff(firings, code);
  }

  lemma BlockerEvidenceIff(policy: Policy, inputs: Inputs, evidence: seq<Evidence>, code: Code, ref: string)
    ensures ref in EvidenceFor(Firings(policy, inputs, evidence), code) <==>
              exists i | 0 <= i < |evidence| :: GivenByGate(policy, inputs, evidence[i], code) && AmongFirstThree(evidence[i].refs, ref)
  {
    var firings := Firings(policy, inputs, evidence);
    AllEvidenceIff(firings, code, ref);
    forall f | f in firings && f.code == code && ref in f.refs
      ensures exists i | 0 <= i < |evidence| :: GivenByGate(policy, inputs, evidence[i], code) && AmongFirstThree(evidence[i].refs, ref)
    {
      FiringsIff(policy, inputs, evidence, f);
      var i :| 0 <= i < |evidence| && GivenByGate(policy, inputs, evidence[i], code) && f.refs == Limited(evidence[i].refs);
      LimitedIff(evidence[i].refs, ref);
    }
    forall i | 0 <= i < |evidence| && GivenByGate(policy, inputs, evidence[i], code) && AmongFirstThree(evidence[i].refs, ref)
      ensures exists f :: f in firings && f.code == code && ref in f.refs
    {
      var f := Firing(code, Limited(evidence[i].refs));
      FiringsIff(policy, inputs, evidence, f);
      LimitedIff(evidence[i].refs, ref);
      assert f in firings;
    }
  }

  lemma LimitedIff(refs: seq<string>, ref: string)
    ensures ref in Limited(refs) <==> AmongFirstThree(refs, ref)
    ensures Limited(refs) <= refs
  {
  }

  lemma CodesIff(firings: seq<Firing>, code: Code)
    ensures code in Codes(firings) <==> exists f :: f in firings && f.code == code
  {
    forall i | 0 <= i < |firings| ensures Codes(firings)[i] == firings[i].code {
    }
    if exists f :: f in firings && f.code == code {
      var i :| 0 <= i < |firings| && firings[i].code == code;
      assert Codes(firings)[i] == code;
    }
  }

  /** Something fired for the dataset or for one of its objects. */
  ghost predicate Blocked(policy: Policy, inputs: Inputs, evidence: seq<Evidence>) {
    Firings(policy, inputs, evidence) != []
  }

  lemma {:induction false} FiringsOfEmptyIff(gates: seq<GateResult>, refs: seq<string>)
    ensures FiringsOf(gates, refs) == [] <==> !HardBlocked(gates)
  {
    if gates != [] {
      FiringsOfEmptyIff(gates[..|gates| - 1], refs);
      assert forall i | 0 <= i < |gates| - 1 :: gates[..|gates| - 1][i] == gates[i];
    }
  }

  lemma {:induction false} ObjectFiringsEmptyIff(contexts: seq<Context>)
    ensures ObjectFirings(contexts) == [] <==> forall i | 0 <= i < |contexts| :: !HardBlocked(contexts[i].gates)
  {
    if contexts != [] {
      var front, c := contexts[..|contexts| - 1], contexts[|contexts| - 1];
      ObjectFiringsEmptyIff(front);
      FiringsOfEmptyIff(c.gates, Limited(c.evidence.refs));
      assert (forall i | 0 <= i < |contexts| :: !HardBlocked(contexts[i].gates)) <==>
             (forall i | 0 <= i < |front| :: !HardBlocked(front[i].gates)) && !HardBlocked(c.gates) by {
        assert contexts == front + [c];
      }
    }
  }

  lemma DatasetFiresIff(policy: Policy, inputs: Inputs)
    ensures HardBlocked(DatasetGates(policy.gates, inputs)) <==> InputsBlock(policy, inputs)
  {
    var results := DatasetGates(policy.gates, inputs);
    if HardBlocked(results) {
      var i :| 0 <= i < |results| && results[i].triggered;
      DatasetGatesHold(policy.gates, inputs, results[i]);
      var g :| g in policy.gates && g.enabled && results[i] == GateResult(g.id, Fires(g.id, inputs), g.action, g.code);
      var j :| 0 <= j < |policy.gates| && policy.gates[j] == g;
      assert policy.gates[j].enabled && Fires(policy.gates[j].id, inputs);
    }
    if InputsBlock(policy, inputs) {
      var j :| 0 <= j < |policy.gates| && policy.gates[j].enabled && Fires(policy.gates[j].id, inputs);
      var g := policy.gates[j];
      var r := GateResult(g.id, Fires(g.id, inputs), g.action, g.code);
      DatasetGatesHold(policy.gates, inputs, r);
      assert r in results && r.triggered;
    }
  }

  /** There are blockers exactly when an enabled gate fires on the inputs or some object's own evidence
      blocks it: personal data at risk 0.8 or more under a policy that lists a PII gate, even one
      that is switched off. */
  lemma BlockedIff(policy: Policy, inputs: Inputs, evidence: seq<Evidence>)
    ensures Blocked(policy, inputs, evidence) <==>
              InputsBlock(policy, inputs) || exists i | 0 <= i < |evidence| :: EvidenceBlocks(policy, evidence[i])
  {
    var contexts := Contexts(policy, inputs, evidence);
    FiringsOfEmptyIff(DatasetGates(policy.gates, inputs), []);
    ObjectFiringsEmptyIff(contexts);
    DatasetFiresIff(policy, inputs);
    forall i | 0 <= i < |evidence|
      ensures HardBlocked(contexts[i].gates) <==> InputsBlock(policy, inputs) || EvidenceBlocks(policy, evidence[i])
    {
      ObjectGatedIff(policy, inputs, evidence[i]);
      assert contexts[i].gates == ObjectGates(policy, inputs, evidence[i]);
    }
  }

  /** The switched-off gate shows: nothing fires on the inputs, yet the dataset is blocked. */
  lemma SwitchedOffGateBlocks(g: HardGate, rules: seq<Rule>, inputs: Inputs, e: Evidence)
    requires g.id.PiiGate? && !g.enabled && AtLeast(e.signals.privacyRisk, 0.8)
    ensures !InputsBlock(Policy([g], rules), inputs) && Blocked(Policy([g], rules), inputs, [e])
  {
    var policy := Policy([g], rules);
    BlockedIff(policy, inputs, [e]);
    assert policy.gates[0].id.PiiGate?;
    assert EvidenceBlocks(policy, [e][0]);
  }

  /** A gate on the inputs blocks every object, whatever its value; a gate on one object's evidence
      blocks that object.  Nothing else does. */
  lemma ObjectBlockedIff(policy: Policy, inputs: Inputs, e: Evidence)
    ensures ContextOf(policy, inputs, e).action == BlockExport <==> InputsBlock(policy, inputs) || EvidenceBlocks(policy, e)
  {
    ObjectGatedIff(policy, inputs, e);
  }

  // ---------------------------------------------------------------------------------------------
  // Recommendation groups
  // ---------------------------------------------------------------------------------------------

  function RecommendedAction(c: Context): Option<Action> {
    match c.action
    case Keep => None
    case ExportReady => None
    case BlockExport => if PiiUnmasked in c.reasons then Some(SendToPrivacyReview) else None
    case _ => Some(c.action)
  }

  const PRIORITIES := [ProbableLabelError, AmbiguousObject, TextPiiDetected, PiiUnmasked, ExactDuplicate,
                       RareClassUnderrepresented, MissingNumeric]

  function FirstListed(order: seq<Code>, reasons: seq<Code>): Code {
    if order == [] then if reasons == [] then ReviewRequiredCode else reasons[0]
    else if order[0] in reasons then order[0]
    else FirstListed(order[1..], reasons)
  }

  datatype Key = Key(action: Action, modality: Modality, reason: Code)

  function KeyOf(c: Context): Option<Key> {
    if RecommendedAction(c).None? then None
    else Some(Key(RecommendedAction(c).value, c.evidence.modality, FirstListed(PRIORITIES, c.reasons)))
  }

  /** How early a reason is looked for; the others come last. */
  ghost function Priority(code: Code): nat {
    match code
    case ProbableLabelError => 1
    case AmbiguousObject => 2
    case TextPiiDetected => 3
    case PiiUnmasked => 4
    case ExactDuplicate => 5
    case RareClassUnderrepresented => 6
    case MissingNumeric => 7
    case _ => 8
  }

  /** What an object is grouped by: its action, or privacy review if it is blocked over personal data,
      its modality, and the earliest of its reasons, which is the first one listed if none has a
      priority.  Kept objects and those blocked for other reasons are in no group. */
  lemma KeyIs(c: Context)
    requires c.reasons != []
    ensures KeyOf(c).None? <==> c.action in {Keep, ExportReady} || (c.action == BlockExport && PiiUnmasked !in c.reasons)
    ensures KeyOf(c).Some? ==>
              var k := KeyOf(c).value;
              && k.action == (if c.action == BlockExport then SendToPrivacyReview else c.action)
              && k.modality == c.evidence.modality
              && k.reason in c.reasons && (forall code | code in c.reasons :: Priority(k.reason) <= Priority(code))
              && (Priority(k.reason) == 8 ==> k.reason == c.reasons[0])
  {
    EarliestReason(c.reasons);
  }

  lemma EarliestReason(reasons: seq<Code>)
    requires reasons != []
    ensures var first := FirstListed(PRIORITIES, reasons);
            && first in reasons && (forall code | code in reasons :: Priority(first) <= Priority(code))
            && (Priority(first) == 8 ==> first == reasons[0])
  {
    var j := FirstListedAt(PRIORITIES, reasons);
    forall code | code in reasons && Priority(code) < 8 ensures Priority(code) > j {
      PriorityListed(code);
    }
    if j < 7 {
      ListedPriority(j);
    }
  }

  lemma PriorityListed(code: Code)
    requires Priority(code) < 8
    ensures 0 < Priority(code) && PRIORITIES[Priority(code) - 1] == code
  {
  }

  lemma ListedPriority(j: nat)
    requires j < 7
    ensures Priority(PRIORITIES[j]) == j + 1
  {
  }

  lemma {:induction false} FirstListedAt(order: seq<Code>, reasons: seq<Code>) returns (j: nat)
    requires reasons != []
    ensures j <= |order| && forall k | 0 <= k < j :: order[k] !in reasons
    ensures j < |order| ==> order[j] in reasons && FirstListed(order, reasons) == order[j]
    ensures j == |order| ==> FirstListed(order, reasons) == reasons[0]
  {
    if order == [] || order[0] in reasons {
      j := 0;
    } else {
      j := FirstListedAt(order[1..], reasons);
      assert forall k | 0 <= k < j :: order[k + 1] == order[1..][k];
      j := j + 1;
    }
  }

  /** A group lists its members by their positions. */
  datatype Group = Group(key: Key, members: seq<nat>)

  ghost predicate Homogeneous(groups: seq<Group>, contexts: seq<Context>) {
    forall g, k | 0 <= g < |groups| && 0 <= k < |groups[g].members| ::
      groups[g].members[k] < |contexts| && KeyOf(contexts[groups[g].members[k]]) == Some(groups[g].key)
  }

  ghost predicate DistinctKeys(groups: seq<Group>) {
    forall g, h | 0 <= g < h < |groups| :: groups[g].key != groups[h].key
  }

  /** Each group has members, listed in ascending order and so each once. */
  ghost predicate Ascending(groups: seq<Group>) {
    forall g | 0 <= g < |groups| ::
      groups[g].members != [] && forall j, k | 0 <= j < k < |groups[g].members| :: groups[g].members[j] < groups[g].members[k]
  }

  ghost predicate Complete(groups: seq<Group>, contexts: seq<Context>) {
    forall i: nat | i < |contexts| && KeyOf(contexts[i]).Some? ::
      exists g :: 0 <= g < |groups| && i in groups[g].members
  }

  /** The groups split the objects that have a recommended action by action, modality and primary
      reason. */
  ghost predicate Partition(groups: seq<Group>, contexts: seq<Context>) {
    Homogeneous(groups, contexts) && DistinctKeys(groups) && Ascending(groups) && Complete(groups, contexts)
  }

  function TotalCount(groups: seq<Group>): nat {
    if groups == [] then 0 else TotalCount(groups[..|groups| - 1]) + |groups[|groups| - 1].members|
  }

  function Recommended(contexts: seq<Context>): nat {
    if contexts == [] then 0
    else Recommended(contexts[..|contexts| - 1]) + (if KeyOf(contexts[|contexts| - 1]).Some? then 1 else 0)
  }

  function Find(groups: seq<Group>, key: Key): (r: Option<nat>)
    ensures r.Some? ==> r.value < |groups| && groups[r.value].key == key
    ensures r.None? ==> forall g | 0 <= g < |groups| :: groups[g].key != key
  {
    if groups == [] then None
    else if groups[|groups| - 1].key == key then Some(|groups| - 1)
    else Find(groups[..|groups| - 1], key)
  }

  /** `grouped[key].append(context)` on a dict of lists that keeps insertion order. */
  function Add(groups: seq<Group>, key: Key, i: nat): seq<Group> {
    var at := Find(groups, key);
    if at.None? then groups + [Group(key, [i])]
    else groups[at.value := Group(key, groups[at.value].members + [i])]
  }

  lemma {:induction false} TotalCountUpdate(groups: seq<Group>, at: nat, g: Group)
    requires at < |groups|
    ensures TotalCount(groups[at := g]) == TotalCount(groups) - |groups[at].members| + |g.members|
  {
    var front, last := groups[..|groups| - 1], groups[|groups| - 1];
    if at < |front| {
      TotalCountUpdate(front, at, g);
      assert groups[at := g][..|groups| - 1] == front[at := g];
    } else {
      assert groups[at := g][..|groups| - 1] == front;
    }
  }

  lemma AddCounts(groups: seq<Group>, key: Key, i: nat)
    ensures TotalCount(Add(groups, key, i)) == TotalCount(groups) + 1
  {
    var at := Find(groups, key);
    if at.None? {
      assert (groups + [Group(key, [i])])[..|groups|] == groups;
    } else {
      TotalCountUpdate(groups, at.value, Group(key, groups[at.value].members + [i]));
    }
  }

  lemma AddMembers(groups: seq<Group>, key: Key, i: nat)
    ensures var added := Add(groups, key, i);
            && (exists g :: 0 <= g < |added| && i in added[g].members)
            && forall j, g :: 0 <= g < |groups| && j in groups[g].members ==> g < |added| && j in added[g].members
  {
    var added, at := Add(groups, key, i), Find(groups, key);
    var g := if at.None? then |groups| else at.value;
    assert added[g].members[|added[g].members| - 1] == i;
  }

  lemma AddKeepsShape(groups: seq<Group>, contexts: seq<Context>, c: Context)
    requires Homogeneous(groups, contexts) && DistinctKeys(groups) && Ascending(groups) && KeyOf(c).Some?
    ensures var added := Add(groups, KeyOf(c).value, |contexts|);
            Homogeneous(added, contexts + [c]) && DistinctKeys(added) && Ascending(added)
  {
    var all, key := contexts + [c], KeyOf(c).value;
    var added, at := Add(groups, key, |contexts|), Find(groups, key);
    forall g, k | 0 <= g < |added| && 0 <= k < |added[g].members|
      ensures added[g].members[k] < |all| && KeyOf(all[added[g].members[k]]) == Some(added[g].key)
    {
      if g < |groups| && k < |groups[g].members| {
        assert groups[g].members[k] < |contexts|;
      }
    }
  }

  lemma KeepsHomogeneous(groups: seq<Group>, contexts: seq<Context>, c: Context)
    requires Homogeneous(groups, contexts)
    ensures Homogeneous(groups, contexts + [c])
  {
    forall g, k | 0 <= g < |groups| && 0 <= k < |groups[g].members|
      ensures KeyOf((contexts + [c])[groups[g].members[k]]) == Some(groups[g].key)
    {
      assert groups[g].members[k] < |contexts|;
    }
  }

  lemma SkipKeepsPartition(groups: seq<Group>, contexts: seq<Context>, c: Context)
    requires Partition(groups, contexts) && KeyOf(c).None?
    ensures Partition(groups, contexts + [c]) && Recommended(contexts + [c]) == Recommended(contexts)
  {
    assert (contexts + [c])[..|contexts|] == contexts;
    KeepsHomogeneous(groups, contexts, c);
  }

  lemma AddKeepsPartition(groups: seq<Group>, contexts: seq<Context>, c: Context)
    requires Partition(groups, contexts) && KeyOf(c).Some?
    ensures var added := Add(groups, KeyOf(c).value, |contexts|);
            && Partition(added, contexts + [c])
            && TotalCount(added) == TotalCount(groups) + 1 && Recommended(contexts + [c]) == Recommended(contexts) + 1
  {
    var key := KeyOf(c).value;
    var all, added := contexts + [c], Add(groups, key, |contexts|);
    assert all[..|contexts|] == contexts;
    AddKeepsShape(groups, contexts, c);
    AddMembers(groups, key, |contexts|);
    AddCounts(groups, key, |contexts|);
    forall i: nat | i < |all| && KeyOf(all[i]).Some? ensures exists g :: 0 <= g < |added| && i in added[g].members {
      if i < |contexts| {
        assert all[i] == contexts[i];
        var g :| 0 <= g < |groups| && i in groups[g].members;
        assert i in added[g].members;
      }
    }
  }

  /** The grouping loop: a partition, and its counts add up to the number of recommended objects. */
  method RecommendationGroups(contexts: seq<Context>) returns (groups: seq<Group>)
    ensures Partition(groups, contexts)
    ensures TotalCount(groups) == Recommended(contexts)
    ensures groups == [] <==> forall i | 0 <= i < |contexts| :: RecommendedAction(contexts[i]).None?
  {
    groups := [];
    for i := 0 to |contexts|
      invariant Partition(groups, contexts[..i])
      invariant TotalCount(groups) == Recommended(contexts[..i])
    {
      var c := contexts[i];
      assert contexts[..i + 1] == contexts[..i] + [c];
      var key := KeyOf(c);
      if key.None? {
        SkipKeepsPartition(groups, contexts[..i], c);
        continue;
      }
      AddKeepsPartition(groups, contexts[..i], c);
      groups := Add(groups, key.value, i);
    }
    assert contexts[..|contexts|] == contexts;
    EmptyPartitionIff(groups, contexts);
  }

  lemma EmptyPartitionIff(groups: seq<Group>, contexts: seq<Context>)
    requires Partition(groups, contexts)
    ensures groups == [] <==> forall i | 0 <= i < |contexts| :: KeyOf(contexts[i]).None?
  {
    if groups != [] {
      assert KeyOf(contexts[groups[0].members[0]]).Some?;
    }
  }

  /** In a partition every object with a recommended action is in exactly one group. */
  lemma InExactlyOneGroup(groups: seq<Group>, contexts: seq<Context>, i: nat)
    requires Partition(groups, contexts) && i < |contexts|
    ensures KeyOf(contexts[i]).Some? <==> exists g :: 0 <= g < |groups| && i in groups[g].members
    ensures forall g, h | 0 <= g < |groups| && 0 <= h < |groups| && i in groups[g].members && i in groups[h].members :: g == h
  {
    forall g | 0 <= g < |groups| && i in groups[g].members ensures KeyOf(contexts[i]) == Some(groups[g].key) {
      var k :| 0 <= k < |groups[g].members| && groups[g].members[k] == i;
    }
  }

  // ---------------------------------------------------------------------------------------------
  // Recommended actions
  // ---------------------------------------------------------------------------------------------

  datatype ActionItem = ActionItem(action: Action, modality: Modality, count: nat, codes: seq<Code>, requiresApproval: bool)

  function WithoutExportReady(codes: seq<Code>): seq<Code> {
    if codes == [] then []
    else
      var last := codes[|codes| - 1];
      WithoutExportReady(codes[..|codes| - 1]) + (if last == ExportReadyCode then [] else [last])
  }

  function MemberReasons(contexts: seq<Context>, members: seq<nat>): seq<Code>
    requires forall k | 0 <= k < |members| :: members[k] < |contexts|
  {
    if members == [] then []
    else MemberReasons(contexts, members[..|members| - 1]) + contexts[members[|members| - 1]].reasons
  }

  /** The reasons of a group: those of its members, each once, or else its primary reason. */
  function GroupCodes(g: Group, contexts: seq<Context>): seq<Code>
    requires forall k | 0 <= k < |g.members| :: g.members[k] < |contexts|
  {
    var codes := OrderedUnique(WithoutExportReady(MemberReasons(contexts, g.members)));
    if codes == [] then [g.key.reason] else codes
  }

  function ItemOf(g: Group, contexts: seq<Context>): ActionItem
    requires forall k | 0 <= k < |g.members| :: g.members[k] < |contexts|
  {
    ActionItem(g.key.action, g.key.modality, |g.members|, GroupCodes(g, contexts), g.key.action.GenerateSyntheticCandidate?)
  }

  /** What an action item says of its group: the reasons of all members but the ready-for-export one, each
      once, or the group's own reason if that leaves none. */
  ghost predicate ItemFor(item: ActionItem, g: Group, contexts: seq<Context>)
    requires forall k | 0 <= k < |g.members| :: g.members[k] < |contexts|
  {
    && item.action == g.key.action && item.modality == g.key.modality && item.count == |g.members|
    && (item.requiresApproval <==> g.key.action == GenerateSyntheticCandidate)
    && NoDuplicates(item.codes) && item.codes != []
    && (forall code :: code in item.codes <==>
          || HasReason(g, contexts, code)
          || (code == g.key.reason && forall c :: !HasReason(g, contexts, c)))
  }

  ghost predicate HasReason(g: Group, contexts: seq<Context>, code: Code)
    requires forall k | 0 <= k < |g.members| :: g.members[k] < |contexts|
  {
    code != ExportReadyCode && exists k | 0 <= k < |g.members| :: code in contexts[g.members[k]].reasons
  }

  lemma ItemIs(g: Group, contexts: seq<Context>)
    requires forall k | 0 <= k < |g.members| :: g.members[k] < |contexts|
    ensures ItemFor(ItemOf(g, contexts), g, contexts)
  {
    var codes := OrderedUnique(WithoutExportReady(MemberReasons(contexts, g.members)));
    forall c ensures c in codes <==> HasReason(g, contexts, c) {
      WithoutExportReadyIff(MemberReasons(contexts, g.members), c);
      MemberReasonsIff(contexts, g.members, c);
    }
    if codes == [] {
      assert forall c :: c !in codes;
    } else {
      assert HasReason(g, contexts, codes[0]);
    }
  }

  lemma {:induction false} WithoutExportReadyIff(codes: seq<Code>, code: Code)
    ensures code in WithoutExportReady(codes) <==> code in codes && code != ExportReadyCode
  {
    if codes != [] {
      WithoutExportReadyIff(codes[..|codes| - 1], code);
      assert codes == codes[..|codes| - 1] + [codes[|codes| - 1]];
    }
  }

  lemma {:induction false} MemberReasonsIff(contexts: seq<Context>, members: seq<nat>, code: Code)
    requires forall k | 0 <= k < |members| :: members[k] < |contexts|
    ensures code in MemberReasons(contexts, members) <==> exists k | 0 <= k < |members| :: code in contexts[members[k]].reasons
  {
    if members != [] {
      var front := members[..|members| - 1];
      MemberReasonsIff(contexts, front, code);
      assert forall k | 0 <= k < |front| :: front[k] == members[k];
    }
  }

  lemma {:induction false} ItemCodesIff(items: seq<ActionItem>, code: Code)
    ensures code in ItemCodes(items) <==> exists k | 0 <= k < |items| :: code in items[k].codes
  {
    if items != [] {
      var front := items[..|items| - 1];
      ItemCodesIff(front, code);
      assert forall k | 0 <= k < |front| :: front[k] == items[k];
    }
  }

  method RecommendedActions(groups: seq<Group>, contexts: seq<Context>) returns (items: seq<ActionItem>)
    requires Homogeneous(groups, contexts)
    ensures |items| == |groups| && forall k | 0 <= k < |groups| :: items[k] == ItemOf(groups[k], contexts)
  {
    items := [];
    for i := 0 to |groups|
      invariant |items| == i && forall k | 0 <= k < i :: items[k] == ItemOf(groups[k], contexts)
    {
      items := items + [ItemOf(groups[i], contexts)];
    }
  }

  ghost predicate NeverGenerates(contexts: seq<Context>) {
    forall i | 0 <= i < |contexts| :: contexts[i].action != GenerateSyntheticCandidate
  }

  lemma ContextsNeverGenerate(policy: Policy, inputs: Inputs, evidence: seq<Evidence>)
    ensures NeverGenerates(Contexts(policy, inputs, evidence))
  {
  }

  /** No object is ever recommended for synthetic generation, so no recommended action requires
      approval: safe actions are available exactly when any action is. */
  lemma NoActionRequiresApproval(groups: seq<Group>, contexts: seq<Context>, g: nat)
    requires Partition(groups, contexts) && g < |groups| && NeverGenerates(contexts)
    ensures !ItemOf(groups[g], contexts).requiresApproval && ItemOf(groups[g], contexts).count > 0
  {
    var i := groups[g].members[0];
    assert KeyOf(contexts[i]) == Some(groups[g].key);
  }

  function ItemCodes(items: seq<ActionItem>): seq<Code> {
    if items == [] then [] else ItemCodes(items[..|items| - 1]) + items[|items| - 1].codes
  }

  // ---------------------------------------------------------------------------------------------
  // Readiness
  // ---------------------------------------------------------------------------------------------

  function Rank(r: Readiness): nat {
    match r
    case BlockedReadiness => 0
    case NotReadyForExport => 1
    case ReadyWithWarnings => 2
    case ReadyForExport => 3
  }

  /** The report never uses READY_WITH_WARNINGS. */
  function ReadinessScore(r: Readiness): Score {
    match r
    case BlockedReadiness => 0.0
    case NotReadyForExport => 0.75
    case _ => 1.0
  }

  datatype NextJob = NoJob | PreviewJob | ExportJob

  datatype DatasetDecision = DatasetBlocked | NeedsReview | ReadyForTraining

  datatype Report = Report(
    decision: DatasetDecision, readiness: Readiness, score: real, reasonCodes: seq<Code>, nextJob: NextJob,
    blockers: seq<Code>, evidence: map<Code, seq<string>>, groups: seq<Group>, actions: seq<ActionItem>, safeActions: bool,
    contexts: seq<Context>)

  ghost predicate AnyRecommended(policy: Policy, inputs: Inputs, evidence: seq<Evidence>) {
    exists i | 0 <= i < |evidence| :: RecommendedAction(ContextOf(policy, inputs, evidence[i])).Some?
  }

  ghost function ReadinessOf(policy: Policy, inputs: Inputs, evidence: seq<Evidence>): Readiness {
    if Blocked(policy, inputs, evidence) then BlockedReadiness
    else if AnyRecommended(policy, inputs, evidence) then NotReadyForExport
    else ReadyForExport
  }

  lemma AnyRecommendedIff(policy: Policy, inputs: Inputs, evidence: seq<Evidence>)
    ensures var contexts := Contexts(policy, inputs, evidence);
            AnyRecommended(policy, inputs, evidence) <==>
              !(forall i | 0 <= i < |contexts| :: RecommendedAction(contexts[i]).None?)
  {
    var contexts := Contexts(policy, inputs, evidence);
    assert forall i | 0 <= i < |evidence| :: contexts[i] == ContextOf(policy, inputs, evidence[i]);
  }

  /** The report on each object: the action that its evidence and the rules decide, and its value. */
  ghost predicate DecidesAll(policy: Policy, inputs: Inputs, evidence: seq<Evidence>, contexts: seq<Context>) {
    && |contexts| == |evidence|
    && forall i | 0 <= i < |evidence| ::
         && contexts[i].evidence == evidence[i] && Decides(policy, inputs, evidence[i], contexts[i].action)
         && contexts[i].value == Max(0.0, Raw(evidence[i].signals))
  }

  ghost predicate ItemsForGroups(items: seq<ActionItem>, groups: seq<Group>, contexts: seq<Context>) {
    && |items| == |groups| && Homogeneous(groups, contexts)
    && forall k | 0 <= k < |groups| :: ItemFor(items[k], groups[k], contexts)
  }

  lemma ReportReads(policy: Policy, inputs: Inputs, evidence: seq<Evidence>, groups: seq<Group>, items: seq<ActionItem>)
    requires Homogeneous(groups, Contexts(policy, inputs, evidence)) && |items| == |groups|
    requires forall k | 0 <= k < |groups| :: items[k] == ItemOf(groups[k], Contexts(policy, inputs, evidence))
    ensures DecidesAll(policy, inputs, evidence, Contexts(policy, inputs, evidence))
    ensures ItemsForGroups(items, groups, Contexts(policy, inputs, evidence))
  {
    forall i | 0 <= i < |evidence|
      ensures Decides(policy, inputs, evidence[i], Contexts(policy, inputs, evidence)[i].action)
      ensures Contexts(policy, inputs, evidence)[i].value == Max(0.0, Raw(evidence[i].signals))
    {
      ObjectActionIs(policy, inputs, evidence[i]);
      RawValueBounds(evidence[i].signals);
    }
    forall k | 0 <= k < |groups| ensures ItemFor(items[k], groups[k], Contexts(policy, inputs, evidence)) {
      ItemIs(groups[k], Contexts(policy, inputs, evidence));
    }
  }

  method BuildDecisionReport(policy: Policy, inputs: Inputs, evidence: seq<Evidence>) returns (r: Report)
    ensures r.contexts == Contexts(policy, inputs, evidence)
    ensures DecidesAll(policy, inputs, evidence, r.contexts)
    ensures ItemsForGroups(r.actions, r.groups, r.contexts)
    ensures r.score == if r.readiness.BlockedReadiness? then 0.0 else if r.readiness.NotReadyForExport? then 0.75 else 1.0
    ensures r.blockers == OrderedUnique(Codes(Firings(policy, inputs, evidence)))
    ensures Gathers(r.evidence, Firings(policy, inputs, evidence))
    ensures r.blockers != [] <==> Blocked(policy, inputs, evidence)
    ensures Partition(r.groups, r.contexts) && TotalCount(r.groups) == Recommended(r.contexts)
    ensures |r.actions| == |r.groups| && forall k | 0 <= k < |r.groups| :: r.actions[k] == ItemOf(r.groups[k], r.contexts)
    ensures r.safeActions <==> AnyRecommended(policy, inputs, evidence)
    ensures r.readiness == ReadinessOf(policy, inputs, evidence) && r.score == ReadinessScore(r.readiness)
    ensures r.reasonCodes == OrderedUnique(r.blockers + ItemCodes(r.actions))
    ensures r.decision.DatasetBlocked? <==> r.readiness.BlockedReadiness?
    ensures r.decision.ReadyForTraining? <==> r.readiness.ReadyForExport?
    ensures r.nextJob.ExportJob? <==> r.readiness.ReadyForExport?
    ensures r.nextJob.PreviewJob? <==> AnyRecommended(policy, inputs, evidence)
  {
    var contexts := Contexts(policy, inputs, evidence);
    var firings := Firings(policy, inputs, evidence);
    var blockers, blockerEvidence := CriticalBlockers(firings);
    OrderedUniqueEmptyIff(Codes(firings));
    var groups := RecommendationGroups(contexts);
    AnyRecommendedIff(policy, inputs, evidence);
    var actions := RecommendedActions(groups, contexts);
    ReportReads(policy, inputs, evidence, groups, actions);
    ContextsNeverGenerate(policy, inputs, evidence);
    var safe := AnySafe(contexts, groups, actions);
    var readiness, decision, codes, nextJob := Assess(blockers, actions);
    r := Report(decision, readiness, ReadinessScore(readiness), codes, nextJob, blockers, blockerEvidence, groups, actions,
                safe, contexts);
  }

  /** Readiness, decision and next job, from blockers and actions alone. */
  method Assess(blockers: seq<Code>, actions: seq<ActionItem>)
    returns (readiness: Readiness, decision: DatasetDecision, codes: seq<Code>, nextJob: NextJob)
    ensures readiness == if blockers != [] then BlockedReadiness else if actions != [] then NotReadyForExport else ReadyForExport
    ensures codes == OrderedUnique(blockers + ItemCodes(actions))
    ensures decision.DatasetBlocked? <==> readiness.BlockedReadiness?
    ensures decision.ReadyForTraining? <==> readiness.ReadyForExport?
    ensures nextJob.ExportJob? <==> readiness.ReadyForExport?
    ensures nextJob.PreviewJob? <==> actions != []
  {
    codes := CollectUnique(blockers + ItemCodes(actions));
    if blockers != [] {
      readiness, decision := BlockedReadiness, DatasetBlocked;
    } else if actions != [] {
      readiness, decision := NotReadyForExport, NeedsReview;
    } else {
      readiness, decision, codes := ReadyForExport, ReadyForTraining, [];
    }
    nextJob := if actions != [] then PreviewJob else if blockers != [] then NoJob else ExportJob;
  }

  /** `any(not action.requires_approval for action in recommended_actions)` */
  method AnySafe(contexts: seq<Context>, groups: seq<Group>, actions: seq<ActionItem>) returns (safe: bool)
    requires Partition(groups, contexts) && NeverGenerates(contexts) && |actions| == |groups|
    requires groups != [] ==> actions[0] == ItemOf(groups[0], contexts)
    ensures safe <==> groups != []
  {
    safe := exists k | 0 <= k < |actions| :: !actions[k].requiresApproval;
    if groups != [] {
      NoActionRequiresApproval(groups, contexts, 0);
      assert !actions[0].requiresApproval;
    }
  }

  /** What the readiness of the dataset needs to know of one object. */
  lemma ObjectOutcome(policy: Policy, inputs: Inputs, e: Evidence)
    ensures var c := ContextOf(policy, inputs, e);
            && (c.action == BlockExport <==> InputsBlock(policy, inputs) || EvidenceBlocks(policy, e))
            && (c.action != BlockExport ==> (RecommendedAction(c).None? <==> c.action == Keep))
  {
    ObjectBlockedIff(policy, inputs, e);
  }

  /** A dataset is ready for export exactly when no gate fires and every object is kept. */
  lemma ReadyIff(policy: Policy, inputs: Inputs, evidence: seq<Evidence>)
    ensures ReadinessOf(policy, inputs, evidence) == ReadyForExport <==>
              && !InputsBlock(policy, inputs)
              && forall i | 0 <= i < |evidence| :: ContextOf(policy, inputs, evidence[i]).action == Keep
  {
    BlockedIff(policy, inputs, evidence);
    if ReadinessOf(policy, inputs, evidence) == ReadyForExport {
      forall i | 0 <= i < |evidence| ensures ContextOf(policy, inputs, evidence[i]).action == Keep {
        ObjectOutcome(policy, inputs, evidence[i]);
        assert !EvidenceBlocks(policy, evidence[i]);
        assert RecommendedAction(ContextOf(policy, inputs, evidence[i])).None?;
      }
    }
    if !InputsBlock(policy, inputs) && forall i | 0 <= i < |evidence| :: ContextOf(policy, inputs, evidence[i]).action == Keep {
      KeptIsReady(policy, inputs, evidence);
    }
  }

  lemma KeptIsReady(policy: Policy, inputs: Inputs, evidence: seq<Evidence>)
    requires !InputsBlock(policy, inputs)
    requires forall i | 0 <= i < |evidence| :: ContextOf(policy, inputs, evidence[i]).action == Keep
    ensures ReadinessOf(policy, inputs, evidence) == ReadyForExport
  {
    BlockedIff(policy, inputs, evidence);
    forall i | 0 <= i < |evidence|
      ensures !EvidenceBlocks(policy, evidence[i]) && RecommendedAction(ContextOf(policy, inputs, evidence[i])).None?
    {
      ObjectOutcome(policy, inputs, evidence[i]);
      assert ContextOf(policy, inputs, evidence[i]).action == Keep;
    }
  }

  /** Appending evidence never improves readiness. */
  lemma AppendingNeverImproves(policy: Policy, inputs: Inputs, evidence: seq<Evidence>, more: seq<Evidence>)
    ensures Rank(ReadinessOf(policy, inputs, evidence + more)) <= Rank(ReadinessOf(policy, inputs, evidence))
  {
    var all := evidence + more;
    if Blocked(policy, inputs, evidence) {
      BlockedStays(policy, inputs, evidence, more);
    } else if ReadinessOf(policy, inputs, all) == ReadyForExport {
      ReadyIff(policy, inputs, all);
      forall i | 0 <= i < |evidence| ensures ContextOf(policy, inputs, evidence[i]).action == Keep {
        assert all[i] == evidence[i];
        assert ContextOf(policy, inputs, all[i]).action == Keep;
      }
      ReadyIff(policy, inputs, evidence);
    }
  }

  lemma BlockedStays(policy: Policy, inputs: Inputs, evidence: seq<Evidence>, more: seq<Evidence>)
    requires Blocked(policy, inputs, evidence)
    ensures Blocked(policy, inputs, evidence + more)
  {
    var all := evidence + more;
    BlockedIff(policy, inputs, evidence);
    BlockedIff(policy, inputs, all);
    if !InputsBlock(policy, inputs) {
      var i :| 0 <= i < |evidence| && EvidenceBlocks(policy, evidence[i]);
      assert EvidenceBlocks(policy, all[i]);
    }
  }

  /** Every gate that fires on `inputs` fires on `worse`. */
  ghost predicate FiresMore(inputs: Inputs, worse: Inputs) {
    forall id: GateId :: Fires(id, inputs) ==> Fires(id, worse)
  }

  /** Gates that do not fire do not matter to an object. */
  lemma UngatedActionsAgree(policy: Policy, inputs: Inputs, other: Inputs, e: Evidence)
    requires !InputsBlock(policy, inputs) && !InputsBlock(policy, other) && !EvidenceBlocks(policy, e)
    ensures ContextOf(policy, inputs, e).action == ContextOf(policy, other, e).action
  {
    ObjectGatedIff(policy, inputs, e);
    ObjectGatedIff(policy, other, e);
  }

  /** Triggering more gates never improves readiness, although it can empty the list of recommended
      actions. */
  lemma MoreGatesNeverImprove(policy: Policy, inputs: Inputs, worse: Inputs, evidence: seq<Evidence>)
    requires FiresMore(inputs, worse)
    ensures Rank(ReadinessOf(policy, worse, evidence)) <= Rank(ReadinessOf(policy, inputs, evidence))
  {
    BlockedIff(policy, inputs, evidence);
    BlockedIff(policy, worse, evidence);
    ReadyIff(policy, inputs, evidence);
    ReadyIff(policy, worse, evidence);
    if ReadinessOf(policy, worse, evidence) == ReadyForExport {
      forall i | 0 <= i < |evidence| ensures ContextOf(policy, inputs, evidence[i]).action == Keep {
        ObjectBlockedIff(policy, worse, evidence[i]);
        UngatedActionsAgree(policy, inputs, worse, evidence[i]);
      }
    }
  }
}
