/** Executing an approved plan and building its gated outputs (app/orchestration/apply_runtime.py,
    with the asset bodies of apply_assets.py).  Plugins, kernel builders and the registry are
    functions of what they are given, and may fail. */
module ApplyRuntime {
  import opened Basics
  import opened ActionPlan
  import opened CandidateVersion
  import opened ExportPackage
  import Launch
  import SourceSelection

  type Ref = Artifact

  datatype Failure =
    | PluginFailed(reason: string) | UnsupportedStep(stepId: string) | NoCandidateArtifact | OutputsMissing
    | SyntheticWithoutRows | SourceRequired | SourceUnreadable(uri: string)

  datatype Split = Split(manifest: string, artifact: Ref)

  datatype Synthetic = Synthetic(report: Ref, candidate: Ref, generated: nat)

  /** A gates report with its artifact and the two artifacts that its lineage names. */
  datatype Judgement = Judgement(report: GatesReport, artifact: Ref, source: Ref, candidate: Ref)

  datatype Impact = Impact(verdict: Verdict, artifact: Ref)

  /** What the candidate version keeps of a step. */
  datatype StepSummary = StepSummary(
    id: string, kind: string, methodId: string, pluginId: string, pluginVersion: string, configHash: string,
    outputArtifactKind: string, randomSeed: Option<int>)

  datatype Document =
    | ActionPlanDocument(plan: seq<Step>)
    | RemediationReport(steps: seq<Step>, candidate: Ref, report: GatesReport)
    | CandidateDocument(
        proposal: Candidate, inputHashes: seq<string>, outputHashes: seq<string>, artifacts: seq<Ref>, primary: Ref,
        judged: Option<Ref>, summaries: seq<StepSummary>, synthetic: Option<Synthetic>)
    | DatasetCard(proposal: Candidate, impact: Option<Impact>, rows: nat)
    | LineageReport(version: Ref, source: Ref)
    | ExportManifest(version: Ref, tabular: seq<Ref>)
    | PackageDocument(package: Package)

  datatype Plugins = Plugins(
    head: string -> Result<Ref, Failure>,
    readable: string -> bool,
    impute: (Step, Ref) -> Result<(Ref, Ref), Failure>,
    duplicates: (Step, Ref) -> Result<(Ref, Ref), Failure>,
    split: Ref -> Result<Split, Failure>,
    smote: (Step, Ref, Split) -> Result<(Synthetic, Split), Failure>,
    gates: (Ref, Ref, Option<Split>, Option<Synthetic>) -> Result<(GatesReport, Ref), Failure>,
    features: Ref -> Result<nat, Failure>,
    impact: (Ref, Ref, Split, Option<Synthetic>, GatesReport) -> Result<Impact, Failure>,
    rows: Ref -> Result<nat, Failure>,
    tabular: (Ref, Option<Split>) -> Result<seq<Ref>, Failure>,
    persist: Document -> Result<Ref, Failure>)

  function Summaries(steps: seq<Step>): (r: seq<StepSummary>)
    ensures |r| == |steps|
    ensures forall i | 0 <= i < |steps| ::
              && r[i].id == steps[i].id && r[i].kind == steps[i].kind && r[i].methodId == steps[i].methodId
              && r[i].pluginId == steps[i].pluginId && r[i].pluginVersion == steps[i].pluginVersion
              && r[i].configHash == steps[i].configHash && r[i].outputArtifactKind == steps[i].outputArtifactKind
              && r[i].randomSeed == steps[i].randomSeed
  {
    seq(|steps|, i requires 0 <= i < |steps| =>
      var s := steps[i];
      StepSummary(s.id, s.kind, s.methodId, s.pluginId, s.pluginVersion, s.configHash, s.outputArtifactKind, s.randomSeed))
  }

  function Hashes(refs: seq<Ref>): (r: seq<string>)
    ensures |r| == |refs| && forall i | 0 <= i < |refs| :: r[i] == refs[i].hash
  {
    seq(|refs|, i requires 0 <= i < |refs| => refs[i].hash)
  }

  datatype Action = Impute | Duplicates | Smote | Unsupported

  function ActionOf(s: Step): Action {
    if s.kind == IMPUTE then Impute
    else if s.kind == "MARK_DUPLICATE_CANDIDATES" || s.kind == "REMOVE_DUPLICATES" then Duplicates
    else if (s.kind == AUGMENT || s.kind == "GENERATE_SYNTHETIC_CANDIDATE") && s.methodId == "smote" then Smote
    else Unsupported
  }

  /** The URIs that the steps name as inputs, in order. */
  function PlannedUris(steps: seq<Step>): seq<string> {
    if steps == [] then [] else PlannedUris(steps[..|steps| - 1]) + steps[|steps| - 1].inputArtifacts
  }

  /** Step k is the first that names inputs. */
  ghost predicate FirstWithInputs(steps: seq<Step>, k: int) {
    0 <= k < |steps| && steps[k].inputArtifacts != [] && forall j | 0 <= j < k :: steps[j].inputArtifacts == []
  }

  /** The URIs are those that some step names as an input. */
  ghost predicate NamedByPlan(uris: seq<string>, steps: seq<Step>) {
    forall u :: u in uris <==> exists k :: 0 <= k < |steps| && u in steps[k].inputArtifacts
  }

  lemma {:induction false} PlannedUrisAre(steps: seq<Step>)
    ensures NamedByPlan(PlannedUris(steps), steps)
    ensures PlannedUris(steps) == [] <==> forall k | 0 <= k < |steps| :: steps[k].inputArtifacts == []
  {
    if steps != [] {
      var front, last := steps[..|steps| - 1], steps[|steps| - 1];
      PlannedUrisAre(front);
      assert steps == front + [last];
      forall u | u in last.inputArtifacts ensures exists k :: 0 <= k < |steps| && u in steps[k].inputArtifacts {
        assert u in steps[|steps| - 1].inputArtifacts;
      }
      forall u | u in PlannedUris(front) ensures exists k :: 0 <= k < |steps| && u in steps[k].inputArtifacts {
        var k :| 0 <= k < |front| && u in front[k].inputArtifacts;
        assert u in steps[k].inputArtifacts;
      }
    }
  }

  lemma {:induction false} FirstPlannedUriIs(steps: seq<Step>, k: nat)
    requires FirstWithInputs(steps, k)
    ensures PlannedUris(steps) != [] && PlannedUris(steps)[0] == steps[k].inputArtifacts[0]
  {
    var front := steps[..|steps| - 1];
    if k < |front| {
      FirstPlannedUriIs(front, k);
    } else {
      PlannedUrisAre(front);
    }
  }

  ghost function FirstInputs(steps: seq<Step>): (k: nat)
    requires exists k :: 0 <= k < |steps| && steps[k].inputArtifacts != []
    ensures FirstWithInputs(steps, k)
  {
    if steps[0].inputArtifacts != [] then 0
    else
      assert steps == [steps[0]] + steps[1..];
      assert exists k :: 0 <= k < |steps[1..]| && steps[1..][k].inputArtifacts != [] by {
        var k :| 0 <= k < |steps| && steps[k].inputArtifacts != [];
        assert steps[1..][k - 1].inputArtifacts != [];
      }
      1 + FirstInputs(steps[1..])
  }

  /** One plugin run of one step: what it read and, if it succeeded, the candidate it left and
      everything it produced. */
  datatype Call = Call(step: Step, input: Ref, split: Option<Split>, output: Option<Ref>, produced: seq<Ref>)
  {
    predicate Failed() {
      output.None? && produced == []
    }

    ghost predicate FromPair(r: Result<(Ref, Ref), Failure>) {
      if r.Err? then Failed() else output == Some(r.value.0) && produced == [r.value.0, r.value.1]
    }

    ghost predicate FromSynthetic(r: Result<(Synthetic, Split), Failure>) {
      if r.Err? then Failed()
      else
        && output == Some(r.value.0.candidate)
        && produced == [r.value.0.candidate, r.value.1.artifact, r.value.0.report]
    }
  }

  /** The output is what the step's plugin makes of the input. */
  ghost predicate Genuine(p: Plugins, c: Call) {
    match ActionOf(c.step)
    case Impute => c.FromPair(p.impute(c.step, c.input))
    case Duplicates => c.FromPair(p.duplicates(c.step, c.input))
    case Smote => if c.split.None? then c.Failed() else c.FromSynthetic(p.smote(c.step, c.input, c.split.value))
    case Unsupported => c.Failed()
  }

  /** What the last call left. */
  function Outcome(calls: seq<Call>, source: Ref): Option<Ref> {
    if calls == [] then Some(source) else calls[|calls| - 1].output
  }

  /** The calls run the steps in order, each reading precisely what the one before it left. */
  ghost predicate Threads(p: Plugins, calls: seq<Call>, steps: seq<Step>, source: Ref) {
    && |calls| == |steps|
    && (calls != [] ==>
          var n := |calls| - 1;
          && Threads(p, calls[..n], steps[..n], source)
          && calls[n].step == steps[n] && calls[n].output.Some? && Genuine(p, calls[n])
          && Some(calls[n].input) == Outcome(calls[..n], source))
  }

  /** Call k ran step k, once, on the source if it is the first and otherwise on what call k - 1 left:
      imputation steps with the imputation plugin, both kinds of duplicate step with the duplicates
      plugin, both kinds of synthetic step with SMOTE; there are no other steps. */
  lemma {:induction false} ThreadsAt(p: Plugins, calls: seq<Call>, steps: seq<Step>, source: Ref, k: nat)
    requires Threads(p, calls, steps, source) && k < |steps|
    ensures |calls| == |steps| && calls[k].step == steps[k] && calls[k].output.Some?
    ensures Some(calls[k].input) == if k == 0 then Some(source) else calls[k - 1].output
    ensures steps[k].kind == "IMPUTE_MISSING_VALUES" ==>
              var r := p.impute(steps[k], calls[k].input);
              r.Ok? && calls[k].output == Some(r.value.0) && calls[k].produced == [r.value.0, r.value.1]
    ensures steps[k].kind == "MARK_DUPLICATE_CANDIDATES" || steps[k].kind == "REMOVE_DUPLICATES" ==>
              var r := p.duplicates(steps[k], calls[k].input);
              r.Ok? && calls[k].output == Some(r.value.0) && calls[k].produced == [r.value.0, r.value.1]
    ensures steps[k].kind == "AUGMENT_RARE_CLASS" || steps[k].kind == "GENERATE_SYNTHETIC_CANDIDATE" ==>
              && steps[k].methodId == "smote" && calls[k].split.Some?
              && var r := p.smote(steps[k], calls[k].input, calls[k].split.value);
              && r.Ok? && calls[k].output == Some(r.value.0.candidate)
              && calls[k].produced == [r.value.0.candidate, r.value.1.artifact, r.value.0.report]
    ensures || steps[k].kind == "IMPUTE_MISSING_VALUES"
            || steps[k].kind == "MARK_DUPLICATE_CANDIDATES" || steps[k].kind == "REMOVE_DUPLICATES"
            || steps[k].kind == "AUGMENT_RARE_CLASS" || steps[k].kind == "GENERATE_SYNTHETIC_CANDIDATE"
  {
    if k < |calls| - 1 {
      ThreadsAt(p, calls[..|calls| - 1], steps[..|calls| - 1], source, k);
    }
  }

  function Logged(step: Step, input: Ref, split: Option<Split>, r: Result<(Ref, seq<Ref>), Failure>): Call {
    if r.Ok? then Call(step, input, split, Some(r.value.0), r.value.1) else Call(step, input, split, None, [])
  }

  /** Everything the calls produced, in order. */
  function Produced(calls: seq<Call>): seq<Ref> {
    if calls == [] then [] else Produced(calls[..|calls| - 1]) + calls[|calls| - 1].produced
  }

  /** One more call on top of what was logged and produced before. */
  lemma LogSnoc(log: seq<Call>, outputs: seq<Ref>, calls: seq<Call>, c: Call)
    ensures log + calls + [c] == log + (calls + [c])
    ensures outputs + Produced(calls) + c.produced == outputs + Produced(calls + [c])
  {
    assert (calls + [c])[..|calls|] == calls;
    assert outputs + Produced(calls) + c.produced == outputs + (Produced(calls) + c.produced);
  }

  lemma ThreadsSnoc(p: Plugins, calls: seq<Call>, steps: seq<Step>, source: Ref, c: Call)
    requires |calls| < |steps| && Threads(p, calls, steps[..|calls|], source)
    requires c.step == steps[|calls|] && c.output.Some? && Genuine(p, c) && Some(c.input) == Outcome(calls, source)
    ensures Threads(p, calls + [c], steps[..|calls| + 1], source)
  {
    assert (calls + [c])[..|calls|] == calls && steps[..|calls| + 1][..|calls|] == steps[..|calls|];
  }

  /** The calls ran the steps in order until the last call failed. */
  ghost predicate FailsAtLast(p: Plugins, calls: seq<Call>, steps: seq<Step>, source: Ref) {
    && 0 < |calls| <= |steps| && calls[|calls| - 1].output.None?
    && Threads(p, calls[..|calls| - 1], steps[..|calls| - 1], source)
  }

  lemma FailsSnoc(p: Plugins, calls: seq<Call>, steps: seq<Step>, source: Ref, c: Call)
    requires |calls| < |steps| && Threads(p, calls, steps[..|calls|], source) && c.output.None?
    ensures FailsAtLast(p, calls + [c], steps, source)
  {
    assert (calls + [c])[..|calls|] == calls;
  }

  /** A plan that ran to its end had supported steps only. */
  lemma CompletedStepsAreSupported(p: Plugins, calls: seq<Call>, steps: seq<Step>, source: Ref)
    requires Threads(p, calls, steps, source)
    ensures forall k | 0 <= k < |steps| :: !ActionOf(steps[k]).Unsupported?
  {
    forall k | 0 <= k < |steps| ensures !ActionOf(steps[k]).Unsupported? {
      ThreadsAt(p, calls, steps, source, k);
    }
  }

  /** Preview and runtime do not agree on what can be executed.  A previewed step runs exactly when
      it imputes, marks or removes duplicates under the runtime's own two names for it, or applies
      SMOTE; a class-weights step, or any other method, is previewed and validated but never runs. */
  lemma PreviewedStepIsSupportedIff(rec: MethodRecommendation, methodId: string, inputs: seq<string>, hash: Hash)
    ensures !ActionOf(DraftStep(rec, methodId, inputs, hash)).Unsupported? <==>
              || rec.actionType == IMPUTE
              || rec.actionType == "MARK_DUPLICATE_CANDIDATES" || rec.actionType == "REMOVE_DUPLICATES"
              || ((rec.actionType == AUGMENT || rec.actionType == "GENERATE_SYNTHETIC_CANDIDATE") && methodId == "smote")
  {
  }

  /** The difference shows: the class-weights step has its own kind, which the runtime does not know. */
  lemma ClassWeightsNeverRun(p: Plugins, calls: seq<Call>, steps: seq<Step>, source: Ref, k: nat,
                             rec: MethodRecommendation, inputs: seq<string>, hash: Hash, dependsOn: seq<string>)
    requires rec.actionType == AUGMENT && k < |steps|
    requires steps[k] == Linked(DraftStep(rec, "class_weights", inputs, hash), dependsOn, hash)
    ensures !Threads(p, calls, steps, source)
  {
    assert ActionOf(steps[k]).Unsupported?;
    if Threads(p, calls, steps, source) {
      CompletedStepsAreSupported(p, calls, steps, source);
    }
  }

  // ---------------------------------------------------------------------------------------------
  // When an export is surfaced
  // ---------------------------------------------------------------------------------------------

  /** The condition on the gates report and the model-impact verdict. */
  predicate ExportAllowed(report: GatesReport, verdict: Option<Verdict>, requireImpact: bool) {
    && !report.blockExport && !report.blockerPresent && report.rawUnchanged
    && (verdict.Some? ==> verdict.value.Improved? || verdict.value.RequiresReview?)
    && (requireImpact ==> verdict.Some?)
  }

  function PackageRequest(report: GatesReport, verdict: Option<Verdict>, requireImpact: bool, manifest: Ref,
                          tabular: seq<Ref>, card: Ref, lineage: Ref, extra: seq<Ref>, rows: nat): Request
  {
    var candidate := BuildCandidate(Some(report));
    Request(candidate, Some(report), verdict, None, manifest, tabular, [], Some(card), Some(lineage), None, None, extra,
            rows, if candidate.blockExport then 1 else 0, 0, requireImpact, true, true)
  }

  /** Of the seven gates, only four can stop a run that got this far. */
  lemma ExportableIffAllowed(report: GatesReport, verdict: Option<Verdict>, requireImpact: bool, manifest: Ref,
                             tabular: seq<Ref>, card: Ref, lineage: Ref, extra: seq<Ref>, rows: nat)
    ensures Exportable(PackageRequest(report, verdict, requireImpact, manifest, tabular, card, lineage, extra, rows)) <==>
              ExportAllowed(report, verdict, requireImpact)
  {
    var req := PackageRequest(report, verdict, requireImpact, manifest, tabular, card, lineage, extra, rows);
    if ExportAllowed(report, verdict, requireImpact) {
      assert !Stops(req, 0) && !Stops(req, 1) && !Stops(req, 2) && !Stops(req, 3) && !Stops(req, 4) && !Stops(req, 5) && !Stops(req, 6);
    } else {
      assert Stops(req, 0) || Stops(req, 1) || Stops(req, 2) || Stops(req, 5);
    }
  }

  /** With the gate runner's own reports the condition is short: no blocking check failed, the raw
      artifact is intact, and the verdict does not forbid it.  Whoever is shown an export is shown
      its candidate; a candidate shown without an export was held back by its verdict. */
  lemma RunnerReportsAllowExportIff(checks: seq<Check>, rawUnchanged: bool, verdict: Option<Verdict>, requireImpact: bool)
    ensures var report := Summarise(checks, rawUnchanged);
            && (ExportAllowed(report, verdict, requireImpact) <==>
                  && rawUnchanged && (forall c | c in checks :: !c.Blocks())
                  && (if verdict.Some? then verdict.value.Improved? || verdict.value.RequiresReview? else !requireImpact))
            && (ExportAllowed(report, verdict, requireImpact) ==> Showable(BuildCandidate(Some(report))))
            && (Showable(BuildCandidate(Some(report))) && !ExportAllowed(report, verdict, requireImpact) ==>
                  if verdict.Some? then verdict.value.Degraded? || verdict.value.Rejected? else requireImpact)
  {
    SummaryIsConsistent(checks, rawUnchanged);
    ShowableIff(checks, rawUnchanged);
  }

  /** The URIs of an export, each once, in the order manifest, tabular export, card, lineage, others. */
  ghost function ExportedUris(manifest: Ref, tabular: seq<Ref>, card: Ref, lineage: Ref, others: seq<Ref>): seq<string> {
    OrderedUnique([manifest.uri] + Uris(tabular) + [card.uri, lineage.uri] + Uris(others))
  }

  lemma ExportedUrisOf(manifest: Ref, refs: seq<Ref>, card: Ref, lineage: Ref, extra: seq<Ref>, others: seq<Ref>)
    requires extra == UniqueByUri(others)
    ensures OrderedUnique(Uris([manifest] + refs + [card] + [lineage] + extra)) == ExportedUris(manifest, refs, card, lineage, others)
  {
    var listed := [manifest] + refs + [card] + [lineage];
    UniqueByUriIs(others);
    UrisAppend(listed, extra);
    OrderedUniqueAbsorbsRight(Uris(listed), Uris(others));
    UrisAppend([manifest] + refs + [card], [lineage]);
    UrisAppend([manifest] + refs, [card]);
    UrisAppend([manifest], refs);
    assert Uris(listed) == [manifest.uri] + Uris(refs) + [card.uri, lineage.uri];
  }

  function GatesArtifact(gates: Option<Judgement>): seq<Ref> {
    if gates.Some? then [gates.value.artifact] else []
  }

  function ImpactArtifact(impact: Option<Impact>): seq<Ref> {
    if impact.Some? then [impact.value.artifact] else []
  }

  /** What the steps produced, then the two reports, the first of each URI. */
  function CandidateRefs(outputs: seq<Ref>, gates: Option<Judgement>, impact: Option<Impact>): seq<Ref> {
    UniqueByUri(outputs + GatesArtifact(gates) + ImpactArtifact(impact))
  }

  lemma CandidateRefsAre(outputs: seq<Ref>, gates: Option<Judgement>, impact: Option<Impact>)
    ensures Uris(CandidateRefs(outputs, gates, impact)) ==
            OrderedUnique(Uris(outputs) + (if gates.Some? then [gates.value.artifact.uri] else [])
                          + if impact.Some? then [impact.value.artifact.uri] else [])
  {
    var judged, measured := GatesArtifact(gates), ImpactArtifact(impact);
    UniqueByUriIs(outputs + judged + measured);
    UrisAppend(outputs + judged, measured);
    UrisAppend(outputs, judged);
    assert Uris(judged) == if gates.Some? then [gates.value.artifact.uri] else [];
    assert Uris(measured) == if impact.Some? then [impact.value.artifact.uri] else [];
  }

  /** The candidate version names what it was made from, by hash, and by what. */
  function VersionDocument(steps: seq<Step>, from: Ref, to: Ref, report: GatesReport, outputs: seq<Ref>,
                           gates: Option<Judgement>, impact: Option<Impact>, synthetic: Option<Synthetic>): Document
  {
    var refs := CandidateRefs(outputs, gates, impact);
    CandidateDocument(
      BuildCandidate(Some(report)), [from.hash], OrderedUnique(Hashes(refs)), refs, to,
      if gates.Some? then Some(gates.value.artifact) else None, Summaries(steps), synthetic)
  }

  // ---------------------------------------------------------------------------------------------
  // The state of a run
  // ---------------------------------------------------------------------------------------------

  class ApplyRun {
    const steps: seq<Step>
    const inputs: seq<Ref>
    const plugins: Plugins
    const requireImpact: bool
    const hasSynthetic: bool

    var actionPlan: Option<Ref>
    var source: Option<Ref>
    var candidate: Option<Ref>
    var remediation: Option<Ref>
    var outputs: seq<Ref>
    var split: Option<Split>
    var synthetic: Option<Synthetic>
    var gates: Option<Judgement>
    var impact: Option<Impact>
    var version: Option<(Candidate, Ref)>
    var card: Option<Ref>
    var lineage: Option<Ref>
    var tabular: seq<Ref>
    var manifest: Option<Ref>
    var package: Option<(Package, Ref)>

    /** Every plugin run of a plan step, in order. */
    ghost var calls: seq<Call>

    constructor (steps: seq<Step>, inputs: seq<Ref>, plugins: Plugins, requireImpact: bool, hasSynthetic: bool)
      ensures this.steps == steps && this.inputs == inputs && this.plugins == plugins && this.requireImpact == requireImpact
      ensures this.hasSynthetic == hasSynthetic
      ensures Fresh()
    {
      this.steps, this.inputs, this.plugins := steps, inputs, plugins;
      this.requireImpact, this.hasSynthetic := requireImpact, hasSynthetic;
      actionPlan, source, candidate, remediation, outputs, split, synthetic := None, None, None, None, [], None, None;
      gates, impact, version, card, lineage, tabular, manifest, package := None, None, None, None, None, [], None, None;
      calls := [];
    }

    /** No step of the plan has been attempted and nothing has been built. */
    ghost predicate Fresh()
      reads this
    {
      && source.None? && candidate.None? && remediation.None? && outputs == [] && split.None? && synthetic.None?
      && gates.None? && impact.None? && version.None? && package.None? && calls == []
      && card.None? && lineage.None? && tabular == [] && manifest.None?
    }

    /** The plan has been executed: its steps ran once each, in order, each on what the one before it
        left, and the gates judged what the last one left. */
    ghost predicate Executed()
      reads this`remediation, this`source, this`candidate, this`gates, this`calls
    {
      && remediation.Some? && source.Some? && candidate.Some? && gates.Some?
      && Threads(plugins, calls, steps, source.value)
      && candidate == Outcome(calls, source.value)
      && gates.value.candidate == candidate.value && gates.value.source == source.value
    }

    function VerdictOf(): Option<Verdict>
      reads this`impact
    {
      if impact.Some? then Some(impact.value.verdict) else None
    }

    method PersistActionPlan() returns (r: Result<Ref, Failure>)
      modifies this`actionPlan
      ensures old(actionPlan).Some? ==> actionPlan == old(actionPlan) && r == Ok(actionPlan.value)
      ensures old(actionPlan).None? ==> r == plugins.persist(ActionPlanDocument(steps))
      ensures r.Ok? ==> actionPlan == Some(r.value)
    {
      if actionPlan.Some? {
        return Ok(actionPlan.value);
      }
      r := plugins.persist(ActionPlanDocument(steps));
      if r.Ok? {
        actionPlan := Some(r.value);
      }
    }

    /** The source of a run: one of the given artifacts, or else what is stored under the first URI
        that a step names; and it must be readable. */
    function SourceOf(): Result<Ref, Failure> {
      var planned := PlannedUris(steps);
      var found :=
        if inputs != [] then Ok(SourceSelection.Select(inputs, planned))
        else if planned == [] then Err(SourceRequired)
        else plugins.head(planned[0]);
      if found.Ok? && !plugins.readable(found.value.uri) then Err(SourceUnreadable(found.value.uri)) else found
    }

    method ResolveSource() returns (r: Result<Ref, Failure>)
      modifies this`source
      ensures old(source).Some? ==> source == old(source) && r == Ok(source.value)
      ensures old(source).None? ==> r == SourceOf() && source == if r.Ok? then Some(r.value) else None
      ensures old(source).None? && r.Ok? ==>
                && plugins.readable(r.value.uri)
                && (inputs == [] ==> exists k | FirstWithInputs(steps, k) :: plugins.head(steps[k].inputArtifacts[0]) == r)
                && (inputs != [] ==>
                      forall uris | NamedByPlan(uris, steps) :: SourceSelection.Preferred(inputs, uris, r.value))
      ensures old(source).None? && inputs == [] && (forall k | 0 <= k < |steps| :: steps[k].inputArtifacts == []) ==>
                r == Err(SourceRequired)
    {
      PlannedUrisAre(steps);
      if source.Some? {
        return Ok(source.value);
      }
      var planned := PlannedUris(steps);
      var found: Ref;
      if inputs != [] {
        found := SourceSelection.SelectSourceRef(inputs, planned);
        SourceSelection.SelectsPreferred(inputs, planned);
        forall uris | NamedByPlan(uris, steps) ensures SourceSelection.Preferred(inputs, uris, found) {
          assert forall u :: u in uris <==> u in planned;
        }
      } else if planned == [] {
        return Err(SourceRequired);
      } else {
        FirstPlannedUriIs(steps, FirstInputs(steps));
        var head := plugins.head(planned[0]);
        if head.Err? {
          return head;
        }
        found := head.value;
      }
      if !plugins.readable(found.uri) {
        return Err(SourceUnreadable(found.uri));
      }
      source := Some(found);
      return Ok(found);
    }

    method EnsureSplit(input: Ref) returns (r: Result<Split, Failure>)
      modifies this`split
      ensures old(split).Some? ==> split == old(split) && r == Ok(split.value)
      ensures old(split).None? ==> r == plugins.split(input)
      ensures r.Ok? ==> split == Some(r.value)
      ensures r.Err? ==> split == old(split)
    {
      if split.Some? {
        return Ok(split.value);
      }
      r := plugins.split(input);
      if r.Ok? {
        split := Some(r.value);
      }
    }

    /** Runs one step: exactly one call is logged, and it is genuine.  Only a SMOTE step touches the split
        and the synthetic report, and it leaves both as its plugin returned them. */
    method ExecuteStep(step: Step, input: Ref) returns (r: Result<(Ref, seq<Ref>), Failure>, ghost c: Call)
      modifies this`split, this`synthetic, this`calls
      ensures calls == old(calls) + [c] && c.step == step && c.input == input && Genuine(plugins, c)
      ensures if r.Ok? then c.output == Some(r.value.0) && c.produced == r.value.1 else c.output.None? && c.produced == []
      ensures step.kind == "IMPUTE_MISSING_VALUES" ==>
                var made := plugins.impute(step, input);
                r == if made.Ok? then Ok((made.value.0, [made.value.0, made.value.1])) else Err(made.error)
      ensures step.kind == "MARK_DUPLICATE_CANDIDATES" || step.kind == "REMOVE_DUPLICATES" ==>
                var made := plugins.duplicates(step, input);
                r == if made.Ok? then Ok((made.value.0, [made.value.0, made.value.1])) else Err(made.error)
      ensures (step.kind == "AUGMENT_RARE_CLASS" || step.kind == "GENERATE_SYNTHETIC_CANDIDATE") && step.methodId == "smote" ==>
                var halves := if old(split).Some? then Ok(old(split).value) else plugins.split(input);
                if halves.Err? then r == Err(halves.error)
                else
                  var made := plugins.smote(step, input, halves.value);
                  if made.Err? then r == Err(made.error)
                  else
                    && c.split == Some(halves.value)
                    && r == Ok((made.value.0.candidate, [made.value.0.candidate, made.value.1.artifact, made.value.0.report]))
                    && synthetic == Some(made.value.0) && split == Some(made.value.1)
      ensures step.kind !in {"IMPUTE_MISSING_VALUES", "MARK_DUPLICATE_CANDIDATES", "REMOVE_DUPLICATES"}
              && !(step.kind in {"AUGMENT_RARE_CLASS", "GENERATE_SYNTHETIC_CANDIDATE"} && step.methodId == "smote") ==>
                r == Err(UnsupportedStep(step.id))
      ensures step.kind !in {"AUGMENT_RARE_CLASS", "GENERATE_SYNTHETIC_CANDIDATE"} || step.methodId != "smote" ==>
                unchanged(this`split, this`synthetic)
      ensures r.Err? ==> synthetic == old(synthetic)
    {
      match ActionOf(step) {
        case Impute =>
          var made := plugins.impute(step, input);
          r := if made.Ok? then Result.Ok((made.value.0, [made.value.0, made.value.1])) else Err(made.error);
          c := Logged(step, input, None, r);
        case Duplicates =>
          var made := plugins.duplicates(step, input);
          r := if made.Ok? then Result.Ok((made.value.0, [made.value.0, made.value.1])) else Err(made.error);
          c := Logged(step, input, None, r);
        case Smote =>
          var halves := EnsureSplit(input);
          if halves.Err? {
            r := Err(halves.error);
            c := Logged(step, input, None, r);
          } else {
            var made := plugins.smote(step, input, halves.value);
            if made.Ok? {
              split, synthetic := Some(made.value.1), Some(made.value.0);
              r := Result.Ok((made.value.0.candidate, [made.value.0.candidate, made.value.1.artifact, made.value.0.report]));
            } else {
              r := Err(made.error);
            }
            c := Logged(step, input, Some(halves.value), r);
          }
        case Unsupported =>
          r := Err(UnsupportedStep(step.id));
          c := Logged(step, input, None, r);
      }
      calls := calls + [c];
    }

    /** One turn of the loop over the plan: what the step leaves becomes the candidate. */
    method Advance(step: Step, current: Ref) returns (r: Result<Ref, Failure>, ghost c: Call)
      modifies this`split, this`synthetic, this`calls, this`candidate, this`outputs
      ensures calls == old(calls) + [c] && c.step == step && c.input == current && Genuine(plugins, c)
      ensures outputs == old(outputs) + c.produced
      ensures if r.Ok? then c.output == Some(r.value) && candidate == Some(r.value)
              else c.output.None? && c.produced == [] && candidate == old(candidate)
    {
      var made;
      made, c := ExecuteStep(step, current);
      if made.Err? {
        return Err(made.error), c;
      }
      candidate := Some(made.value.0);
      outputs := outputs + made.value.1;
      r := Result.Ok(made.value.0);
    }

    /** The loop over the plan: `added` are the calls it made. */
    method RunSteps(from: Ref) returns (r: Result<Ref, Failure>, ghost added: seq<Call>)
      modifies this`split, this`synthetic, this`calls, this`candidate, this`outputs
      ensures calls == old(calls) + added
      ensures outputs == old(outputs) + Produced(added)
      ensures r.Ok? ==> Threads(plugins, added, steps, from) && Outcome(added, from) == Some(r.value)
      ensures r.Ok? ==> candidate == if steps == [] then old(candidate) else Some(r.value)
      ensures r.Err? ==> FailsAtLast(plugins, added, steps, from)
    {
      ghost var before, produced := calls, outputs;
      var current := from;
      added := [];
      for k := 0 to |steps|
        invariant |added| == k && calls == before + added
        invariant Threads(plugins, added, steps[..k], from) && Outcome(added, from) == Some(current)
        invariant candidate == if k == 0 then old(candidate) else Some(current)
        invariant outputs == produced + Produced(added)
      {
        var made, c := Advance(steps[k], current);
        LogSnoc(before, produced, added, c);
        if made.Err? {
          FailsSnoc(plugins, added, steps, from, c);
          return made, added + [c];
        }
        ThreadsSnoc(plugins, added, steps, from, c);
        added := added + [c];
        current := made.value;
      }
      assert steps[..|steps|] == steps;
      return Result.Ok(current), added;
    }

    /** `_run_validation_gates`: a report once made is kept. */
    method RunValidationGates(from: Ref, to: Ref) returns (r: Result<Judgement, Failure>)
      modifies this`gates
      ensures old(gates).Some? ==> gates == old(gates) && r.Ok?
      ensures r.Ok? ==> gates == Some(r.value)
      ensures r.Ok? && old(gates).None? ==>
                && r.value.source == from && r.value.candidate == to
                && plugins.gates(from, to, split, synthetic) == Ok((r.value.report, r.value.artifact))
      ensures r.Err? ==> gates == old(gates)
    {
      if gates.Some? {
        return Ok(gates.value);
      }
      var made := plugins.gates(from, to, split, synthetic);
      if made.Err? {
        return Err(made.error);
      }
      gates := Some(Judgement(made.value.0, made.value.1, from, to));
      return Ok(gates.value);
    }

    method ExecuteRemediationPlan() returns (r: Result<Ref, Failure>)
      modifies this`source, this`split, this`synthetic, this`calls, this`candidate, this`outputs, this`gates, this`remediation
      ensures old(remediation).Some? ==> unchanged(this) && r == Ok(remediation.value)
      ensures r.Ok? ==> remediation == Some(r.value) && (old(remediation).None? ==> source.Some? && candidate.Some? && gates.Some?)
      ensures old(Fresh()) && r.Ok? ==> Executed()
      ensures old(Fresh()) && r.Ok? ==>
                && SourceOf() == Ok(source.value) && outputs == Produced(calls)
                && plugins.gates(source.value, candidate.value, split, synthetic) == Ok((gates.value.report, gates.value.artifact))
                && plugins.persist(RemediationReport(steps, candidate.value, gates.value.report)) == r
    {
      if remediation.Some? {
        return Ok(remediation.value);
      }
      var from := ResolveSource();
      if from.Err? {
        return Err(from.error);
      }
      var last, added := RunSteps(from.value);
      if last.Err? {
        return Err(last.error);
      }
      assert old(calls) == [] ==> calls == added;
      assert old(outputs) == [] ==> outputs == Produced(added);
      if candidate.None? {
        return Err(NoCandidateArtifact);
      }
      var judged := RunValidationGates(from.value, candidate.value);
      if judged.Err? {
        return Err(judged.error);
      }
      r := plugins.persist(RemediationReport(steps, candidate.value, judged.value.report));
      if r.Ok? {
        remediation := Some(r.value);
      }
    }

    function SplitFor(from: Ref): Result<Split, Failure>
      reads this`split
    {
      if split.Some? then Ok(split.value) else plugins.split(from)
    }

    /** What measuring the impact comes to, in the present state. */
    function Measurement(from: Ref, to: Ref, report: GatesReport): Result<Option<Impact>, Failure>
      reads this`split, this`synthetic
    {
      var halves, columns := SplitFor(from), plugins.features(to);
      if halves.Err? then Err(halves.error)
      else if columns.Err? then Err(columns.error)
      else if columns.value == 0 then Ok(None)
      else
        var measured := plugins.impact(from, to, halves.value, synthetic, report);
        if measured.Err? then Err(measured.error) else Ok(Some(measured.value))
    }

    /** The impact has been measured as far as it can be: trying again would change nothing. */
    ghost predicate Settled()
      reads this`source, this`candidate, this`gates, this`impact, this`split, this`synthetic
    {
      && source.Some? && candidate.Some? && gates.Some? && (impact.Some? ==> split.Some?)
      && var m := Measurement(source.value, candidate.value, gates.value.report);
      && impact == (if m.Ok? then m.value else None)
      && (requireImpact ==> m.Ok?)
    }

    /** What the model-impact report is made from, and whether it can be. */
    method MeasureImpact(from: Ref, to: Ref, report: GatesReport) returns (r: Result<Option<Impact>, Failure>)
      modifies this`split
      ensures r == old(Measurement(from, to, report)) && Measurement(from, to, report) == r
      ensures r.Ok? && r.value.None? ==> plugins.features(to) == Ok(0)
      ensures r.Ok? && r.value.Some? ==>
                split.Some? && plugins.impact(from, to, split.value, synthetic, report) == Ok(r.value.value)
    {
      var halves := EnsureSplit(from);
      if halves.Err? {
        return Err(halves.error);
      }
      var columns := plugins.features(to);
      if columns.Err? {
        return Err(columns.error);
      }
      if columns.value == 0 {
        return Ok(None);
      }
      var measured := plugins.impact(from, to, halves.value, synthetic, report);
      r := if measured.Ok? then Result.Ok(Some(measured.value)) else Err(measured.error);
    }

    /** A report once made is kept; a failure to make one is swallowed unless the run requires it, and
        is tried again on the next call. */
    method EnsureModelImpactReport() returns (r: Result<Option<Ref>, Failure>)
      modifies this`source, this`split, this`synthetic, this`calls, this`candidate, this`outputs, this`gates,
               this`remediation, this`impact
      ensures old(impact).Some? ==> unchanged(this) && r == Ok(Some(impact.value.artifact))
      ensures r.Ok? ==> r.value == if impact.Some? then Some(impact.value.artifact) else None
      ensures old(candidate).Some? ==>
                unchanged(this`source, this`candidate, this`gates, this`remediation, this`calls, this`outputs, this`synthetic)
      ensures old(candidate).Some? && r.Err? ==> requireImpact
      ensures old(impact).None? && r.Ok? && r.value.Some? ==>
                && source.Some? && candidate.Some? && gates.Some? && split.Some?
                && plugins.impact(source.value, candidate.value, split.value, synthetic, gates.value.report) == Ok(impact.value)
      ensures r.Ok? && r.value.None? && requireImpact && source.Some? && candidate.Some? && gates.Some? ==>
                plugins.features(candidate.value) == Ok(0)
      ensures old(impact).None? && r.Ok? && source.Some? && candidate.Some? && gates.Some? ==> Settled()
      ensures old(Settled()) ==> Settled() && impact == old(impact)
      ensures old(Fresh()) && r.Ok? ==> Executed()
    {
      if impact.Some? {
        return Ok(Some(impact.value.artifact));
      }
      if candidate.None? {
        var done := ExecuteRemediationPlan();
        if done.Err? {
          return Err(done.error);
        }
      }
      if source.None? || candidate.None? || gates.None? {
        return Ok(None);
      }
      var measured := MeasureImpact(source.value, candidate.value, gates.value.report);
      if measured.Err? {
        if requireImpact {
          return Err(measured.error);
        }
        return Ok(None);
      }
      impact := measured.value;
      return Ok(if impact.Some? then Some(impact.value.artifact) else None);
    }

    /** The candidate version, the card and lineage, the tabular export, the manifest and at last the
        package.  The package is READY exactly when the report and the verdict allow the export. */
    method BuildFinalApplyOutputs() returns (r: Result<Ref, Failure>)
      modifies this`source, this`split, this`synthetic, this`calls, this`candidate, this`outputs, this`gates,
               this`remediation, this`impact, this`version, this`card, this`lineage, this`tabular, this`manifest, this`package
      ensures old(package).Some? ==> unchanged(this) && r == Ok(package.value.1)
      ensures old(package).None? && r.Err? ==> package.None?
      ensures old(package).None? && r.Ok? ==> Built(old(tabular), old(manifest)) && r.value == package.value.1
      ensures old(Fresh()) && r.Ok? ==> Executed()
      ensures old(candidate).Some? ==>
                unchanged(this`source, this`candidate, this`gates, this`remediation, this`calls, this`synthetic)
      ensures old(Settled()) ==> Settled() && impact == old(impact)
    {
      if package.Some? {
        return Ok(package.value.1);
      }
      var inputs := EnsureInputs();
      if inputs.Err? {
        return Err(inputs.error);
      }
      ghost var done, settled := Executed(), Settled();
      r := BuildOutputs();
      assert (done ==> Executed()) && (settled ==> Settled());
    }

    /** Package and documents of the run are stored, from its source, its candidate and its gates report;
        the package is READY exactly when report and verdict allow the export. */
    ghost predicate Built(tabularBefore: seq<Ref>, manifestBefore: Option<Ref>)
      reads this`source, this`candidate, this`outputs, this`gates, this`synthetic, this`split, this`impact, this`version,
            this`card, this`lineage, this`tabular, this`manifest, this`package
    {
      && source.Some? && candidate.Some? && gates.Some? && Packed()
      && Stored(source.value, candidate.value, gates.value.report, tabularBefore, manifestBefore)
      && var built := package.value.0;
      && (built.status.Ready? <==> ExportAllowed(gates.value.report, VerdictOf(), requireImpact))
      && built.included == (if built.status.Ready? then plugins.rows(candidate.value).value else 0)
      && built.blocked == (if gates.value.report.blockExport then 1 else 0)
    }

    /** The plan executed, model impact measured if it can be, and everything there to build from. */
    method EnsureInputs() returns (r: Result<(), Failure>)
      modifies this`source, this`split, this`synthetic, this`calls, this`candidate, this`outputs, this`gates,
               this`remediation, this`impact
      ensures r.Ok? ==> source.Some? && candidate.Some? && gates.Some?
      ensures old(Fresh()) && r.Ok? ==> Executed()
      ensures old(candidate).Some? ==>
                unchanged(this`source, this`candidate, this`gates, this`remediation, this`calls, this`synthetic)
      ensures old(Settled()) ==> Settled() && impact == old(impact)
    {
      if candidate.None? {
        var done := ExecuteRemediationPlan();
        if done.Err? {
          return Err(done.error);
        }
      }
      var measured := EnsureModelImpactReport();
      if measured.Err? {
        return Err(measured.error);
      }
      if source.None? || candidate.None? || gates.None? {
        return Err(OutputsMissing);
      }
      return Ok(());
    }

    /** The part that only runs once everything it needs is there. */
    method BuildOutputs() returns (r: Result<Ref, Failure>)
      requires package.None? && source.Some? && candidate.Some? && gates.Some?
      modifies this`version, this`card, this`lineage, this`tabular, this`manifest, this`package
      ensures r.Ok? ==> Built(old(tabular), old(manifest)) && r.value == package.value.1
      ensures r.Err? ==> package.None?
    {
      var report := gates.value.report;
      var stored := StoreDocuments(source.value, candidate.value, report);
      if stored.Err? {
        return Err(stored.error);
      }
      ghost var kept := Stored(source.value, candidate.value, report, old(tabular), old(manifest));
      r := PackOutputs(report, stored.value.0, stored.value.1);
      assert kept ==> Stored(source.value, candidate.value, report, old(tabular), old(manifest));
    }

    method PackOutputs(report: GatesReport, refs: seq<Ref>, rows: nat) returns (r: Result<Ref, Failure>)
      requires manifest.Some? && version.Some? && card.Some? && lineage.Some?
      requires refs == if version.value.0.status.VersionBlocked? then [] else tabular
      modifies this`package
      ensures r.Ok? ==>
                && Packed() && r.value == package.value.1
                && var built := package.value.0;
                && (built.status.Ready? <==> ExportAllowed(report, VerdictOf(), requireImpact))
                && built.included == (if built.status.Ready? then rows else 0)
                && built.blocked == (if report.blockExport then 1 else 0)
      ensures r.Err? ==> package == old(package)
    {
      var built := Decide(report, refs, card.value, lineage.value, rows);
      r := PersistPackage(built);
    }

    /** A READY package carries manifest, tabular export unless the version is blocked, card, lineage,
        version, gates report and impact report, each URI once; a blocked one carries the manifest. */
    ghost predicate Packed()
      reads this`package, this`manifest, this`version, this`card, this`lineage, this`tabular, this`gates, this`impact
    {
      && package.Some? && manifest.Some? && version.Some? && card.Some? && lineage.Some?
      && plugins.persist(PackageDocument(package.value.0)) == Ok(package.value.1)
      && if package.value.0.status.Ready?
         then Uris(package.value.0.artifacts) ==
              ExportedUris(manifest.value, if version.value.0.status.VersionBlocked? then [] else tabular, card.value,
                           lineage.value, [version.value.1] + GatesArtifact(gates) + ImpactArtifact(impact))
         else package.value.0.artifacts == [manifest.value]
    }

    method PersistPackage(built: Package) returns (r: Result<Ref, Failure>)
      modifies this`package
      ensures r == plugins.persist(PackageDocument(built))
      ensures package == if r.Ok? then Some((built, r.value)) else old(package)
    {
      r := plugins.persist(PackageDocument(built));
      if r.Ok? {
        package := Some((built, r.value));
      }
    }

    /** Every document of the run is stored, each made from the ones before it. */
    ghost predicate Stored(from: Ref, to: Ref, report: GatesReport, tabularBefore: seq<Ref>, manifestBefore: Option<Ref>)
      reads this`version, this`card, this`lineage, this`impact, this`outputs, this`gates, this`synthetic, this`split,
            this`tabular, this`manifest
    {
      Described(from, to, report) && Exported(to, tabularBefore, manifestBefore)
    }

    /** Tabular export and manifest are stored. */
    ghost predicate Exported(to: Ref, tabularBefore: seq<Ref>, manifestBefore: Option<Ref>)
      reads this`version, this`split, this`tabular, this`manifest
    {
      && version.Some? && manifest.Some?
      && (if version.value.0.status.VersionBlocked? then tabular == tabularBefore else plugins.tabular(to, split) == Ok(tabular))
      && (if manifestBefore.Some? then manifest == manifestBefore
          else plugins.persist(ExportManifest(version.value.1, tabular)) == Ok(manifest.value))
    }

    /** Candidate version, card and lineage are stored. */
    ghost predicate Described(from: Ref, to: Ref, report: GatesReport)
      reads this`version, this`card, this`lineage, this`impact, this`outputs, this`gates, this`synthetic
    {
      && version.Some? && card.Some? && lineage.Some? && plugins.rows(to).Ok?
      && var proposal := version.value.0;
      && proposal == BuildCandidate(Some(report))
      && plugins.persist(VersionDocument(steps, from, to, report, outputs, gates, impact, synthetic)) == Ok(version.value.1)
      && plugins.persist(DatasetCard(proposal, impact, plugins.rows(to).value)) == Ok(card.value)
      && plugins.persist(LineageReport(version.value.1, from)) == Ok(lineage.value)
    }

    /** Candidate version, card, lineage, tabular export and manifest: returns what of the tabular export
        goes into the package, and the number of rows. */
    method StoreDocuments(from: Ref, to: Ref, report: GatesReport) returns (r: Result<(seq<Ref>, nat), Failure>)
      modifies this`version, this`card, this`lineage, this`tabular, this`manifest
      ensures r.Ok? ==> Stored(from, to, report, old(tabular), old(manifest))
      ensures r.Ok? ==> version.Some? && version.value.0 == BuildCandidate(Some(report)) && card.Some? && lineage.Some? && manifest.Some?
      ensures r.Ok? ==> plugins.rows(to) == Ok(r.value.1)
      ensures r.Ok? ==> r.value.0 == if version.value.0.status.VersionBlocked? then [] else tabular
    {
      var described := Describe(from, to, report);
      if described.Err? {
        return Err(described.error);
      }
      var refs := Export(to);
      if refs.Err? {
        return Err(refs.error);
      }
      return Ok((refs.value, described.value));
    }

    method Export(to: Ref) returns (r: Result<seq<Ref>, Failure>)
      requires version.Some?
      modifies this`tabular, this`manifest
      ensures r.Ok? ==> Exported(to, old(tabular), old(manifest))
      ensures r.Ok? ==> r.value == if version.value.0.status.VersionBlocked? then [] else tabular
    {
      r := WriteTabular(to);
      if r.Err? {
        return;
      }
      var listed := PersistExportManifest();
      if listed.Err? {
        return Err(listed.error);
      }
    }

    method Describe(from: Ref, to: Ref, report: GatesReport) returns (r: Result<nat, Failure>)
      modifies this`version, this`card, this`lineage
      ensures r.Ok? ==> Described(from, to, report) && plugins.rows(to) == r
    {
      var proposed := ProposeVersion(from, to, report);
      if proposed.Err? {
        return Err(proposed.error);
      }
      r := WriteCardAndLineage(from, to);
    }

    /** `build_candidate_dataset_version`: a synthetic candidate without rows is not proposed. */
    method ProposeVersion(from: Ref, to: Ref, report: GatesReport) returns (r: Result<Ref, Failure>)
      modifies this`version
      ensures r.Ok? ==>
                && version == Some((BuildCandidate(Some(report)), r.value))
                && plugins.persist(VersionDocument(steps, from, to, report, outputs, gates, impact, synthetic)) == r
                && (synthetic.Some? && synthetic.value.generated == 0 ==> !BuildCandidate(Some(report)).status.Proposed?)
    {
      var proposal := BuildCandidate(Some(report));
      if synthetic.Some? && proposal.status.Proposed? && synthetic.value.generated == 0 {
        return Err(SyntheticWithoutRows);
      }
      var refs := CandidateRefs(outputs, gates, impact);
      var outputHashes := CollectUnique(Hashes(refs));
      var judged := if gates.Some? then Some(gates.value.artifact) else None;
      r := plugins.persist(
        CandidateDocument(proposal, [from.hash], outputHashes, refs, to, judged, Summaries(steps), synthetic));
      if r.Ok? {
        version := Some((proposal, r.value));
      }
    }

    method WriteCardAndLineage(from: Ref, to: Ref) returns (r: Result<nat, Failure>)
      requires version.Some?
      modifies this`card, this`lineage
      ensures r.Ok? ==>
                && plugins.rows(to) == r && card.Some? && lineage.Some?
                && plugins.persist(DatasetCard(version.value.0, impact, r.value)) == Ok(card.value)
                && plugins.persist(LineageReport(version.value.1, from)) == Ok(lineage.value)
    {
      r := plugins.rows(to);
      if r.Err? {
        return;
      }
      var cardRef := plugins.persist(DatasetCard(version.value.0, impact, r.value));
      if cardRef.Err? {
        return Err(cardRef.error);
      }
      card := Some(cardRef.value);
      var lineageRef := plugins.persist(LineageReport(version.value.1, from));
      if lineageRef.Err? {
        return Err(lineageRef.error);
      }
      lineage := Some(lineageRef.value);
    }

    /** The tabular export is written for candidates that are not blocked. */
    method WriteTabular(to: Ref) returns (r: Result<seq<Ref>, Failure>)
      requires version.Some?
      modifies this`tabular
      ensures if version.value.0.status.VersionBlocked? then r == Ok([]) && tabular == old(tabular)
              else r == plugins.tabular(to, split) && (r.Ok? ==> tabular == r.value)
    {
      if version.value.0.status.VersionBlocked? {
        return Ok([]);
      }
      r := plugins.tabular(to, split);
      if r.Ok? {
        tabular := r.value;
      }
    }

    method PersistExportManifest() returns (r: Result<Ref, Failure>)
      requires version.Some?
      modifies this`manifest
      ensures old(manifest).Some? ==> manifest == old(manifest) && r == Ok(manifest.value)
      ensures old(manifest).None? ==> r == plugins.persist(ExportManifest(version.value.1, tabular))
      ensures r.Ok? ==> manifest == Some(r.value)
    {
      if manifest.Some? {
        return Ok(manifest.value);
      }
      r := plugins.persist(ExportManifest(version.value.1, tabular));
      if r.Ok? {
        manifest := Some(r.value);
      }
    }

    method Decide(report: GatesReport, refs: seq<Ref>, cardRef: Ref, lineageRef: Ref, rows: nat) returns (built: Package)
      requires manifest.Some? && version.Some?
      ensures built.status.Ready? <==> ExportAllowed(report, VerdictOf(), requireImpact)
      ensures built.included == (if built.status.Ready? then rows else 0) && built.blocked == (if report.blockExport then 1 else 0)
      ensures if built.status.Ready?
              then Uris(built.artifacts) ==
                   ExportedUris(manifest.value, refs, cardRef, lineageRef, [version.value.1] + GatesArtifact(gates) + ImpactArtifact(impact))
              else built.artifacts == [manifest.value]
    {
      var extra := ExtraArtifacts();
      ExportableIffAllowed(report, VerdictOf(), requireImpact, manifest.value, refs, cardRef, lineageRef, extra, rows);
      var request := PackageRequest(report, VerdictOf(), requireImpact, manifest.value, refs, cardRef, lineageRef, extra, rows);
      built := BuildExportPackage(request);
      assert AllArtifacts(request) == [manifest.value] + refs + [cardRef] + [lineageRef] + extra;
      ExportedUrisOf(manifest.value, refs, cardRef, lineageRef, extra, [version.value.1] + GatesArtifact(gates) + ImpactArtifact(impact));
    }

    function ExtraArtifacts(): seq<Ref>
      requires version.Some?
      reads this`version, this`gates, this`impact
    {
      UniqueByUri([version.value.1] + GatesArtifact(gates) + ImpactArtifact(impact))
    }

    /** `final_candidate_ref`. */
    function FinalCandidate(): Option<Ref>
      reads this`version
    {
      if version.Some? && Showable(version.value.0) then Some(version.value.1) else None
    }

    /** `final_export_ref`. */
    function FinalExport(): Option<Ref>
      reads this`package
    {
      if package.Some? && package.value.0.status.Ready? then Some(package.value.1) else None
    }

    // -------------------------------------------------------------------------------------------
    // The asset bodies
    // -------------------------------------------------------------------------------------------

    /** The body of the k-th asset, as far as it touches this state. */
    method Enter(k: nat) returns (ok: bool)
      modifies this
      ensures old(Fresh()) && ok && 1 <= k <= 5 ==> Executed()
      ensures old(Fresh()) && ok && k == 0 ==> Fresh()
      ensures old(Executed()) ==>
                Executed() && unchanged(this`source, this`candidate, this`gates, this`remediation, this`calls, this`synthetic)
      ensures if k == 0 then ok ==> actionPlan.Some? else actionPlan == old(actionPlan)
      ensures k < 4 ==> impact == old(impact)
      ensures ok && k == 4 && old(Executed()) && old(impact).None? ==> Settled()
      ensures old(Executed()) && old(Settled()) ==> Settled() && impact == old(impact)
      ensures k != 5 ==> unchanged(this`version, this`card, this`lineage, this`tabular, this`manifest, this`package)
      ensures k == 5 && old(package).Some? ==> package == old(package)
      ensures ok && k == 5 && old(package).None? ==> Built(old(tabular), old(manifest))
    {
      if 1 <= k <= 3 {
        var r := ExecuteRemediationPlan();
        ok := r.Ok?;
      } else if k == 4 {
        var r := EnsureModelImpactReport();
        ok := r.Ok?;
      } else if k == 5 {
        var r := BuildFinalApplyOutputs();
        ok := r.Ok?;
      } else if k == 0 {
        var r := PersistActionPlan();
        ok := r.Ok?;
      } else {
        ok := false;
      }
    }

    /** However often asset bodies are entered again after the plan was executed, in whatever order and
        with whatever outcome, no step runs again, and candidate and gates report stay what they are. */
    method EnterAgain(bodies: seq<nat>)
      requires Executed()
      modifies this
      ensures Executed() && unchanged(this`source, this`candidate, this`gates, this`remediation, this`calls, this`synthetic)
    {
      for i := 0 to |bodies|
        invariant Executed() && unchanged(this`source, this`candidate, this`gates, this`remediation, this`calls, this`synthetic)
      {
        var ok := Enter(bodies[i]);
      }
    }

    function SyntheticStatus(): (r: string)
      reads this`synthetic, this`gates
      ensures r == "materialized" <==> hasSynthetic && synthetic.Some? && (gates.Some? ==> !gates.value.report.blockExport)
    {
      if !hasSynthetic then "not_applicable"
      else if synthetic.None? then "failed"
      else if gates.Some? && gates.value.report.blockExport then "blocked"
      else "materialized"
    }

    /** The metadata that the k-th asset attaches to its materialisation. */
    function EventOf(k: nat): (e: Launch.AssetEvent)
      requires k < 5
      reads this`actionPlan, this`remediation, this`candidate, this`synthetic, this`gates, this`impact
      ensures e.name == AssetNames[k] && e.status.Some?
    {
      match k
      case 0 => Attached("action_plan", actionPlan, "registered")
      case 1 => Attached("remediation_execution_report", remediation, "executed")
      case 2 => Attached("prepared_dataset", candidate, if candidate.Some? then "materialized" else "missing")
      case 3 =>
        Attached("synthetic_dataset", if synthetic.Some? then Some(synthetic.value.report) else None, SyntheticStatus())
      case _ =>
        Attached("model_impact_report", if impact.Some? then Some(impact.value.artifact) else None,
                 if impact.Some? then "materialized" else "not_applicable")
    }

    /** The metadata of the last asset, with what may be shown to the caller. */
    function ExportEvent(): (e: Launch.AssetEvent)
      reads this`version, this`package
      ensures e.name == AssetNames[5]
    {
      Attached("export_package", if package.Some? then Some(package.value.1) else None, PackageStatusText())
      .(finalCandidate := if FinalCandidate().Some? then Some((FinalCandidate().value.uri, FinalCandidate().value.hash)) else None,
        finalExport := if FinalExport().Some? then Some(FinalExport().value.uri) else None)
    }

    function PackageStatusText(): string
      reads this`package
    {
      if package.None? then "missing" else if package.value.0.status.Ready? then "READY" else "BLOCKED"
    }

    /** The asset bodies before the last, stopping at the first that raises. */
    method MaterialiseUpToImpact() returns (events: seq<Launch.AssetEvent>, ok: bool)
      requires Fresh()
      modifies this
      ensures |events| <= 5
      ensures ok ==> |events| == 5 && Executed() && Settled() && package.None? && tabular == [] && manifest.None?
      ensures ok ==> forall k | 0 <= k < 5 :: events[k] == EventOf(k)
    {
      events := [];
      for k := 0 to 5
        invariant |events| == k && package.None? && tabular == [] && manifest.None? && (if k <= 1 then Fresh() else Executed())
        invariant k <= 4 ==> impact.None?
        invariant k == 5 ==> Settled()
        invariant forall j | 0 <= j < k :: events[j] == EventOf(j)
      {
        ok := Enter(k);
        if !ok {
          return;
        }
        events := events + [EventOf(k)];
      }
      ok := true;
    }

    /** The six asset bodies one after the other, stopping at the first that raises. */
    method Materialise() returns (events: seq<Launch.AssetEvent>, ok: bool)
      requires Fresh()
      modifies this
      ensures |events| <= 6 && (ok <==> |events| == 6)
      ensures ok ==> Executed() && Settled() && Built([], None)
      ensures ok ==> events[5] == ExportEvent() && forall k | 0 <= k < 5 :: events[k] == EventOf(k)
    {
      events, ok := MaterialiseUpToImpact();
      if !ok {
        return;
      }
      ok := Enter(5);
      if ok {
        events := events + [ExportEvent()];
      }
    }

    method MaterialiseAndRead() returns (result: Option<Launch.ApplyResult>)
      requires Fresh()
      modifies this
      ensures result.Some? ==> Executed() && Settled() && Built([], None)
      ensures result.Some? ==>
                && result.value.assets == AssetNames
                && result.value.candidate == ExportEvent().finalCandidate && result.value.exportUri == ExportEvent().finalExport
                && result.value.modelImpactUri == EventOf(4).uri
      ensures result.Some? ==>
                var r := result.value;
                if !hasSynthetic then r.syntheticStatus == "not_applicable" && r.syntheticUri == None
                else if synthetic.None? then r.syntheticStatus == "failed" && r.syntheticUri == None
                else if gates.value.report.blockExport then r.syntheticStatus == "blocked" && r.syntheticUri == None
                else r.syntheticStatus == "materialized" && r.syntheticUri == Some(synthetic.value.report.uri)
    {
      var events, ok := Materialise();
      if !ok {
        return None;
      }
      var r := ReadResult(events, hasSynthetic);
      return Some(r);
    }

    /** A whole successful run, up to the result the caller gets: an export URI is surfaced exactly when
        the gates on the last step's candidate and the verdict allow it, and it is that of the stored
        package; a candidate exactly when validation did not fail it, and it is the stored version; the
        impact report if one was made; the synthetic report unless the gates block its export. */
    method RunToResult() returns (result: Option<Launch.ApplyResult>)
      requires Fresh()
      modifies this
      ensures result.Some? ==> Executed() && Built([], None)
      ensures result.Some? ==>
                && package.Some? && plugins.persist(PackageDocument(package.value.0)) == Ok(package.value.1)
                && result.value.exportUri ==
                   if ExportAllowed(gates.value.report, VerdictOf(), requireImpact) then Some(package.value.1.uri) else None
      ensures result.Some? ==>
                && version.Some? && version.value.0 == BuildCandidate(Some(gates.value.report))
                && result.value.candidate ==
                   if Showable(version.value.0) then Some((version.value.1.uri, version.value.1.hash)) else None
      ensures result.Some? && impact.Some? ==>
                && split.Some? && result.value.modelImpactUri == Some(impact.value.artifact.uri)
                && plugins.impact(source.value, candidate.value, split.value, synthetic, gates.value.report) == Ok(impact.value)
      ensures result.Some? && impact.None? ==>
                result.value.modelImpactUri == None && (requireImpact ==> plugins.features(candidate.value) == Ok(0))
      ensures result.Some? ==>
                var r := result.value;
                if !hasSynthetic then r.syntheticStatus == "not_applicable" && r.syntheticUri == None
                else if synthetic.None? then r.syntheticStatus == "failed" && r.syntheticUri == None
                else if gates.value.report.blockExport then r.syntheticStatus == "blocked" && r.syntheticUri == None
                else r.syntheticStatus == "materialized" && r.syntheticUri == Some(synthetic.value.report.uri)
      ensures result.Some? ==> result.value.assets == AssetNames
    {
      result := MaterialiseAndRead();
    }
  }

  /** What the launcher reads from the six events of a successful materialisation. */
  method ReadResult(events: seq<Launch.AssetEvent>, hasSynthetic: bool) returns (r: Launch.ApplyResult)
    requires |events| == 6 && (forall k | 0 <= k < 6 :: events[k].name == AssetNames[k]) && events[3].status.Some?
    ensures r.assets == AssetNames
    ensures r.candidate == events[5].finalCandidate && r.exportUri == events[5].finalExport
    ensures r.modelImpactUri == events[4].uri
    ensures r.syntheticStatus == events[3].status.value
    ensures r.syntheticUri == if events[3].status.value == "materialized" then events[3].uri else None
  {
    r := Launch.AssembleApply(events, hasSynthetic);
    forall i, j | 0 <= i < 6 && 0 <= j < 6 && i != j ensures events[i].name != events[j].name {
      AssetNamesDiffer(i, j);
    }
    Launch.LastOfOnly(events, 5, (e: Launch.AssetEvent) => e.finalCandidate);
    Launch.LastOfOnly(events, 5, (e: Launch.AssetEvent) => e.finalExport);
    Launch.LastOfOnly(events, 4, (e: Launch.AssetEvent) => e.uri);
    Launch.SyntheticUriOnlyIfMaterialised(events, if hasSynthetic then "pending" else "not_applicable", 3);
  }

  function Attached(name: string, artifact: Option<Ref>, status: string): Launch.AssetEvent {
    match artifact
    case None => Launch.AssetEvent(name, None, None, Some(status), None, None)
    case Some(a) => Launch.AssetEvent(name, Some(a.uri), Some(a.hash), Some(status), None, None)
  }

  const AssetNames := ["action_plan", "remediation_execution_report", "prepared_dataset", "synthetic_dataset",
                       "model_impact_report", "export_package"]

  lemma AssetNamesDiffer(i: nat, j: nat)
    requires i < 6 && j < 6 && i != j
    ensures AssetNames[i] != AssetNames[j]
  {
    assert |AssetNames[0]| == 11 && |AssetNames[1]| == 28 && |AssetNames[2]| == 16;
    assert |AssetNames[3]| == 17 && |AssetNames[4]| == 19 && |AssetNames[5]| == 14;
  }
}
