/** The seven export gates and the package they decide (app/kernel/export_package.py). */
module ExportPackage {
  import opened Basics
  import opened CandidateVersion

  datatype GateStatus = Passed | Failed | NotApplicable

  datatype Gate = Gate(name: string, status: GateStatus, reasons: seq<Code>)

  datatype Verdict = Improved | RequiresReview | Degraded | Rejected {
    function Text(): Code {
      match this
      case Improved => "improved"
      case RequiresReview => "requires_review"
      case Degraded => "degraded"
      case Rejected => "rejected"
    }
  }

  datatype Artifact = Artifact(uri: string, kind: string, hash: string)

  datatype TextReport = TextReport(pii: nat, redacted: nat)

  datatype Request = Request(
    candidate: Candidate, gatesReport: Option<GatesReport>, impact: Option<Verdict>, text: Option<TextReport>,
    manifest: Artifact, tabular: seq<Artifact>, texts: seq<Artifact>, card: Option<Artifact>, lineage: Option<Artifact>,
    dataforge: Option<Artifact>, review: Option<Artifact>, extra: seq<Artifact>,
    included: nat, blocked: nat, excluded: nat, requireImpact: bool, requireCard: bool, requireLineage: bool)

  datatype PackageStatus = Ready | PackageBlocked

  datatype Package = Package(
    status: PackageStatus, artifacts: seq<Artifact>, gates: seq<Gate>, included: nat, blocked: nat, excluded: nat,
    blockedCodes: seq<string>)

  function RawUnchanged(req: Request): Option<bool> {
    if req.gatesReport.Some? then Some(req.gatesReport.value.rawUnchanged) else req.candidate.summaryRawUnchanged
  }

  // ---------------------------------------------------------------------------------------------
  // When each gate fails, in the words of the policy
  // ---------------------------------------------------------------------------------------------

  predicate LeavesPiiUnmasked(req: Request) {
    req.text.Some? && req.text.value.pii > req.text.value.redacted
  }

  predicate ImpactStops(req: Request) {
    if req.impact.None? then req.requireImpact else req.impact.value.Degraded? || req.impact.value.Rejected?
  }

  predicate MissesArtifact(req: Request) {
    (req.requireCard && req.card.None?) || (req.requireLineage && req.lineage.None?)
  }

  /** Which of the seven gates stop the export. */
  predicate Stops(req: Request, gate: nat)
    requires gate < 7
  {
    match gate
    case 0 => req.candidate.blockExport
    case 1 => RawUnchanged(req) == Some(false)
    case 2 => req.gatesReport.Some? && req.gatesReport.value.blockerPresent
    case 3 => LeavesPiiUnmasked(req)
    case 4 => req.blocked > 0
    case 5 => ImpactStops(req)
    case _ => MissesArtifact(req)
  }

  /** The codes of the failed gates, in gate order. */
  function FailedCodes(gates: seq<Gate>): seq<string> {
    if gates == [] then []
    else
      var last := gates[|gates| - 1];
      FailedCodes(gates[..|gates| - 1]) + (if last.status.Failed? then last.reasons else [])
  }

  /** No failed gate is silent. */
  ghost predicate Explained(gates: seq<Gate>) {
    forall i | 0 <= i < |gates| :: gates[i].status.Failed? ==> gates[i].reasons != []
  }

  lemma FailedCodesSnoc(gates: seq<Gate>, g: Gate)
    ensures FailedCodes(gates + [g]) == FailedCodes(gates) + (if g.status.Failed? then g.reasons else [])
  {
    assert (gates + [g])[..|gates|] == gates;
  }

  lemma {:induction false} FailedCodesEmptyIff(gates: seq<Gate>)
    requires Explained(gates)
    ensures FailedCodes(gates) == [] <==> forall i | 0 <= i < |gates| :: !gates[i].status.Failed?
    ensures forall i | 0 <= i < |FailedCodes(gates)| :: FailedCodes(gates)[i] != ""
  {
    if gates != [] {
      FailedCodesEmptyIff(gates[..|gates| - 1]);
    }
  }

  // ---------------------------------------------------------------------------------------------
  // The gates
  // ---------------------------------------------------------------------------------------------

  function CandidateGate(req: Request): (g: Gate)
    ensures g.status.Failed? <==> Stops(req, 0)
    ensures g.status.Failed? ==> g.reasons != []
  {
    if !req.candidate.blockExport then Gate("candidate_validation_passed", Passed, [])
    else
      Gate("candidate_validation_passed", Failed,
           if req.candidate.blockerReasonCodes != [] then req.candidate.blockerReasonCodes else ["candidate_block_export_flag"])
  }

  function RawGate(req: Request): (g: Gate)
    ensures g.status.Failed? <==> Stops(req, 1)
    ensures g.status.Failed? ==> g.reasons != []
  {
    match RawUnchanged(req)
    case Some(false) => Gate("raw_artifact_immutability", Failed, ["raw_artifact_changed"])
    case Some(true) => Gate("raw_artifact_immutability", Passed, [])
    case None => Gate("raw_artifact_immutability", NotApplicable, ["raw_artifact_unchanged_unknown"])
  }

  function ValidationGate(req: Request): (g: Gate)
    ensures g.status.Failed? <==> Stops(req, 2)
    ensures g.status.Failed? ==> g.reasons != []
  {
    if req.gatesReport.None? then
      Gate("validation_gates_blocker_check", NotApplicable, ["validation_gates_report_not_provided"])
    else if req.gatesReport.value.blockerPresent then
      Gate("validation_gates_blocker_check", Failed,
           if req.gatesReport.value.blockerKinds != [] then req.gatesReport.value.blockerKinds
           else ["validation_gates_blocker_present"])
    else Gate("validation_gates_blocker_check", Passed, [])
  }

  function PrivacyGate(req: Request): (g: Gate)
    ensures g.status.Failed? <==> Stops(req, 3)
    ensures g.status.Failed? ==> g.reasons != []
  {
    if req.text.None? then Gate("privacy_check", NotApplicable, ["text_ocr_report_not_provided"])
    else if LeavesPiiUnmasked(req) then Gate("privacy_check", Failed, ["pii_unmasked"])
    else Gate("privacy_check", Passed, [])
  }

  function ModelImpactGate(req: Request): (g: Gate)
    ensures g.status.Failed? <==> Stops(req, 5)
    ensures g.status.Failed? ==> g.reasons != []
  {
    match req.impact
    case None =>
      if req.requireImpact then Gate("model_impact_eligibility", Failed, ["model_impact_report_required"])
      else Gate("model_impact_eligibility", NotApplicable, ["model_impact_report_not_provided"])
    case Some(Rejected) => Gate("model_impact_eligibility", Failed, ["model_impact_rejected"])
    case Some(Degraded) => Gate("model_impact_eligibility", Failed, ["model_impact_degraded"])
    case Some(v) => Gate("model_impact_eligibility", Passed, [v.Text()])
  }

  function MissingArtifacts(req: Request): seq<Code> {
    (if req.requireCard && req.card.None? then ["dataset_card_artifact_missing"] else [])
    + (if req.requireLineage && req.lineage.None? then ["lineage_artifact_missing"] else [])
  }

  function ArtifactsGate(req: Request): (g: Gate)
    ensures g.status.Failed? <==> Stops(req, 6)
    ensures g.status.Failed? ==> g.reasons != []
  {
    if MissesArtifact(req) then Gate("required_artifacts_present", Failed, MissingArtifacts(req))
    else Gate("required_artifacts_present", Passed, [])
  }

  function CountGate(req: Request): (g: Gate)
    ensures g.status.Failed? <==> Stops(req, 4)
    ensures g.status.Failed? ==> g.reasons != []
  {
    if req.blocked > 0 then Gate("blocked_objects_excluded", Failed, ["blocked_objects_present"])
    else Gate("blocked_objects_excluded", Passed, [])
  }

  function Gates(req: Request): seq<Gate> {
    [CandidateGate(req), RawGate(req), ValidationGate(req), PrivacyGate(req), CountGate(req), ModelImpactGate(req),
     ArtifactsGate(req)]
  }

  /** Each gate fails exactly when its condition stops the export, and then says why. */
  lemma GatesFailIff(req: Request)
    ensures |Gates(req)| == 7 && Explained(Gates(req))
    ensures forall k | 0 <= k < 7 :: Gates(req)[k].status.Failed? <==> Stops(req, k)
  {
  }

  /** What a code stands for: the cause for which gate k puts it on the list of blocked reasons. */
  ghost predicate CausesAt(req: Request, k: nat, code: string) {
    match k
    case 0 =>
      && req.candidate.blockExport
      && (if req.candidate.blockerReasonCodes == [] then code == "candidate_block_export_flag" else code in req.candidate.blockerReasonCodes)
    case 1 =>
      && (if req.gatesReport.Some? then !req.gatesReport.value.rawUnchanged else req.candidate.summaryRawUnchanged == Some(false))
      && code == "raw_artifact_changed"
    case 2 =>
      && req.gatesReport.Some? && req.gatesReport.value.blockerPresent
      && (if req.gatesReport.value.blockerKinds == [] then code == "validation_gates_blocker_present"
          else code in req.gatesReport.value.blockerKinds)
    case 3 => req.text.Some? && req.text.value.pii > req.text.value.redacted && code == "pii_unmasked"
    case 4 => req.blocked > 0 && code == "blocked_objects_present"
    case 5 =>
      || (req.impact == None && req.requireImpact && code == "model_impact_report_required")
      || (req.impact == Some(Rejected) && code == "model_impact_rejected")
      || (req.impact == Some(Degraded) && code == "model_impact_degraded")
    case _ =>
      && k == 6
      && ((req.requireCard && req.card == None && code == "dataset_card_artifact_missing")
          || (req.requireLineage && req.lineage == None && code == "lineage_artifact_missing"))
  }

  ghost predicate Causes(req: Request, code: string) {
    exists k :: CausesAt(req, k, code)
  }

  lemma {:induction false} FailedCodesIff(gates: seq<Gate>, code: string)
    ensures code in FailedCodes(gates) <==> exists k | 0 <= k < |gates| :: gates[k].status.Failed? && code in gates[k].reasons
  {
    if gates != [] {
      var front := gates[..|gates| - 1];
      FailedCodesIff(front, code);
      assert forall k | 0 <= k < |front| :: front[k] == gates[k];
    }
  }

  lemma GateCodesAre(req: Request, k: nat, code: string)
    requires k < 7
    ensures Gates(req)[k].status.Failed? && code in Gates(req)[k].reasons <==> CausesAt(req, k, code)
  {
    match k
    case 0 => assert Gates(req)[0] == CandidateGate(req);
    case 1 => assert Gates(req)[1] == RawGate(req);
    case 2 => assert Gates(req)[2] == ValidationGate(req);
    case 3 => assert Gates(req)[3] == PrivacyGate(req);
    case 4 => assert Gates(req)[4] == CountGate(req);
    case 5 => ImpactCodes(req, code);
    case _ => ArtifactCodes(req, code);
  }

  lemma ImpactCodes(req: Request, code: string)
    ensures ModelImpactGate(req).status.Failed? && code in ModelImpactGate(req).reasons <==> CausesAt(req, 5, code)
  {
  }

  lemma ArtifactCodes(req: Request, code: string)
    ensures ArtifactsGate(req).status.Failed? && code in ArtifactsGate(req).reasons <==> CausesAt(req, 6, code)
  {
  }

  /** The codes of the failed gates are exactly those that have a cause. */
  lemma FailedCodesAre(req: Request, code: string)
    ensures code in FailedCodes(Gates(req)) <==> Causes(req, code)
  {
    FailedCodesIff(Gates(req), code);
    forall k | 0 <= k < 7 ensures Gates(req)[k].status.Failed? && code in Gates(req)[k].reasons <==> CausesAt(req, k, code) {
      GateCodesAre(req, k, code);
    }
  }

  /** The seven gates in order, by name. */
  lemma GateNames(req: Request)
    ensures forall k | 0 <= k < 7 ::
              Gates(req)[k].name ==
              ["candidate_validation_passed", "raw_artifact_immutability", "validation_gates_blocker_check", "privacy_check",
               "blocked_objects_excluded", "model_impact_eligibility", "required_artifacts_present"][k]
  {
  }

  /** What a gate says if it passes or does not apply. */
  lemma GatesSay(req: Request)
    ensures RawGate(req).status.NotApplicable? <==> req.gatesReport == None && req.candidate.summaryRawUnchanged == None
    ensures RawGate(req).status.NotApplicable? ==> RawGate(req).reasons == ["raw_artifact_unchanged_unknown"]
    ensures ValidationGate(req).status.NotApplicable? <==> req.gatesReport == None
    ensures ValidationGate(req).status.NotApplicable? ==> ValidationGate(req).reasons == ["validation_gates_report_not_provided"]
    ensures PrivacyGate(req).status.NotApplicable? <==> req.text == None
    ensures PrivacyGate(req).status.NotApplicable? ==> PrivacyGate(req).reasons == ["text_ocr_report_not_provided"]
    ensures !CandidateGate(req).status.NotApplicable? && !CountGate(req).status.NotApplicable? && !ArtifactsGate(req).status.NotApplicable?
    ensures forall g | g in [CandidateGate(req), RawGate(req), ValidationGate(req), PrivacyGate(req), CountGate(req), ArtifactsGate(req)]
              && g.status.Passed? :: g.reasons == []
  {
  }

  lemma ImpactGateSays(req: Request)
    ensures ModelImpactGate(req).status.NotApplicable? <==> req.impact == None && !req.requireImpact
    ensures ModelImpactGate(req).status.NotApplicable? ==> ModelImpactGate(req).reasons == ["model_impact_report_not_provided"]
    ensures req.impact == Some(Improved) ==> ModelImpactGate(req).status.Passed? && ModelImpactGate(req).reasons == ["improved"]
    ensures req.impact == Some(RequiresReview) ==> ModelImpactGate(req).status.Passed? && ModelImpactGate(req).reasons == ["requires_review"]
  {
  }

  // ---------------------------------------------------------------------------------------------
  // The evaluation: seven sections, each of which grows two lists by its own statements
  // ---------------------------------------------------------------------------------------------

  /** The two lists agree: the codes pushed so far are those of the failed gates. */
  ghost predicate InStep(gates: seq<Gate>, blockers: seq<string>) {
    blockers == FailedCodes(gates)
  }

  method CandidateSection(req: Request, gates: seq<Gate>, blockers: seq<string>) returns (gates': seq<Gate>, blockers': seq<string>)
    requires InStep(gates, blockers)
    ensures gates' == gates + [CandidateGate(req)] && InStep(gates', blockers')
  {
    gates', blockers' := gates, blockers;
    if req.candidate.blockExport {
      var reasons := req.candidate.blockerReasonCodes;
      if reasons == [] {
        reasons := ["candidate_block_export_flag"];
      }
      blockers' := blockers' + reasons;
      gates' := gates' + [Gate("candidate_validation_passed", Failed, reasons)];
    } else {
      gates' := gates' + [Gate("candidate_validation_passed", Passed, [])];
    }
    FailedCodesSnoc(gates, gates'[|gates|]);
  }

  method RawSection(req: Request, gates: seq<Gate>, blockers: seq<string>) returns (gates': seq<Gate>, blockers': seq<string>)
    requires InStep(gates, blockers)
    ensures gates' == gates + [RawGate(req)] && InStep(gates', blockers')
  {
    gates', blockers' := gates, blockers;
    match RawUnchanged(req) {
      case Some(false) =>
        blockers' := blockers' + ["raw_artifact_changed"];
        gates' := gates' + [Gate("raw_artifact_immutability", Failed, ["raw_artifact_changed"])];
      case Some(true) =>
        gates' := gates' + [Gate("raw_artifact_immutability", Passed, [])];
      case None =>
        gates' := gates' + [Gate("raw_artifact_immutability", NotApplicable, ["raw_artifact_unchanged_unknown"])];
    }
    FailedCodesSnoc(gates, gates'[|gates|]);
  }

  method ValidationSection(req: Request, gates: seq<Gate>, blockers: seq<string>) returns (gates': seq<Gate>, blockers': seq<string>)
    requires InStep(gates, blockers)
    ensures gates' == gates + [ValidationGate(req)] && InStep(gates', blockers')
  {
    gates', blockers' := gates, blockers;
    if req.gatesReport.None? {
      gates' := gates' + [Gate("validation_gates_blocker_check", NotApplicable, ["validation_gates_report_not_provided"])];
    } else if req.gatesReport.value.blockerPresent {
      var reasons := req.gatesReport.value.blockerKinds;
      if reasons == [] {
        reasons := ["validation_gates_blocker_present"];
      }
      blockers' := blockers' + reasons;
      gates' := gates' + [Gate("validation_gates_blocker_check", Failed, reasons)];
    } else {
      gates' := gates' + [Gate("validation_gates_blocker_check", Passed, [])];
    }
    FailedCodesSnoc(gates, gates'[|gates|]);
  }

  /** The one section whose codes are read off the gate. */
  method PrivacySection(req: Request, gates: seq<Gate>, blockers: seq<string>) returns (gates': seq<Gate>, blockers': seq<string>)
    requires InStep(gates, blockers)
    ensures gates' == gates + [PrivacyGate(req)] && InStep(gates', blockers')
  {
    var gate := PrivacyGate(req);
    gates', blockers' := gates + [gate], blockers;
    if gate.status.Failed? {
      blockers' := blockers' + gate.reasons;
    }
    FailedCodesSnoc(gates, gate);
  }

  method CountSection(req: Request, gates: seq<Gate>, blockers: seq<string>) returns (gates': seq<Gate>, blockers': seq<string>)
    requires InStep(gates, blockers)
    ensures gates' == gates + [CountGate(req)] && InStep(gates', blockers')
  {
    gates', blockers' := gates, blockers;
    if req.blocked > 0 {
      blockers' := blockers' + ["blocked_objects_present"];
      gates' := gates' + [Gate("blocked_objects_excluded", Failed, ["blocked_objects_present"])];
    } else {
      gates' := gates' + [Gate("blocked_objects_excluded", Passed, [])];
    }
    FailedCodesSnoc(gates, gates'[|gates|]);
  }

  /** `_model_impact_gate`: returns its gate and pushes its code onto the list it was passed. */
  method PushModelImpact(req: Request, blockers: seq<string>) returns (gate: Gate, blockers': seq<string>)
    ensures gate == ModelImpactGate(req)
    ensures blockers' == blockers + (if gate.status.Failed? then gate.reasons else [])
  {
    blockers' := blockers;
    if req.impact.None? {
      if req.requireImpact {
        blockers' := blockers' + ["model_impact_report_required"];
        return Gate("model_impact_eligibility", Failed, ["model_impact_report_required"]), blockers';
      }
      return Gate("model_impact_eligibility", NotApplicable, ["model_impact_report_not_provided"]), blockers';
    }
    if req.impact.value.Rejected? {
      blockers' := blockers' + ["model_impact_rejected"];
      return Gate("model_impact_eligibility", Failed, ["model_impact_rejected"]), blockers';
    }
    if req.impact.value.Degraded? {
      blockers' := blockers' + ["model_impact_degraded"];
      return Gate("model_impact_eligibility", Failed, ["model_impact_degraded"]), blockers';
    }
    return Gate("model_impact_eligibility", Passed, [req.impact.value.Text()]), blockers';
  }

  method ModelImpactSection(req: Request, gates: seq<Gate>, blockers: seq<string>) returns (gates': seq<Gate>, blockers': seq<string>)
    requires InStep(gates, blockers)
    ensures gates' == gates + [ModelImpactGate(req)] && InStep(gates', blockers')
  {
    var gate;
    gate, blockers' := PushModelImpact(req, blockers);
    gates' := gates + [gate];
    FailedCodesSnoc(gates, gate);
  }

  /** Missing artifacts are pushed one by one. */
  method ArtifactsSection(req: Request, gates: seq<Gate>, blockers: seq<string>) returns (gates': seq<Gate>, blockers': seq<string>)
    requires InStep(gates, blockers)
    ensures gates' == gates + [ArtifactsGate(req)] && InStep(gates', blockers')
  {
    gates', blockers' := gates, blockers;
    var missing := MissingArtifacts(req);
    if missing != [] {
      for i := 0 to |missing|
        invariant blockers' == blockers + missing[..i]
      {
        blockers' := blockers' + [missing[i]];
      }
      gates' := gates' + [Gate("required_artifacts_present", Failed, missing)];
    } else {
      gates' := gates' + [Gate("required_artifacts_present", Passed, [])];
    }
    FailedCodesSnoc(gates, gates'[|gates|]);
  }

  method RunSections(req: Request) returns (gates: seq<Gate>, blockers: seq<string>)
    ensures gates == Gates(req) && InStep(gates, blockers)
  {
    gates, blockers := CandidateSection(req, [], []);
    gates, blockers := RawSection(req, gates, blockers);
    gates, blockers := ValidationSection(req, gates, blockers);
    gates, blockers := PrivacySection(req, gates, blockers);
    gates, blockers := CountSection(req, gates, blockers);
    gates, blockers := ModelImpactSection(req, gates, blockers);
    gates, blockers := ArtifactsSection(req, gates, blockers);
  }

  /** Seven gates, each failing exactly when it should; the codes that the sections pushed are the
      failed gates' own codes, and come out each once, in the order first given. */
  method EvaluateExportGates(req: Request) returns (gates: seq<Gate>, codes: seq<string>)
    ensures gates == Gates(req)
    ensures codes == OrderedUnique(FailedCodes(gates))
  {
    var blockers;
    gates, blockers := RunSections(req);
    codes := DropEmptyAndRepeated(blockers);
    GatesFailIff(req);
    FailedCodesEmptyIff(gates);
    NonEmptyOfNonEmpty(blockers);
  }

  /** `_ordered_unique`: skips the empty string as well as repetitions. */
  method DropEmptyAndRepeated(values: seq<string>) returns (result: seq<string>)
    ensures result == OrderedUnique(NonEmpty(values))
  {
    var seen: set<string> := {};
    result := [];
    for i := 0 to |values|
      invariant result == OrderedUnique(NonEmpty(values[..i]))
      invariant forall x :: x in seen <==> x in NonEmpty(values[..i])
    {
      assert values[..i + 1][..i] == values[..i];
      if values[i] == "" || values[i] in seen {
        if values[i] != "" {
          OrderedUniqueAppend(NonEmpty(values[..i]), values[i]);
        } else {
          assert NonEmpty(values[..i]) + [] == NonEmpty(values[..i]);
        }
        continue;
      }
      OrderedUniqueAppend(NonEmpty(values[..i]), values[i]);
      seen := seen + {values[i]};
      result := result + [values[i]];
    }
    assert values[..|values|] == values;
  }

  // ---------------------------------------------------------------------------------------------
  // Artifacts
  // ---------------------------------------------------------------------------------------------

  function Listed<T>(o: Option<T>): seq<T> {
    if o.Some? then [o.value] else []
  }

  function AllArtifacts(req: Request): seq<Artifact> {
    [req.manifest] + req.tabular + req.texts + Listed(req.card) + Listed(req.lineage) + Listed(req.dataforge)
    + Listed(req.review) + req.extra
  }

  function Uris(refs: seq<Artifact>): seq<string> {
    seq(|refs|, i requires 0 <= i < |refs| => refs[i].uri)
  }

  /** Every ref stands where its URI first occurs. */
  ghost predicate FirstOfTheirUri(refs: seq<Artifact>, all: seq<Artifact>) {
    forall i | 0 <= i < |refs| :: refs[i].uri in Uris(all) && refs[i] == all[FirstIndex(Uris(all), refs[i].uri)]
  }

  /** Of refs with one URI the first is kept. */
  function UniqueByUri(all: seq<Artifact>): seq<Artifact> {
    if all == [] then []
    else
      var front, last := all[..|all| - 1], all[|all| - 1];
      UniqueByUri(front) + (if last.uri in Uris(front) then [] else [last])
  }

  lemma {:induction false} UniqueByUriIs(all: seq<Artifact>)
    ensures Uris(UniqueByUri(all)) == OrderedUnique(Uris(all)) && FirstOfTheirUri(UniqueByUri(all), all)
  {
    if all != [] {
      var front, last := all[..|all| - 1], all[|all| - 1];
      var refs := UniqueByUri(front);
      assert all == front + [last];
      UniqueByUriIs(front);
      NextRef(refs, front, last);
      if last.uri in Uris(front) {
        assert UniqueByUri(all) == refs;
      } else {
        assert UniqueByUri(all) == refs + [last];
      }
    }
  }

  method KeepFirstOfEachUri(all: seq<Artifact>) returns (refs: seq<Artifact>)
    ensures refs == UniqueByUri(all)
  {
    var seen: set<string> := {};
    refs := [];
    for i := 0 to |all|
      invariant refs == UniqueByUri(all[..i])
      invariant forall u :: u in seen <==> u in Uris(all[..i])
    {
      var ref := all[i];
      assert all[..i + 1][..i] == all[..i];
      assert Uris(all[..i + 1]) == Uris(all[..i]) + [ref.uri];
      if ref.uri !in seen {
        seen := seen + {ref.uri};
        refs := refs + [ref];
      }
    }
    assert all[..|all|] == all;
  }

  method ResolveArtifacts(req: Request, blocked: bool) returns (refs: seq<Artifact>)
    ensures blocked ==> refs == [req.manifest]
    ensures !blocked ==> Uris(refs) == OrderedUnique(Uris(AllArtifacts(req))) && FirstOfTheirUri(refs, AllArtifacts(req))
  {
    if blocked {
      return [req.manifest];
    }
    refs := KeepFirstOfEachUri(AllArtifacts(req));
    UniqueByUriIs(AllArtifacts(req));
  }

  lemma UrisAppend(a: seq<Artifact>, b: seq<Artifact>)
    ensures Uris(a + b) == Uris(a) + Uris(b)
  {
  }

  ghost function UriOf(o: Option<Artifact>): seq<string> {
    if o.Some? then [o.value.uri] else []
  }

  /** The artifacts of a package in their order. */
  lemma AllArtifactsInOrder(req: Request)
    ensures Uris(AllArtifacts(req)) ==
            [req.manifest.uri] + Uris(req.tabular) + Uris(req.texts) + UriOf(req.card) + UriOf(req.lineage) + UriOf(req.dataforge)
            + UriOf(req.review) + Uris(req.extra)
  {
    var a := [req.manifest] + req.tabular + req.texts;
    UrisAppend([req.manifest], req.tabular);
    UrisAppend([req.manifest] + req.tabular, req.texts);
    UrisOfReports(a, req.card, req.lineage);
    var b := a + Listed(req.card) + Listed(req.lineage);
    UrisOfReports(b, req.dataforge, req.review);
    UrisAppend(b + Listed(req.dataforge) + Listed(req.review), req.extra);
  }

  lemma UrisOfReports(refs: seq<Artifact>, a: Option<Artifact>, b: Option<Artifact>)
    ensures Uris(refs + Listed(a) + Listed(b)) == Uris(refs) + UriOf(a) + UriOf(b)
  {
    UrisAppend(refs, Listed(a));
    UrisAppend(refs + Listed(a), Listed(b));
    UrisListed(a);
    UrisListed(b);
  }

  lemma UrisListed(o: Option<Artifact>)
    ensures Uris(Listed(o)) == UriOf(o)
  {
  }

  lemma NextRef(refs: seq<Artifact>, front: seq<Artifact>, ref: Artifact)
    requires Uris(refs) == OrderedUnique(Uris(front)) && FirstOfTheirUri(refs, front)
    ensures ref.uri in Uris(front) ==>
              Uris(refs) == OrderedUnique(Uris(front + [ref])) && FirstOfTheirUri(refs, front + [ref])
    ensures ref.uri !in Uris(front) ==>
              Uris(refs + [ref]) == OrderedUnique(Uris(front + [ref])) && FirstOfTheirUri(refs + [ref], front + [ref])
  {
    assert Uris(front + [ref]) == Uris(front) + [ref.uri];
    assert Uris(refs + [ref]) == Uris(refs) + [ref.uri];
    OrderedUniqueAppend(Uris(front), ref.uri);
    KeepsFirst(refs, front, ref);
  }

  lemma KeepsFirst(refs: seq<Artifact>, front: seq<Artifact>, ref: Artifact)
    requires FirstOfTheirUri(refs, front)
    ensures FirstOfTheirUri(refs, front + [ref])
    ensures ref.uri !in Uris(front) ==> FirstOfTheirUri(refs + [ref], front + [ref])
  {
    assert Uris(front + [ref]) == Uris(front) + [ref.uri];
    forall i | 0 <= i < |refs| ensures refs[i] == (front + [ref])[FirstIndex(Uris(front + [ref]), refs[i].uri)] {
      FirstIndexOfPrefix(Uris(front), ref.uri, refs[i].uri);
    }
  }

  // ---------------------------------------------------------------------------------------------
  // The package
  // ---------------------------------------------------------------------------------------------

  /** No gate stops the export. */
  predicate Exportable(req: Request) {
    forall k | 0 <= k < 7 :: !Stops(req, k)
  }

  /** READY exactly when no gate stops the export, exactly when no code is listed.  A blocked package
      carries the manifest and nothing else, and counts no object as included. */
  method BuildExportPackage(req: Request) returns (p: Package)
    ensures p.status.Ready? <==> Exportable(req)
    ensures p.status.Ready? <==> p.blockedCodes == []
    ensures p.gates == Gates(req)
    ensures |p.gates| == 7 && forall k | 0 <= k < 7 :: p.gates[k].status.Failed? <==> Stops(req, k)
    ensures p.blockedCodes == OrderedUnique(FailedCodes(p.gates))
    ensures if p.status.Ready?
            then Uris(p.artifacts) == OrderedUnique(Uris(AllArtifacts(req))) && FirstOfTheirUri(p.artifacts, AllArtifacts(req))
            else p.artifacts == [req.manifest]
    ensures forall code :: code in p.blockedCodes <==> Causes(req, code)
    ensures p.status.Ready? ==>
              Uris(p.artifacts) ==
              OrderedUnique([req.manifest.uri] + Uris(req.tabular) + Uris(req.texts) + UriOf(req.card) + UriOf(req.lineage)
                            + UriOf(req.dataforge) + UriOf(req.review) + Uris(req.extra))
    ensures p.included == (if p.status.Ready? then req.included else 0) && p.blocked == req.blocked && p.excluded == req.excluded
  {
    var gates, codes := EvaluateExportGates(req);
    GatesFailIff(req);
    FailedCodesEmptyIff(gates);
    OrderedUniqueEmptyIff(FailedCodes(gates));
    forall code ensures code in codes <==> Causes(req, code) {
      FailedCodesAre(req, code);
    }
    AllArtifactsInOrder(req);
    var artifacts := ResolveArtifacts(req, codes != []);
    p := Package(if codes == [] then Ready else PackageBlocked, artifacts, gates,
                 if codes == [] then req.included else 0, req.blocked, req.excluded, codes);
  }
}
