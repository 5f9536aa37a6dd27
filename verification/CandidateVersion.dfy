/** What validation says of a candidate and what becomes of the candidate version
    (app/plugins/validation/gates.py, summary only; app/kernel/candidate_version.py). */
module CandidateVersion {
  import opened Basics

  /** Machine-readable codes are never empty (`NonEmptyStr`). */
  type Code = s: string | s != "" witness "x"

  datatype CheckStatus = CheckPassed | CheckFailed | CheckNotApplicable

  datatype BlockAction = NoBlock | BlockExport | BlockModelEvaluation | BlockTraining

  /** One executed validation gate. */
  datatype Check = Check(kind: Code, status: CheckStatus, blocker: bool, reasonCode: Code, action: BlockAction)
  {
    predicate Blocks() {
      blocker && status.CheckFailed?
    }
  }

  datatype CandidateStatus = Valid | ValidationFailed | ReviewRequired

  datatype GatesReport = GatesReport(
    status: CandidateStatus, rawUnchanged: bool, blockExport: bool, blockModelEvaluation: bool, blockTraining: bool,
    blockerPresent: bool, blockerKinds: seq<Code>, checks: seq<Check>)

  function Blocking(checks: seq<Check>): seq<Check> {
    if checks == [] then []
    else Blocking(checks[..|checks| - 1]) + (if checks[|checks| - 1].Blocks() then [checks[|checks| - 1]] else [])
  }

  function Kinds(checks: seq<Check>): seq<Code> {
    seq(|checks|, i requires 0 <= i < |checks| => checks[i].kind)
  }

  function ReasonCodes(checks: seq<Check>): seq<Code> {
    seq(|checks|, i requires 0 <= i < |checks| => checks[i].reasonCode)
  }

  /** How the gate runner sums up its checks. */
  function Summarise(checks: seq<Check>, rawUnchanged: bool): GatesReport {
    var blocking := Blocking(checks);
    var failed := exists c | c in checks :: c.status.CheckFailed?;
    var status :=
      if !rawUnchanged then ValidationFailed
      else if !failed && blocking == [] then Valid
      else if blocking != [] then ValidationFailed
      else ReviewRequired;
    GatesReport(
      status, rawUnchanged, (exists c | c in blocking :: c.action.BlockExport?) || status.ValidationFailed?,
      exists c | c in blocking :: c.action.BlockModelEvaluation?, exists c | c in blocking :: c.action.BlockTraining?,
      blocking != [], Kinds(blocking), checks)
  }

  lemma {:induction false} BlockingHolds(checks: seq<Check>)
    ensures forall c :: c in Blocking(checks) <==> c in checks && c.Blocks()
  {
    if checks != [] {
      BlockingHolds(checks[..|checks| - 1]);
      assert checks == checks[..|checks| - 1] + [checks[|checks| - 1]];
    }
  }

  /** In a report that the gate runner made, the three ways of saying "no" agree: export is blocked
      exactly when validation failed, exactly when a blocking check failed or the raw artifact
      changed; the status is REVIEW_REQUIRED exactly when only checks that do not block failed. */
  lemma SummaryIsConsistent(checks: seq<Check>, rawUnchanged: bool)
    ensures var r := Summarise(checks, rawUnchanged);
            && (r.blockExport <==> r.status.ValidationFailed?)
            && (r.status.ValidationFailed? <==> r.blockerPresent || !r.rawUnchanged)
            && (r.blockerPresent <==> exists c :: c in checks && c.Blocks())
            && (r.status.ReviewRequired? <==>
                  rawUnchanged && (exists c :: c in checks && c.status.CheckFailed?) && forall c | c in checks :: !c.Blocks())
  {
    BlockingHolds(checks);
    if Blocking(checks) != [] {
      assert Blocking(checks)[0] in checks;
    }
  }

  /** A blocking check stops what its action says: one that blocks training stops training, one that
      blocks evaluation stops evaluation, and so for export, which a failed validation stops as well.
      The kinds listed are those of the blocking checks. */
  lemma SummaryBlocksIff(checks: seq<Check>, rawUnchanged: bool)
    ensures var r := Summarise(checks, rawUnchanged);
            && (r.blockTraining <==> exists c :: c in checks && c.blocker && c.status.CheckFailed? && c.action.BlockTraining?)
            && (r.blockModelEvaluation <==>
                  exists c :: c in checks && c.blocker && c.status.CheckFailed? && c.action.BlockModelEvaluation?)
            && (r.blockExport <==> !rawUnchanged || exists c :: c in checks && c.blocker && c.status.CheckFailed?)
            && (forall k :: k in r.blockerKinds <==> exists c :: c in checks && c.blocker && c.status.CheckFailed? && c.kind == k)
            && r.checks == checks && r.rawUnchanged == rawUnchanged
            && (r.status.Valid? <==> rawUnchanged && forall c | c in checks :: !c.status.CheckFailed?)
  {
    BlockingHolds(checks);
    var blocking := Blocking(checks);
    if blocking != [] {
      assert blocking[0] in checks;
    }
    forall k | exists c :: c in checks && c.blocker && c.status.CheckFailed? && c.kind == k ensures k in Kinds(blocking) {
      var c :| c in checks && c.blocker && c.status.CheckFailed? && c.kind == k;
      assert c.Blocks() && c in blocking;
      var i :| 0 <= i < |blocking| && blocking[i] == c;
      assert Kinds(blocking)[i] == k;
    }
    forall k | k in Kinds(blocking) ensures exists c :: c in checks && c.blocker && c.status.CheckFailed? && c.kind == k {
      var i :| 0 <= i < |blocking| && Kinds(blocking)[i] == k;
      assert blocking[i] in blocking;
    }
  }

  // ---------------------------------------------------------------------------------------------
  // The candidate version
  // ---------------------------------------------------------------------------------------------

  datatype VersionStatus = Proposed | NeedsReview | VersionBlocked | VersionFailed

  datatype Candidate = Candidate(
    status: VersionStatus, blockExport: bool, blockModelEvaluation: bool, blockTraining: bool,
    blockerReasonCodes: seq<Code>, summaryRawUnchanged: Option<bool>)

  function ResolveStatus(report: Option<GatesReport>): VersionStatus {
    if report.None? then VersionFailed
    else if report.value.status.ValidationFailed? then VersionBlocked
    else if report.value.status.ReviewRequired? then NeedsReview
    else Proposed
  }

  function BuildCandidate(report: Option<GatesReport>): Candidate {
    match report
    case None => Candidate(VersionFailed, true, true, true, [], None)
    case Some(r) =>
      Candidate(ResolveStatus(report), r.blockExport, r.blockModelEvaluation, r.blockTraining,
                ReasonCodes(Blocking(r.checks)), Some(r.rawUnchanged))
  }

  /** `final_candidate_ref`: a candidate that may be shown to the caller. */
  predicate Showable(c: Candidate) {
    !c.status.VersionBlocked? && !c.status.VersionFailed?
  }

  /** A candidate is shown exactly when a report exists and does not fail it; for reports of the gate
      runner that means exactly when its export is not blocked. */
  lemma ShowableIff(checks: seq<Check>, rawUnchanged: bool)
    ensures Showable(BuildCandidate(Some(Summarise(checks, rawUnchanged)))) <==>
              rawUnchanged && forall c | c in checks :: !c.Blocks()
    ensures Showable(BuildCandidate(Some(Summarise(checks, rawUnchanged)))) <==>
              !BuildCandidate(Some(Summarise(checks, rawUnchanged))).blockExport
  {
    SummaryIsConsistent(checks, rawUnchanged);
  }

  /** What a candidate version says about its validation: blocked exactly on a failed report, in need
      of review exactly on a report to review; the blocks of the report, and the reason codes of the
      failed blockers.  Without a report it has failed, and everything is blocked. */
  lemma CandidateCarries(r: GatesReport)
    ensures var c := BuildCandidate(Some(r));
            && (c.status.VersionBlocked? <==> r.status.ValidationFailed?)
            && (c.status.NeedsReview? <==> r.status.ReviewRequired?)
            && (c.status.Proposed? <==> r.status.Valid?)
            && c.blockExport == r.blockExport && c.blockModelEvaluation == r.blockModelEvaluation
            && c.blockTraining == r.blockTraining && c.summaryRawUnchanged == Some(r.rawUnchanged)
            && forall code :: code in c.blockerReasonCodes <==>
                 exists k :: k in r.checks && k.blocker && k.status.CheckFailed? && k.reasonCode == code
    ensures var c := BuildCandidate(None);
            c.status.VersionFailed? && c.blockExport && c.blockModelEvaluation && c.blockTraining && c.blockerReasonCodes == []
  {
    BlockingHolds(r.checks);
    var blocking := Blocking(r.checks);
    var codes := BuildCandidate(Some(r)).blockerReasonCodes;
    assert codes == ReasonCodes(blocking);
    forall code | exists k :: k in r.checks && k.blocker && k.status.CheckFailed? && k.reasonCode == code ensures code in codes {
      var k :| k in r.checks && k.blocker && k.status.CheckFailed? && k.reasonCode == code;
      assert k.Blocks() && k in blocking;
      var i :| 0 <= i < |blocking| && blocking[i] == k;
      assert codes[i] == code;
    }
    forall code | code in codes ensures exists k :: k in r.checks && k.blocker && k.status.CheckFailed? && k.reasonCode == code {
      var i :| 0 <= i < |blocking| && codes[i] == code;
      assert blocking[i] in blocking;
    }
  }
}
