/** The model-impact verdict and the synthetic-utility status (app/kernel/model_impact.py). */
module ModelImpact {
  import opened Basics
  import opened ExportPackage

  /** Candidate minus baseline; PR-AUC is not always available. */
  datatype Deltas = Deltas(recall: real, macroF1: real, weightedF1: real, prAuc: Option<real>)

  datatype Thresholds = Thresholds(recall: real, macroF1: real, weightedF1: real, prAuc: real)

  datatype Reason =
    | GatesBlockerPresent | MetricsDegraded | RecallDegraded | MacroF1Degraded | WeightedF1Degraded | PrAucDegraded
    | RecallImproved | MacroF1Improved | WeightedF1Improved | PrAucImproved | MetricsUnchanged | MixedMovement
    | TstrTrtsUnavailable | TstrDropAboveThreshold | TrtsUnstable | TstrWithinThreshold | MetricsInconclusive

  function DegradedReasons(d: Deltas, t: Thresholds): seq<Reason> {
    (if d.recall <= -t.recall then [RecallDegraded] else [])
    + (if d.macroF1 <= -t.macroF1 then [MacroF1Degraded] else [])
    + (if d.weightedF1 <= -t.weightedF1 then [WeightedF1Degraded] else [])
    + (if d.prAuc.Some? && d.prAuc.value <= -t.prAuc then [PrAucDegraded] else [])
  }

  predicate IsClose(x: real) {
    -0.000000001 <= x <= 0.000000001
  }

  function ClassifyVerdict(d: Deltas, t: Thresholds, blocker: bool): (Verdict, seq<Reason>) {
    if blocker then (Rejected, [GatesBlockerPresent])
    else if DegradedReasons(d, t) != [] then (Degraded, [MetricsDegraded] + DegradedReasons(d, t))
    else if d.recall > 0.0 && d.macroF1 >= 0.0 && d.weightedF1 >= 0.0 && (d.prAuc.None? || d.prAuc.value >= 0.0) then
      (Improved,
       [RecallImproved]
       + (if d.macroF1 > 0.0 then [MacroF1Improved] else [])
       + (if d.weightedF1 > 0.0 then [WeightedF1Improved] else [])
       + (if d.prAuc.Some? && d.prAuc.value > 0.0 then [PrAucImproved] else []))
    else if IsClose(d.recall) && IsClose(d.macroF1) && IsClose(d.weightedF1) && (d.prAuc.None? || IsClose(d.prAuc.value)) then
      (RequiresReview, [MetricsUnchanged])
    else (RequiresReview, [MixedMovement])
  }

  function Rank(v: Verdict): nat {
    match v
    case Rejected => 0
    case Degraded => 1
    case RequiresReview => 2
    case Improved => 3
  }

  /** No metric is lower, and PR-AUC is available for both or for neither. */
  predicate NotLower(d: Deltas, e: Deltas) {
    && d.recall <= e.recall && d.macroF1 <= e.macroF1 && d.weightedF1 <= e.weightedF1
    && d.prAuc.Some? == e.prAuc.Some? && (d.prAuc.Some? ==> d.prAuc.value <= e.prAuc.value)
  }

  /** Raising metrics never lowers the verdict. */
  lemma VerdictIsMonotone(d: Deltas, e: Deltas, t: Thresholds, blocker: bool)
    requires NotLower(d, e)
    ensures Rank(ClassifyVerdict(d, t, blocker).0) <= Rank(ClassifyVerdict(e, t, blocker).0)
  {
    assert DegradedReasons(d, t) == [] ==> DegradedReasons(e, t) == [];
  }

  lemma DegradedReasonsAre(d: Deltas, t: Thresholds)
    ensures RecallDegraded in DegradedReasons(d, t) <==> d.recall <= -t.recall
    ensures MacroF1Degraded in DegradedReasons(d, t) <==> d.macroF1 <= -t.macroF1
    ensures WeightedF1Degraded in DegradedReasons(d, t) <==> d.weightedF1 <= -t.weightedF1
    ensures PrAucDegraded in DegradedReasons(d, t) <==> d.prAuc.Some? && d.prAuc.value <= -t.prAuc
    ensures forall r | r in DegradedReasons(d, t) ::
              r == RecallDegraded || r == MacroF1Degraded || r == WeightedF1Degraded || r == PrAucDegraded
  {
  }

  /** Without a blocker the candidate is degraded exactly when some metric fell by its threshold or
      more, and each such metric, and no other, is named. */
  lemma DegradedIff(d: Deltas, t: Thresholds)
    ensures var (v, rs) := ClassifyVerdict(d, t, false);
            && (v.Degraded? <==>
                  || d.recall <= -t.recall || d.macroF1 <= -t.macroF1 || d.weightedF1 <= -t.weightedF1
                  || (d.prAuc.Some? && d.prAuc.value <= -t.prAuc))
            && (RecallDegraded in rs <==> d.recall <= -t.recall) && (MacroF1Degraded in rs <==> d.macroF1 <= -t.macroF1)
            && (WeightedF1Degraded in rs <==> d.weightedF1 <= -t.weightedF1)
            && (PrAucDegraded in rs <==> d.prAuc.Some? && d.prAuc.value <= -t.prAuc)
  {
    DegradedReasonsAre(d, t);
    if DegradedReasons(d, t) != [] {
      assert DegradedReasons(d, t)[0] in DegradedReasons(d, t);
    }
  }

  /** Improvement, over the metrics: recall rose, no other metric fell, and none fell by its threshold
      (which can only be if a threshold is not positive). */
  lemma ImprovedIff(d: Deltas, t: Thresholds, blocker: bool)
    ensures var v := ClassifyVerdict(d, t, blocker).0;
            && (v.Rejected? <==> blocker)
            && (v.Improved? <==>
                  && !blocker && d.recall > 0.0 && d.macroF1 >= 0.0 && d.weightedF1 >= 0.0 && (d.prAuc.Some? ==> d.prAuc.value >= 0.0)
                  && d.recall > -t.recall && d.macroF1 > -t.macroF1 && d.weightedF1 > -t.weightedF1
                  && (d.prAuc.Some? ==> d.prAuc.value > -t.prAuc))
  {
    DegradedIff(d, t);
  }

  /** What a verdict is explained by: the metrics that rose, the fall, or, in review, whether anything
      moved at all. */
  lemma VerdictReasonsAre(d: Deltas, t: Thresholds, blocker: bool)
    ensures var (v, rs) := ClassifyVerdict(d, t, blocker);
            && (v.Improved? ==>
                  && RecallImproved in rs && (MacroF1Improved in rs <==> d.macroF1 > 0.0)
                  && (WeightedF1Improved in rs <==> d.weightedF1 > 0.0) && (PrAucImproved in rs <==> d.prAuc.Some? && d.prAuc.value > 0.0))
            && (v.Rejected? ==> rs == [GatesBlockerPresent])
            && (v.Degraded? ==> rs[0] == MetricsDegraded)
            && (v.RequiresReview? ==>
                  rs == [if -0.000000001 <= d.recall <= 0.000000001 && -0.000000001 <= d.macroF1 <= 0.000000001
                            && -0.000000001 <= d.weightedF1 <= 0.000000001
                            && (d.prAuc.Some? ==> -0.000000001 <= d.prAuc.value <= 0.000000001)
                         then MetricsUnchanged else MixedMovement])
  {
  }

  // ---------------------------------------------------------------------------------------------
  // Synthetic utility
  // ---------------------------------------------------------------------------------------------

  /** Train on synthetic, test on real, and the other way round. */
  datatype TstrTrts = TstrTrts(
    available: bool, tstrDrop: Option<real>, tstrThreshold: Option<real>, trtsDelta: Option<real>, trtsThreshold: Option<real>)
  {
    predicate DropsTooFar() {
      tstrDrop.Some? && tstrThreshold.Some? && tstrDrop.value > tstrThreshold.value
    }

    predicate Unstable() {
      && trtsDelta.Some? && trtsThreshold.Some?
      && (trtsDelta.value > trtsThreshold.value || -trtsDelta.value > trtsThreshold.value)
    }
  }

  datatype Utility = UtilityNotApplicable | UtilityRejected | UtilityNeedsReview | Recommended

  function ClassifySynthetic(synthetic: bool, v: Verdict, d: Deltas, t: Thresholds, tt: TstrTrts, blocker: bool)
    : (Utility, seq<Reason>)
  {
    if !synthetic then (UtilityNotApplicable, [])
    else if blocker then (UtilityRejected, [GatesBlockerPresent])
    else
      var degraded :=
        (if v.Degraded? then [MetricsDegraded] else [])
        + (if d.weightedF1 <= -t.weightedF1 then [WeightedF1Degraded] else [])
        + (if d.prAuc.Some? && d.prAuc.value <= -t.prAuc then [PrAucDegraded] else []);
      if degraded != [] then (UtilityRejected, degraded)
      else if !tt.available then (UtilityNeedsReview, [TstrTrtsUnavailable])
      else if tt.DropsTooFar() then (UtilityRejected, [TstrDropAboveThreshold])
      else if tt.Unstable() then (UtilityNeedsReview, [TrtsUnstable])
      else if v.Improved? && d.recall > 0.0 && d.macroF1 >= 0.0 && d.weightedF1 >= 0.0 && (d.prAuc.None? || d.prAuc.value >= 0.0) then
        (Recommended, [TstrWithinThreshold, RecallImproved])
      else (UtilityNeedsReview, [MetricsInconclusive])
  }

  /** Both classifiers on one set of measurements, as the runner calls them. */
  function Status(synthetic: bool, d: Deltas, t: Thresholds, tt: TstrTrts, blocker: bool): Utility {
    ClassifySynthetic(synthetic, ClassifyVerdict(d, t, blocker).0, d, t, tt, blocker).0
  }

  /** A synthetic candidate is recommended exactly when the verdict is IMPROVED and both cross-checks
      were made and held; every further test of the metrics repeats the verdict. */
  lemma RecommendedIff(synthetic: bool, d: Deltas, t: Thresholds, tt: TstrTrts, blocker: bool)
    ensures Status(synthetic, d, t, tt, blocker).Recommended? <==>
              && synthetic && ClassifyVerdict(d, t, blocker).0.Improved?
              && tt.available && !tt.DropsTooFar() && !tt.Unstable()
    ensures Status(synthetic, d, t, tt, blocker).Recommended? ==> !blocker
  {
    if ClassifyVerdict(d, t, blocker).0.Improved? {
      assert DegradedReasons(d, t) == [];
      assert |DegradedReasons(d, t)| == 0;
    }
  }

  /** The status over the measurements.  Rejected: a blocker, a degraded verdict, or a drop in the
      first cross-check beyond its threshold if the cross-checks were made.  Everything else that is
      synthetic and not recommended needs review, for the first reason that there is. */
  lemma UtilityIs(synthetic: bool, d: Deltas, t: Thresholds, tt: TstrTrts, blocker: bool)
    ensures var v := ClassifyVerdict(d, t, blocker).0;
            var (u, rs) := ClassifySynthetic(synthetic, v, d, t, tt, blocker);
            var falls := tt.tstrDrop.Some? && tt.tstrThreshold.Some? && tt.tstrDrop.value > tt.tstrThreshold.value;
            var sways := tt.trtsDelta.Some? && tt.trtsThreshold.Some?
                         && !(-tt.trtsThreshold.value <= tt.trtsDelta.value <= tt.trtsThreshold.value);
            && (u.UtilityNotApplicable? <==> !synthetic) && (!synthetic ==> rs == [])
            && (u.UtilityRejected? <==> synthetic && (blocker || v.Degraded? || (tt.available && falls)))
            && (u.UtilityRejected? ==>
                  if blocker then rs == [GatesBlockerPresent]
                  else if v.Degraded? then
                    && rs[0] == MetricsDegraded && (WeightedF1Degraded in rs <==> d.weightedF1 <= -t.weightedF1)
                    && (PrAucDegraded in rs <==> d.prAuc.Some? && d.prAuc.value <= -t.prAuc)
                  else rs == [TstrDropAboveThreshold])
            && (u.Recommended? <==> synthetic && v.Improved? && tt.available && !falls && !sways)
            && (u.Recommended? ==> rs == [TstrWithinThreshold, RecallImproved])
            && (u.UtilityNeedsReview? ==>
                  rs == [if !tt.available then TstrTrtsUnavailable else if sways then TrtsUnstable else MetricsInconclusive])
  {
    DegradedIff(d, t);
    ImprovedIff(d, t, blocker);
  }

  function UtilityRank(u: Utility): nat {
    match u
    case UtilityNotApplicable => 0
    case UtilityRejected => 0
    case UtilityNeedsReview => 1
    case Recommended => 2
  }

  /** Raising metrics never lowers the status either. */
  lemma UtilityIsMonotone(synthetic: bool, d: Deltas, e: Deltas, t: Thresholds, tt: TstrTrts, blocker: bool)
    requires NotLower(d, e)
    ensures UtilityRank(Status(synthetic, d, t, tt, blocker)) <= UtilityRank(Status(synthetic, e, t, tt, blocker))
  {
    VerdictIsMonotone(d, e, t, blocker);
  }

  /** What the two classifiers say does not contradict the export gate: a recommended candidate passes
      it, and a candidate that fails it was rejected, if it is synthetic. */
  lemma RecommendedCandidatesPassTheGate(req: Request, synthetic: bool, d: Deltas, t: Thresholds, tt: TstrTrts, blocker: bool)
    requires req.impact == Some(ClassifyVerdict(d, t, blocker).0)
    ensures Status(synthetic, d, t, tt, blocker).Recommended? ==> !ImpactStops(req)
    ensures synthetic && ImpactStops(req) ==> Status(synthetic, d, t, tt, blocker).UtilityRejected?
  {
    RecommendedIff(synthetic, d, t, tt, blocker);
  }
}
