/** The dataset-level score (app/kernel/dataforge_score.py) and the comparison of two scores
    (app/kernel/version_compare.py).  Arithmetic is exact; `round` stands for rounding to six
    digits. */
module DataForgeScore {
  import opened Basics
  import opened Domain

  type Share = r: real | 0.0 <= r <= 1.0

  // ---------------------------------------------------------------------------------------------
  // Inputs
  // ---------------------------------------------------------------------------------------------

  datatype Missingness = Missingness(columns: seq<(nat, nat)>, targetMissing: bool)

  datatype Imbalance = Imbalance(balance: real, ratio: real, minorityShare: real)

  /** Whether each of the seven lineage fields is filled in. */
  type SevenChecks = s: seq<bool> | |s| == 7 witness [true, true, true, true, true, true, true]

  datatype Profile = Profile(
    rows: nat, columns: nat, nulls: seq<nat>, missingness: Option<Missingness>, rulePassRates: seq<Share>,
    duplicates: Option<nat>, imbalance: Option<Imbalance>, leakageCandidates: nat, lineage: SevenChecks)

  datatype TextReport = TextReport(total: nat, valid: nat, duplicate: nat, pii: nat, redacted: nat)

  datatype Blocker = PiiUnmasked | SplitLeakage | TargetLeakageCandidate | OtherBlocker(code: string)

  /** `codes`: the blockers' codes in lower case, then those of the recommended actions. */
  datatype Decision = Decision(blockers: set<Blocker>, blocked: bool, codes: seq<string>)

  datatype Request = Request(
    profile: Option<Profile>, text: Option<TextReport>, decision: Option<Decision>, splitLeakage: bool)

  function Blockers(req: Request): set<Blocker> {
    if req.decision.None? then {} else req.decision.value.blockers
  }

  /** Rounding to six digits moves a number by at most half a unit of the sixth. */
  ghost predicate IsRounding(round: real -> real) {
    forall x: real {:trigger round(x)} :: x - 0.0000005 <= round(x) <= x + 0.0000005
  }

  // ---------------------------------------------------------------------------------------------
  // Components
  // ---------------------------------------------------------------------------------------------

  function Clamp01(x: real, round: real -> real): Share {
    var r := round(x);
    if r < 0.0 then 0.0 else if r > 1.0 then 1.0 else r
  }

  function SumNat(s: seq<nat>): nat {
    if s == [] then 0 else SumNat(s[..|s| - 1]) + s[|s| - 1]
  }

  function SumReal(s: seq<real>): real {
    if s == [] then 0.0 else SumReal(s[..|s| - 1]) + s[|s| - 1]
  }

  function Ratio(a: nat, b: nat): real
    requires b > 0
  {
    a as real / b as real
  }

  function Completeness(p: Option<Profile>, round: real -> real): Share {
    if p.None? || p.value.rows == 0 || p.value.columns == 0 then 1.0
    else
      var counted := if p.value.missingness.Some? then p.value.missingness.value.columns else [];
      var total := SumNat(seq(|counted|, i requires 0 <= i < |counted| => counted[i].0));
      var missing := SumNat(seq(|counted|, i requires 0 <= i < |counted| => counted[i].1));
      if total > 0 then Clamp01(1.0 - Ratio(missing, total), round)
      else if p.value.rows * p.value.columns == 0 then 1.0
      else Clamp01(1.0 - Ratio(SumNat(p.value.nulls), p.value.rows * p.value.columns), round)
  }

  function ValidityScores(p: Option<Profile>, t: Option<TextReport>): seq<real> {
    (if p.Some? && p.value.rulePassRates != [] then
       [SumReal(p.value.rulePassRates) / |p.value.rulePassRates| as real]
     else [])
    + (if p.Some? && p.value.missingness.Some? then [if p.value.missingness.value.targetMissing then 0.0 else 1.0] else [])
    + (if t.Some? && t.value.total > 0 then [Ratio(t.value.valid, t.value.total)] else [])
  }

  function Validity(p: Option<Profile>, t: Option<TextReport>, round: real -> real): Share {
    var scores := ValidityScores(p, t);
    if scores == [] then 1.0 else Clamp01(SumReal(scores) / |scores| as real, round)
  }

  function ProfileDuplicates(p: Option<Profile>): Option<real> {
    if p.Some? && p.value.rows > 0 && p.value.duplicates.Some? then Some(Ratio(p.value.duplicates.value, p.value.rows)) else None
  }

  function TextDuplicates(t: Option<TextReport>): Option<real> {
    if t.Some? && t.value.valid > 0 then Some(Ratio(t.value.duplicate, t.value.valid)) else None
  }

  function Uniqueness(p: Option<Profile>, t: Option<TextReport>, round: real -> real): Share {
    var a, b := ProfileDuplicates(p), TextDuplicates(t);
    var worst := if a.Some? && (b.None? || a.value >= b.value) then a.value else if b.Some? then b.value else 0.0;
    Clamp01(1.0 - worst, round)
  }

  function Balance(p: Option<Profile>, round: real -> real): Share {
    if p.None? || p.value.imbalance.None? then 1.0 else Clamp01(p.value.imbalance.value.balance, round)
  }

  function PrivacySafety(t: Option<TextReport>, blockers: set<Blocker>, round: real -> real): Share {
    if PiiUnmasked in blockers then 0.0
    else if t.None? || t.value.valid == 0 then 1.0
    else
      var unredacted := if t.value.pii > t.value.redacted then t.value.pii - t.value.redacted else 0;
      Clamp01(1.0 - Ratio(unredacted, t.value.valid), round)
  }

  function ModelReadiness(p: Option<Profile>, blockers: set<Blocker>, splitLeakage: bool): Share {
    if splitLeakage || SplitLeakage in blockers || TargetLeakageCandidate in blockers then 0.0
    else if p.Some? && p.value.leakageCandidates > 0 then 0.3
    else if p.Some? && p.value.missingness.Some? && p.value.missingness.value.targetMissing then 0.0
    else 1.0
  }

  function CountTrue(s: seq<bool>): (n: nat)
    ensures n <= |s|
  {
    if s == [] then 0 else CountTrue(s[..|s| - 1]) + (if s[|s| - 1] then 1 else 0)
  }

  function LineageCompleteness(p: Option<Profile>): Share {
    if p.None? then 1.0 else Ratio(CountTrue(p.value.lineage), 7)
  }

  // ---------------------------------------------------------------------------------------------
  // Weights and penalties
  // ---------------------------------------------------------------------------------------------

  /** In the alphabetical order in which a comparison lists them. */
  datatype Component =
    | BalanceC | CompletenessC | LineageC | ModelReadinessC | PrivacyC | UniquenessC | ValidityC

  const COMPONENTS := [BalanceC, CompletenessC, LineageC, ModelReadinessC, PrivacyC, UniquenessC, ValidityC]

  function Weight(c: Component): real {
    match c
    case CompletenessC => 0.15
    case ValidityC => 0.15
    case UniquenessC => 0.12
    case BalanceC => 0.15
    case PrivacyC => 0.18
    case ModelReadinessC => 0.15
    case LineageC => 0.10
  }

  function ValueOf(req: Request, c: Component, round: real -> real): Share {
    match c
    case CompletenessC => Completeness(req.profile, round)
    case ValidityC => Validity(req.profile, req.text, round)
    case UniquenessC => Uniqueness(req.profile, req.text, round)
    case BalanceC => Balance(req.profile, round)
    case PrivacyC => PrivacySafety(req.text, Blockers(req), round)
    case ModelReadinessC => ModelReadiness(req.profile, Blockers(req), req.splitLeakage)
    case LineageC => LineageCompleteness(req.profile)
  }

  /** In alphabetical order again. */
  datatype PenaltyCode = SevereClassImbalance | SevereDuplicates | SplitLeakagePenalty | TargetLeakage | UnmaskedPii {

    function Text(): string {
      match this
      case SevereClassImbalance => "severe_class_imbalance"
      case SevereDuplicates => "severe_duplicates"
      case SplitLeakagePenalty => "split_leakage"
      case TargetLeakage => "target_leakage_candidate"
      case UnmaskedPii => "unmasked_pii"
    }
  }

  const PENALTY_CODES := [SevereClassImbalance, SevereDuplicates, SplitLeakagePenalty, TargetLeakage, UnmaskedPii]

  /** The order in which the engine applies them. */
  const ENGINE_ORDER := [UnmaskedPii, SplitLeakagePenalty, TargetLeakage, SevereDuplicates, SevereClassImbalance]

  function Amount(c: PenaltyCode): real {
    match c
    case UnmaskedPii => -30.0
    case SplitLeakagePenalty => -40.0
    case TargetLeakage => -25.0
    case SevereDuplicates => -10.0
    case SevereClassImbalance => -10.0
  }

  predicate Applies(req: Request, c: PenaltyCode) {
    match c
    case UnmaskedPii => PiiUnmasked in Blockers(req) || (req.text.Some? && req.text.value.pii > req.text.value.redacted)
    case SplitLeakagePenalty => req.splitLeakage || SplitLeakage in Blockers(req)
    case TargetLeakage =>
      TargetLeakageCandidate in Blockers(req) || (req.profile.Some? && req.profile.value.leakageCandidates > 0)
    case SevereDuplicates =>
      || (ProfileDuplicates(req.profile).Some? && ProfileDuplicates(req.profile).value >= 0.05)
      || (TextDuplicates(req.text).Some? && TextDuplicates(req.text).value >= 0.05)
    case SevereClassImbalance =>
      && req.profile.Some? && req.profile.value.imbalance.Some?
      && (req.profile.value.imbalance.value.ratio >= 10.0 || req.profile.value.imbalance.value.minorityShare <= 0.05)
  }

  datatype Penalty = Penalty(code: PenaltyCode, value: real)

  function Penalties(codes: seq<PenaltyCode>, req: Request): seq<Penalty> {
    if codes == [] then []
    else
      var c := codes[|codes| - 1];
      Penalties(codes[..|codes| - 1], req) + (if Applies(req, c) then [Penalty(c, Amount(c))] else [])
  }

  function TotalPenalty(ps: seq<Penalty>): real {
    if ps == [] then 0.0 else TotalPenalty(ps[..|ps| - 1]) + ps[|ps| - 1].value
  }

  /** The loop that skips penalties which do not apply. */
  method ApplyPenalties(req: Request) returns (applied: seq<Penalty>)
    ensures applied == Penalties(ENGINE_ORDER, req)
  {
    applied := [];
    for i := 0 to |ENGINE_ORDER|
      invariant applied == Penalties(ENGINE_ORDER[..i], req)
    {
      var c := ENGINE_ORDER[i];
      assert ENGINE_ORDER[..i + 1][..i] == ENGINE_ORDER[..i];
      if !Applies(req, c) {
        continue;
      }
      applied := applied + [Penalty(c, Amount(c))];
    }
    assert ENGINE_ORDER[..|ENGINE_ORDER|] == ENGINE_ORDER;
  }

  // ---------------------------------------------------------------------------------------------
  // The score
  // ---------------------------------------------------------------------------------------------

  function Weighted(req: Request, c: Component, round: real -> real): real {
    Weight(c) * ValueOf(req, c, round)
  }

  function WeightedSum(cs: seq<Component>, req: Request, round: real -> real): real {
    if cs == [] then 0.0 else WeightedSum(cs[..|cs| - 1], req, round) + Weighted(req, cs[|cs| - 1], round)
  }

  /** Before clamping to 0..100. */
  function Unclamped(req: Request, round: real -> real): real {
    100.0 * WeightedSum(COMPONENTS, req, round) + TotalPenalty(Penalties(ENGINE_ORDER, req))
  }

  function RawScore(req: Request, round: real -> real): real {
    var x := Unclamped(req, round);
    if x < 0.0 then 0.0 else if x > 100.0 then 100.0 else x
  }

  function Deduction(req: Request, c: PenaltyCode): real {
    if Applies(req, c) then Amount(c) else 0.0
  }

  /** Both sums written out. */
  lemma UnclampedInFull(req: Request, round: real -> real)
    ensures Unclamped(req, round) ==
            15.0 * ValueOf(req, CompletenessC, round) + 15.0 * ValueOf(req, ValidityC, round)
            + 12.0 * ValueOf(req, UniquenessC, round) + 15.0 * ValueOf(req, BalanceC, round)
            + 18.0 * ValueOf(req, PrivacyC, round) + 15.0 * ValueOf(req, ModelReadinessC, round)
            + 10.0 * ValueOf(req, LineageC, round)
            + Deduction(req, UnmaskedPii) + Deduction(req, SplitLeakagePenalty) + Deduction(req, TargetLeakage)
            + Deduction(req, SevereDuplicates) + Deduction(req, SevereClassImbalance)
  {
    SumInFull(req, round);
    PenaltiesInFull(req);
  }

  lemma SumInFull(req: Request, round: real -> real)
    ensures WeightedSum(COMPONENTS, req, round) ==
            Weighted(req, BalanceC, round) + Weighted(req, CompletenessC, round) + Weighted(req, LineageC, round)
            + Weighted(req, ModelReadinessC, round) + Weighted(req, PrivacyC, round) + Weighted(req, UniquenessC, round)
            + Weighted(req, ValidityC, round)
  {
    var s := COMPONENTS;
    SumSnoc(s[..6], s[6], req, round); assert s[..6] + [s[6]] == s;
    SumSnoc(s[..5], s[5], req, round); assert s[..5] + [s[5]] == s[..6];
    SumSnoc(s[..4], s[4], req, round); assert s[..4] + [s[4]] == s[..5];
    SumSnoc(s[..3], s[3], req, round); assert s[..3] + [s[3]] == s[..4];
    SumSnoc(s[..2], s[2], req, round); assert s[..2] + [s[2]] == s[..3];
    SumSnoc(s[..1], s[1], req, round); assert s[..1] + [s[1]] == s[..2];
    SumSnoc([], s[0], req, round); assert [] + [s[0]] == s[..1];
  }

  lemma SumSnoc(cs: seq<Component>, c: Component, req: Request, round: real -> real)
    ensures WeightedSum(cs + [c], req, round) == WeightedSum(cs, req, round) + Weighted(req, c, round)
  {
    assert (cs + [c])[..|cs|] == cs;
  }

  lemma PenaltySnoc(codes: seq<PenaltyCode>, c: PenaltyCode, req: Request)
    ensures TotalPenalty(Penalties(codes + [c], req)) == TotalPenalty(Penalties(codes, req)) + Deduction(req, c)
  {
    assert (codes + [c])[..|codes|] == codes;
    var ps := Penalties(codes, req);
    assert (ps + [Penalty(c, Amount(c))])[..|ps|] == ps && ps + [] == ps;
  }

  lemma PenaltiesInFull(req: Request)
    ensures TotalPenalty(Penalties(ENGINE_ORDER, req)) ==
            Deduction(req, UnmaskedPii) + Deduction(req, SplitLeakagePenalty) + Deduction(req, TargetLeakage)
            + Deduction(req, SevereDuplicates) + Deduction(req, SevereClassImbalance)
  {
    var one := [UnmaskedPii];
    var two := one + [SplitLeakagePenalty];
    var three := two + [TargetLeakage];
    var four := three + [SevereDuplicates];
    assert ENGINE_ORDER == four + [SevereClassImbalance];
    PenaltySnoc([], UnmaskedPii, req);
    assert [] + one == one;
    PenaltySnoc(one, SplitLeakagePenalty, req);
    PenaltySnoc(two, TargetLeakage, req);
    PenaltySnoc(three, SevereDuplicates, req);
    PenaltySnoc(four, SevereClassImbalance, req);
  }

  /** The upper clamp never acts, and a perfect score means seven perfect components and no penalty. */
  lemma RawScoreBounds(req: Request, round: real -> real)
    ensures -115.0 <= Unclamped(req, round) <= 100.0
    ensures 0.0 <= RawScore(req, round) <= 100.0
    ensures RawScore(req, round) == 100.0 <==>
              (forall c :: ValueOf(req, c, round) == 1.0) && (forall p :: !Applies(req, p))
  {
    UnclampedInFull(req, round);
    if RawScore(req, round) == 100.0 {
      forall p: PenaltyCode ensures !Applies(req, p) {
        assert Deduction(req, p) == 0.0;
      }
      forall c: Component ensures ValueOf(req, c, round) == 1.0 {
        assert c == BalanceC || c == CompletenessC || c == LineageC || c == ModelReadinessC || c == PrivacyC
               || c == UniquenessC || c == ValidityC;
      }
    }
  }

  /** Split leakage caps the raw score at 45, an unmasked-PII blocker at 52, target leakage at 64.5,
      or 60 if it is a blocker; the first two together leave nothing. */
  lemma Caps(req: Request, round: real -> real)
    ensures Applies(req, SplitLeakagePenalty) ==> RawScore(req, round) <= 45.0
    ensures PiiUnmasked in Blockers(req) ==> RawScore(req, round) <= 52.0
    ensures Applies(req, TargetLeakage) ==> RawScore(req, round) <= 64.5
    ensures TargetLeakageCandidate in Blockers(req) ==> RawScore(req, round) <= 60.0
    ensures PiiUnmasked in Blockers(req) && Applies(req, SplitLeakagePenalty) ==> RawScore(req, round) == 0.0
  {
    UnclampedInFull(req, round);
  }

  /** The second request has the same reports, at least the blockers of the first and, if the first
      does, reports split leakage. */
  ghost predicate IsWorse(req: Request, worse: Request) {
    && worse.profile == req.profile && worse.text == req.text
    && Blockers(req) <= Blockers(worse) && (req.splitLeakage ==> worse.splitLeakage)
  }

  lemma ComponentNeverRises(req: Request, worse: Request, c: Component, round: real -> real)
    requires IsWorse(req, worse)
    ensures ValueOf(worse, c, round) <= ValueOf(req, c, round)
  {
  }

  lemma DeductionNeverShrinks(req: Request, worse: Request, p: PenaltyCode)
    requires IsWorse(req, worse)
    ensures Deduction(worse, p) <= Deduction(req, p)
  {
  }

  lemma UnclampedNeverRises(req: Request, worse: Request, round: real -> real)
    requires forall c :: ValueOf(worse, c, round) <= ValueOf(req, c, round)
    requires forall p :: Deduction(worse, p) <= Deduction(req, p)
    ensures Unclamped(worse, round) <= Unclamped(req, round)
  {
    SumInFull(req, round);
    SumInFull(worse, round);
    PenaltiesInFull(req);
    PenaltiesInFull(worse);
    assert forall c :: Weighted(worse, c, round) <= Weighted(req, c, round);
  }

  /** Adding blockers or setting split leakage never raises the score. */
  lemma WorseNeverScoresHigher(req: Request, worse: Request, round: real -> real)
    requires IsWorse(req, worse)
    ensures RawScore(worse, round) <= RawScore(req, round)
  {
    forall c { ComponentNeverRises(req, worse, c, round); }
    forall p { DeductionNeverShrinks(req, worse, p); }
    UnclampedNeverRises(req, worse, round);
  }

  // ---------------------------------------------------------------------------------------------
  // Two scores compared
  // ---------------------------------------------------------------------------------------------

  datatype Score = Score(
    value: real, raw: real, components: map<Component, real>, weighted: map<Component, real>,
    weights: map<Component, real>, penalties: seq<Penalty>, hardBlocked: bool, readiness: Readiness,
    reasonCodes: seq<string>)

  function PenaltyTexts(penalties: seq<Penalty>): seq<string> {
    seq(|penalties|, i requires 0 <= i < |penalties| => penalties[i].code.Text())
  }

  function DecisionCodes(req: Request): seq<string> {
    if req.decision.None? then [] else req.decision.value.codes
  }

  /** The decision's codes are deduplicated on their own first. */
  method CollectReasonCodes(req: Request, penalties: seq<Penalty>) returns (codes: seq<string>)
    ensures codes == OrderedUnique(PenaltyTexts(penalties) + OrderedUnique(DecisionCodes(req)))
  {
    var decided := CollectUnique(DecisionCodes(req));
    codes := CollectUnique(PenaltyTexts(penalties) + decided);
  }

  /** `sum(weighted.values())`. */
  method SumWeighted(weighted: map<Component, real>, req: Request, round: real -> real) returns (total: real)
    requires weighted == WeightedOf(req, round)
    ensures total == WeightedSum(COMPONENTS, req, round)
  {
    total := 0.0;
    for i := 0 to |COMPONENTS|
      invariant total == WeightedSum(COMPONENTS[..i], req, round)
    {
      assert COMPONENTS[..i + 1] == COMPONENTS[..i] + [COMPONENTS[i]];
      SumSnoc(COMPONENTS[..i], COMPONENTS[i], req, round);
      total := total + weighted[COMPONENTS[i]];
    }
    assert COMPONENTS[..|COMPONENTS|] == COMPONENTS;
  }

  method SumPenalties(penalties: seq<Penalty>) returns (total: real)
    ensures total == TotalPenalty(penalties)
  {
    total := 0.0;
    for i := 0 to |penalties|
      invariant total == TotalPenalty(penalties[..i])
    {
      assert penalties[..i + 1][..i] == penalties[..i];
      total := total + penalties[i].value;
    }
    assert penalties[..|penalties|] == penalties;
  }

  /** Components first, weighted one by one, summed, and penalised; clamped, then rounded. */
  method BuildDataForgeScore(req: Request, round: real -> real) returns (s: Score)
    ensures s == ScoreOf(req, round)
    ensures s.readiness.ReadyForExport? <==> !s.hardBlocked && forall p :: !Applies(req, p)
    ensures s.readiness.BlockedReadiness? <==> s.hardBlocked
    ensures s.readiness.ReadyWithWarnings? <==> !s.hardBlocked && exists p :: Applies(req, p)
    ensures s.hardBlocked <==> req.decision.Some? && (req.decision.value.blocked || Blockers(req) != {})
  {
    var components := EvaluateComponents(req, round);
    var weighted := WeightAll(components, req, round);
    var penalties := ApplyPenalties(req);
    var sum := SumWeighted(weighted, req, round);
    var deductions := SumPenalties(penalties);
    var unclamped := 100.0 * sum + deductions;
    var raw := if unclamped < 0.0 then 0.0 else if unclamped > 100.0 then 100.0 else unclamped;
    var hard := req.decision.Some? && (req.decision.value.blocked || req.decision.value.blockers != {});
    var codes := CollectReasonCodes(req, penalties);
    NoPenaltyIff(ENGINE_ORDER, req);
    forall p: PenaltyCode ensures p in ENGINE_ORDER {
      EveryCodeIsApplied(p);
    }
    s := Score(
      round(raw / 100.0), round(raw), components, weighted, WEIGHTS, penalties,
      hard, if hard then BlockedReadiness else if penalties != [] then ReadyWithWarnings else ReadyForExport, codes);
  }

  method EvaluateComponents(req: Request, round: real -> real) returns (components: map<Component, real>)
    ensures components == ComponentsOf(req, round)
  {
    var blockers := Blockers(req);
    components := Assemble(
      Completeness(req.profile, round), Validity(req.profile, req.text, round), Uniqueness(req.profile, req.text, round),
      Balance(req.profile, round), PrivacySafety(req.text, blockers, round),
      ModelReadiness(req.profile, blockers, req.splitLeakage), LineageCompleteness(req.profile));
    forall c: Component ensures components[c] == ValueOf(req, c, round) {
      match c
      case BalanceC =>
      case CompletenessC =>
      case LineageC =>
      case ModelReadinessC =>
      case PrivacyC =>
      case UniquenessC =>
      case ValidityC =>
    }
  }

  /** The dict of the seven components. */
  method Assemble(completeness: real, validity: real, uniqueness: real, balance: real, privacy: real, model: real, lineage: real)
    returns (m: map<Component, real>)
    ensures forall c: Component :: c in m
    ensures m[CompletenessC] == completeness && m[ValidityC] == validity && m[UniquenessC] == uniqueness
    ensures m[BalanceC] == balance && m[PrivacyC] == privacy && m[ModelReadinessC] == model && m[LineageC] == lineage
  {
    m := map[CompletenessC := completeness, ValidityC := validity, UniquenessC := uniqueness, BalanceC := balance,
             PrivacyC := privacy, ModelReadinessC := model, LineageC := lineage];
    forall c: Component ensures c in m {
      assert c.BalanceC? || c.CompletenessC? || c.LineageC? || c.ModelReadinessC? || c.PrivacyC? || c.UniquenessC? || c.ValidityC?;
    }
  }

  method WeightAll(components: map<Component, real>, req: Request, round: real -> real) returns (weighted: map<Component, real>)
    requires components == ComponentsOf(req, round)
    ensures weighted == WeightedOf(req, round)
  {
    weighted := map c | c in components :: Weight(c) * components[c];
  }

  lemma {:induction false} NoPenaltyIff(codes: seq<PenaltyCode>, req: Request)
    ensures Penalties(codes, req) == [] <==> forall p | p in codes :: !Applies(req, p)
  {
    if codes != [] {
      NoPenaltyIff(codes[..|codes| - 1], req);
      assert codes == codes[..|codes| - 1] + [codes[|codes| - 1]];
    }
  }

  function ComponentsOf(req: Request, round: real -> real): map<Component, real> {
    map c: Component | true :: ValueOf(req, c, round)
  }

  function WeightedOf(req: Request, round: real -> real): map<Component, real> {
    map c: Component | true :: Weighted(req, c, round)
  }

  const WEIGHTS: map<Component, real> := map c: Component | true :: Weight(c)

  function ScoreOf(req: Request, round: real -> real): Score {
    var raw := RawScore(req, round);
    var penalties := Penalties(ENGINE_ORDER, req);
    var hard := req.decision.Some? && (req.decision.value.blocked || req.decision.value.blockers != {});
    Score(
      round(raw / 100.0), round(raw), ComponentsOf(req, round), WeightedOf(req, round), WEIGHTS, penalties,
      hard, if hard then BlockedReadiness else if penalties != [] then ReadyWithWarnings else ReadyForExport,
      OrderedUnique(PenaltyTexts(penalties) + OrderedUnique(DecisionCodes(req))))
  }

  datatype ComponentDiff = ComponentDiff(
    name: Component, weight: real, before: real, after: real, weightedBefore: real, weightedAfter: real, delta: real)

  datatype PenaltyDiff = PenaltyDiff(code: PenaltyCode, before: real, after: real, appliedBefore: bool, appliedAfter: bool)

  datatype ScoreDiff =
    | NotApplicable
    | Available(
        components: seq<ComponentDiff>, penalties: seq<PenaltyDiff>, rawBefore: real, rawAfter: real, rawDelta: real,
        valueBefore: real, valueAfter: real, valueDelta: real, readinessBefore: Readiness, readinessAfter: Readiness)

  function Get(m: map<Component, real>, c: Component, default: real): real {
    if c in m then m[c] else default
  }

  function DiffOf(a: Score, b: Score, c: Component): ComponentDiff {
    var before := Get(a.components, c, 0.0);
    var after := Get(b.components, c, before);
    var weight := Get(a.weights, c, Get(b.weights, c, 0.0));
    ComponentDiff(c, weight, before, after, Get(a.weighted, c, before * weight), Get(b.weighted, c, after * weight), after - before)
  }

  function LookUp(ps: seq<Penalty>, code: PenaltyCode): Option<real> {
    if ps == [] then None
    else if ps[|ps| - 1].code == code then Some(ps[|ps| - 1].value)
    else LookUp(ps[..|ps| - 1], code)
  }

  function OrZero(o: Option<real>): real {
    if o.Some? then o.value else 0.0
  }

  function PenaltyDiffOf(a: Score, b: Score, code: PenaltyCode): PenaltyDiff {
    var before, after := LookUp(a.penalties, code), LookUp(b.penalties, code);
    PenaltyDiff(code, OrZero(before), OrZero(after), before.Some?, after.Some?)
  }

  function WeightedDelta(ds: seq<ComponentDiff>): real {
    if ds == [] then 0.0
    else WeightedDelta(ds[..|ds| - 1]) + ds[|ds| - 1].weightedAfter - ds[|ds| - 1].weightedBefore
  }

  function PenaltyDelta(ds: seq<PenaltyDiff>): real {
    if ds == [] then 0.0 else PenaltyDelta(ds[..|ds| - 1]) + ds[|ds| - 1].after - ds[|ds| - 1].before
  }

  function Rows(cs: seq<Component>, a: Score, b: Score): seq<ComponentDiff> {
    if cs == [] then []
    else
      var c := cs[|cs| - 1];
      Rows(cs[..|cs| - 1], a, b) + (if c in a.components || c in b.components then [DiffOf(a, b, c)] else [])
  }

  function PenaltyRows(codes: seq<PenaltyCode>, a: Score, b: Score): seq<PenaltyDiff> {
    if codes == [] then []
    else
      var p := codes[|codes| - 1];
      PenaltyRows(codes[..|codes| - 1], a, b)
      + (if LookUp(a.penalties, p).Some? || LookUp(b.penalties, p).Some? then [PenaltyDiffOf(a, b, p)] else [])
  }

  function Diff(a: Score, b: Score): ScoreDiff {
    Available(Rows(COMPONENTS, a, b), PenaltyRows(PENALTY_CODES, a, b), a.raw, b.raw, b.raw - a.raw,
              a.value, b.value, b.value - a.value, a.readiness, b.readiness)
  }

  /** One row per component that either score has and one per penalty that either score carries, in
      alphabetical order. */
  method BuildScoreDiff(baseline: Option<Score>, candidate: Option<Score>) returns (d: ScoreDiff)
    ensures d == if baseline.None? || candidate.None? then NotApplicable else Diff(baseline.value, candidate.value)
  {
    if baseline.None? || candidate.None? {
      return NotApplicable;
    }
    var a, b := baseline.value, candidate.value;
    var components: seq<ComponentDiff>, penalties: seq<PenaltyDiff> := [], [];
    for i := 0 to |COMPONENTS|
      invariant components == Rows(COMPONENTS[..i], a, b)
    {
      var c := COMPONENTS[i];
      assert COMPONENTS[..i + 1][..i] == COMPONENTS[..i];
      if c in a.components || c in b.components {
        components := components + [DiffOf(a, b, c)];
      }
    }
    assert COMPONENTS[..|COMPONENTS|] == COMPONENTS;
    for i := 0 to |PENALTY_CODES|
      invariant penalties == PenaltyRows(PENALTY_CODES[..i], a, b)
    {
      var p := PENALTY_CODES[i];
      assert PENALTY_CODES[..i + 1][..i] == PENALTY_CODES[..i];
      if LookUp(a.penalties, p).Some? || LookUp(b.penalties, p).Some? {
        penalties := penalties + [PenaltyDiffOf(a, b, p)];
      }
    }
    assert PENALTY_CODES[..|PENALTY_CODES|] == PENALTY_CODES;
    return Available(components, penalties, a.raw, b.raw, b.raw - a.raw, a.value, b.value, b.value - a.value,
                     a.readiness, b.readiness);
  }

  lemma {:induction false} RowsAddUp(cs: seq<Component>, r: Request, q: Request, round: real -> real)
    requires forall i | 0 <= i < |cs| :: cs[i] in COMPONENTS
    ensures WeightedDelta(Rows(cs, ScoreOf(r, round), ScoreOf(q, round))) == WeightedSum(cs, q, round) - WeightedSum(cs, r, round)
  {
    if cs != [] {
      var front, c := cs[..|cs| - 1], cs[|cs| - 1];
      var a, b := ScoreOf(r, round), ScoreOf(q, round);
      RowsAddUp(front, r, q, round);
      var rows := Rows(front, a, b);
      assert (rows + [DiffOf(a, b, c)])[..|rows|] == rows;
      assert c in COMPONENTS;
      assert a.weighted[c] == Weighted(r, c, round) && b.weighted[c] == Weighted(q, c, round);
    }
  }

  lemma {:induction false} LookUpApplied(codes: seq<PenaltyCode>, req: Request, p: PenaltyCode)
    ensures LookUp(Penalties(codes, req), p) == if p in codes && Applies(req, p) then Some(Amount(p)) else None
  {
    if codes != [] {
      var front, c := codes[..|codes| - 1], codes[|codes| - 1];
      LookUpApplied(front, req, p);
      assert codes == front + [c];
      var ps := Penalties(front, req);
      assert (ps + [Penalty(c, Amount(c))])[..|ps|] == ps && ps + [] == ps;
    }
  }

  function DeductionDelta(codes: seq<PenaltyCode>, r: Request, q: Request): real {
    if codes == [] then 0.0
    else DeductionDelta(codes[..|codes| - 1], r, q) + Deduction(q, codes[|codes| - 1]) - Deduction(r, codes[|codes| - 1])
  }

  lemma EveryCodeIsApplied(p: PenaltyCode)
    ensures p in ENGINE_ORDER
  {
    assert ENGINE_ORDER[0] == UnmaskedPii && ENGINE_ORDER[1] == SplitLeakagePenalty && ENGINE_ORDER[2] == TargetLeakage
           && ENGINE_ORDER[3] == SevereDuplicates && ENGINE_ORDER[4] == SevereClassImbalance;
  }

  lemma {:induction false} PenaltyRowsAddUp(codes: seq<PenaltyCode>, r: Request, q: Request, a: Score, b: Score)
    requires a.penalties == Penalties(ENGINE_ORDER, r) && b.penalties == Penalties(ENGINE_ORDER, q)
    ensures PenaltyDelta(PenaltyRows(codes, a, b)) == DeductionDelta(codes, r, q)
  {
    if codes != [] {
      var front, p := codes[..|codes| - 1], codes[|codes| - 1];
      PenaltyRowsAddUp(front, r, q, a, b);
      PenaltyRowOf(r, q, a, b, p);
      PenaltyDeltaSnoc(PenaltyRows(front, a, b), PenaltyDiffOf(a, b, p));
      if LookUp(a.penalties, p).Some? || LookUp(b.penalties, p).Some? {
        assert PenaltyRows(codes, a, b) == PenaltyRows(front, a, b) + [PenaltyDiffOf(a, b, p)];
      } else {
        assert PenaltyRows(codes, a, b) == PenaltyRows(front, a, b);
      }
    }
  }

  lemma PenaltyDeltaSnoc(ds: seq<PenaltyDiff>, d: PenaltyDiff)
    ensures PenaltyDelta(ds + [d]) == PenaltyDelta(ds) + d.after - d.before
  {
    assert (ds + [d])[..|ds|] == ds;
  }

  lemma PenaltyRowOf(r: Request, q: Request, a: Score, b: Score, p: PenaltyCode)
    requires a.penalties == Penalties(ENGINE_ORDER, r) && b.penalties == Penalties(ENGINE_ORDER, q)
    ensures OrZero(LookUp(a.penalties, p)) == Deduction(r, p) && OrZero(LookUp(b.penalties, p)) == Deduction(q, p)
  {
    EveryCodeIsApplied(p);
    LookUpApplied(ENGINE_ORDER, r, p);
    LookUpApplied(ENGINE_ORDER, q, p);
  }

  lemma DeductionsInFull(r: Request, q: Request)
    ensures DeductionDelta(PENALTY_CODES, r, q) ==
            TotalPenalty(Penalties(ENGINE_ORDER, q)) - TotalPenalty(Penalties(ENGINE_ORDER, r))
  {
    PenaltiesInFull(r);
    PenaltiesInFull(q);
    var s := PENALTY_CODES;
    assert s[..5] == s;
    assert s[..5][..4] == s[..4] && s[..4][..3] == s[..3] && s[..3][..2] == s[..2] && s[..2][..1] == s[..1] && s[..1][..0] == [];
    assert DeductionDelta(s[..1], r, q) == Deduction(q, s[0]) - Deduction(r, s[0]);
    assert DeductionDelta(s[..2], r, q) == DeductionDelta(s[..1], r, q) + Deduction(q, s[1]) - Deduction(r, s[1]);
    assert DeductionDelta(s[..3], r, q) == DeductionDelta(s[..2], r, q) + Deduction(q, s[2]) - Deduction(r, s[2]);
    assert DeductionDelta(s[..4], r, q) == DeductionDelta(s[..3], r, q) + Deduction(q, s[3]) - Deduction(r, s[3]);
  }

  /** What the lower clamp adds to a score. */
  function Lift(req: Request, round: real -> real): real {
    if Unclamped(req, round) < 0.0 then -Unclamped(req, round) else 0.0
  }

  /** Conservation: the raw difference of two scores is, up to the two six-digit roundings, a hundred
      times the sum of the weighted component differences plus the sum of the penalty differences,
      plus whatever the clamp at zero lent to either side, which is nothing for scores not clamped. */
  lemma DiffIsConserved(r: Request, q: Request, round: real -> real)
    requires IsRounding(round)
    ensures var d := Diff(ScoreOf(r, round), ScoreOf(q, round));
            var explained := 100.0 * WeightedDelta(d.components) + PenaltyDelta(d.penalties) + Lift(q, round) - Lift(r, round);
            explained - 0.000001 <= d.rawDelta <= explained + 0.000001
    ensures Unclamped(r, round) >= 0.0 ==> Lift(r, round) == 0.0
  {
    RowsAddUp(COMPONENTS, r, q, round);
    PenaltyRowsAddUp(PENALTY_CODES, r, q, ScoreOf(r, round), ScoreOf(q, round));
    DeductionsInFull(r, q);
    RawScoreBounds(r, round);
    RawScoreBounds(q, round);
    assert RawScore(r, round) == Unclamped(r, round) + Lift(r, round);
    assert RawScore(q, round) == Unclamped(q, round) + Lift(q, round);
  }
}
