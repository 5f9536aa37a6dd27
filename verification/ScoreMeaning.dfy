/** What the components and penalties of a dataset score say about the data
    (app/kernel/dataforge_score.py): each measured against the counts in the reports, and what worse
    data does to the score. */
module ScoreMeaning {
  import opened Basics
  import opened DataForgeScore

  /** Rounding to six digits: close, order-preserving, and exact on 0 and 1. */
  ghost predicate Rounds(round: real -> real) {
    && IsRounding(round) && round(0.0) == 0.0 && round(1.0) == 1.0
    && forall x: real, y: real {:trigger round(x), round(y)} :: x <= y ==> round(x) <= round(y)
  }

  /** `c` is x, brought into 0..1 and rounded. */
  ghost predicate Reports(c: real, x: real) {
    && 0.0 <= c <= 1.0
    && (x >= 1.0 ==> c == 1.0) && (x <= 0.0 ==> c == 0.0)
    && (0.0 <= x <= 1.0 ==> x - 0.0000005 <= c <= x + 0.0000005)
  }

  lemma ClampReports(x: real, round: real -> real)
    requires Rounds(round)
    ensures Reports(Clamp01(x, round), x)
  {
    if x >= 1.0 {
      assert round(1.0) <= round(x);
    } else if x <= 0.0 {
      assert round(x) <= round(0.0);
    } else {
      assert round(0.0) <= round(x) <= round(1.0);
    }
  }

  lemma ClampMonotone(x: real, y: real, round: real -> real)
    requires Rounds(round) && x <= y
    ensures Clamp01(x, round) <= Clamp01(y, round)
  {
    assert round(x) <= round(y);
  }

  /** The reported components are the engine's. */
  lemma ReportedIs(req: Request, round: real -> real, c: Component)
    ensures c in ScoreOf(req, round).components && ScoreOf(req, round).components[c] == ValueOf(req, c, round)
  {
  }

  lemma RatioMonotone(a: nat, b: nat, n: nat)
    requires a <= b && n > 0
    ensures Ratio(a, n) <= Ratio(b, n)
  {
    QuotientMonotone(a as real, b as real, n as real);
  }

  lemma QuotientMonotone(a: real, b: real, n: real)
    requires a <= b && n > 0.0
    ensures a / n <= b / n
  {
    assert b / n - a / n == (b - a) / n;
  }

  // ---------------------------------------------------------------------------------------------
  // Missing cells
  // ---------------------------------------------------------------------------------------------

  /** Cells and missing cells of the columns that were examined for missingness. */
  ghost function Examined(columns: seq<(nat, nat)>): (nat, nat) {
    if columns == [] then (0, 0)
    else
      var rest := Examined(columns[1..]);
      (columns[0].0 + rest.0, columns[0].1 + rest.1)
  }

  ghost function Total(counts: seq<nat>): nat {
    if counts == [] then 0 else counts[0] + Total(counts[1..])
  }

  /** Cells and missing cells of a profile: those examined for missingness if there are any, otherwise
      the whole table and its null counts. */
  ghost function Cells(p: Profile): (nat, nat) {
    if p.missingness.Some? && Examined(p.missingness.value.columns).0 > 0 then Examined(p.missingness.value.columns)
    else (p.rows * p.columns, Total(p.nulls))
  }

  lemma {:induction false} SumNatCons(s: seq<nat>)
    requires s != []
    ensures SumNat(s) == s[0] + SumNat(s[1..])
  {
    if |s| > 1 {
      var front := s[..|s| - 1];
      SumNatCons(front);
      assert front[1..] == s[1..][..|s| - 2] && s[1..][|s| - 2] == s[|s| - 1];
    } else {
      assert s[..0] == [] && s[1..] == [];
    }
  }

  lemma {:induction false} SumNatIsTotal(s: seq<nat>)
    ensures SumNat(s) == Total(s)
  {
    if s != [] {
      SumNatCons(s);
      SumNatIsTotal(s[1..]);
    }
  }

  lemma {:induction false} SumsAreExamined(columns: seq<(nat, nat)>, totals: seq<nat>, missing: seq<nat>)
    requires |totals| == |columns| == |missing|
    requires forall i | 0 <= i < |columns| :: totals[i] == columns[i].0 && missing[i] == columns[i].1
    ensures (SumNat(totals), SumNat(missing)) == Examined(columns)
  {
    if columns != [] {
      SumsAreExamined(columns[1..], totals[1..], missing[1..]);
      SumNatCons(totals);
      SumNatCons(missing);
    }
  }

  /** One minus the share of missing cells, before rounding. */
  ghost function PresentShare(p: Profile): real
    requires Cells(p).0 > 0
  {
    1.0 - Cells(p).1 as real / Cells(p).0 as real
  }

  lemma CompletenessReads(p: Profile, round: real -> real)
    requires p.rows > 0 && p.columns > 0
    ensures Cells(p).0 > 0 && Completeness(Some(p), round) == Clamp01(PresentShare(p), round)
  {
    assert p.rows * p.columns > 0;
    SumNatIsTotal(p.nulls);
    var counted := if p.missingness.Some? then p.missingness.value.columns else [];
    SumsAreExamined(counted, seq(|counted|, i requires 0 <= i < |counted| => counted[i].0),
                    seq(|counted|, i requires 0 <= i < |counted| => counted[i].1));
  }

  /** Completeness: 1 without data, otherwise the share of cells that are present, rounded; 1 if none is
      missing, and 0 if all are. */
  ghost predicate CompletenessFits(req: Request, c: real) {
    if req.profile.None? || req.profile.value.rows == 0 || req.profile.value.columns == 0 then c == 1.0
    else
      var (cells, missing) := Cells(req.profile.value);
      && cells > 0 && Reports(c, 1.0 - missing as real / cells as real)
      && (missing == 0 ==> c == 1.0) && (missing >= cells ==> c == 0.0)
  }

  lemma CompletenessIs(req: Request, round: real -> real)
    requires Rounds(round)
    ensures CompletenessC in ScoreOf(req, round).components
    ensures CompletenessFits(req, ScoreOf(req, round).components[CompletenessC])
  {
    ReportedIs(req, round, CompletenessC);
    if req.profile.Some? && req.profile.value.rows > 0 && req.profile.value.columns > 0 {
      PresentShareIs(req.profile.value, round);
    }
  }

  lemma PresentShareIs(p: Profile, round: real -> real)
    requires Rounds(round) && p.rows > 0 && p.columns > 0
    ensures Cells(p).0 > 0
    ensures var c := Completeness(Some(p), round);
            Reports(c, PresentShare(p)) && (Cells(p).1 == 0 ==> c == 1.0) && (Cells(p).1 >= Cells(p).0 ==> c == 0.0)
  {
    CompletenessReads(p, round);
    RemainderReports(Cells(p).1, Cells(p).0, round);
  }

  /** What is left of a whole when a share is taken away. */
  lemma RemainderReports(part: nat, whole: nat, round: real -> real)
    requires Rounds(round) && whole > 0
    ensures var c := Clamp01(1.0 - part as real / whole as real, round);
            Reports(c, 1.0 - part as real / whole as real) && (part == 0 ==> c == 1.0) && (part >= whole ==> c == 0.0)
  {
    ClampReports(1.0 - part as real / whole as real, round);
    if part >= whole {
      QuotientMonotone(whole as real, part as real, whole as real);
    }
  }

  ghost predicate MoreMissing(p: Profile, worse: Profile) {
    && worse.rows == p.rows && worse.columns == p.columns
    && |worse.nulls| == |p.nulls| && (forall i | 0 <= i < |p.nulls| :: p.nulls[i] <= worse.nulls[i])
    && worse.missingness.Some? == p.missingness.Some?
    && (p.missingness.Some? ==> MoreMissingIn(p.missingness.value.columns, worse.missingness.value.columns))
  }

  ghost predicate MoreMissingIn(columns: seq<(nat, nat)>, worse: seq<(nat, nat)>) {
    && |worse| == |columns|
    && forall i | 0 <= i < |columns| :: worse[i].0 == columns[i].0 && columns[i].1 <= worse[i].1
  }

  lemma {:induction false} ExaminedMonotone(columns: seq<(nat, nat)>, worse: seq<(nat, nat)>)
    requires MoreMissingIn(columns, worse)
    ensures Examined(worse).0 == Examined(columns).0 && Examined(columns).1 <= Examined(worse).1
  {
    if columns != [] {
      ExaminedMonotone(columns[1..], worse[1..]);
    }
  }

  lemma {:induction false} TotalMonotone(s: seq<nat>, t: seq<nat>)
    requires |s| == |t| && forall i | 0 <= i < |s| :: s[i] <= t[i]
    ensures Total(s) <= Total(t)
  {
    if s != [] {
      TotalMonotone(s[1..], t[1..]);
    }
  }

  lemma CompletenessFalls(p: Profile, worse: Profile, round: real -> real)
    requires Rounds(round) && MoreMissing(p, worse)
    ensures Completeness(Some(worse), round) <= Completeness(Some(p), round)
  {
    if p.rows > 0 && p.columns > 0 {
      if p.missingness.Some? {
        ExaminedMonotone(p.missingness.value.columns, worse.missingness.value.columns);
      }
      TotalMonotone(p.nulls, worse.nulls);
      CompletenessReads(p, round);
      CompletenessReads(worse, round);
      RatioMonotone(Cells(p).1, Cells(worse).1, Cells(p).0);
      ClampMonotone(PresentShare(worse), PresentShare(p), round);
    }
  }

  // ---------------------------------------------------------------------------------------------
  // Validity
  // ---------------------------------------------------------------------------------------------

  ghost function Sum(s: seq<real>): real {
    if s == [] then 0.0 else s[0] + Sum(s[1..])
  }

  lemma {:induction false} SumRealIsSum(s: seq<real>)
    ensures SumReal(s) == Sum(s)
  {
    if |s| == 1 {
      assert s[..0] == [] && s[1..] == [];
    } else if s != [] {
      SumRealIsSum(s[..|s| - 1]);
      SumSnocReal(s[..|s| - 1], s[|s| - 1]);
      assert s == s[..|s| - 1] + [s[|s| - 1]];
    }
  }

  lemma {:induction false} SumSnocReal(s: seq<real>, x: real)
    ensures Sum(s + [x]) == Sum(s) + x
  {
    if s == [] {
      assert s + [x] == [x] && [x][1..] == [];
    } else {
      assert (s + [x])[1..] == s[1..] + [x];
      SumSnocReal(s[1..], x);
    }
  }

  /** The mean pass rate of the business rules, whether the target column is there, and the share of
      texts that are valid: what there is of them. */
  ghost function RulePart(req: Request): Option<real> {
    if req.profile.None? || req.profile.value.rulePassRates == [] then None
    else Some(Sum(req.profile.value.rulePassRates) / |req.profile.value.rulePassRates| as real)
  }

  ghost function TargetPart(req: Request): Option<real> {
    if req.profile.None? || req.profile.value.missingness.None? then None
    else if req.profile.value.missingness.value.targetMissing then Some(0.0) else Some(1.0)
  }

  ghost function TextPart(req: Request): Option<real> {
    if req.text.None? || req.text.value.total == 0 then None else Some(req.text.value.valid as real / req.text.value.total as real)
  }

  ghost function PartCount(req: Request): nat {
    (if RulePart(req).Some? then 1 else 0) + (if TargetPart(req).Some? then 1 else 0) + (if TextPart(req).Some? then 1 else 0)
  }

  ghost function PartSum(req: Request): real {
    (if RulePart(req).Some? then RulePart(req).value else 0.0) + (if TargetPart(req).Some? then TargetPart(req).value else 0.0)
    + (if TextPart(req).Some? then TextPart(req).value else 0.0)
  }

  ghost function Listed(o: Option<real>): seq<real> {
    if o.Some? then [o.value] else []
  }

  lemma ValidityReads(req: Request, round: real -> real)
    ensures Validity(req.profile, req.text, round) ==
            if PartCount(req) == 0 then 1.0 else Clamp01(PartSum(req) / PartCount(req) as real, round)
  {
    var scores := ValidityScores(req.profile, req.text);
    if RulePart(req).Some? {
      SumRealIsSum(req.profile.value.rulePassRates);
    }
    assert scores == Listed(RulePart(req)) + Listed(TargetPart(req)) + Listed(TextPart(req));
    SumOfListed(RulePart(req), TargetPart(req), TextPart(req));
    SumRealIsSum(scores);
  }

  lemma SumOfListed(a: Option<real>, b: Option<real>, c: Option<real>)
    ensures var s := Listed(a) + Listed(b) + Listed(c);
            && |s| == (if a.Some? then 1 else 0) + (if b.Some? then 1 else 0) + (if c.Some? then 1 else 0)
            && Sum(s) == (if a.Some? then a.value else 0.0) + (if b.Some? then b.value else 0.0) + (if c.Some? then c.value else 0.0)
  {
    SumAppendListed([], a);
    SumAppendListed(Listed(a), b);
    SumAppendListed(Listed(a) + Listed(b), c);
    assert [] + Listed(a) == Listed(a);
  }

  lemma SumAppendListed(s: seq<real>, o: Option<real>)
    ensures Sum(s + Listed(o)) == Sum(s) + (if o.Some? then o.value else 0.0)
  {
    if o.Some? {
      SumSnocReal(s, o.value);
    } else {
      assert s + Listed(o) == s;
    }
  }

  /** Validity: 1 if there is nothing to go by, otherwise the mean of the parts there are, rounded. */
  ghost predicate ValidityFits(req: Request, c: real) {
    if PartCount(req) == 0 then c == 1.0 else Reports(c, PartSum(req) / PartCount(req) as real)
  }

  lemma ValidityIs(req: Request, round: real -> real)
    requires Rounds(round)
    ensures ValidityC in ScoreOf(req, round).components
    ensures ValidityFits(req, ScoreOf(req, round).components[ValidityC])
  {
    ReportedIs(req, round, ValidityC);
    ValidityReads(req, round);
    if PartCount(req) > 0 {
      ClampReports(PartSum(req) / PartCount(req) as real, round);
    }
  }

  // ---------------------------------------------------------------------------------------------
  // The other components
  // ---------------------------------------------------------------------------------------------

  /** Share of duplicates among the rows and among the valid texts. */
  ghost function RowDuplicates(req: Request): Option<real> {
    if req.profile.None? || req.profile.value.rows == 0 || req.profile.value.duplicates.None? then None
    else Some(req.profile.value.duplicates.value as real / req.profile.value.rows as real)
  }

  ghost function DuplicateTexts(req: Request): Option<real> {
    if req.text.None? || req.text.value.valid == 0 then None
    else Some(req.text.value.duplicate as real / req.text.value.valid as real)
  }

  /** Uniqueness: one minus the greater share of duplicates, rounded; 1 if nothing was counted. */
  ghost predicate UniquenessFits(req: Request, c: real) {
    var rows, texts := RowDuplicates(req), DuplicateTexts(req);
    && (rows.None? && texts.None? ==> c == 1.0)
    && (rows.Some? && (texts.None? || texts.value <= rows.value) ==> Reports(c, 1.0 - rows.value))
    && (texts.Some? && (rows.None? || rows.value <= texts.value) ==> Reports(c, 1.0 - texts.value))
  }

  lemma UniquenessIs(req: Request, round: real -> real)
    requires Rounds(round)
    ensures UniquenessC in ScoreOf(req, round).components
    ensures UniquenessFits(req, ScoreOf(req, round).components[UniquenessC])
  {
    ReportedIs(req, round, UniquenessC);
    var rows, texts := RowDuplicates(req), DuplicateTexts(req);
    assert rows == ProfileDuplicates(req.profile) && texts == TextDuplicates(req.text);
    ClampReports(1.0, round);
    if rows.Some? {
      ClampReports(1.0 - rows.value, round);
    }
    if texts.Some? {
      ClampReports(1.0 - texts.value, round);
    }
  }

  /** Balance: 1 if classes were not counted, otherwise what was measured, rounded. */
  ghost predicate BalanceFits(req: Request, c: real) {
    if req.profile.None? || req.profile.value.imbalance.None? then c == 1.0 else Reports(c, req.profile.value.imbalance.value.balance)
  }

  lemma BalanceIs(req: Request, round: real -> real)
    requires Rounds(round)
    ensures BalanceC in ScoreOf(req, round).components
    ensures BalanceFits(req, ScoreOf(req, round).components[BalanceC])
  {
    ReportedIs(req, round, BalanceC);
    if req.profile.Some? && req.profile.value.imbalance.Some? {
      ClampReports(req.profile.value.imbalance.value.balance, round);
    }
  }

  /** Privacy safety: 0 under an unmasked-PII blocker, otherwise one minus the share of valid texts with
      personal data that was not redacted. */
  ghost predicate PrivacyFits(req: Request, c: real) {
    if PiiUnmasked in Blockers(req) then c == 0.0
    else
      match req.text
      case None => c == 1.0
      case Some(t) => if t.valid == 0 then c == 1.0 else Reports(c, 1.0 - Unredacted(t) as real / t.valid as real)
  }

  lemma PrivacyIs(req: Request, round: real -> real)
    requires Rounds(round)
    ensures PrivacyC in ScoreOf(req, round).components
    ensures PrivacyFits(req, ScoreOf(req, round).components[PrivacyC])
  {
    ReportedIs(req, round, PrivacyC);
    PrivacyHolds(req, round);
  }

  lemma PrivacyHolds(req: Request, round: real -> real)
    requires Rounds(round)
    ensures PrivacyFits(req, ValueOf(req, PrivacyC, round))
  {
    if req.text.Some? && req.text.value.valid > 0 {
      var t := req.text.value;
      assert PiiUnmasked in Blockers(req) || ValueOf(req, PrivacyC, round) == Clamp01(1.0 - Ratio(Unredacted(t), t.valid), round);
      ClampReports(1.0 - Ratio(Unredacted(t), t.valid), round);
    }
  }

  /** Texts with personal data beyond those that were redacted. */
  ghost function Unredacted(t: TextReport): nat {
    if t.pii > t.redacted then t.pii - t.redacted else 0
  }

  /** Model readiness: 0 on leakage that was found or reported as a blocker; then leakage candidates, for
      which it is 0.3, hide a missing target, for which it would be 0. */
  ghost predicate ReadinessFits(req: Request, c: real) {
    var leaks := req.splitLeakage || SplitLeakage in Blockers(req) || TargetLeakageCandidate in Blockers(req);
    var suspects := req.profile.Some? && req.profile.value.leakageCandidates > 0;
    var noTarget := req.profile.Some? && req.profile.value.missingness.Some? && req.profile.value.missingness.value.targetMissing;
    && (c == 0.0 <==> leaks || (noTarget && !suspects))
    && (c == 0.3 <==> !leaks && suspects)
    && (c == 1.0 <==> !leaks && !suspects && !noTarget)
  }

  lemma ReadinessIs(req: Request, round: real -> real)
    ensures ModelReadinessC in ScoreOf(req, round).components
    ensures ReadinessFits(req, ScoreOf(req, round).components[ModelReadinessC])
  {
    ReportedIs(req, round, ModelReadinessC);
  }

  /** Lineage: the number of the seven fields that are filled in. */
  ghost predicate LineageFits(req: Request, c: real) {
    if req.profile.None? then c == 1.0 else 7.0 * c == |set k | 0 <= k < 7 && req.profile.value.lineage[k]| as real
  }

  lemma LineageIs(req: Request, round: real -> real)
    ensures LineageC in ScoreOf(req, round).components
    ensures LineageFits(req, ScoreOf(req, round).components[LineageC])
  {
    ReportedIs(req, round, LineageC);
    if req.profile.Some? {
      var l := req.profile.value.lineage;
      CountTrueIs(l);
      assert (set k | 0 <= k < |l| && l[k]) == (set k | 0 <= k < 7 && l[k]);
    }
  }

  lemma {:induction false} CountTrueIs(s: seq<bool>)
    ensures CountTrue(s) == |set k | 0 <= k < |s| && s[k]|
  {
    if s != [] {
      var front, n := s[..|s| - 1], |s| - 1;
      CountTrueIs(front);
      var before := set k | 0 <= k < |front| && front[k];
      assert (set k | 0 <= k < |s| && s[k]) == before + (if s[n] then {n} else {});
    }
  }

  // ---------------------------------------------------------------------------------------------
  // Penalties
  // ---------------------------------------------------------------------------------------------

  /** When each penalty applies, by the counts: a twentieth of duplicates is severe, as is a class ten
      times another or a minority of a twentieth. */
  lemma AppliesIff(req: Request)
    ensures Applies(req, UnmaskedPii) <==>
              PiiUnmasked in Blockers(req) || (req.text.Some? && req.text.value.pii > req.text.value.redacted)
    ensures Applies(req, SplitLeakagePenalty) <==> req.splitLeakage || SplitLeakage in Blockers(req)
    ensures Applies(req, TargetLeakage) <==>
              TargetLeakageCandidate in Blockers(req) || (req.profile.Some? && req.profile.value.leakageCandidates > 0)
    ensures Applies(req, SevereDuplicates) <==>
              || (req.profile.Some? && req.profile.value.rows > 0 && req.profile.value.duplicates.Some?
                  && 20 * req.profile.value.duplicates.value >= req.profile.value.rows)
              || (req.text.Some? && req.text.value.valid > 0 && 20 * req.text.value.duplicate >= req.text.value.valid)
    ensures Applies(req, SevereClassImbalance) <==>
              && req.profile.Some? && req.profile.value.imbalance.Some?
              && (req.profile.value.imbalance.value.ratio >= 10.0 || req.profile.value.imbalance.value.minorityShare <= 0.05)
  {
    var p, t := req.profile, req.text;
    if p.Some? && p.value.rows > 0 && p.value.duplicates.Some? {
      TwentiethIff(p.value.duplicates.value, p.value.rows);
    }
    if t.Some? && t.value.valid > 0 {
      TwentiethIff(t.value.duplicate, t.value.valid);
    }
  }

  lemma TwentiethIff(a: nat, n: nat)
    requires n > 0
    ensures Ratio(a, n) >= 0.05 <==> 20 * a >= n
  {
    var q := Ratio(a, n);
    assert q * n as real == a as real;
    if q >= 0.05 {
      ProductMonotone(0.05, q, n as real);
    } else {
      assert (0.05 - q) * n as real > 0.0;
    }
  }

  lemma ProductMonotone(x: real, y: real, n: real)
    requires x <= y && n > 0.0
    ensures x * n <= y * n
  {
    assert (y - x) * n >= 0.0;
  }

  // ---------------------------------------------------------------------------------------------
  // Worse data
  // ---------------------------------------------------------------------------------------------

  /** The same table and texts, with as many findings or more: cells missing, rules broken, duplicates,
      imbalance, leakage candidates, lineage gaps. */
  ghost predicate GraverProfile(p: Profile, worse: Profile) {
    && MoreMissing(p, worse)
    && (p.missingness.Some? && p.missingness.value.targetMissing ==> worse.missingness.value.targetMissing)
    && |worse.rulePassRates| == |p.rulePassRates|
    && (forall i | 0 <= i < |p.rulePassRates| :: worse.rulePassRates[i] <= p.rulePassRates[i])
    && worse.duplicates.Some? == p.duplicates.Some?
    && (p.duplicates.Some? ==> p.duplicates.value <= worse.duplicates.value)
    && worse.imbalance.Some? == p.imbalance.Some?
    && (p.imbalance.Some? ==>
          && worse.imbalance.value.balance <= p.imbalance.value.balance && worse.imbalance.value.ratio >= p.imbalance.value.ratio
          && worse.imbalance.value.minorityShare <= p.imbalance.value.minorityShare)
    && p.leakageCandidates <= worse.leakageCandidates
    && (forall k | 0 <= k < 7 :: worse.lineage[k] ==> p.lineage[k])
  }

  ghost predicate GraverText(t: TextReport, worse: TextReport) {
    && worse.total == t.total && worse.valid == t.valid && t.duplicate <= worse.duplicate
    && t.pii <= worse.pii && worse.redacted <= t.redacted
  }

  ghost predicate Graver(req: Request, worse: Request) {
    && worse.profile.Some? == req.profile.Some? && (req.profile.Some? ==> GraverProfile(req.profile.value, worse.profile.value))
    && worse.text.Some? == req.text.Some? && (req.text.Some? ==> GraverText(req.text.value, worse.text.value))
    && Blockers(req) <= Blockers(worse) && (req.splitLeakage ==> worse.splitLeakage)
  }

  lemma {:induction false} SumMonotone(s: seq<real>, t: seq<real>)
    requires |s| == |t| && forall i | 0 <= i < |s| :: s[i] <= t[i]
    ensures Sum(s) <= Sum(t)
  {
    if s != [] {
      SumMonotone(s[1..], t[1..]);
    }
  }

  lemma ValidityFalls(req: Request, worse: Request, round: real -> real)
    requires Rounds(round) && Graver(req, worse)
    ensures Validity(worse.profile, worse.text, round) <= Validity(req.profile, req.text, round)
  {
    ValidityReads(req, round);
    ValidityReads(worse, round);
    PartsFall(req, worse);
    if PartCount(req) > 0 {
      QuotientMonotone(PartSum(worse), PartSum(req), PartCount(req) as real);
      ClampMonotone(PartSum(worse) / PartCount(req) as real, PartSum(req) / PartCount(req) as real, round);
    }
  }

  lemma PartsFall(req: Request, worse: Request)
    requires Graver(req, worse)
    ensures PartCount(worse) == PartCount(req) && PartSum(worse) <= PartSum(req)
  {
    if RulePart(req).Some? {
      var s, t := worse.profile.value.rulePassRates, req.profile.value.rulePassRates;
      SumMonotone(s, t);
      QuotientMonotone(Sum(s), Sum(t), |s| as real);
      assert RulePart(worse).Some? && RulePart(worse).value <= RulePart(req).value;
    }
    assert TextPart(worse) == TextPart(req);
    assert TargetPart(worse).Some? == TargetPart(req).Some?;
  }

  lemma UniquenessFalls(req: Request, worse: Request, round: real -> real)
    requires Rounds(round) && Graver(req, worse)
    ensures Uniqueness(worse.profile, worse.text, round) <= Uniqueness(req.profile, req.text, round)
  {
    var a, b := ProfileDuplicates(req.profile), TextDuplicates(req.text);
    var c, d := ProfileDuplicates(worse.profile), TextDuplicates(worse.text);
    if a.Some? {
      RatioMonotone(req.profile.value.duplicates.value, worse.profile.value.duplicates.value, req.profile.value.rows);
    }
    if b.Some? {
      RatioMonotone(req.text.value.duplicate, worse.text.value.duplicate, req.text.value.valid);
    }
    var before := if a.Some? && (b.None? || a.value >= b.value) then a.value else if b.Some? then b.value else 0.0;
    var after := if c.Some? && (d.None? || c.value >= d.value) then c.value else if d.Some? then d.value else 0.0;
    ClampMonotone(1.0 - after, 1.0 - before, round);
  }

  lemma PrivacyFalls(req: Request, worse: Request, round: real -> real)
    requires Rounds(round) && Graver(req, worse)
    ensures ValueOf(worse, PrivacyC, round) <= ValueOf(req, PrivacyC, round)
  {
    if PiiUnmasked !in Blockers(worse) && req.text.Some? && req.text.value.valid > 0 {
      var s, t := req.text.value, worse.text.value;
      var before := if s.pii > s.redacted then s.pii - s.redacted else 0;
      var after := if t.pii > t.redacted then t.pii - t.redacted else 0;
      RatioMonotone(before, after, s.valid);
      ClampMonotone(1.0 - Ratio(after, s.valid), 1.0 - Ratio(before, s.valid), round);
    }
  }

  lemma {:induction false} CountTrueMonotone(s: seq<bool>, t: seq<bool>)
    requires |s| == |t| && forall k | 0 <= k < |s| :: s[k] ==> t[k]
    ensures CountTrue(s) <= CountTrue(t)
  {
    if s != [] {
      CountTrueMonotone(s[..|s| - 1], t[..|t| - 1]);
    }
  }

  lemma BalanceAndLineageFall(req: Request, worse: Request, round: real -> real)
    requires Rounds(round) && Graver(req, worse)
    ensures ValueOf(worse, BalanceC, round) <= ValueOf(req, BalanceC, round)
    ensures ValueOf(worse, LineageC, round) <= ValueOf(req, LineageC, round)
  {
    if req.profile.Some? {
      var p, q := req.profile.value, worse.profile.value;
      CountTrueMonotone(q.lineage, p.lineage);
      RatioMonotone(CountTrue(q.lineage), CountTrue(p.lineage), 7);
      if p.imbalance.Some? {
        ClampMonotone(q.imbalance.value.balance, p.imbalance.value.balance, round);
      }
    }
  }

  /** Model readiness alone can rise: the first leakage candidate lifts it from 0 to 0.3 if the target
      is missing.  The penalty that comes with it costs more. */
  lemma ModelReadinessPaysForLeakage(req: Request, worse: Request, round: real -> real)
    requires Graver(req, worse)
    ensures 15.0 * ValueOf(worse, ModelReadinessC, round) + Deduction(worse, TargetLeakage) <=
            15.0 * ValueOf(req, ModelReadinessC, round) + Deduction(req, TargetLeakage)
  {
  }

  lemma LeakageCanRaiseReadiness(p: Profile, round: real -> real)
    requires p.missingness.Some? && p.missingness.value.targetMissing && p.leakageCandidates == 0
    ensures var req, worse := Request(Some(p), None, None, false), Request(Some(p.(leakageCandidates := 1)), None, None, false);
            Graver(req, worse) && ValueOf(req, ModelReadinessC, round) < ValueOf(worse, ModelReadinessC, round)
  {
    assert MoreMissing(p, p.(leakageCandidates := 1));
  }

  lemma OtherDeductionsGrow(req: Request, worse: Request)
    requires Graver(req, worse)
    ensures forall c | c != TargetLeakage :: Deduction(worse, c) <= Deduction(req, c)
  {
    AppliesIff(req);
    AppliesIff(worse);
  }

  /** Worse data never scores higher: with more cells missing, fewer rules kept, more duplicates, more
      personal data left, less balance, more leakage, more gaps in the lineage or more blockers, the
      reported raw score is no greater. */
  lemma GraverNeverScoresHigher(req: Request, worse: Request, round: real -> real)
    requires Rounds(round) && Graver(req, worse)
    ensures RawScore(worse, round) <= RawScore(req, round)
    ensures ScoreOf(worse, round).raw <= ScoreOf(req, round).raw && ScoreOf(worse, round).value <= ScoreOf(req, round).value
  {
    if req.profile.Some? {
      CompletenessFalls(req.profile.value, worse.profile.value, round);
    }
    ValidityFalls(req, worse, round);
    UniquenessFalls(req, worse, round);
    PrivacyFalls(req, worse, round);
    BalanceAndLineageFall(req, worse, round);
    ModelReadinessPaysForLeakage(req, worse, round);
    OtherDeductionsGrow(req, worse);
    RawScoreFalls(req, worse, round);
    assert round(RawScore(worse, round)) <= round(RawScore(req, round));
    assert round(RawScore(worse, round) / 100.0) <= round(RawScore(req, round) / 100.0);
  }

  lemma RawScoreFalls(req: Request, worse: Request, round: real -> real)
    requires forall c | c != ModelReadinessC :: ValueOf(worse, c, round) <= ValueOf(req, c, round)
    requires forall c | c != TargetLeakage :: Deduction(worse, c) <= Deduction(req, c)
    requires 15.0 * ValueOf(worse, ModelReadinessC, round) + Deduction(worse, TargetLeakage) <=
             15.0 * ValueOf(req, ModelReadinessC, round) + Deduction(req, TargetLeakage)
    ensures RawScore(worse, round) <= RawScore(req, round)
  {
    UnclampedInFull(req, round);
    UnclampedInFull(worse, round);
  }

  // ---------------------------------------------------------------------------------------------
  // The sum
  // ---------------------------------------------------------------------------------------------

  ghost predicate Charged(s: Score, c: PenaltyCode) {
    HasCode(s.penalties, c)
  }

  ghost predicate HasCode(ps: seq<Penalty>, c: PenaltyCode) {
    exists i | 0 <= i < |ps| :: ps[i].code == c
  }

  ghost function Charge(s: Score, c: PenaltyCode, amount: real): real {
    if Charged(s, c) then amount else 0.0
  }

  /** The reported score is that of its reported components and penalties. */
  ghost predicate AddsUp(s: Score, round: real -> real)
    requires forall c: Component :: c in s.weighted
  {
    && Reported(s) <= 100.0
    && s.raw == round(if Reported(s) < 0.0 then 0.0 else Reported(s))
    && s.value == round(if Reported(s) < 0.0 then 0.0 else Reported(s) / 100.0)
  }

  /** Every component is reported, and weighted as published. */
  ghost predicate Weighs(s: Score) {
    && (forall c: Component :: c in s.components && c in s.weights && c in s.weighted)
    && s.weights[CompletenessC] == 0.15 && s.weighted[CompletenessC] == 0.15 * s.components[CompletenessC]
    && s.weights[ValidityC] == 0.15 && s.weighted[ValidityC] == 0.15 * s.components[ValidityC]
    && s.weights[UniquenessC] == 0.12 && s.weighted[UniquenessC] == 0.12 * s.components[UniquenessC]
    && s.weights[BalanceC] == 0.15 && s.weighted[BalanceC] == 0.15 * s.components[BalanceC]
    && s.weights[PrivacyC] == 0.18 && s.weighted[PrivacyC] == 0.18 * s.components[PrivacyC]
    && s.weights[ModelReadinessC] == 0.15 && s.weighted[ModelReadinessC] == 0.15 * s.components[ModelReadinessC]
    && s.weights[LineageC] == 0.10 && s.weighted[LineageC] == 0.10 * s.components[LineageC]
  }

  ghost function Reported(s: Score): real
    requires forall c: Component :: c in s.weighted
  {
    100.0 * (s.weighted[CompletenessC] + s.weighted[ValidityC] + s.weighted[UniquenessC] + s.weighted[BalanceC]
             + s.weighted[PrivacyC] + s.weighted[ModelReadinessC] + s.weighted[LineageC])
    + Charge(s, UnmaskedPii, -30.0) + Charge(s, SplitLeakagePenalty, -40.0) + Charge(s, TargetLeakage, -25.0)
    + Charge(s, SevereDuplicates, -10.0) + Charge(s, SevereClassImbalance, -10.0)
  }

  lemma ScoreAddsUp(req: Request, round: real -> real)
    ensures AddsUp(ScoreOf(req, round), round)
  {
    UnclampedIsReported(req, round);
    RoundedFields(req, round, Unclamped(req, round));
  }

  lemma RoundedFields(req: Request, round: real -> real, x: real)
    requires x == Unclamped(req, round)
    ensures x <= 100.0
    ensures ScoreOf(req, round).raw == round(if x < 0.0 then 0.0 else x)
    ensures ScoreOf(req, round).value == round(if x < 0.0 then 0.0 else x / 100.0)
  {
    RawScoreBounds(req, round);
    assert RawScore(req, round) == if x < 0.0 then 0.0 else x;
  }

  lemma ScoreWeighs(req: Request, round: real -> real)
    ensures Weighs(ScoreOf(req, round))
  {
    WeightedInFull(req, round);
    ComponentsInFull(req, round);
  }

  lemma ComponentsInFull(req: Request, round: real -> real)
    ensures var s := ScoreOf(req, round);
            && (forall c: Component :: c in s.components && c in s.weights && c in s.weighted)
            && (forall c: Component :: s.components[c] == ValueOf(req, c, round) && s.weights[c] == Weight(c))
  {
  }

  lemma UnclampedIsReported(req: Request, round: real -> real)
    ensures Reported(ScoreOf(req, round)) == Unclamped(req, round)
  {
    var s := ScoreOf(req, round);
    UnclampedInFull(req, round);
    WeightedInFull(req, round);
    forall c: PenaltyCode ensures Charged(s, c) <==> Applies(req, c) {
      ListedIff(req, round, c);
    }
    assert Charge(s, UnmaskedPii, -30.0) == Deduction(req, UnmaskedPii);
    assert Charge(s, SplitLeakagePenalty, -40.0) == Deduction(req, SplitLeakagePenalty);
    assert Charge(s, TargetLeakage, -25.0) == Deduction(req, TargetLeakage);
    assert Charge(s, SevereDuplicates, -10.0) == Deduction(req, SevereDuplicates);
    assert Charge(s, SevereClassImbalance, -10.0) == Deduction(req, SevereClassImbalance);
  }

  lemma WeightedInFull(req: Request, round: real -> real)
    ensures var w := ScoreOf(req, round).weighted;
            && w[CompletenessC] == 0.15 * ValueOf(req, CompletenessC, round) && w[ValidityC] == 0.15 * ValueOf(req, ValidityC, round)
            && w[UniquenessC] == 0.12 * ValueOf(req, UniquenessC, round) && w[BalanceC] == 0.15 * ValueOf(req, BalanceC, round)
            && w[PrivacyC] == 0.18 * ValueOf(req, PrivacyC, round) && w[ModelReadinessC] == 0.15 * ValueOf(req, ModelReadinessC, round)
            && w[LineageC] == 0.10 * ValueOf(req, LineageC, round)
  {
  }

  /** When the engine takes up a penalty. */
  ghost function Turn(c: PenaltyCode): nat {
    match c
    case UnmaskedPii => 0
    case SplitLeakagePenalty => 1
    case TargetLeakage => 2
    case SevereDuplicates => 3
    case SevereClassImbalance => 4
  }

  ghost predicate Priced(p: Penalty) {
    p.value == match p.code
               case UnmaskedPii => -30.0
               case SplitLeakagePenalty => -40.0
               case TargetLeakage => -25.0
               case SevereDuplicates => -10.0
               case SevereClassImbalance => -10.0
  }

  /** The penalties listed are those that apply, at their price and in the engine's order. */
  lemma PenaltiesAre(req: Request, round: real -> real)
    ensures forall c :: Applies(req, c) <==> Charged(ScoreOf(req, round), c)
    ensures InTurn(ScoreOf(req, round).penalties, 5)
  {
    forall c ensures Applies(req, c) <==> Charged(ScoreOf(req, round), c) {
      ListedIff(req, round, c);
    }
    assert ENGINE_ORDER == [UnmaskedPii, SplitLeakagePenalty, TargetLeakage, SevereDuplicates, SevereClassImbalance];
    forall k | 0 <= k < 5 ensures Turn(ENGINE_ORDER[k]) == k {
    }
    PenaltiesInOrder(ENGINE_ORDER, req);
  }

  /** Each at its price, and each before those whose turn comes later. */
  ghost predicate InTurn(ps: seq<Penalty>, bound: nat) {
    && (forall i | 0 <= i < |ps| :: Priced(ps[i]) && Turn(ps[i].code) < bound)
    && forall i, j | 0 <= i < j < |ps| :: Turn(ps[i].code) < Turn(ps[j].code)
  }

  lemma {:induction false} PenaltiesInOrder(codes: seq<PenaltyCode>, req: Request)
    requires forall k | 0 <= k < |codes| :: Turn(codes[k]) == k
    ensures InTurn(Penalties(codes, req), |codes|)
  {
    if codes != [] {
      var front, last := codes[..|codes| - 1], codes[|codes| - 1];
      assert forall k | 0 <= k < |front| :: front[k] == codes[k];
      PenaltiesInOrder(front, req);
      assert Turn(last) == |front| && Priced(Penalty(last, Amount(last)));
    }
  }

  lemma ListedIff(req: Request, round: real -> real, c: PenaltyCode)
    ensures Charged(ScoreOf(req, round), c) <==> Applies(req, c)
  {
    EveryCodeIsApplied(c);
    ListedIn(ENGINE_ORDER, req, c);
  }

  lemma {:induction false} ListedIn(codes: seq<PenaltyCode>, req: Request, c: PenaltyCode)
    ensures HasCode(Penalties(codes, req), c) <==> c in codes && Applies(req, c)
  {
    if codes != [] {
      var front, last := codes[..|codes| - 1], codes[|codes| - 1];
      ListedIn(front, req, c);
      assert codes == front + [last];
      var before, all := Penalties(front, req), Penalties(codes, req);
      assert all == before + (if Applies(req, last) then [Penalty(last, Amount(last))] else []);
      if HasCode(all, c) {
        var i :| 0 <= i < |all| && all[i].code == c;
        assert i < |before| ==> before[i] == all[i];
      }
      if HasCode(before, c) {
        var i :| 0 <= i < |before| && before[i].code == c;
        assert all[i].code == c;
      } else if c in codes && Applies(req, c) {
        assert all[|before|].code == c;
      }
    }
  }

  /** The reasons are the names of the penalties and the codes of the decision. */
  lemma ReasonCodesAre(req: Request, round: real -> real, code: string)
    ensures var s := ScoreOf(req, round);
            code in s.reasonCodes <==>
              || code in DecisionCodes(req)
              || (code == "unmasked_pii" && Applies(req, UnmaskedPii))
              || (code == "split_leakage" && Applies(req, SplitLeakagePenalty))
              || (code == "target_leakage_candidate" && Applies(req, TargetLeakage))
              || (code == "severe_duplicates" && Applies(req, SevereDuplicates))
              || (code == "severe_class_imbalance" && Applies(req, SevereClassImbalance))
  {
    var ps := ScoreOf(req, round).penalties;
    var texts := PenaltyTexts(ps);
    assert forall i | 0 <= i < |ps| :: texts[i] == ps[i].code.Text();
    forall c ensures Charged(ScoreOf(req, round), c) <==> Applies(req, c) {
      ListedIff(req, round, c);
    }
    forall c | Applies(req, c) ensures c.Text() in texts {
      var i :| 0 <= i < |ps| && ps[i].code == c;
      assert texts[i] == c.Text();
    }
    if code in texts {
      var i :| 0 <= i < |texts| && texts[i] == code;
      assert Charged(ScoreOf(req, round), ps[i].code) && ps[i].code.Text() == code;
    }
    TextsAre(req, code);
    assert code in texts <==> NamesPenalty(req, code);
  }

  ghost predicate NamesPenalty(req: Request, code: string) {
    exists c: PenaltyCode :: Applies(req, c) && c.Text() == code
  }

  lemma TextsAre(req: Request, code: string)
    ensures NamesPenalty(req, code) <==>
              || (code == "unmasked_pii" && Applies(req, UnmaskedPii))
              || (code == "split_leakage" && Applies(req, SplitLeakagePenalty))
              || (code == "target_leakage_candidate" && Applies(req, TargetLeakage))
              || (code == "severe_duplicates" && Applies(req, SevereDuplicates))
              || (code == "severe_class_imbalance" && Applies(req, SevereClassImbalance))
  {
    assert UnmaskedPii.Text() == "unmasked_pii" && SplitLeakagePenalty.Text() == "split_leakage";
    assert TargetLeakage.Text() == "target_leakage_candidate" && SevereDuplicates.Text() == "severe_duplicates";
    assert SevereClassImbalance.Text() == "severe_class_imbalance";
  }

  // ---------------------------------------------------------------------------------------------
  // The rows of a comparison
  // ---------------------------------------------------------------------------------------------

  ghost predicate RowFor(row: ComponentDiff, a: Score, b: Score) {
    var c := row.name;
    && (c in a.components || c in b.components)
    && (c in a.components ==> row.before == a.components[c]) && (c !in a.components ==> row.before == 0.0)
    && (c in b.components ==> row.after == b.components[c]) && (c !in b.components ==> row.after == row.before)
    && (c in a.weights ==> row.weight == a.weights[c])
    && (c !in a.weights ==> row.weight == if c in b.weights then b.weights[c] else 0.0)
    && (c in a.weighted ==> row.weightedBefore == a.weighted[c]) && (c !in a.weighted ==> row.weightedBefore == row.before * row.weight)
    && (c in b.weighted ==> row.weightedAfter == b.weighted[c]) && (c !in b.weighted ==> row.weightedAfter == row.after * row.weight)
    && row.delta == row.after - row.before
  }

  /** The value of the last penalty with this code. */
  ghost predicate Carries(s: Score, c: PenaltyCode, value: real) {
    exists i | 0 <= i < |s.penalties| ::
      s.penalties[i] == Penalty(c, value) && forall j | i < j < |s.penalties| :: s.penalties[j].code != c
  }

  ghost predicate PenaltyRowFor(row: PenaltyDiff, a: Score, b: Score) {
    && (row.appliedBefore <==> Charged(a, row.code)) && (row.appliedAfter <==> Charged(b, row.code))
    && (row.appliedBefore || row.appliedAfter)
    && (if row.appliedBefore then Carries(a, row.code, row.before) else row.before == 0.0)
    && (if row.appliedAfter then Carries(b, row.code, row.after) else row.after == 0.0)
  }

  /** The rows of a comparison: one for each component that either score has, in alphabetical order, and
      one for each penalty that either score carries. */
  lemma DiffIs(a: Score, b: Score)
    ensures ComponentRows(Diff(a, b).components, a, b) && PenaltyRowsOf(Diff(a, b).penalties, a, b)
    ensures var d := Diff(a, b);
            && d.rawBefore == a.raw && d.rawAfter == b.raw && d.rawDelta == b.raw - a.raw
            && d.valueBefore == a.value && d.valueAfter == b.value && d.valueDelta == b.value - a.value
            && d.readinessBefore == a.readiness && d.readinessAfter == b.readiness
  {
    AlphabeticalOrder();
    RowsAre(COMPONENTS, a, b);
    PenaltyRowsAre(PENALTY_CODES, a, b);
  }

  lemma AlphabeticalOrder()
    ensures forall k | 0 <= k < 7 :: Alphabetical(COMPONENTS[k]) == k
    ensures forall k | 0 <= k < 5 :: AlphabeticalCode(PENALTY_CODES[k]) == k
    ensures |COMPONENTS| == 7 && forall c: Component :: c in COMPONENTS
    ensures |PENALTY_CODES| == 5 && forall c: PenaltyCode :: c in PENALTY_CODES
  {
    forall c: Component ensures c in COMPONENTS {
      assert COMPONENTS[Alphabetical(c)] == c;
    }
    forall c: PenaltyCode ensures c in PENALTY_CODES {
      assert PENALTY_CODES[AlphabeticalCode(c)] == c;
    }
  }

  ghost predicate ComponentRows(rows: seq<ComponentDiff>, a: Score, b: Score) {
    && (forall i | 0 <= i < |rows| :: RowFor(rows[i], a, b))
    && (forall c: Component :: c in a.components || c in b.components ==> Named(rows, c))
    && (forall i, j | 0 <= i < j < |rows| :: Alphabetical(rows[i].name) < Alphabetical(rows[j].name))
  }

  ghost predicate PenaltyRowsOf(rows: seq<PenaltyDiff>, a: Score, b: Score) {
    && (forall i | 0 <= i < |rows| :: PenaltyRowFor(rows[i], a, b))
    && (forall c :: Charged(a, c) || Charged(b, c) ==> HasRow(rows, c))
    && (forall i, j | 0 <= i < j < |rows| :: AlphabeticalCode(rows[i].code) < AlphabeticalCode(rows[j].code))
  }

  ghost function Alphabetical(c: Component): nat {
    match c
    case BalanceC => 0
    case CompletenessC => 1
    case LineageC => 2
    case ModelReadinessC => 3
    case PrivacyC => 4
    case UniquenessC => 5
    case ValidityC => 6
  }

  ghost function AlphabeticalCode(c: PenaltyCode): nat {
    match c
    case SevereClassImbalance => 0
    case SevereDuplicates => 1
    case SplitLeakagePenalty => 2
    case TargetLeakage => 3
    case UnmaskedPii => 4
  }

  lemma DiffRowFor(a: Score, b: Score, c: Component)
    requires c in a.components || c in b.components
    ensures RowFor(DiffOf(a, b, c), a, b)
  {
  }

  lemma {:induction false} RowsAre(cs: seq<Component>, a: Score, b: Score)
    requires forall k | 0 <= k < |cs| :: Alphabetical(cs[k]) == k
    ensures RowsFor(Rows(cs, a, b), cs, a, b)
  {
    if cs != [] {
      var front, last := cs[..|cs| - 1], cs[|cs| - 1];
      assert forall k | 0 <= k < |front| :: front[k] == cs[k];
      RowsAre(front, a, b);
      assert cs == front + [last] && Alphabetical(last) == |front|;
      var before, rows := Rows(front, a, b), Rows(cs, a, b);
      if last in a.components || last in b.components {
        DiffRowFor(a, b, last);
        assert rows == before + [DiffOf(a, b, last)];
        RowAdded(before, front, DiffOf(a, b, last), a, b);
      } else {
        assert rows == before;
      }
    }
  }

  lemma RowAdded(rows: seq<ComponentDiff>, cs: seq<Component>, row: ComponentDiff, a: Score, b: Score)
    requires RowsFor(rows, cs, a, b) && RowFor(row, a, b) && Alphabetical(row.name) == |cs|
    ensures RowsFor(rows + [row], cs + [row.name], a, b)
  {
    var all := rows + [row];
    forall i | 0 <= i < |all| ensures RowFor(all[i], a, b) && Alphabetical(all[i].name) <= |cs| {
      if i < |rows| {
        assert all[i] == rows[i] && RowFor(rows[i], a, b);
      }
    }
    forall c | c in cs + [row.name] && (c in a.components || c in b.components) ensures Named(all, c) {
      if c in cs {
        assert Named(rows, c);
        var i :| 0 <= i < |rows| && rows[i].name == c;
        assert all[i].name == c;
      } else {
        assert all[|rows|].name == c;
      }
    }
    forall i, j | 0 <= i < j < |all| ensures Alphabetical(all[i].name) < Alphabetical(all[j].name) {
      assert all[i] == rows[i] && Alphabetical(rows[i].name) < |cs|;
      assert j < |rows| ==> all[j] == rows[j];
    }
  }

  /** The rows of the components listed. */
  ghost predicate RowsFor(rows: seq<ComponentDiff>, cs: seq<Component>, a: Score, b: Score) {
    && (forall i | 0 <= i < |rows| :: RowFor(rows[i], a, b))
    && (forall i | 0 <= i < |rows| :: Alphabetical(rows[i].name) < |cs|)
    && (forall c | c in cs && (c in a.components || c in b.components) :: Named(rows, c))
    && (forall i, j | 0 <= i < j < |rows| :: Alphabetical(rows[i].name) < Alphabetical(rows[j].name))
  }

  ghost predicate Named(rows: seq<ComponentDiff>, c: Component) {
    exists i | 0 <= i < |rows| :: rows[i].name == c
  }

  lemma {:induction false} LookUpIs(ps: seq<Penalty>, c: PenaltyCode)
    ensures LookUp(ps, c).None? <==> forall i | 0 <= i < |ps| :: ps[i].code != c
    ensures LookUp(ps, c).Some? ==>
              exists i | 0 <= i < |ps| ::
                ps[i] == Penalty(c, LookUp(ps, c).value) && forall j | i < j < |ps| :: ps[j].code != c
  {
    if ps != [] && ps[|ps| - 1].code != c {
      var front := ps[..|ps| - 1];
      LookUpIs(front, c);
      if LookUp(front, c).Some? {
        var i :| 0 <= i < |front| && front[i] == Penalty(c, LookUp(front, c).value) && forall j | i < j < |front| :: front[j].code != c;
        assert ps[i] == front[i];
        assert forall j | i < j < |front| :: ps[j] == front[j];
      }
    }
  }

  lemma PenaltyRowIs(a: Score, b: Score, c: PenaltyCode)
    ensures LookUp(a.penalties, c).Some? <==> Charged(a, c)
    ensures LookUp(b.penalties, c).Some? <==> Charged(b, c)
    ensures Charged(a, c) || Charged(b, c) ==> PenaltyRowFor(PenaltyDiffOf(a, b, c), a, b)
  {
    LookUpIs(a.penalties, c);
    LookUpIs(b.penalties, c);
  }

  lemma {:induction false} PenaltyRowsAre(codes: seq<PenaltyCode>, a: Score, b: Score)
    requires forall k | 0 <= k < |codes| :: AlphabeticalCode(codes[k]) == k
    ensures PenaltyRowsFor(PenaltyRows(codes, a, b), codes, a, b)
  {
    if codes != [] {
      var front, last := codes[..|codes| - 1], codes[|codes| - 1];
      assert forall k | 0 <= k < |front| :: front[k] == codes[k];
      PenaltyRowsAre(front, a, b);
      PenaltyRowIs(a, b, last);
      assert codes == front + [last] && AlphabeticalCode(last) == |front|;
      var before, rows := PenaltyRows(front, a, b), PenaltyRows(codes, a, b);
      if Charged(a, last) || Charged(b, last) {
        assert rows == before + [PenaltyDiffOf(a, b, last)];
        PenaltyRowAdded(before, front, PenaltyDiffOf(a, b, last), a, b);
      } else {
        assert rows == before;
      }
    }
  }

  lemma PenaltyRowAdded(rows: seq<PenaltyDiff>, codes: seq<PenaltyCode>, row: PenaltyDiff, a: Score, b: Score)
    requires PenaltyRowsFor(rows, codes, a, b) && PenaltyRowFor(row, a, b) && AlphabeticalCode(row.code) == |codes|
    ensures PenaltyRowsFor(rows + [row], codes + [row.code], a, b)
  {
    var all := rows + [row];
    forall i | 0 <= i < |all| ensures PenaltyRowFor(all[i], a, b) && AlphabeticalCode(all[i].code) <= |codes| {
      if i < |rows| {
        assert all[i] == rows[i] && PenaltyRowFor(rows[i], a, b);
      }
    }
    forall c | c in codes + [row.code] && (Charged(a, c) || Charged(b, c)) ensures HasRow(all, c) {
      if c in codes {
        assert HasRow(rows, c);
        var i :| 0 <= i < |rows| && rows[i].code == c;
        assert all[i].code == c;
      } else {
        assert all[|rows|].code == c;
      }
    }
    forall i, j | 0 <= i < j < |all| ensures AlphabeticalCode(all[i].code) < AlphabeticalCode(all[j].code) {
      assert all[i] == rows[i] && AlphabeticalCode(rows[i].code) < |codes|;
      assert j < |rows| ==> all[j] == rows[j];
    }
  }

  ghost predicate PenaltyRowsFor(rows: seq<PenaltyDiff>, codes: seq<PenaltyCode>, a: Score, b: Score) {
    && (forall i | 0 <= i < |rows| :: PenaltyRowFor(rows[i], a, b))
    && (forall i | 0 <= i < |rows| :: AlphabeticalCode(rows[i].code) < |codes|)
    && (forall c | c in codes && (Charged(a, c) || Charged(b, c)) :: HasRow(rows, c))
    && (forall i, j | 0 <= i < j < |rows| :: AlphabeticalCode(rows[i].code) < AlphabeticalCode(rows[j].code))
  }

  ghost predicate HasRow(rows: seq<PenaltyDiff>, c: PenaltyCode) {
    exists i | 0 <= i < |rows| :: rows[i].code == c
  }
}
