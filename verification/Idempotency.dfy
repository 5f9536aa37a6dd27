/** Job idempotency keys (app/kernel/idempotency.py). */
module Idempotency {
  import opened Basics
  import opened Domain
  import opened Ordering

  datatype Pin = Pin(pluginId: string, pluginVersion: string, algorithmName: string, algorithmVersion: string)
  {
    function SortKey(): seq<string> {
      [pluginId, algorithmName, pluginVersion, algorithmVersion]
    }
  }

  datatype AnalyzeInputs = AnalyzeInputs(
    organization: string, project: string, dataset: string, version: string, inputs: seq<string>,
    predictions: seq<string>, configHash: string, contractPack: string, pins: seq<Pin>)

  /** The policy versions come as a mapping, listed in some order with each name once. */
  datatype ApplyInputs = ApplyInputs(
    organization: string, project: string, dataset: string, source: string, proposedName: string, planHash: string,
    inputs: seq<string>, predictions: seq<string>, configHash: string, contractPack: string,
    policies: seq<(string, string)>, stepKeys: seq<string>, pins: seq<Pin>)

  /** What is encoded and hashed; an ANALYZE payload has no entry for the last three fields. */
  datatype Payload = Payload(
    workflow: WorkflowType, scope: seq<string>, inputs: seq<string>, predictions: seq<string>, configHash: string,
    contractPack: string, pins: seq<Pin>, planHash: Option<string>, policies: Option<seq<(string, string)>>,
    stepKeys: Option<seq<string>>)

  predicate PinLe(a: Pin, b: Pin) {
    TupleLe(a.SortKey(), b.SortKey())
  }

  predicate EntryLe(a: (string, string), b: (string, string)) {
    TupleLe([a.0, a.1], [b.0, b.1])
  }

  function SortedUnique(values: seq<string>): seq<string> {
    Sort(StringLe, OrderedUnique(NonEmpty(values)))
  }

  function NormalizePins(pins: seq<Pin>): seq<Pin> {
    Sort(PinLe, pins)
  }

  function OrderedDict(entries: seq<(string, string)>): seq<(string, string)> {
    Sort(EntryLe, entries)
  }

  function AnalyzePayload(i: AnalyzeInputs): Payload {
    Payload(AnalyzeOnly, [i.organization, i.project, i.dataset, i.version], SortedUnique(i.inputs),
            SortedUnique(i.predictions), i.configHash, i.contractPack, NormalizePins(i.pins), None, None, None)
  }

  function ApplyPayload(i: ApplyInputs): Payload {
    Payload(ApplySelectedActions, [i.organization, i.project, i.dataset, i.source, i.proposedName],
            SortedUnique(i.inputs), SortedUnique(i.predictions), i.configHash, i.contractPack, NormalizePins(i.pins),
            Some(i.planHash), Some(OrderedDict(i.policies)), Some(i.stepKeys))
  }

  type Digest = Payload -> string

  function AnalyzeKey(digest: Digest, i: AnalyzeInputs): string {
    digest(AnalyzePayload(i))
  }

  function ApplyKey(digest: Digest, i: ApplyInputs): string {
    digest(ApplyPayload(i))
  }

  // ---------------------------------------------------------------------------------------------
  // Canonical forms
  // ---------------------------------------------------------------------------------------------

  lemma PinOrder()
    ensures IsTotalOrder(PinLe)
  {
    TupleOrder();
    forall a, b | PinLe(a, b) && PinLe(b, a) ensures a == b {
      var s, t := a.SortKey(), b.SortKey();
      assert s == t;
      assert s[0] == t[0] && s[1] == t[1] && s[2] == t[2] && s[3] == t[3];
    }
  }

  lemma EntryOrder()
    ensures IsTotalOrder(EntryLe)
  {
    TupleOrder();
    forall a, b | EntryLe(a, b) && EntryLe(b, a) ensures a == b {
      var s, t := [a.0, a.1], [b.0, b.1];
      assert s == t;
      assert s[0] == t[0] && s[1] == t[1];
    }
  }

  ghost function ElementsOf(values: seq<string>): set<string> {
    set x | x in values && x != ""
  }

  lemma DistinctListsAgreeIff<T(!new)>(s: seq<T>, t: seq<T>)
    requires NoDuplicates(s) && NoDuplicates(t)
    ensures multiset(s) == multiset(t) <==> forall x :: x in s <==> x in t
  {
    forall x ensures multiset(s)[x] == (if x in s then 1 else 0) && multiset(t)[x] == (if x in t then 1 else 0) {
      CountInDistinct(s, x);
      CountInDistinct(t, x);
    }
    if multiset(s) == multiset(t) {
      forall x ensures x in s <==> x in t {
        assert x in s <==> multiset(s)[x] > 0;
      }
    }
  }

  lemma {:induction false} CountInDistinct<T>(s: seq<T>, x: T)
    requires NoDuplicates(s)
    ensures multiset(s)[x] == if x in s then 1 else 0
  {
    if s != [] {
      var tail := s[1..];
      assert s == [s[0]] + tail;
      assert forall i | 0 <= i < |tail| :: tail[i] == s[i + 1];
      CountInDistinct(tail, x);
    }
  }

  /** Two hash lists get the same canonical form exactly when they hold the same non-empty hashes:
      order and repetition are forgotten, nothing else is. */
  lemma HashListsAgreeIff(s: seq<string>, t: seq<string>)
    ensures SortedUnique(s) == SortedUnique(t) <==> ElementsOf(s) == ElementsOf(t)
  {
    StringOrder();
    var a, b := OrderedUnique(NonEmpty(s)), OrderedUnique(NonEmpty(t));
    SortsAgreeIff(StringLe, a, b);
    DistinctListsAgreeIff(a, b);
    assert forall x :: x in a <==> x in ElementsOf(s);
    assert forall x :: x in b <==> x in ElementsOf(t);
    if SortedUnique(s) == SortedUnique(t) {
      assert forall x :: x in ElementsOf(s) <==> x in ElementsOf(t);
    }
  }

  // ---------------------------------------------------------------------------------------------
  // Keys
  // ---------------------------------------------------------------------------------------------

  /** One analysis described twice. */
  ghost predicate SameAnalysis(i: AnalyzeInputs, j: AnalyzeInputs) {
    && i.organization == j.organization && i.project == j.project && i.dataset == j.dataset && i.version == j.version
    && i.configHash == j.configHash && i.contractPack == j.contractPack
    && ElementsOf(i.inputs) == ElementsOf(j.inputs) && ElementsOf(i.predictions) == ElementsOf(j.predictions)
    && multiset(i.pins) == multiset(j.pins)
  }

  /** One application described twice: the order of the step keys counts. */
  ghost predicate SameApplication(i: ApplyInputs, j: ApplyInputs) {
    && i.organization == j.organization && i.project == j.project && i.dataset == j.dataset && i.source == j.source
    && i.proposedName == j.proposedName && i.planHash == j.planHash
    && i.configHash == j.configHash && i.contractPack == j.contractPack
    && ElementsOf(i.inputs) == ElementsOf(j.inputs) && ElementsOf(i.predictions) == ElementsOf(j.predictions)
    && multiset(i.policies) == multiset(j.policies) && i.stepKeys == j.stepKeys && multiset(i.pins) == multiset(j.pins)
  }

  lemma AnalyzeKeysAgreeIff(digest: Digest, i: AnalyzeInputs, j: AnalyzeInputs)
    ensures AnalyzeKey(digest, i) == AnalyzeKey(digest, j) <==>
              SameAnalysis(i, j) || Collide(digest, AnalyzePayload(i), AnalyzePayload(j))
  {
    HashListsAgreeIff(i.inputs, j.inputs);
    HashListsAgreeIff(i.predictions, j.predictions);
    PinOrder();
    SortsAgreeIff(PinLe, i.pins, j.pins);
    var s, t := AnalyzePayload(i).scope, AnalyzePayload(j).scope;
    assert s == t <==> s[0] == t[0] && s[1] == t[1] && s[2] == t[2] && s[3] == t[3];
  }

  lemma ApplyKeysAgreeIff(digest: Digest, i: ApplyInputs, j: ApplyInputs)
    ensures ApplyKey(digest, i) == ApplyKey(digest, j) <==>
              SameApplication(i, j) || Collide(digest, ApplyPayload(i), ApplyPayload(j))
  {
    HashListsAgreeIff(i.inputs, j.inputs);
    HashListsAgreeIff(i.predictions, j.predictions);
    PinOrder();
    SortsAgreeIff(PinLe, i.pins, j.pins);
    EntryOrder();
    SortsAgreeIff(EntryLe, i.policies, j.policies);
    var s, t := ApplyPayload(i).scope, ApplyPayload(j).scope;
    assert s == t <==> s[0] == t[0] && s[1] == t[1] && s[2] == t[2] && s[3] == t[3] && s[4] == t[4];
  }

  /** No analysis shares a key with an application. */
  lemma AnalyzeAndApplyKeysDiffer(digest: Digest, i: AnalyzeInputs, j: ApplyInputs)
    requires !Collide(digest, AnalyzePayload(i), ApplyPayload(j))
    ensures AnalyzeKey(digest, i) != ApplyKey(digest, j)
  {
    assert AnalyzePayload(i).workflow != ApplyPayload(j).workflow;
  }

  /** The dict with the given entries. */
  function AsMap(entries: seq<(string, string)>): map<string, string> {
    if entries == [] then map[] else AsMap(entries[1..])[entries[0].0 := entries[0].1]
  }

  ghost predicate DistinctNames(entries: seq<(string, string)>) {
    forall i, j | 0 <= i < j < |entries| :: entries[i].0 != entries[j].0
  }

  lemma {:induction false} AsMapHolds(entries: seq<(string, string)>, p: (string, string))
    requires DistinctNames(entries)
    ensures p in entries <==> p.0 in AsMap(entries) && AsMap(entries)[p.0] == p.1
    ensures p.0 in AsMap(entries) <==> exists i | 0 <= i < |entries| :: entries[i].0 == p.0
  {
    if entries != [] {
      var tail := entries[1..];
      assert entries == [entries[0]] + tail;
      AsMapHolds(tail, p);
    }
  }

  /** For a mapping, where no name is listed twice, the list of entries is the mapping: reordering it
      is all that SameApplication allows. */
  lemma PolicyMapsAgreeIff(d: seq<(string, string)>, e: seq<(string, string)>)
    requires DistinctNames(d) && DistinctNames(e)
    ensures OrderedDict(d) == OrderedDict(e) <==> AsMap(d) == AsMap(e)
  {
    EntryOrder();
    SortsAgreeIff(EntryLe, d, e);
    DistinctListsAgreeIff(d, e);
    SameEntriesIffSameMap(d, e);
  }

  lemma SameEntriesIffSameMap(d: seq<(string, string)>, e: seq<(string, string)>)
    requires DistinctNames(d) && DistinctNames(e)
    ensures (forall p :: p in d <==> p in e) <==> AsMap(d) == AsMap(e)
  {
    var m, n := AsMap(d), AsMap(e);
    forall p: (string, string)
      ensures p in d <==> p.0 in m && m[p.0] == p.1
      ensures p in e <==> p.0 in n && n[p.0] == p.1
    {
      AsMapHolds(d, p);
      AsMapHolds(e, p);
    }
    if forall p :: p in d <==> p in e {
      forall k | k in m ensures k in n && m[k] == n[k] {
        assert (k, m[k]) in d;
      }
      forall k | k in n ensures k in m {
        assert (k, n[k]) in e;
      }
    }
  }
}
