/** Which of the given artifacts an APPLY run starts from (`_select_source_ref` in
    app/orchestration/apply_runtime.py). */
module SourceSelection {
  import opened Basics
  import opened ExportPackage

  /** The two raw kinds that the source lists by name start with "raw_" as well. */
  predicate IsRaw(r: Artifact) {
    "raw_" <= r.kind
  }

  function FirstPlanned(refs: seq<Artifact>, planned: seq<string>): (r: Option<Artifact>)
    ensures r.Some? ==> r.value in refs && r.value.uri in planned
    ensures r.None? ==> forall q | q in refs :: q.uri !in planned
  {
    if refs == [] then None
    else if refs[0].uri in planned then Some(refs[0])
    else
      assert refs == [refs[0]] + refs[1..];
      FirstPlanned(refs[1..], planned)
  }

  function FirstRaw(refs: seq<Artifact>): (r: Option<Artifact>)
    ensures r.Some? ==> r.value in refs && IsRaw(r.value)
    ensures r.None? ==> forall q | q in refs :: !IsRaw(q)
  {
    if refs == [] then None
    else if IsRaw(refs[0]) then Some(refs[0])
    else
      assert refs == [refs[0]] + refs[1..];
      FirstRaw(refs[1..])
  }

  /** A ref that the plan names, or else a raw one, or else the first. */
  function Select(refs: seq<Artifact>, planned: seq<string>): Artifact
    requires refs != []
  {
    var byPlan, byKind := FirstPlanned(refs, planned), FirstRaw(refs);
    if byPlan.Some? then byPlan.value else if byKind.Some? then byKind.value else refs[0]
  }

  method SelectSourceRef(refs: seq<Artifact>, planned: seq<string>) returns (r: Artifact)
    requires refs != []
    ensures r == Select(refs, planned)
  {
    for i := 0 to |refs|
      invariant FirstPlanned(refs, planned) == FirstPlanned(refs[i..], planned)
    {
      assert refs[i..][1..] == refs[i + 1..];
      if refs[i].uri in planned {
        return refs[i];
      }
    }
    for i := 0 to |refs|
      invariant FirstRaw(refs) == FirstRaw(refs[i..])
    {
      assert refs[i..][1..] == refs[i + 1..];
      if IsRaw(refs[i]) {
        return refs[i];
      }
    }
    return refs[0];
  }

  /** The refs among which the order decides. */
  ghost predicate Preferred(refs: seq<Artifact>, planned: seq<string>, r: Artifact) {
    && r in refs
    && ((exists q :: q in refs && q.uri in planned) ==> r.uri in planned)
    && (!(exists q :: q in refs && q.uri in planned) && (exists q :: q in refs && "raw_" <= q.kind) ==> "raw_" <= r.kind)
  }

  lemma SelectsPreferred(refs: seq<Artifact>, planned: seq<string>)
    requires refs != []
    ensures Preferred(refs, planned, Select(refs, planned))
    ensures Preferred(refs, planned, refs[0]) ==> Select(refs, planned) == refs[0]
  {
  }

  /** Of several preferred refs the first is taken. */
  lemma SelectsFirstPreferred(refs: seq<Artifact>, planned: seq<string>, j: nat)
    requires j < |refs| && Preferred(refs, planned, refs[j])
    ensures exists i | 0 <= i <= j :: Select(refs, planned) == refs[i]
  {
    if refs[j].uri in planned {
      FirstPlannedAt(refs, planned, j);
    } else if IsRaw(refs[j]) {
      FirstRawAt(refs, j);
    }
  }

  lemma {:induction false} FirstPlannedAt(refs: seq<Artifact>, planned: seq<string>, j: nat)
    requires j < |refs| && refs[j].uri in planned
    ensures exists i | 0 <= i <= j :: FirstPlanned(refs, planned) == Some(refs[i])
  {
    if refs[0].uri !in planned {
      FirstPlannedAt(refs[1..], planned, j - 1);
      var i :| 0 <= i <= j - 1 && FirstPlanned(refs[1..], planned) == Some(refs[1..][i]);
      assert refs[1..][i] == refs[i + 1];
    }
  }

  lemma {:induction false} FirstRawAt(refs: seq<Artifact>, j: nat)
    requires j < |refs| && IsRaw(refs[j])
    ensures exists i | 0 <= i <= j :: FirstRaw(refs) == Some(refs[i])
  {
    if !IsRaw(refs[0]) {
      FirstRawAt(refs[1..], j - 1);
      var i :| 0 <= i <= j - 1 && FirstRaw(refs[1..]) == Some(refs[1..][i]);
      assert refs[1..][i] == refs[i + 1];
    }
  }

  /** The selection does not depend on the order of the refs exactly when all preferred refs are one
      and the same; with two different ones, putting either first selects it. */
  lemma SelectionIgnoresOrderIff(refs: seq<Artifact>, planned: seq<string>)
    requires refs != []
    ensures (forall perm: seq<Artifact> | perm != [] && multiset(perm) == multiset(refs) ::
               Select(perm, planned) == Select(refs, planned)) <==>
              forall r | Preferred(refs, planned, r) :: r == Select(refs, planned)
  {
    SelectsPreferred(refs, planned);
    forall r | Preferred(refs, planned, r)
      ensures exists perm: seq<Artifact> :: perm != [] && multiset(perm) == multiset(refs) && Select(perm, planned) == r
    {
      var perm := PutFirst(refs, r);
      SameRefsSamePreference(refs, perm, planned, r);
      SelectsPreferred(perm, planned);
    }
    forall perm: seq<Artifact> | perm != [] && multiset(perm) == multiset(refs)
      ensures Preferred(refs, planned, Select(perm, planned))
    {
      SelectsPreferred(perm, planned);
      SameRefsSamePreference(refs, perm, planned, Select(perm, planned));
    }
  }

  lemma PutFirst(refs: seq<Artifact>, r: Artifact) returns (perm: seq<Artifact>)
    requires r in refs
    ensures perm != [] && perm[0] == r && multiset(perm) == multiset(refs)
  {
    var i :| 0 <= i < |refs| && refs[i] == r;
    perm := [r] + refs[..i] + refs[i + 1..];
    assert refs == refs[..i] + [r] + refs[i + 1..];
  }

  lemma SameRefsSamePreference(refs: seq<Artifact>, perm: seq<Artifact>, planned: seq<string>, r: Artifact)
    requires multiset(perm) == multiset(refs)
    ensures Preferred(perm, planned, r) <==> Preferred(refs, planned, r)
  {
    assert forall q :: q in perm <==> q in multiset(perm);
    assert forall q :: q in refs <==> q in multiset(refs);
  }
}
