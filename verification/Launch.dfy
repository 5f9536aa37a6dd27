/** The two launchers (app/orchestration/analyze_workflow.py, apply_workflow.py): checkpoints on
    the cancellation token around one materialisation, the status events they leave behind, and
    the result they assemble.

    Dagster is abstract: a materialisation runs the first `done` assets of the selection and then
    ends.  Each asset body emits one status event (app/orchestration/assets.py,
    apply_assets.py). */
module Launch {
  import opened Basics
  import opened Cancellation

  datatype RunStatus = Queued | Running | Completed | Failed | Cancelled {
    predicate Terminal() {
      Completed? || Failed? || Cancelled?
    }
  }

  /** How Dagster's `materialize` comes back. */
  datatype Ending = Raised | Unsuccessful | Succeeded

  datatype Outcome = ResultReturned | RunCancelled | MaterialisationRaised | MaterialisationFailed

  datatype Trail = Trail(events: seq<RunStatus>, outcome: Outcome)

  /** ANALYZE materialises a caller-chosen number of assets, APPLY its six. */
  datatype Workflow = AnalyzeOnly(assets: nat) | ApplySelectedActions {

    function AssetCount(): nat {
      if AnalyzeOnly? then assets else 6
    }

    /** `export_package`, the last APPLY asset, already emits COMPLETED. */
    function AssetStatus(k: nat): RunStatus {
      if ApplySelectedActions? && k == 5 then Completed else Running
    }

    function AssetStatuses(done: nat): seq<RunStatus> {
      seq(done, k requires 0 <= k => AssetStatus(k))
    }

    function Preamble(): seq<RunStatus> {
      if ApplySelectedActions? then [Queued] else []
    }

    function Closing(): seq<RunStatus> {
      if AnalyzeOnly? then [Completed] else []
    }

    predicate CanEnd(done: nat, ending: Ending) {
      && done <= AssetCount()
      && (ending.Succeeded? ==> done == AssetCount())
    }

    /** What a launch leaves behind, given what its two checks saw. */
    function TrailOf(before: bool, done: nat, ending: Ending, after: bool): Trail {
      var ran := Preamble() + AssetStatuses(done);
      if before then Trail([Cancelled], RunCancelled)
      else if ending.Raised? then Trail(ran + [Failed], MaterialisationRaised)
      else if after then Trail(ran + [Cancelled], RunCancelled)
      else if ending.Unsuccessful? then Trail(ran + [Failed], MaterialisationFailed)
      else Trail(ran + Closing(), ResultReturned)
    }
  }

  function TerminalCount(events: seq<RunStatus>): nat {
    if events == [] then 0
    else TerminalCount(events[..|events| - 1]) + if events[|events| - 1].Terminal() then 1 else 0
  }

  lemma {:induction false} TerminalCountAppend(a: seq<RunStatus>, b: seq<RunStatus>)
    ensures TerminalCount(a + b) == TerminalCount(a) + TerminalCount(b)
  {
    if b == [] {
      assert a + b == a;
    } else {
      assert (a + b)[..|a + b| - 1] == a + b[..|b| - 1];
      TerminalCountAppend(a, b[..|b| - 1]);
    }
  }

  lemma {:induction false} NoTerminal(events: seq<RunStatus>)
    requires forall e | e in events :: !e.Terminal()
    ensures TerminalCount(events) == 0
  {
    if events != [] {
      NoTerminal(events[..|events| - 1]);
    }
  }

  lemma AssetStatusTerminals(w: Workflow, done: nat)
    requires done <= w.AssetCount()
    ensures TerminalCount(w.Preamble() + w.AssetStatuses(done)) ==
            if w.ApplySelectedActions? && done == 6 then 1 else 0
  {
    var ran := w.Preamble() + w.AssetStatuses(done);
    if w.ApplySelectedActions? && done == 6 {
      var front := w.Preamble() + w.AssetStatuses(5);
      assert ran == front + [Completed];
      NoTerminal(front);
      TerminalCountAppend(front, [Completed]);
    } else {
      NoTerminal(ran);
    }
  }

  lemma OneTerminalAtEnd(ran: seq<RunStatus>, last: RunStatus)
    requires TerminalCount(ran) == 0 && last.Terminal()
    ensures var events := ran + [last]; TerminalCount(events) == 1 && events[|events| - 1] == last
  {
    TerminalCountAppend(ran, [last]);
    NoTerminal([]);
    assert TerminalCount([last]) == 1 by {
      assert [last][..0] == [];
    }
  }

  /** Every ANALYZE run emits exactly one terminal event, it is the last event, and a result is
      returned exactly when it is COMPLETED. */
  lemma AnalyzeEndsOnce(w: Workflow, before: bool, done: nat, ending: Ending, after: bool)
    requires w.AnalyzeOnly? && w.CanEnd(done, ending)
    ensures var t := w.TrailOf(before, done, ending, after);
            && TerminalCount(t.events) == 1
            && t.events[|t.events| - 1].Terminal()
            && (t.outcome.ResultReturned? <==> t.events[|t.events| - 1] == Completed)
            && (t.outcome.RunCancelled? <==> t.events[|t.events| - 1] == Cancelled)
  {
    var ran := w.Preamble() + w.AssetStatuses(done);
    AssetStatusTerminals(w, done);
    NoTerminal([]);
    var front, last := TrailEnd(w, before, done, ending, after);
    OneTerminalAtEnd(front, last);
  }

  /** The last event of an ANALYZE trail, and what came before it. */
  lemma TrailEnd(w: Workflow, before: bool, done: nat, ending: Ending, after: bool)
    returns (front: seq<RunStatus>, last: RunStatus)
    requires w.AnalyzeOnly?
    ensures front == [] || front == w.Preamble() + w.AssetStatuses(done)
    ensures last.Terminal()
    ensures var t := w.TrailOf(before, done, ending, after);
            && t.events == front + [last]
            && (t.outcome.ResultReturned? <==> last == Completed)
            && (t.outcome.RunCancelled? <==> last == Cancelled)
  {
    front := w.Preamble() + w.AssetStatuses(done);
    if before {
      front, last := [], Cancelled;
      assert [] + [Cancelled] == [Cancelled];
    } else if ending.Raised? {
      last := Failed;
    } else if after {
      last := Cancelled;
    } else if ending.Unsuccessful? {
      last := Failed;
    } else {
      last := Completed;
    }
  }

  /** An APPLY run returns a result exactly when neither FAILED nor CANCELLED was emitted, and
      then COMPLETED is its one terminal event and its last. */
  lemma ApplyResultIffNoFailure(before: bool, done: nat, ending: Ending, after: bool)
    requires ApplySelectedActions.CanEnd(done, ending)
    ensures var t := ApplySelectedActions.TrailOf(before, done, ending, after);
            && (t.outcome.ResultReturned? <==> Failed !in t.events && Cancelled !in t.events)
            && (t.outcome.RunCancelled? <==> Cancelled in t.events)
            && (t.outcome.ResultReturned? ==>
                  TerminalCount(t.events) == 1 && t.events[|t.events| - 1] == Completed)
  {
    AssetStatusTerminals(ApplySelectedActions, done);
    var ran := ApplySelectedActions.Preamble() + ApplySelectedActions.AssetStatuses(done);
    assert Failed !in ran && Cancelled !in ran;
    assert Failed in ran + [Failed] && Cancelled in ran + [Cancelled];
    if done == 6 {
      assert ran + ApplySelectedActions.Closing() == ran && ran[|ran| - 1] == Completed;
    }
  }

  /** "Exactly one terminal event" is false of APPLY.  It holds exactly when the run did not go on
      to fail or to be cancelled after `export_package` had already emitted COMPLETED. */
  lemma ApplyEndsOnceIff(before: bool, done: nat, ending: Ending, after: bool)
    requires ApplySelectedActions.CanEnd(done, ending)
    ensures TerminalCount(ApplySelectedActions.TrailOf(before, done, ending, after).events) == 1 <==>
              before || done < 6 || (ending.Succeeded? && !after)
  {
    var ran := ApplySelectedActions.Preamble() + ApplySelectedActions.AssetStatuses(done);
    AssetStatusTerminals(ApplySelectedActions, done);
    TerminalCountAppend(ran, [Failed]);
    TerminalCountAppend(ran, [Cancelled]);
    assert ran + ApplySelectedActions.Closing() == ran;
  }

  /** A cancel that arrives once the last asset is done leaves COMPLETED followed by CANCELLED. */
  lemma ApplyCanEndTwice()
    ensures var t := ApplySelectedActions.TrailOf(false, 6, Succeeded, true);
            && t.outcome.RunCancelled?
            && t.events[|t.events| - 2..] == [Completed, Cancelled]
            && TerminalCount(t.events) == 2
  {
    var ran := ApplySelectedActions.Preamble() + ApplySelectedActions.AssetStatuses(6);
    AssetStatusTerminals(ApplySelectedActions, 6);
    TerminalCountAppend(ran, [Cancelled]);
    assert ran[6] == Completed;
  }

  // ---------------------------------------------------------------------------------------------
  // Results
  // ---------------------------------------------------------------------------------------------

  /** The metadata of one asset materialisation, as far as the launchers read it. */
  datatype AssetEvent = AssetEvent(
    name: string,
    uri: Option<string>,
    hash: Option<string>,
    status: Option<string>,
    finalCandidate: Option<(string, string)>,
    finalExport: Option<string>)

  datatype AnalyzeResult = AnalyzeResult(assets: seq<string>, uris: map<string, string>)

  datatype ApplyResult = ApplyResult(
    assets: seq<string>,
    candidate: Option<(string, string)>,
    syntheticUri: Option<string>,
    syntheticStatus: string,
    modelImpactUri: Option<string>,
    exportUri: Option<string>)

  function Names(events: seq<AssetEvent>): seq<string> {
    seq(|events|, i requires 0 <= i < |events| => events[i].name)
  }

  /** The last event called `name` for which `f` has a value decides. */
  function LastOf<T>(events: seq<AssetEvent>, name: string, f: AssetEvent -> Option<T>): Option<T> {
    if events == [] then None
    else
      var last := events[|events| - 1];
      if last.name == name && f(last).Some? then f(last) else LastOf(events[..|events| - 1], name, f)
  }

  lemma LastOfSnoc<T>(events: seq<AssetEvent>, e: AssetEvent, name: string, f: AssetEvent -> Option<T>)
    ensures LastOf(events + [e], name, f) ==
            if e.name == name && f(e).Some? then f(e) else LastOf(events, name, f)
  {
    assert (events + [e])[..|events|] == events;
  }

  /** When one asset of the given name ran, its own metadata decides. */
  lemma {:induction false} LastOfOnly<T>(events: seq<AssetEvent>, k: nat, f: AssetEvent -> Option<T>)
    requires k < |events| && forall j | 0 <= j < |events| && j != k :: events[j].name != events[k].name
    ensures LastOf(events, events[k].name, f) == f(events[k])
  {
    var front := events[..|events| - 1];
    if k < |front| {
      LastOfOnly(front, k, f);
    } else {
      LastOfNone(front, events[k].name, f);
    }
  }

  lemma {:induction false} LastOfNone<T>(events: seq<AssetEvent>, name: string, f: AssetEvent -> Option<T>)
    requires forall e | e in events :: e.name != name
    ensures LastOf(events, name, f) == None
  {
    if events != [] {
      LastOfNone(events[..|events| - 1], name, f);
    }
  }

  method AssembleAnalyze(events: seq<AssetEvent>) returns (r: AnalyzeResult)
    ensures r.assets == Names(events)
    ensures forall n :: n in r.uris <==> LastOf(events, n, (e: AssetEvent) => e.uri).Some?
    ensures forall n | n in r.uris :: Some(r.uris[n]) == LastOf(events, n, (e: AssetEvent) => e.uri)
  {
    var uriOf := (e: AssetEvent) => e.uri;
    var assets: seq<string> := [];
    var uris: map<string, string> := map[];
    for i := 0 to |events|
      invariant assets == Names(events[..i])
      invariant forall n :: n in uris <==> LastOf(events[..i], n, uriOf).Some?
      invariant forall n | n in uris :: Some(uris[n]) == LastOf(events[..i], n, uriOf)
    {
      var e := events[i];
      assert events[..i + 1] == events[..i] + [e];
      assert forall n :: LastOf(events[..i + 1], n, uriOf) ==
                         if e.name == n && uriOf(e).Some? then uriOf(e) else LastOf(events[..i], n, uriOf)
      by {
        forall n { LastOfSnoc(events[..i], e, n, uriOf); }
      }
      assets := assets + [e.name];
      if e.uri.Some? {
        uris := uris[e.name := e.uri.value];
      }
    }
    assert events[..|events|] == events;
    assert forall n :: LastOf(events, n, (e: AssetEvent) => e.uri) == LastOf(events, n, uriOf) by {
      forall n { LastOfExtensional(events, n, (e: AssetEvent) => e.uri, uriOf); }
    }
    r := AnalyzeResult(assets, uris);
  }

  lemma LastOfExtensional<T>(events: seq<AssetEvent>, name: string,
                             f: AssetEvent -> Option<T>, g: AssetEvent -> Option<T>)
    requires forall e :: f(e) == g(e)
    ensures LastOf(events, name, f) == LastOf(events, name, g)
  {
  }

  /** Status and URI of the synthetic asset: a URI is kept only while the status says the rows were
      materialised. */
  function SyntheticOf(events: seq<AssetEvent>, initial: string): (string, Option<string>) {
    if events == [] then (initial, None)
    else
      var (status, uri) := SyntheticOf(events[..|events| - 1], initial);
      var last := events[|events| - 1];
      if last.name != "synthetic_dataset" then (status, uri)
      else
        var now := if last.status.Some? then last.status.value else status;
        (now, if now == "materialized" && last.uri.Some? then last.uri else uri)
  }

  /** A synthetic URI is surfaced only for an event that carried it, and, with one synthetic asset,
      only when that asset's status is "materialized". */
  lemma {:induction false} SyntheticUriOnlyIfMaterialised(events: seq<AssetEvent>, initial: string, k: nat)
    requires k < |events| && events[k].name == "synthetic_dataset" && events[k].status.Some?
    requires forall j | 0 <= j < |events| && j != k :: events[j].name != "synthetic_dataset"
    ensures SyntheticOf(events, initial) ==
            (events[k].status.value, if events[k].status.value == "materialized" then events[k].uri else None)
  {
    var front := events[..|events| - 1];
    if k < |front| {
      SyntheticUriOnlyIfMaterialised(front, initial, k);
    } else {
      SyntheticNone(front, initial);
    }
  }

  lemma {:induction false} SyntheticNone(events: seq<AssetEvent>, initial: string)
    requires forall e | e in events :: e.name != "synthetic_dataset"
    ensures SyntheticOf(events, initial) == (initial, None)
  {
    if events != [] {
      SyntheticNone(events[..|events| - 1], initial);
    }
  }

  method AssembleApply(events: seq<AssetEvent>, hasSynthetic: bool) returns (r: ApplyResult)
    ensures r.assets == Names(events)
    ensures r.candidate == LastOf(events, "export_package", (e: AssetEvent) => e.finalCandidate)
    ensures r.exportUri == LastOf(events, "export_package", (e: AssetEvent) => e.finalExport)
    ensures r.modelImpactUri == LastOf(events, "model_impact_report", (e: AssetEvent) => e.uri)
    ensures (r.syntheticStatus, r.syntheticUri) ==
            SyntheticOf(events, if hasSynthetic then "pending" else "not_applicable")
  {
    var candidateOf := (e: AssetEvent) => e.finalCandidate;
    var exportOf := (e: AssetEvent) => e.finalExport;
    var uriOf := (e: AssetEvent) => e.uri;
    var initial := if hasSynthetic then "pending" else "not_applicable";
    var assets: seq<string> := [];
    var candidate: Option<(string, string)>, exportUri: Option<string>, modelImpact: Option<string> := None, None, None;
    var status, syntheticUri := initial, None;
    for i := 0 to |events|
      invariant assets == Names(events[..i])
      invariant candidate == LastOf(events[..i], "export_package", candidateOf)
      invariant exportUri == LastOf(events[..i], "export_package", exportOf)
      invariant modelImpact == LastOf(events[..i], "model_impact_report", uriOf)
      invariant (status, syntheticUri) == SyntheticOf(events[..i], initial)
    {
      var e := events[i];
      assert events[..i + 1] == events[..i] + [e];
      assert events[..i + 1][..i] == events[..i];
      LastOfSnoc(events[..i], e, "export_package", candidateOf);
      LastOfSnoc(events[..i], e, "export_package", exportOf);
      LastOfSnoc(events[..i], e, "model_impact_report", uriOf);
      assets := assets + [e.name];
      if e.name == "synthetic_dataset" {
        if e.status.Some? {
          status := e.status.value;
        }
        if status == "materialized" && e.uri.Some? {
          syntheticUri := e.uri;
        }
      }
      if e.name == "model_impact_report" && e.uri.Some? {
        modelImpact := e.uri;
      }
      if e.name == "export_package" {
        if e.finalCandidate.Some? {
          candidate := e.finalCandidate;
        }
        if e.finalExport.Some? {
          exportUri := e.finalExport;
        }
      }
    }
    assert events[..|events|] == events;
    LastOfExtensional(events, "export_package", (e: AssetEvent) => e.finalCandidate, candidateOf);
    LastOfExtensional(events, "export_package", (e: AssetEvent) => e.finalExport, exportOf);
    LastOfExtensional(events, "model_impact_report", (e: AssetEvent) => e.uri, uriOf);
    r := ApplyResult(assets, candidate, syntheticUri, status, modelImpact, exportUri);
  }

  // ---------------------------------------------------------------------------------------------
  // The launchers
  // ---------------------------------------------------------------------------------------------

  /** The platform's event log, which the status bridge only appends to. */
  class StatusBridge {
    var events: seq<RunStatus>

    constructor ()
      ensures events == []
    {
      events := [];
    }

    method Emit(status: RunStatus)
      modifies this
      ensures events == old(events) + [status]
    {
      events := events + [status];
    }

    /** The status events of the asset bodies that ran. */
    method RunAssets(w: Workflow, done: nat)
      modifies this
      ensures events == old(events) + w.AssetStatuses(done)
    {
      for k := 0 to done
        invariant events == old(events) + w.AssetStatuses(k)
      {
        Emit(w.AssetStatus(k));
      }
    }
  }

  /** What Dagster did, and the reason of a cancel that lands on the token while it was at work. */
  datatype Materialisation = Materialisation(
    done: nat, ending: Ending, events: seq<AssetEvent>, arriving: Option<string>)

  datatype LaunchError =
    | NotApproved
    | CancelledWith(reason: string)
    | MaterialisationRaisedError
    | MaterialisationFailedError
  {
    function Outcome(): Outcome
      requires !NotApproved?
    {
      match this
      case CancelledWith(_) => RunCancelled
      case MaterialisationRaisedError => MaterialisationRaised
      case MaterialisationFailedError => MaterialisationFailed
    }
  }

  /** What the check after materialisation sees on a token that was clear before it. */
  ghost predicate ArrivesOn(token: CancellationToken?, m: Materialisation) {
    token != null && m.arriving.Some?
  }

  /** Checkpoint, materialisation and checkpoint, shared by both launchers. */
  method RunBetweenChecks(w: Workflow, token: CancellationToken?, m: Materialisation, bridge: StatusBridge)
    returns (r: Result<(), LaunchError>)
    requires w.CanEnd(m.done, m.ending)
    modifies bridge, if token != null then {token} else {}
    ensures var t := w.TrailOf(token != null && old(token.cancelled), m.done, m.ending, ArrivesOn(token, m));
            && (r.Ok? <==> t.outcome.ResultReturned?)
            && (r.Err? ==> !r.error.NotApproved? && r.error.Outcome() == t.outcome)
            && bridge.events + (if r.Ok? then w.Closing() else []) == old(bridge.events) + t.events
    ensures token != null && r.Err? && r.error.CancelledWith? ==> r.error.reason == token.reasonCode
    ensures token != null && old(token.cancelled) ==> token.reasonCode == old(token.reasonCode)
  {
    if token != null && token.cancelled {
      bridge.Emit(Cancelled);
      return Err(CancelledWith(token.reasonCode));
    }
    if w.ApplySelectedActions? {
      bridge.Emit(Queued);
    }
    bridge.RunAssets(w, m.done);
    ghost var ran := w.Preamble() + w.AssetStatuses(m.done);
    assert bridge.events == old(bridge.events) + ran;
    if token != null && m.arriving.Some? {
      token.Cancel(m.arriving);
    }
    if m.ending.Raised? {
      bridge.Emit(Failed);
      return Err(MaterialisationRaisedError);
    }
    if token != null && token.cancelled {
      bridge.Emit(Cancelled);
      return Err(CancelledWith(token.reasonCode));
    }
    if m.ending.Unsuccessful? {
      bridge.Emit(Failed);
      return Err(MaterialisationFailedError);
    }
    assert old(bridge.events) + ran + w.Closing() == old(bridge.events) + (ran + w.Closing());
    return Ok(());
  }

  method LaunchAnalyze(assets: nat, token: CancellationToken?, m: Materialisation, bridge: StatusBridge)
    returns (r: Result<AnalyzeResult, LaunchError>)
    requires AnalyzeOnly(assets).CanEnd(m.done, m.ending)
    modifies bridge, if token != null then {token} else {}
    ensures var t := AnalyzeOnly(assets).TrailOf(
                       token != null && old(token.cancelled), m.done, m.ending, ArrivesOn(token, m));
            && bridge.events == old(bridge.events) + t.events
            && (r.Ok? <==> t.outcome.ResultReturned?)
            && (r.Err? ==> !r.error.NotApproved? && r.error.Outcome() == t.outcome)
    ensures r.Ok? ==> r.value.assets == Names(m.events)
    ensures r.Ok? ==> forall n :: (if n in r.value.uris then Some(r.value.uris[n]) else None) ==
                                  LastOf(m.events, n, (e: AssetEvent) => e.uri)
  {
    var ran := RunBetweenChecks(AnalyzeOnly(assets), token, m, bridge);
    if ran.Err? {
      return Err(ran.error);
    }
    var result := AssembleAnalyze(m.events);
    bridge.Emit(Completed);
    return Ok(result);
  }

  /** Without approval metadata the launcher refuses before it touches anything. */
  method LaunchApply(approved: bool, hasSynthetic: bool, token: CancellationToken?, m: Materialisation,
                     bridge: StatusBridge)
    returns (r: Result<ApplyResult, LaunchError>)
    requires ApplySelectedActions.CanEnd(m.done, m.ending)
    modifies bridge, if token != null then {token} else {}
    ensures !approved ==> r == Err(NotApproved) && bridge.events == old(bridge.events)
    ensures !approved && token != null ==> unchanged(token)
    ensures approved ==>
              var t := ApplySelectedActions.TrailOf(
                         token != null && old(token.cancelled), m.done, m.ending, ArrivesOn(token, m));
              && bridge.events == old(bridge.events) + t.events
              && (r.Ok? <==> t.outcome.ResultReturned?)
              && (r.Err? ==> !r.error.NotApproved? && r.error.Outcome() == t.outcome)
    ensures r.Ok? ==>
              && r.value.assets == Names(m.events)
              && r.value.candidate == LastOf(m.events, "export_package", (e: AssetEvent) => e.finalCandidate)
              && r.value.exportUri == LastOf(m.events, "export_package", (e: AssetEvent) => e.finalExport)
              && r.value.modelImpactUri == LastOf(m.events, "model_impact_report", (e: AssetEvent) => e.uri)
              && (r.value.syntheticStatus, r.value.syntheticUri) ==
                 SyntheticOf(m.events, if hasSynthetic then "pending" else "not_applicable")
  {
    if !approved {
      return Err(NotApproved);
    }
    var ran := RunBetweenChecks(ApplySelectedActions, token, m, bridge);
    if ran.Err? {
      return Err(ran.error);
    }
    var result := AssembleApply(m.events, hasSynthetic);
    return Ok(result);
  }
}
