/** The cancellation protocol as an interleaved transition system.

    Any number of launches and cancel calls run at once.  A launch is registered, checked, run,
    checked again, raises if it was cancelled, and is finally discarded (app/api/main.py:268-278,
    361-374); a cancel call locates a token in one critical section and writes it in another
    (app/orchestration/cancellation.py:201-220).  Every step below is one atomic action; the
    registry actions are the ones CancellationRegistry is proved against. */
module LaunchProtocol {
  import opened Basics
  import opened Cancellation
  import opened Launch

  type TokenId = nat
  type LaunchId = nat
  type CancelId = nat

  /** `job` is the id the token was created for. */
  datatype TokenCell = TokenCell(job: string, cancelled: bool, reason: string)
  {
    /** A cancel without a reason leaves the previous one in place. */
    function Cancel(why: string): TokenCell {
      this.(cancelled := true, reason := if why != "" then why else reason)
    }
  }

  function NewToken(job: string): TokenCell {
    TokenCell(job, false, DEFAULT_REASON)
  }

  datatype Phase =
    | Registered
    | Materialising(done: nat)
    | Materialised(done: nat, ending: Ending)
    | Finished(outcome: Outcome)
    | Discarded(outcome: Outcome)

  /** `reason` is what the RunCancelledError carries, once the launch has raised it. */
  datatype LaunchCell = LaunchCell(
    job: string, workflow: Workflow, token: TokenId, phase: Phase, events: seq<RunStatus>, reason: Option<string>)
  {
    /** Not yet past the check after materialisation. */
    predicate Undecided() {
      phase.Registered? || phase.Materialising? || phase.Materialised?
    }

    predicate Live() {
      !phase.Discarded?
    }

    function Emit(status: RunStatus, next: Phase): LaunchCell {
      this.(events := events + [status], phase := next)
    }
  }

  /** A cancel call that found a token writes it before it answers True; one that did not has
      answered False. */
  datatype CancelCell = CancelCell(job: string, token: Option<TokenId>, written: bool, reason: string)

  datatype State = State(
    heap: map<TokenId, TokenCell>,
    registry: RegistryState<TokenId>,
    launches: map<LaunchId, LaunchCell>,
    cancels: map<CancelId, CancelCell>)

  const Start := State(map[], RegistryState(map[], {}), map[], map[])

  datatype Step =
    | Register(l: LaunchId, job: string, workflow: Workflow, spare: TokenId)
    | CheckBefore(l: LaunchId)
    | RunAsset(l: LaunchId)
    | EndMaterialise(l: LaunchId, ending: Ending)
    | CheckAfter(l: LaunchId)
    | Raise(l: LaunchId)
    | Discard(l: LaunchId)
    | Locate(c: CancelId, job: string, spare: TokenId, reason: string)
    | Write(c: CancelId)

  /** The heap once a critical section may have stored a spare token for `job`. */
  function WithSpare(s: State, after: RegistryState<TokenId>, job: string, spare: TokenId): map<TokenId, TokenCell> {
    if job in after.tokens && job !in s.registry.tokens then s.heap[spare := NewToken(job)] else s.heap
  }

  ghost predicate Enabled(s: State, step: Step) {
    match step
    case Register(l, job, _, spare) => l !in s.launches && spare !in s.heap
    case CheckBefore(l) => l in s.launches && s.launches[l].phase.Registered? && s.launches[l].token in s.heap
    case RunAsset(l) =>
      && l in s.launches && s.launches[l].phase.Materialising?
      && s.launches[l].phase.done < s.launches[l].workflow.AssetCount()
    case EndMaterialise(l, ending) =>
      && l in s.launches && s.launches[l].phase.Materialising?
      && s.launches[l].workflow.CanEnd(s.launches[l].phase.done, ending)
    case CheckAfter(l) => l in s.launches && s.launches[l].phase.Materialised? && s.launches[l].token in s.heap
    case Raise(l) =>
      && l in s.launches && s.launches[l].phase == Finished(RunCancelled) && s.launches[l].reason.None?
      && s.launches[l].token in s.heap
    case Discard(l) =>
      && l in s.launches && s.launches[l].phase.Finished?
      && (s.launches[l].phase.outcome.RunCancelled? ==> s.launches[l].reason.Some?)
    case Locate(c, job, spare, _) => c !in s.cancels && spare !in s.heap
    case Write(c) =>
      && c in s.cancels && s.cancels[c].token.Some? && !s.cancels[c].written
      && s.cancels[c].token.value in s.heap
  }

  /** A check reads the flag alone; the reason is read later, for the error that is raised. */
  function BeforeCheck(me: LaunchCell, token: TokenCell): LaunchCell {
    if token.cancelled then me.Emit(Cancelled, Finished(RunCancelled))
    else me.(events := me.events + me.workflow.Preamble(), phase := Materialising(0))
  }

  function AfterEnding(me: LaunchCell, ending: Ending): LaunchCell
    requires me.phase.Materialising?
  {
    if ending.Raised? then me.Emit(Failed, Finished(MaterialisationRaised))
    else me.(phase := Materialised(me.phase.done, ending))
  }

  function AfterCheck(me: LaunchCell, token: TokenCell): LaunchCell
    requires me.phase.Materialised?
  {
    if token.cancelled then me.Emit(Cancelled, Finished(RunCancelled))
    else if me.phase.ending.Unsuccessful? then me.Emit(Failed, Finished(MaterialisationFailed))
    else me.(events := me.events + me.workflow.Closing(), phase := Finished(ResultReturned))
  }

  ghost function Next(s: State, step: Step): State
    requires Enabled(s, step)
  {
    match step
    case Register(l, job, workflow, spare) =>
      var registry := s.registry.Register(job, spare);
      s.(heap := WithSpare(s, registry, job, spare),
         registry := registry,
         launches := s.launches[l := LaunchCell(job, workflow, registry.tokens[job], Registered, [], None)])
    case CheckBefore(l) =>
      var me := s.launches[l];
      s.(launches := s.launches[l := BeforeCheck(me, s.heap[me.token])])
    case RunAsset(l) =>
      var me := s.launches[l];
      s.(launches := s.launches[l := me.Emit(me.workflow.AssetStatus(me.phase.done), Materialising(me.phase.done + 1))])
    case EndMaterialise(l, ending) =>
      s.(launches := s.launches[l := AfterEnding(s.launches[l], ending)])
    case CheckAfter(l) =>
      var me := s.launches[l];
      s.(launches := s.launches[l := AfterCheck(me, s.heap[me.token])])
    case Raise(l) =>
      var me := s.launches[l];
      s.(launches := s.launches[l := me.(reason := Some(s.heap[me.token].reason))])
    case Discard(l) =>
      var me := s.launches[l];
      s.(registry := s.registry.Discard(me.job),
         launches := s.launches[l := me.(phase := Discarded(me.phase.outcome))])
    case Locate(c, job, spare, reason) =>
      var registry := s.registry.Locate(job, spare);
      var found := if job in registry.tokens then Some(registry.tokens[job]) else None;
      s.(heap := WithSpare(s, registry, job, spare),
         registry := registry,
         cancels := s.cancels[c := CancelCell(job, found, false, reason)])
    case Write(c) =>
      var t := s.cancels[c].token.value;
      s.(heap := s.heap[t := s.heap[t].Cancel(s.cancels[c].reason)],
         cancels := s.cancels[c := s.cancels[c].(written := true)])
  }

  // ---------------------------------------------------------------------------------------------
  // Runs
  // ---------------------------------------------------------------------------------------------

  ghost predicate IsRun(states: seq<State>, steps: seq<Step>) {
    && |states| == |steps| + 1
    && states[0] == Start
    && forall i | 0 <= i < |steps| :: Enabled(states[i], steps[i]) && states[i + 1] == Next(states[i], steps[i])
  }

  ghost predicate NoLiveLaunch(s: State, job: string) {
    forall l | l in s.launches && s.launches[l].job == job :: !s.launches[l].Live()
  }

  /** At most one live launch per job id. */
  ghost predicate OneLaunchPerJob(states: seq<State>, steps: seq<Step>)
    requires |states| == |steps| + 1
  {
    forall i | 0 <= i < |steps| && steps[i].Register? :: NoLiveLaunch(states[i], steps[i].job)
  }

  // ---------------------------------------------------------------------------------------------
  // What every step keeps
  // ---------------------------------------------------------------------------------------------

  /** The events of a launch so far, and its outcome, are those of the launcher's trail. */
  ghost predicate OnTrail(me: LaunchCell) {
    match me.phase
    case Registered => me.events == []
    case Materialising(done) =>
      && done <= me.workflow.AssetCount()
      && me.events == me.workflow.Preamble() + me.workflow.AssetStatuses(done)
    case Materialised(done, ending) =>
      && me.workflow.CanEnd(done, ending) && !ending.Raised?
      && me.events == me.workflow.Preamble() + me.workflow.AssetStatuses(done)
    case Finished(outcome) => EndedOnTrail(me.workflow, me.events, outcome)
    case Discarded(outcome) => EndedOnTrail(me.workflow, me.events, outcome)
  }

  ghost predicate EndedOnTrail(w: Workflow, events: seq<RunStatus>, outcome: Outcome) {
    exists before: bool, done: nat, ending: Ending, after: bool ::
      w.CanEnd(done, ending) && w.TrailOf(before, done, ending, after) == Trail(events, outcome)
  }

  ghost predicate TokenOf(s: State, t: TokenId, job: string) {
    t in s.heap && s.heap[t].job == job
  }

  ghost predicate WrittenBy(s: State, t: TokenId, c: CancelId) {
    c in s.cancels && s.cancels[c].token == Some(t) && s.cancels[c].written
  }

  ghost predicate Inv(s: State) {
    && s.registry.Consistent()
    && (forall j | j in s.registry.tokens :: TokenOf(s, s.registry.tokens[j], j))
    && (forall l | l in s.launches :: TokenOf(s, s.launches[l].token, s.launches[l].job))
    && (forall c | c in s.cancels && s.cancels[c].token.Some? :: TokenOf(s, s.cancels[c].token.value, s.cancels[c].job))
    && (forall t | t in s.heap && s.heap[t].cancelled :: exists c :: WrittenBy(s, t, c))
    && (forall l | l in s.launches :: OnTrail(s.launches[l]))
  }

  lemma StepKeepsTrail(s: State, step: Step, l: LaunchId)
    requires Inv(s) && Enabled(s, step) && l in Next(s, step).launches
    ensures OnTrail(Next(s, step).launches[l])
  {
    var s' := Next(s, step);
    if l in s.launches && s'.launches[l] != s.launches[l] {
      var me, me' := s.launches[l], s'.launches[l];
      var w := me.workflow;
      match step {
        case CheckBefore(_) =>
          if me'.phase.Finished? {
            assert me'.events == [Cancelled];
            assert w.TrailOf(true, 0, Raised, false) == Trail(me'.events, RunCancelled);
          } else {
            assert me'.events == w.Preamble() + w.AssetStatuses(0);
          }
        case RunAsset(_) =>
          assert w.AssetStatuses(me.phase.done + 1) == w.AssetStatuses(me.phase.done) + [w.AssetStatus(me.phase.done)];
        case EndMaterialise(_, ending) =>
          if ending.Raised? {
            assert w.TrailOf(false, me.phase.done, Raised, false) == Trail(me'.events, MaterialisationRaised);
          }
        case CheckAfter(_) =>
          assert w.TrailOf(false, me.phase.done, me.phase.ending, s.heap[me.token].cancelled) ==
                 Trail(me'.events, me'.phase.outcome);
        case Raise(_) =>
        case Discard(_) =>
      }
    }
  }

  lemma StepKeepsWriters(s: State, step: Step, t: TokenId)
    requires Inv(s) && Enabled(s, step)
    requires t in Next(s, step).heap && Next(s, step).heap[t].cancelled
    ensures exists c :: WrittenBy(Next(s, step), t, c)
  {
    var s' := Next(s, step);
    if t in s.heap && s.heap[t].cancelled {
      var c :| WrittenBy(s, t, c);
      assert WrittenBy(s', t, c);
    } else {
      assert step.Write? && WrittenBy(s', t, step.c);
    }
  }

  lemma StepKeepsRegistry(s: State, step: Step)
    requires Inv(s) && Enabled(s, step)
    ensures Next(s, step).registry.Consistent()
    ensures var s' := Next(s, step); forall j | j in s'.registry.tokens :: TokenOf(s', s'.registry.tokens[j], j)
  {
  }

  lemma StepKeepsInv(s: State, step: Step)
    requires Inv(s) && Enabled(s, step)
    ensures Inv(Next(s, step))
  {
    var s' := Next(s, step);
    StepKeepsRegistry(s, step);
    StepGrows(s, step);
    forall l | l in s'.launches ensures OnTrail(s'.launches[l]) {
      StepKeepsTrail(s, step, l);
    }
    forall t | t in s'.heap && s'.heap[t].cancelled ensures exists c :: WrittenBy(s', t, c) {
      StepKeepsWriters(s, step, t);
    }
  }

  /** A cancelled flag never resets, tokens keep their job, launches and cancel calls keep their
      token, and a decided launch stays decided. */
  ghost predicate Grows(s: State, s': State) {
    && (forall t | t in s.heap :: TokenOf(s', t, s.heap[t].job) && (s.heap[t].cancelled ==> s'.heap[t].cancelled))
    && (forall l | l in s.launches ::
          && l in s'.launches
          && s'.launches[l].token == s.launches[l].token
          && s'.launches[l].job == s.launches[l].job
          && s'.launches[l].workflow == s.launches[l].workflow
          && (!s.launches[l].Live() ==> s'.launches[l] == s.launches[l]))
    && (forall c | c in s.cancels ::
          && c in s'.cancels
          && s'.cancels[c].token == s.cancels[c].token
          && s'.cancels[c].job == s.cancels[c].job && s'.cancels[c].reason == s.cancels[c].reason
          && (s.cancels[c].written ==> s'.cancels[c].written))
  }

  lemma {:induction false} RunInv(states: seq<State>, steps: seq<Step>, n: nat)
    requires IsRun(states, steps) && n < |states|
    ensures Inv(states[n])
  {
    if n > 0 {
      RunInv(states, steps, n - 1);
      StepKeepsInv(states[n - 1], steps[n - 1]);
    }
  }

  lemma StepGrows(s: State, step: Step)
    requires Enabled(s, step)
    ensures Grows(s, Next(s, step))
  {
  }

  lemma GrowsTransitive(a: State, b: State, c: State)
    requires Grows(a, b) && Grows(b, c)
    ensures Grows(a, c)
  {
    forall t | t in a.heap
      ensures TokenOf(c, t, a.heap[t].job) && (a.heap[t].cancelled ==> c.heap[t].cancelled)
    {
      assert TokenOf(b, t, a.heap[t].job);
    }
  }

  lemma {:induction false} RunGrows(states: seq<State>, steps: seq<Step>, i: nat, n: nat)
    requires IsRun(states, steps) && i <= n < |states|
    ensures Grows(states[i], states[n])
  {
    if i < n {
      RunGrows(states, steps, i, n - 1);
      StepGrows(states[n - 1], steps[n - 1]);
      GrowsTransitive(states[i], states[n - 1], states[n]);
    }
  }

  /** In every state of every run: live and discarded ids are disjoint, live ids hold different
      tokens, every registered token was created for the id it is registered under, and every
      launch is on its launcher's trail. */
  lemma RegistryAlwaysConsistent(states: seq<State>, steps: seq<Step>, n: nat)
    requires IsRun(states, steps) && n < |states|
    ensures states[n].registry.Consistent()
    ensures forall j | j in states[n].registry.tokens :: TokenOf(states[n], states[n].registry.tokens[j], j)
    ensures forall l | l in states[n].launches :: OnTrail(states[n].launches[l])
  {
    RunInv(states, steps, n);
  }

  /** Cancellation never resets, whatever else runs. */
  lemma CancelledForever(states: seq<State>, steps: seq<Step>, i: nat, n: nat, t: TokenId)
    requires IsRun(states, steps) && i <= n < |states|
    requires t in states[i].heap && states[i].heap[t].cancelled
    ensures t in states[n].heap && states[n].heap[t].cancelled
  {
    RunGrows(states, steps, i, n);
    assert TokenOf(states[n], t, states[i].heap[t].job);
  }

  // ---------------------------------------------------------------------------------------------
  // No lost cancellation
  // ---------------------------------------------------------------------------------------------

  /** While a launch is live its token is the one registered for its job, and no second launch of
      that job is live. */
  ghost predicate Exclusive(s: State) {
    && (forall l | l in s.launches && s.launches[l].Live() ::
          s.launches[l].job in s.registry.tokens && s.registry.tokens[s.launches[l].job] == s.launches[l].token)
    && (forall l, m | l in s.launches && m in s.launches && l != m && s.launches[l].Live() && s.launches[m].Live() ::
          s.launches[l].job != s.launches[m].job)
  }

  lemma StepKeepsExclusive(s: State, step: Step)
    requires Inv(s) && Exclusive(s) && Enabled(s, step)
    requires step.Register? ==> NoLiveLaunch(s, step.job)
    ensures Exclusive(Next(s, step))
  {
    if step.Register? {
      RegisterKeepsExclusive(s, step);
    } else if step.Discard? {
      DiscardKeepsExclusive(s, step);
    } else {
      NothingLeavesKeepsExclusive(s, Next(s, step));
    }
  }

  lemma NothingLeavesKeepsExclusive(s: State, s': State)
    requires Exclusive(s) && s'.launches.Keys == s.launches.Keys
    requires forall l | l in s.launches ::
               && s'.launches[l].job == s.launches[l].job && s'.launches[l].token == s.launches[l].token
               && (s'.launches[l].Live() ==> s.launches[l].Live())
    requires forall j | j in s.registry.tokens :: j in s'.registry.tokens && s'.registry.tokens[j] == s.registry.tokens[j]
    ensures Exclusive(s')
  {
  }

  lemma RegisterKeepsExclusive(s: State, step: Step)
    requires Exclusive(s) && Enabled(s, step) && step.Register? && NoLiveLaunch(s, step.job)
    ensures Exclusive(Next(s, step))
  {
  }

  lemma DiscardKeepsExclusive(s: State, step: Step)
    requires Exclusive(s) && Enabled(s, step) && step.Discard?
    ensures Exclusive(Next(s, step))
  {
  }

  lemma {:induction false} RunExclusive(states: seq<State>, steps: seq<Step>, n: nat)
    requires IsRun(states, steps) && OneLaunchPerJob(states, steps) && n < |states|
    ensures Exclusive(states[n])
  {
    if n > 0 {
      RunExclusive(states, steps, n - 1);
      RunInv(states, steps, n - 1);
      StepKeepsExclusive(states[n - 1], steps[n - 1]);
    }
  }

  /** The launch can no longer return a result: if it has ended, it was cancelled, with CANCELLED
      as its last event, or its materialisation raised. */
  ghost predicate Doomed(me: LaunchCell) {
    match me.phase
    case Registered => true
    case Materialising(_) => true
    case Materialised(_, _) => true
    case Finished(outcome) => DoomedEnd(me.events, outcome)
    case Discarded(outcome) => DoomedEnd(me.events, outcome)
  }

  ghost predicate DoomedEnd(events: seq<RunStatus>, outcome: Outcome) {
    && |events| > 0
    && ((outcome.RunCancelled? && events[|events| - 1] == Cancelled)
        || (outcome.MaterialisationRaised? && events[|events| - 1] == Failed))
  }

  /** Nothing was materialised and nothing will be. */
  ghost predicate NeverRuns(me: LaunchCell) {
    || (me.phase.Registered? && me.events == [])
    || (me.phase.Finished? && me.phase.outcome.RunCancelled? && me.events == [Cancelled])
    || (me.phase.Discarded? && me.phase.outcome.RunCancelled? && me.events == [Cancelled])
  }

  ghost predicate Flagged(s: State, l: LaunchId) {
    l in s.launches && s.launches[l].token in s.heap && s.heap[s.launches[l].token].cancelled
  }

  lemma StepKeepsDoomed(s: State, step: Step, l: LaunchId)
    requires Enabled(s, step) && Flagged(s, l) && Doomed(s.launches[l])
    ensures Flagged(Next(s, step), l) && Doomed(Next(s, step).launches[l])
    ensures NeverRuns(s.launches[l]) ==> NeverRuns(Next(s, step).launches[l])
  {
  }

  lemma {:induction false} FlaggedIsDoomed(states: seq<State>, steps: seq<Step>, k: nat, n: nat, l: LaunchId)
    requires IsRun(states, steps) && k <= n < |states|
    requires Flagged(states[k], l) && states[k].launches[l].Undecided()
    ensures Flagged(states[n], l) && Doomed(states[n].launches[l])
    ensures states[k].launches[l].phase.Registered? ==> NeverRuns(states[n].launches[l])
  {
    if k == n {
      RunInv(states, steps, k);
      assert OnTrail(states[k].launches[l]);
    } else {
      FlaggedIsDoomed(states, steps, k, n - 1, l);
      StepKeepsDoomed(states[n - 1], steps[n - 1], l);
    }
  }

  /** No lost cancellation, for any number of launches and cancels on any ids.  A cancel is answered
      True, and if its write lands on the token of a launch that is not yet past its check after
      materialisation, that launch returns no result: it ends cancelled, with CANCELLED as its last
      event, unless materialisation itself raised.  If the launch was not yet past its first check,
      nothing is ever materialised.  When the token was looked up does not matter. */
  lemma NoLostCancellation(states: seq<State>, steps: seq<Step>, k: nat, n: nat, l: LaunchId)
    requires IsRun(states, steps) && k < n <= |steps|
    requires steps[k].Write? && l in states[k].launches && states[k].launches[l].Undecided()
    requires states[k].cancels[steps[k].c].token == Some(states[k].launches[l].token)
    ensures steps[k].c in states[n].cancels && states[n].cancels[steps[k].c].written
    ensures l in states[n].launches && Doomed(states[n].launches[l])
    ensures states[k].launches[l].phase.Registered? ==> NeverRuns(states[n].launches[l])
  {
    RunGrows(states, steps, k + 1, n);
    assert states[k + 1].launches == states[k].launches;
    FlaggedIsDoomed(states, steps, k + 1, n, l);
  }

  // ---------------------------------------------------------------------------------------------
  // Cancel before register, discard, and retry
  // ---------------------------------------------------------------------------------------------

  ghost predicate DiscardsJob(s: State, step: Step, job: string) {
    step.Discard? && step.l in s.launches && s.launches[step.l].job == job
  }

  /** No launch of `job` is discarded by the steps from `a` up to, not including, `b`. */
  ghost predicate NoDiscard(states: seq<State>, steps: seq<Step>, a: nat, b: nat, job: string)
    requires b <= |steps| < |states|
  {
    forall d | a <= d < b :: !DiscardsJob(states[d], steps[d], job)
  }

  ghost predicate Holds(s: State, job: string, t: TokenId) {
    job in s.registry.tokens && s.registry.tokens[job] == t
  }

  lemma {:induction false} RegisteredStays(states: seq<State>, steps: seq<Step>, a: nat, b: nat, job: string, t: TokenId)
    requires IsRun(states, steps) && a <= b <= |steps|
    requires Holds(states[a], job, t) && NoDiscard(states, steps, a, b, job)
    ensures Holds(states[b], job, t)
  {
    if a < b {
      RegisteredStays(states, steps, a, b - 1, job, t);
      assert !DiscardsJob(states[b - 1], steps[b - 1], job);
    }
  }

  /** A token that left the registry never comes back. */
  lemma {:induction false} GoneStaysGone(states: seq<State>, steps: seq<Step>, a: nat, b: nat, job: string, t: TokenId)
    requires IsRun(states, steps) && a <= b <= |steps|
    requires t in states[a].heap && !Holds(states[a], job, t)
    ensures t in states[b].heap && !Holds(states[b], job, t)
  {
    if a < b {
      GoneStaysGone(states, steps, a, b - 1, job, t);
    }
  }

  /** With no restriction on how many launches share an id: a cancel reaches launch `l` exactly
      as long as no launch of the same job has been discarded since `l` registered. */
  lemma CancelReachesLaunchIff(states: seq<State>, steps: seq<Step>, m: nat, i: nat)
    requires IsRun(states, steps) && m < i <= |steps| && steps[m].Register?
    ensures steps[m].l in states[i].launches
    ensures Holds(states[i], steps[m].job, states[i].launches[steps[m].l].token) <==>
              NoDiscard(states, steps, m + 1, i, steps[m].job)
  {
    var l, job := steps[m].l, steps[m].job;
    RunGrows(states, steps, m + 1, i);
    RunInv(states, steps, m + 1);
    var t := states[m + 1].launches[l].token;
    assert Holds(states[m + 1], job, t);
    if NoDiscard(states, steps, m + 1, i, job) {
      RegisteredStays(states, steps, m + 1, i, job, t);
    } else {
      LeavesForGood(states, steps, m + 1, i, job, t);
    }
  }

  /** When the write lands.  With at most one live launch per id: a cancel of the job that was looked
      up at step i, whether the launch was registered by then or came later and took the token the
      cancel had left behind, has hold of the launch's token at step k exactly if it found a token
      and no launch of the job was discarded in between. */
  lemma CancelLandsIff(states: seq<State>, steps: seq<Step>, i: nat, k: nat, l: LaunchId)
    requires IsRun(states, steps) && OneLaunchPerJob(states, steps) && i < k <= |steps| && steps[i].Locate?
    requires l in states[k].launches && states[k].launches[l].Live() && states[k].launches[l].job == steps[i].job
    ensures steps[i].c in states[k].cancels
    ensures states[k].cancels[steps[i].c].token == Some(states[k].launches[l].token) <==>
              states[i + 1].cancels[steps[i].c].token.Some? && NoDiscard(states, steps, i + 1, k, steps[i].job)
  {
    var c, job := steps[i].c, steps[i].job;
    RunGrows(states, steps, i + 1, k);
    RunExclusive(states, steps, k);
    var found := states[i + 1].cancels[c].token;
    if found.Some? {
      assert Holds(states[i + 1], job, found.value);
      if NoDiscard(states, steps, i + 1, k, job) {
        RegisteredStays(states, steps, i + 1, k, job, found.value);
      } else {
        RunInv(states, steps, i + 1);
        LeavesForGood(states, steps, i + 1, k, job, found.value);
      }
    }
  }

  /** A token of a job that some launch discards is not the job's token afterwards. */
  lemma LeavesForGood(states: seq<State>, steps: seq<Step>, a: nat, b: nat, job: string, t: TokenId)
    requires IsRun(states, steps) && a <= b <= |steps| && TokenOf(states[a], t, job)
    requires !NoDiscard(states, steps, a, b, job)
    ensures !Holds(states[b], job, t)
  {
    var d :| a <= d < b && DiscardsJob(states[d], steps[d], job);
    RunGrows(states, steps, a, d + 1);
    assert TokenOf(states[d + 1], t, states[a].heap[t].job);
    GoneStaysGone(states, steps, d + 1, b, job, t);
  }

  /** A cancel answered before the launch registers, with no discard of the job in between, is
      honoured: the launch gets the flagged token and materialises nothing. */
  lemma PreCancelledNeverRuns(states: seq<State>, steps: seq<Step>, i: nat, k: nat, m: nat, n: nat)
    requires IsRun(states, steps) && i < k < m < n <= |steps|
    requires steps[i].Locate? && steps[k] == Write(steps[i].c)
    requires steps[m].Register? && steps[m].job == steps[i].job
    requires NoDiscard(states, steps, i + 1, m, steps[i].job)
    ensures steps[m].l in states[n].launches && NeverRuns(states[n].launches[steps[m].l])
  {
    var c, job, l := steps[i].c, steps[i].job, steps[m].l;
    RunGrows(states, steps, i + 1, k);
    var t := states[i + 1].cancels[c].token.value;
    RegisteredStays(states, steps, i + 1, m, job, t);
    assert states[k + 1].heap[t].cancelled;
    CancelledForever(states, steps, k + 1, m + 1, t);
    assert states[m + 1].launches[l].token == t;
    FlaggedIsDoomed(states, steps, m + 1, n, l);
  }

  /** After a discard every cancel of the job is answered False, until the job registers again. */
  lemma CancelAfterDiscardIsRefused(states: seq<State>, steps: seq<Step>, d: nat, i: nat, job: string)
    requires IsRun(states, steps) && d < i < |steps|
    requires DiscardsJob(states[d], steps[d], job)
    requires steps[i].Locate? && steps[i].job == job
    requires forall m | d < m < i && steps[m].Register? :: steps[m].job != job
    ensures states[i + 1].registry == states[i].registry && states[i + 1].heap == states[i].heap
    ensures states[i + 1].cancels[steps[i].c].token == None
  {
    DiscardedStays(states, steps, d + 1, i, job);
  }

  lemma {:induction false} DiscardedStays(states: seq<State>, steps: seq<Step>, a: nat, b: nat, job: string)
    requires IsRun(states, steps) && a <= b <= |steps|
    requires job in states[a].registry.discarded && job !in states[a].registry.tokens
    requires forall m | a <= m < b && steps[m].Register? :: steps[m].job != job
    ensures job in states[b].registry.discarded && job !in states[b].registry.tokens
  {
    if a < b {
      DiscardedStays(states, steps, a, b - 1, job);
    }
  }

  // ---------------------------------------------------------------------------------------------
  // No spurious cancellation
  // ---------------------------------------------------------------------------------------------

  ghost predicate EndedCancelled(me: LaunchCell) {
    || (me.phase.Finished? && me.phase.outcome.RunCancelled?)
    || (me.phase.Discarded? && me.phase.outcome.RunCancelled?)
  }

  lemma StepKeepsCause(s: State, step: Step, l: LaunchId)
    requires Enabled(s, step)
    requires l in Next(s, step).launches && EndedCancelled(Next(s, step).launches[l])
    requires l in s.launches && EndedCancelled(s.launches[l]) ==> Flagged(s, l)
    ensures Flagged(Next(s, step), l)
  {
  }

  lemma {:induction false} CancelledWasFlagged(states: seq<State>, steps: seq<Step>, n: nat, l: LaunchId)
    requires IsRun(states, steps) && n < |states|
    requires l in states[n].launches && EndedCancelled(states[n].launches[l])
    ensures Flagged(states[n], l)
  {
    if n > 0 {
      var s, step := states[n - 1], steps[n - 1];
      if l in s.launches && EndedCancelled(s.launches[l]) {
        CancelledWasFlagged(states, steps, n - 1, l);
      }
      StepKeepsCause(s, step, l);
    }
  }

  /** Nothing is cancelled without a reason: behind every cancelled launch stands a cancel call
      for its own job that wrote its token. */
  lemma NoSpuriousCancellation(states: seq<State>, steps: seq<Step>, n: nat, l: LaunchId)
    requires IsRun(states, steps) && n < |states|
    requires l in states[n].launches && EndedCancelled(states[n].launches[l])
    ensures exists c :: WrittenBy(states[n], states[n].launches[l].token, c)
                        && states[n].cancels[c].job == states[n].launches[l].job
  {
    RunInv(states, steps, n);
    CancelledWasFlagged(states, steps, n, l);
    var t := states[n].launches[l].token;
    var c :| WrittenBy(states[n], t, c);
    assert TokenOf(states[n], t, states[n].launches[l].job) && TokenOf(states[n], t, states[n].cancels[c].job);
  }

  ghost predicate GivesReason(s: State, step: Step, t: TokenId) {
    step.Write? && step.c in s.cancels && s.cancels[step.c].token == Some(t) && s.cancels[step.c].reason != ""
  }

  /** The last reason written to a token by the first n steps. */
  ghost function LastReason(states: seq<State>, steps: seq<Step>, n: nat, t: TokenId): string
    requires n <= |steps| < |states|
  {
    if n == 0 then DEFAULT_REASON
    else if GivesReason(states[n - 1], steps[n - 1], t) then states[n - 1].cancels[steps[n - 1].c].reason
    else LastReason(states, steps, n - 1, t)
  }

  lemma {:induction false} TokenHoldsLastReason(states: seq<State>, steps: seq<Step>, n: nat, t: TokenId)
    requires IsRun(states, steps) && n <= |steps|
    ensures LastReason(states, steps, n, t) == if t in states[n].heap then states[n].heap[t].reason else DEFAULT_REASON
  {
    if n > 0 {
      TokenHoldsLastReason(states, steps, n - 1, t);
      StepKeepsReason(states[n - 1], steps[n - 1], t);
    }
  }

  lemma StepKeepsReason(s: State, step: Step, t: TokenId)
    requires Enabled(s, step)
    ensures t in Next(s, step).heap ==>
              Next(s, step).heap[t].reason ==
                if GivesReason(s, step, t) then s.cancels[step.c].reason else if t in s.heap then s.heap[t].reason else DEFAULT_REASON
    ensures t !in Next(s, step).heap ==> t !in s.heap && !GivesReason(s, step, t)
  {
  }

  ghost predicate ChecksLaunch(step: Step, l: LaunchId) {
    (step.CheckBefore? || step.CheckAfter?) && step.l == l
  }

  /** A launch that ends cancelled was ended by one of its own two checks, which saw the flag. */
  lemma {:induction false} CancelledByCheck(states: seq<State>, steps: seq<Step>, n: nat, l: LaunchId) returns (k: nat)
    requires IsRun(states, steps) && n <= |steps|
    requires l in states[n].launches && EndedCancelled(states[n].launches[l])
    ensures k < n && ChecksLaunch(steps[k], l) && Flagged(states[k], l) && states[k].launches[l].Undecided()
  {
    assert n > 0;
    var s, step := states[n - 1], steps[n - 1];
    if l in s.launches && EndedCancelled(s.launches[l]) {
      k := CancelledByCheck(states, steps, n - 1, l);
    } else {
      k := n - 1;
      StepEnds(s, step, l);
    }
  }

  ghost predicate HasRaised(me: LaunchCell) {
    EndedCancelled(me) && (me.phase.Discarded? || me.reason.Some?)
  }

  /** The error of a cancelled launch carries the last reason that any cancel had written to its token
      when the error was built, or the default if none had given one; a reason written between check and
      error counts.  A launch is discarded only after it has raised. */
  lemma {:induction false} RaisesLastReason(states: seq<State>, steps: seq<Step>, n: nat, l: LaunchId) returns (k: nat)
    requires IsRun(states, steps) && n <= |steps|
    requires l in states[n].launches && HasRaised(states[n].launches[l])
    ensures k < n && steps[k] == Raise(l)
    ensures states[n].launches[l].reason == Some(LastReason(states, steps, k, states[n].launches[l].token))
  {
    assert n > 0;
    var s, step := states[n - 1], steps[n - 1];
    if l in s.launches {
      OnlyCancelledRaise(states, steps, n - 1, l);
    }
    StepRaises(s, step, l);
    if HasRaised(s.launches[l]) {
      k := RaisesLastReason(states, steps, n - 1, l);
    } else {
      k := n - 1;
      TokenHoldsLastReason(states, steps, k, s.launches[l].token);
    }
  }

  lemma {:induction false} OnlyCancelledRaise(states: seq<State>, steps: seq<Step>, n: nat, l: LaunchId)
    requires IsRun(states, steps) && n <= |steps| && l in states[n].launches
    ensures states[n].launches[l].reason.Some? ==> EndedCancelled(states[n].launches[l])
  {
    if n > 0 {
      var s, step := states[n - 1], steps[n - 1];
      if l in s.launches {
        OnlyCancelledRaise(states, steps, n - 1, l);
        StepKeepsRaise(s, step, l);
      }
    }
  }

  lemma StepKeepsRaise(s: State, step: Step, l: LaunchId)
    requires Enabled(s, step) && l in s.launches && (s.launches[l].reason.Some? ==> EndedCancelled(s.launches[l]))
    ensures l in Next(s, step).launches
    ensures Next(s, step).launches[l].reason.Some? ==> EndedCancelled(Next(s, step).launches[l])
  {
  }

  lemma StepRaises(s: State, step: Step, l: LaunchId)
    requires Enabled(s, step) && l in Next(s, step).launches && HasRaised(Next(s, step).launches[l])
    requires l in s.launches && s.launches[l].reason.Some? ==> EndedCancelled(s.launches[l])
    ensures l in s.launches && Next(s, step).launches[l].token == s.launches[l].token
    ensures HasRaised(s.launches[l]) ==> Next(s, step).launches[l].reason == s.launches[l].reason
    ensures !HasRaised(s.launches[l]) ==>
              && step == Raise(l) && s.launches[l].token in s.heap
              && Next(s, step).launches[l].reason == Some(s.heap[s.launches[l].token].reason)
  {
  }

  lemma StepEnds(s: State, step: Step, l: LaunchId)
    requires Enabled(s, step) && l in Next(s, step).launches && EndedCancelled(Next(s, step).launches[l])
    requires l in s.launches ==> !EndedCancelled(s.launches[l])
    ensures ChecksLaunch(step, l) && Flagged(s, l) && s.launches[l].Undecided()
  {
  }

  /** A cancel still in flight when a retry registers a fresh token can never touch it, and if the
      retry is cancelled, the call that did it looked its token up after the retry registered. */
  lemma RetryIsIsolated(states: seq<State>, steps: seq<Step>, m: nat, n: nat)
    requires IsRun(states, steps) && m < n <= |steps|
    requires steps[m].Register? && steps[m].job !in states[m].registry.tokens
    ensures steps[m].l in states[n].launches
    ensures forall c | c in states[m].cancels ::
              c in states[n].cancels && states[n].cancels[c].token != Some(states[n].launches[steps[m].l].token)
    ensures EndedCancelled(states[n].launches[steps[m].l]) ==>
              exists c :: WrittenBy(states[n], states[n].launches[steps[m].l].token, c)
                          && c !in states[m].cancels && states[n].cancels[c].job == steps[m].job
  {
    var l := steps[m].l;
    RunInv(states, steps, m);
    RunGrows(states, steps, m + 1, n);
    RunGrows(states, steps, m, n);
    assert states[m + 1].launches[l].token == steps[m].spare;
    forall c | c in states[m].cancels
      ensures c in states[n].cancels && states[n].cancels[c].token != Some(states[n].launches[l].token)
    {
      assert states[m].cancels[c].token.Some? ==> TokenOf(states[m], states[m].cancels[c].token.value, states[m].cancels[c].job);
    }
    if EndedCancelled(states[n].launches[l]) {
      NoSpuriousCancellation(states, steps, n, l);
    }
  }

  // ---------------------------------------------------------------------------------------------
  // Why one launch per job
  // ---------------------------------------------------------------------------------------------

  lemma RunSnoc(states: seq<State>, steps: seq<Step>, step: Step)
    requires IsRun(states, steps) && Enabled(states[|steps|], step)
    ensures IsRun(states + [Next(states[|steps|], step)], steps + [step])
  {
  }

  /** The rest of a launch that nobody disturbs and that has nothing to materialise. */
  lemma UndisturbedReturns(states: seq<State>, steps: seq<Step>, l: LaunchId)
    returns (states': seq<State>, steps': seq<Step>)
    requires IsRun(states, steps)
    requires var s := states[|steps|];
             && l in s.launches && s.launches[l].phase.Registered? && s.launches[l].workflow == AnalyzeOnly(0)
             && s.launches[l].token in s.heap && !s.heap[s.launches[l].token].cancelled
    ensures IsRun(states', steps') && states <= states' && steps <= steps'
    ensures var s, s' := states[|steps|], states'[|steps'|];
            && s'.heap == s.heap && s'.registry == s.registry && s'.cancels == s.cancels
            && s'.launches.Keys == s.launches.Keys
            && (forall m | m in s.launches && m != l :: s'.launches[m] == s.launches[m])
            && s'.launches[l].phase == Finished(ResultReturned) && s'.launches[l].job == s.launches[l].job
  {
    var a := Next(states[|steps|], CheckBefore(l));
    RunSnoc(states, steps, CheckBefore(l));
    var b := Next(a, EndMaterialise(l, Succeeded));
    RunSnoc(states + [a], steps + [CheckBefore(l)], EndMaterialise(l, Succeeded));
    var c := Next(b, CheckAfter(l));
    RunSnoc(states + [a] + [b], steps + [CheckBefore(l)] + [EndMaterialise(l, Succeeded)], CheckAfter(l));
    states' := states + [a] + [b] + [c];
    steps' := steps + [CheckBefore(l)] + [EndMaterialise(l, Succeeded)] + [CheckAfter(l)];
  }

  ghost predicate LosesCancellation(states: seq<State>, steps: seq<Step>, l: LaunchId, i: nat) {
    && IsRun(states, steps) && i < |steps| && steps[i].Locate?
    && l in states[i].launches && states[i].launches[l].job == steps[i].job && states[i].launches[l].Undecided()
    && steps[i].c in states[i + 1].cancels && states[i + 1].cancels[steps[i].c].token == None
    && l in states[|steps|].launches && states[|steps|].launches[l].phase == Finished(ResultReturned)
  }

  /** Without it the theorem fails.  Two launches share job "j"; the first to finish discards the
      token they share, a cancel is then refused, and the second launch, live and undecided all
      along, returns its result. */
  lemma SharedIdLosesCancellation()
    ensures exists states: seq<State>, steps: seq<Step>, l: LaunchId, i: nat :: LosesCancellation(states, steps, l, i)
  {
    var w := AnalyzeOnly(0);
    var s1 := Next(Start, Register(0, "j", w, 0));
    RunSnoc([Start], [], Register(0, "j", w, 0));
    var s2 := Next(s1, Register(1, "j", w, 1));
    RunSnoc([Start] + [s1], [] + [Register(0, "j", w, 0)], Register(1, "j", w, 1));
    var states, steps := UndisturbedReturns([Start] + [s1] + [s2], [] + [Register(0, "j", w, 0)] + [Register(1, "j", w, 1)], 0);
    SharedIdSecondHalf(states, steps);
  }

  lemma SharedIdSecondHalf(states: seq<State>, steps: seq<Step>)
    requires IsRun(states, steps)
    requires var s := states[|steps|];
             && s.launches.Keys == {0, 1} && s.cancels == map[]
             && s.launches[0].job == "j" && s.launches[0].phase == Finished(ResultReturned)
             && s.launches[1] == LaunchCell("j", AnalyzeOnly(0), 0, Registered, [], None)
             && s.heap == map[0 := NewToken("j")]
    ensures exists states: seq<State>, steps: seq<Step>, l: LaunchId, i: nat :: LosesCancellation(states, steps, l, i)
  {
    var a := Next(states[|steps|], Discard(0));
    RunSnoc(states, steps, Discard(0));
    var b := Next(a, Locate(0, "j", 2, ""));
    RunSnoc(states + [a], steps + [Discard(0)], Locate(0, "j", 2, ""));
    var states', steps' := UndisturbedReturns(states + [a] + [b], steps + [Discard(0)] + [Locate(0, "j", 2, "")], 1);
    assert states'[|steps| + 1] == a && states'[|steps| + 2] == b && steps'[|steps| + 1] == Locate(0, "j", 2, "");
    assert LosesCancellation(states', steps', 1, |steps| + 1);
  }
}
