/** The registry and its tokens as callers see them.  Whatever calls are made one after the other, each
    answer follows from the calls before it alone: per job id a three-state automaton, without maps,
    token objects or flags (app/orchestration/cancellation.py). */
module RegistryHistory {
  import opened Basics
  import opened Cancellation

  /** `Check` is `raise_if_cancelled` on the token that the register call at position `at` handed out. */
  datatype Call =
    | Register(job: string)
    | Cancel(job: string, reason: string)
    | Ask(job: string)
    | Check(at: nat)
    | Discard(job: string)

  datatype Answer = Silent | Accepted(yes: bool) | IsCancelled(cancelled: bool) | Raises(reason: Option<string>)

  datatype JobState = Unknown | Live(cancelled: bool, reason: string) | Gone

  // ---------------------------------------------------------------------------------------------
  // What the answers are
  // ---------------------------------------------------------------------------------------------

  function React(j: JobState, call: Call): JobState {
    match call
    case Register(_) => if j.Live? then j else Live(false, DEFAULT_REASON)
    case Cancel(_, why) =>
      if j.Gone? then Gone
      else Live(true, if why != "" then why else if j.Live? then j.reason else DEFAULT_REASON)
    case Discard(_) => Gone
    case _ => j
  }

  predicate About(call: Call, job: string) {
    (call.Register? || call.Cancel? || call.Discard?) && call.job == job
  }

  function JobAfter(calls: seq<Call>, job: string): JobState {
    if calls == [] then Unknown
    else
      var before, call := JobAfter(calls[..|calls| - 1], job), calls[|calls| - 1];
      if About(call, job) then React(before, call) else before
  }

  /** How far the token handed out at position `at` follows its job: up to the first discard after it. */
  function Follows(calls: seq<Call>, at: nat): (n: nat)
    requires at < |calls| && calls[at].Register?
    ensures at < n <= |calls|
  {
    var n := |calls| - 1;
    if at == n then n + 1
    else
      var before := Follows(calls[..n], at);
      if before < n || calls[n] == Discard(calls[at].job) then before else n + 1
  }

  /** The state of that token: its job's state, frozen by the discard. */
  function TokenAfter(calls: seq<Call>, at: nat): JobState
    requires at < |calls| && calls[at].Register?
  {
    JobAfter(calls[..Follows(calls, at)], calls[at].job)
  }

  /** The answer to a call, given the calls before it. */
  function AnswerTo(calls: seq<Call>, call: Call): Answer {
    match call
    case Cancel(job, _) => Accepted(!JobAfter(calls, job).Gone?)
    case Ask(job) => IsCancelled(JobAfter(calls, job).Live? && JobAfter(calls, job).cancelled)
    case Check(at) =>
      if at < |calls| && calls[at].Register? then
        Raises(if TokenAfter(calls, at).Live? && TokenAfter(calls, at).cancelled then Some(TokenAfter(calls, at).reason) else None)
      else Silent
    case _ => Silent
  }

  /** The answers to further calls. */
  function AnswersFrom(made: seq<Call>, calls: seq<Call>): (answers: seq<Answer>)
    ensures |answers| == |calls|
    decreases |calls|
  {
    if calls == [] then [] else [AnswerTo(made, calls[0])] + AnswersFrom(made + [calls[0]], calls[1..])
  }

  lemma {:induction false} AnswersAt(made: seq<Call>, calls: seq<Call>, k: nat)
    requires k < |calls|
    ensures AnswersFrom(made, calls)[k] == AnswerTo(made + calls[..k], calls[k])
    decreases |calls|
  {
    if k == 0 {
      assert made + calls[..0] == made;
    } else {
      AnswersAt(made + [calls[0]], calls[1..], k - 1);
      assert made + [calls[0]] + calls[1..][..k - 1] == made + calls[..k];
    }
  }

  // ---------------------------------------------------------------------------------------------
  // What the answers mean
  // ---------------------------------------------------------------------------------------------

  lemma JobSnoc(calls: seq<Call>, call: Call, job: string)
    ensures JobAfter(calls + [call], job) == if About(call, job) then React(JobAfter(calls, job), call) else JobAfter(calls, job)
  {
    assert (calls + [call])[..|calls|] == calls;
  }

  /** A token that was handed out is live in its job's state for as long as it follows it. */
  lemma {:induction false} TokenIsLive(calls: seq<Call>, at: nat)
    requires at < |calls| && calls[at].Register?
    ensures TokenAfter(calls, at).Live?
    ensures Follows(calls, at) == |calls| || calls[Follows(calls, at)] == Discard(calls[at].job)
  {
    var n := |calls| - 1;
    assert calls == calls[..n] + [calls[n]];
    if at == n {
      JobSnoc(calls[..n], calls[n], calls[at].job);
      assert calls[..n + 1] == calls;
    } else {
      TokenIsLive(calls[..n], at);
      var before := Follows(calls[..n], at);
      assert calls[..n][..before] == calls[..before];
      if before == n && calls[n] != Discard(calls[at].job) {
        JobSnoc(calls[..n], calls[n], calls[at].job);
        assert calls[..n + 1] == calls;
      }
    }
  }

  lemma FollowsSnoc(calls: seq<Call>, call: Call, at: nat)
    requires at < |calls| && calls[at].Register?
    ensures Follows(calls + [call], at) ==
            if Follows(calls, at) < |calls| || call == Discard(calls[at].job) then Follows(calls, at) else |calls| + 1
    ensures TokenAfter(calls + [call], at) ==
            if Follows(calls, at) < |calls| || call == Discard(calls[at].job) then TokenAfter(calls, at)
            else JobAfter(calls + [call], calls[at].job)
  {
    var all := calls + [call];
    assert all[..|calls|] == calls && all[..|all|] == all;
    assert all[..Follows(calls, at)] == calls[..Follows(calls, at)];
  }

  /** Once cancelled, a job stays cancelled until it is discarded. */
  lemma {:induction false} CancellationStands(calls: seq<Call>, more: seq<Call>, job: string)
    requires JobAfter(calls, job).Live? && JobAfter(calls, job).cancelled
    requires forall i | 0 <= i < |more| :: more[i] != Discard(job)
    ensures JobAfter(calls + more, job).Live? && JobAfter(calls + more, job).cancelled
  {
    if more == [] {
      assert calls + more == calls;
    } else {
      var front, last := more[..|more| - 1], more[|more| - 1];
      CancellationStands(calls, front, job);
      assert calls + more == (calls + front) + [last];
      JobSnoc(calls + front, last, job);
    }
  }

  // ---------------------------------------------------------------------------------------------
  // The objects give these answers
  // ---------------------------------------------------------------------------------------------

  ghost predicate Shows(token: CancellationToken, j: JobState)
    reads token
  {
    j.Live? && token.cancelled == j.cancelled && token.reasonCode == j.reason
  }

  /** The registry's maps and the flag of its token hold the automaton's state of the job. */
  ghost predicate TracksJob(r: CancellationRegistry, calls: seq<Call>, job: string)
    reads r, r.tokens.Values
  {
    match JobAfter(calls, job)
    case Unknown => job !in r.tokens && job !in r.discarded
    case Gone => job !in r.tokens && job in r.discarded
    case Live(_, _) => job in r.tokens && Shows(r.tokens[job], JobAfter(calls, job))
  }

  /** A token handed out shows its state; it is the registered one until its job is discarded. */
  ghost predicate TracksToken(r: CancellationRegistry, calls: seq<Call>, handed: map<nat, CancellationToken>, at: nat)
    requires at < |calls| && calls[at].Register?
    reads r, handed.Values
  {
    && at in handed && Shows(handed[at], TokenAfter(calls, at))
    && (if Follows(calls, at) == |calls| then calls[at].job in r.tokens && r.tokens[calls[at].job] == handed[at]
        else handed[at] !in r.tokens.Values)
  }

  ghost predicate Tracks(r: CancellationRegistry, calls: seq<Call>, handed: map<nat, CancellationToken>)
    reads r, r.tokens.Values, handed.Values
  {
    && r.Valid()
    && (forall job: string :: TracksJob(r, calls, job))
    && (forall at: nat :: at in handed <==> at < |calls| && calls[at].Register?)
    && (forall at: nat | at < |calls| && calls[at].Register? :: TracksToken(r, calls, handed, at))
  }

  /** What one more call means for a token handed out before. */
  lemma TokenSnoc(calls: seq<Call>, call: Call, at: nat)
    requires at < |calls| && calls[at].Register?
    ensures (calls + [call])[at] == calls[at]
    ensures var all := calls + [call];
            TokenAfter(all, at) ==
              (if Follows(calls, at) < |calls| || call == Discard(calls[at].job) then TokenAfter(calls, at)
               else JobAfter(all, calls[at].job))
            && (Follows(all, at) == |all| <==> Follows(calls, at) == |calls| && call != Discard(calls[at].job))
            && TokenAfter(all, at).Live?
    ensures Follows(calls, at) == |calls| ==> TokenAfter(calls, at) == JobAfter(calls, calls[at].job)
    ensures JobAfter(calls + [call], calls[at].job) ==
            if About(call, calls[at].job) then React(JobAfter(calls, calls[at].job), call) else JobAfter(calls, calls[at].job)
  {
    FollowsSnoc(calls, call, at);
    TokenIsLive(calls + [call], at);
    JobSnoc(calls, call, calls[at].job);
    assert calls[..|calls|] == calls;
  }

  /** Once a token is seen cancelled it is cancelled for ever, whatever is called, discards included. */
  lemma {:induction false} TokenStaysCancelled(calls: seq<Call>, more: seq<Call>, at: nat)
    requires at < |calls| && calls[at].Register?
    requires TokenAfter(calls, at).Live? && TokenAfter(calls, at).cancelled
    ensures (calls + more)[at] == calls[at]
    ensures TokenAfter(calls + more, at).Live? && TokenAfter(calls + more, at).cancelled
  {
    if more == [] {
      assert calls + more == calls;
    } else {
      var front, last := more[..|more| - 1], more[|more| - 1];
      TokenStaysCancelled(calls, front, at);
      assert calls + more == (calls + front) + [last];
      TokenSnoc(calls + front, last, at);
    }
  }

  method PerformRegister(r: CancellationRegistry, ghost calls: seq<Call>, handed: map<nat, CancellationToken>,
                         position: nat, job: string)
    returns (handed': map<nat, CancellationToken>)
    requires Tracks(r, calls, handed) && position == |calls|
    modifies r
    ensures Tracks(r, calls + [Register(job)], handed')
    ensures forall j | j in r.tokens :: r.tokens[j] in old(r.tokens.Values) || fresh(r.tokens[j])
  {
    ghost var all := calls + [Register(job)];
    assert TracksJob(r, calls, job);
    var token := r.Register(job);
    handed' := handed[position := token];
    forall j: string ensures TracksJob(r, all, j) {
      JobSnoc(calls, Register(job), j);
      assert old(TracksJob(r, calls, j));
    }
    forall at: nat | at < |all| && all[at].Register? ensures TracksToken(r, all, handed', at) {
      if at < |calls| {
        assert old(TracksToken(r, calls, handed, at));
        TokenSnoc(calls, Register(job), at);
        assert TracksJob(r, all, calls[at].job);
      } else {
        assert all[..|all|] == all;
        assert TracksJob(r, all, job);
      }
    }
  }

  method PerformCancel(r: CancellationRegistry, ghost calls: seq<Call>, ghost handed: map<nat, CancellationToken>,
                       job: string, why: string)
    returns (yes: bool)
    requires Tracks(r, calls, handed)
    modifies r, r.tokens.Values
    ensures Tracks(r, calls + [Cancel(job, why)], handed)
    ensures yes <==> !JobAfter(calls, job).Gone?
    ensures forall j | j in r.tokens :: r.tokens[j] in old(r.tokens.Values) || fresh(r.tokens[j])
  {
    ghost var all := calls + [Cancel(job, why)];
    assert TracksJob(r, calls, job);
    yes := r.Cancel(job, why);
    forall j: string ensures TracksJob(r, all, j) {
      JobSnoc(calls, Cancel(job, why), j);
      assert old(TracksJob(r, calls, j));
    }
    forall at: nat | at < |all| && all[at].Register? ensures TracksToken(r, all, handed, at) {
      assert old(TracksToken(r, calls, handed, at));
      TokenSnoc(calls, Cancel(job, why), at);
      assert TracksJob(r, all, calls[at].job);
    }
  }

  method PerformDiscard(r: CancellationRegistry, ghost calls: seq<Call>, ghost handed: map<nat, CancellationToken>, job: string)
    requires Tracks(r, calls, handed)
    modifies r
    ensures Tracks(r, calls + [Discard(job)], handed)
    ensures forall j | j in r.tokens :: r.tokens[j] in old(r.tokens.Values)
  {
    ghost var all := calls + [Discard(job)];
    r.Discard(job);
    forall j: string ensures TracksJob(r, all, j) {
      JobSnoc(calls, Discard(job), j);
      assert old(TracksJob(r, calls, j));
    }
    forall at: nat | at < |all| && all[at].Register? ensures TracksToken(r, all, handed, at) {
      assert old(TracksToken(r, calls, handed, at));
      TokenSnoc(calls, Discard(job), at);
    }
  }

  /** A call that only asks changes nothing. */
  lemma AskingKeeps(r: CancellationRegistry, calls: seq<Call>, handed: map<nat, CancellationToken>, call: Call)
    requires Tracks(r, calls, handed) && (call.Ask? || call.Check?)
    ensures Tracks(r, calls + [call], handed)
  {
    var all := calls + [call];
    forall j: string ensures TracksJob(r, all, j) {
      JobSnoc(calls, call, j);
      assert TracksJob(r, calls, j);
    }
    forall at: nat | at < |all| && all[at].Register? ensures TracksToken(r, all, handed, at) {
      assert TracksToken(r, calls, handed, at);
      TokenSnoc(calls, call, at);
    }
  }

  /** One call keeps the correspondence and gets the automaton's answer. */
  method Perform(r: CancellationRegistry, ghost calls: seq<Call>, handed: map<nat, CancellationToken>, position: nat, call: Call)
    returns (answer: Answer, handed': map<nat, CancellationToken>)
    requires Tracks(r, calls, handed) && position == |calls|
    modifies r, r.tokens.Values
    ensures Tracks(r, calls + [call], handed')
    ensures answer == AnswerTo(calls, call)
    ensures forall j | j in r.tokens :: r.tokens[j] in old(r.tokens.Values) || fresh(r.tokens[j])
  {
    handed', answer := handed, Silent;
    match call {
      case Register(job) =>
        handed' := PerformRegister(r, calls, handed, position, job);
      case Cancel(job, why) =>
        var yes := PerformCancel(r, calls, handed, job, why);
        answer := Accepted(yes);
      case Ask(job) =>
        AskingKeeps(r, calls, handed, call);
        assert TracksJob(r, calls, job);
        var cancelled := r.IsCancelled(job);
        answer := IsCancelled(cancelled);
      case Check(at) =>
        AskingKeeps(r, calls, handed, call);
        if at in handed {
          assert TracksToken(r, calls, handed, at);
          var raised := handed[at].RaiseIfCancelled();
          answer := Raises(if raised.Err? then Some(raised.error) else None);
        }
      case Discard(job) =>
        PerformDiscard(r, calls, handed, job);
    }
  }

  method ReplayOn(r: CancellationRegistry, ghost made: seq<Call>, handed: map<nat, CancellationToken>, position: nat, calls: seq<Call>)
    returns (answers: seq<Answer>)
    requires Tracks(r, made, handed) && position == |made|
    modifies r, r.tokens.Values
    ensures answers == AnswersFrom(made, calls)
    decreases |calls|
  {
    if calls == [] {
      return [];
    }
    var answer, handed' := Perform(r, made, handed, position, calls[0]);
    var rest := ReplayOn(r, made + [calls[0]], handed', position + 1, calls[1..]);
    return [answer] + rest;
  }

  /** Any sequence of calls on a new registry gets the automaton's answers. */
  method Replay(calls: seq<Call>) returns (answers: seq<Answer>)
    ensures answers == AnswersFrom([], calls)
  {
    var r := new CancellationRegistry();
    answers := ReplayOn(r, [], map[], 0, calls);
  }
}
