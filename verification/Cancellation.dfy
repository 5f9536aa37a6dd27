/** Cancellation tokens and the per-process registry that hands them out
    (app/orchestration/cancellation.py).

    `RegistryState` is the value the registry's lock protects; each of its functions is one
    critical section.  The class below performs those sections on real token objects, and
    LaunchProtocol interleaves the same sections between threads. */
module Cancellation {
  import opened Basics

  const DEFAULT_REASON := "platform_user_cancelled"

  datatype RegistryState<T> = RegistryState(tokens: map<string, T>, discarded: set<string>) {

    /** No id is both live and discarded, and no two live ids share a token. */
    ghost predicate Consistent() {
      && tokens.Keys !! discarded
      && forall a, b | a in tokens && b in tokens && a != b :: tokens[a] != tokens[b]
    }

    function Register(job: string, spare: T): RegistryState<T> {
      RegistryState(if job in tokens then tokens else tokens[job := spare], discarded - {job})
    }

    /** First half of `cancel`: find the token, or leave a pre-cancel token behind. */
    function Locate(job: string, spare: T): RegistryState<T> {
      if job in tokens || job in discarded then this else this.(tokens := tokens[job := spare])
    }

    function Discard(job: string): RegistryState<T> {
      RegistryState(tokens - {job}, discarded + {job})
    }
  }

  /** Each critical section keeps the registry consistent, for a token nobody else holds. */
  lemma SectionsKeepConsistency<T(!new)>(r: RegistryState<T>, job: string, spare: T)
    requires r.Consistent() && spare !in r.tokens.Values
    ensures r.Register(job, spare).Consistent()
    ensures r.Locate(job, spare).Consistent()
    ensures r.Discard(job).Consistent()
    ensures r.Discard(job).Locate(job, spare) == r.Discard(job)
    ensures job in r.Locate(job, spare).tokens ==>
              r.Locate(job, spare).Register(job, spare).tokens == r.Locate(job, spare).tokens
  {
    assert forall j | j in r.tokens :: r.tokens[j] in r.tokens.Values;
  }

  class CancellationToken {
    var reasonCode: string
    var cancelled: bool

    constructor ()
      ensures !cancelled && reasonCode == DEFAULT_REASON
    {
      reasonCode := DEFAULT_REASON;
      cancelled := false;
    }

    /** An absent or empty reason leaves the previous one in place. */
    method Cancel(reason: Option<string>)
      modifies this
      ensures cancelled
      ensures reasonCode == if reason.Some? && reason.value != "" then reason.value else old(reasonCode)
    {
      cancelled := true;
      if reason.Some? && reason.value != "" {
        reasonCode := reason.value;
      }
    }

    /** Err carries the reason of the RunCancelledError. */
    method RaiseIfCancelled() returns (r: Result<(), string>)
      ensures r == if cancelled then Err(reasonCode) else Ok(())
    {
      r := if cancelled then Err(reasonCode) else Ok(());
    }
  }

  class CancellationRegistry {
    var tokens: map<string, CancellationToken>
    var discarded: set<string>

    ghost function State(): RegistryState<CancellationToken>
      reads this
    {
      RegistryState(tokens, discarded)
    }

    ghost predicate Valid()
      reads this
    {
      State().Consistent()
    }

    constructor ()
      ensures Valid() && State() == RegistryState(map[], {})
    {
      tokens := map[];
      discarded := {};
    }

    /** A token left behind by an earlier cancel is handed out unchanged, so the launch sees it. */
    method Register(job: string) returns (token: CancellationToken)
      requires Valid()
      modifies this
      ensures Valid()
      ensures job in old(tokens) ==> token == old(tokens[job])
      ensures job !in old(tokens) ==> fresh(token) && !token.cancelled && token.reasonCode == DEFAULT_REASON
      ensures State() == old(State()).Register(job, token)
      ensures job in tokens && tokens[job] == token && job !in discarded
    {
      discarded := discarded - {job};
      if job in tokens {
        token := tokens[job];
      } else {
        token := new CancellationToken();
        tokens := tokens[job := token];
      }
    }

    /** The critical section of `Cancel` under the registry's lock. */
    method Locate(job: string) returns (token: Option<CancellationToken>)
      requires Valid()
      modifies this
      ensures Valid()
      ensures token == (if job in tokens then Some(tokens[job]) else None)
      ensures token.None? <==> job in old(discarded)
      ensures job in old(tokens) || job in old(discarded) ==> State() == old(State())
      ensures job !in old(tokens) && job !in old(discarded) ==>
                && fresh(tokens[job]) && !tokens[job].cancelled && tokens[job].reasonCode == DEFAULT_REASON
                && State() == old(State()).Locate(job, tokens[job])
    {
      if job in tokens {
        return Some(tokens[job]);
      }
      if job in discarded {
        return None;
      }
      var created := new CancellationToken();
      tokens := tokens[job := created];
      return Some(created);
    }

    /** Accepted exactly when the job was not discarded; then the token registered for the job,
        and no other, carries the signal. */
    method Cancel(job: string, reason: string) returns (accepted: bool)
      requires Valid()
      modifies this, if job in tokens then {tokens[job]} else {}
      ensures Valid()
      ensures accepted <==> job !in old(discarded)
      ensures accepted ==> job in tokens && tokens[job].cancelled
      ensures accepted ==>
                tokens[job].reasonCode == if reason != "" then reason
                                          else if job in old(tokens) then old(if job in tokens then tokens[job].reasonCode else "")
                                          else DEFAULT_REASON
      ensures !accepted ==> State() == old(State())
      ensures job in old(tokens) ==> State() == old(State())
      ensures accepted && job !in old(tokens) ==>
                fresh(tokens[job]) && State() == old(State()).Locate(job, tokens[job])
    {
      var token := Locate(job);
      if token.None? {
        return false;
      }
      token.value.Cancel(Some(reason));
      return true;
    }

    method IsCancelled(job: string) returns (r: bool)
      ensures r <==> job in tokens && tokens[job].cancelled
    {
      r := job in tokens && tokens[job].cancelled;
    }

    method Discard(job: string)
      requires Valid()
      modifies this
      ensures Valid() && State() == old(State()).Discard(job)
    {
      tokens := tokens - {job};
      discarded := discarded + {job};
    }
  }
}
