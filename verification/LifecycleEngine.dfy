/** The engine object: its run loop, state handlers and failsafe, which update their fields in place. */
module LifecycleEngine {
  import opened Lifecycle
  import opened Wrappers

  /** Records what is asked of the VM and the host network, in order. */
  class Host {
    var log: seq<Entry>

    constructor ()
      ensures log == []
    {
      log := [];
    }

    method Record(x: Entry)
      modifies this
      ensures log == old(log) + [x]
    {
      log := log + [x];
    }
  }

  class FailSafe {
    const host: Host
    var active: bool

    constructor (host: Host)
      ensures this.host == host && !active
    {
      this.host := host;
      active := false;
    }

    /** Switching the failsafe on tears down the routing, but only if it was off. */
    method Activate()
      modifies this, host
      ensures active
      ensures host.log == if old(active) then old(host.log) else old(host.log) + [CalledTeardownRouting]
    {
      if active {
        return;
      }
      host.Record(CalledTeardownRouting);
      active := true;
    }

    method Deactivate()
      modifies this
      ensures !active
    {
      if !active {
        return;
      }
      active := false;
    }
  }

  class Engine {
    const policy: Policy
    const host: Host
    const failsafe: FailSafe
    var state: State
    var attempts: map<State, nat>
    var savedNet: Option<SavedConfig>
    var torControl: bool

    ghost predicate Valid() {
      failsafe.host == host
    }

    /** The engine as a value, with what its run loop has returned. */
    ghost function Value(returned: Option<Outcome>): (e: Snapshot)
      reads this, host, failsafe
    {
      Snapshot(state, attempts, savedNet, torControl, failsafe.active, host.log, returned)
    }

    constructor (policy: Policy)
      ensures Valid() && fresh(host) && fresh(failsafe) && this.policy == policy
      ensures Value(None) == NewSnapshot()
    {
      this.policy := policy;
      state, attempts, savedNet, torControl := Start, map[], None, false;
      var h := new Host();
      var f := new FailSafe(h);
      host, failsafe := h, f;
    }

    method Move(next: State)
      requires Valid()
      modifies this
      ensures Value(None) == Transition(old(Value(None)), next)
    {
      attempts := attempts - {state};
      state := next;
    }

    method SaveConfig(a: Answers) returns (f: Option<Failure>)
      requires Valid()
      modifies this, host
      ensures Handled(Value(None), f) == DoSaveNetwork(old(Value(None)), a)
    {
      if a.failure.Some? {
        return a.failure;
      }
      host.Record(Saved(a.saved));
      savedNet := Some(a.saved);
      Move(CreateTAP);
      f := None;
    }

    method CreateTap(a: Answers) returns (f: Option<Failure>)
      requires Valid()
      modifies this, host
      ensures Handled(Value(None), f) == DoCreateTAP(old(Value(None)), a)
    {
      if !a.reached {
        return Some(Message("invalid HostIP"));
      }
      host.Record(CalledCreateTAP);
      f := MoveUnless(LaunchVM, a.failure);
    }

    /** Moves on unless the call just made has failed. */
    method MoveUnless(next: State, failure: Option<Failure>) returns (f: Option<Failure>)
      requires Valid()
      modifies this
      ensures Handled(Value(None), f) == Advance(old(Value(None)), next, failure)
    {
      f := failure;
      if f.None? {
        Move(next);
      }
    }

    method Launch(a: Answers) returns (f: Option<Failure>)
      requires Valid()
      modifies this, host
      ensures Handled(Value(None), f) == Advance(Note(old(Value(None)), CalledStartVM), WaitTAP, a.failure)
    {
      host.Record(CalledStartVM);
      f := MoveUnless(WaitTAP, a.failure);
    }

    method ConfigureTap(a: Answers) returns (f: Option<Failure>)
      requires Valid()
      modifies this, host
      ensures Handled(Value(None), f) == DoConfigureTAP(old(Value(None)), a)
    {
      if !a.reached {
        return Some(Message("invalid VMIP"));
      }
      host.Record(CalledSetupRouting);
      f := MoveUnless(FlushDNS, a.failure);
    }

    method FlushDns(a: Answers)
      requires Valid()
      modifies this, host
      ensures Handled(Value(None), None) == DoFlushDNS(old(Value(None)), a)
    {
      host.Record(CalledFlushDNS);
      if a.torControl {
        torControl := true;
      }
      Move(WaitBootstrap);
    }

    method StayRunning(a: Answers)
      requires Valid()
      modifies this, host, failsafe
      ensures Handled(Value(None), None) == DoRunning(old(Value(None)), a)
    {
      failsafe.Deactivate();
      if a.exitedUnexpectedly {
        host.Record(ExitedUnexpectedly);
        failsafe.Activate();
      }
      Move(Shutdown);
    }

    method Stop(a: Answers)
      requires Valid()
      modifies this, host
      ensures Handled(Value(None), None) == DoShutdown(old(Value(None)), a)
    {
      torControl := false;
      if a.vmRunning {
        host.Record(CalledStopVM);
      }
      Move(RestoreNetwork);
    }

    method Restore(a: Answers)
      requires Valid()
      modifies this, host, failsafe
      ensures Handled(Value(None), None) == DoRestoreNetwork(old(Value(None)), a)
    {
      host.Record(CalledTeardownRouting);
      if a.teardownFails {
        failsafe.Activate();
      }
      if savedNet.Some? {
        host.Record(Restored(savedNet.value));
      }
      host.Record(CalledDestroyTAP);
      Move(Cleanup);
    }

    /** One state's work: what the run loop returns, if it returns here, and the state's error, if it fails. */
    method Execute(a: Answers) returns (outcome: Option<Outcome>, f: Option<Failure>)
      requires Valid()
      modifies this, host, failsafe
      ensures Handled(Value(outcome), f) == Handle(old(Value(None)), a)
      ensures f.Some? ==> outcome == None
    {
      outcome, f := None, None;
      match state
      case Start => Move(CheckPrivileges);
      case CheckPrivileges =>
        if a.privileged {
          Move(SaveNetwork);
        } else {
          outcome := Some(NotPrivileged);
        }
      case SaveNetwork => f := SaveConfig(a);
      case CreateTAP => f := CreateTap(a);
      case LaunchVM => f := Launch(a);
      case WaitTAP => f := MoveUnless(ConfigureTAP, a.failure);
      case ConfigureTAP => f := ConfigureTap(a);
      case FlushDNS => FlushDns(a);
      case WaitBootstrap => f := MoveUnless(Running, a.failure);
      case Running => StayRunning(a);
      case Shutdown => Stop(a);
      case RestoreNetwork => Restore(a);
      case Cleanup =>
        failsafe.Deactivate();
        outcome := Some(Finished);
      case Failed => outcome := Some(EnteredFailed);
    }

    /** What the run loop does with a state's error: another attempt, or the failsafe and the way down. */
    method RetryOrGiveUp(f: Failure, a: Answers)
      requires Valid()
      modifies this, host, failsafe
      ensures Value(None) == Recover(policy, old(Value(None)), f, a)
    {
      var attempt := if state in attempts then attempts[state] else 0;
      if ShouldRetry(policy, state, f, attempt) {
        attempts := attempts[state := attempt + 1];
        if a.cancelledInBackoff {
          Move(Shutdown);
        }
      } else {
        host.Record(FailedPermanently(state));
        failsafe.Activate();
        Move(Shutdown);
      }
    }

    /** Deals with the error of a state that has failed. */
    method SettleError(f: Option<Failure>, a: Answers, ghost outcome: Option<Outcome>)
      requires Valid() && (f.Some? ==> outcome == None)
      modifies this, host, failsafe
      ensures Value(outcome) == Settle(policy, Handled(old(Value(outcome)), f), a)
    {
      if f.Some? {
        RetryOrGiveUp(f.value, a);
      }
    }

    /** A pass of the run loop past the look at the context. */
    method Proceed(a: Answers) returns (outcome: Option<Outcome>)
      requires Valid()
      modifies this, host, failsafe
      ensures Value(outcome) == Settle(policy, Handle(old(Value(None)), a), a)
    {
      var f: Option<Failure>;
      outcome, f := Execute(a);
      SettleError(f, a, outcome);
    }

    /** One pass of the run loop. */
    method Step(a: Answers) returns (outcome: Option<Outcome>)
      requires Valid()
      modifies this, host, failsafe
      ensures Value(outcome) == Pass(policy, old(Value(None)), a)
    {
      if a.cancelled {
        Move(Shutdown);
      }
      outcome := Proceed(a);
    }

    /**
     The run loop, in a context that is never cancelled: it stops within the budget, and its passes form a run in the
     sense of `IsRun`, to which everything proved about runs applies.
     */
    method Run(env: nat -> Answers) returns (outcome: Outcome, ghost h: seq<Snapshot>)
      requires Valid() && Value(None) == NewSnapshot()
      requires forall i: nat :: !env(i).cancelled
      modifies this, host, failsafe
      ensures IsRun(policy, env, h) && h[|h| - 1] == Value(Some(outcome))
      ensures |h| <= Budget(policy, Start) + 1 && outcome in {Finished, NotPrivileged}
    {
      h := [Value(None)];
      var pass := 0;
      while true
        invariant Valid() && Underway(policy, env, h) && |h| == pass + 1 && h[pass] == Value(None)
        decreases Measure(policy, h[pass])
      {
        var answers := env(pass);
        var returned := Step(answers);
        OnePassMore(policy, env, h, Value(returned));
        h := h + [Value(returned)];
        pass := pass + 1;
        if returned.Some? {
          outcome := returned.value;
          return;
        }
      }
    }
  }

  /** A run that no pass has found cancelled, with its passes paid for. */
  ghost predicate Underway(p: Policy, env: nat -> Answers, h: seq<Snapshot>) {
    IsRun(p, env, h) && WithinBudget(p, h[|h| - 1], |h| - 1)
  }

  lemma OnePassMore(p: Policy, env: nat -> Answers, h: seq<Snapshot>, t: Snapshot)
    requires Underway(p, env, h) && h[|h| - 1].returned.None? && !env(|h| - 1).cancelled
    requires t == Pass(p, h[|h| - 1], env(|h| - 1))
    ensures Underway(p, env, h + [t]) && |h| <= Budget(p, Start)
    ensures t.returned.None? ==> 0 <= Measure(p, t) < Measure(p, h[|h| - 1])
    ensures t.returned.Some? ==> ReturnedProperly(t)
  {
    PassSpendsBudget(p, h[|h| - 1], env(|h| - 1), |h| - 1);
    MeasureIsPositive(p, h[|h| - 1]);
    MeasureIsPositive(p, t);
    assert (h + [t])[..|h|] == h;
    RunGrows(p, env, h + [t]);
  }
}
