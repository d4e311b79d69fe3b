/** What a whole lifecycle run leaves behind: teardown, failsafe and cancellation. */
module LifecycleSafety {
  import opened Lifecycle
  import opened Wrappers

  // --------------------------------------------------- teardown and failsafe

  /** What has been set up and saved is put back by the time the run reaches Cleanup. */
  ghost predicate PutBack(e: Snapshot) {
    && (forall c :: Saved(c) in e.log <==> e.savedNet == Some(c))
    && (forall c :: Restored(c) in e.log ==> e.savedNet == Some(c))
    && (e.savedNet.Some? ==> Index(e.state) > Index(SaveNetwork))
    && (e.state == Cleanup ==> Undone(e))
    && (e.returned == Some(Finished) ==> e.state == Cleanup)
  }

  ghost predicate Undone(e: Snapshot) {
    && !RoutingUp(e.log) && CalledTeardownRouting in e.log
    && !TapUp(e.log) && CalledDestroyTAP in e.log
    && (e.savedNet.Some? ==> Restored(e.savedNet.value) in e.log)
  }

  /** An error-caused shutdown runs with the failsafe active, which means TeardownRouting follows every SetupRouting. */
  ghost predicate Guarded(e: Snapshot) {
    && e.state != Failed
    && (Troubled(e.log) ==> Index(e.state) >= Index(Shutdown))
    && (Troubled(e.log) && e.returned != Some(Finished) ==> e.failsafe)
    && (e.failsafe ==> Index(e.state) >= Index(Shutdown) && !RoutingUp(e.log))
    && (e.returned == Some(Finished) ==> !e.failsafe)
  }

  lemma SavingPutsBack(e: Snapshot, a: Answers)
    requires PutBack(e) && e.returned.None? && e.state == SaveNetwork
    ensures PutBack(DoSaveNetwork(e, a).engine)
  {
  }

  lemma RunningPutsBack(e: Snapshot, a: Answers)
    requires PutBack(e) && e.returned.None? && e.state == Running
    ensures PutBack(DoRunning(e, a).engine)
  {
  }

  lemma ShutdownPutsBack(e: Snapshot, a: Answers)
    requires PutBack(e) && e.returned.None? && e.state == Shutdown
    ensures PutBack(DoShutdown(e, a).engine)
  {
  }

  lemma TearingPutsBack(e: Snapshot, a: Answers)
    requires PutBack(e) && e.state != Cleanup
    ensures PutBack(TearRoutingDown(e, a))
    ensures !RoutingUp(TearRoutingDown(e, a).log) && CalledTeardownRouting in TearRoutingDown(e, a).log
  {
    Noting(e, CalledTeardownRouting);
    Noting(Note(e, CalledTeardownRouting), CalledTeardownRouting);
  }

  lemma RestoringSaved(e: Snapshot)
    requires PutBack(e) && e.state != Cleanup && !RoutingUp(e.log) && CalledTeardownRouting in e.log
    ensures PutBack(RestoreSaved(e)) && !RoutingUp(RestoreSaved(e).log)
    ensures CalledTeardownRouting in RestoreSaved(e).log
    ensures e.savedNet.Some? ==> Restored(e.savedNet.value) in RestoreSaved(e).log
  {
    if e.savedNet.Some? {
      Noting(e, Restored(e.savedNet.value));
    }
  }

  lemma DestroyingPutsBack(e: Snapshot)
    requires PutBack(e) && e.state == RestoreNetwork && e.returned.None?
    requires !RoutingUp(e.log) && CalledTeardownRouting in e.log
    requires e.savedNet.Some? ==> Restored(e.savedNet.value) in e.log
    ensures PutBack(Transition(Note(e, CalledDestroyTAP), Cleanup))
  {
    Noting(e, CalledDestroyTAP);
  }

  lemma RestoringPutsBack(e: Snapshot, a: Answers)
    requires PutBack(e) && e.returned.None? && e.state == RestoreNetwork
    ensures PutBack(DoRestoreNetwork(e, a).engine)
  {
    TearingPutsBack(e, a);
    var torn := TearRoutingDown(e, a);
    RestoringSaved(torn);
    DestroyingPutsBack(RestoreSaved(torn));
  }

  lemma FlushingPutsBack(e: Snapshot, a: Answers)
    requires PutBack(e) && e.returned.None? && e.state == FlushDNS
    ensures PutBack(DoFlushDNS(e, a).engine)
  {
  }

  lemma CreatingPutsBack(e: Snapshot, a: Answers)
    requires PutBack(e) && e.returned.None? && e.state == CreateTAP
    ensures PutBack(DoCreateTAP(e, a).engine)
  {
  }

  lemma ConfiguringPutsBack(e: Snapshot, a: Answers)
    requires PutBack(e) && e.returned.None? && e.state == ConfigureTAP
    ensures PutBack(DoConfigureTAP(e, a).engine)
  {
  }

  lemma AdvancingPutsBack(e: Snapshot, next: State, f: Option<Failure>)
    requires PutBack(e) && e.returned.None? && Index(e.state) <= Index(next) && next != Cleanup
    ensures PutBack(Advance(e, next, f).engine)
  {
  }

  lemma LaunchingPutsBack(e: Snapshot, a: Answers)
    requires PutBack(e) && e.returned.None? && e.state == LaunchVM
    ensures PutBack(Advance(Note(e, CalledStartVM), WaitTAP, a.failure).engine)
  {
  }

  lemma HandlerPutsBack(e: Snapshot, a: Answers, h: Handled)
    requires PutBack(e) && e.returned.None? && h == Handle(e, a)
    ensures PutBack(h.engine)
  {
    match e.state
    case SaveNetwork => SavingPutsBack(e, a);
    case CreateTAP => CreatingPutsBack(e, a);
    case LaunchVM => LaunchingPutsBack(e, a);
    case WaitTAP => AdvancingPutsBack(e, ConfigureTAP, a.failure);
    case ConfigureTAP => ConfiguringPutsBack(e, a);
    case FlushDNS => FlushingPutsBack(e, a);
    case WaitBootstrap => AdvancingPutsBack(e, Running, a.failure);
    case Running => RunningPutsBack(e, a);
    case Shutdown => ShutdownPutsBack(e, a);
    case RestoreNetwork => RestoringPutsBack(e, a);
    case _ =>
  }

  lemma SettlingPutsBack(p: Policy, h: Handled, a: Answers)
    requires PutBack(h.engine)
    requires h.failure.Some? ==> h.engine.returned.None? && Index(h.engine.state) < Index(Shutdown)
    ensures PutBack(Settle(p, h, a))
  {
  }

  ghost predicate Calm(e: Snapshot) {
    e.state != Failed && !Troubled(e.log) && !e.failsafe && e.returned != Some(Finished)
  }

  lemma CalmMeansGuarded(e: Snapshot)
    ensures Calm(e) ==> Guarded(e)
    ensures Guarded(e) && Index(e.state) < Index(Shutdown) && e.returned.None? ==> Calm(e)
  {
  }

  lemma CallingStaysCalm(e: Snapshot, a: Answers)
    requires Calm(e)
    ensures Calm(DoSaveNetwork(e, a).engine) && Calm(DoCreateTAP(e, a).engine)
  {
    Noting(e, Saved(a.saved));
    Noting(e, CalledCreateTAP);
  }

  lemma ConfiguringStaysCalm(e: Snapshot, a: Answers)
    requires Calm(e)
    ensures Calm(DoConfigureTAP(e, a).engine) && Calm(DoFlushDNS(e, a).engine)
  {
    Noting(e, CalledSetupRouting);
    Noting(e, CalledFlushDNS);
  }

  lemma AdvancingStaysCalm(e: Snapshot, next: State, f: Option<Failure>)
    requires Calm(e) && next != Failed
    ensures Calm(Advance(e, next, f).engine) && Calm(Advance(Note(e, CalledStartVM), next, f).engine)
  {
    Noting(e, CalledStartVM);
  }

  lemma EarlyHandlerStaysCalm(e: Snapshot, a: Answers, h: Handled)
    requires Calm(e) && e.returned.None? && Index(e.state) < Index(Running) && h == Handle(e, a)
    ensures Calm(h.engine)
  {
    match e.state
    case SaveNetwork => CallingStaysCalm(e, a);
    case CreateTAP => CallingStaysCalm(e, a);
    case LaunchVM => AdvancingStaysCalm(e, WaitTAP, a.failure);
    case WaitTAP => AdvancingStaysCalm(e, ConfigureTAP, a.failure);
    case ConfigureTAP => ConfiguringStaysCalm(e, a);
    case FlushDNS => ConfiguringStaysCalm(e, a);
    case WaitBootstrap => AdvancingStaysCalm(e, Running, a.failure);
    case _ =>
  }

  lemma RunningGuards(e: Snapshot, a: Answers)
    requires Guarded(e) && e.returned.None? && e.state == Running
    ensures Guarded(DoRunning(e, a).engine)
  {
    var exited := Note(e.(failsafe := false), ExitedUnexpectedly);
    Noting(e.(failsafe := false), ExitedUnexpectedly);
    Noting(exited, CalledTeardownRouting);
  }

  lemma ShutdownGuards(e: Snapshot, a: Answers)
    requires Guarded(e) && e.returned.None? && e.state == Shutdown
    ensures Guarded(DoShutdown(e, a).engine)
  {
    Noting(e, CalledStopVM);
  }

  lemma TearingGuards(e: Snapshot, a: Answers)
    requires Guarded(e) && e.returned.None? && e.state == RestoreNetwork
    ensures Guarded(TearRoutingDown(e, a))
  {
    Noting(e, CalledTeardownRouting);
    Noting(Note(e, CalledTeardownRouting), CalledTeardownRouting);
  }

  lemma NotingGuards(e: Snapshot, x: Entry)
    requires Guarded(e) && !IsTrouble(x) && !x.CalledSetupRouting?
    ensures Guarded(Note(e, x))
  {
    Noting(e, x);
  }

  lemma RestoringGuards(e: Snapshot, a: Answers)
    requires Guarded(e) && e.returned.None? && e.state == RestoreNetwork
    ensures Guarded(DoRestoreNetwork(e, a).engine)
  {
    TearingGuards(e, a);
    var torn := TearRoutingDown(e, a);
    if torn.savedNet.Some? {
      NotingGuards(torn, Restored(torn.savedNet.value));
    }
    NotingGuards(RestoreSaved(torn), CalledDestroyTAP);
  }

  lemma EarlyHandlerGuards(e: Snapshot, a: Answers, h: Handled)
    requires Guarded(e) && e.returned.None? && Index(e.state) < Index(Running) && h == Handle(e, a)
    ensures Guarded(h.engine)
  {
    CalmMeansGuarded(e);
    EarlyHandlerStaysCalm(e, a, h);
    CalmMeansGuarded(h.engine);
  }

  lemma LateHandlerGuards(e: Snapshot, a: Answers, h: Handled)
    requires Guarded(e) && e.returned.None? && Index(e.state) >= Index(Running) && h == Handle(e, a)
    ensures Guarded(h.engine)
  {
    match e.state
    case Running => RunningGuards(e, a);
    case Shutdown => ShutdownGuards(e, a);
    case RestoreNetwork => RestoringGuards(e, a);
    case Cleanup =>
  }

  lemma HandlerGuards(e: Snapshot, a: Answers, h: Handled)
    requires Guarded(e) && e.returned.None? && h == Handle(e, a)
    ensures Guarded(h.engine)
  {
    if Index(e.state) < Index(Running) {
      EarlyHandlerGuards(e, a, h);
    } else {
      LateHandlerGuards(e, a, h);
    }
  }

  lemma SettlingGuards(p: Policy, h: Handled, a: Answers)
    requires Guarded(h.engine)
    requires h.failure.Some? ==> h.engine.returned.None? && Index(h.engine.state) < Index(Shutdown)
    ensures Guarded(Settle(p, h, a))
  {
    if h.failure.Some? {
      var failed := Note(h.engine, FailedPermanently(h.engine.state));
      Noting(h.engine, FailedPermanently(h.engine.state));
      Noting(failed, CalledTeardownRouting);
    }
  }

  lemma LookingKeepsSafety(e: Snapshot, a: Answers)
    requires PutBack(e) && Guarded(e) && e.returned.None?
    ensures PutBack(Looked(e, a)) && Guarded(Looked(e, a)) && Looked(e, a).returned.None?
  {
  }

  lemma SettlingKeepsSafety(p: Policy, e: Snapshot, h: Handled, a: Answers)
    requires PutBack(h.engine) && Guarded(h.engine) && WellHandled(e, h)
    ensures PutBack(Settle(p, h, a)) && Guarded(Settle(p, h, a))
  {
    SettlingPutsBack(p, h, a);
    SettlingGuards(p, h, a);
  }

  lemma HandlingKeepsSafety(p: Policy, e: Snapshot, h: Handled, a: Answers)
    requires PutBack(e) && Guarded(e) && e.returned.None? && h == Handle(e, a)
    ensures PutBack(Settle(p, h, a)) && Guarded(Settle(p, h, a))
  {
    HandlerPutsBack(e, a, h);
    HandlerGuards(e, a, h);
    HandlerIsWellBehaved(e, a);
    SettlingKeepsSafety(p, e, h, a);
  }

  /** No pass, in a cancelled context or not, loses track of what has to be undone or drops the failsafe early. */
  lemma PassKeepsSafety(p: Policy, e: Snapshot, a: Answers, t: Snapshot)
    requires PutBack(e) && Guarded(e) && t == Pass(p, e, a)
    ensures PutBack(t) && Guarded(t)
  {
    if e.returned.None? {
      LookingKeepsSafety(e, a);
      HandlingKeepsSafety(p, Looked(e, a), Handle(Looked(e, a), a), a);
    }
  }

  lemma {:induction false} SafetyOverRun(p: Policy, env: nat -> Answers, h: seq<Snapshot>, n: nat)
    requires IsRun(p, env, h) && n < |h|
    ensures PutBack(h[n]) && Guarded(h[n])
  {
    if n > 0 {
      SafetyOverRun(p, env, h, n - 1);
      PassKeepsSafety(p, h[n - 1], env(n - 1), h[n]);
    }
  }

  /**
   A run that finishes, cancelled on the way or not, has called TeardownRouting after every setup and DestroyTAP after
   every creation, restored exactly the configuration it saved, and left the failsafe off.
   */
  lemma FinishedRunUndoesEverything(p: Policy, env: nat -> Answers, h: seq<Snapshot>)
    requires IsRun(p, env, h) && h[|h| - 1].returned == Some(Finished)
    ensures Undone(h[|h| - 1]) && !h[|h| - 1].failsafe
    ensures forall c :: Saved(c) in h[|h| - 1].log <==> Restored(c) in h[|h| - 1].log
  {
    SafetyOverRun(p, env, h, |h| - 1);
  }

  /** From the error that ends a run until its return the failsafe is on and every SetupRouting has had its teardown. */
  lemma FailsafeCoversShutdown(p: Policy, env: nat -> Answers, h: seq<Snapshot>, n: nat)
    requires IsRun(p, env, h) && n < |h|
    requires Troubled(h[n].log) && h[n].returned != Some(Finished)
    ensures h[n].failsafe && h[n].state in {Shutdown, RestoreNetwork, Cleanup} && !RoutingUp(h[n].log)
  {
    SafetyOverRun(p, env, h, n);
  }

  /** Before the privilege check has passed nothing has been called. */
  ghost predicate Untouched(e: Snapshot) {
    && (Index(e.state) <= Index(CheckPrivileges) ==> e.log == [])
    && (e.returned == Some(NotPrivileged) ==> e.state == CheckPrivileges)
  }

  lemma HandlerTouchesAfterCheck(e: Snapshot, a: Answers, h: Handled)
    requires Untouched(e) && e.returned.None? && e.state != Failed && h == Handle(e, a)
    ensures Untouched(h.engine)
  {
    HandlerIsWellBehaved(e, a);
  }

  lemma SettlingTouchesAfterCheck(p: Policy, h: Handled, a: Answers)
    requires Untouched(h.engine)
    requires h.failure.Some? ==> h.engine.returned.None? && Index(h.engine.state) > Index(CheckPrivileges)
    ensures Untouched(Settle(p, h, a))
  {
  }

  lemma HandlingTouchesAfterCheck(p: Policy, e: Snapshot, h: Handled, a: Answers)
    requires Untouched(e) && e.returned.None? && e.state != Failed && h == Handle(e, a)
    ensures Untouched(Settle(p, h, a))
  {
    HandlerTouchesAfterCheck(e, a, h);
    HandlerIsWellBehaved(e, a);
    SettlingTouchesAfterCheck(p, h, a);
  }

  lemma PassTouchesAfterCheck(p: Policy, e: Snapshot, a: Answers, t: Snapshot)
    requires Untouched(e) && e.state != Failed && t == Pass(p, e, a)
    ensures Untouched(t)
  {
    if e.returned.None? {
      HandlingTouchesAfterCheck(p, Looked(e, a), Handle(Looked(e, a), a), a);
    }
  }

  /** A run refused for lack of privileges has called nothing. */
  lemma {:induction false} RefusedRunTouchesNothing(p: Policy, env: nat -> Answers, h: seq<Snapshot>, n: nat)
    requires IsRun(p, env, h) && n < |h|
    ensures Untouched(h[n])
    ensures h[n].returned == Some(NotPrivileged) ==> h[n].log == []
  {
    if n > 0 {
      RefusedRunTouchesNothing(p, env, h, n - 1);
      SafetyOverRun(p, env, h, n - 1);
      PassTouchesAfterCheck(p, h[n - 1], env(n - 1), h[n]);
    }
  }

  // ------------------------------------------------------------ cancellation

  /** A context, once cancelled, stays cancelled. */
  ghost predicate StaysCancelled(env: nat -> Answers) {
    forall i: nat, j: nat :: i <= j && env(i).cancelled ==> env(j).cancelled
  }

  /** `t` has done no more for the teardown than `e`: nothing is torn down, destroyed or restored in between. */
  ghost predicate OnlyStops(e: Snapshot, t: Snapshot) {
    && t.returned.None? && t.state == RestoreNetwork
    && (RoutingUp(t.log) <==> RoutingUp(e.log)) && (TapUp(t.log) <==> TapUp(e.log))
    && (forall c :: Restored(c) in t.log ==> Restored(c) in e.log)
  }

  lemma CancelledPassOnlyStops(p: Policy, e: Snapshot, a: Answers, t: Snapshot)
    requires e.returned.None? && a.cancelled && t == Pass(p, e, a)
    ensures OnlyStops(e, t)
  {
    Noting(Transition(e, Shutdown), CalledStopVM);
  }

  /**
   A run that sees the context cancelled never returns: each later pass enters Shutdown again, so that Cleanup is
   never reached and routing, TAP device and configuration stay as they were.
   */
  lemma {:induction false} CancelledRunNeverReturns(p: Policy, env: nat -> Answers, h: seq<Snapshot>, k: nat, n: nat)
    requires IsRun(p, env, h) && StaysCancelled(env) && k < n < |h|
    requires h[k].returned.None? && env(k).cancelled
    ensures OnlyStops(h[k], h[n])
  {
    if k < n - 1 {
      CancelledRunNeverReturns(p, env, h, k, n - 1);
    }
    CancelledPassOnlyStops(p, h[n - 1], env(n - 1), h[n]);
  }

  /** A run returns if and only if no pass of it finds the context cancelled. */
  lemma ReturnsUnlessCancelled(p: Policy, env: nat -> Answers, h: seq<Snapshot>)
    requires IsRun(p, env, h) && StaysCancelled(env) && |h| == Budget(p, Start) + 1
    ensures h[|h| - 1].returned.Some? <==> SeesNoCancellation(env, h)
  {
    if SeesNoCancellation(env, h) {
      RunTerminates(p, env, h);
    } else {
      var k :| 0 <= k < |h| - 1 && h[k].returned.None? && env(k).cancelled;
      CancelledRunNeverReturns(p, env, h, k, |h| - 1);
    }
  }
}
