/** What each pass of the lifecycle loop does, state by state, and what becomes of the VM over a whole run. */
module LifecycleCalls {
  import opened Lifecycle
  import opened LifecycleSafety
  import opened Wrappers

  // ----------------------------------------------------------- one pass

  /** The state a pass executes: a cancelled context leads to Shutdown, whatever the state was. */
  function Executed(e: Snapshot, a: Answers): (s: State) {
    if a.cancelled then Shutdown else e.state
  }

  /** The error state `s` ends with. */
  function FailureOf(s: State, a: Answers): (f: Option<Failure>) {
    if s == CreateTAP && !a.reached then Some(Message("invalid HostIP"))
    else if s == ConfigureTAP && !a.reached then Some(Message("invalid VMIP"))
    else if Fallible(s) then a.failure
    else None
  }

  /** The state has failed, and its policy grants another attempt after those on record. */
  predicate Retries(p: Policy, e: Snapshot, a: Answers) {
    var s := Executed(e, a);
    && FailureOf(s, a).Some? && s in p
    && Attempts(e, s) < p[s] && !IsPermanent(FailureOf(s, a).value)
  }

  predicate GivesUp(p: Policy, e: Snapshot, a: Answers) {
    FailureOf(Executed(e, a), a).Some? && !Retries(p, e, a)
  }

  /** The loop returns from this state. */
  predicate Returns(s: State, a: Answers) {
    s in {Cleanup, Failed} || (s == CheckPrivileges && !a.privileged)
  }

  function If(b: bool, x: Entry): (calls: seq<Entry>) {
    if b then [x] else []
  }

  /** What a state calls, in order, given the failsafe and the configuration saved. */
  function CallsIn(s: State, failsafe: bool, savedNet: Option<SavedConfig>, a: Answers): (calls: seq<Entry>) {
    match s
    case SaveNetwork => If(a.failure.None?, Saved(a.saved))
    case CreateTAP => If(a.reached, CalledCreateTAP)
    case LaunchVM => [CalledStartVM]
    case ConfigureTAP => If(a.reached, CalledSetupRouting)
    case FlushDNS => [CalledFlushDNS]
    case Running => if a.exitedUnexpectedly then [ExitedUnexpectedly, CalledTeardownRouting] else []
    case Shutdown => If(a.vmRunning, CalledStopVM)
    case RestoreNetwork =>
      [CalledTeardownRouting] + If(a.teardownFails && !failsafe, CalledTeardownRouting)
      + (if savedNet.Some? then [Restored(savedNet.value)] else []) + [CalledDestroyTAP]
    case _ => []
  }

  /** What a pass calls: the calls of its state, and the failsafe's teardown if the state has failed for good. */
  function CallsOf(p: Policy, e: Snapshot, a: Answers): (calls: seq<Entry>) {
    var s := Executed(e, a);
    CallsIn(s, e.failsafe, e.savedNet, a)
    + (if GivesUp(p, e, a) then [FailedPermanently(s)] + If(!e.failsafe, CalledTeardownRouting) else [])
  }

  function FailsafeIn(s: State, failsafe: bool, a: Answers): (on: bool) {
    match s
    case Running => a.exitedUnexpectedly
    case RestoreNetwork => failsafe || a.teardownFails
    case Cleanup => false
    case _ => failsafe
  }

  function TorControlIn(s: State, torControl: bool, a: Answers): (on: bool) {
    match s
    case FlushDNS => torControl || a.torControl
    case Shutdown => false
    case _ => torControl
  }

  /** A handler does what its state is for, and goes to the very next state unless it fails or returns. */
  ghost predicate DoesItsWork(e: Snapshot, a: Answers, h: Handled) {
    var s := e.state;
    && h.failure == FailureOf(s, a)
    && h.engine.log == e.log + CallsIn(s, e.failsafe, e.savedNet, a)
    && h.engine.savedNet == (if s == SaveNetwork && a.failure.None? then Some(a.saved) else e.savedNet)
    && h.engine.failsafe == FailsafeIn(s, e.failsafe, a) && h.engine.torControl == TorControlIn(s, e.torControl, a)
    && (h.engine.returned.Some? <==> Returns(s, a))
    && (if h.failure.Some? || Returns(s, a) then h.engine.state == s && h.engine.attempts == e.attempts
        else Index(h.engine.state) == Index(s) + 1 && h.engine.attempts == e.attempts - {s})
  }

  lemma SavingWorks(e: Snapshot, a: Answers)
    requires e.state == SaveNetwork && e.returned.None?
    ensures DoesItsWork(e, a, DoSaveNetwork(e, a))
  {
    assert e.log + [] == e.log;
  }

  lemma CreatingWorks(e: Snapshot, a: Answers)
    requires e.state == CreateTAP && e.returned.None?
    ensures DoesItsWork(e, a, DoCreateTAP(e, a))
  {
    assert e.log + [] == e.log;
  }

  lemma LaunchingWorks(e: Snapshot, a: Answers)
    requires e.state == LaunchVM && e.returned.None?
    ensures DoesItsWork(e, a, Advance(Note(e, CalledStartVM), WaitTAP, a.failure))
  {
  }

  lemma WaitingWorks(e: Snapshot, next: State, a: Answers)
    requires e.state in {WaitTAP, WaitBootstrap} && e.returned.None?
    requires next == if e.state == WaitTAP then ConfigureTAP else Running
    ensures DoesItsWork(e, a, Advance(e, next, a.failure))
  {
    assert e.log + [] == e.log;
  }

  lemma ConfiguringWorks(e: Snapshot, a: Answers)
    requires e.state == ConfigureTAP && e.returned.None?
    ensures DoesItsWork(e, a, DoConfigureTAP(e, a))
  {
    assert e.log + [] == e.log;
  }

  lemma FlushingWorks(e: Snapshot, a: Answers)
    requires e.state == FlushDNS && e.returned.None?
    ensures DoesItsWork(e, a, DoFlushDNS(e, a))
  {
  }

  lemma RunningWorks(e: Snapshot, a: Answers)
    requires e.state == Running && e.returned.None?
    ensures DoesItsWork(e, a, DoRunning(e, a))
  {
    assert e.log + [] == e.log;
    assert e.log + [ExitedUnexpectedly] + [CalledTeardownRouting]
        == e.log + [ExitedUnexpectedly, CalledTeardownRouting];
  }

  lemma ShutdownWorks(e: Snapshot, a: Answers)
    requires e.state == Shutdown && e.returned.None?
    ensures DoesItsWork(e, a, DoShutdown(e, a))
  {
    assert e.log + [] == e.log;
  }

  lemma FourParts(log: seq<Entry>, a: seq<Entry>, b: seq<Entry>, c: seq<Entry>, d: seq<Entry>)
    ensures log + a + b + c + d == log + (a + b + c + d)
  {
  }

  lemma TearingCalls(e: Snapshot, a: Answers)
    ensures TearRoutingDown(e, a).log
         == e.log + [CalledTeardownRouting] + If(a.teardownFails && !e.failsafe, CalledTeardownRouting)
    ensures TearRoutingDown(e, a).failsafe == (e.failsafe || a.teardownFails)
    ensures TearRoutingDown(e, a) == e.(log := TearRoutingDown(e, a).log, failsafe := TearRoutingDown(e, a).failsafe)
  {
    assert e.log + [CalledTeardownRouting] + [] == e.log + [CalledTeardownRouting];
  }

  lemma RestoringCalls(e: Snapshot)
    ensures RestoreSaved(e).log == e.log + (if e.savedNet.Some? then [Restored(e.savedNet.value)] else [])
    ensures RestoreSaved(e) == e.(log := RestoreSaved(e).log)
  {
    assert e.log + [] == e.log;
  }

  lemma RestoringWorks(e: Snapshot, a: Answers)
    requires e.state == RestoreNetwork && e.returned.None?
    ensures DoesItsWork(e, a, DoRestoreNetwork(e, a))
  {
    TearingCalls(e, a);
    RestoringCalls(TearRoutingDown(e, a));
    FourParts(e.log, [CalledTeardownRouting], If(a.teardownFails && !e.failsafe, CalledTeardownRouting),
              if e.savedNet.Some? then [Restored(e.savedNet.value)] else [], [CalledDestroyTAP]);
  }

  /** Every state does its work. */
  lemma HandlerWorks(e: Snapshot, a: Answers)
    requires e.returned.None?
    ensures DoesItsWork(e, a, Handle(e, a))
  {
    match e.state
    case SaveNetwork => SavingWorks(e, a);
    case CreateTAP => CreatingWorks(e, a);
    case LaunchVM => LaunchingWorks(e, a);
    case WaitTAP => WaitingWorks(e, ConfigureTAP, a);
    case ConfigureTAP => ConfiguringWorks(e, a);
    case FlushDNS => FlushingWorks(e, a);
    case WaitBootstrap => WaitingWorks(e, Running, a);
    case Running => RunningWorks(e, a);
    case Shutdown => ShutdownWorks(e, a);
    case RestoreNetwork => RestoringWorks(e, a);
    case _ => assert e.log + [] == e.log;
  }

  /** The state of the next pass. */
  ghost predicate GoesOn(p: Policy, e: Snapshot, a: Answers, t: Snapshot) {
    var s := Executed(e, a);
    && (t.returned.Some? <==> Returns(s, a))
    && (if Returns(s, a) then t.state == s
        else if FailureOf(s, a).None? then Index(t.state) == Index(s) + 1
        else if Retries(p, e, a) && !a.cancelledInBackoff then t.state == s
        else t.state == Shutdown)
    && (!Returns(s, a) ==>
          Attempts(t, s) == if Retries(p, e, a) && !a.cancelledInBackoff then Attempts(e, s) + 1 else 0)
  }

  /** What a pass leaves behind. */
  ghost predicate Leaves(p: Policy, e: Snapshot, a: Answers, t: Snapshot) {
    var s := Executed(e, a);
    && t.log == e.log + CallsOf(p, e, a)
    && t.savedNet == (if s == SaveNetwork && a.failure.None? then Some(a.saved) else e.savedNet)
    && t.torControl == TorControlIn(s, e.torControl, a)
    && (t.failsafe <==> GivesUp(p, e, a) || FailsafeIn(s, e.failsafe, a))
  }

  lemma Regrouped(log: seq<Entry>, a: seq<Entry>, b: seq<Entry>, c: seq<Entry>)
    ensures log + a + b + c == log + (a + (b + c))
    ensures log + a == log + (a + [])
  {
  }

  lemma SettlingGoesOn(p: Policy, e: Snapshot, a: Answers, h: Handled)
    requires e.returned.None? && !a.cancelled && DoesItsWork(e, a, h)
    ensures GoesOn(p, e, a, Settle(p, h, a))
  {
  }

  lemma SettlingLeaves(p: Policy, e: Snapshot, a: Answers, h: Handled)
    requires e.returned.None? && !a.cancelled && DoesItsWork(e, a, h)
    ensures Leaves(p, e, a, Settle(p, h, a))
  {
    Regrouped(e.log, CallsIn(e.state, e.failsafe, e.savedNet, a), [FailedPermanently(e.state)],
              If(!e.failsafe, CalledTeardownRouting));
    assert h.engine.log + [FailedPermanently(e.state)] + []
        == h.engine.log + [FailedPermanently(e.state)];
  }

  lemma ShutdownPass(p: Policy, e: Snapshot, a: Answers, t: Snapshot)
    requires e.returned.None? && a.cancelled && t == Pass(p, e, a)
    ensures GoesOn(p, e, a, t) && Leaves(p, e, a, t)
  {
    var looked := Looked(e, a);
    ShutdownWorks(looked, a);
    Regrouped(e.log, CallsIn(Shutdown, e.failsafe, e.savedNet, a), [], []);
  }

  /**
   What one pass does, whatever the environment answers: exactly the calls of the state it executes, in order; then the
   very next state, another attempt within the policy, Shutdown, or the return.
   */
  lemma PassWorks(p: Policy, e: Snapshot, a: Answers, t: Snapshot)
    requires e.returned.None? && t == Pass(p, e, a)
    ensures GoesOn(p, e, a, t) && Leaves(p, e, a, t)
  {
    if a.cancelled {
      ShutdownPass(p, e, a, t);
    } else {
      HandlerWorks(e, a);
      SettlingGoesOn(p, e, a, Handle(e, a));
      SettlingLeaves(p, e, a, Handle(e, a));
    }
  }

  lemma ReturnedStays(p: Policy, e: Snapshot, a: Answers)
    requires e.returned.Some?
    ensures Pass(p, e, a) == e
  {
  }

  // --------------------------------------------------- the VM over a run

  /** The pass executes Shutdown. */
  predicate ShutsDown(e: Snapshot, a: Answers) {
    e.returned.None? && Executed(e, a) == Shutdown
  }

  /** A pass stops the VM exactly if it executes Shutdown with the VM running. */
  lemma PassStops(p: Policy, e: Snapshot, a: Answers)
    requires e.returned.None?
    ensures CalledStopVM in CallsOf(p, e, a) <==> ShutsDown(e, a) && a.vmRunning
  {
  }

  lemma StopStep(p: Policy, e: Snapshot, a: Answers, t: Snapshot)
    requires t == Pass(p, e, a)
    ensures CalledStopVM in t.log <==> CalledStopVM in e.log || (ShutsDown(e, a) && a.vmRunning)
  {
    if e.returned.None? {
      PassWorks(p, e, a, t);
      PassStops(p, e, a);
    }
  }

  /** Some pass before the `m`-th of the run has executed Shutdown with the VM running. */
  ghost predicate ShutDownRunning(env: nat -> Answers, h: seq<Snapshot>, m: nat)
    requires m <= |h|
  {
    exists n: nat :: n < m && ShutsDown(h[n], env(n)) && env(n).vmRunning
  }

  lemma OneMorePass(env: nat -> Answers, h: seq<Snapshot>, m: nat)
    requires 0 < m <= |h|
    ensures ShutDownRunning(env, h, m)
       <==> ShutDownRunning(env, h, m - 1) || (ShutsDown(h[m - 1], env(m - 1)) && env(m - 1).vmRunning)
  {
  }

  /** The VM is stopped in a run exactly by the passes that execute Shutdown while it is running. */
  lemma {:induction false} StopsExactly(p: Policy, env: nat -> Answers, h: seq<Snapshot>, m: nat)
    requires IsRun(p, env, h) && m < |h|
    ensures CalledStopVM in h[m].log <==> ShutDownRunning(env, h, m)
  {
    if m > 0 {
      StopsExactly(p, env, h, m - 1);
      OneMorePass(env, h, m);
      StopStep(p, h[m - 1], env(m - 1), h[m]);
    }
  }

  /** Behind the entries of `before` the VM is stopped and not started again, and by Cleanup routing is torn down. */
  ghost predicate Stopped(before: seq<Entry>, e: Snapshot) {
    var k := |before|;
    && k < |e.log| && e.log[..k] == before && e.log[k] == CalledStopVM
    && CalledStartVM !in e.log[k..]
    && Index(e.state) >= Index(Shutdown)
    && (e.state == Cleanup ==> CalledTeardownRouting in e.log[k + 1..])
  }

  lemma LateCalls(p: Policy, e: Snapshot, a: Answers)
    requires e.returned.None? && Index(Executed(e, a)) >= Index(Shutdown)
    ensures CalledStartVM !in CallsOf(p, e, a)
    ensures Executed(e, a) == RestoreNetwork ==> CalledTeardownRouting in CallsOf(p, e, a)
  {
    if Executed(e, a) == RestoreNetwork {
      assert CallsOf(p, e, a)[0] == CalledTeardownRouting;
    }
  }

  lemma StopBegins(p: Policy, e: Snapshot, a: Answers, t: Snapshot)
    requires ShutsDown(e, a) && a.vmRunning && t == Pass(p, e, a)
    ensures Stopped(e.log, t)
  {
    PassWorks(p, e, a, t);
    assert CallsOf(p, e, a) == [CalledStopVM];
  }

  lemma LongerLog(before: seq<Entry>, log: seq<Entry>, calls: seq<Entry>)
    requires |before| < |log| && log[..|before|] == before && log[|before|] == CalledStopVM
    requires CalledStartVM !in log[|before|..] && CalledStartVM !in calls
    ensures (log + calls)[..|before|] == before && (log + calls)[|before|] == CalledStopVM
    ensures CalledStartVM !in (log + calls)[|before|..]
    ensures (log + calls)[|before| + 1..] == log[|before| + 1..] + calls
  {
    assert (log + calls)[|before|..] == log[|before|..] + calls;
  }

  lemma StopLasts(p: Policy, before: seq<Entry>, e: Snapshot, a: Answers, t: Snapshot)
    requires Stopped(before, e) && e.state != Failed && t == Pass(p, e, a)
    ensures Stopped(before, t)
  {
    if e.returned.None? {
      PassWorks(p, e, a, t);
      LateCalls(p, e, a);
      LongerLog(before, e.log, CallsOf(p, e, a));
    }
  }

  /**
   After a pass that executes Shutdown with the VM running, cancelled or not, the run has stopped the VM, never starts
   it again, and has torn the routing down behind that stop once it reaches Cleanup, hence when it finishes.
   */
  lemma {:induction false} RunningVmIsStopped(p: Policy, env: nat -> Answers, h: seq<Snapshot>, n: nat, m: nat)
    requires IsRun(p, env, h) && n < m < |h|
    requires ShutsDown(h[n], env(n)) && env(n).vmRunning
    ensures Stopped(h[n].log, h[m])
  {
    if m == n + 1 {
      StopBegins(p, h[n], env(n), h[m]);
    } else {
      RunningVmIsStopped(p, env, h, n, m - 1);
      EndsInCleanup(p, env, h, m - 1);
      StopLasts(p, h[n].log, h[m - 1], env(m - 1), h[m]);
    }
  }

  lemma EndsInCleanup(p: Policy, env: nat -> Answers, h: seq<Snapshot>, m: nat)
    requires IsRun(p, env, h) && m < |h|
    ensures h[m].state != Failed && (h[m].returned == Some(Finished) ==> h[m].state == Cleanup)
  {
    SafetyOverRun(p, env, h, m);
  }

  lemma {:induction false} PastShutdown(p: Policy, env: nat -> Answers, h: seq<Snapshot>, m: nat) returns (n: nat)
    requires IsRun(p, env, h) && m < |h| && Index(h[m].state) > Index(Shutdown)
    ensures n < m && ShutsDown(h[n], env(n))
  {
    EndsInCleanup(p, env, h, m - 1);
    if h[m - 1].returned.Some? {
      ReturnedStays(p, h[m - 1], env(m - 1));
      n := PastShutdown(p, env, h, m - 1);
    } else {
      PassWorks(p, h[m - 1], env(m - 1), h[m]);
      if ShutsDown(h[m - 1], env(m - 1)) {
        n := m - 1;
      } else {
        n := PastShutdown(p, env, h, m - 1);
      }
    }
  }

  /** Every run that finishes has executed Shutdown, and has stopped the VM there if it was running. */
  lemma FinishedRunStopsVM(p: Policy, env: nat -> Answers, h: seq<Snapshot>) returns (n: nat)
    requires IsRun(p, env, h) && h[|h| - 1].returned == Some(Finished)
    ensures n < |h| - 1 && ShutsDown(h[n], env(n))
    ensures env(n).vmRunning ==> Stopped(h[n].log, h[|h| - 1])
                                 && CalledTeardownRouting in h[|h| - 1].log[|h[n].log| + 1..]
  {
    EndsInCleanup(p, env, h, |h| - 1);
    n := PastShutdown(p, env, h, |h| - 1);
    if env(n).vmRunning {
      RunningVmIsStopped(p, env, h, n, |h| - 1);
    }
  }

  // -------------------------------------------------- a run without trouble

  /** Nothing fails, nobody cancels, and the VM exits as it should. */
  predicate Smooth(a: Answers) {
    && !a.cancelled && a.privileged && a.failure.None? && a.reached && !a.exitedUnexpectedly && !a.teardownFails
  }

  /** The states in the order of a run without trouble. */
  const STATES: seq<State> :=
    [Start, CheckPrivileges, SaveNetwork, CreateTAP, LaunchVM, WaitTAP, ConfigureTAP, FlushDNS, WaitBootstrap, Running,
     Shutdown, RestoreNetwork, Cleanup]

  lemma StatesInOrder(s: State, i: nat)
    requires i < |STATES|
    ensures Index(s) == i <==> s == STATES[i]
  {
  }

  /** What a run without trouble has called before its `i`-th state. */
  function SmoothLog(env: nat -> Answers, i: nat): (log: seq<Entry>)
    requires i <= |STATES|
  {
    if i == 0 then []
    else SmoothLog(env, i - 1) + CallsIn(STATES[i - 1], false, Some(env(2).saved), env(i - 1))
  }

  ghost predicate GoesSmoothly(env: nat -> Answers, e: Snapshot, i: nat) {
    && e.returned.None? && i < |STATES| && e.state == STATES[i] && e.log == SmoothLog(env, i) && !e.failsafe
    && e.savedNet == if i > 2 then Some(env(2).saved) else None
  }

  lemma SmoothState(p: Policy, e: Snapshot, a: Answers, saved: SavedConfig)
    requires Smooth(a) && !e.failsafe && (e.state == RestoreNetwork ==> e.savedNet == Some(saved))
    ensures CallsOf(p, e, a) == CallsIn(e.state, false, Some(saved), a)
  {
    assert FailureOf(Executed(e, a), a).None?;
  }

  lemma SmoothPass(p: Policy, env: nat -> Answers, e: Snapshot, i: nat, t: Snapshot)
    requires i < 12 && GoesSmoothly(env, e, i) && Smooth(env(i)) && t == Pass(p, e, env(i))
    ensures GoesSmoothly(env, t, i + 1)
  {
    PassWorks(p, e, env(i), t);
    SmoothState(p, e, env(i), env(2).saved);
    StatesInOrder(e.state, i);
    StatesInOrder(t.state, i + 1);
  }

  lemma {:induction false} SmoothSoFar(p: Policy, env: nat -> Answers, h: seq<Snapshot>, i: nat)
    requires IsRun(p, env, h) && i < |h| && i <= 12 && forall k: nat | k < i :: Smooth(env(k))
    ensures GoesSmoothly(env, h[i], i)
  {
    if i > 0 {
      SmoothSoFar(p, env, h, i - 1);
      SmoothPass(p, env, h[i - 1], i - 1, h[i]);
    }
  }

  /** All calls of a run without trouble. */
  function WholeSmoothLog(saved: SavedConfig, vmRunning: bool): (log: seq<Entry>) {
    [Saved(saved), CalledCreateTAP, CalledStartVM, CalledSetupRouting, CalledFlushDNS]
    + If(vmRunning, CalledStopVM) + [CalledTeardownRouting, Restored(saved), CalledDestroyTAP]
  }

  lemma SmoothStep(env: nat -> Answers, i: nat, s: State, before: seq<Entry>, calls: seq<Entry>)
    requires i < 12 && s == STATES[i] && calls == CallsIn(s, false, Some(env(2).saved), env(i))
    requires SmoothLog(env, i) == before
    ensures SmoothLog(env, i + 1) == before + calls
  {
  }

  lemma SmoothSetup(env: nat -> Answers, i: nat, saved: SavedConfig)
    requires i == 0 && saved == env(2).saved && Smooth(env(2)) && Smooth(env(3))
    ensures SmoothLog(env, i + 5) == [Saved(saved), CalledCreateTAP, CalledStartVM]
  {
    SmoothStep(env, i, Start, [], []);
    SmoothStep(env, i + 1, CheckPrivileges, [], []);
    SmoothStep(env, i + 2, SaveNetwork, [], [Saved(saved)]);
    SmoothStep(env, i + 3, CreateTAP, [Saved(saved)], [CalledCreateTAP]);
    SmoothStep(env, i + 4, LaunchVM, [Saved(saved), CalledCreateTAP], [CalledStartVM]);
  }

  lemma SmoothRouting(env: nat -> Answers, i: nat, before: seq<Entry>)
    requires i == 5 && SmoothLog(env, i) == before && Smooth(env(6)) && Smooth(env(9))
    ensures SmoothLog(env, i + 5) == before + [CalledSetupRouting, CalledFlushDNS]
  {
    SmoothStep(env, i, WaitTAP, before, []);
    SmoothStep(env, i + 1, ConfigureTAP, before, [CalledSetupRouting]);
    SmoothStep(env, i + 2, FlushDNS, before + [CalledSetupRouting], [CalledFlushDNS]);
    var routed := before + [CalledSetupRouting, CalledFlushDNS];
    SmoothStep(env, i + 3, WaitBootstrap, routed, []);
    SmoothStep(env, i + 4, Running, routed, []);
  }

  lemma SmoothTeardown(env: nat -> Answers, i: nat, before: seq<Entry>)
    requires i == 10 && SmoothLog(env, i) == before && Smooth(env(11))
    ensures SmoothLog(env, i + 2)
         == before + If(env(10).vmRunning, CalledStopVM)
            + [CalledTeardownRouting, Restored(env(2).saved), CalledDestroyTAP]
  {
    var stopped := If(env(10).vmRunning, CalledStopVM);
    SmoothStep(env, i, Shutdown, before, stopped);
    SmoothStep(env, i + 1, RestoreNetwork, before + stopped,
               [CalledTeardownRouting, Restored(env(2).saved), CalledDestroyTAP]);
  }

  lemma SmoothCallsAll(env: nat -> Answers, i: nat)
    requires i == 12 && forall k: nat | k < 13 :: Smooth(env(k))
    ensures SmoothLog(env, i) == WholeSmoothLog(env(2).saved, env(10).vmRunning)
  {
    var saved := env(2).saved;
    SmoothSetup(env, i - 12, saved);
    SmoothRouting(env, i - 7, [Saved(saved), CalledCreateTAP, CalledStartVM]);
    SmoothTeardown(env, i - 2, [Saved(saved), CalledCreateTAP, CalledStartVM, CalledSetupRouting, CalledFlushDNS]);
  }

  lemma LastPass(p: Policy, e: Snapshot, a: Answers)
    requires e.returned.None? && e.state == Cleanup && !a.cancelled
    ensures Pass(p, e, a).returned == Some(Finished) && Pass(p, e, a).log == e.log
  {
  }

  /** A run without trouble finishes after 13 passes with every call made once, in order, and everything undone. */
  lemma SmoothRun(p: Policy, env: nat -> Answers, h: seq<Snapshot>)
    requires IsRun(p, env, h) && |h| == 14 && forall k: nat | k < 13 :: Smooth(env(k))
    ensures h[13].returned == Some(Finished)
    ensures h[13].log == WholeSmoothLog(env(2).saved, env(10).vmRunning)
  {
    var last := |h| - 2;
    SmoothSoFar(p, env, h, last);
    LastPass(p, h[last], env(last));
    SmoothCallsAll(env, last);
  }
}
