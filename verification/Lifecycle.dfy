/** The VM lifecycle engine: its states, retries and failsafe against an arbitrary environment. */
module Lifecycle {

  import opened Wrappers

  // ------------------------------------------------------- errors and retries

  datatype Failure = DeadlineExceeded | Message(text: string)

  predicate Contains(s: string, p: string) {
    p <= s || (s != "" && Contains(s[1..], p))
  }

  /** Containment is what it says: `p` stands at some position of `s`. */
  lemma {:induction false} ContainsExactly(s: string, p: string)
    ensures Contains(s, p) <==> Occurs(p, s)
  {
    if s == "" {
      assert s[0..] == s;
    } else {
      ContainsExactly(s[1..], p);
      assert s[0..] == s;
      assert forall k: nat | k < |s| :: s[1..][k..] == s[k + 1..];
      if k: nat :| k <= |s| && p <= s[k..] {
        assert k > 0 ==> s[1..][k - 1..] == s[k..];
      }
    }
  }

  const TRANSIENT_PATTERNS: seq<string> :=
    ["resource temporarily unavailable", "address already in use", "connection refused", "connection reset"]
  const PERMANENT_PATTERNS: seq<string> :=
    ["permission denied", "file not found", "no such file", "config validation"]

  predicate Matches(s: string, patterns: seq<string>) {
    exists p | p in patterns :: Contains(s, p)
  }

  /** Whether a failure is permanent; a transient pattern in the text outweighs a permanent one. */
  predicate IsPermanent(f: Failure) {
    f.Message? && !Matches(f.text, TRANSIENT_PATTERNS) && Matches(f.text, PERMANENT_PATTERNS)
  }

  /** `p` stands somewhere in `s`. */
  ghost predicate Occurs(p: string, s: string) {
    exists k: nat :: k <= |s| && p <= s[k..]
  }

  /** A failure is permanent if and only if its text has one of the permanent patterns and no transient one. */
  lemma PermanentExactly(f: Failure)
    ensures IsPermanent(f) <==>
            && f.Message?
            && (|| Occurs("permission denied", f.text) || Occurs("file not found", f.text)
                || Occurs("no such file", f.text) || Occurs("config validation", f.text))
            && !Occurs("resource temporarily unavailable", f.text) && !Occurs("address already in use", f.text)
            && !Occurs("connection refused", f.text) && !Occurs("connection reset", f.text)
  {
    if f.Message? {
      MatchesExactly(f.text, PERMANENT_PATTERNS);
      MatchesExactly(f.text, TRANSIENT_PATTERNS);
    }
  }

  lemma MatchesExactly(s: string, patterns: seq<string>)
    requires |patterns| == 4
    ensures Matches(s, patterns) <==>
            Occurs(patterns[0], s) || Occurs(patterns[1], s) || Occurs(patterns[2], s) || Occurs(patterns[3], s)
  {
    forall i | 0 <= i < 4
      ensures Contains(s, patterns[i]) <==> Occurs(patterns[i], s)
    {
      ContainsExactly(s, patterns[i]);
    }
    assert forall p | p in patterns :: p == patterns[0] || p == patterns[1] || p == patterns[2] || p == patterns[3];
  }

  datatype State =
    | Start | CheckPrivileges | SaveNetwork | CreateTAP | LaunchVM | WaitTAP | ConfigureTAP | FlushDNS
    | WaitBootstrap | Running | Shutdown | RestoreNetwork | Cleanup | Failed

  /** The retries each state is allowed; a state without an entry is never retried. */
  type Policy = map<State, nat>

  function DefaultPolicy(): (p: Policy) {
    map[CreateTAP := 3, LaunchVM := 2, SaveNetwork := 2, ConfigureTAP := 2, FlushDNS := 2]
  }

  function MaxAttempts(p: Policy, s: State): (n: nat) {
    if s in p then p[s] else 0
  }

  function ShouldRetry(p: Policy, s: State, f: Failure, attempt: nat): (b: bool) {
    s in p && attempt < p[s] && !IsPermanent(f)
  }

  // ------------------------------------------------------------- environment

  type SavedConfig = int

  /** What the environment answers during one pass of the loop. */
  datatype Answers = Answers(
    cancelled: bool,             // the context is done when the pass begins
    privileged: bool,
    failure: Option<Failure>,    // how the call of a fallible state ends
    reached: bool,               // whether that call is made at all: the configured addresses parse
    saved: SavedConfig,          // what saving yields when it succeeds
    torControl: bool,            // whether the control connection comes up
    exitedUnexpectedly: bool,    // the VM exits with an error while the context is alive
    vmRunning: bool,
    teardownFails: bool,
    cancelledInBackoff: bool)    // the context is done before the retry delay is over

  datatype Entry =
    | Saved(config: SavedConfig)
    | CalledCreateTAP | CalledStartVM | CalledSetupRouting | CalledFlushDNS | CalledStopVM
    | CalledTeardownRouting | CalledDestroyTAP
    | Restored(config: SavedConfig)
    | FailedPermanently(state: State)
    | ExitedUnexpectedly

  datatype Outcome = Finished | NotPrivileged | EnteredFailed

  datatype Snapshot = Snapshot(
    state: State, attempts: map<State, nat>, savedNet: Option<SavedConfig>, torControl: bool, failsafe: bool,
    log: seq<Entry>, returned: Option<Outcome>)

  function NewSnapshot(): (e: Snapshot) {
    Snapshot(Start, map[], None, false, false, [], None)
  }

  function Attempts(e: Snapshot, s: State): (n: nat) {
    if s in e.attempts then e.attempts[s] else 0
  }

  /** TeardownRouting has not been called since the last call of SetupRouting. */
  predicate RoutingUp(log: seq<Entry>) {
    log != []
    && (log[|log| - 1].CalledSetupRouting?
        || (!log[|log| - 1].CalledTeardownRouting? && RoutingUp(log[..|log| - 1])))
  }

  /** DestroyTAP has not been called since the last call of CreateTAP. */
  predicate TapUp(log: seq<Entry>) {
    log != []
    && (log[|log| - 1].CalledCreateTAP? || (!log[|log| - 1].CalledDestroyTAP? && TapUp(log[..|log| - 1])))
  }

  predicate IsTrouble(x: Entry) {
    x.FailedPermanently? || x.ExitedUnexpectedly?
  }

  /** An error has sent the run to Shutdown. */
  predicate Troubled(log: seq<Entry>) {
    exists x | x in log :: IsTrouble(x)
  }

  function Note(e: Snapshot, x: Entry): (e': Snapshot) {
    e.(log := e.log + [x])
  }

  lemma Noting(e: Snapshot, x: Entry)
    ensures RoutingUp(Note(e, x).log) <==> x.CalledSetupRouting? || (!x.CalledTeardownRouting? && RoutingUp(e.log))
    ensures TapUp(Note(e, x).log) <==> x.CalledCreateTAP? || (!x.CalledDestroyTAP? && TapUp(e.log))
    ensures Troubled(Note(e, x).log) <==> IsTrouble(x) || Troubled(e.log)
  {
    assert (e.log + [x])[..|e.log|] == e.log;
    assert forall y :: y in e.log + [x] <==> y in e.log || y == x;
  }

  function Transition(e: Snapshot, next: State): (e': Snapshot) {
    e.(attempts := e.attempts - {e.state}, state := next)
  }

  function Activate(e: Snapshot): (e': Snapshot) {
    if e.failsafe then e else Note(e, CalledTeardownRouting).(failsafe := true)
  }

  // ---------------------------------------------------------- state handlers

  /** A handler's effect together with the error it returns. */
  datatype Handled = Handled(engine: Snapshot, failure: Option<Failure>)

  function Advance(e: Snapshot, next: State, f: Option<Failure>): (h: Handled) {
    if f.Some? then Handled(e, f) else Handled(Transition(e, next), None)
  }

  function DoSaveNetwork(e: Snapshot, a: Answers): (h: Handled) {
    if a.failure.Some? then Handled(e, a.failure)
    else Handled(Transition(Note(e, Saved(a.saved)).(savedNet := Some(a.saved)), CreateTAP), None)
  }

  function DoCreateTAP(e: Snapshot, a: Answers): (h: Handled) {
    if !a.reached then Handled(e, Some(Message("invalid HostIP")))
    else Advance(Note(e, CalledCreateTAP), LaunchVM, a.failure)
  }

  function DoConfigureTAP(e: Snapshot, a: Answers): (h: Handled) {
    if !a.reached then Handled(e, Some(Message("invalid VMIP")))
    else Advance(Note(e, CalledSetupRouting), FlushDNS, a.failure)
  }

  function DoFlushDNS(e: Snapshot, a: Answers): (h: Handled) {
    Handled(Transition(Note(e, CalledFlushDNS).(torControl := e.torControl || a.torControl), WaitBootstrap), None)
  }

  function DoRunning(e: Snapshot, a: Answers): (h: Handled) {
    var calm := e.(failsafe := false);
    var exited := if a.exitedUnexpectedly then Activate(Note(calm, ExitedUnexpectedly)) else calm;
    Handled(Transition(exited, Shutdown), None)
  }

  function DoShutdown(e: Snapshot, a: Answers): (h: Handled) {
    var stopped := if a.vmRunning then Note(e, CalledStopVM) else e;
    Handled(Transition(stopped.(torControl := false), RestoreNetwork), None)
  }

  function TearRoutingDown(e: Snapshot, a: Answers): (e': Snapshot) {
    var torn := Note(e, CalledTeardownRouting);
    if a.teardownFails then Activate(torn) else torn
  }

  function RestoreSaved(e: Snapshot): (e': Snapshot) {
    if e.savedNet.Some? then Note(e, Restored(e.savedNet.value)) else e
  }

  function DoRestoreNetwork(e: Snapshot, a: Answers): (h: Handled) {
    var restored := RestoreSaved(TearRoutingDown(e, a));
    Handled(Transition(Note(restored, CalledDestroyTAP), Cleanup), None)
  }

  function Handle(e: Snapshot, a: Answers): (h: Handled) {
    match e.state
    case Start => Handled(Transition(e, CheckPrivileges), None)
    case CheckPrivileges =>
      if a.privileged then Handled(Transition(e, SaveNetwork), None)
      else Handled(e.(returned := Some(NotPrivileged)), None)
    case SaveNetwork => DoSaveNetwork(e, a)
    case CreateTAP => DoCreateTAP(e, a)
    case LaunchVM => Advance(Note(e, CalledStartVM), WaitTAP, a.failure)
    case WaitTAP => Advance(e, ConfigureTAP, a.failure)
    case ConfigureTAP => DoConfigureTAP(e, a)
    case FlushDNS => DoFlushDNS(e, a)
    case WaitBootstrap => Advance(e, Running, a.failure)
    case Running => DoRunning(e, a)
    case Shutdown => DoShutdown(e, a)
    case RestoreNetwork => DoRestoreNetwork(e, a)
    case Cleanup => Handled(e.(failsafe := false, returned := Some(Finished)), None)
    case Failed => Handled(e.(returned := Some(EnteredFailed)), None)
  }

  /** What the loop does with a handler's error. */
  function Recover(p: Policy, e: Snapshot, f: Failure, a: Answers): (e': Snapshot) {
    if ShouldRetry(p, e.state, f, Attempts(e, e.state)) then
      var counted := e.(attempts := e.attempts[e.state := Attempts(e, e.state) + 1]);
      if a.cancelledInBackoff then Transition(counted, Shutdown) else counted
    else
      Transition(Activate(Note(e, FailedPermanently(e.state))), Shutdown)
  }

  function Settle(p: Policy, h: Handled, a: Answers): (e: Snapshot) {
    if h.failure.Some? then Recover(p, h.engine, h.failure.value, a) else h.engine
  }

  /** The state a pass works on, once the context has been looked at. */
  function Looked(e: Snapshot, a: Answers): (e': Snapshot) {
    if a.cancelled then Transition(e, Shutdown) else e
  }

  /** One pass of the loop. */
  function Pass(p: Policy, e: Snapshot, a: Answers): (e': Snapshot) {
    if e.returned.Some? then e
    else Settle(p, Handle(Looked(e, a), a), a)
  }

  // -------------------------------------------------------------- termination

  function Index(s: State): (i: nat) {
    match s
    case Start => 0 case CheckPrivileges => 1 case SaveNetwork => 2 case CreateTAP => 3 case LaunchVM => 4
    case WaitTAP => 5 case ConfigureTAP => 6 case FlushDNS => 7 case WaitBootstrap => 8 case Running => 9
    case Shutdown => 10 case RestoreNetwork => 11 case Cleanup => 12 case Failed => 13
  }

  predicate Fallible(s: State) {
    s in {SaveNetwork, CreateTAP, LaunchVM, WaitTAP, ConfigureTAP, WaitBootstrap}
  }

  /** The retries of state `t` that a run now in state `s` may still spend. */
  function RetriesAhead(p: Policy, s: State, t: State): (n: nat) {
    if Index(s) <= Index(t) then MaxAttempts(p, t) else 0
  }

  /** The passes a run that enters state `s` afresh can still need: one a state, and the retries ahead. */
  function Budget(p: Policy, s: State): (n: nat) {
    13 - (if s == Failed then 13 else Index(s))
    + RetriesAhead(p, s, SaveNetwork) + RetriesAhead(p, s, CreateTAP) + RetriesAhead(p, s, LaunchVM)
    + RetriesAhead(p, s, WaitTAP) + RetriesAhead(p, s, ConfigureTAP) + RetriesAhead(p, s, WaitBootstrap)
  }

  lemma LaterNeedsLess(p: Policy, s: State, t: State)
    requires Index(s) < Index(t) <= Index(Cleanup)
    ensures Budget(p, t) + 1 + (if Fallible(s) then MaxAttempts(p, s) else 0) <= Budget(p, s)
  {
  }

  /** Only the current state has attempts on record, no more than its policy allows, and Failed is never entered. */
  ghost predicate Sane(p: Policy, e: Snapshot) {
    && e.state != Failed
    && e.attempts.Keys <= {e.state}
    && Attempts(e, e.state) <= (if Fallible(e.state) then MaxAttempts(p, e.state) else 0)
    && (e.returned.Some? ==> e.returned.value != EnteredFailed)
  }

  function Measure(p: Policy, e: Snapshot): (n: int) {
    Budget(p, e.state) - Attempts(e, e.state)
  }

  /** A handler fails only in a fallible state and then changes no control state; otherwise it moves on or returns. */
  ghost predicate WellHandled(e: Snapshot, h: Handled) {
    if h.failure.Some? then
      Fallible(e.state) && h.engine.state == e.state && h.engine.attempts == e.attempts && h.engine.returned.None?
    else if h.engine.returned.Some? then
      h.engine.returned.value != EnteredFailed && h.engine.state == e.state && h.engine.attempts == e.attempts
    else
      Index(e.state) < Index(h.engine.state) <= Index(Cleanup) && h.engine.attempts == e.attempts - {e.state}
  }

  lemma AdvancingIsWellHandled(e: Snapshot, called: Snapshot, next: State, f: Option<Failure>)
    requires Fallible(e.state) && Index(e.state) < Index(next) <= Index(Cleanup) && e.returned.None?
    requires called.state == e.state && called.attempts == e.attempts && called.returned.None?
    ensures WellHandled(e, Advance(called, next, f))
  {
  }

  lemma SaveNetworkIsWellHandled(e: Snapshot, a: Answers)
    requires e.state == SaveNetwork && e.returned.None?
    ensures WellHandled(e, DoSaveNetwork(e, a))
  {
  }

  lemma CreateTAPIsWellHandled(e: Snapshot, a: Answers)
    requires e.state == CreateTAP && e.returned.None?
    ensures WellHandled(e, DoCreateTAP(e, a))
  {
    AdvancingIsWellHandled(e, Note(e, CalledCreateTAP), LaunchVM, a.failure);
  }

  lemma ConfigureTAPIsWellHandled(e: Snapshot, a: Answers)
    requires e.state == ConfigureTAP && e.returned.None?
    ensures WellHandled(e, DoConfigureTAP(e, a))
  {
    AdvancingIsWellHandled(e, Note(e, CalledSetupRouting), FlushDNS, a.failure);
  }

  lemma FlushDNSIsWellHandled(e: Snapshot, a: Answers)
    requires e.state == FlushDNS && e.returned.None?
    ensures WellHandled(e, DoFlushDNS(e, a))
  {
  }

  lemma RunningIsWellHandled(e: Snapshot, a: Answers)
    requires e.state == Running && e.returned.None?
    ensures WellHandled(e, DoRunning(e, a))
  {
  }

  lemma ShutdownIsWellHandled(e: Snapshot, a: Answers)
    requires e.state == Shutdown && e.returned.None?
    ensures WellHandled(e, DoShutdown(e, a))
  {
  }

  lemma RestoreNetworkIsWellHandled(e: Snapshot, a: Answers)
    requires e.state == RestoreNetwork && e.returned.None?
    ensures WellHandled(e, DoRestoreNetwork(e, a))
  {
  }

  lemma HandlerIsWellBehaved(e: Snapshot, a: Answers)
    requires e.state != Failed && e.returned.None?
    ensures WellHandled(e, Handle(e, a))
  {
    match e.state
    case SaveNetwork => SaveNetworkIsWellHandled(e, a);
    case CreateTAP => CreateTAPIsWellHandled(e, a);
    case LaunchVM => AdvancingIsWellHandled(e, Note(e, CalledStartVM), WaitTAP, a.failure);
    case WaitTAP => AdvancingIsWellHandled(e, e, ConfigureTAP, a.failure);
    case ConfigureTAP => ConfigureTAPIsWellHandled(e, a);
    case FlushDNS => FlushDNSIsWellHandled(e, a);
    case WaitBootstrap => AdvancingIsWellHandled(e, e, Running, a.failure);
    case Running => RunningIsWellHandled(e, a);
    case Shutdown => ShutdownIsWellHandled(e, a);
    case RestoreNetwork => RestoreNetworkIsWellHandled(e, a);
    case _ =>
  }

  lemma RecoverySpendsBudget(p: Policy, e: Snapshot, f: Failure, a: Answers)
    requires Sane(p, e) && Fallible(e.state) && e.returned.None?
    ensures Sane(p, Recover(p, e, f, a)) && Measure(p, Recover(p, e, f, a)) < Measure(p, e)
    ensures Recover(p, e, f, a).returned.None?
  {
    LaterNeedsLess(p, e.state, Shutdown);
  }

  lemma SettlingSpendsBudget(p: Policy, e: Snapshot, h: Handled, a: Answers)
    requires Sane(p, e) && e.returned.None? && WellHandled(e, h)
    ensures var t := Settle(p, h, a);
      Sane(p, t) && (t.returned.Some? || Measure(p, t) < Measure(p, e))
  {
    if h.failure.Some? {
      RecoverySpendsBudget(p, h.engine, h.failure.value, a);
    } else if h.engine.returned.None? {
      LaterNeedsLess(p, e.state, h.engine.state);
    }
  }

  /** `n` passes have been paid for out of the budget, or the run has returned. */
  ghost predicate WithinBudget(p: Policy, e: Snapshot, n: nat) {
    Sane(p, e) && (e.returned.Some? || Measure(p, e) + n <= Budget(p, Start))
  }

  /** A pass outside a cancelled context returns or strictly lowers the measure. */
  lemma PassSpendsBudget(p: Policy, e: Snapshot, a: Answers, n: nat)
    requires WithinBudget(p, e, n) && (e.returned.None? ==> !a.cancelled)
    ensures WithinBudget(p, Pass(p, e, a), n + 1)
    ensures e.returned.None? && Pass(p, e, a).returned.None? ==> Measure(p, Pass(p, e, a)) < Measure(p, e)
  {
    if e.returned.None? {
      HandlerIsWellBehaved(e, a);
      SettlingSpendsBudget(p, e, Handle(e, a), a);
    }
  }

  /** `h` is how a run unfolds: the state before each pass, against the answers `env`. */
  ghost predicate IsRun(p: Policy, env: nat -> Answers, h: seq<Snapshot>) {
    && h != [] && h[0] == NewSnapshot()
    && forall i {:trigger env(i)} | 0 <= i < |h| - 1 :: h[i + 1] == Pass(p, h[i], env(i))
  }

  lemma RunGrows(p: Policy, env: nat -> Answers, h: seq<Snapshot>)
    requires |h| >= 2 && IsRun(p, env, h[..|h| - 1]) && h[|h| - 1] == Pass(p, h[|h| - 2], env(|h| - 2))
    ensures IsRun(p, env, h)
  {
    var g := h[..|h| - 1];
    forall i {:trigger env(i)} | 0 <= i < |h| - 1
      ensures h[i + 1] == Pass(p, h[i], env(i))
    {
      if i < |g| - 1 {
        assert g[i + 1] == Pass(p, g[i], env(i));
      }
    }
  }

  /** Every environment has a run of any number of passes. */
  lemma {:induction false} RunExists(p: Policy, env: nat -> Answers, n: nat) returns (h: seq<Snapshot>)
    ensures IsRun(p, env, h) && |h| == n + 1
  {
    if n == 0 {
      h := [NewSnapshot()];
    } else {
      var g := RunExists(p, env, n - 1);
      h := g + [Pass(p, g[n - 1], env(n - 1))];
      assert h[..n] == g;
      RunGrows(p, env, h);
    }
  }

  /** No pass of the run found the context cancelled; what the context does after the return is of no matter. */
  ghost predicate SeesNoCancellation(env: nat -> Answers, h: seq<Snapshot>) {
    forall i {:trigger env(i)} | 0 <= i < |h| - 1 :: h[i].returned.None? ==> !env(i).cancelled
  }

  lemma MeasureIsPositive(p: Policy, e: Snapshot)
    requires Sane(p, e)
    ensures Measure(p, e) >= 1
  {
  }

  lemma {:induction false} BudgetBoundsRun(p: Policy, env: nat -> Answers, h: seq<Snapshot>, n: nat)
    requires IsRun(p, env, h) && SeesNoCancellation(env, h) && n < |h|
    ensures WithinBudget(p, h[n], n)
  {
    if n > 0 {
      BudgetBoundsRun(p, env, h, n - 1);
      PassSpendsBudget(p, h[n - 1], env(n - 1), n - 1);
    }
  }

  ghost predicate ReturnedProperly(e: Snapshot) {
    e.returned in {Some(Finished), Some(NotPrivileged)}
  }

  /**
   Termination: whatever the environment answers, a run that sees no cancellation has returned once its budget is
   spent, and never by way of StateFailed.
   */
  lemma RunTerminates(p: Policy, env: nat -> Answers, h: seq<Snapshot>)
    requires IsRun(p, env, h) && SeesNoCancellation(env, h) && |h| > Budget(p, Start)
    ensures ReturnedProperly(h[Budget(p, Start)])
  {
    BudgetBoundsRun(p, env, h, Budget(p, Start));
    MeasureIsPositive(p, h[Budget(p, Start)]);
  }

  /** The passes in `h` that executed state `s`. */
  function Visits(h: seq<Snapshot>, s: State): (k: nat) {
    if |h| < 2 then 0
    else Visits(h[..|h| - 1], s) + (if Executes(h[|h| - 2], s) then 1 else 0)
  }

  predicate Executes(e: Snapshot, s: State) {
    e.returned.None? && e.state == s
  }

  function Limit(p: Policy, s: State): (n: nat) {
    if Fallible(s) then MaxAttempts(p, s) else 0
  }

  /** How often a run that has come to `e` can have passed through `s`. */
  ghost predicate VisitsFit(p: Policy, e: Snapshot, s: State, visits: nat) {
    if Index(e.state) < Index(s) then visits == 0
    else if Executes(e, s) then visits == Attempts(e, s)
    else visits <= Limit(p, s) + 1
  }

  lemma RecoveringFits(p: Policy, e: Snapshot, f: Failure, a: Answers, s: State, visits: nat)
    requires Sane(p, e) && e.returned.None? && Fallible(e.state) && VisitsFit(p, e, s, visits)
    ensures VisitsFit(p, Recover(p, e, f, a), s, visits + (if Executes(e, s) then 1 else 0))
  {
  }

  lemma SettlingFits(p: Policy, e: Snapshot, h: Handled, a: Answers, s: State, visits: nat)
    requires Sane(p, e) && e.returned.None? && WellHandled(e, h) && VisitsFit(p, e, s, visits)
    ensures VisitsFit(p, Settle(p, h, a), s, visits + (if Executes(e, s) then 1 else 0))
  {
    if h.failure.Some? {
      RecoveringFits(p, h.engine, h.failure.value, a, s, visits);
    }
  }

  lemma PassFits(p: Policy, e: Snapshot, a: Answers, t: Snapshot, s: State, visits: nat)
    requires Sane(p, e) && (e.returned.None? ==> !a.cancelled) && VisitsFit(p, e, s, visits) && t == Pass(p, e, a)
    ensures VisitsFit(p, t, s, visits + (if Executes(e, s) then 1 else 0))
  {
    if e.returned.None? {
      HandlerIsWellBehaved(e, a);
      SettlingFits(p, e, Handle(e, a), a, s, visits);
    }
  }

  lemma {:induction false} VisitsFitRun(p: Policy, env: nat -> Answers, h: seq<Snapshot>, s: State)
    requires IsRun(p, env, h) && SeesNoCancellation(env, h)
    ensures VisitsFit(p, h[|h| - 1], s, Visits(h, s))
  {
    var n := |h| - 1;
    if n > 0 {
      VisitsFitRun(p, env, h[..n], s);
      BudgetBoundsRun(p, env, h, n - 1);
      PassFits(p, h[n - 1], env(n - 1), h[n], s, Visits(h[..n], s));
    }
  }

  /** A state is executed at most once more than its policy allows retries. */
  lemma StateIsVisitedBoundedly(p: Policy, env: nat -> Answers, h: seq<Snapshot>, s: State)
    requires IsRun(p, env, h) && SeesNoCancellation(env, h)
    ensures Visits(h, s) <= 1 + Limit(p, s)
  {
    VisitsFitRun(p, env, h, s);
    BudgetBoundsRun(p, env, h, |h| - 1);
  }

  /** How often each state runs at most under the default policy. */
  lemma DefaultVisits(env: nat -> Answers, h: seq<Snapshot>, s: State)
    requires IsRun(DefaultPolicy(), env, h) && SeesNoCancellation(env, h)
    ensures Visits(h, s) <= match s
                            case CreateTAP => 4
                            case LaunchVM => 3
                            case SaveNetwork => 3
                            case ConfigureTAP => 3
                            case _ => 1
  {
    StateIsVisitedBoundedly(DefaultPolicy(), env, h, s);
  }

  /** No handler of FlushDNS fails, so that its retries are never used, whatever the policy grants it. */
  lemma FlushDNSRunsOnce(p: Policy, env: nat -> Answers, h: seq<Snapshot>)
    requires IsRun(p, env, h) && SeesNoCancellation(env, h)
    ensures Visits(h, FlushDNS) <= 1
  {
    StateIsVisitedBoundedly(p, env, h, FlushDNS);
  }

  // -------------------------------------------------- the budget is needed

  /** An environment that lets every call fail as often as the policy retries it, and then succeed. */
  function SlowAnswer(p: Policy, e: Snapshot): (a: Answers) {
    var failure := if Fallible(e.state) && Attempts(e, e.state) < MaxAttempts(p, e.state) then Some(DeadlineExceeded)
                   else None;
    Answers(false, true, failure, true, 0, false, false, false, false, false)
  }

  function SlowRun(p: Policy, n: nat): (e: Snapshot) {
    if n == 0 then NewSnapshot()
    else
      var e := SlowRun(p, n - 1);
      Pass(p, e, SlowAnswer(p, e))
  }

  /** The handler fails while there are retries left, and otherwise moves on to the very next state. */
  ghost predicate HandledSlowly(p: Policy, e: Snapshot, h: Handled) {
    if Fallible(e.state) && Attempts(e, e.state) < MaxAttempts(p, e.state) then
      && h.failure == Some(DeadlineExceeded) && h.engine.returned.None?
      && h.engine.state == e.state && h.engine.attempts == e.attempts
    else if e.state == Cleanup then
      h.failure.None? && h.engine.returned == Some(Finished)
    else
      && h.failure.None? && h.engine.returned.None?
      && Index(h.engine.state) == Index(e.state) + 1 && h.engine.attempts == e.attempts - {e.state}
  }

  lemma SlowHandler(p: Policy, e: Snapshot)
    requires e.state != Failed && e.returned.None?
    ensures HandledSlowly(p, e, Handle(e, SlowAnswer(p, e)))
  {
  }

  lemma NextNeedsOneLess(p: Policy, s: State, t: State)
    requires s != Failed && Index(t) == Index(s) + 1 && t != Failed
    ensures Budget(p, t) + 1 + Limit(p, s) == Budget(p, s)
  {
  }

  lemma SettlingSlowly(p: Policy, e: Snapshot, h: Handled)
    requires Sane(p, e) && e.returned.None? && HandledSlowly(p, e, h)
    ensures var t := Settle(p, h, SlowAnswer(p, e));
      if e.state == Cleanup then t.returned == Some(Finished)
      else t.returned.None? && Sane(p, t) && Measure(p, t) == Measure(p, e) - 1
  {
    if h.failure.None? && e.state != Cleanup {
      NextNeedsOneLess(p, e.state, h.engine.state);
    }
  }

  lemma SlowPass(p: Policy, e: Snapshot, t: Snapshot)
    requires Sane(p, e) && e.returned.None? && t == Pass(p, e, SlowAnswer(p, e))
    ensures if e.state == Cleanup then t.returned == Some(Finished)
            else t.returned.None? && Sane(p, t) && Measure(p, t) == Measure(p, e) - 1
  {
    SlowHandler(p, e);
    SettlingSlowly(p, e, Handle(e, SlowAnswer(p, e)));
  }

  /** Every pass gets the slow answer to the state it finds. */
  ghost predicate AnsweredSlowly(p: Policy, env: nat -> Answers, h: seq<Snapshot>) {
    forall i {:trigger env(i)} | 0 <= i < |h| - 1 :: env(i) == SlowAnswer(p, h[i])
  }

  /** `n` passes have been spent out of the budget, and none to spare. */
  ghost predicate SpentExactly(p: Policy, e: Snapshot, n: nat) {
    Sane(p, e) && e.returned.None? && Measure(p, e) == Budget(p, Start) - n
  }

  lemma SlowPassSpendsOne(p: Policy, e: Snapshot, t: Snapshot, n: nat)
    requires SpentExactly(p, e, n) && n + 1 < Budget(p, Start) && t == Pass(p, e, SlowAnswer(p, e))
    ensures SpentExactly(p, t, n + 1)
  {
    SlowPass(p, e, t);
  }

  lemma {:induction false} SlowRunSpendsAll(p: Policy, env: nat -> Answers, h: seq<Snapshot>, n: nat)
    requires IsRun(p, env, h) && AnsweredSlowly(p, env, h) && n < |h| && n < Budget(p, Start)
    ensures SpentExactly(p, h[n], n)
  {
    if n > 0 {
      SlowRunSpendsAll(p, env, h, n - 1);
      assert env(n - 1) == SlowAnswer(p, h[n - 1]);
      SlowPassSpendsOne(p, h[n - 1], h[n], n - 1);
    }
  }

  lemma LastPassReturns(p: Policy, e: Snapshot, t: Snapshot)
    requires Sane(p, e) && e.returned.None? && Measure(p, e) == 1 && t == Pass(p, e, SlowAnswer(p, e))
    ensures t.returned == Some(Finished)
  {
    SlowPass(p, e, t);
    if e.state != Cleanup {
      MeasureIsPositive(p, t);
    }
  }

  lemma SlowRunExists(p: Policy, n: nat) returns (env: nat -> Answers, h: seq<Snapshot>)
    ensures IsRun(p, env, h) && AnsweredSlowly(p, env, h) && |h| == n + 1
  {
    env := (i: nat) => SlowAnswer(p, SlowRun(p, i));
    h := seq(n + 1, i requires 0 <= i => SlowRun(p, i));
    forall i {:trigger env(i)} | 0 <= i < n
      ensures h[i + 1] == Pass(p, h[i], env(i))
    {
      SlowRunStep(p, i, h[i], h[i + 1]);
    }
  }

  lemma SlowRunStep(p: Policy, n: nat, e: Snapshot, t: Snapshot)
    requires e == SlowRun(p, n) && t == SlowRun(p, n + 1)
    ensures t == Pass(p, e, SlowAnswer(p, e))
  {
  }

  /** The budget is exact: under every policy some environment makes a run use up all of it before it finishes. */
  lemma BudgetIsReached(p: Policy) returns (env: nat -> Answers, h: seq<Snapshot>)
    ensures IsRun(p, env, h) && SeesNoCancellation(env, h) && |h| == Budget(p, Start) + 1
    ensures h[|h| - 2].returned.None? && h[|h| - 1].returned == Some(Finished)
  {
    var n := Budget(p, Start);
    env, h := SlowRunExists(p, n);
    SlowRunSpendsAll(p, env, h, n - 1);
    assert env(n - 1) == SlowAnswer(p, h[n - 1]);
    LastPassReturns(p, h[n - 1], h[n]);
  }

  /** Under the default policy a run takes at most 22 passes, and some run takes all of them. */
  lemma DefaultBudget(env: nat -> Answers, h: seq<Snapshot>) returns (slow: nat -> Answers, g: seq<Snapshot>)
    requires IsRun(DefaultPolicy(), env, h) && SeesNoCancellation(env, h) && |h| == 23
    ensures ReturnedProperly(h[22])
    ensures IsRun(DefaultPolicy(), slow, g) && SeesNoCancellation(slow, g)
    ensures |g| == 23 && g[21].returned.None? && g[22].returned == Some(Finished)
  {
    assert Budget(DefaultPolicy(), Start) == 22;
    RunTerminates(DefaultPolicy(), env, h);
    slow, g := BudgetIsReached(DefaultPolicy());
  }
}
