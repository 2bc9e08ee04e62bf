/**
 * The native ANR watchdog: a monitor thread, any number of SIGQUIT interceptors and a shutdown, interleaved one
 * access to shared state at a time.
 */
module Watchdog {
  import opened Json

  datatype Via = BySemaphore | ByPolling

  /** What the monitor thread does next. */
  datatype Pc =
    | Top | Clear | Mode | Wait | PollEnabled | PollTriggered | Sleep
    | Check(via: Via) | Raise(via: Via) | Unblock | Done

  datatype ShutdownPc = Idle | Disabled | Posting | Joining | Joined

  /** The module's statics. */
  datatype Shared = Shared(enabled: bool, triggered: bool, mustPoll: bool, sem: nat)

  /** The monitor thread, with counts of what it did; `clearedAt` is how many triggers its last clearing has seen. */
  datatype Thread = Thread(
    pc: Pc, waits: nat, bySemaphore: nat, byPolling: nat, dropped: nat, waitFailures: nat, clearedAt: nat, polling: bool)

  /** How many interceptor calls there have been, how many are at which point, and what they did. */
  datatype Calls = Calls(
    atTrigger: nat, atMode: nat, atPost: nat, invoked: nat, triggers: nat, posts: nat, failures: nat)

  datatype Shutdown = Shutdown(pc: ShutdownPc, posts: nat, failures: nat)

  datatype State = State(shared: Shared, thread: Thread, calls: Calls, shutdown: Shutdown)

  /** After initialisation; the watchdog polls when the semaphore could not be made. */
  function Start(semaphoreMade: bool): State {
    State(Shared(true, false, !semaphoreMade, 0), Thread(Top, 0, 0, 0, 0, 0, 0, false), Calls(0, 0, 0, 0, 0, 0, 0), Shutdown(Idle, 0, 0))
  }

  datatype Action =
    | Monitor | WaitFails
    | Invoke | Trigger | ReadMode | Post(ok: bool)
    | Disable | ShutdownMode | ShutdownPost(ok: bool) | Join

  predicate Enabled(s: State, a: Action) {
    match a
    case Monitor => s.thread.pc != Done && (s.thread.pc == Wait ==> s.shared.sem > 0)
    case WaitFails => s.thread.pc == Wait
    case Invoke => true
    case Trigger => s.calls.atTrigger > 0
    case ReadMode => s.calls.atMode > 0
    case Post(_) => s.calls.atPost > 0
    case Disable => s.shutdown.pc == Idle
    case ShutdownMode => s.shutdown.pc == Disabled
    case ShutdownPost(_) => s.shutdown.pc == Posting
    case Join => s.shutdown.pc == Joining && s.thread.pc == Done
  }

  /** What the monitor thread makes of itself; `triggers` is only counted, never read. */
  function ThreadNext(t: Thread, g: Shared, triggers: nat): Thread
    requires t.pc != Done
  {
    match t.pc
    case Top => t.(pc := if g.enabled then Clear else Done)
    case Clear => t.(clearedAt := triggers, pc := Mode)
    case Mode => if g.mustPoll then t.(polling := true, pc := PollEnabled) else t.(pc := Wait)
    case Wait => t.(waits := t.waits + 1, pc := Check(BySemaphore))
    case PollEnabled => t.(pc := if g.enabled then PollTriggered else Check(ByPolling))
    case PollTriggered => t.(pc := if g.triggered then Check(ByPolling) else Sleep)
    case Sleep => t.(pc := PollEnabled)
    case Check(via) =>
      if g.enabled then t.(pc := Raise(via))
      else if via == BySemaphore then t.(pc := Unblock, dropped := t.dropped + 1)
      else t.(pc := Unblock)
    case Raise(BySemaphore) => t.(pc := Unblock, bySemaphore := t.bySemaphore + 1)
    case Raise(ByPolling) => t.(pc := Unblock, byPolling := t.byPolling + 1)
    case Unblock => t.(pc := Top)
  }

  /** What it makes of the statics: it clears the trigger, and takes from the semaphore. */
  function SharedNext(pc: Pc, g: Shared): Shared
    requires pc == Wait ==> g.sem > 0
  {
    if pc == Clear then g.(triggered := false) else if pc == Wait then g.(sem := g.sem - 1) else g
  }

  function MonitorNext(s: State): State
    requires Enabled(s, Monitor)
  {
    s.(thread := ThreadNext(s.thread, s.shared, s.calls.triggers), shared := SharedNext(s.thread.pc, s.shared))
  }

  function Next(s: State, a: Action): State
    requires Enabled(s, a)
  {
    var g, t, c, d := s.shared, s.thread, s.calls, s.shutdown;
    match a
    case Monitor => MonitorNext(s)
    case WaitFails => s.(thread := t.(pc := PollEnabled, waitFailures := t.waitFailures + 1))
    case Invoke => s.(calls := c.(invoked := c.invoked + 1, atTrigger := c.atTrigger + 1))
    case Trigger =>
      s.(shared := g.(triggered := true),
         calls := c.(triggers := c.triggers + 1, atTrigger := c.atTrigger - 1, atMode := c.atMode + 1))
    case ReadMode =>
      s.(calls := if g.mustPoll then c.(atMode := c.atMode - 1) else c.(atMode := c.atMode - 1, atPost := c.atPost + 1))
    case Post(true) => s.(shared := g.(sem := g.sem + 1), calls := c.(atPost := c.atPost - 1, posts := c.posts + 1))
    case Post(false) => s.(shared := g.(mustPoll := true), calls := c.(atPost := c.atPost - 1, failures := c.failures + 1))
    case Disable => s.(shared := g.(enabled := false), shutdown := d.(pc := Disabled))
    case ShutdownMode => s.(shutdown := d.(pc := if g.mustPoll then Joining else Posting))
    case ShutdownPost(true) => s.(shared := g.(sem := g.sem + 1), shutdown := d.(posts := d.posts + 1, pc := Joining))
    case ShutdownPost(false) => s.(shutdown := d.(failures := d.failures + 1, pc := Joining))
    case Join => s.(shutdown := d.(pc := Joined))
  }

  /** Where a run ends, or nothing when one of its actions is not possible. */
  function Run(s: State, actions: seq<Action>): Option<State>
    decreases |actions|
  {
    if |actions| == 0 then Some(s)
    else if !Enabled(s, actions[0]) then None
    else Run(Next(s, actions[0]), actions[1..])
  }

  /** SIGQUITs sent on to the runtime. */
  function Forwarded(s: State): nat { s.thread.bySemaphore + s.thread.byPolling }

  function PostFailures(s: State): nat { s.calls.failures + s.shutdown.failures }

  // The invariant

  predicate Polls(pc: Pc) {
    pc == PollEnabled || pc == PollTriggered || pc == Sleep || pc == Check(ByPolling) || pc == Raise(ByPolling)
  }

  predicate Handles(pc: Pc) { pc == Check(BySemaphore) || pc == Raise(BySemaphore) }

  predicate MayWait(pc: Pc) { pc == Clear || pc == Mode || pc == Wait }

  predicate AtEnd(pc: Pc) { pc == Unblock || pc == Top || pc == Done }

  /** Every post is in the semaphore, was waited for, and every wait led to at most one raise. */
  predicate SemaphoreAccount(s: State) {
    && s.shared.sem + s.thread.waits == s.calls.posts + s.shutdown.posts
    && s.thread.waits == s.thread.bySemaphore + s.thread.dropped + (if Handles(s.thread.pc) then 1 else 0)
    && s.thread.bySemaphore + (if s.thread.pc == Raise(BySemaphore) then 1 else 0) <= s.calls.posts
    && s.shutdown.posts <= 1 && (s.shutdown.posts == 1 ==> s.shutdown.pc == Joining || s.shutdown.pc == Joined)
    && s.thread.dropped <= 1 && (s.thread.dropped == 1 ==> !s.shared.enabled && AtEnd(s.thread.pc))
    && (s.shared.enabled <==> s.shutdown.pc == Idle)
    && (s.thread.pc == Done ==> !s.shared.enabled)
  }

  predicate CallAccount(c: Calls) {
    && c.triggers + c.atTrigger == c.invoked
    && c.posts + c.atMode + c.atPost <= c.triggers
  }

  predicate PollAccount(s: State) {
    && s.thread.clearedAt <= s.calls.triggers
    && (s.shared.triggered ==> s.thread.clearedAt < s.calls.triggers)
    && (s.thread.pc == Check(ByPolling) && s.shared.enabled ==> s.thread.clearedAt < s.calls.triggers)
    && (s.thread.pc == Raise(ByPolling) ==> s.thread.clearedAt < s.calls.triggers)
    && s.thread.byPolling <= s.calls.triggers
    && (s.thread.pc == Mode || s.thread.pc == Wait || Polls(s.thread.pc) ==> s.thread.byPolling <= s.thread.clearedAt)
  }

  predicate RaiseAccount(s: State) {
    && Forwarded(s) <= s.calls.triggers + s.thread.waitFailures
    && (s.thread.pc == Mode || (s.thread.polling && Polls(s.thread.pc)) ==> Forwarded(s) <= s.thread.clearedAt + s.thread.waitFailures)
    && (!s.thread.polling ==> s.thread.byPolling + (if Polls(s.thread.pc) then 1 else 0) <= s.thread.waitFailures)
    && (s.thread.polling ==> s.shared.mustPoll && s.thread.pc != Wait && !Handles(s.thread.pc))
  }

  predicate PollsOnly(s: State) { s.shared.mustPoll && PostFailures(s) == 0 }

  predicate ModeAccount(s: State) {
    && (s.shutdown.posts == 1 && MayWait(s.thread.pc) ==> s.shared.sem > 0)
    && ((s.shutdown.pc == Joining || s.shutdown.pc == Joined) && s.shutdown.posts == 0 ==> s.shared.mustPoll || PostFailures(s) > 0)
    && (PollsOnly(s) ==> s.thread.pc != Wait && s.calls.atPost == 0 && s.calls.posts == 0 && s.shutdown.posts == 0)
    && (PollsOnly(s) ==> s.shutdown.pc != Posting && s.thread.waitFailures == 0)
  }

  predicate Inv(s: State) {
    SemaphoreAccount(s) && CallAccount(s.calls) && PollAccount(s) && RaiseAccount(s) && ModeAccount(s)
  }

  lemma SemaphoreMonitor(s: State)
    requires SemaphoreAccount(s) && Enabled(s, Monitor)
    ensures SemaphoreAccount(MonitorNext(s))
  {
  }

  lemma SemaphoreOthers(s: State, a: Action)
    requires SemaphoreAccount(s) && Enabled(s, a) && a != Monitor
    ensures SemaphoreAccount(Next(s, a))
  {
    hide MonitorNext;
  }

  lemma SemaphoreKept(s: State, a: Action)
    requires SemaphoreAccount(s) && Enabled(s, a)
    ensures SemaphoreAccount(Next(s, a))
  {
    hide SemaphoreAccount, Enabled, MonitorNext;
    if a == Monitor { SemaphoreMonitor(s); } else { SemaphoreOthers(s, a); }
  }

  lemma CallsKept(s: State, a: Action)
    requires CallAccount(s.calls) && Enabled(s, a)
    ensures CallAccount(Next(s, a).calls)
  {
  }

  lemma PollsKept(s: State, a: Action)
    requires PollAccount(s) && Enabled(s, a)
    ensures PollAccount(Next(s, a))
  {
  }

  lemma RaisesMonitor(s: State)
    requires SemaphoreAccount(s) && CallAccount(s.calls) && PollAccount(s) && RaiseAccount(s) && Enabled(s, Monitor)
    ensures RaiseAccount(MonitorNext(s))
  {
  }

  lemma RaisesOthers(s: State, a: Action)
    requires RaiseAccount(s) && Enabled(s, a) && a != Monitor
    ensures RaiseAccount(Next(s, a))
  {
    hide MonitorNext;
  }

  lemma RaisesKept(s: State, a: Action)
    requires Inv(s) && Enabled(s, a)
    ensures RaiseAccount(Next(s, a))
  {
    hide SemaphoreAccount, CallAccount, PollAccount, RaiseAccount, ModeAccount, Enabled, MonitorNext;
    if a == Monitor { RaisesMonitor(s); } else { RaisesOthers(s, a); }
  }

  lemma ModeKept(s: State, a: Action)
    requires ModeAccount(s) && SemaphoreAccount(s) && Enabled(s, a)
    ensures ModeAccount(Next(s, a))
  {
  }

  lemma Keeps(s: State, a: Action)
    requires Inv(s) && Enabled(s, a)
    ensures Inv(Next(s, a))
  {
    hide Enabled, Next, SemaphoreAccount, CallAccount, PollAccount, RaiseAccount, ModeAccount;
    SemaphoreKept(s, a);
    CallsKept(s, a);
    PollsKept(s, a);
    RaisesKept(s, a);
    ModeKept(s, a);
  }

  lemma {:induction false} RunKeeps(s: State, actions: seq<Action>)
    requires Inv(s) && Run(s, actions).Some?
    ensures Inv(Run(s, actions).value)
    decreases |actions|
  {
    hide Inv, Enabled, Next;
    if |actions| > 0 {
      Keeps(s, actions[0]);
      RunKeeps(Next(s, actions[0]), actions[1..]);
    }
  }

  // Conservation of signals

  /**
   * In every run: the semaphore holds what was posted and not waited for; a raise by the semaphore never comes
   * from the shutdown's post; and the signals forwarded are no more than the interceptor's invocations, but for
   * the waits that failed, and in no case more than twice as many.
   */
  lemma SignalsConserved(semaphoreMade: bool, actions: seq<Action>)
    requires Run(Start(semaphoreMade), actions).Some?
    ensures var s := Run(Start(semaphoreMade), actions).value;
      && s.shared.sem + s.thread.waits == s.calls.posts + s.shutdown.posts
      && s.thread.bySemaphore <= s.calls.posts <= s.calls.invoked
      && Forwarded(s) <= s.calls.invoked + s.thread.waitFailures
      && Forwarded(s) <= 2 * s.calls.invoked
  {
    StartHolds(semaphoreMade);
    hide Run, Start;
    RunKeeps(Start(semaphoreMade), actions);
  }

  lemma StartSemaphore(s: State)
    requires s.thread == Thread(Top, 0, 0, 0, 0, 0, 0, false) && s.calls.posts == 0
    requires s.shutdown == Shutdown(Idle, 0, 0) && s.shared.enabled && s.shared.sem == 0
    ensures SemaphoreAccount(s)
  {
  }

  lemma StartPolls(s: State)
    requires s.thread == Thread(Top, 0, 0, 0, 0, 0, 0, false) && !s.shared.triggered
    ensures PollAccount(s)
  {
  }

  lemma StartRaises(s: State)
    requires s.thread == Thread(Top, 0, 0, 0, 0, 0, 0, false)
    ensures RaiseAccount(s)
  {
  }

  lemma StartMode(s: State)
    requires s.thread.pc == Top && s.thread.waitFailures == 0 && s.calls == Calls(0, 0, 0, 0, 0, 0, 0)
    requires s.shutdown == Shutdown(Idle, 0, 0)
    ensures ModeAccount(s)
  {
  }

  lemma FreshHolds(s: State)
    requires s.thread == Thread(Top, 0, 0, 0, 0, 0, 0, false) && s.calls == Calls(0, 0, 0, 0, 0, 0, 0)
    requires s.shutdown == Shutdown(Idle, 0, 0) && s.shared.enabled && !s.shared.triggered && s.shared.sem == 0
    ensures Inv(s)
  {
    hide SemaphoreAccount, PollAccount, RaiseAccount, ModeAccount;
    StartSemaphore(s);
    StartPolls(s);
    StartRaises(s);
    StartMode(s);
  }

  lemma StartHolds(semaphoreMade: bool)
    ensures Inv(Start(semaphoreMade))
  {
    hide Inv;
    FreshHolds(Start(semaphoreMade));
  }

  /** While enabled, each interceptor post is in the semaphore, in the monitor's hands, or raised: none is lost. */
  lemma NoPostLost(semaphoreMade: bool, actions: seq<Action>)
    requires Run(Start(semaphoreMade), actions).Some?
    ensures var s := Run(Start(semaphoreMade), actions).value;
      s.shared.enabled ==>
        s.calls.posts == s.shared.sem + s.thread.bySemaphore + (if Handles(s.thread.pc) then 1 else 0)
  {
    StartHolds(semaphoreMade);
    hide Run, Start;
    RunKeeps(Start(semaphoreMade), actions);
  }

  function Raising(pc: Pc): nat { if pc.Raise? then 1 else 0 }

  lemma DisabledStep(s: State, a: Action)
    requires !s.shared.enabled && Enabled(s, a)
    ensures !Next(s, a).shared.enabled
    ensures Forwarded(Next(s, a)) + Raising(Next(s, a).thread.pc) <= Forwarded(s) + Raising(s.thread.pc)
  {
  }

  /** After the disable at most one more signal goes out, and only if the monitor was about to send it. */
  lemma {:induction false} NoRaiseAfterDisable(s: State, actions: seq<Action>)
    requires !s.shared.enabled && Run(s, actions).Some?
    ensures var t := Run(s, actions).value;
      Forwarded(t) + Raising(t.thread.pc) <= Forwarded(s) + Raising(s.thread.pc)
    decreases |actions|
  {
    hide Enabled, Next, Forwarded, Raising;
    if |actions| > 0 {
      DisabledStep(s, actions[0]);
      NoRaiseAfterDisable(Next(s, actions[0]), actions[1..]);
    }
  }

  // The bound is tight: a wait that fails lets one invocation forward twice

  ghost predicate Reachable(semaphoreMade: bool, s: State) {
    exists actions: seq<Action> :: Run(Start(semaphoreMade), actions) == Some(s)
  }

  lemma {:induction false} RunThen(s: State, actions: seq<Action>, a: Action)
    requires Run(s, actions).Some? && Enabled(Run(s, actions).value, a)
    ensures Run(s, actions + [a]) == Some(Next(Run(s, actions).value, a))
    decreases |actions|
  {
    hide Enabled, Next;
    if |actions| > 0 {
      assert (actions + [a])[1..] == actions[1..] + [a];
      RunThen(Next(s, actions[0]), actions[1..], a);
    } else {
      assert actions + [a] == [a];
      assert Run(Next(s, a), []) == Some(Next(s, a));
    }
  }

  lemma Reaches(semaphoreMade: bool, s: State, a: Action) returns (t: State)
    requires Reachable(semaphoreMade, s) && Enabled(s, a)
    ensures t == Next(s, a) && Reachable(semaphoreMade, t)
  {
    hide Enabled, Next;
    var actions: seq<Action> :| Run(Start(semaphoreMade), actions) == Some(s);
    RunThen(Start(semaphoreMade), actions, a);
    t := Next(s, a);
  }

  lemma Begins(semaphoreMade: bool) returns (s: State)
    ensures s == Start(semaphoreMade) && Reachable(semaphoreMade, s)
  {
    s := Start(semaphoreMade);
    assert Run(s, []) == Some(s);
  }

  /** Back at the top of the loop, nothing pending. */
  predicate Quiet(s: State) {
    s.shared.enabled && !s.shared.mustPoll && s.shared.sem == 0 && s.thread.pc == Top
  }

  lemma OneInvocationTwoSignals(s: State) returns (t: State)
    requires Reachable(true, s) && Quiet(s)
    ensures Reachable(true, t) && Quiet(t)
    ensures t.calls.invoked == s.calls.invoked + 1 && t.thread.waitFailures == s.thread.waitFailures + 1
    ensures Forwarded(t) == Forwarded(s) + 2
  {
    hide Reachable;
    t := FailsToWait(s);
    t := ForwardsByPolling(t);
    t := ForwardsBySemaphore(t);
  }

  lemma FailsToWait(s: State) returns (t: State)
    requires Reachable(true, s) && Quiet(s)
    ensures Reachable(true, t)
    ensures t.thread == s.thread.(pc := PollEnabled, waitFailures := s.thread.waitFailures + 1, clearedAt := s.calls.triggers)
    ensures t.shared == s.shared.(triggered := false) && t.calls == s.calls
  {
    hide Reachable;
    t := Reaches(true, s, Monitor);
    t := Reaches(true, t, Monitor);
    t := Reaches(true, t, Monitor);
    t := Reaches(true, t, WaitFails);
  }

  /** The interceptor triggers and posts; the polling monitor sees the trigger. */
  lemma ForwardsByPolling(s: State) returns (t: State)
    requires Reachable(true, s) && s.thread.pc == PollEnabled && s.shared.enabled && !s.shared.mustPoll
    ensures Reachable(true, t)
    ensures t.thread == s.thread.(pc := Top, byPolling := s.thread.byPolling + 1)
    ensures t.shared == s.shared.(triggered := true, sem := s.shared.sem + 1) && t.calls.invoked == s.calls.invoked + 1
  {
    hide Reachable;
    t := Reaches(true, s, Invoke);
    t := Reaches(true, t, Trigger);
    t := Reaches(true, t, ReadMode);
    t := Reaches(true, t, Post(true));
    t := Reaches(true, t, Monitor);
    t := Reaches(true, t, Monitor);
    t := Reaches(true, t, Monitor);
    t := Reaches(true, t, Monitor);
    t := Reaches(true, t, Monitor);
  }

  /** The post it left is taken in the next round. */
  lemma ForwardsBySemaphore(s: State) returns (t: State)
    requires Reachable(true, s) && s.thread.pc == Top && s.shared.enabled && !s.shared.mustPoll && s.shared.sem == 1
    ensures Reachable(true, t) && Quiet(t) && t.calls == s.calls
    ensures t.thread.waitFailures == s.thread.waitFailures && Forwarded(t) == Forwarded(s) + 1
  {
    hide Reachable;
    t := Reaches(true, s, Monitor);
    t := Reaches(true, t, Monitor);
    t := Reaches(true, t, Monitor);
    t := Reaches(true, t, Monitor);
    t := Reaches(true, t, Monitor);
    t := Reaches(true, t, Monitor);
    t := Reaches(true, t, Monitor);
  }

  /** For every number of failed waits there is a run that forwards two signals for each invocation. */
  lemma {:induction false} BoundIsTight(k: nat) returns (s: State)
    ensures Reachable(true, s) && Quiet(s)
    ensures s.calls.invoked == k && s.thread.waitFailures == k && Forwarded(s) == 2 * k
  {
    hide Reachable;
    if k == 0 {
      s := Begins(true);
    } else {
      s := BoundIsTight(k - 1);
      hide Quiet, Forwarded;
      s := OneInvocationTwoSignals(s);
    }
  }

  /** In every run with at most so many failed waits no more signals are sent on than the interceptor was invoked. */
  ghost predicate NoneSentTwice(failures: nat) {
    forall semaphoreMade: bool, actions: seq<Action> ::
      Run(Start(semaphoreMade), actions).Some? && Run(Start(semaphoreMade), actions).value.thread.waitFailures <= failures ==>
        Forwarded(Run(Start(semaphoreMade), actions).value) <= Run(Start(semaphoreMade), actions).value.calls.invoked
  }

  /** That is so exactly when no wait fails. */
  lemma NoneSentTwiceIff(failures: nat)
    ensures NoneSentTwice(failures) <==> failures == 0
  {
    hide Run, Start, Forwarded;
    if failures == 0 {
      forall semaphoreMade: bool, actions: seq<Action> | Run(Start(semaphoreMade), actions).Some?
        && Run(Start(semaphoreMade), actions).value.thread.waitFailures <= failures
        ensures Forwarded(Run(Start(semaphoreMade), actions).value) <= Run(Start(semaphoreMade), actions).value.calls.invoked
      {
        SignalsConserved(semaphoreMade, actions);
      }
    } else {
      var s := BoundIsTight(1);
      var actions: seq<Action> :| Run(Start(true), actions) == Some(s);
      assert Run(Start(true), actions).Some?;
    }
  }

  // What is pending is sent on

  /** The monitor's next `k` steps. */
  function MonitorRun(s: State, k: nat): State
    decreases k
  {
    if k == 0 || !Enabled(s, Monitor) then s else MonitorRun(MonitorNext(s), k - 1)
  }

  lemma MonitorRunStep(s: State, k: nat)
    requires k > 0 && Enabled(s, Monitor)
    ensures MonitorRun(s, k) == MonitorRun(MonitorNext(s), k - 1)
  {
  }

  lemma CheckedSentOn(s: State)
    requires s.shared.enabled && s.thread.pc.Check?
    ensures Forwarded(MonitorRun(s, 2)) == Forwarded(s) + 1
  {
    var t := MonitorNext(s);
    var u := MonitorNext(t);
    assert Forwarded(u) == Forwarded(s) + 1;
    MonitorRunStep(s, 2);
    MonitorRunStep(t, 1);
    assert MonitorRun(u, 0) == u;
    hide *;
  }

  lemma FoundPending(s: State)
    requires s.shared.enabled
    ensures s.thread.pc == Wait && s.shared.sem > 0 ==>
      (Enabled(s, Monitor) && var t := MonitorNext(s); t.thread.pc == Check(BySemaphore) && t.shared.enabled && Forwarded(t) == Forwarded(s))
    ensures s.thread.pc == PollEnabled && s.shared.triggered ==>
      (Enabled(s, Monitor) && var t := MonitorNext(s); t.thread.pc == PollTriggered && t.shared == s.shared && Forwarded(t) == Forwarded(s))
    ensures s.thread.pc == PollTriggered && s.shared.triggered ==>
      (Enabled(s, Monitor) && var t := MonitorNext(s); t.thread.pc == Check(ByPolling) && t.shared.enabled && Forwarded(t) == Forwarded(s))
  {
  }

  /** While enabled, the monitor's next three or four steps send on what it finds: a post it waits for, a trigger it polls for. */
  lemma PendingSentOn(s: State)
    requires s.shared.enabled
    ensures s.thread.pc == Wait && s.shared.sem > 0 ==> Forwarded(MonitorRun(s, 3)) == Forwarded(s) + 1
    ensures s.thread.pc == PollEnabled && s.shared.triggered ==> Forwarded(MonitorRun(s, 4)) == Forwarded(s) + 1
  {
    FoundPending(s);
    hide *;
    if s.thread.pc == Wait && s.shared.sem > 0 {
      MonitorRunStep(s, 3);
      CheckedSentOn(MonitorNext(s));
    }
    if s.thread.pc == PollEnabled && s.shared.triggered {
      MonitorRunStep(s, 4);
      var t := MonitorNext(s);
      FoundPending(t);
      MonitorRunStep(t, 3);
      CheckedSentOn(MonitorNext(t));
    }
  }

  /** In either mode the interceptor leaves something to find: a trigger, and a post unless the monitor polls. */
  lemma InvocationPending(s: State) returns (t: State)
    requires s.shared.enabled && s.calls.atTrigger > 0
    ensures Enabled(s, Trigger) && Enabled(Next(s, Trigger), ReadMode) && t == Next(Next(s, Trigger), ReadMode)
    ensures t.shared.triggered && t.thread == s.thread
    ensures !s.shared.mustPoll ==> Enabled(t, Post(true)) && Next(t, Post(true)).shared.sem == s.shared.sem + 1
    ensures !s.shared.mustPoll ==> Enabled(t, Post(false)) && Next(t, Post(false)).shared.mustPoll
  {
    t := Next(Next(s, Trigger), ReadMode);
  }

  // The shutdown

  function Rank(pc: Pc): nat {
    match pc
    case Done => 0
    case Top => 1
    case Unblock => 2
    case Raise(_) => 3
    case Check(_) => 4
    case PollEnabled => 5
    case Sleep => 6
    case PollTriggered => 7
    case Wait => 8
    case Mode => 9
    case Clear => 10
  }

  predicate Joins(s: State) { s.shutdown.pc == Joining || s.shutdown.pc == Joined }

  predicate IsMonitors(a: Action) { a == Monitor || a == WaitFails }

  lemma RankStep(s: State, a: Action)
    requires !s.shared.enabled && Enabled(s, a)
    ensures if IsMonitors(a) then Rank(Next(s, a).thread.pc) < Rank(s.thread.pc) else Next(s, a).thread == s.thread
  {
  }

  lemma JoinsStep(s: State, a: Action)
    requires Joins(s) && Enabled(s, a) && a != Post(false)
    ensures Joins(Next(s, a)) && PostFailures(Next(s, a)) == PostFailures(s)
  {
  }

  /** The shutdown has done its part, and no post ever failed. */
  predicate Released(s: State) { Inv(s) && Joins(s) && PostFailures(s) == 0 }

  /** Until it has exited the monitor can always move: it is never blocked on the semaphore. */
  lemma ReleasedMoves(s: State)
    requires Released(s)
    ensures !s.shared.enabled && (s.thread.pc != Done ==> Enabled(s, Monitor))
  {
    hide PollAccount, RaiseAccount, CallAccount;
  }

  function MonitorSteps(actions: seq<Action>): nat {
    if |actions| == 0 then 0
    else (if IsMonitors(actions[0]) then 1 else 0) + MonitorSteps(actions[1..])
  }

  lemma {:induction false} ReleasedRun(s: State, actions: seq<Action>)
    requires Released(s) && Run(s, actions).Some? && Post(false) !in actions
    ensures var t := Run(s, actions).value;
      Released(t) && Rank(t.thread.pc) + MonitorSteps(actions) <= Rank(s.thread.pc)
    decreases |actions|
  {
    hide Inv, Joins, PostFailures, Enabled, Next, Rank;
    if |actions| > 0 {
      ReleasedMoves(s);
      RankStep(s, actions[0]);
      JoinsStep(s, actions[0]);
      Keeps(s, actions[0]);
      ReleasedRun(Next(s, actions[0]), actions[1..]);
    }
  }

  /**
   * From every reachable state in which the shutdown joins, whatever else runs in between: the monitor takes at
   * most ten more steps, can always take the next one, and after the tenth at the latest it has exited.
   */
  lemma ShutdownTerminates(semaphoreMade: bool, before: seq<Action>, after: seq<Action>)
    requires Run(Start(semaphoreMade), before).Some?
    requires var s := Run(Start(semaphoreMade), before).value;
      Joins(s) && PostFailures(s) == 0 && Run(s, after).Some?
    requires Post(false) !in after
    ensures var t := Run(Run(Start(semaphoreMade), before).value, after).value;
      && MonitorSteps(after) <= 10
      && (t.thread.pc == Done || Enabled(t, Monitor))
      && (MonitorSteps(after) == 10 ==> t.thread.pc == Done)
  {
    StartHolds(semaphoreMade);
    hide Run, Start, Enabled, Inv, Joins, PostFailures;
    RunKeeps(Start(semaphoreMade), before);
    var s := Run(Start(semaphoreMade), before).value;
    ReleasedRun(s, after);
    ReleasedMoves(Run(s, after).value);
  }

  // When a post has failed

  /** The monitor running alone, without failing waits, once disabled: to its exit, or to a wait that blocks. */
  function Alone(s: State): (t: State)
    requires !s.shared.enabled
    ensures t.thread.pc == Done || (t.thread.pc == Wait && t.shared.sem == 0)
    decreases Rank(s.thread.pc)
  {
    if s.thread.pc == Done || (s.thread.pc == Wait && s.shared.sem == 0) then s else Alone(MonitorNext(s))
  }

  /** Nothing is posted, and the monitor waits, or is past the last test that could keep it from waiting. */
  predicate Strands(s: State) {
    s.shared.sem == 0 && (s.thread.pc == Wait || (!s.shared.mustPoll && (s.thread.pc == Clear || s.thread.pc == Mode)))
  }

  lemma StrandsStep(s: State)
    requires !s.shared.enabled && Enabled(s, Monitor)
    ensures Strands(MonitorNext(s)) <==> Strands(s)
    ensures !MonitorNext(s).shared.enabled && Rank(MonitorNext(s).thread.pc) < Rank(s.thread.pc)
  {
  }

  /** Left alone after the disable, the monitor exits exactly when it is not stranded. */
  lemma {:induction false} ExitsUnlessStranded(s: State)
    requires !s.shared.enabled
    ensures Alone(s).thread.pc == Done <==> !Strands(s)
    decreases Rank(s.thread.pc)
  {
    if s.thread.pc != Done && !(s.thread.pc == Wait && s.shared.sem == 0) {
      StrandsStep(s);
      ExitsUnlessStranded(MonitorNext(s));
      hide MonitorNext, Strands;
    }
  }

  /** Without a failed post a joining shutdown never strands the monitor. */
  lemma NotStranded(s: State)
    requires Released(s)
    ensures !Strands(s)
  {
    hide PollAccount, RaiseAccount, CallAccount;
  }

  lemma ReachesWait() returns (s: State)
    ensures Reachable(true, s) && s == Start(true).(thread := Start(true).thread.(pc := Wait))
  {
    hide Reachable;
    s := Begins(true);
    s := Reaches(true, s, Monitor);
    s := Reaches(true, s, Monitor);
    s := Reaches(true, s, Monitor);
  }

  lemma FailsToPost(s: State) returns (t: State)
    requires Reachable(true, s) && !s.shared.mustPoll
    ensures Reachable(true, t) && t.thread == s.thread && t.shutdown == s.shutdown
    ensures t.shared == s.shared.(triggered := true, mustPoll := true) && t.calls.failures == s.calls.failures + 1
  {
    hide Reachable;
    t := Reaches(true, s, Invoke);
    t := Reaches(true, t, Trigger);
    t := Reaches(true, t, ReadMode);
    t := Reaches(true, t, Post(false));
  }

  /** With one it can: the failed post turns the mode under a monitor that already waits, and the shutdown posts nothing. */
  lemma FailedPostStrands() returns (s: State)
    ensures Reachable(true, s) && s.shutdown.pc == Joining && PostFailures(s) == 1 && s.thread.waitFailures == 0
    ensures Strands(s) && !s.shared.enabled && Alone(s).thread.pc != Done
  {
    hide Reachable, Alone;
    s := ReachesWait();
    s := FailsToPost(s);
    s := Reaches(true, s, Disable);
    s := Reaches(true, s, ShutdownMode);
    ExitsUnlessStranded(s);
  }

  // The code of the three parties

  lemma RunOf3(s: State, a: Action, b: Action, c: Action)
    requires Enabled(s, a) && Enabled(Next(s, a), b) && Enabled(Next(Next(s, a), b), c)
    ensures Run(s, [a, b, c]) == Some(Next(Next(Next(s, a), b), c))
  {
    hide Enabled, Next;
    assert [a, b, c][1..] == [b, c] && [b, c][1..] == [c] && [c][1..] == [];
    assert Run(Next(Next(s, a), b), [c]) == Some(Next(Next(Next(s, a), b), c));
  }

  /** The statics, and the bookkeeping of where the threads are and what they did. */
  class Watchdog {
    var enabled: bool
    var triggered: bool
    var mustPoll: bool
    var semaphore: nat
    var thread: Thread
    var calls: Calls
    var shutdown: Shutdown

    function View(): State
      reads this
    {
      State(Shared(enabled, triggered, mustPoll, semaphore), thread, calls, shutdown)
    }

    constructor (semaphoreMade: bool)
      ensures View() == Start(semaphoreMade)
    {
      enabled, triggered, mustPoll, semaphore := true, false, !semaphoreMade, 0;
      var start := Start(semaphoreMade);
      thread, calls, shutdown := start.thread, start.calls, start.shutdown;
    }

    /** One whole call; `posts` is whether `sem_post` works. Answers whether the call collects a report. */
    method Interceptor(posts: bool) returns (reports: bool)
      modifies this
      ensures reports == old(enabled)
      ensures !old(mustPoll) ==> Run(old(View()), [Invoke, Trigger, ReadMode] + [Post(posts)]) == Some(View())
      ensures old(mustPoll) ==> Run(old(View()), [Invoke, Trigger, ReadMode]) == Some(View())
    {
      hide Run;
      RunOf3(View(), Invoke, Trigger, ReadMode);
      calls := calls.(invoked := calls.invoked + 1);
      reports := enabled;
      triggered := true;
      calls := calls.(triggers := calls.triggers + 1);
      if !mustPoll {
        RunThen(old(View()), [Invoke, Trigger, ReadMode], Post(posts));
        if posts {
          semaphore := semaphore + 1;
          calls := calls.(posts := calls.posts + 1);
        } else {
          mustPoll := true;
          calls := calls.(failures := calls.failures + 1);
        }
      }
    }

    /** The shutdown up to its join. */
    method SignalShutdown(posts: bool)
      requires shutdown.pc == Idle
      modifies this
      ensures !old(mustPoll) ==> Run(old(View()), [Disable, ShutdownMode, ShutdownPost(posts)]) == Some(View())
      ensures old(mustPoll) ==> Run(old(View()), [Disable] + [ShutdownMode]) == Some(View())
    {
      hide Run;
      if !mustPoll {
        RunOf3(View(), Disable, ShutdownMode, ShutdownPost(posts));
      } else {
        assert Run(View(), [Disable]) == Some(Next(View(), Disable)) by { RunOf1(View(), Disable); }
        RunThen(View(), [Disable], ShutdownMode);
      }
      enabled := false;
      if !mustPoll {
        if posts {
          semaphore := semaphore + 1;
          shutdown := shutdown.(posts := shutdown.posts + 1);
        } else {
          shutdown := shutdown.(failures := shutdown.failures + 1);
        }
      }
      shutdown := shutdown.(pc := Joining);
    }

    /** The other threads, between two accesses of the monitor's. */
    method Others(actions: seq<Action>)
      modifies this
      ensures View() == Perform(old(View()), actions) && thread == old(thread)
    {
      var i := 0;
      while i < |actions|
        invariant i <= |actions| && thread == old(thread)
        invariant Perform(View(), actions[i..]) == Perform(old(View()), actions)
      {
        var s := View();
        if !IsMonitors(actions[i]) && Enabled(s, actions[i]) {
          OthersLeaveThread(s, actions[i]);
          var t := Next(s, actions[i]);
          enabled, triggered, mustPoll, semaphore := t.shared.enabled, t.shared.triggered, t.shared.mustPoll, t.shared.sem;
          calls, shutdown := t.calls, t.shutdown;
        }
        i := i + 1;
      }
    }

    // The monitor's accesses to shared state, and its system calls

    method TestEnabled(slot: Slot) returns (on: bool)
      requires thread.pc == Top
      modifies this
      ensures View() == Visit(old(View()), slot) && thread.pc == if on then Clear else Done
    {
      Others(slot.others);
      on := enabled;
      thread := thread.(pc := if on then Clear else Done);
    }

    method ClearTrigger(slot: Slot)
      requires thread.pc == Clear
      modifies this
      ensures View() == Visit(old(View()), slot) && thread.pc == Mode
    {
      Others(slot.others);
      triggered := false;
      thread := thread.(pc := Mode, clearedAt := calls.triggers);
    }

    method TestMode(slot: Slot) returns (polls: bool)
      requires thread.pc == Mode
      modifies this
      ensures View() == Visit(old(View()), slot) && thread.pc == if polls then PollEnabled else Wait
    {
      Others(slot.others);
      polls := mustPoll;
      if polls {
        thread := thread.(pc := PollEnabled, polling := true);
      } else {
        thread := thread.(pc := Wait);
      }
    }

    /** `sem_wait`: nothing while it blocks, else whether it took from the semaphore. */
    method SemWait(slot: Slot) returns (taken: Option<bool>)
      requires thread.pc == Wait
      modifies this
      ensures View() == Visit(old(View()), slot)
      ensures thread.pc == match taken case None => Wait case Some(true) => Check(BySemaphore) case Some(false) => PollEnabled
    {
      Others(slot.others);
      if slot.fails {
        thread := thread.(pc := PollEnabled, waitFailures := thread.waitFailures + 1);
        return Some(false);
      }
      if semaphore > 0 {
        semaphore := semaphore - 1;
        thread := thread.(pc := Check(BySemaphore), waits := thread.waits + 1);
        return Some(true);
      }
      return None;
    }

    method TestPolling(slot: Slot) returns (on: bool)
      requires thread.pc == PollEnabled
      modifies this
      ensures View() == Visit(old(View()), slot) && thread.pc == if on then PollTriggered else Check(ByPolling)
    {
      Others(slot.others);
      on := enabled;
      thread := thread.(pc := if on then PollTriggered else Check(ByPolling));
    }

    method ReadTrigger(slot: Slot) returns (hit: bool)
      requires thread.pc == PollTriggered
      modifies this
      ensures View() == Visit(old(View()), slot) && thread.pc == if hit then Check(ByPolling) else Sleep
    {
      Others(slot.others);
      hit := triggered;
      thread := thread.(pc := if hit then Check(ByPolling) else Sleep);
    }

    method SleepAWhile(slot: Slot)
      requires thread.pc == Sleep
      modifies this
      ensures View() == Visit(old(View()), slot) && thread.pc == PollEnabled
    {
      Others(slot.others);
      thread := thread.(pc := PollEnabled);
    }

    method TestRaise(slot: Slot) returns (on: bool)
      requires thread.pc.Check?
      modifies this
      ensures View() == Visit(old(View()), slot) && thread.pc == if on then Raise(old(thread.pc.via)) else Unblock
    {
      Others(slot.others);
      on := enabled;
      if on {
        thread := thread.(pc := Raise(thread.pc.via));
      } else if thread.pc.via == BySemaphore {
        thread := thread.(pc := Unblock, dropped := thread.dropped + 1);
      } else {
        thread := thread.(pc := Unblock);
      }
    }

    method RaiseSignal(slot: Slot)
      requires thread.pc.Raise?
      modifies this
      ensures View() == Visit(old(View()), slot) && thread.pc == Unblock
    {
      Others(slot.others);
      if thread.pc.via == BySemaphore {
        thread := thread.(pc := Unblock, bySemaphore := thread.bySemaphore + 1);
      } else {
        thread := thread.(pc := Unblock, byPolling := thread.byPolling + 1);
      }
    }

    method UnblockSignal(slot: Slot)
      requires thread.pc == Unblock
      modifies this
      ensures View() == Visit(old(View()), slot) && thread.pc == Top
    {
      Others(slot.others);
      thread := thread.(pc := Top);
    }

    /** The wait of the monitor's round: by the semaphore, or by polling if that is the mode or the wait fails. */
    method AwaitTrigger(schedule: seq<Slot>, from: nat) returns (k: nat)
      requires from <= |schedule| && thread.pc == Mode
      modifies this
      ensures from <= k <= |schedule| && View() == Simulate(old(View()), schedule[from..k])
      ensures k == |schedule| || thread.pc.Check?
    {
      hide Visit, Simulate;
      k := from;
      SimulateNone(View(), schedule, from);
      if k == |schedule| { return; }
      SimulateNext(old(View()), schedule, from, k);
      var polls := TestMode(schedule[k]);
      k := k + 1;
      if !polls {
        var taken: Option<bool> := None;
        while taken.None?
          invariant from <= k <= |schedule| && View() == Simulate(old(View()), schedule[from..k])
          invariant thread.pc == match taken case None => Wait case Some(true) => Check(BySemaphore) case Some(false) => PollEnabled
          decreases |schedule| - k, taken.None?
        {
          if k == |schedule| { return; }
          SimulateNext(old(View()), schedule, from, k);
          taken := SemWait(schedule[k]);
          k := k + 1;
        }
        polls := taken == Some(false);
      }
      if polls {
        k := PollTrigger(schedule, k, from, old(View()));
      }
    }

    /** The inner loop: until disabled or triggered. */
    method PollTrigger(schedule: seq<Slot>, start: nat, ghost from: nat, ghost origin: State) returns (k: nat)
      requires from <= start <= |schedule| && thread.pc == PollEnabled && View() == Simulate(origin, schedule[from..start])
      modifies this
      ensures start <= k <= |schedule| && View() == Simulate(origin, schedule[from..k])
      ensures k == |schedule| || thread.pc.Check?
    {
      hide Visit, Simulate;
      k := start;
      var polling := true;
      while polling
        invariant start <= k <= |schedule| && View() == Simulate(origin, schedule[from..k])
        invariant thread.pc == if polling then PollEnabled else Check(ByPolling)
        decreases |schedule| - k, polling
      {
        if k == |schedule| { return; }
        SimulateNext(origin, schedule, from, k);
        polling := TestPolling(schedule[k]);
        k := k + 1;
        if polling {
          if k == |schedule| { return; }
          SimulateNext(origin, schedule, from, k);
          var hit := ReadTrigger(schedule[k]);
          k := k + 1;
          polling := !hit;
          if polling {
            if k == |schedule| { return; }
            SimulateNext(origin, schedule, from, k);
            SleepAWhile(schedule[k]);
            k := k + 1;
          }
        }
      }
    }

    /** The end of the monitor's round, and the test for the next one. */
    method Forward(schedule: seq<Slot>, from: nat) returns (k: nat, on: bool)
      requires from <= |schedule| && thread.pc.Check?
      modifies this
      ensures from <= k <= |schedule| && View() == Simulate(old(View()), schedule[from..k])
      ensures k == |schedule| || thread.pc == if on then Clear else Done
      ensures on ==> thread.pc == Clear
    {
      hide Visit, Simulate;
      k, on := from, false;
      SimulateNone(View(), schedule, from);
      if k == |schedule| { return; }
      SimulateNext(old(View()), schedule, from, k);
      var raises := TestRaise(schedule[k]);
      k := k + 1;
      if raises {
        if k == |schedule| { return; }
        SimulateNext(old(View()), schedule, from, k);
        RaiseSignal(schedule[k]);
        k := k + 1;
      }
      if k == |schedule| { return; }
      SimulateNext(old(View()), schedule, from, k);
      UnblockSignal(schedule[k]);
      k := k + 1;
      if k == |schedule| { return; }
      SimulateNext(old(View()), schedule, from, k);
      on := TestEnabled(schedule[k]);
      k := k + 1;
    }

    /**
     * The thread, as far as a schedule of the other threads' actions goes: at each of its accesses it is where the
     * step relation says, and it comes to an end exactly when it has read that it is disabled.
     */
    method MonitorThread(schedule: seq<Slot>) returns (k: nat)
      requires thread.pc == Top
      modifies this
      ensures k <= |schedule| && View() == Simulate(old(View()), schedule[..k])
      ensures k == |schedule| || thread.pc == Done
    {
      hide Visit, Simulate;
      k := 0;
      SimulateNone(View(), schedule, 0);
      if k == |schedule| { return; }
      SimulateNext(old(View()), schedule, 0, 0);
      var on := TestEnabled(schedule[0]);
      k := 1;
      while on
        invariant k <= |schedule| && View() == Simulate(old(View()), schedule[0..k])
        invariant k == |schedule| || thread.pc == if on then Clear else Done
        invariant on ==> thread.pc == Clear
        decreases |schedule| - k, on
      {
        if k == |schedule| { return; }
        SimulateNext(old(View()), schedule, 0, k);
        ClearTrigger(schedule[k]);
        k := k + 1;
        var next := AwaitTrigger(schedule, k);
        SimulateJoin(old(View()), schedule, 0, k, next);
        k := next;
        if k == |schedule| { return; }
        next, on := Forward(schedule, k);
        SimulateJoin(old(View()), schedule, 0, k, next);
        k := next;
      }
    }
  }

  // The thread's code and the step relation

  /** What the other threads do before one access of the monitor's, and whether a wait fails there. */
  datatype Slot = Slot(others: seq<Action>, fails: bool)

  lemma OthersLeaveThread(s: State, a: Action)
    requires Enabled(s, a) && !IsMonitors(a)
    ensures Next(s, a).thread == s.thread
  {
  }

  /** Actions of the other threads, those that are possible. */
  function Perform(s: State, actions: seq<Action>): State
    decreases |actions|
  {
    if |actions| == 0 then s
    else if !IsMonitors(actions[0]) && Enabled(s, actions[0]) then Perform(Next(s, actions[0]), actions[1..])
    else Perform(s, actions[1..])
  }

  function Visit(s: State, slot: Slot): State {
    var t := Perform(s, slot.others);
    if t.thread.pc == Wait && slot.fails then Next(t, WaitFails)
    else if Enabled(t, Monitor) then Next(t, Monitor)
    else t
  }

  function Simulate(s: State, schedule: seq<Slot>): State {
    if |schedule| == 0 then s else Visit(Simulate(s, schedule[..|schedule| - 1]), schedule[|schedule| - 1])
  }

  lemma SimulateNone(s: State, schedule: seq<Slot>, k: nat)
    requires k <= |schedule|
    ensures Simulate(s, schedule[k..k]) == s
  {
  }

  lemma SimulateNext(s: State, schedule: seq<Slot>, from: nat, k: nat)
    requires from <= k < |schedule|
    ensures Simulate(s, schedule[from..k + 1]) == Visit(Simulate(s, schedule[from..k]), schedule[k])
  {
    hide Visit;
    assert schedule[from..k + 1][..k - from] == schedule[from..k];
  }

  lemma {:induction false} SimulateJoin(s: State, schedule: seq<Slot>, from: nat, mid: nat, k: nat)
    requires from <= mid <= k <= |schedule|
    ensures Simulate(Simulate(s, schedule[from..mid]), schedule[mid..k]) == Simulate(s, schedule[from..k])
    decreases k
  {
    hide Visit;
    if mid < k {
      SimulateJoin(s, schedule, from, mid, k - 1);
      SimulateNext(Simulate(s, schedule[from..mid]), schedule, mid, k - 1);
      SimulateNext(s, schedule, from, k - 1);
    }
  }

  lemma {:induction false} PerformRuns(s: State, actions: seq<Action>) returns (run: seq<Action>)
    ensures Run(s, run) == Some(Perform(s, actions)) && forall a :: a in run ==> !IsMonitors(a)
    decreases |actions|
  {
    hide Enabled, Next;
    if |actions| == 0 {
      run := [];
    } else if !IsMonitors(actions[0]) && Enabled(s, actions[0]) {
      var rest := PerformRuns(Next(s, actions[0]), actions[1..]);
      run := [actions[0]] + rest;
      assert run[1..] == rest;
    } else {
      run := PerformRuns(s, actions[1..]);
    }
  }

  lemma {:induction false} RunJoin(s: State, first: seq<Action>, second: seq<Action>)
    requires Run(s, first).Some?
    ensures Run(s, first + second) == Run(Run(s, first).value, second)
    decreases |first|
  {
    hide Enabled, Next;
    if |first| > 0 {
      assert (first + second)[1..] == first[1..] + second;
      RunJoin(Next(s, first[0]), first[1..], second);
    } else {
      assert first + second == second;
    }
  }

  /** Whatever the schedule, what the thread's code does is a run of the step relation. */
  lemma {:induction false} SimulateRuns(s: State, schedule: seq<Slot>) returns (run: seq<Action>)
    ensures Run(s, run) == Some(Simulate(s, schedule))
  {
    if |schedule| == 0 {
      run := [];
    } else {
      var last := schedule[|schedule| - 1];
      var before := SimulateRuns(s, schedule[..|schedule| - 1]);
      var u := Simulate(s, schedule[..|schedule| - 1]);
      var others := PerformRuns(u, last.others);
      var t := Perform(u, last.others);
      RunJoin(s, before, others);
      run := before + others;
      hide Next, Perform;
      if t.thread.pc == Wait && last.fails {
        RunThen(s, run, WaitFails);
        run := run + [WaitFails];
      } else if Enabled(t, Monitor) {
        RunThen(s, run, Monitor);
        run := run + [Monitor];
      }
    }
  }

  lemma {:induction false} RunLast(s: State, actions: seq<Action>)
    requires |actions| > 0 && Run(s, actions).Some?
    ensures var init, last := actions[..|actions| - 1], actions[|actions| - 1];
      && Run(s, init).Some? && Enabled(Run(s, init).value, last)
      && Run(s, actions) == Some(Next(Run(s, init).value, last))
    decreases |actions|
  {
    hide Enabled, Next;
    var init := actions[..|actions| - 1];
    if |actions| > 1 {
      assert init[1..] == actions[1..][..|actions| - 2] && init[0] == actions[0];
      RunLast(Next(s, actions[0]), actions[1..]);
    } else {
      assert actions[1..] == [];
      assert Run(Next(s, actions[0]), []) == Some(Next(s, actions[0]));
    }
  }

  lemma {:induction false} PerformRun(s: State, run: seq<Action>)
    requires Run(s, run).Some? && forall a :: a in run ==> !IsMonitors(a)
    ensures Perform(s, run) == Run(s, run).value
    decreases |run|
  {
    hide Enabled, Next;
    if |run| > 0 { PerformRun(Next(s, run[0]), run[1..]); }
  }

  /** And every run of the step relation is one of the code's, up to what the others do after its last step. */
  lemma {:induction false} RunIsScheduled(s: State, actions: seq<Action>) returns (schedule: seq<Slot>, rest: seq<Action>)
    requires Run(s, actions).Some?
    ensures forall a :: a in rest ==> !IsMonitors(a)
    ensures Run(Simulate(s, schedule), rest) == Run(s, actions)
    decreases |actions|
  {
    if |actions| == 0 {
      schedule, rest := [], [];
    } else {
      RunLast(s, actions);
      var last := actions[|actions| - 1];
      schedule, rest := RunIsScheduled(s, actions[..|actions| - 1]);
      var u := Simulate(s, schedule);
      if IsMonitors(last) {
        PerformRun(u, rest);
        var slot := Slot(rest, last == WaitFails);
        assert (schedule + [slot])[..|schedule|] == schedule;
        schedule, rest := schedule + [slot], [];
        hide Next, Enabled;
        assert Run(Simulate(s, schedule), []) == Some(Simulate(s, schedule));
      } else {
        hide Next, Enabled;
        RunThen(u, rest, last);
        rest := rest + [last];
      }
    }
  }

  lemma RunOf1(s: State, a: Action)
    requires Enabled(s, a)
    ensures Run(s, [a]) == Some(Next(s, a))
  {
    hide Enabled, Next;
    assert Run(Next(s, a), []) == Some(Next(s, a));
  }
}
