/**
 * The looper watchdog: a monitor thread posts a runner to the main thread, waits for it to pass through, and takes
 * its absence for an ANR. The two share the runner's lock, its wait set, its flag and the main handler's queue.
 */
module LooperMonitor {
  import opened Json

  datatype Owner = Free | ByMonitor | ByMain

  /** The runner: its lock, its flag, and the monitor's place in its wait set. */
  datatype Runner = Runner(owner: Owner, signaled: bool, waiting: bool, notified: bool)

  datatype MonitorPc =
    | Top | Acquire | Remove | PostRunner | BeginWait | Waiting | Reacquire(interrupted: bool) | Sample
    | Reset(leave: bool) | Release(leave: bool) | Report | Sleep | Leave | Done

  datatype MainPc = Idle | Entering | Signal | Notify | Exit

  /** What matters of the past, oldest first. */
  datatype Event = Ran | WasReset | Posted | Verdict(isAnr: bool)

  datatype State = State(runner: Runner, monitor: MonitorPc, isAnr: bool, main: MainPc, queued: nat, log: seq<Event>)

  const START: State := State(Runner(Free, false, false, false), Top, false, Idle, 0, [])

  datatype Action =
    | Loop(interrupted: bool) | Lock | RemoveCallbacks | PostIt(ok: bool) | StartWait
    | WakeNotified | WakeUnnotified | WakeInterrupted | LockAgain
    | InAnrState(notResponding: bool) | ResetRunner | Unlock | Reported | Slept(interrupted: bool) | Clean
    | Dequeue | MainLock | MainSignal | MainNotify | MainUnlock

  predicate Enabled(s: State, a: Action) {
    match a
    case Loop(_) => s.monitor == Top
    case Lock => s.monitor == Acquire && s.runner.owner == Free
    case RemoveCallbacks => s.monitor == Remove
    case PostIt(_) => s.monitor == PostRunner
    case StartWait => s.monitor == BeginWait
    case WakeNotified => s.monitor == Waiting && s.runner.notified
    case WakeUnnotified => s.monitor == Waiting
    case WakeInterrupted => s.monitor == Waiting
    case LockAgain => s.monitor.Reacquire? && s.runner.owner == Free
    case InAnrState(_) => s.monitor == Sample
    case ResetRunner => s.monitor.Reset?
    case Unlock => s.monitor.Release?
    case Reported => s.monitor == Report
    case Slept(_) => s.monitor == Sleep
    case Clean => s.monitor == Leave
    case Dequeue => s.main == Idle && s.queued > 0
    case MainLock => s.main == Entering && s.runner.owner == Free
    case MainSignal => s.main == Signal
    case MainNotify => s.main == Notify
    case MainUnlock => s.main == Exit
  }

  /** `wait` gives the lock up; a timeout, a spurious wake-up and an interrupt need no notification to end it. */
  function MonitorNext(s: State, a: Action): State
    requires Enabled(s, a)
  {
    var r := s.runner;
    match a
    case Loop(interrupted) => s.(monitor := if interrupted then Leave else Acquire)
    case Lock => s.(runner := r.(owner := ByMonitor), isAnr := false, monitor := Remove)
    case RemoveCallbacks => s.(queued := 0, monitor := PostRunner)
    case PostIt(true) => s.(queued := s.queued + 1, log := s.log + [Posted], monitor := BeginWait)
    case PostIt(false) => s.(monitor := Reset(true))
    case StartWait => s.(runner := r.(owner := Free, waiting := true, notified := false), monitor := Waiting)
    case WakeNotified => s.(runner := r.(waiting := false, notified := false), monitor := Reacquire(false))
    case WakeUnnotified => s.(runner := r.(waiting := false), monitor := Reacquire(false))
    case WakeInterrupted => s.(runner := r.(waiting := false), monitor := Reacquire(true))
    case LockAgain => s.(runner := r.(owner := ByMonitor), monitor := if s.monitor.interrupted then Reset(true) else Sample)
    case InAnrState(notResponding) =>
      var verdict := !r.signaled && notResponding;
      s.(isAnr := verdict, log := s.log + [Verdict(verdict)], monitor := Reset(false))
    case ResetRunner =>
      s.(runner := r.(signaled := false), log := s.log + [WasReset], monitor := Release(s.monitor.leave))
    case Unlock =>
      s.(runner := r.(owner := Free), monitor := if s.monitor.leave then Leave else if s.isAnr then Report else Sleep)
    case Reported => s.(monitor := Top)
    case Slept(interrupted) => s.(monitor := if interrupted then Leave else Top)
    case Clean => s.(queued := 0, monitor := Done)
    case _ => s
  }

  function MainNext(s: State, a: Action): State
    requires Enabled(s, a)
  {
    var r := s.runner;
    match a
    case Dequeue => s.(queued := s.queued - 1, main := Entering)
    case MainLock => s.(runner := r.(owner := ByMain), main := Signal)
    case MainSignal => s.(runner := r.(signaled := true), log := s.log + [Ran], main := Notify)
    case MainNotify => s.(runner := r.(notified := r.notified || r.waiting), main := Exit)
    case MainUnlock => s.(runner := r.(owner := Free), main := Idle)
    case _ => s
  }

  predicate IsMains(a: Action) { a == Dequeue || a == MainLock || a == MainSignal || a == MainNotify || a == MainUnlock }

  function Next(s: State, a: Action): State
    requires Enabled(s, a)
  {
    if IsMains(a) then MainNext(s, a) else MonitorNext(s, a)
  }

  function Run(s: State, actions: seq<Action>): Option<State>
    decreases |actions|
  {
    if |actions| == 0 then Some(s)
    else if !Enabled(s, actions[0]) then None
    else Run(Next(s, actions[0]), actions[1..])
  }

  // The invariant

  predicate MonitorHolds(pc: MonitorPc) {
    pc == Remove || pc == PostRunner || pc == BeginWait || pc == Sample || pc.Reset? || pc.Release?
  }

  predicate MainHolds(pc: MainPc) { pc == Signal || pc == Notify || pc == Exit }

  /** The lock is with whoever is inside its synchronized part. */
  predicate LockAccount(s: State) {
    && (s.runner.owner == ByMonitor <==> MonitorHolds(s.monitor))
    && (s.runner.owner == ByMain <==> MainHolds(s.main))
  }

  /** Whether a run has completed since the last reset. */
  predicate RanSinceReset(log: seq<Event>) {
    |log| > 0 && log[|log| - 1] != WasReset && (log[|log| - 1] == Ran || RanSinceReset(log[..|log| - 1]))
  }

  predicate FlagAccount(s: State) {
    && (s.runner.signaled <==> RanSinceReset(s.log))
    && (s.monitor.Release? ==> !s.runner.signaled)
  }

  predicate QueueAccount(s: State) {
    s.queued <= 1 && (s.monitor == PostRunner || s.monitor == Done ==> s.queued == 0)
  }

  predicate WaitAccount(s: State) { s.runner.waiting <==> s.monitor == Waiting }

  /** No verdict of an ANR comes after a run without a reset between them. */
  predicate VerdictsSound(log: seq<Event>) {
    forall k :: 0 <= k < |log| && log[k] == Verdict(true) ==> !RanSinceReset(log[..k])
  }

  predicate Inv(s: State) {
    LockAccount(s) && FlagAccount(s) && QueueAccount(s) && WaitAccount(s) && VerdictsSound(s.log)
  }

  lemma LogAppend(log: seq<Event>, e: Event)
    requires VerdictsSound(log) && (e == Verdict(true) ==> !RanSinceReset(log))
    ensures VerdictsSound(log + [e])
    ensures RanSinceReset(log + [e]) <==> e != WasReset && (e == Ran || RanSinceReset(log))
  {
    var log' := log + [e];
    assert log'[..|log|] == log;
    forall k | 0 <= k < |log'| && log'[k] == Verdict(true) ensures !RanSinceReset(log'[..k]) {
      if k < |log| { assert log'[..k] == log[..k]; }
    }
  }

  lemma LockKept(s: State, a: Action)
    requires LockAccount(s) && Enabled(s, a)
    ensures LockAccount(Next(s, a))
  {
    if IsMains(a) { hide MonitorNext; } else { hide MainNext; }
  }

  lemma WaitKept(s: State, a: Action)
    requires WaitAccount(s) && Enabled(s, a)
    ensures WaitAccount(Next(s, a))
  {
  }

  lemma QueueKept(s: State, a: Action)
    requires QueueAccount(s) && Enabled(s, a)
    ensures QueueAccount(Next(s, a))
  {
  }

  lemma LogKept(s: State, a: Action)
    requires FlagAccount(s) && VerdictsSound(s.log) && Enabled(s, a)
    requires LockAccount(s)
    ensures FlagAccount(Next(s, a)) && VerdictsSound(Next(s, a).log)
  {
    hide RanSinceReset, VerdictsSound;
    match a {
      case PostIt(true) => LogAppend(s.log, Posted);
      case InAnrState(notResponding) => LogAppend(s.log, Verdict(!s.runner.signaled && notResponding));
      case ResetRunner => LogAppend(s.log, WasReset);
      case MainSignal => LogAppend(s.log, Ran);
      case _ =>
    }
  }

  lemma Keeps(s: State, a: Action)
    requires Inv(s) && Enabled(s, a)
    ensures Inv(Next(s, a))
  {
    hide LockAccount, WaitAccount, QueueAccount, FlagAccount, VerdictsSound, Enabled, Next;
    LockKept(s, a);
    WaitKept(s, a);
    QueueKept(s, a);
    LogKept(s, a);
  }

  lemma {:induction false} RunKeeps(s: State, actions: seq<Action>)
    requires Inv(s) && Run(s, actions).Some?
    ensures Inv(Run(s, actions).value)
    decreases |actions|
  {
    hide Inv, Enabled, Next;
    if |actions| > 0 {
      Keeps(s, actions[0]);
      RunKeeps(Next(s, actions[0]), actions[1..]);
    }
  }

  // Safety over every run

  /**
   * In every interleaving: at most one runner is queued, and none once the monitor has left; the flag is up only
   * while a run has completed since the last reset; an ANR verdict is never given after such a run; and the
   * monitor is never in the lock while it waits, reports or sleeps.
   */
  lemma LooperSafety(actions: seq<Action>)
    requires Run(START, actions).Some?
    ensures var s := Run(START, actions).value;
      && s.queued <= 1 && (s.monitor == Done ==> s.queued == 0)
      && (s.monitor == Waiting || s.monitor == Report || s.monitor == Sleep ==> s.runner.owner != ByMonitor)
      && (s.runner.signaled <==> RanSinceReset(s.log))
      && (forall i, k :: 0 <= i < k < |s.log| && s.log[i] == Ran && s.log[k] == Verdict(true) ==>
            exists j :: i < j < k && s.log[j] == WasReset)
  {
    hide Run, Enabled, Next;
    StartHolds();
    RunKeeps(START, actions);
    var s := Run(START, actions).value;
    forall i, k | 0 <= i < k < |s.log| && s.log[i] == Ran && s.log[k] == Verdict(true)
      ensures exists j :: i < j < k && s.log[j] == WasReset
    {
      ResetBetween(s.log, i, k);
    }
  }

  lemma StartHolds()
    ensures Inv(START)
  {
  }

  lemma {:induction false} ResetBetween(log: seq<Event>, i: nat, k: nat)
    requires i < k <= |log| && log[i] == Ran && !RanSinceReset(log[..k])
    ensures exists j :: i < j < k && log[j] == WasReset
    decreases k
  {
    assert log[..k][..k - 1] == log[..k - 1];
    if log[k - 1] != WasReset { ResetBetween(log, i, k - 1); }
  }

  /** The verdict is an ANR exactly when the system says so and no run has completed since the reset. */
  lemma VerdictExact(actions: seq<Action>, notResponding: bool)
    requires Run(START, actions).Some? && Enabled(Run(START, actions).value, InAnrState(notResponding))
    ensures var s := Run(START, actions).value;
      Next(s, InAnrState(notResponding)).isAnr <==> notResponding && !RanSinceReset(s.log)
  {
    hide Run, RanSinceReset, VerdictsSound;
    StartHolds();
    RunKeeps(START, actions);
  }

  // What becomes of a verdict

  /** The `k`-th event is `e`, and only runs and resets come after it. */
  predicate EndsAt(log: seq<Event>, e: Event, k: nat) {
    k < |log| && log[k] == e && forall j :: k < j < |log| ==> log[j] == Ran || log[j] == WasReset
  }

  /** Of the posts and verdicts in the log, `e` is the last one. */
  ghost predicate EndsWith(log: seq<Event>, e: Event) { exists k: nat :: EndsAt(log, e, k) }

  lemma EndsAppend(log: seq<Event>, e: Event)
    ensures EndsWith(log + [e], e)
    ensures e == Ran || e == WasReset ==> forall d :: EndsWith(log, d) ==> EndsWith(log + [e], d)
  {
    assert EndsAt(log + [e], e, |log|);
    if e == Ran || e == WasReset {
      forall d | EndsWith(log, d) ensures EndsWith(log + [e], d) {
        var k: nat :| EndsAt(log, d, k);
        assert EndsAt(log + [e], d, k);
      }
    }
  }

  lemma OneEnd(log: seq<Event>, d: Event, e: Event)
    requires EndsWith(log, d) && EndsWith(log, e) && d != Ran && d != WasReset && e != Ran && e != WasReset
    ensures d == e
  {
    var i: nat :| EndsAt(log, d, i);
    var k: nat :| EndsAt(log, e, k);
  }

  /** The round has its verdict and has not ended with it. */
  predicate Decided(pc: MonitorPc) { pc == Reset(false) || pc == Release(false) || pc == Report || pc == Sleep }

  /** A round has no verdict until it is sampled, and one from then on, which is what `isAnr` says. */
  ghost predicate RoundAccount(s: State) {
    && (InRound(s.monitor) ==> EndsWith(s.log, Posted))
    && (Decided(s.monitor) ==> EndsWith(s.log, Verdict(s.isAnr)))
    && (s.monitor == Report ==> s.isAnr) && (s.monitor == Sleep ==> !s.isAnr)
  }

  /** The main thread's steps do not move the monitor. */
  lemma MonitorStays(s: State, a: Action)
    requires Enabled(s, a) && IsMains(a)
    ensures var t := Next(s, a);
      t.monitor == s.monitor && t.isAnr == s.isAnr && t.log == if a == MainSignal then s.log + [Ran] else s.log
  {
    hide MonitorNext;
  }

  lemma UnlockStep(s: State)
    requires Enabled(s, Unlock)
    ensures Next(s, Unlock).log == s.log && Next(s, Unlock).isAnr == s.isAnr && s.monitor == Release(s.monitor.leave)
    ensures Next(s, Unlock).monitor == if s.monitor.leave then Leave else if s.isAnr then Report else Sleep
  {
  }

  lemma RoundKept(s: State, a: Action)
    requires RoundAccount(s) && Enabled(s, a)
    ensures RoundAccount(Next(s, a))
  {
    hide EndsWith;
    if IsMains(a) {
      MonitorStays(s, a);
      hide Next, Enabled;
      EndsAppend(s.log, Ran);
    } else {
      hide MainNext;
      match a {
        case PostIt(true) => EndsAppend(s.log, Posted);
        case InAnrState(notResponding) => EndsAppend(s.log, Verdict(!s.runner.signaled && notResponding));
        case ResetRunner => EndsAppend(s.log, WasReset);
        case _ =>
      }
    }
  }

  lemma {:induction false} RoundRun(s: State, actions: seq<Action>)
    requires RoundAccount(s) && Run(s, actions).Some?
    ensures RoundAccount(Run(s, actions).value)
    decreases |actions|
  {
    hide RoundAccount, Enabled, Next;
    if |actions| > 0 {
      RoundKept(s, actions[0]);
      RoundRun(Next(s, actions[0]), actions[1..]);
    }
  }

  lemma RoundStart()
    ensures RoundAccount(START)
  {
  }

  /**
   * In every run the log alone says what the monitor does outside the lock: it reports when the last verdict, given
   * since the last post, is an ANR, and sleeps when it is none.
   */
  lemma VerdictObeyed(actions: seq<Action>)
    requires Run(START, actions).Some?
    ensures var s := Run(START, actions).value;
      && (s.monitor == Report ==> EndsWith(s.log, Verdict(true)))
      && (s.monitor == Sleep ==> EndsWith(s.log, Verdict(false)))
  {
    RoundStart();
    RoundRun(START, actions);
    hide Run, EndsWith;
  }

  /** A round that does not leave comes out of the lock to report exactly when it was judged an ANR, and else to sleep. */
  lemma VerdictDecides(actions: seq<Action>)
    requires Run(START, actions).Some? && Enabled(Run(START, actions).value, Unlock)
    ensures var s, t := Run(START, actions).value, Next(Run(START, actions).value, Unlock);
      && (s.monitor.leave ==> t.monitor == Leave)
      && (!s.monitor.leave ==>
            && (t.monitor == Report <==> EndsWith(s.log, Verdict(true)))
            && (t.monitor == Sleep <==> EndsWith(s.log, Verdict(false))))
  {
    RoundStart();
    RoundRun(START, actions);
    var s := Run(START, actions).value;
    UnlockStep(s);
    hide Run, EndsWith, Next, Enabled;
    if EndsWith(s.log, Verdict(true)) && EndsWith(s.log, Verdict(false)) { OneEnd(s.log, Verdict(true), Verdict(false)); }
  }

  function Verdicts(log: seq<Event>, isAnr: bool): nat {
    if |log| == 0 then 0
    else Verdicts(log[..|log| - 1], isAnr) + (if log[|log| - 1] == Verdict(isAnr) then 1 else 0)
  }

  /** How a round ends: an ANR is reported, another one slept on. */
  predicate Ends(a: Action, isAnr: bool) { if isAnr then a == Reported else a.Slept? }

  function Ended(actions: seq<Action>, isAnr: bool): nat {
    if |actions| == 0 then 0 else (if Ends(actions[0], isAnr) then 1 else 0) + Ended(actions[1..], isAnr)
  }

  /** A verdict whose round has not ended. */
  function Open(s: State, isAnr: bool): nat { if Decided(s.monitor) && s.isAnr == isAnr then 1 else 0 }

  lemma VerdictsAppend(log: seq<Event>, e: Event, isAnr: bool)
    ensures Verdicts(log + [e], isAnr) == Verdicts(log, isAnr) + (if e == Verdict(isAnr) then 1 else 0)
  {
    assert (log + [e])[..|log|] == log;
  }

  lemma EndsStep(s: State, a: Action, isAnr: bool)
    requires RoundAccount(s) && Enabled(s, a)
    ensures Verdicts(Next(s, a).log, isAnr) + Open(s, isAnr)
         == Verdicts(s.log, isAnr) + (if Ends(a, isAnr) then 1 else 0) + Open(Next(s, a), isAnr)
  {
    hide EndsWith, Verdicts;
    if IsMains(a) {
      MonitorStays(s, a);
      hide Next, Enabled;
      VerdictsAppend(s.log, Ran, isAnr);
    } else {
      hide MainNext;
      match a {
        case PostIt(true) => VerdictsAppend(s.log, Posted, isAnr);
        case InAnrState(notResponding) => VerdictsAppend(s.log, Verdict(!s.runner.signaled && notResponding), isAnr);
        case ResetRunner => VerdictsAppend(s.log, WasReset, isAnr);
        case _ =>
      }
    }
  }

  lemma {:induction false} EndsRun(s: State, actions: seq<Action>, isAnr: bool)
    requires RoundAccount(s) && Run(s, actions).Some?
    ensures Verdicts(Run(s, actions).value.log, isAnr) + Open(s, isAnr)
         == Verdicts(s.log, isAnr) + Ended(actions, isAnr) + Open(Run(s, actions).value, isAnr)
    decreases |actions|
  {
    hide RoundAccount, Enabled, Next, Ends, Open, Verdicts;
    if |actions| > 0 {
      RoundKept(s, actions[0]);
      EndsStep(s, actions[0], isAnr);
      EndsRun(Next(s, actions[0]), actions[1..], isAnr);
    }
  }

  /** Over every run: the ANR verdicts are the reports made, the other verdicts the sleeps, but for one yet to come. */
  lemma VerdictsConserved(actions: seq<Action>, isAnr: bool)
    requires Run(START, actions).Some?
    ensures var s := Run(START, actions).value;
      Verdicts(s.log, isAnr) == Ended(actions, isAnr) + (if Decided(s.monitor) && s.isAnr == isAnr then 1 else 0)
  {
    RoundStart();
    EndsRun(START, actions, isAnr);
    hide Run, Ended, RoundAccount;
  }

  function Count(log: seq<Event>, e: Event): nat {
    if |log| == 0 then 0 else Count(log[..|log| - 1], e) + (if log[|log| - 1] == e then 1 else 0)
  }

  lemma CountAppend(log: seq<Event>, d: Event, e: Event)
    ensures Count(log + [d], e) == Count(log, e) + (if d == e then 1 else 0)
  {
    assert (log + [d])[..|log|] == log;
  }

  /** Every runner that ran, is on its way or is queued was posted. */
  predicate RunAccount(s: State) {
    Count(s.log, Ran) + s.queued + (if s.main == Entering || s.main == Signal then 1 else 0) <= Count(s.log, Posted)
  }

  lemma RunsKept(s: State, a: Action)
    requires RunAccount(s) && Enabled(s, a)
    ensures RunAccount(Next(s, a))
  {
    hide Count;
    match a {
      case PostIt(true) =>
        CountAppend(s.log, Posted, Ran);
        CountAppend(s.log, Posted, Posted);
        hide MainNext;
      case InAnrState(notResponding) =>
        CountAppend(s.log, Verdict(!s.runner.signaled && notResponding), Ran);
        CountAppend(s.log, Verdict(!s.runner.signaled && notResponding), Posted);
        hide MainNext;
      case ResetRunner =>
        CountAppend(s.log, WasReset, Ran);
        CountAppend(s.log, WasReset, Posted);
        hide MainNext;
      case MainSignal =>
        CountAppend(s.log, Ran, Ran);
        CountAppend(s.log, Ran, Posted);
        hide MonitorNext;
      case _ =>
    }
  }

  lemma {:induction false} RunsBounded(s: State, actions: seq<Action>)
    requires RunAccount(s) && Run(s, actions).Some?
    ensures RunAccount(Run(s, actions).value)
    decreases |actions|
  {
    hide RunAccount, Enabled, Next;
    if |actions| > 0 {
      RunsKept(s, actions[0]);
      RunsBounded(Next(s, actions[0]), actions[1..]);
    }
  }

  /** In every run the runner passes at most once for each time it was posted. */
  lemma PassedAtMostOnce(actions: seq<Action>)
    requires Run(START, actions).Some?
    ensures var s := Run(START, actions).value; Count(s.log, Ran) + s.queued <= Count(s.log, Posted)
  {
    assert RunAccount(START);
    RunsBounded(START, actions);
    hide Run, Count;
  }

  /** An interrupt, or a post that fails. */
  predicate Stops(a: Action) { a == Loop(true) || a == PostIt(false) || a == WakeInterrupted || a == Slept(true) }

  predicate IsStopped(pc: MonitorPc) { Leaving(pc) || pc == Reacquire(true) }

  lemma {:induction false} StopsRun(s: State, actions: seq<Action>)
    requires Run(s, actions).Some?
    ensures IsStopped(Run(s, actions).value.monitor) <==> IsStopped(s.monitor) || exists i :: 0 <= i < |actions| && Stops(actions[i])
    decreases |actions|
  {
    if |actions| > 0 {
      StopsStep(s, actions[0]);
      hide IsStopped, Stops, Enabled, Next;
      StopsRun(Next(s, actions[0]), actions[1..]);
      if i :| 0 <= i < |actions| && Stops(actions[i]) {
        if i > 0 { assert actions[1..][i - 1] == actions[i]; }
      }
      if i :| 0 <= i < |actions| - 1 && Stops(actions[1..][i]) { assert actions[i + 1] == actions[1..][i]; }
    }
  }

  lemma StopsStep(s: State, a: Action)
    requires Enabled(s, a)
    ensures IsStopped(Next(s, a).monitor) <==> IsStopped(s.monitor) || Stops(a)
  {
    if IsMains(a) {
      MonitorStays(s, a);
      hide Next, Enabled;
    } else {
      hide MainNext;
    }
  }

  /** In every run the monitor is on its way out, or gone, exactly when it was interrupted or a post failed. */
  lemma LeavesIff(actions: seq<Action>)
    requires Run(START, actions).Some?
    ensures IsStopped(Run(START, actions).value.monitor) <==> exists i :: 0 <= i < |actions| && Stops(actions[i])
  {
    StopsRun(START, actions);
    hide Run;
  }

  // A round in which no runner ran

  predicate PostedSinceReset(log: seq<Event>) {
    |log| > 0 && log[|log| - 1] != WasReset && (log[|log| - 1] == Posted || PostedSinceReset(log[..|log| - 1]))
  }

  predicate RanSincePost(log: seq<Event>) {
    |log| > 0 && log[|log| - 1] != Posted && (log[|log| - 1] == Ran || RanSincePost(log[..|log| - 1]))
  }

  /** What had happened when the last runner was posted. */
  function BeforeLastPost(log: seq<Event>): seq<Event> {
    if |log| == 0 then []
    else if log[|log| - 1] == Posted then log[..|log| - 1]
    else BeforeLastPost(log[..|log| - 1])
  }

  /** From its post to its verdict a round has one runner, posted since the last reset. */
  predicate PostAccount(s: State) {
    s.monitor == BeginWait || s.monitor == Waiting || s.monitor.Reacquire? || s.monitor == Sample ==> PostedSinceReset(s.log)
  }

  lemma PostAppend(log: seq<Event>, e: Event)
    ensures PostedSinceReset(log + [e]) <==> e != WasReset && (e == Posted || PostedSinceReset(log))
  {
    assert (log + [e])[..|log|] == log;
  }

  lemma PostKept(s: State, a: Action)
    requires PostAccount(s) && Enabled(s, a)
    ensures PostAccount(Next(s, a))
  {
    hide PostedSinceReset;
    match a {
      case PostIt(true) => PostAppend(s.log, Posted);
      case MainSignal => PostAppend(s.log, Ran);
      case _ =>
    }
  }

  lemma {:induction false} PostRun(s: State, actions: seq<Action>)
    requires PostAccount(s) && Run(s, actions).Some?
    ensures PostAccount(Run(s, actions).value)
    decreases |actions|
  {
    hide PostAccount, Enabled, Next;
    if |actions| > 0 {
      PostKept(s, actions[0]);
      PostRun(Next(s, actions[0]), actions[1..]);
    }
  }

  lemma {:induction false} OnlyEarlierRuns(log: seq<Event>)
    requires PostedSinceReset(log) && !RanSincePost(log)
    ensures RanSinceReset(log) <==> RanSinceReset(BeforeLastPost(log))
  {
    if log[|log| - 1] != Posted { OnlyEarlierRuns(log[..|log| - 1]); }
  }

  /**
   * In every run that comes to a verdict without any runner having run since the round's post: the verdict is an
   * ANR, if the system says so, exactly when no run had completed between the last reset and that post.
   */
  lemma MissedRunVerdict(actions: seq<Action>, notResponding: bool)
    requires Run(START, actions).Some?
    requires var s := Run(START, actions).value; Enabled(s, InAnrState(notResponding)) && !RanSincePost(s.log)
    ensures var s := Run(START, actions).value;
      Next(s, InAnrState(notResponding)).isAnr <==> notResponding && !RanSinceReset(BeforeLastPost(s.log))
  {
    VerdictExact(actions, notResponding);
    assert PostAccount(START);
    PostRun(START, actions);
    hide Run, RanSinceReset, RanSincePost, PostedSinceReset, BeforeLastPost;
    OnlyEarlierRuns(Run(START, actions).value.log);
  }

  /** A runner that completes during the wait has notified the monitor before it gives the lock back. */
  lemma NotifiedBeforeUnlock(s: State)
    requires Enabled(s, MainNotify) && s.monitor == Waiting && WaitAccount(s)
    ensures Enabled(MainNext(s, MainNotify), WakeNotified)
  {
  }

  // No deadlock

  /** Steps a holder of the lock has left before it gives it up. */
  function HoldRank(s: State): nat {
    match s.runner.owner
    case Free => 0
    case ByMain => (match s.main case Signal => 3 case Notify => 2 case _ => 1)
    case ByMonitor =>
      match s.monitor
      case Remove => 5
      case PostRunner => 4
      case Sample => 3
      case Reset(_) => 2
      case _ => 1
  }

  predicate IsOwners(s: State, a: Action) {
    match s.runner.owner case Free => false case ByMain => IsMains(a) case ByMonitor => !IsMains(a)
  }

  /**
   * Every step of the thread in the lock brings it closer to giving the lock up, and no step of the other one
   * takes it further away.
   */
  lemma HolderProgress(s: State, a: Action)
    requires Inv(s) && Enabled(s, a) && s.runner.owner != Free
    ensures IsOwners(s, a) ==> HoldRank(Next(s, a)) < HoldRank(s)
    ensures !IsOwners(s, a) ==> HoldRank(Next(s, a)) == HoldRank(s) && Next(s, a).runner.owner == s.runner.owner
  {
    hide FlagAccount, VerdictsSound, QueueAccount;
    if IsMains(a) {
      hide MonitorNext;
    } else {
      hide MainNext;
    }
  }

  /** What the thread in the lock does next. */
  function HolderAction(s: State): Action
    requires s.runner.owner != Free
  {
    if s.runner.owner == ByMain then (match s.main case Signal => MainSignal case Notify => MainNotify case _ => MainUnlock)
    else match s.monitor
      case Remove => RemoveCallbacks
      case PostRunner => PostIt(true)
      case BeginWait => StartWait
      case Sample => InAnrState(true)
      case Reset(_) => ResetRunner
      case _ => Unlock
  }

  lemma HolderMoves(s: State)
    requires Inv(s) && s.runner.owner != Free
    ensures Enabled(s, HolderAction(s)) && IsOwners(s, HolderAction(s))
  {
    hide RanSinceReset, VerdictsSound;
  }

  function HolderSteps(s: State, actions: seq<Action>): nat
    decreases |actions|
  {
    if |actions| == 0 || !Enabled(s, actions[0]) || s.runner.owner == Free then 0
    else (if IsOwners(s, actions[0]) then 1 else 0) + HolderSteps(Next(s, actions[0]), actions[1..])
  }

  /** A thread that waits for the lock waits for at most five steps of the other one. */
  lemma {:induction false} LockIsGivenUp(s: State, actions: seq<Action>)
    requires Inv(s) && Run(s, actions).Some?
    ensures HolderSteps(s, actions) <= HoldRank(s) <= 5
    decreases |actions|
  {
    if s.runner.owner != Free { RankBound(s); }
    if |actions| > 0 && s.runner.owner != Free {
      HolderProgress(s, actions[0]);
      Keeps(s, actions[0]);
      hide Inv, Enabled, Next, HoldRank, IsOwners;
      LockIsGivenUp(Next(s, actions[0]), actions[1..]);
    }
  }

  lemma RankBound(s: State)
    ensures HoldRank(s) <= 5
  {
  }

  /** Someone can always move, until the monitor has left and the main thread is out of the runner. */
  lemma NoDeadlock(s: State)
    requires Inv(s)
    ensures s.monitor != Done || s.main != Idle ==> exists a :: Enabled(s, a)
  {
    hide RanSinceReset, VerdictsSound;
    if s.runner.owner != Free {
      HolderMoves(s);
    } else if s.main == Entering {
      assert Enabled(s, MainLock);
    } else if s.monitor != Done {
      var a := match s.monitor
        case Top => Loop(false)
        case Acquire => Lock
        case Waiting => WakeUnnotified
        case Reacquire(_) => LockAgain
        case Report => Reported
        case Sleep => Slept(false)
        case _ => Clean;
      assert Enabled(s, a);
    }
  }

  // What the verdict misses

  ghost predicate Reachable(s: State) { exists actions: seq<Action> :: Run(START, actions) == Some(s) }

  lemma {:induction false} RunThen(s: State, actions: seq<Action>, a: Action)
    requires Run(s, actions).Some? && Enabled(Run(s, actions).value, a)
    ensures Run(s, actions + [a]) == Some(Next(Run(s, actions).value, a))
    decreases |actions|
  {
    hide Enabled, Next;
    if |actions| > 0 {
      assert (actions + [a])[1..] == actions[1..] + [a];
      RunThen(Next(s, actions[0]), actions[1..], a);
    } else {
      assert actions + [a] == [a];
      assert Run(Next(s, a), []) == Some(Next(s, a));
    }
  }

  lemma Reaches(s: State, a: Action) returns (t: State)
    requires Reachable(s) && Enabled(s, a)
    ensures t == Next(s, a) && Reachable(t)
  {
    hide Enabled, Next;
    var actions: seq<Action> :| Run(START, actions) == Some(s);
    RunThen(START, actions, a);
    t := Next(s, a);
  }

  lemma Begins()
    ensures Reachable(START)
  {
    assert Run(START, []) == Some(START);
  }

  lemma Posts(s: State) returns (t: State)
    requires Reachable(s) && s.monitor == Top && s.runner.owner == Free
    ensures Reachable(t) && t.runner == s.runner.(owner := ByMonitor) && t.monitor == BeginWait && !t.isAnr
    ensures t.main == s.main && t.queued == 1 && t.log == s.log + [Posted]
  {
    hide Reachable;
    t := Reaches(s, Loop(false));
    t := Reaches(t, Lock);
    t := Reaches(t, RemoveCallbacks);
    t := Reaches(t, PostIt(true));
  }

  /** The monitor posts, waits, and wakes up without having been notified. */
  lemma WaitsInVain(s: State) returns (t: State)
    requires Reachable(s) && s.monitor == Top && s.runner.owner == Free
    ensures Reachable(t)
    ensures t.runner == Runner(ByMonitor, s.runner.signaled, false, false) && t.monitor == Sample && !t.isAnr
    ensures t.main == s.main && t.queued == 1 && t.log == s.log + [Posted]
  {
    hide Reachable;
    t := Posts(s);
    t := Reaches(t, StartWait);
    t := Reaches(t, WakeUnnotified);
    t := Reaches(t, LockAgain);
  }

  lemma SleepsAgain(s: State) returns (t: State)
    requires Reachable(s) && s.monitor == Sample
    ensures Reachable(t) && t.monitor == Top && t.runner == s.runner.(owner := Free, signaled := false)
    ensures t.main == s.main && t.queued == s.queued && |t.log| > 0 && t.log[|t.log| - 1] == WasReset
  {
    hide Reachable;
    t := Reaches(s, InAnrState(false));
    t := Reaches(t, ResetRunner);
    t := Reaches(t, Unlock);
    t := Reaches(t, Slept(false));
  }

  lemma Passes(s: State) returns (t: State)
    requires Reachable(s) && s.main == Idle && s.queued == 1 && s.runner.owner == Free
    ensures Reachable(t) && t.runner.owner == Free && t.runner.signaled
    ensures t.monitor == s.monitor && t.main == Idle && t.log == s.log + [Ran]
  {
    hide Reachable;
    t := Reaches(s, Dequeue);
    t := Reaches(t, MainLock);
    t := Reaches(t, MainSignal);
    t := Reaches(t, MainNotify);
    t := Reaches(t, MainUnlock);
  }

  /**
   * A runner left over from one round may pass between the reset and the next post. The next round then gives no
   * ANR verdict, although its own runner never ran and the system says the application does not respond.
   */
  lemma StaleRunMasksAnr() returns (s: State)
    ensures Reachable(s) && Enabled(s, InAnrState(true))
    ensures s.queued == 1 && !RanSincePost(s.log) && RanSinceReset(BeforeLastPost(s.log))
    ensures !Next(s, InAnrState(true)).isAnr
  {
    Begins();
    hide Reachable;
    s := WaitsInVain(START);
    s := SleepsAgain(s);
    s := Passes(s);
    var log := s.log;
    s := WaitsInVain(s);
    assert s.log[..|log|] == log;
  }

  // A round whose own runner did not run

  /** Up to the round's verdict. */
  predicate NoVerdict(actions: seq<Action>) { forall i :: 0 <= i < |actions| ==> !actions[i].InAnrState? }

  /** At its verdict, with its own runner still queued. */
  predicate Unrun(s: State) { s.monitor == Sample && s.queued == 1 }

  /** However the round goes on: if its own runner has not run by the verdict, an ANR is found. */
  ghost predicate AlwaysAnr(p: State) {
    forall actions: seq<Action> :: NoVerdict(actions) && Run(p, actions).Some? && Unrun(Run(p, actions).value) ==>
      Next(Run(p, actions).value, InAnrState(true)).isAnr
  }

  predicate InRound(pc: MonitorPc) { pc == BeginWait || pc == Waiting || pc.Reacquire? || pc == Sample }

  predicate Leaving(pc: MonitorPc) { pc == Reset(true) || pc == Release(true) || pc == Leave || pc == Done }

  /** While its runner is queued nobody else's has touched the flag. */
  predicate Untouched(s: State) {
    && (InRound(s.monitor) || Leaving(s.monitor))
    && (InRound(s.monitor) ==> s.queued <= 1 && (s.queued == 1 ==> !s.runner.signaled && s.main == Idle))
  }

  lemma UntouchedKept(s: State, a: Action)
    requires Untouched(s) && Enabled(s, a) && !a.InAnrState?
    ensures Untouched(Next(s, a))
  {
  }

  lemma {:induction false} UntouchedRun(s: State, actions: seq<Action>)
    requires Untouched(s) && Run(s, actions).Some? && NoVerdict(actions)
    ensures Untouched(Run(s, actions).value)
    decreases |actions|
  {
    hide Untouched, Enabled, Next;
    if |actions| > 0 {
      UntouchedKept(s, actions[0]);
      UntouchedRun(Next(s, actions[0]), actions[1..]);
    }
  }

  lemma Continues(p: State, actions: seq<Action>, s: State, a: Action) returns (more: seq<Action>, t: State)
    requires NoVerdict(actions) && Run(p, actions) == Some(s) && Enabled(s, a) && !a.InAnrState?
    ensures NoVerdict(more) && Run(p, more) == Some(t) && t == Next(s, a)
  {
    hide Enabled, Next;
    RunThen(p, actions, a);
    more, t := actions + [a], Next(s, a);
  }

  lemma StartsWait(s: State)
    requires s.monitor == BeginWait
    ensures Enabled(s, StartWait)
    ensures Next(s, StartWait) == s.(runner := s.runner.(owner := Free, waiting := true, notified := false), monitor := Waiting)
  {
  }

  lemma WakesUp(s: State)
    requires s.monitor == Waiting
    ensures Enabled(s, WakeUnnotified)
    ensures Next(s, WakeUnnotified) == s.(runner := s.runner.(waiting := false), monitor := Reacquire(false))
  {
  }

  lemma LocksAgain(s: State)
    requires s.monitor == Reacquire(false) && s.runner.owner == Free
    ensures Enabled(s, LockAgain)
    ensures Next(s, LockAgain) == s.(runner := s.runner.(owner := ByMonitor), monitor := Sample)
  {
  }

  /** The wait ends unnotified; nothing else happens. */
  lemma WaitsOnly(p: State) returns (actions: seq<Action>)
    requires p.monitor == BeginWait
    ensures NoVerdict(actions) && Run(p, actions).Some?
    ensures var s := Run(p, actions).value; s.monitor == Sample && s.queued == p.queued && s.runner.signaled == p.runner.signaled
  {
    var s := p;
    actions := [];
    assert Run(p, []) == Some(p);
    hide Run, Enabled, Next, NoVerdict;
    NothingYet();
    StartsWait(s);
    actions, s := Continues(p, actions, s, StartWait);
    WakesUp(s);
    actions, s := Continues(p, actions, s, WakeUnnotified);
    LocksAgain(s);
    actions, s := Continues(p, actions, s, LockAgain);
  }

  lemma NothingYet()
    ensures NoVerdict([])
  {
  }

  lemma RunnerPasses(p: State, actions: seq<Action>, s: State) returns (more: seq<Action>, t: State)
    requires NoVerdict(actions) && Run(p, actions) == Some(s) && s.main == Entering && s.runner.owner == Free
    ensures NoVerdict(more) && Run(p, more) == Some(t)
    ensures t == s.(runner := s.runner.(signaled := true, notified := s.runner.notified || s.runner.waiting), main := Idle, log := s.log + [Ran])
  {
    hide Run;
    more, t := Continues(p, actions, s, MainLock);
    more, t := Continues(p, more, t, MainSignal);
    more, t := Continues(p, more, t, MainNotify);
    more, t := Continues(p, more, t, MainUnlock);
  }

  /** A runner that the main thread had taken off the queue before the round passes during the wait. */
  lemma EarlierRunnerPasses(p: State) returns (actions: seq<Action>)
    requires p.monitor == BeginWait && p.main == Entering
    ensures NoVerdict(actions) && Run(p, actions).Some?
    ensures var s := Run(p, actions).value; s.monitor == Sample && s.queued == p.queued && s.runner.signaled && s.main == Idle
    ensures Run(p, actions).value.log == p.log + [Ran]
  {
    var s := p;
    actions := [];
    assert Run(p, []) == Some(p);
    hide Run, Enabled, Next, NoVerdict;
    NothingYet();
    StartsWait(s);
    actions, s := Continues(p, actions, s, StartWait);
    actions, s := RunnerPasses(p, actions, s);
    WakesUp(s);
    actions, s := Continues(p, actions, s, WakeUnnotified);
    LocksAgain(s);
    actions, s := Continues(p, actions, s, LockAgain);
  }

  /**
   * Known at the post: a round whose own runner does not run is always judged an ANR, if the system says so, if and
   * only if the flag is down and the main thread is not already holding an earlier runner.
   */
  lemma UnrunRunnerVerdict(p: State)
    requires Inv(p) && p.monitor == BeginWait && p.queued == 1
    ensures AlwaysAnr(p) <==> !p.runner.signaled && p.main == Idle
  {
    MainOutside(p);
    hide Run, Inv;
    if p.runner.signaled {
      var actions := WaitsOnly(p);
      assert Unrun(Run(p, actions).value);
    } else if p.main != Idle {
      var actions := EarlierRunnerPasses(p);
      assert Unrun(Run(p, actions).value);
    } else {
      forall actions: seq<Action> | NoVerdict(actions) && Run(p, actions).Some? && Unrun(Run(p, actions).value)
        ensures Next(Run(p, actions).value, InAnrState(true)).isAnr
      {
        UntouchedRun(p, actions);
      }
    }
  }

  /** While the monitor is in the lock the main thread is outside it. */
  lemma MainOutside(p: State)
    requires Inv(p) && p.monitor == BeginWait
    ensures p.main == Idle || p.main == Entering
  {
    hide RanSinceReset, VerdictsSound;
  }

  /** The first round's runner is taken off the queue, but does not get the lock before the wait is over. */
  lemma TakenRound() returns (s: State)
    ensures Reachable(s) && s.monitor == Top && s.main == Entering && s.runner == Runner(Free, false, false, false)
    ensures |s.log| > 0 && s.log[|s.log| - 1] == WasReset
  {
    Begins();
    hide Reachable;
    s := Posts(START);
    s := Reaches(s, StartWait);
    s := Reaches(s, Dequeue);
    s := Reaches(s, WakeUnnotified);
    s := Reaches(s, LockAgain);
    s := SleepsAgain(s);
  }

  /**
   * The other way to miss an ANR: an earlier runner that could no longer be taken back passes during the wait. No
   * run had completed before the post, and the round's own runner is still queued.
   */
  lemma EarlierRunMasksAnr() returns (p: State, actions: seq<Action>)
    ensures Reachable(p) && p.monitor == BeginWait && p.queued == 1 && !p.runner.signaled
    ensures NoVerdict(actions) && Run(p, actions).Some? && Unrun(Run(p, actions).value)
    ensures !RanSinceReset(BeforeLastPost(p.log)) && !Next(Run(p, actions).value, InAnrState(true)).isAnr
  {
    p := TakenRound();
    var log := p.log;
    p := Posts(p);
    assert p.log[..|log|] == log;
    hide Reachable, Run;
    actions := EarlierRunnerPasses(p);
  }

  // The runner object

  function Passed(r: Runner): Runner { r.(signaled := true, notified := r.notified || r.waiting) }

  /** What the main thread's four steps make of the runner. */
  lemma PassSteps(s: State)
    requires s.main == Entering && s.runner.owner == Free
    ensures MainNext(MainNext(MainNext(MainNext(s, MainLock), MainSignal), MainNotify), MainUnlock)
         == s.(runner := Passed(s.runner), main := Idle, log := s.log + [Ran])
  {
  }

  class WaitableRunner {
    var signaled: bool
    var waiting: bool
    var notified: bool

    constructor ()
      ensures !signaled && !waiting && !notified
    {
      signaled, waiting, notified := false, false, false;
    }

    function View(owner: Owner): Runner
      reads this
    {
      Runner(owner, signaled, waiting, notified)
    }

    /** The main thread's passage. */
    method Pass()
      modifies this
      ensures forall owner :: View(owner) == Passed(old(View(owner)))
    {
      signaled := true;
      if waiting {
        notified := true;
      }
    }

    method Blocked() returns (r: bool)
      ensures r == !signaled
    {
      return !signaled;
    }

    method Reset(ghost s: State)
      requires s.runner == View(ByMonitor) && s.monitor.Reset? && !waiting
      modifies this
      ensures View(ByMonitor) == Next(s, ResetRunner).runner
    {
      signaled := false;
    }

    /** The system's answer is asked for only while the runner is blocked; it may have none. */
    method InAnrState(answer: Option<bool>, ghost s: State) returns (r: bool)
      requires s.runner == View(ByMonitor) && s.monitor == Sample
      ensures r == Next(s, Action.InAnrState(answer == Some(true))).isAnr
    {
      var blocked := Blocked();
      if blocked {
        if answer.Some? {
          return answer.value;
        }
      }
      return false;
    }
  }
}
