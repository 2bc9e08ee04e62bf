/**
 * The crash signal handler: installing and removing the interceptor on six signals, the one collector a crash may
 * have, and the chaining to the handler that was there before.
 */
module SignalHandler {
  import opened Json

  /** What a signal does: a handler with or without the signal's information, or the agent's interceptor. */
  datatype Disposition = Default | Ignore | Handler(id: nat) | SigAction(id: nat) | Interceptor

  const ENTRIES: nat := 6

  /** The observed signals, by number. */
  const SIGNALS: seq<nat> := [4, 5, 6, 8, 7, 11]

  /** The table before any handler was saved in it. */
  const DEFAULTS: seq<Disposition> := [Default, Default, Default, Default, Default, Default]

  const INTERCEPTED: seq<Disposition> :=
    [Interceptor, Interceptor, Interceptor, Interceptor, Interceptor, Interceptor]

  /** How a saved action is invoked. */
  datatype Invocation = CallSigAction(id: nat) | RaiseDefault | CallHandler(id: nat) | Nothing | Reenter

  function InvocationOf(d: Disposition): Invocation {
    match d
    case SigAction(id) => CallSigAction(id)
    case Interceptor => Reenter
    case Default => RaiseDefault
    case Handler(id) => CallHandler(id)
    case Ignore => Nothing
  }

  /** The saved action is invoked as what it is: with the signal's information or without, by raising, or not at all. */
  ghost predicate Invokes(v: Invocation, d: Disposition) {
    && (forall id :: v == CallSigAction(id) <==> d == SigAction(id))
    && (forall id :: v == CallHandler(id) <==> d == Handler(id))
    && (v == RaiseDefault <==> d == Default)
    && (v == Nothing <==> d == Ignore)
  }

  lemma InvokesAs(d: Disposition)
    ensures Invokes(InvocationOf(d), d)
  {
  }

  datatype CollectorPc = Collecting | Chaining | Leaving

  datatype Collector = Collector(entry: nat, pc: CollectorPc)

  /** A call of a saved action, and the dispositions it found. */
  datatype Chained = Chained(entry: nat, invoked: Invocation, found: seq<Disposition>, stale: bool)

  /**
   * The counters, the table and the kernel's dispositions; the collectors of this installation and those left over
   * from earlier ones; how many signals were turned away in it, and how many leftovers ended in it.
   */
  datatype State = State(
    initialized: int, intercepting: int, saved: seq<Disposition>, kernel: seq<Disposition>,
    current: seq<Collector>, stale: seq<Collector>, turned: nat, staleLeft: nat, log: seq<Chained>)

  function Begin(original: seq<Disposition>): State { State(0, 0, DEFAULTS, original, [], [], 0, 0, []) }

  datatype Who = Current(k: nat) | Stale(k: nat)

  datatype Action = Start(named: bool) | Stop | Arrive(entry: nat) | Uninstall(who: Who) | Chain(who: Who) | Return(who: Who)

  predicate IsWho(s: State, who: Who, pc: CollectorPc) {
    match who
    case Current(k) => k < |s.current| && s.current[k].pc == pc
    case Stale(k) => k < |s.stale| && s.stale[k].pc == pc
  }

  predicate Enabled(s: State, a: Action) {
    match a
    case Start(_) => true
    case Stop => true
    case Arrive(i) => i < |s.kernel| && s.kernel[i] == Interceptor
    case Uninstall(who) => IsWho(s, who, Collecting)
    case Chain(who) => IsWho(s, who, Chaining)
    case Return(who) => IsWho(s, who, Leaving)
  }

  function Uninstalled(s: State): State {
    if s.initialized > 0 then s.(kernel := s.saved, initialized := s.initialized - 1) else s
  }

  /** The first start installs, if the thread can be named; later ones are only counted. */
  function Started(s: State, named: bool): State {
    if s.initialized == 0 && named then
      s.(initialized := 1, saved := s.kernel, kernel := INTERCEPTED, intercepting := 0,
         current := [], stale := s.stale + s.current, turned := 0, staleLeft := 0)
    else s.(initialized := s.initialized + 1)
  }

  function Arrived(s: State, i: nat): State {
    if s.intercepting == 0 then s.(intercepting := 1, current := s.current + [Collector(i, Collecting)])
    else s.(intercepting := s.intercepting + 1, turned := s.turned + 1)
  }

  function SetPc(s: State, who: Who, pc: CollectorPc): State
    requires if who.Current? then who.k < |s.current| else who.k < |s.stale|
  {
    match who
    case Current(k) => s.(current := s.current[k := s.current[k].(pc := pc)])
    case Stale(k) => s.(stale := s.stale[k := s.stale[k].(pc := pc)])
  }

  function EntryOf(s: State, who: Who): nat
    requires if who.Current? then who.k < |s.current| else who.k < |s.stale|
  {
    match who case Current(k) => s.current[k].entry case Stale(k) => s.stale[k].entry
  }

  function ChainedOf(s: State, who: Who): Chained
    requires IsWho(s, who, Chaining)
  {
    var i := EntryOf(s, who);
    Chained(i, if i < |s.saved| then InvocationOf(s.saved[i]) else Nothing, s.kernel, who.Stale?)
  }

  function Returned(s: State, who: Who): State
    requires IsWho(s, who, Leaving)
  {
    match who
    case Current(k) => s.(current := s.current[..k] + s.current[k + 1..], intercepting := s.intercepting - 1)
    case Stale(k) =>
      s.(stale := s.stale[..k] + s.stale[k + 1..], intercepting := s.intercepting - 1, staleLeft := s.staleLeft + 1)
  }

  function Next(s: State, a: Action): State
    requires Enabled(s, a)
  {
    match a
    case Start(named) => Started(s, named)
    case Stop => Uninstalled(s)
    case Arrive(i) => Arrived(s, i)
    case Uninstall(who) => SetPc(Uninstalled(s), who, Chaining)
    case Chain(who) => SetPc(s.(log := s.log + [ChainedOf(s, who)]), who, Leaving)
    case Return(who) => Returned(s, who)
  }

  function Run(s: State, actions: seq<Action>): Option<State>
    decreases |actions|
  {
    if |actions| == 0 then Some(s)
    else if !Enabled(s, actions[0]) then None
    else Run(Next(s, actions[0]), actions[1..])
  }

  // Restoring the dispositions

  /** The dispositions of a process that does not know the agent. */
  predicate IsOriginal(original: seq<Disposition>) { |original| == ENTRIES && Interceptor !in original }

  /** Not installed means as before; installed means what was before is saved, and is not the interceptor. */
  predicate Sound(s: State, original: seq<Disposition>) {
    && s.initialized >= 0
    && (s.initialized == 0 ==> s.kernel == original)
    && (s.initialized > 0 ==> s.saved == original && Interceptor !in s.saved)
    && (s.kernel == original || s.kernel == INTERCEPTED)
  }

  predicate Restoring(s: State, original: seq<Disposition>) { Sound(s, original) && s.saved == original }

  lemma RestoringKept(s: State, a: Action, original: seq<Disposition>)
    requires IsOriginal(original) && Restoring(s, original) && Enabled(s, a)
    ensures Restoring(Next(s, a), original)
  {
  }

  lemma {:induction false} RestoringRun(s: State, actions: seq<Action>, original: seq<Disposition>)
    requires IsOriginal(original) && Restoring(s, original) && Run(s, actions).Some?
    ensures Restoring(Run(s, actions).value, original)
    decreases |actions|
  {
    hide Restoring, Enabled, Next;
    if |actions| > 0 {
      RestoringKept(s, actions[0], original);
      RestoringRun(Next(s, actions[0]), actions[1..], original);
    }
  }

  /** The first start of a run, if it has one, could name its thread. */
  predicate FirstStartNamed(actions: seq<Action>) {
    |actions| > 0 ==> (if actions[0].Start? then actions[0].named else FirstStartNamed(actions[1..]))
  }

  /** Untouched so far: nothing has been started. */
  lemma {:induction false} UntouchedRun(original: seq<Disposition>, actions: seq<Action>)
    requires IsOriginal(original) && Run(Begin(original), actions).Some?
    requires FirstStartNamed(actions) || original == DEFAULTS
    ensures Sound(Run(Begin(original), actions).value, original)
    decreases |actions|
  {
    if original == DEFAULTS {
      RestoringRun(Begin(original), actions, original);
    } else if |actions| > 0 {
      if actions[0].Start? {
        RestoringRun(Started(Begin(original), true), actions[1..], original);
      } else {
        assert actions[0] == Stop;
        UntouchedRun(original, actions[1..]);
      }
    }
  }

  /**
   * Every run that begins with a start keeps the original dispositions safe exactly when that start installed
   * the handlers, or there was nothing but default actions to lose. An unnamed thread installs nothing and saves
   * nothing, but is counted, so that the next stop "restores" an empty table.
   */
  lemma RestoredIff(original: seq<Disposition>, named: bool)
    requires IsOriginal(original)
    ensures named || original == DEFAULTS <==>
      forall rest: seq<Action> :: Run(Begin(original), [Start(named)] + rest).Some? ==>
        Sound(Run(Begin(original), [Start(named)] + rest).value, original)
  {
    if named || original == DEFAULTS {
      hide Run, Sound;
      forall rest: seq<Action> | Run(Begin(original), [Start(named)] + rest).Some?
        ensures Sound(Run(Begin(original), [Start(named)] + rest).value, original)
      {
        assert ([Start(named)] + rest)[0] == Start(named);
        UntouchedRun(original, [Start(named)] + rest);
      }
    } else {
      UnnamedStartLoses(original);
    }
  }

  lemma UnnamedStartLoses(original: seq<Disposition>)
    requires IsOriginal(original) && original != DEFAULTS
    ensures Run(Begin(original), [Start(false)] + [Stop]).Some?
    ensures !Sound(Run(Begin(original), [Start(false)] + [Stop]).value, original)
  {
    var s := Begin(original);
    var t := Next(s, Start(false));
    assert ([Start(false)] + [Stop])[1..] == [Stop] && [Stop][1..] == [];
    assert Run(Next(t, Stop), []) == Some(Next(t, Stop));
    assert Run(t, [Stop]) == Some(Next(t, Stop));
  }

  /** In particular: whatever starts, stops and signals came, a final stop for every start gives the originals back. */
  lemma Restoration(original: seq<Disposition>, actions: seq<Action>)
    requires IsOriginal(original) && FirstStartNamed(actions) && Run(Begin(original), actions).Some?
    ensures var s := Run(Begin(original), actions).value;
      s.initialized >= 0 && StopAll(s).initialized == 0 && StopAll(s).kernel == original
  {
    UntouchedRun(original, actions);
    Stopped(Run(Begin(original), actions).value, original);
  }

  function StopAll(s: State): State
    decreases s.initialized
  {
    if s.initialized > 0 then StopAll(Uninstalled(s)) else s
  }

  lemma {:induction false} Stopped(s: State, original: seq<Disposition>)
    requires IsOriginal(original) && Sound(s, original)
    ensures StopAll(s).initialized == 0 && StopAll(s).kernel == original
    decreases s.initialized
  {
    if s.initialized > 0 { Stopped(Uninstalled(s), original); }
  }

  // One collector

  predicate CollectorAccount(s: State) {
    && s.intercepting == |s.current| + s.turned - s.staleLeft
    && |s.current| <= 1 + s.staleLeft
    && (forall k :: 0 <= k < |s.current| ==> s.current[k].entry < ENTRIES)
    && (forall k :: 0 <= k < |s.stale| ==> s.stale[k].entry < ENTRIES)
  }

  /** A collector of this installation that has uninstalled leaves no interceptor behind. */
  predicate ChainAccount(s: State, original: seq<Disposition>) {
    && (forall k :: 0 <= k < |s.current| && s.current[k].pc != Collecting ==> s.kernel == original)
    && forall j :: 0 <= j < |s.log| ==>
      && s.log[j].entry < |original| && s.log[j].invoked == InvocationOf(original[s.log[j].entry])
      && (!s.log[j].stale ==> s.log[j].found == original)
  }

  lemma CollectorsKept(s: State, a: Action)
    requires CollectorAccount(s) && Enabled(s, a) && |s.kernel| == ENTRIES
    ensures CollectorAccount(Next(s, a))
  {
  }

  lemma ChainsKept(s: State, a: Action, original: seq<Disposition>)
    requires CollectorAccount(s) && ChainAccount(s, original) && Restoring(s, original) && IsOriginal(original) && Enabled(s, a)
    ensures ChainAccount(Next(s, a), original)
  {
    hide InvocationOf;
    RestoringKept(s, a, original);
  }

  lemma {:induction false} CollectorRun(s: State, actions: seq<Action>, original: seq<Disposition>)
    requires IsOriginal(original) && Restoring(s, original) && CollectorAccount(s) && ChainAccount(s, original)
    requires Run(s, actions).Some?
    ensures CollectorAccount(Run(s, actions).value) && ChainAccount(Run(s, actions).value, original)
    decreases |actions|
  {
    if |actions| > 0 {
      assert |s.kernel| == ENTRIES;
      CollectorsKept(s, actions[0]);
      ChainsKept(s, actions[0], original);
      RestoringKept(s, actions[0], original);
      hide Restoring, CollectorAccount, ChainAccount, Enabled, Next;
      CollectorRun(Next(s, actions[0]), actions[1..], original);
    }
  }

  /**
   * After an installation, in every interleaving: the counter is the collectors at work and the signals turned
   * away, there is at most one collector, but for each leftover of an earlier installation that ended meanwhile,
   * and every saved action called is the original one for its signal, with all six dispositions restored.
   */
  lemma SingleCollector(original: seq<Disposition>, actions: seq<Action>)
    requires IsOriginal(original) && Run(Begin(original), [Start(true)] + actions).Some?
    ensures var s := Run(Begin(original), [Start(true)] + actions).value;
      && s.intercepting == |s.current| + s.turned - s.staleLeft
      && |s.current| <= 1 + s.staleLeft
      && forall j :: 0 <= j < |s.log| ==>
        && s.log[j].entry < ENTRIES && Invokes(s.log[j].invoked, original[s.log[j].entry])
        && s.log[j].invoked != Reenter && (!s.log[j].stale ==> s.log[j].found == original)
  {
    forall d: Disposition ensures Invokes(InvocationOf(d), d) { InvokesAs(d); }
    FirstInstall(original);
    AfterFirst(original, actions);
    hide Run, Begin, Next, Restoring;
    CollectorRun(Next(Begin(original), Start(true)), actions, original);
  }

  lemma AfterFirst(original: seq<Disposition>, actions: seq<Action>)
    ensures Run(Begin(original), [Start(true)] + actions) == Run(Next(Begin(original), Start(true)), actions)
  {
    hide Next, Begin;
    assert ([Start(true)] + actions)[1..] == actions;
  }

  lemma FirstInstall(original: seq<Disposition>)
    requires IsOriginal(original)
    ensures var s := Next(Begin(original), Start(true));
      Restoring(s, original) && CollectorAccount(s) && ChainAccount(s, original)
  {
  }

  ghost predicate Reachable(original: seq<Disposition>, s: State) {
    exists actions: seq<Action> :: Run(Begin(original), actions) == Some(s)
  }

  lemma {:induction false} RunThen(s: State, actions: seq<Action>, a: Action)
    requires Run(s, actions).Some? && Enabled(Run(s, actions).value, a)
    ensures Run(s, actions + [a]) == Some(Next(Run(s, actions).value, a))
    decreases |actions|
  {
    hide Enabled, Next;
    if |actions| > 0 {
      assert (actions + [a])[1..] == actions[1..] + [a];
      RunThen(Next(s, actions[0]), actions[1..], a);
    } else {
      assert actions + [a] == [a];
      assert Run(Next(s, a), []) == Some(Next(s, a));
    }
  }

  lemma Reaches(original: seq<Disposition>, s: State, a: Action) returns (t: State)
    requires Reachable(original, s) && Enabled(s, a)
    ensures t == Next(s, a) && Reachable(original, t)
  {
    hide Enabled, Next;
    var actions: seq<Action> :| Run(Begin(original), actions) == Some(s);
    RunThen(Begin(original), actions, a);
    t := Next(s, a);
  }

  lemma Collects(original: seq<Disposition>, s: State) returns (t: State)
    requires Reachable(original, s) && s.initialized == 0
    ensures Reachable(original, t)
    ensures t == Started(s, true).(intercepting := 1, current := [Collector(0, Collecting)])
  {
    hide Reachable;
    t := Reaches(original, s, Start(true));
    t := Reaches(original, t, Arrive(0));
  }

  lemma LeavesOver(original: seq<Disposition>) returns (s: State)
    requires IsOriginal(original)
    ensures Reachable(original, s) && s.kernel == INTERCEPTED && s.intercepting == 1 && s.staleLeft == 0
    ensures s.current == [Collector(0, Collecting)] && s.stale == [Collector(0, Chaining)]
  {
    assert Run(Begin(original), []) == Some(Begin(original));
    assert Reachable(original, Begin(original));
    hide Reachable;
    s := Collects(original, Begin(original));
    s := Reaches(original, s, Uninstall(Current(0)));
    s := Collects(original, s);
  }

  /** A collector that outlives its installation makes room for a second one in the next. */
  lemma LeftoverAdmitsSecond(original: seq<Disposition>) returns (s: State)
    requires IsOriginal(original)
    ensures Reachable(original, s) && |s.current| == 2 && s.staleLeft == 1
  {
    hide Reachable;
    s := LeavesOver(original);
    s := Reaches(original, s, Chain(Stale(0)));
    s := Reaches(original, s, Return(Stale(0)));
    s := Reaches(original, s, Arrive(1));
  }

  // The code

  /** Where a signal number is in the table. */
  predicate IsEntry(signo: nat, i: nat) { i < |SIGNALS| && SIGNALS[i] == signo }

  lemma EntryUnique(signo: nat, i: nat, j: nat)
    requires IsEntry(signo, i) && IsEntry(signo, j)
    ensures i == j
  {
  }

  /** The observed signals: SIGILL, SIGTRAP, SIGABRT, SIGFPE, SIGBUS and SIGSEGV. */
  lemma ObservedSignals(signo: nat)
    ensures (exists i: nat :: IsEntry(signo, i)) <==> signo in {4, 5, 6, 7, 8, 11}
  {
    if signo in {4, 5, 6, 7, 8, 11} {
      var i := if signo <= 6 then signo - 4 else if signo == 8 then 3 else if signo == 7 then 4 else 5;
      assert IsEntry(signo, i);
    }
  }

  method ObservedSignal(signo: nat) returns (entry: Option<nat>)
    ensures match entry case Some(i) => IsEntry(signo, i) case None => forall i :: !IsEntry(signo, i)
  {
    for i := 0 to |SIGNALS|
      invariant forall j :: 0 <= j < i ==> SIGNALS[j] != signo
    {
      if SIGNALS[i] == signo {
        return Some(i);
      }
    }
    return None;
  }

  class Handlers {
    var initialized: int
    var intercepting: int
    var saved: seq<Disposition>
    var kernel: seq<Disposition>
    ghost var current: seq<Collector>
    ghost var stale: seq<Collector>
    ghost var turned: nat
    ghost var staleLeft: nat
    ghost var log: seq<Chained>

    ghost function View(): State
      reads this
    {
      State(initialized, intercepting, saved, kernel, current, stale, turned, staleLeft, log)
    }

    ghost predicate Valid()
      reads this
    {
      |saved| == ENTRIES && |kernel| == ENTRIES
    }

    constructor (original: seq<Disposition>)
      requires IsOriginal(original)
      ensures Valid() && View() == Begin(original)
    {
      initialized, intercepting, saved, kernel := 0, 0, DEFAULTS, original;
      current, stale, turned, staleLeft, log := [], [], 0, 0, [];
    }

    method InstallSignalObservers(named: bool)
      requires Valid()
      modifies this
      ensures Valid() && View() == Next(old(View()), Start(named))
    {
      var before := initialized;
      initialized := initialized + 1;
      if before == 0 {
        if named {
          ghost var originals := kernel;
          var i := 0;
          while i < ENTRIES
            invariant 0 <= i <= ENTRIES && Valid()
            invariant View() == old(View()).(initialized := 1, saved := saved, kernel := kernel)
            invariant forall k :: 0 <= k < i ==> saved[k] == originals[k] && kernel[k] == Interceptor
            invariant forall k :: i <= k < ENTRIES ==> kernel[k] == originals[k]
          {
            saved, kernel := saved[i := kernel[i]], kernel[i := Interceptor];
            i := i + 1;
          }
          assert saved == originals && kernel == INTERCEPTED;
          intercepting := 0;
          stale, current, turned, staleLeft := stale + current, [], 0, 0;
        }
      }
    }

    method UninstallHandler()
      requires Valid()
      modifies this`kernel, this`initialized
      ensures Valid() && View() == Uninstalled(old(View()))
    {
      if initialized > 0 {
        var i := 0;
        while i < ENTRIES
          invariant 0 <= i <= ENTRIES && Valid() && initialized == old(initialized)
          invariant forall k :: 0 <= k < i ==> kernel[k] == saved[k]
        {
          kernel := kernel[i := saved[i]];
          i := i + 1;
        }
        assert kernel == saved;
        initialized := initialized - 1;
      }
    }

    /** Goes through the whole table, and invokes exactly one action: the one saved for the signal. */
    method InvokePrevious(signo: nat) returns (invoked: seq<Invocation>)
      requires Valid()
      ensures forall i: nat :: IsEntry(signo, i) ==> |invoked| == 1 && Invokes(invoked[0], saved[i])
      ensures forall i: nat :: IsEntry(signo, i) ==> invoked == [InvocationOf(saved[i])]
      ensures (forall i: nat :: !IsEntry(signo, i)) ==> invoked == []
    {
      forall i: nat | i < ENTRIES ensures Invokes(InvocationOf(saved[i]), saved[i]) { InvokesAs(saved[i]); }
      hide InvocationOf, Invokes;
      invoked := [];
      for i := 0 to ENTRIES
        invariant (forall j: nat :: j < i ==> !IsEntry(signo, j)) ==> invoked == []
        invariant forall j: nat :: j < i && IsEntry(signo, j) ==> invoked == [InvocationOf(saved[j])]
      {
        if SIGNALS[i] == signo {
          assert IsEntry(signo, i);
          forall j: nat | j < i ensures !IsEntry(signo, j) {
            if IsEntry(signo, j) { EntryUnique(signo, i, j); }
          }
          invoked := invoked + [InvocationOf(saved[i])];
        }
      }
    }

    /** A whole call of the interceptor, with nobody else running; what it collects is not part of this. */
    method Intercept(entry: nat) returns (invoked: seq<Invocation>)
      requires Valid() && entry < ENTRIES && kernel[entry] == Interceptor
      modifies this
      ensures Valid()
      ensures old(intercepting) != 0 ==> invoked == [] && View() == Next(old(View()), Arrive(entry))
      ensures old(intercepting) == 0 ==> invoked == [InvocationOf(old(saved[entry]))] && View() == Whole(old(View()), entry)
    {
      ghost var before := View();
      invoked := [];
      var was := intercepting;
      intercepting := intercepting + 1;
      if was == 0 {
        WholeEffect(before, entry);
        var signal := ObservedSignal(SIGNALS[entry]);
        assert IsEntry(SIGNALS[entry], entry);
        if signal.Some? {
          UninstallHandler();
          invoked := InvokePrevious(SIGNALS[entry]);
          log := log + [Chained(entry, InvocationOf(saved[entry]), kernel, false)];
          intercepting := intercepting - 1;
        }
      } else {
        turned := turned + 1;
      }
    }
  }

  /** Arrival, removal, chaining and return of one collector. */
  function Whole(s: State, i: nat): State
    requires Enabled(s, Arrive(i)) && s.intercepting == 0
  {
    var who := Current(|s.current|);
    var collecting := Next(s, Arrive(i));
    var chaining := Next(collecting, Uninstall(who));
    var leaving := Next(chaining, Chain(who));
    Next(leaving, Return(who))
  }

  /** All it leaves is the handlers removed and the saved action called once. */
  lemma WholeEffect(s: State, i: nat)
    requires Enabled(s, Arrive(i)) && s.intercepting == 0 && i < |s.saved|
    ensures Whole(s, i)
         == Uninstalled(s).(log := s.log + [Chained(i, InvocationOf(s.saved[i]), Uninstalled(s).kernel, false)])
  {
    hide InvocationOf;
    assert (s.current + [Collector(i, Leaving)])[..|s.current|] == s.current;
  }
}
