/** The report store: flushing the reports left in storage to the listener, and expiring them. */
module ReportStore {
  import opened Json
  import opened Storage

  datatype Kind = Crash | Exception | Anr

  const CRASH_PREFIX: string := "crash-"
  const EXCEPTION_PREFIX: string := "ex-"
  const ANR_PREFIX: string := "anr-"

  function LowerCase(c: char): char { if 'A' <= c <= 'Z' then c - 'A' + 'a' else c }

  /** `startsWith` ignoring case; the prefix is in lower case. */
  predicate HasPrefix(name: string, prefix: string) {
    |prefix| <= |name| && forall i :: 0 <= i < |prefix| ==> LowerCase(name[i]) == prefix[i]
  }

  /** Which of the listener's methods a report goes to. */
  function KindOf(name: string): Option<Kind> {
    if HasPrefix(name, CRASH_PREFIX) then Some(Crash)
    else if HasPrefix(name, EXCEPTION_PREFIX) then Some(Exception)
    else if HasPrefix(name, ANR_PREFIX) then Some(Anr)
    else None
  }

  predicate IsLetter(c: char, lower: char, upper: char) { c == lower || c == upper }

  lemma CrashLetters(name: string)
    ensures HasPrefix(name, "crash-") <==>
      (|name| >= 6 && IsLetter(name[0], 'c', 'C') && IsLetter(name[1], 'r', 'R') && IsLetter(name[2], 'a', 'A')
        && IsLetter(name[3], 's', 'S') && IsLetter(name[4], 'h', 'H') && name[5] == '-')
  {
    var p := "crash-";
    assert p[0] == 'c' && p[1] == 'r' && p[2] == 'a' && p[3] == 's' && p[4] == 'h' && p[5] == '-';
    hide KindOf;
  }

  lemma ExceptionLetters(name: string)
    ensures HasPrefix(name, "ex-") <==>
      (|name| >= 3 && IsLetter(name[0], 'e', 'E') && IsLetter(name[1], 'x', 'X') && name[2] == '-')
  {
    hide KindOf;
  }

  lemma AnrLetters(name: string)
    ensures HasPrefix(name, "anr-") <==>
      (|name| >= 4 && IsLetter(name[0], 'a', 'A') && IsLetter(name[1], 'n', 'N') && IsLetter(name[2], 'r', 'R') && name[3] == '-')
  {
    hide KindOf;
  }

  /** The kinds by the letters of their names: `crash-`, `ex-` and `anr-`, in either case. */
  lemma KindLetters(name: string)
    ensures KindOf(name) == Some(Crash) <==>
      (|name| >= 6 && IsLetter(name[0], 'c', 'C') && IsLetter(name[1], 'r', 'R') && IsLetter(name[2], 'a', 'A')
        && IsLetter(name[3], 's', 'S') && IsLetter(name[4], 'h', 'H') && name[5] == '-')
    ensures KindOf(name) == Some(Exception) <==>
      (|name| >= 3 && IsLetter(name[0], 'e', 'E') && IsLetter(name[1], 'x', 'X') && name[2] == '-')
    ensures KindOf(name) == Some(Anr) <==>
      (|name| >= 4 && IsLetter(name[0], 'a', 'A') && IsLetter(name[1], 'n', 'N') && IsLetter(name[2], 'r', 'R') && name[3] == '-')
  {
    PrefixesDisjoint(name);
    assert CRASH_PREFIX == "crash-" && EXCEPTION_PREFIX == "ex-" && ANR_PREFIX == "anr-";
    hide KindOf, HasPrefix, IsLetter;
    CrashLetters(name);
    ExceptionLetters(name);
    AnrLetters(name);
  }

  /** At most one prefix fits a name, so the order in which they are tried does not matter. */
  lemma PrefixesDisjoint(name: string)
    ensures KindOf(name) == Some(Crash) <==> HasPrefix(name, CRASH_PREFIX)
    ensures KindOf(name) == Some(Exception) <==> HasPrefix(name, EXCEPTION_PREFIX)
    ensures KindOf(name) == Some(Anr) <==> HasPrefix(name, ANR_PREFIX)
  {
    if HasPrefix(name, CRASH_PREFIX) { assert LowerCase(name[0]) == 'c'; }
    if HasPrefix(name, EXCEPTION_PREFIX) { assert LowerCase(name[0]) == 'e'; }
    if HasPrefix(name, ANR_PREFIX) { assert LowerCase(name[0]) == 'a'; }
  }

  /** The listener accepts, declines, throws an exception, or throws an error, which the loop does not catch. */
  datatype Answer = Accepts | Declines | Throws | Fails

  /** What happens around one report: whether it can be read, the answer, whether it can be deleted, the clock. */
  datatype Reply = Reply(readable: bool, answer: Answer, deletes: bool, now: int)

  datatype Offer = Offer(name: string, kind: Kind, content: string, accepted: bool)

  /** A report marked for deletion: its time, the clock and the period then, and whether the same pass had offered it. */
  datatype Mark = Mark(name: string, modified: int, now: int, period: int, offered: bool)

  /** The directory, what is to be deleted at exit, and the ledger. */
  datatype Store = Store(
    files: map<string, StoredFile>, marked: set<string>,
    written: map<string, string>, offers: seq<Offer>, marks: seq<Mark>, gone: set<string>)

  const EMPTY: Store := Store(map[], {}, map[], [], [], {})

  predicate Offers(s: Store, listener: bool, name: string, r: Reply) {
    name in s.files && listener && KindOf(name).Some? && r.readable
  }

  predicate Removes(s: Store, listener: bool, name: string, r: Reply) {
    Offers(s, listener, name, r) && r.answer == Accepts && r.deletes
  }

  predicate Aborts(s: Store, listener: bool, name: string, r: Reply) {
    Offers(s, listener, name, r) && r.answer == Fails
  }

  predicate Overdue(s: Store, name: string, now: int, period: int) {
    name in s.files && s.files[name].modified < now - period * 1000
  }

  function OfferOf(s: Store, name: string, r: Reply): Offer
    requires name in s.files && KindOf(name).Some?
  {
    Offer(name, KindOf(name).value, s.files[name].content, r.answer == Accepts)
  }

  function Posted(s: Store, listener: bool, name: string, r: Reply): Store {
    if !Offers(s, listener, name, r) then s
    else s.(offers := s.offers + [OfferOf(s, name, r)], files := if Removes(s, listener, name, r) then s.files - {name} else s.files)
  }

  /** One round of the loop. */
  function FlushOne(s: Store, listener: bool, period: int, name: string, r: Reply): Store {
    var t := Posted(s, listener, name, r);
    if Removes(s, listener, name, r) || Aborts(s, listener, name, r) || !Overdue(t, name, r.now, period) then t
    else
      var mark := Mark(name, t.files[name].modified, r.now, period, Offers(s, listener, name, r));
      t.(marked := t.marked + {name}, marks := t.marks + [mark])
  }

  predicate Replied(names: seq<string>, replies: map<string, Reply>) { forall n :: n in names ==> n in replies }

  /** The loop over the listing; an error ends it. */
  function FlushAll(s: Store, listener: bool, period: int, names: seq<string>, replies: map<string, Reply>): Store
    requires Replied(names, replies)
    decreases |names|
  {
    if |names| == 0 then s
    else
      var t := FlushOne(s, listener, period, names[0], replies[names[0]]);
      if Aborts(s, listener, names[0], replies[names[0]]) then t
      else FlushAll(t, listener, period, names[1..], replies)
  }

  /** Whether an error ends the loop. */
  predicate FlushBreaks(s: Store, listener: bool, period: int, names: seq<string>, replies: map<string, Reply>)
    requires Replied(names, replies)
    decreases |names|
  {
    |names| > 0 &&
    (Aborts(s, listener, names[0], replies[names[0]])
     || FlushBreaks(FlushOne(s, listener, period, names[0], replies[names[0]]), listener, period, names[1..], replies))
  }

  datatype Action =
    | Write(name: string, file: StoredFile)
    | Flush(listener: bool, period: int, names: seq<string>, replies: map<string, Reply>)
    | Exit

  predicate Distinct(names: seq<string>) { forall i, j :: 0 <= i < j < |names| ==> names[i] != names[j] }

  /** Report names are never used twice; a flush lists the directory, in any order, or nothing if it cannot. */
  predicate Enabled(s: Store, a: Action) {
    match a
    case Write(name, _) => name !in s.written && name !in s.files && KindOf(name).Some?
    case Flush(_, _, names, replies) => Distinct(names) && (forall n :: n in names ==> n in s.files) && Replied(names, replies)
    case Exit => true
  }

  function Next(s: Store, a: Action): Store
    requires Enabled(s, a)
  {
    match a
    case Write(name, file) => s.(files := s.files[name := file], written := s.written[name := file.content])
    case Flush(listener, period, names, replies) => FlushAll(s, listener, period, names, replies)
    case Exit => s.(files := s.files - s.marked, marked := {}, gone := s.gone + s.marked * s.files.Keys)
  }

  function Run(s: Store, actions: seq<Action>): Option<Store>
    decreases |actions|
  {
    if |actions| == 0 then Some(s)
    else if !Enabled(s, actions[0]) then None
    else Run(Next(s, actions[0]), actions[1..])
  }

  // Conservation

  /** The handler for its kind was given the whole report, and took it. */
  ghost predicate Consumed(s: Store, name: string)
    requires name in s.written
  {
    exists i :: 0 <= i < |s.offers| && s.offers[i].name == name && s.offers[i].accepted
      && KindOf(name) == Some(s.offers[i].kind) && s.offers[i].content == s.written[name]
  }

  ghost predicate WasOffered(s: Store, name: string) {
    exists i :: 0 <= i < |s.offers| && s.offers[i].name == name
  }

  /** It was past its expiry when it was marked, and if `offered` it had been offered before that. */
  ghost predicate WasMarked(s: Store, name: string, offered: bool) {
    exists i :: 0 <= i < |s.marks| && s.marks[i].name == name && s.marks[i].offered == offered
      && s.marks[i].modified < s.marks[i].now - s.marks[i].period * 1000 && (offered ==> WasOffered(s, name))
  }

  /** Each report is in the directory unchanged, or was consumed, or was deleted at an exit after being marked. */
  ghost predicate Conserved(s: Store) {
    && (forall n :: n in s.written ==>
          || (n in s.files && s.files[n].content == s.written[n])
          || Consumed(s, n)
          || (n in s.gone && WasMarked(s, n, true)))
    && (forall n :: n in s.marked ==> n in s.written && (Consumed(s, n) || WasMarked(s, n, true)))
    && (forall n :: n in s.files ==> n in s.written && s.files[n].content == s.written[n])
  }

  /** Every flush has a listener and can read every file. */
  predicate Attended(actions: seq<Action>) {
    forall i :: 0 <= i < |actions| && actions[i].Flush? ==>
      actions[i].listener && forall n :: n in actions[i].replies ==> actions[i].replies[n].readable
  }

  ghost predicate Grows(s: Store, t: Store) {
    s.offers <= t.offers && s.marks <= t.marks && s.written == t.written
  }

  lemma GrowsKeeps(s: Store, t: Store, n: string)
    requires Grows(s, t)
    ensures n in s.written && Consumed(s, n) ==> Consumed(t, n)
    ensures WasOffered(s, n) ==> WasOffered(t, n)
    ensures forall offered :: WasMarked(s, n, offered) ==> WasMarked(t, n, offered)
  {
    if n in s.written && Consumed(s, n) {
      var i :| 0 <= i < |s.offers| && s.offers[i].name == n && s.offers[i].accepted
        && KindOf(n) == Some(s.offers[i].kind) && s.offers[i].content == s.written[n];
      assert t.offers[i] == s.offers[i];
    }
    if WasOffered(s, n) {
      var i :| 0 <= i < |s.offers| && s.offers[i].name == n;
      assert t.offers[i] == s.offers[i];
    }
    forall offered | WasMarked(s, n, offered) ensures WasMarked(t, n, offered) {
      var i :| 0 <= i < |s.marks| && s.marks[i].name == n && s.marks[i].offered == offered
        && s.marks[i].modified < s.marks[i].now - s.marks[i].period * 1000 && (offered ==> WasOffered(s, n));
      assert t.marks[i] == s.marks[i];
    }
  }

  lemma FlushOneLedger(s: Store, listener: bool, period: int, name: string, r: Reply)
    requires name in s.files ==> name in s.written && s.files[name].content == s.written[name]
    ensures var t := FlushOne(s, listener, period, name, r);
      && Grows(s, t) && t.gone == s.gone
      && t.files == (if Removes(s, listener, name, r) then s.files - {name} else s.files)
      && (Offers(s, listener, name, r) ==> WasOffered(t, name))
      && (Removes(s, listener, name, r) ==> Consumed(t, name))
      && (t.marked == s.marked || (t.marked == s.marked + {name} && name in s.files && WasMarked(t, name, Offers(s, listener, name, r))))
  {
    hide KindOf;
    var t := FlushOne(s, listener, period, name, r);
    if Offers(s, listener, name, r) {
      assert t.offers[|s.offers|] == OfferOf(s, name, r);
    }
    if t.marked != s.marked {
      assert t.marks[|s.marks|] == Mark(name, s.files[name].modified, r.now, period, Offers(s, listener, name, r));
    }
  }

  lemma FlushOneConserves(s: Store, listener: bool, period: int, name: string, r: Reply)
    requires Conserved(s) && listener && r.readable && (name in s.files ==> KindOf(name).Some?)
    ensures Conserved(FlushOne(s, listener, period, name, r))
    ensures Grows(s, FlushOne(s, listener, period, name, r))
  {
    var t := FlushOne(s, listener, period, name, r);
    FlushOneLedger(s, listener, period, name, r);
    hide FlushOne, Consumed, WasMarked, WasOffered, Grows;
    forall n | n in t.written
      ensures || (n in t.files && t.files[n].content == t.written[n]) || Consumed(t, n) || (n in t.gone && WasMarked(t, n, true))
    {
      SameWritten(s, t);
      GrowsKeeps(s, t, n);
    }
    forall n | n in t.marked ensures n in t.written && (Consumed(t, n) || WasMarked(t, n, true)) {
      SameWritten(s, t);
      GrowsKeeps(s, t, n);
    }
    SameWritten(s, t);
  }

  lemma SameWritten(s: Store, t: Store)
    requires Grows(s, t)
    ensures s.written == t.written
  {
  }

  /** Only reports of the three kinds are ever written. */
  predicate KnownKinds(s: Store) { forall n :: n in s.files ==> KindOf(n).Some? }

  lemma {:induction false} FlushConserves(s: Store, period: int, names: seq<string>, replies: map<string, Reply>)
    requires Conserved(s) && KnownKinds(s)
    requires Replied(names, replies) && forall n :: n in replies ==> replies[n].readable
    ensures Conserved(FlushAll(s, true, period, names, replies))
    ensures KnownKinds(FlushAll(s, true, period, names, replies))
    decreases |names|
  {
    if |names| > 0 {
      var t := FlushOne(s, true, period, names[0], replies[names[0]]);
      FlushOneConserves(s, true, period, names[0], replies[names[0]]);
      assert forall n :: n in t.files ==> n in s.files;
      hide Conserved, FlushOne, KindOf, Aborts;
      FlushConserves(t, period, names[1..], replies);
    }
  }

  lemma LedgerKept(s: Store, t: Store, n: string)
    requires s.offers == t.offers && s.marks == t.marks && n in s.written && n in t.written && s.written[n] == t.written[n]
    ensures (Consumed(s, n) ==> Consumed(t, n)) && (WasMarked(s, n, true) ==> WasMarked(t, n, true))
  {
    hide KindOf;
  }

  lemma WriteConserves(s: Store, name: string, file: StoredFile)
    requires Conserved(s) && KnownKinds(s) && Enabled(s, Write(name, file))
    ensures Conserved(Next(s, Write(name, file))) && KnownKinds(Next(s, Write(name, file)))
  {
    hide KindOf, Consumed, WasMarked;
    var t := Next(s, Write(name, file));
    forall n | n in s.written
      ensures n in t.written && t.written[n] == s.written[n]
      ensures (Consumed(s, n) ==> Consumed(t, n)) && (WasMarked(s, n, true) ==> WasMarked(t, n, true))
    {
      LedgerKept(s, t, n);
    }
  }

  lemma ExitConserves(s: Store)
    requires Conserved(s) && KnownKinds(s)
    ensures Conserved(Next(s, Exit)) && KnownKinds(Next(s, Exit))
  {
    hide KindOf, Consumed, WasMarked;
    var t := Next(s, Exit);
    forall n | n in s.written ensures (Consumed(s, n) ==> Consumed(t, n)) && (WasMarked(s, n, true) ==> WasMarked(t, n, true)) {
      LedgerKept(s, t, n);
    }
  }

  lemma NextConserves(s: Store, a: Action)
    requires Conserved(s) && KnownKinds(s) && Enabled(s, a) && Attended([a])
    ensures Conserved(Next(s, a)) && KnownKinds(Next(s, a))
  {
    assert [a][0] == a;
    hide Conserved, KnownKinds;
    match a {
      case Write(name, file) => WriteConserves(s, name, file);
      case Flush(listener, period, names, replies) => FlushConserves(s, period, names, replies);
      case Exit => ExitConserves(s);
    }
  }

  lemma {:induction false} RunConserves(s: Store, actions: seq<Action>)
    requires Conserved(s) && KnownKinds(s) && Attended(actions) && Run(s, actions).Some?
    ensures Conserved(Run(s, actions).value)
    decreases |actions|
  {
    if |actions| > 0 {
      assert Attended([actions[0]]);
      NextConserves(s, actions[0]);
      hide Conserved, KnownKinds, Enabled, Next;
      RunConserves(Next(s, actions[0]), actions[1..]);
    }
  }

  /**
   * Over every run of writes, attended flushes and exits, whatever the listener answers or throws and whatever
   * cannot be deleted: each report written is in the directory as it was written, or was taken by the handler of
   * its kind, or was deleted at an exit, past its expiry and offered to the listener before it was marked.
   */
  lemma ReportsConserved(actions: seq<Action>)
    requires Attended(actions) && Run(EMPTY, actions).Some?
    ensures Conserved(Run(EMPTY, actions).value)
  {
    assert Conserved(EMPTY) && KnownKinds(EMPTY);
    hide Conserved, KnownKinds;
    RunConserves(EMPTY, actions);
  }

  // When a report is marked

  /**
   * A pass marks a report that stays, and whose handler threw no error, exactly when it is older than the period;
   * any other it leaves unmarked.
   */
  lemma MarkedIff(s: Store, listener: bool, period: int, name: string, r: Reply)
    requires name in s.files
    ensures var t := FlushOne(s, listener, period, name, r);
      var errs := listener && KindOf(name).Some? && r.readable && r.answer == Fails;
      if name in t.files && !errs && s.files[name].modified < r.now - period * 1000
        then t.marked == s.marked + {name} && |t.marks| == |s.marks| + 1
        else t.marked == s.marked && t.marks == s.marks
  {
    hide KindOf;
  }

  /** The mark is about the report as it was written and a flush that listed it. */
  ghost predicate MarkFrom(actions: seq<Action>, m: Mark) {
    && (exists i :: 0 <= i < |actions| && actions[i].Write? && actions[i].name == m.name && actions[i].file.modified == m.modified)
    && (exists i :: 0 <= i < |actions| && actions[i].Flush? && m.name in actions[i].names && m.name in actions[i].replies
          && actions[i].period == m.period && actions[i].replies[m.name].now == m.now)
  }

  ghost predicate FileFrom(actions: seq<Action>, name: string, modified: int) {
    exists i :: 0 <= i < |actions| && actions[i].Write? && actions[i].name == name && actions[i].file.modified == modified
  }

  ghost predicate Sourced(actions: seq<Action>, s: Store) {
    && (forall n :: n in s.files ==> FileFrom(actions, n, s.files[n].modified))
    && (forall k :: 0 <= k < |s.marks| ==> MarkFrom(actions, s.marks[k]) && s.marks[k].modified < s.marks[k].now - s.marks[k].period * 1000)
  }

  /** The marks a flush adds. */
  predicate NewMark(s: Store, period: int, names: seq<string>, replies: map<string, Reply>, m: Mark) {
    && m.name in names && m.name in s.files && m.name in replies && m.modified == s.files[m.name].modified
    && m.now == replies[m.name].now && m.period == period && m.modified < m.now - m.period * 1000
  }

  lemma FlushOneMarks(s: Store, listener: bool, period: int, name: string, r: Reply)
    ensures var t := FlushOne(s, listener, period, name, r);
      && (forall n :: n in t.files ==> n in s.files && t.files[n] == s.files[n])
      && (t.marks == s.marks || (name in s.files && s.files[name].modified < r.now - period * 1000
            && exists offered :: t.marks == s.marks + [Mark(name, s.files[name].modified, r.now, period, offered)]))
  {
    hide KindOf;
    var t := FlushOne(s, listener, period, name, r);
    if t.marks != s.marks {
      assert t.marks == s.marks + [Mark(name, s.files[name].modified, r.now, period, Offers(s, listener, name, r))];
    }
  }

  lemma {:induction false} FlushMarks(s: Store, listener: bool, period: int, names: seq<string>, replies: map<string, Reply>)
    requires Replied(names, replies)
    ensures var t := FlushAll(s, listener, period, names, replies);
      && s.marks <= t.marks && (forall n :: n in t.files ==> n in s.files && t.files[n] == s.files[n])
      && forall k :: |s.marks| <= k < |t.marks| ==> NewMark(s, period, names, replies, t.marks[k])
    decreases |names|
  {
    hide FlushOne, Aborts;
    if |names| > 0 {
      var t := FlushOne(s, listener, period, names[0], replies[names[0]]);
      FlushOneMarks(s, listener, period, names[0], replies[names[0]]);
      FlushMarks(t, listener, period, names[1..], replies);
      var u := FlushAll(s, listener, period, names, replies);
      forall k | |s.marks| <= k < |u.marks| ensures NewMark(s, period, names, replies, u.marks[k]) {
        if k < |t.marks| { assert u.marks[k] == t.marks[k]; }
      }
    }
  }

  lemma SourcedMore(actions: seq<Action>, a: Action, s: Store)
    requires Sourced(actions, s)
    ensures Sourced(actions + [a], s)
  {
    var more := actions + [a];
    assert forall i :: 0 <= i < |actions| ==> more[i] == actions[i];
    forall n | n in s.files ensures FileFrom(more, n, s.files[n].modified) {
      var i :| 0 <= i < |actions| && actions[i].Write? && actions[i].name == n && actions[i].file.modified == s.files[n].modified;
      assert more[i] == actions[i];
    }
    forall k | 0 <= k < |s.marks| ensures MarkFrom(more, s.marks[k]) {
      MarkFromMore(actions, a, s.marks[k]);
    }
  }

  lemma MarkFromMore(actions: seq<Action>, a: Action, m: Mark)
    requires MarkFrom(actions, m)
    ensures MarkFrom(actions + [a], m)
  {
    var more := actions + [a];
    var i :| 0 <= i < |actions| && actions[i].Write? && actions[i].name == m.name && actions[i].file.modified == m.modified;
    var j :| 0 <= j < |actions| && actions[j].Flush? && m.name in actions[j].names && m.name in actions[j].replies
      && actions[j].period == m.period && actions[j].replies[m.name].now == m.now;
    assert more[i] == actions[i] && more[j] == actions[j];
  }

  lemma NewMarkFrom(actions: seq<Action>, s: Store, a: Action, m: Mark)
    requires Sourced(actions, s) && a.Flush? && NewMark(s, a.period, a.names, a.replies, m)
    ensures MarkFrom(actions + [a], m)
  {
    var more := actions + [a];
    assert FileFrom(actions, m.name, m.modified);
    var i :| 0 <= i < |actions| && actions[i].Write? && actions[i].name == m.name && actions[i].file.modified == m.modified;
    assert more[i] == actions[i] && more[|actions|] == a;
  }

  lemma SourcedNext(actions: seq<Action>, s: Store, a: Action)
    requires Sourced(actions, s) && Enabled(s, a)
    ensures Sourced(actions + [a], Next(s, a))
  {
    SourcedMore(actions, a, s);
    match a {
      case Write(name, file) =>
        assert (actions + [a])[|actions|] == a;
        assert FileFrom(actions + [a], name, file.modified);
        hide MarkFrom, FileFrom;
      case Flush(listener, period, names, replies) =>
        FlushMarks(s, listener, period, names, replies);
        var t := FlushAll(s, listener, period, names, replies);
        hide FlushAll, MarkFrom, FileFrom;
        forall k | |s.marks| <= k < |t.marks| ensures MarkFrom(actions + [a], t.marks[k]) {
          NewMarkFrom(actions, s, a, t.marks[k]);
        }
      case Exit => hide MarkFrom, FileFrom;
    }
  }

  lemma {:induction false} RunSourced(actions: seq<Action>)
    requires Run(EMPTY, actions).Some?
    ensures Sourced(actions, Run(EMPTY, actions).value)
    decreases |actions|
  {
    if |actions| > 0 {
      var init, last := actions[..|actions| - 1], actions[|actions| - 1];
      RunLast(EMPTY, actions);
      hide Sourced, Run, Next, Enabled;
      RunSourced(init);
      SourcedNext(init, Run(EMPTY, init).value, last);
      assert init + [last] == actions;
    }
  }

  /**
   * Over every run, attended or not: each mark was made by a flush that listed the report, at a time when the report,
   * as it had been written, was older than the period.
   */
  lemma MarksOverdue(actions: seq<Action>, k: nat)
    requires Run(EMPTY, actions).Some? && k < |Run(EMPTY, actions).value.marks|
    ensures var m := Run(EMPTY, actions).value.marks[k];
      m.modified < m.now - m.period * 1000 && MarkFrom(actions, m)
  {
    RunSourced(actions);
    hide Run, MarkFrom;
  }

  /** At every flush that lists it the report is within its period. */
  predicate InTime(actions: seq<Action>, name: string, modified: int) {
    forall i :: 0 <= i < |actions| && actions[i].Flush? && name in actions[i].names && name in actions[i].replies ==>
      modified >= actions[i].replies[name].now - actions[i].period * 1000
  }

  ghost predicate Safe(s: Store, n: string, file: StoredFile) {
    && n in s.written && s.written[n] == file.content && n !in s.marked
    && ((n in s.files && s.files[n] == file) || (n !in s.files && Consumed(s, n)))
  }

  lemma FlushOneSafe(s: Store, listener: bool, period: int, name: string, r: Reply, n: string, file: StoredFile)
    requires Safe(s, n, file) && (n == name ==> file.modified >= r.now - period * 1000)
    ensures Safe(FlushOne(s, listener, period, name, r), n, file)
  {
    var t := FlushOne(s, listener, period, name, r);
    if n == name {
      if n in s.files {
        FlushOneLedger(s, listener, period, name, r);
        hide KindOf, Consumed, WasMarked, WasOffered;
      } else {
        NothingThere(s, listener, period, name, r);
      }
    } else {
      FlushOneOther(s, listener, period, name, r, n);
      FlushOneGrows(s, listener, period, name, r);
      GrowsKeeps(s, t, n);
      hide FlushOne, Consumed, WasOffered, WasMarked;
    }
  }

  lemma NothingThere(s: Store, listener: bool, period: int, name: string, r: Reply)
    requires name !in s.files
    ensures FlushOne(s, listener, period, name, r) == s
  {
    hide KindOf;
  }

  lemma FlushOneGrows(s: Store, listener: bool, period: int, name: string, r: Reply)
    ensures Grows(s, FlushOne(s, listener, period, name, r))
  {
    hide KindOf;
  }

  lemma {:induction false} FlushSafe(
    s: Store, listener: bool, period: int, names: seq<string>, replies: map<string, Reply>, n: string, file: StoredFile)
    requires Safe(s, n, file) && Replied(names, replies)
    requires n in names ==> file.modified >= replies[n].now - period * 1000
    ensures Safe(FlushAll(s, listener, period, names, replies), n, file)
    decreases |names|
  {
    hide Safe, FlushOne, Aborts;
    if |names| > 0 {
      FlushOneSafe(s, listener, period, names[0], replies[names[0]], n, file);
      FlushSafe(FlushOne(s, listener, period, names[0], replies[names[0]]), listener, period, names[1..], replies, n, file);
    }
  }

  lemma NextSafe(s: Store, a: Action, n: string, file: StoredFile)
    requires Safe(s, n, file) && Enabled(s, a) && InTime([a], n, file.modified)
    ensures Safe(Next(s, a), n, file)
  {
    assert [a][0] == a;
    match a {
      case Flush(listener, period, names, replies) =>
        hide Safe;
        FlushSafe(s, listener, period, names, replies, n, file);
      case _ =>
        LedgerKept(s, Next(s, a), n);
        hide Consumed, WasMarked, KindOf;
    }
  }

  /**
   * Over every run, attended or not: a report that is within its period at every flush that lists it is in the
   * directory as it was written, or was taken by the handler of its kind.
   */
  lemma {:induction false} KeptInTime(actions: seq<Action>, n: string, file: StoredFile)
    requires Run(EMPTY, actions).Some? && Write(n, file) in actions && InTime(actions, n, file.modified)
    ensures var s := Run(EMPTY, actions).value;
      && n in s.written && s.written[n] == file.content && n !in s.marked
      && ((n in s.files && s.files[n] == file) || (n !in s.files && Consumed(s, n)))
    decreases |actions|
  {
    var init, last := actions[..|actions| - 1], actions[|actions| - 1];
    RunLast(EMPTY, actions);
    RunTidy(init);
    hide Run, Consumed, KindOf;
    var s := Run(EMPTY, init).value;
    assert InTime([last], n, file.modified);
    assert InTime(init, n, file.modified);
    if Write(n, file) in init {
      KeptInTime(init, n, file);
      assert Safe(s, n, file);
      NextSafe(s, last, n, file);
    } else {
      assert last == Write(n, file);
    }
  }

  /** A report is marked unoffered exactly when it is overdue and the listener is missing, or it cannot be read, or is of no kind. */
  lemma MarkedUnoffered(s: Store, listener: bool, period: int, name: string, r: Reply)
    requires name in s.files
    ensures var t := FlushOne(s, listener, period, name, r);
      (|t.marks| > |s.marks| && !t.marks[|t.marks| - 1].offered)
        <==> s.files[name].modified < r.now - period * 1000 && (!listener || !r.readable || KindOf(name).None?)
  {
    hide KindOf;
  }

  /** A report is written, flushed once and the process exits. */
  function OneReport(name: string, file: StoredFile, listener: bool, period: int, r: Reply): seq<Action> {
    [Write(name, file), Flush(listener, period, [name], map[name := r]), Exit]
  }

  lemma OneReportRun(name: string, file: StoredFile, listener: bool, period: int, r: Reply)
    requires KindOf(name).Some?
    ensures var s := Next(EMPTY, Write(name, file));
      Run(EMPTY, OneReport(name, file, listener, period, r)) == Some(Next(FlushOne(s, listener, period, name, r), Exit))
  {
    hide KindOf, FlushOne;
    var s := Next(EMPTY, Write(name, file));
    var flush := Flush(listener, period, [name], map[name := r]);
    var actions := OneReport(name, file, listener, period, r);
    var t := FlushOne(s, listener, period, name, r);
    assert [name][1..] == [];
    assert FlushAll(s, listener, period, [name], map[name := r]) == t;
    assert actions[1..] == [flush, Exit] && actions[1..][1..] == [Exit] && actions[1..][1..][1..] == [];
    assert Run(Next(t, Exit), []) == Some(Next(t, Exit));
    assert Run(t, [Exit]) == Some(Next(t, Exit));
    assert Run(s, [flush, Exit]) == Some(Next(t, Exit));
  }

  /**
   * An overdue report that is flushed once before the process exits is lost without having been offered exactly
   * when the flush had no listener or could not read it.
   */
  lemma LostUnoffered(name: string, file: StoredFile, listener: bool, period: int, r: Reply)
    requires KindOf(name).Some? && file.modified < r.now - period * 1000
    ensures Run(EMPTY, OneReport(name, file, listener, period, r)).Some?
    ensures var s := Run(EMPTY, OneReport(name, file, listener, period, r)).value;
      name !in s.files && s.offers == [] <==> !listener || !r.readable
  {
    OneReportRun(name, file, listener, period, r);
    hide KindOf, Run, OneReport;
  }

  // Nobody is skipped

  /** How far the loop gets: past every report but one whose handler throws an error. */
  function Reached(s: Store, listener: bool, names: seq<string>, replies: map<string, Reply>): (k: nat)
    requires Replied(names, replies)
    ensures k <= |names|
  {
    if |names| == 0 then 0
    else if Aborts(s, listener, names[0], replies[names[0]]) then 1
    else 1 + Reached(s, listener, names[1..], replies)
  }

  function OffersOf(s: Store, listener: bool, names: seq<string>, replies: map<string, Reply>): seq<Offer>
    requires Replied(names, replies)
  {
    if |names| == 0 then []
    else
      var r := replies[names[0]];
      (if Offers(s, listener, names[0], r) then [OfferOf(s, names[0], r)] else []) + OffersOf(s, listener, names[1..], replies)
  }

  lemma {:induction false} OffersUnaffected(s: Store, t: Store, listener: bool, names: seq<string>, replies: map<string, Reply>)
    requires Replied(names, replies)
    requires forall n :: n in names ==> (n in s.files <==> n in t.files) && (n in s.files ==> t.files[n] == s.files[n])
    ensures OffersOf(s, listener, names, replies) == OffersOf(t, listener, names, replies)
    ensures Reached(s, listener, names, replies) == Reached(t, listener, names, replies)
  {
    hide KindOf;
    if |names| > 0 { OffersUnaffected(s, t, listener, names[1..], replies); }
  }

  function OfferIfAny(s: Store, listener: bool, name: string, r: Reply): seq<Offer> {
    if Offers(s, listener, name, r) then [OfferOf(s, name, r)] else []
  }

  lemma FlushOneOffers(s: Store, listener: bool, period: int, name: string, r: Reply)
    ensures var t := FlushOne(s, listener, period, name, r);
      && t.offers == s.offers + OfferIfAny(s, listener, name, r)
      && forall n :: n != name ==> (n in t.files <==> n in s.files) && (n in s.files ==> t.files[n] == s.files[n])
  {
    hide KindOf;
  }

  lemma OffersOfFirst(s: Store, listener: bool, names: seq<string>, replies: map<string, Reply>, k: nat)
    requires Replied(names, replies) && 0 < k <= |names|
    ensures OffersOf(s, listener, names[..k], replies)
         == OfferIfAny(s, listener, names[0], replies[names[0]]) + OffersOf(s, listener, names[1..][..k - 1], replies)
  {
    hide KindOf;
    assert names[..k][0] == names[0] && names[..k][1..] == names[1..][..k - 1];
  }

  lemma DistinctRest(names: seq<string>)
    requires Distinct(names) && |names| > 0
    ensures Distinct(names[1..]) && names[0] !in names[1..]
  {
  }

  /** The rest of the listing does not notice what happened to the report before it. */
  lemma RestUnaffected(s: Store, t: Store, listener: bool, name: string, rest: seq<string>, replies: map<string, Reply>)
    requires Replied(rest, replies) && name !in rest
    requires forall n :: n != name ==> (n in t.files <==> n in s.files) && (n in s.files ==> t.files[n] == s.files[n])
    ensures Reached(t, listener, rest, replies) == Reached(s, listener, rest, replies)
    ensures forall k :: 0 <= k <= |rest| ==> OffersOf(t, listener, rest[..k], replies) == OffersOf(s, listener, rest[..k], replies)
  {
    hide OffersOf, Reached;
    OffersUnaffected(s, t, listener, rest, replies);
    forall k | 0 <= k <= |rest| ensures OffersOf(t, listener, rest[..k], replies) == OffersOf(s, listener, rest[..k], replies) {
      OffersUnaffected(s, t, listener, rest[..k], replies);
    }
  }

  lemma FlushFirst(s: Store, listener: bool, period: int, names: seq<string>, replies: map<string, Reply>)
    requires Replied(names, replies) && |names| > 0
    ensures Aborts(s, listener, names[0], replies[names[0]]) ==>
      && FlushAll(s, listener, period, names, replies) == FlushOne(s, listener, period, names[0], replies[names[0]])
      && Reached(s, listener, names, replies) == 1
    ensures !Aborts(s, listener, names[0], replies[names[0]]) ==>
      && FlushAll(s, listener, period, names, replies)
         == FlushAll(FlushOne(s, listener, period, names[0], replies[names[0]]), listener, period, names[1..], replies)
      && Reached(s, listener, names, replies) == 1 + Reached(s, listener, names[1..], replies)
  {
    hide FlushOne, Aborts;
  }

  lemma OffersOfNone(s: Store, listener: bool, names: seq<string>, replies: map<string, Reply>)
    requires Replied(names, replies)
    ensures OffersOf(s, listener, names[..0], replies) == []
  {
  }

  lemma OffersJoin(a: seq<Offer>, b: seq<Offer>, c: seq<Offer>)
    ensures (a + b) + c == a + (b + c) && a + (b + []) == a + b
  {
    assert b + [] == b;
  }

  /** The flush offers, in the order of the listing, every report it reaches that can be offered at all. */
  lemma {:induction false} FlushOffers(s: Store, listener: bool, period: int, names: seq<string>, replies: map<string, Reply>)
    requires Replied(names, replies) && Distinct(names)
    ensures FlushAll(s, listener, period, names, replies).offers
         == s.offers + OffersOf(s, listener, names[..Reached(s, listener, names, replies)], replies)
    decreases |names|
  {
    if |names| == 0 {
      OffersOfNone(s, listener, names, replies);
    } else {
      var name, rest := names[0], names[1..];
      var t := FlushOne(s, listener, period, name, replies[name]);
      DistinctRest(names);
      FlushFirst(s, listener, period, names, replies);
      FlushOneOffers(s, listener, period, name, replies[name]);
      hide FlushAll, OffersOf, Reached, Distinct, FlushOne, OfferIfAny, Aborts;
      OffersOfFirst(s, listener, names, replies, Reached(s, listener, names, replies));
      var first := OfferIfAny(s, listener, name, replies[name]);
      if Aborts(s, listener, name, replies[name]) {
        OffersOfNone(s, listener, rest, replies);
        OffersJoin(s.offers, first, []);
      } else {
        FlushOffers(t, listener, period, rest, replies);
        RestUnaffected(s, t, listener, name, rest, replies);
        OffersJoin(s.offers, first, OffersOf(s, listener, rest[..Reached(s, listener, rest, replies)], replies));
      }
    }
  }

  lemma {:induction false} ReachedAll(s: Store, listener: bool, names: seq<string>, replies: map<string, Reply>)
    requires Replied(names, replies)
    ensures (forall i :: 0 <= i < |names| - 1 ==> !Aborts(s, listener, names[i], replies[names[i]]))
      <==> Reached(s, listener, names, replies) == |names|
  {
    if |names| > 1 {
      ReachedAll(s, listener, names[1..], replies);
      if forall i :: 0 <= i < |names| - 1 ==> !Aborts(s, listener, names[i], replies[names[i]]) {
        assert forall i :: 0 <= i < |names| - 2 ==> names[1..][i] == names[i + 1];
      } else {
        var i :| 0 <= i < |names| - 1 && Aborts(s, listener, names[i], replies[names[i]]);
        if i > 0 { assert names[1..][i - 1] == names[i]; }
      }
    }
  }

  /**
   * Bad reports do not stop the others: unreadable ones, refusals, exceptions and failing deletions never do. All
   * are offered exactly when no handler but the last one throws an error.
   */
  lemma NobodySkipped(s: Store, listener: bool, period: int, names: seq<string>, replies: map<string, Reply>)
    requires Replied(names, replies) && Distinct(names)
    requires forall i :: 0 <= i < |names| - 1 ==> replies[names[i]].answer != Fails
    ensures FlushAll(s, listener, period, names, replies).offers == s.offers + OffersOf(s, listener, names, replies)
  {
    FlushOffers(s, listener, period, names, replies);
    ReachedAll(s, listener, names, replies);
    assert names[..|names|] == names;
  }

  /** A report among those reached, which can be offered, is offered to the handler of its kind, whole. */
  lemma {:induction false} OfferedAmong(s: Store, listener: bool, names: seq<string>, replies: map<string, Reply>, i: nat)
    requires Replied(names, replies) && i < |names| && names[i] in s.files
    requires listener && replies[names[i]].readable && KindOf(names[i]).Some?
    ensures Offer(names[i], KindOf(names[i]).value, s.files[names[i]].content, replies[names[i]].answer == Accepts)
      in OffersOf(s, listener, names, replies)
    decreases i
  {
    hide KindOf;
    if i > 0 { OfferedAmong(s, listener, names[1..], replies, i - 1); }
  }

  /** Nothing else is offered: each offer is a listed report of a known kind, read whole for a listener. */
  lemma {:induction false} OnlyListedOffered(s: Store, listener: bool, names: seq<string>, replies: map<string, Reply>, o: Offer)
    requires Replied(names, replies) && o in OffersOf(s, listener, names, replies)
    ensures listener && o.name in names && o.name in s.files && replies[o.name].readable
    ensures KindOf(o.name) == Some(o.kind) && o.content == s.files[o.name].content && (o.accepted <==> replies[o.name].answer == Accepts)
  {
    hide KindOf;
    if !Offers(s, listener, names[0], replies[names[0]]) || o != OfferOf(s, names[0], replies[names[0]]) {
      OnlyListedOffered(s, listener, names[1..], replies, o);
    }
  }

  /** A pass removes a report exactly when it was read for a listener that took it, and could be deleted. */
  lemma TakenIff(s: Store, listener: bool, period: int, name: string, r: Reply)
    requires name in s.files
    ensures var t := FlushOne(s, listener, period, name, r);
      && (name !in t.files <==> listener && KindOf(name).Some? && r.readable && r.answer == Accepts && r.deletes)
      && (forall n :: n in s.files && n != name ==> n in t.files) && (forall n :: n in t.files ==> n in s.files && t.files[n] == s.files[n])
  {
    hide KindOf;
  }

  /** The handler of the `i`-th report is called and throws an error. */
  predicate FailsAt(s: Store, listener: bool, names: seq<string>, replies: map<string, Reply>, i: nat)
    requires Replied(names, replies)
  {
    i < |names| && names[i] in s.files && listener && KindOf(names[i]).Some?
      && replies[names[i]].readable && replies[names[i]].answer == Fails
  }

  lemma FailsAtNext(s: Store, t: Store, listener: bool, names: seq<string>, replies: map<string, Reply>, i: nat)
    requires Replied(names, replies) && Distinct(names) && |names| > 0
    requires forall n :: n != names[0] ==> (n in t.files <==> n in s.files)
    ensures FailsAt(s, listener, names, replies, i + 1) <==> FailsAt(t, listener, names[1..], replies, i)
    ensures FailsAt(s, listener, names, replies, 0) <==> Aborts(s, listener, names[0], replies[names[0]])
  {
    hide KindOf;
  }

  /** An error ends the flush exactly when the handler of some report in the directory throws one. */
  lemma {:induction false} FlushBreaksIff(s: Store, listener: bool, period: int, names: seq<string>, replies: map<string, Reply>)
    requires Replied(names, replies) && Distinct(names)
    ensures FlushBreaks(s, listener, period, names, replies) <==> exists i: nat :: FailsAt(s, listener, names, replies, i)
    decreases |names|
  {
    if |names| > 0 {
      var t := FlushOne(s, listener, period, names[0], replies[names[0]]);
      FlushOneOffers(s, listener, period, names[0], replies[names[0]]);
      DistinctRest(names);
      FlushBreaksIff(t, listener, period, names[1..], replies);
      FailsAtNext(s, t, listener, names, replies, 0);
      hide FlushOne, Aborts, FailsAt, Distinct;
      if i: nat :| FailsAt(s, listener, names, replies, i) {
        if i > 0 { FailsAtNext(s, t, listener, names, replies, i - 1); }
      }
      if i: nat :| FailsAt(t, listener, names[1..], replies, i) { FailsAtNext(s, t, listener, names, replies, i); }
    }
  }

  // Lost without having been offered, over whole runs

  /** The `i`-th of the reports is reached, overdue, and there is no listener or it cannot be read. */
  predicate PassedAt(s: Store, listener: bool, period: int, names: seq<string>, replies: map<string, Reply>, n: string, i: nat)
    requires Replied(names, replies)
  {
    i < Reached(s, listener, names, replies) && names[i] == n
      && Overdue(s, n, replies[n].now, period) && (!listener || !replies[n].readable)
  }

  /** The flush comes by the overdue report, and has no listener or cannot read it. */
  ghost predicate PassedBy(s: Store, listener: bool, period: int, names: seq<string>, replies: map<string, Reply>, n: string)
    requires Replied(names, replies)
  {
    exists i: nat :: PassedAt(s, listener, period, names, replies, n, i)
  }

  /** What is known of the directory at any time. */
  predicate Tidy(s: Store) {
    && (forall n :: n in s.files ==> n in s.written && KindOf(n).Some?)
    && (forall n :: n in s.marked ==> n in s.written)
  }

  lemma FlushOneTidy(s: Store, listener: bool, period: int, name: string, r: Reply)
    requires Tidy(s)
    ensures Tidy(FlushOne(s, listener, period, name, r))
  {
    hide KindOf;
  }

  lemma {:induction false} FlushTidy(s: Store, listener: bool, period: int, names: seq<string>, replies: map<string, Reply>)
    requires Tidy(s) && Replied(names, replies)
    ensures Tidy(FlushAll(s, listener, period, names, replies))
    decreases |names|
  {
    hide Tidy, FlushOne, Aborts;
    if |names| > 0 {
      FlushOneTidy(s, listener, period, names[0], replies[names[0]]);
      FlushTidy(FlushOne(s, listener, period, names[0], replies[names[0]]), listener, period, names[1..], replies);
    }
  }

  lemma NextTidy(s: Store, a: Action)
    requires Tidy(s) && Enabled(s, a)
    ensures Tidy(Next(s, a))
  {
    hide KindOf;
    if a.Flush? { FlushTidy(s, a.listener, a.period, a.names, a.replies); }
  }

  lemma FlushOneOther(s: Store, listener: bool, period: int, name: string, r: Reply, n: string)
    requires n != name
    ensures var t := FlushOne(s, listener, period, name, r);
      && (n in t.files <==> n in s.files) && (n in s.files ==> t.files[n] == s.files[n])
      && (n in t.marked <==> n in s.marked) && (WasOffered(t, n) <==> WasOffered(s, n)) && t.written == s.written && t.gone == s.gone
  {
    hide KindOf;
    var t := FlushOne(s, listener, period, name, r);
    if WasOffered(t, n) {
      var i :| 0 <= i < |t.offers| && t.offers[i].name == n;
      assert i < |s.offers|;
    }
    if WasOffered(s, n) {
      var i :| 0 <= i < |s.offers| && s.offers[i].name == n;
      assert t.offers[i] == s.offers[i];
    }
  }

  lemma OfferedAfter(s: Store, listener: bool, period: int, n: string, r: Reply)
    ensures var t := FlushOne(s, listener, period, n, r);
      WasOffered(s, n) || Offers(s, listener, n, r) ==> WasOffered(t, n)
  {
    hide KindOf;
    var t := FlushOne(s, listener, period, n, r);
    if Offers(s, listener, n, r) {
      assert t.offers[|s.offers|].name == n;
    } else if WasOffered(s, n) {
      var i :| 0 <= i < |s.offers| && s.offers[i].name == n;
      assert t.offers[i] == s.offers[i];
    }
  }

  /** One round for the report itself, if it does not offer it: it stays, and is marked exactly when it is passed by. */
  lemma FlushOneItself(s: Store, listener: bool, period: int, n: string, r: Reply)
    requires n in s.files && KindOf(n).Some? && !WasOffered(FlushOne(s, listener, period, n, r), n)
    ensures var t := FlushOne(s, listener, period, n, r);
      && !WasOffered(s, n) && !Aborts(s, listener, n, r) && n in t.files && t.files[n] == s.files[n]
      && (n in t.marked <==> n in s.marked || (Overdue(s, n, r.now, period) && (!listener || !r.readable)))
  {
    OfferedAfter(s, listener, period, n, r);
    hide KindOf, WasOffered;
  }

  lemma {:induction false} FlushAbsent(s: Store, listener: bool, period: int, names: seq<string>, replies: map<string, Reply>, n: string)
    requires Replied(names, replies) && n !in names
    ensures var t := FlushAll(s, listener, period, names, replies);
      && (n in t.files <==> n in s.files) && (n in s.files ==> t.files[n] == s.files[n])
      && (n in t.marked <==> n in s.marked) && (WasOffered(t, n) <==> WasOffered(s, n)) && t.written == s.written
    decreases |names|
  {
    hide FlushOne, Aborts, WasOffered;
    if |names| > 0 {
      FlushOneOther(s, listener, period, names[0], replies[names[0]], n);
      FlushAbsent(FlushOne(s, listener, period, names[0], replies[names[0]]), listener, period, names[1..], replies, n);
    }
  }

  lemma PassedFirst(s: Store, listener: bool, period: int, names: seq<string>, replies: map<string, Reply>)
    requires Replied(names, replies) && Distinct(names) && |names| > 0
    ensures PassedBy(s, listener, period, names, replies, names[0])
      <==> Overdue(s, names[0], replies[names[0]].now, period) && (!listener || !replies[names[0]].readable)
  {
    hide Aborts, Overdue;
    if Overdue(s, names[0], replies[names[0]].now, period) && (!listener || !replies[names[0]].readable) {
      assert PassedAt(s, listener, period, names, replies, names[0], 0);
    }
  }

  lemma PassedAtNext(s: Store, t: Store, listener: bool, period: int, names: seq<string>, replies: map<string, Reply>, n: string, i: nat)
    requires Replied(names, replies) && |names| > 0 && n != names[0] && !Aborts(s, listener, names[0], replies[names[0]])
    requires Reached(t, listener, names[1..], replies) == Reached(s, listener, names[1..], replies)
    requires (n in t.files <==> n in s.files) && (n in s.files ==> t.files[n] == s.files[n])
    ensures PassedAt(s, listener, period, names, replies, n, i) ==> i > 0
    ensures PassedAt(s, listener, period, names, replies, n, i + 1) <==> PassedAt(t, listener, period, names[1..], replies, n, i)
  {
    hide Aborts;
  }

  lemma PassedLater(s: Store, t: Store, listener: bool, period: int, names: seq<string>, replies: map<string, Reply>, n: string)
    requires Replied(names, replies) && Distinct(names) && |names| > 0 && n != names[0]
    requires !Aborts(s, listener, names[0], replies[names[0]])
    requires t == FlushOne(s, listener, period, names[0], replies[names[0]])
    ensures PassedBy(s, listener, period, names, replies, n) <==> PassedBy(t, listener, period, names[1..], replies, n)
  {
    assert Replied(names[1..], replies);
    FlushOneOffers(s, listener, period, names[0], replies[names[0]]);
    DistinctRest(names);
    RestUnaffected(s, t, listener, names[0], names[1..], replies);
    hide FlushOne, Aborts, PassedAt, Reached, Replied, Distinct;
    if PassedBy(s, listener, period, names, replies, n) {
      var i: nat :| PassedAt(s, listener, period, names, replies, n, i);
      PassedAtNext(s, t, listener, period, names, replies, n, i);
      PassedAtNext(s, t, listener, period, names, replies, n, i - 1);
    }
    if PassedBy(t, listener, period, names[1..], replies, n) {
      var i: nat :| PassedAt(t, listener, period, names[1..], replies, n, i);
      PassedAtNext(s, t, listener, period, names, replies, n, i);
    }
  }

  lemma {:induction false} FlushUnoffered(s: Store, listener: bool, period: int, names: seq<string>, replies: map<string, Reply>, n: string)
    requires Replied(names, replies) && Distinct(names) && n in s.files && KindOf(n).Some?
    requires !WasOffered(FlushAll(s, listener, period, names, replies), n)
    ensures var t := FlushAll(s, listener, period, names, replies);
      && !WasOffered(s, n) && n in t.files && t.written == s.written
      && (n in t.marked <==> n in s.marked || PassedBy(s, listener, period, names, replies, n))
    decreases |names|
  {
    hide FlushOne, Aborts, WasOffered, KindOf, Distinct, Overdue;
    if |names| > 0 {
      var name, r := names[0], replies[names[0]];
      var t := FlushOne(s, listener, period, name, r);
      assert name !in names[1..] && Distinct(names[1..]) by { DistinctRest(names); }
      SameLedger(s, listener, period, name, r);
      if name == n {
        FlushAbsent(t, listener, period, names[1..], replies, n);
        FlushOneItself(s, listener, period, n, r);
        PassedFirst(s, listener, period, names, replies);
      } else {
        FlushOneOther(s, listener, period, name, r, n);
        if Aborts(s, listener, name, r) {
          NotReached(s, listener, period, names, replies, n);
        } else {
          FlushUnoffered(t, listener, period, names[1..], replies, n);
          PassedLater(s, t, listener, period, names, replies, n);
        }
      }
    } else {
      hide *;
      NoNames(s, listener, period, names, replies, n);
    }
  }

  lemma SameLedger(s: Store, listener: bool, period: int, name: string, r: Reply)
    ensures FlushOne(s, listener, period, name, r).written == s.written
  {
  }

  lemma NoNames(s: Store, listener: bool, period: int, names: seq<string>, replies: map<string, Reply>, n: string)
    requires |names| == 0
    ensures FlushAll(s, listener, period, names, replies) == s && !PassedBy(s, listener, period, names, replies, n)
  {
  }

  /** An error at the first report keeps the flush from any other. */
  lemma NotReached(s: Store, listener: bool, period: int, names: seq<string>, replies: map<string, Reply>, n: string)
    requires Replied(names, replies) && |names| > 0 && n != names[0] && Aborts(s, listener, names[0], replies[names[0]])
    ensures !PassedBy(s, listener, period, names, replies, n)
  {
    hide Aborts;
  }

  lemma {:induction false} FlushShrinks(s: Store, listener: bool, period: int, names: seq<string>, replies: map<string, Reply>)
    requires Replied(names, replies)
    ensures var t := FlushAll(s, listener, period, names, replies);
      t.written == s.written && (forall n :: n in t.files ==> n in s.files)
    decreases |names|
  {
    if |names| > 0 {
      SameLedger(s, listener, period, names[0], replies[names[0]]);
      FilesShrink(s, listener, period, names[0], replies[names[0]]);
      hide FlushOne, Aborts;
      FlushShrinks(FlushOne(s, listener, period, names[0], replies[names[0]]), listener, period, names[1..], replies);
    }
  }

  lemma FilesShrink(s: Store, listener: bool, period: int, name: string, r: Reply)
    ensures forall n :: n in FlushOne(s, listener, period, name, r).files ==> n in s.files
  {
    hide KindOf;
  }

  lemma OffersStay(s: Store, t: Store, n: string)
    requires s.offers <= t.offers && WasOffered(s, n)
    ensures WasOffered(t, n)
  {
    var i :| 0 <= i < |s.offers| && s.offers[i].name == n;
    assert t.offers[i] == s.offers[i];
  }

  /** Nothing that was written or offered is forgotten. */
  lemma NextRemembers(s: Store, a: Action, n: string)
    requires Enabled(s, a)
    ensures n in s.written ==> n in Next(s, a).written
    ensures WasOffered(s, n) ==> WasOffered(Next(s, a), n)
  {
    match a {
      case Flush(listener, period, names, replies) =>
        FlushShrinks(s, listener, period, names, replies);
        FlushOffers(s, listener, period, names, replies);
        hide WasOffered, FlushAll;
        if WasOffered(s, n) { OffersStay(s, Next(s, a), n); }
      case _ =>
        hide WasOffered;
        if WasOffered(s, n) { OffersStay(s, Next(s, a), n); }
    }
  }

  lemma {:induction false} RunLast(s: Store, actions: seq<Action>)
    requires |actions| > 0 && Run(s, actions).Some?
    ensures var init, last := actions[..|actions| - 1], actions[|actions| - 1];
      && Run(s, init).Some? && Enabled(Run(s, init).value, last)
      && Run(s, actions) == Some(Next(Run(s, init).value, last))
    decreases |actions|
  {
    hide Enabled, Next;
    var init := actions[..|actions| - 1];
    if |actions| > 1 {
      assert init[1..] == actions[1..][..|actions| - 2] && init[0] == actions[0];
      RunLast(Next(s, actions[0]), actions[1..]);
    } else {
      assert actions[1..] == [];
      assert Run(Next(s, actions[0]), []) == Some(Next(s, actions[0]));
    }
  }

  /** Some flush of the run so far came by the overdue report without a listener, or could not read it. */
  ghost predicate DueIn(actions: seq<Action>, n: string) {
    |actions| > 0 &&
    var init, last := actions[..|actions| - 1], actions[|actions| - 1];
    DueIn(init, n)
    || (last.Flush? && Run(EMPTY, init).Some? && Replied(last.names, last.replies)
        && PassedBy(Run(EMPTY, init).value, last.listener, last.period, last.names, last.replies, n))
  }

  /** And the process has exited after that. */
  ghost predicate LostIn(actions: seq<Action>, n: string) {
    |actions| > 0 &&
    (LostIn(actions[..|actions| - 1], n) || (actions[|actions| - 1] == Exit && DueIn(actions[..|actions| - 1], n)))
  }

  lemma {:induction false} RunTidy(actions: seq<Action>)
    requires Run(EMPTY, actions).Some?
    ensures Tidy(Run(EMPTY, actions).value)
    decreases |actions|
  {
    hide Tidy, Enabled, Next, Run;
    if |actions| > 0 {
      RunLast(EMPTY, actions);
      RunTidy(actions[..|actions| - 1]);
      NextTidy(Run(EMPTY, actions[..|actions| - 1]).value, actions[|actions| - 1]);
    } else {
      TidyStart(actions);
    }
  }

  lemma TidyStart(actions: seq<Action>)
    requires |actions| == 0
    ensures Run(EMPTY, actions) == Some(EMPTY) && Tidy(EMPTY)
  {
  }

  lemma {:induction false} NotYetDue(actions: seq<Action>, n: string)
    requires Run(EMPTY, actions).Some? && n !in Run(EMPTY, actions).value.written
    ensures !DueIn(actions, n) && !LostIn(actions, n)
    decreases |actions|
  {
    if |actions| > 0 {
      var init, last := actions[..|actions| - 1], actions[|actions| - 1];
      RunLast(EMPTY, actions);
      NextRemembers(Run(EMPTY, init).value, last, n);
      RunTidy(init);
      hide Run, Next, Enabled, KindOf, Reached, Replied;
      NotYetDue(init, n);
    }
  }

  /** What one step makes of a report that it does not offer. */
  lemma UnofferedStep(s: Store, a: Action, n: string)
    requires Tidy(s) && Enabled(s, a) && n in s.written && !WasOffered(Next(s, a), n)
    ensures !WasOffered(s, n) && (n !in s.files ==> n !in Next(s, a).files)
    ensures n in s.files && a.Flush? ==>
      n in Next(s, a).files && (n in Next(s, a).marked <==> n in s.marked || PassedBy(s, a.listener, a.period, a.names, a.replies, n))
    ensures n in s.files && a.Exit? ==> (n in Next(s, a).files <==> n !in s.marked) && n !in Next(s, a).marked
    ensures n in s.files && a.Write? ==> n in Next(s, a).files && (n in Next(s, a).marked <==> n in s.marked)
  {
    NextRemembers(s, a, n);
    hide WasOffered, PassedBy, KindOf;
    if a.Flush? {
      FlushShrinks(s, a.listener, a.period, a.names, a.replies);
      hide FlushAll;
      if n in s.files { FlushUnoffered(s, a.listener, a.period, a.names, a.replies, n); }
    }
  }

  lemma NewReport(s: Store, a: Action, n: string)
    requires Tidy(s) && Enabled(s, a) && n !in s.written && n in Next(s, a).written
    ensures a.Write? && n in Next(s, a).files && n !in Next(s, a).marked
  {
    hide KindOf;
    if a.Flush? { FlushShrinks(s, a.listener, a.period, a.names, a.replies); }
  }

  /**
   * Over every run: a report that was never offered is gone if and only if an exit came after a flush that passed
   * it by, overdue, because there was no listener or it could not be read.
   */
  lemma {:induction false} LostIff(actions: seq<Action>, n: string)
    requires Run(EMPTY, actions).Some?
    requires var s := Run(EMPTY, actions).value; n in s.written && !WasOffered(s, n)
    ensures var s := Run(EMPTY, actions).value;
      && (n !in s.files <==> LostIn(actions, n))
      && (n in s.files ==> (n in s.marked <==> DueIn(actions, n)))
    decreases |actions|
  {
    if |actions| == 0 {
      TidyStart(actions);
    } else {
      var init, last := actions[..|actions| - 1], actions[|actions| - 1];
      RunLast(EMPTY, actions);
      RunTidy(init);
      var s := Run(EMPTY, init).value;
      if n in s.written {
        UnofferedStep(s, last, n);
        hide Run, Next, WasOffered, PassedBy, Tidy;
        RepliedWhenEnabled(s, last);
        hide Enabled;
        LostIff(init, n);
      } else {
        NewReport(s, last, n);
        NotYetDue(init, n);
      }
    }
  }

  lemma RepliedWhenEnabled(s: Store, a: Action)
    requires Enabled(s, a)
    ensures a.Flush? ==> Replied(a.names, a.replies)
  {
  }

  // The code

  class Agent {
    const dir: ReportsDirectory
    const listener: bool
    const expirationPeriod: int
    var marked: set<string>
    var locked: bool
    ghost var written: map<string, string>
    ghost var offers: seq<Offer>
    ghost var marks: seq<Mark>
    ghost var gone: set<string>

    ghost function View(): Store
      reads this, dir
    {
      Store(dir.files, marked, written, offers, marks, gone)
    }

    constructor (dir: ReportsDirectory, listener: bool, expirationPeriod: int)
      ensures this.dir == dir && this.listener == listener && this.expirationPeriod == expirationPeriod && !locked
      ensures marked == {} && offers == [] && marks == [] && gone == {}
      ensures written == map n | n in dir.files :: dir.files[n].content
    {
      this.dir, this.listener, this.expirationPeriod := dir, listener, expirationPeriod;
      marked, locked, offers, marks, gone := {}, false, [], [], {};
      written := map n | n in dir.files :: dir.files[n].content;
    }

    /** Answers whether the report is gone; an exception or an error leaves it through `thrown`. */
    method PostReport(report: string, r: Reply) returns (posted: bool, thrown: Option<Answer>)
      modifies this`offers, dir
      ensures View() == Posted(old(View()), listener, report, r)
      ensures posted <==> Removes(old(View()), listener, report, r)
      ensures (thrown == Some(Fails) <==> Aborts(old(View()), listener, report, r)) && (thrown.Some? ==> !posted)
    {
      hide HasPrefix;
      posted, thrown := false, None;
      if report in dir.files {
        if listener {
          var consumed := false;
          var kind := KindOf(report);
          if kind.Some? {
            if !r.readable {
              return false, Some(Throws);
            }
            offers := offers + [Offer(report, kind.value, dir.files[report].content, r.answer == Accepts)];
            if r.answer == Throws || r.answer == Fails {
              return false, Some(r.answer);
            }
            consumed := r.answer == Accepts;
          }
          if consumed {
            if r.deletes {
              dir.files := dir.files - {report};
            }
          }
        }
        posted := report !in dir.files;
      }
    }

    /** The listing is missing when the directory is not there or cannot be read. The lock is released on every way out. */
    method FlushPendingReports(listing: Option<seq<string>>, replies: map<string, Reply>) returns (error: bool)
      requires !locked && (listing.Some? ==> Replied(listing.value, replies))
      modifies this, dir
      ensures !locked
      ensures error <==> listing.Some? && FlushBreaks(old(View()), listener, expirationPeriod, listing.value, replies)
      ensures View() == if listing.Some? then FlushAll(old(View()), listener, expirationPeriod, listing.value, replies) else old(View())
    {
      hide Posted, Removes, Aborts;
      locked := true;
      error := false;
      if listing.Some? {
        var names := listing.value;
        var i := 0;
        while i < |names| && !error
          invariant 0 <= i <= |names| && locked
          invariant !error ==>
            FlushAll(View(), listener, expirationPeriod, names[i..], replies) == FlushAll(old(View()), listener, expirationPeriod, names, replies)
          invariant !error ==>
            FlushBreaks(View(), listener, expirationPeriod, names[i..], replies) == FlushBreaks(old(View()), listener, expirationPeriod, names, replies)
          invariant error ==> FlushBreaks(old(View()), listener, expirationPeriod, names, replies)
          invariant error ==> View() == FlushAll(old(View()), listener, expirationPeriod, names, replies)
          decreases |names| - i, !error
        {
          ghost var s := View();
          assert names[i..][0] == names[i] && names[i..][1..] == names[i + 1..];
          var r := replies[names[i]];
          var posted, thrown := PostReport(names[i], r);
          if thrown == Some(Fails) {
            error := true;
          } else if !posted {
            if names[i] in dir.files && dir.files[names[i]].modified < r.now - expirationPeriod * 1000 {
              marked := marked + {names[i]};
              marks := marks + [Mark(names[i], dir.files[names[i]].modified, r.now, expirationPeriod, Offers(s, listener, names[i], r))];
            }
          }
          assert View() == FlushOne(s, listener, expirationPeriod, names[i], r);
          i := i + 1;
        }
      }
      locked := false;
    }
  }
}
