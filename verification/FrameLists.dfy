/** The list builders for stack frames: every entry goes in at the index it names. */
module FrameLists {
  import opened Numerals
  import opened Json
  import opened JsonAccess
  import opened Readers
  import opened Report
  import opened Emitter
  import opened ReportValue
  import opened RoundTrip

  /** Insertion throws outside the list's bounds. */
  predicate InBounds(i: int, size: nat) { 0 <= i <= size }

  function Inserted<T>(list: seq<T>, i: nat, x: T): seq<T>
    requires i <= |list|
  {
    list[..i] + [x] + list[i..]
  }

  function Fallback(item: Json): StackTraceElement { StackTraceElement(TextOf(item), UNKNOWN, UNKNOWN, -2) }

  /** What an entry contributes to a list of the given size, and where it goes. */
  function Contribution(item: Json, size: nat): (r: (StackTraceElement, nat))
    ensures r.1 <= size
  {
    match item
    case Object(members) =>
      var i := OptInt(members, "index", size);
      if InBounds(i, size) then (ElementOf(members), i) else (Fallback(item), size)
    case _ => (Fallback(item), size)
  }

  /** An object goes where its index says, if that is within the list, or to the end without one; else the fallback does. */
  lemma ContributionCases(item: Json, size: nat)
    requires size < INT_LIMIT
    ensures var (element, at) := Contribution(item, size);
      var i := if item.Object? then AsInt(Lookup(item.members, "index")) else None;
      && (item.Object? && i.None? ==> element == ElementOf(item.members) && at == size)
      && (i.Some? && 0 <= i.value <= size ==> element == ElementOf(item.members) && at == i.value)
      && (!item.Object? || (i.Some? && (i.value < 0 || i.value > size)) ==>
            element == StackTraceElement(TextOf(item), "<unknown>", "<unknown>", -2) && at == size)
  {
    hide ElementOf, TextOf, AsInt, Lookup;
  }

  /** What was there before keeps its order, around the new element. */
  lemma InsertedAt<T>(list: seq<T>, i: nat, x: T)
    requires i <= |list|
    ensures |Inserted(list, i, x)| == |list| + 1 && Inserted(list, i, x)[i] == x
    ensures forall k :: 0 <= k < i ==> Inserted(list, i, x)[k] == list[k]
    ensures forall k :: i <= k < |list| ==> Inserted(list, i, x)[k + 1] == list[k]
  {
  }

  function Listing(items: seq<Json>): seq<StackTraceElement> {
    if |items| == 0 then []
    else
      var init, last := Listing(items[..|items| - 1]), items[|items| - 1];
      if last.Null? then init
      else
        var (element, i) := Contribution(last, |init|);
        Inserted(init, i, element)
  }

  /** The frame of an entry, or the fallback when it is no object or names an index out of bounds. */
  method EntryFrame(item: Json, size: nat) returns (frame: NativeStackFrame, index: nat)
    requires !item.Null?
    ensures fresh(frame) && (frame.delegate, index) == Contribution(item, size)
  {
    hide ElementOf, TextOf, OptInt;
    if item.Object? {
      frame := new NativeStackFrame();
      frame.FromJson(item.members);
      var i := OptInt(item.members, "index", size);
      if 0 <= i <= size {
        return frame, i;
      }
    }
    frame := new NativeStackFrame(TextOf(item));
    index := size;
  }

  method AllFrames(items: Option<seq<Json>>) returns (frames: seq<StackTraceElement>)
    ensures frames == Listing(Or(items, []))
  {
    hide Contribution;
    frames := [];
    if items.Some? {
      for i := 0 to |items.value|
        invariant frames == Listing(items.value[..i])
      {
        assert items.value[..i + 1][..i] == items.value[..i];
        if !items.value[i].Null? {
          var frame, index := EntryFrame(items.value[i], |frames|);
          frames := frames[..index] + [frame.delegate] + frames[index..];
        }
      }
      assert items.value[..|items.value|] == items.value;
    }
  }

  ghost predicate Delegates(frames: seq<NativeStackFrame>, elements: seq<StackTraceElement>)
    reads frames
  {
    |frames| == |elements| && forall i :: 0 <= i < |frames| ==> frames[i].delegate == elements[i]
  }

  lemma DelegatesInserted(frames: seq<NativeStackFrame>, elements: seq<StackTraceElement>, i: nat, frame: NativeStackFrame)
    requires Delegates(frames, elements) && i <= |frames|
    ensures |frames| == |elements| && Delegates(Inserted(frames, i, frame), Inserted(elements, i, frame.delegate))
  {
  }

  /** The same list, of frame objects. */
  method AllNativeFrames(items: Option<seq<Json>>) returns (frames: seq<NativeStackFrame>)
    ensures fresh(frames) && Delegates(frames, Listing(Or(items, [])))
  {
    hide Contribution;
    frames := [];
    if items.Some? {
      for i := 0 to |items.value|
        invariant fresh(frames) && Delegates(frames, Listing(items.value[..i]))
      {
        assert items.value[..i + 1][..i] == items.value[..i];
        if !items.value[i].Null? {
          var frame, index := EntryFrame(items.value[i], |frames|);
          DelegatesInserted(frames, Listing(items.value[..i]), index, frame);
          frames := frames[..index] + [frame] + frames[index..];
        }
      }
      assert items.value[..|items.value|] == items.value;
    }
  }

  // Conservation

  /** What each entry that is not null contributes: the list before the `k`-th of them has `k` elements. */
  function Contributions(entries: seq<Json>): (r: seq<StackTraceElement>)
    ensures |r| == |entries| && forall k :: 0 <= k < |r| ==> r[k] == Contribution(entries[k], k).0
  {
    seq(|entries|, k requires 0 <= k < |entries| => Contribution(entries[k], k).0)
  }

  lemma InsertedConserves<T>(list: seq<T>, i: nat, x: T)
    requires i <= |list|
    ensures multiset(Inserted(list, i, x)) == multiset(list) + multiset{x}
  {
    assert list == list[..i] + list[i..];
  }

  lemma ContributionsAppend(entries: seq<Json>, item: Json)
    ensures Contributions(entries + [item]) == Contributions(entries) + [Contribution(item, |entries|).0]
  {
    hide Contribution;
  }

  /** Whatever indices the entries name, there is one element for each that is not null: its own, or the fallback. */
  lemma {:induction false} EntriesConserved(items: seq<Json>)
    ensures |Listing(items)| == |NonNulls(items)|
    ensures multiset(Listing(items)) == multiset(Contributions(NonNulls(items)))
  {
    hide Contribution, Contributions, Inserted;
    if |items| > 0 {
      var init, last := items[..|items| - 1], items[|items| - 1];
      EntriesConserved(init);
      if !last.Null? {
        var (element, i) := Contribution(last, |Listing(init)|);
        InsertedConserves(Listing(init), i, element);
        ContributionsAppend(NonNulls(init), last);
        InsertedLength(Listing(init), i, element);
      } else {
        assert NonNulls(items) == NonNulls(init);
      }
    } else {
      assert Contributions([]) == [];
    }
  }

  lemma InsertedLength<T>(list: seq<T>, i: nat, x: T)
    requires i <= |list|
    ensures |Inserted(list, i, x)| == |list| + 1
  {
  }

  /** Entries that name their own position, or none, come out in order. */
  lemma {:induction false} InOrder(items: seq<Json>)
    requires forall i :: 0 <= i < |items| ==> items[i].Object? && OptInt(items[i].members, "index", i) == i
    ensures |Listing(items)| == |items|
    ensures forall i :: 0 <= i < |items| ==> Listing(items)[i] == ElementOf(items[i].members)
  {
    hide ElementOf, OptInt;
    if |items| > 0 { InOrder(items[..|items| - 1]); }
  }

  /** What the emitter writes for a stack is listed frame by frame. */
  lemma EmittedFramesListed(frames: seq<StackFrame>)
    requires forall i :: 0 <= i < |frames| ==> frames[i].index == i < INT_LIMIT
    ensures |Listing(FrameValues(frames))| == |frames|
    ensures forall i :: 0 <= i < |frames| ==> Listing(FrameValues(frames))[i] == RecoveredFrame(frames[i])
  {
    hide FrameMembers, ElementOf, RecoveredFrame, Listing, OptInt;
    var items := FrameValues(frames);
    forall i | 0 <= i < |frames|
      ensures items[i].Object? && OptInt(items[i].members, "index", i) == i && ElementOf(items[i].members) == RecoveredFrame(frames[i])
    {
      FrameIndexRead(frames[i]);
      FrameRecovered(frames[i]);
    }
    InOrder(items);
  }

  lemma FrameIndexRead(f: StackFrame)
    requires f.index < INT_LIMIT
    ensures forall fallback :: OptInt(FrameMembers(f), "index", fallback) == f.index
  {
    hide FrameLabel, IsInteger, IntegerValue;
    LookupAt(FrameMembers(f), 1, "index");
    PrintedInteger(f.index);
  }
}
