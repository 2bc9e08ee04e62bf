/** The unwinder callback: a fold of instruction pointers into at most a hundred frames. */
module Unwinder {
  import opened Json
  import opened Report

  /** What the build decides: a Thumb bit to clear, and the AArch64 adjustment. */
  datatype Arch = Arch(thumb: bool, aarch64: bool)

  function ClearThumb(ip: Word, arch: Arch): Word { if arch.thumb then ip - ip % 2 else ip }

  /** The address recorded for an instruction pointer; the crash address itself is not moved. */
  function Adjusted(ip: Word, crash: Word, arch: Arch): Word {
    ClearThumb(if ip != crash && ip > 0 && arch.aarch64 then (ip - 4) % WORD else ip, arch)
  }

  // The specification: a suffix, a filter, a collapse, a cap

  /** The callbacks from the last one at the crash address on, or all of them. */
  function Since(ips: seq<Word>, crash: Word): seq<Word> {
    if |ips| == 0 then []
    else if ips[|ips| - 1] == crash then [crash]
    else Since(ips[..|ips| - 1], crash) + [ips[|ips| - 1]]
  }

  function AdjustedAll(ips: seq<Word>, crash: Word, arch: Arch): (r: seq<Word>)
    ensures |r| == |ips|
  {
    seq(|ips|, i requires 0 <= i < |ips| => Adjusted(ips[i], crash, arch))
  }

  function NonNull(s: seq<Word>): seq<Word> {
    if |s| == 0 then []
    else NonNull(s[..|s| - 1]) + (if s[|s| - 1] != 0 then [s[|s| - 1]] else [])
  }

  /** Every entry that differs from the one right before it. */
  function Collapsed(s: seq<Word>): seq<Word> {
    if |s| <= 1 then s
    else Collapsed(s[..|s| - 1]) + (if s[|s| - 1] != s[|s| - 2] then [s[|s| - 1]] else [])
  }

  /** The first entry is kept whatever it is, later null ones are dropped, then repetitions are. */
  function Distinct(s: seq<Word>): seq<Word> {
    if |s| == 0 then [] else Kept(s[0], s[1..])
  }

  function Kept(first: Word, later: seq<Word>): seq<Word> { Collapsed([first] + NonNull(later)) }

  function Stack(ips: seq<Word>, crash: Word, arch: Arch): seq<Word> {
    Distinct(AdjustedAll(Since(ips, crash), crash, arch))
  }

  function FirstFrames(s: seq<Word>): seq<Word> { if |s| <= FRAMES_MAX then s else s[..FRAMES_MAX] }

  function Recorded(ips: seq<Word>, crash: Word, arch: Arch): seq<Word> { FirstFrames(Stack(ips, crash, arch)) }

  /** Callbacks answered with "go on" since the last restart, counting the restart. */
  function Accepted(ips: seq<Word>, crash: Word, arch: Arch): nat {
    if |ips| == 0 then 0
    else if ips[|ips| - 1] == crash then 1
    else
      var init := ips[..|ips| - 1];
      Accepted(init, crash, arch) + (if |Recorded(init, crash, arch)| < FRAMES_MAX then 1 else 0)
  }

  /** How many frames the last restart threw away. */
  function Discarded(ips: seq<Word>, crash: Word, arch: Arch): nat {
    if |ips| == 0 then 0
    else
      var init := ips[..|ips| - 1];
      if ips[|ips| - 1] == crash then |Recorded(init, crash, arch)| else Discarded(init, crash, arch)
  }

  class BacktraceState {
    const arch: Arch
    var frames: array<Word>
    var frameCnt: nat
    var skippedFrames: int
    var crashIp: Word
    ghost var history: seq<Word>

    ghost predicate Valid()
      reads this, frames
    {
      && frames.Length == FRAMES_MAX && frameCnt <= FRAMES_MAX
      && frames[..frameCnt] == Recorded(history, crashIp, arch)
      && frameCnt + skippedFrames == Accepted(history, crashIp, arch) + Discarded(history, crashIp, arch)
    }

    constructor (arch: Arch)
      ensures this.arch == arch && fresh(frames) && Valid() && history == [] && frameCnt == 0
    {
      this.arch := arch;
      frames := new Word[FRAMES_MAX](_ => 0);
      frameCnt, skippedFrames, crashIp, history := 0, 0, 0, [];
    }

    method RecordFrame(address: Word) returns (ok: bool)
      requires frames.Length == FRAMES_MAX && frameCnt <= FRAMES_MAX
      modifies this`frameCnt, this`skippedFrames, frames
      ensures frameCnt <= FRAMES_MAX
      ensures ok <==> old(frameCnt) < FRAMES_MAX
      ensures frames[..frameCnt] == if ok then Extended(old(frames[..frameCnt]), ClearThumb(address, arch)) else old(frames[..frameCnt])
      ensures frameCnt + skippedFrames == old(frameCnt + skippedFrames) + (if ok then 1 else 0)
    {
      if frameCnt >= FRAMES_MAX {
        return false;
      }
      var ip := ClearThumb(address, arch);
      if frameCnt > 0 {
        if ip == 0 {
          skippedFrames := skippedFrames + 1;
          return true;
        }
        if ip == frames[frameCnt - 1] {
          skippedFrames := skippedFrames + 1;
          return true;
        }
      }
      frames[frameCnt] := ip;
      frameCnt := frameCnt + 1;
      assert frames[..frameCnt] == frames[..frameCnt - 1] + [ip];
      return true;
    }

    /** One callback; `ok` is false when it ends the unwinding. */
    method Callback(address: Word) returns (ok: bool)
      requires Valid()
      modifies this`frameCnt, this`skippedFrames, this`history, frames
      ensures Valid() && history == old(history) + [address]
      ensures ok <==> address == crashIp || old(frameCnt) < FRAMES_MAX
    {
      hide Recorded, Accepted, Discarded, Adjusted, Extended, ClearThumb;
      Step(history, address, crashIp, arch);
      AdjustedIs(address, crashIp, arch);
      ExtendedNone(Adjusted(address, crashIp, arch));
      var ip := address;
      if ip == crashIp {
        skippedFrames := frameCnt;
        frameCnt := 0;
        assert frames[..frameCnt] == [];
      } else if ip > 0 {
        if arch.aarch64 {
          ip := (ip - 4) % WORD;
        }
      }
      ok := RecordFrame(ip);
      history := history + [address];
    }

    /**
     * The whole walk: callbacks for the stream of instruction pointers until one ends it. A null context
     * unwinds nothing.
     */
    method Unwind(context: Option<Word>, stream: seq<Word>) returns (consumed: nat)
      requires frames.Length == FRAMES_MAX
      modifies this, frames
      ensures frames == old(frames) && (context.Some? ==> Valid())
      ensures consumed <= |stream|
      ensures context.Some? ==> frameCnt <= FRAMES_MAX && frames[..frameCnt] == Recorded(stream[..consumed], context.value, arch)
      ensures context.Some? && consumed < |stream| ==> frameCnt == FRAMES_MAX && stream[consumed - 1] != context.value
      ensures context.None? ==> consumed == 0 && frameCnt == old(frameCnt) && frames[..] == old(frames[..])
    {
      hide Recorded, Accepted, Discarded;
      consumed := 0;
      if context.None? {
        return;
      }
      skippedFrames := 0;
      frameCnt := 0;
      crashIp := context.value;
      history := [];
      NothingRecorded(crashIp, arch);
      assert stream[..0] == [] && frames[..0] == [];
      var ok := true;
      while ok && consumed < |stream|
        invariant consumed <= |stream| && Valid() && frames == old(frames)
        invariant crashIp == context.value && history == stream[..consumed]
        invariant !ok ==> frameCnt == FRAMES_MAX && consumed > 0 && stream[consumed - 1] != crashIp
        decreases |stream| - consumed
      {
        ok := Callback(stream[consumed]);
        consumed := consumed + 1;
        if !ok { FullStays(stream[..consumed - 1], stream[consumed - 1], crashIp, arch); }
        assert stream[..consumed] == stream[..consumed - 1] + [stream[consumed - 1]];
      }
    }
  }

  /** What recording one more address does to the frames, while there is room. */
  function Extended(frames: seq<Word>, ip: Word): seq<Word> {
    if |frames| > 0 && (ip == 0 || ip == frames[|frames| - 1]) then frames else frames + [ip]
  }

  lemma NothingRecorded(crash: Word, arch: Arch)
    ensures Recorded([], crash, arch) == [] && Accepted([], crash, arch) == 0 && Discarded([], crash, arch) == 0
  {
  }

  lemma AdjustedIs(ip: Word, crash: Word, arch: Arch)
    ensures Adjusted(ip, crash, arch) == ClearThumb(if ip != crash && ip > 0 && arch.aarch64 then (ip - 4) % WORD else ip, arch)
  {
  }

  /** `a` is the address with its last bit clear, where the build has a Thumb bit there, or the address itself. */
  predicate Cleared(a: Word, ip: Word, arch: Arch) {
    if arch.thumb then a % 2 == 0 && (a == ip || a == ip - 1) else a == ip
  }

  lemma ThumbCleared(ip: Word, arch: Arch)
    ensures Cleared(ClearThumb(ip, arch), ip, arch)
  {
  }

  /** Only on AArch64 is an address moved, four bytes down, and neither the crash address nor a null one. */
  lemma AdjustedSays(ip: Word, crash: Word, arch: Arch)
    ensures !arch.aarch64 || ip == crash || ip == 0 ==> Cleared(Adjusted(ip, crash, arch), ip, arch)
    ensures arch.aarch64 && ip != crash && ip != 0 ==>
      exists moved: Word :: (moved + 4) % WORD == ip && Cleared(Adjusted(ip, crash, arch), moved, arch)
  {
    if arch.aarch64 && ip != crash && ip != 0 {
      var moved: Word := (ip - 4) % WORD;
      assert (moved + 4) % WORD == ip;
      AdjustedIs(ip, crash, arch);
      assert Adjusted(ip, crash, arch) == ClearThumb(moved, arch);
      ThumbCleared(moved, arch);
    } else {
      ThumbCleared(ip, arch);
    }
  }

  lemma ExtendedNone(ip: Word)
    ensures Extended([], ip) == [ip]
  {
  }

  // The fold refines the specification

  lemma {:induction false} CollapsedLast(s: seq<Word>)
    requires |s| > 0
    ensures |Collapsed(s)| > 0 && Collapsed(s)[|Collapsed(s)| - 1] == s[|s| - 1]
  {
    if |s| > 1 { CollapsedLast(s[..|s| - 1]); }
  }

  lemma NonNullAppend(s: seq<Word>, x: Word)
    ensures NonNull(s + [x]) == NonNull(s) + (if x != 0 then [x] else [])
  {
    assert (s + [x])[..|s|] == s;
  }

  lemma CollapsedAppend(s: seq<Word>, x: Word)
    requires |s| > 0
    ensures Collapsed(s + [x]) == if x == s[|s| - 1] then Collapsed(s) else Collapsed(s) + [x]
  {
    assert (s + [x])[..|s|] == s;
  }

  lemma ExtendedBy(s: seq<Word>, x: Word)
    requires |s| > 0
    ensures x == 0 ==> Extended(s, x) == s
    ensures x != 0 ==> Extended(s, x) == if x == s[|s| - 1] then s else s + [x]
  {
  }

  lemma KeptAppend(first: Word, later: seq<Word>, x: Word)
    ensures Kept(first, later) != [] && Kept(first, later + [x]) == Extended(Kept(first, later), x)
  {
    var t := [first] + NonNull(later);
    assert Kept(first, later) == Collapsed(t);
    assert Kept(first, later + [x]) == Collapsed([first] + NonNull(later + [x]));
    hide *;
    CollapsedLast(t);
    NonNullAppend(later, x);
    ExtendedBy(Collapsed(t), x);
    OneMore(first, NonNull(later), x);
    if x != 0 { CollapsedAppend(t, x); }
  }

  lemma OneMore(first: Word, s: seq<Word>, x: Word)
    ensures [first] + (s + [x]) == ([first] + s) + [x] && s + [] == s
    ensures ([first] + s)[|[first] + s| - 1] == if |s| > 0 then s[|s| - 1] else first
  {
  }

  lemma DistinctAppend(s: seq<Word>, x: Word)
    ensures Distinct(s + [x]) == Extended(Distinct(s), x)
  {
    if |s| == 0 {
      assert (s + [x])[1..] == [];
      assert Kept(x, []) == [x];
    } else {
      KeptAppend(s[0], s[1..], x);
      hide Kept;
      assert (s + [x])[1..] == s[1..] + [x];
    }
  }

  lemma SinceAppend(ips: seq<Word>, ip: Word, crash: Word)
    ensures Since(ips + [ip], crash) == if ip == crash then [crash] else Since(ips, crash) + [ip]
  {
    assert (ips + [ip])[..|ips|] == ips;
  }

  lemma StackAppend(ips: seq<Word>, ip: Word, crash: Word, arch: Arch)
    ensures Stack(ips + [ip], crash, arch)
         == Extended(if ip == crash then [] else Stack(ips, crash, arch), Adjusted(ip, crash, arch))
  {
    SinceAppend(ips, ip, crash);
    var s := if ip == crash then [] else Since(ips, crash);
    assert AdjustedAll(s + [ip], crash, arch) == AdjustedAll(s, crash, arch) + [Adjusted(ip, crash, arch)];
    DistinctAppend(AdjustedAll(s, crash, arch), Adjusted(ip, crash, arch));
    assert Since(ips + [ip], crash) == s + [ip];
  }

  lemma Step(ips: seq<Word>, ip: Word, crash: Word, arch: Arch)
    ensures ip == crash ==> Recorded(ips + [ip], crash, arch) == [Adjusted(ip, crash, arch)]
    ensures ip != crash && |Recorded(ips, crash, arch)| < FRAMES_MAX ==>
      Recorded(ips + [ip], crash, arch) == Extended(Recorded(ips, crash, arch), Adjusted(ip, crash, arch))
    ensures ip != crash && |Recorded(ips, crash, arch)| == FRAMES_MAX ==>
      Recorded(ips + [ip], crash, arch) == Recorded(ips, crash, arch)
    ensures Accepted(ips + [ip], crash, arch) ==
      if ip == crash then 1
      else Accepted(ips, crash, arch) + (if |Recorded(ips, crash, arch)| < FRAMES_MAX then 1 else 0)
    ensures Discarded(ips + [ip], crash, arch) ==
      if ip == crash then |Recorded(ips, crash, arch)| else Discarded(ips, crash, arch)
  {
    StackAppend(ips, ip, crash, arch);
    assert (ips + [ip])[..|ips|] == ips;
  }

  lemma FullStays(ips: seq<Word>, ip: Word, crash: Word, arch: Arch)
    requires |Recorded(ips, crash, arch)| == FRAMES_MAX && ip != crash
    ensures |Recorded(ips + [ip], crash, arch)| == FRAMES_MAX
  {
    Step(ips, ip, crash, arch);
  }

  // What holds of the frames after every stream

  /** The suffix of `ips` from `k` on begins at the last crash address, or is everything for want of one. */
  ghost predicate IsLastSuffix(ips: seq<Word>, crash: Word, k: nat) {
    && k <= |ips| && Since(ips, crash) == ips[k..]
    && (forall i :: k < i < |ips| ==> ips[i] != crash)
    && (if crash in ips then k < |ips| && ips[k] == crash else k == 0)
  }

  lemma {:induction false} SinceIsLastSuffix(ips: seq<Word>, crash: Word)
    ensures exists k: nat :: IsLastSuffix(ips, crash, k)
  {
    if |ips| == 0 {
      assert IsLastSuffix(ips, crash, 0);
    } else {
      var init, last := ips[..|ips| - 1], ips[|ips| - 1];
      SinceIsLastSuffix(init, crash);
      assert ips == init + [last];
      if last == crash {
        assert ips[|ips| - 1..] == [crash];
        assert IsLastSuffix(ips, crash, |ips| - 1);
      } else {
        var k: nat :| IsLastSuffix(init, crash, k);
        assert ips[k..] == init[k..] + [last];
        assert crash in ips <==> crash in init;
        assert forall i :: k < i < |ips| ==> ips[i] != crash;
        assert IsLastSuffix(ips, crash, k);
      }
    }
  }

  ghost predicate WellStacked(frames: seq<Word>) {
    && (forall i :: 0 < i < |frames| ==> frames[i] != 0)
    && (forall i :: 0 < i < |frames| ==> frames[i] != frames[i - 1])
  }

  lemma ExtendedShape(frames: seq<Word>, ip: Word)
    requires WellStacked(frames)
    ensures WellStacked(Extended(frames, ip))
    ensures Extended(frames, ip) != [] && (frames != [] ==> Extended(frames, ip)[0] == frames[0])
  {
  }

  /** No null past the first frame, no repetition, and the crash address first once it has been seen. */
  lemma RecordedShape(ips: seq<Word>, crash: Word, arch: Arch)
    ensures var r := Recorded(ips, crash, arch);
      && |r| <= 100
      && (forall i :: 0 < i < |r| ==> r[i] != 0 && r[i] != r[i - 1])
      && (crash in ips ==> r != [] && Cleared(r[0], crash, arch))
  {
    RecordedHead(ips, crash, arch);
    ThumbCleared(crash, arch);
    hide Recorded, ClearThumb;
  }

  /** What is recorded came from the callbacks. */
  lemma {:induction false} RecordedFrom(ips: seq<Word>, crash: Word, arch: Arch, a: Word)
    requires a in Recorded(ips, crash, arch)
    ensures exists i :: 0 <= i < |ips| && a == Adjusted(ips[i], crash, arch)
  {
    if |ips| == 0 {
      NothingRecorded(crash, arch);
    } else {
      var init, last := ips[..|ips| - 1], ips[|ips| - 1];
      assert ips == init + [last];
      Step(init, last, crash, arch);
      RecordedBound(init, crash, arch);
      hide Recorded, Adjusted, Accepted, Discarded;
      if a != Adjusted(ips[|ips| - 1], crash, arch) {
        RecordedFrom(init, crash, arch, a);
        var i :| 0 <= i < |init| && a == Adjusted(init[i], crash, arch);
        assert ips[i] == init[i];
      }
    }
  }

  /** And nothing that came since the last crash address is missing, but null addresses and what a full stack refused. */
  lemma {:induction false} RecordedAll(ips: seq<Word>, crash: Word, arch: Arch, i: nat)
    requires i < |ips| && (forall j :: i < j < |ips| ==> ips[j] != crash)
    requires |Recorded(ips, crash, arch)| < 100 && (Adjusted(ips[i], crash, arch) != 0 || ips[i] == crash)
    ensures Adjusted(ips[i], crash, arch) in Recorded(ips, crash, arch)
  {
    var init, last := ips[..|ips| - 1], ips[|ips| - 1];
    assert ips == init + [last];
    Step(init, last, crash, arch);
    RecordedBound(init, crash, arch);
    hide Recorded, Adjusted, Accepted, Discarded;
    if i < |ips| - 1 {
      assert last != crash && init[i] == ips[i];
      RecordedAll(init, crash, arch, i);
    }
  }

  lemma {:induction false} RecordedHead(ips: seq<Word>, crash: Word, arch: Arch)
    ensures |Recorded(ips, crash, arch)| <= FRAMES_MAX && WellStacked(Recorded(ips, crash, arch))
    ensures crash in ips ==> Recorded(ips, crash, arch) != [] && Recorded(ips, crash, arch)[0] == ClearThumb(crash, arch)
  {
    if |ips| > 0 {
      var init, last := ips[..|ips| - 1], ips[|ips| - 1];
      RecordedHead(init, crash, arch);
      assert ips == init + [last];
      ShapeStep(init, last, crash, arch);
    }
  }

  lemma ShapeStep(init: seq<Word>, last: Word, crash: Word, arch: Arch)
    requires |Recorded(init, crash, arch)| <= FRAMES_MAX && WellStacked(Recorded(init, crash, arch))
    requires crash in init ==> Recorded(init, crash, arch) != [] && Recorded(init, crash, arch)[0] == ClearThumb(crash, arch)
    ensures var r := Recorded(init + [last], crash, arch);
      && |r| <= FRAMES_MAX && WellStacked(r)
      && (crash in init + [last] ==> r != [] && r[0] == ClearThumb(crash, arch))
  {
    hide *;
    Step(init, last, crash, arch);
    AdjustedIs(crash, crash, arch);
    ExtendedShape(Recorded(init, crash, arch), Adjusted(last, crash, arch));
    RecordedBound(init + [last], crash, arch);
    Single(Adjusted(crash, crash, arch));
  }

  lemma RecordedBound(ips: seq<Word>, crash: Word, arch: Arch)
    ensures |Recorded(ips, crash, arch)| <= FRAMES_MAX
  {
  }

  lemma Single(ip: Word)
    ensures WellStacked([ip])
  {
  }
}
