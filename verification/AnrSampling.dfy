/** What the looper watchdog makes of its rounds: the sample counter and the remaining sleep. */
module AnrSampling {
  const ANR_TIMEOUT: int := 6000
  const ANR_SAMPLE_CNT: nat := 2

  /** One round of the monitor: its verdict, and the clock before and after the wait. */
  datatype Round = Round(isAnr: bool, before: int, after: int)

  function Remaining(before: int, after: int): int {
    if ANR_TIMEOUT - (after - before) > 0 then ANR_TIMEOUT - (after - before) else 0
  }

  /** How long the monitor sleeps after a round. */
  function Nap(r: Round): int { if r.isAnr then 0 else Remaining(r.before, r.after) }

  function AnrCount(rounds: seq<Round>): nat {
    if |rounds| == 0 then 0
    else AnrCount(rounds[..|rounds| - 1]) + (if rounds[|rounds| - 1].isAnr then 1 else 0)
  }

  /** Round `k` is an ANR, and with it and those pending before the rounds their number becomes a multiple of the threshold. */
  predicate ReportsWith(pending: nat, rounds: seq<Round>, n: nat, k: nat)
    requires n > 0 && k < |rounds|
  {
    rounds[k].isAnr && Divides(n, pending + AnrCount(rounds[..k + 1]))
  }

  predicate Reports(rounds: seq<Round>, n: nat, k: nat)
    requires n > 0 && k < |rounds|
  {
    ReportsWith(0, rounds, n, k)
  }

  predicate Divides(n: nat, c: nat)
    requires n > 0
  {
    c % n == 0
  }

  lemma CountNext(rounds: seq<Round>, k: nat)
    requires k < |rounds|
    ensures AnrCount(rounds[..k + 1]) == AnrCount(rounds[..k]) + (if rounds[k].isAnr then 1 else 0)
  {
    assert rounds[..k + 1][..k] == rounds[..k];
  }

  // The counter

  class Sampler {
    const threshold: nat
    var sampleCnt: int

    constructor (threshold: nat)
      ensures this.threshold == threshold && sampleCnt == threshold
    {
      this.threshold := threshold;
      sampleCnt := threshold;
    }

    /** Answers whether the ANR is reported. */
    method Sample() returns (reports: bool)
      modifies this
      ensures reports <==> old(sampleCnt) == 1
      ensures sampleCnt == if reports then threshold else old(sampleCnt) - 1
    {
      sampleCnt := sampleCnt - 1;
      if sampleCnt == 0 {
        sampleCnt := threshold;
        return true;
      }
      return false;
    }

    /**
     * The loop over its rounds, with whatever the counter has left. At every head, the samples reported and those
     * pending add up to all the ANR samples there were, and a report is made at each `threshold`-th of them.
     */
    method Watch(rounds: seq<Round>) returns (reported: seq<nat>, naps: seq<int>)
      requires 1 <= sampleCnt <= threshold
      modifies this
      ensures 1 <= sampleCnt <= threshold
      ensures threshold * |reported| + (threshold - sampleCnt) == (threshold - old(sampleCnt)) + AnrCount(rounds)
      ensures forall k: nat :: k < |rounds| ==>
        (k in reported <==> ReportsWith(threshold - old(sampleCnt), rounds, threshold, k))
      ensures forall k :: k in reported ==> k < |rounds|
      ensures |naps| == |rounds| && forall k :: 0 <= k < |naps| ==> naps[k] == Nap(rounds[k])
    {
      reported, naps := [], [];
      ghost var pending: nat := threshold - sampleCnt;
      var i := 0;
      while i < |rounds|
        invariant 0 <= i <= |rounds| && 1 <= sampleCnt <= threshold
        invariant threshold * |reported| + (threshold - sampleCnt) == pending + AnrCount(rounds[..i])
        invariant forall k: nat :: k < i ==> (k in reported <==> ReportsWith(pending, rounds, threshold, k))
        invariant forall k :: k in reported ==> k < i
        invariant |naps| == i && forall k :: 0 <= k < i ==> naps[k] == Nap(rounds[k])
      {
        CountNext(rounds, i);
        if rounds[i].isAnr {
          var reports := Sample();
          ReportsNext(pending, rounds, threshold, i, |reported|, sampleCnt, reports);
          if reports {
            reported := reported + [i];
          }
        }
        naps := naps + [Nap(rounds[i])];
        i := i + 1;
      }
      assert rounds[..i] == rounds;
    }
  }

  lemma {:induction false} MultipleLess(n: nat, a: nat, b: nat)
    requires a < b
    ensures n * a + n <= n * b
    decreases b - a
  {
    if a + 1 < b { MultipleLess(n, a + 1, b); }
  }

  lemma Multiple(n: nat, q: nat, d: nat)
    requires d < n
    ensures (n * q + d) % n == d && (n * q + d) / n == q
  {
    var x := n * q + d;
    assert x == n * (x / n) + x % n;
    if x / n < q { MultipleLess(n, x / n, q); }
    if q < x / n { MultipleLess(n, q, x / n); }
  }

  /** The arithmetic of one sample. */
  lemma ReportsNext(pending: nat, rounds: seq<Round>, n: nat, i: nat, reports: nat, left: int, now: bool)
    requires n >= 1 && i < |rounds| && rounds[i].isAnr && 1 <= left <= n && (now ==> left == n)
    requires pending + AnrCount(rounds[..i + 1]) == if now then n * reports + n else n * reports + (n - left)
    requires !now ==> left < n
    ensures ReportsWith(pending, rounds, n, i) <==> now
    ensures now ==> n * (reports + 1) == n * reports + n
  {
    if now {
      Multiple(n, reports + 1, 0);
    } else {
      Multiple(n, reports, n - left);
    }
  }

  /** As many reports as the threshold goes into the number of samples. */
  lemma ReportsAreQuotient(n: nat, reports: nat, left: int, total: nat)
    requires 1 <= left <= n && n * reports + (n - left) == total
    ensures reports == total / n
  {
    Multiple(n, reports, n - left);
  }

  // Consecutive samples

  predicate AllAnr(rounds: seq<Round>) { forall i :: 0 <= i < |rounds| ==> rounds[i].isAnr }

  /** What the comment on the threshold promises: a report closes that many ANR samples in a row. */
  predicate Consecutive(rounds: seq<Round>, n: nat)
    requires n > 0
  {
    forall k: nat :: k < |rounds| && Reports(rounds, n, k) ==> n <= k + 1 && AllAnr(rounds[k + 1 - n..k + 1])
  }

  /** Samples are pending at round `i`, and enough of them follow for a report. */
  predicate Interrupts(rounds: seq<Round>, n: nat, i: nat)
    requires n > 0 && i < |rounds|
  {
    var seen := AnrCount(rounds[..i]);
    !rounds[i].isAnr && seen % n != 0 && AnrCount(rounds) >= seen - seen % n + n
  }

  lemma {:induction false} CountMonotone(rounds: seq<Round>, i: nat, k: nat)
    requires i <= k <= |rounds|
    ensures AnrCount(rounds[..i]) <= AnrCount(rounds[..k]) <= AnrCount(rounds[..i]) + (k - i)
    ensures AnrCount(rounds[..k]) == AnrCount(rounds[..i]) + (k - i) <==> AllAnr(rounds[i..k])
    decreases k - i
  {
    if i < k {
      CountMonotone(rounds, i, k - 1);
      CountNext(rounds, k - 1);
      assert rounds[i..k] == rounds[i..k - 1] + [rounds[k - 1]];
      AllAnrAppend(rounds[i..k - 1], rounds[k - 1]);
    }
  }

  lemma AllAnrAppend(rounds: seq<Round>, r: Round)
    ensures AllAnr(rounds + [r]) <==> AllAnr(rounds) && r.isAnr
  {
    if AllAnr(rounds + [r]) {
      assert forall i :: 0 <= i < |rounds| ==> (rounds + [r])[i] == rounds[i];
      assert (rounds + [r])[|rounds|] == r;
    }
  }

  /** The round at which the number of samples reaches a value. */
  lemma {:induction false} Reaching(rounds: seq<Round>, value: nat, m: nat) returns (k: nat)
    requires m <= |rounds| && 0 < value <= AnrCount(rounds[..m])
    ensures k < m && rounds[k].isAnr && AnrCount(rounds[..k + 1]) == value
    decreases m
  {
    CountNext(rounds, m - 1);
    if AnrCount(rounds[..m - 1]) >= value {
      k := Reaching(rounds, value, m - 1);
    } else {
      k := m - 1;
    }
  }

  /** The next multiple of `n` after `seen`. */
  lemma NextMultiple(seen: nat, n: nat)
    requires n > 0
    ensures seen - seen % n + n > 0 && (seen - seen % n + n) % n == 0 && seen % n < n
  {
    var q := seen / n;
    assert seen - seen % n == n * q;
    Multiple(n, q + 1, 0);
    assert n * (q + 1) == n * q + n;
  }

  lemma Between(seen: nat, c: nat, n: nat)
    requires n > 0 && c % n == 0 && c - n < seen < c
    ensures seen % n != 0 && seen - seen % n + n == c
  {
    var q := c / n;
    assert c == n * q;
    assert q > 0;
    assert n * q == n * (q - 1) + n;
    Multiple(n, q - 1, seen - n * (q - 1));
  }

  /**
   * The counter is not reset by a good sample, so the comment holds of a sequence of rounds exactly when no good
   * sample falls among pending ones that a report later counts.
   */
  lemma ConsecutiveIff(rounds: seq<Round>, n: nat)
    requires n > 0
    ensures Consecutive(rounds, n) <==> forall i: nat :: i < |rounds| ==> !Interrupts(rounds, n, i)
  {
    if i: nat :| i < |rounds| && Interrupts(rounds, n, i) {
      InterruptedReport(rounds, n, i);
    } else {
      forall k: nat | k < |rounds| && Reports(rounds, n, k) ensures n <= k + 1 && AllAnr(rounds[k + 1 - n..k + 1]) {
        UninterruptedReport(rounds, n, k);
      }
    }
  }

  /** With a good sample and fewer than `n` ANR ones from there on, the last `n` rounds are not all ANR. */
  lemma GapBreaksRow(rounds: seq<Round>, n: nat, i: nat, k: nat)
    requires i < k < |rounds| && !rounds[i].isAnr && n <= k + 1
    requires AnrCount(rounds[..k + 1]) - AnrCount(rounds[..i]) < n
    ensures !AllAnr(rounds[k + 1 - n..k + 1])
  {
    var from := k + 1 - n;
    CountNext(rounds, i);
    if from <= i {
      assert rounds[from..k + 1][i - from] == rounds[i];
    } else {
      CountMonotone(rounds, i + 1, from);
      CountMonotone(rounds, from, k + 1);
    }
  }

  lemma InterruptedReport(rounds: seq<Round>, n: nat, i: nat)
    requires n > 0 && i < |rounds| && Interrupts(rounds, n, i)
    ensures !Consecutive(rounds, n)
  {
    var seen := AnrCount(rounds[..i]);
    var goal := seen - seen % n + n;
    NextMultiple(seen, n);
    assert rounds[..|rounds|] == rounds;
    var k := Reaching(rounds, goal, |rounds|);
    assert Reports(rounds, n, k);
    if k < i { CountMonotone(rounds, k + 1, i); }
    hide AnrCount, Reports, AllAnr;
    assert goal - seen < n;
    if n <= k + 1 { GapBreaksRow(rounds, n, i, k); }
  }

  lemma PositiveMultiple(c: nat, n: nat)
    requires n > 0 && c > 0 && Divides(n, c)
    ensures c >= n
  {
  }

  /** A good sample among the last `n` rounds up to a report interrupts it. */
  lemma GoodSampleInterrupts(rounds: seq<Round>, n: nat, k: nat, i: nat)
    requires n > 0 && i < k < |rounds| && k + 1 - n <= i && Reports(rounds, n, k) && !rounds[i].isAnr
    ensures Interrupts(rounds, n, i)
  {
    CountNext(rounds, i);
    CountNext(rounds, k);
    CountMonotone(rounds, i + 1, k);
    CountMonotone(rounds, k + 1, |rounds|);
    assert rounds[..|rounds|] == rounds;
    hide AnrCount;
    var seen, c := AnrCount(rounds[..i]), AnrCount(rounds[..k + 1]);
    assert c - n < seen < c;
    Between(seen, c, n);
  }

  lemma EnoughRounds(rounds: seq<Round>, n: nat, k: nat)
    requires n > 0 && k < |rounds| && Reports(rounds, n, k)
    ensures n <= k + 1
  {
    CountNext(rounds, k);
    PositiveMultiple(AnrCount(rounds[..k + 1]), n);
    hide Divides;
    CountMonotone(rounds, 0, k + 1);
    assert rounds[..0] == [];
  }

  lemma UninterruptedReport(rounds: seq<Round>, n: nat, k: nat)
    requires n > 0 && k < |rounds| && Reports(rounds, n, k)
    requires forall i: nat :: i < |rounds| ==> !Interrupts(rounds, n, i)
    ensures n <= k + 1 && AllAnr(rounds[k + 1 - n..k + 1])
  {
    hide Interrupts, Reports;
    EnoughRounds(rounds, n, k);
    var from := k + 1 - n;
    var window := rounds[from..k + 1];
    forall j | 0 <= j < |window| ensures window[j].isAnr {
      if !window[j].isAnr {
        ReportIsAnr(rounds, n, k);
        GoodSampleInterrupts(rounds, n, k, from + j);
      }
    }
  }

  lemma ReportIsAnr(rounds: seq<Round>, n: nat, k: nat)
    requires n > 0 && k < |rounds| && Reports(rounds, n, k)
    ensures rounds[k].isAnr
  {
  }

  /** Two samples with a good one in between are reported. */
  lemma NotConsecutive(t: int)
    ensures var rounds := [Round(true, t, t), Round(false, t, t), Round(true, t, t)];
      Reports(rounds, ANR_SAMPLE_CNT, 2) && !Consecutive(rounds, ANR_SAMPLE_CNT)
  {
    var rounds := [Round(true, t, t), Round(false, t, t), Round(true, t, t)];
    assert rounds[..0] == [];
    CountNext(rounds, 0);
    CountNext(rounds, 1);
    CountNext(rounds, 2);
    assert Reports(rounds, 2, 2);
    assert !rounds[1..3][0].isAnr;
  }

  // The clock

  /**
   * A good round and its sleep together take the timeout, or as long as the wait took if that was longer; the
   * sleep is within the timeout exactly when the clock did not go back during the wait.
   */
  lemma NapCompletesTimeout(r: Round)
    ensures Nap(r) >= 0 && (r.isAnr ==> Nap(r) == 0)
    ensures !r.isAnr ==> (Nap(r) <= 6000 <==> r.before <= r.after)
    ensures !r.isAnr ==> (r.after - r.before) + Nap(r) >= 6000
    ensures !r.isAnr && Nap(r) > 0 ==> (r.after - r.before) + Nap(r) == 6000
  {
  }

  /** Rounds one after the other, each beginning when the last one and its sleep are over. */
  predicate Timed(rounds: seq<Round>) {
    && (forall i :: 0 <= i < |rounds| ==> rounds[i].before <= rounds[i].after)
    && (forall i :: 0 < i < |rounds| ==> rounds[i].before >= rounds[i - 1].after + Nap(rounds[i - 1]))
  }

  /** However long the run, its good rounds alone take a timeout each. */
  lemma {:induction false} GoodRoundsTakeTime(rounds: seq<Round>)
    requires Timed(rounds) && |rounds| > 0
    ensures var last := rounds[|rounds| - 1];
      last.after + Nap(last) - rounds[0].before >= ANR_TIMEOUT * (|rounds| - AnrCount(rounds))
  {
    var init := rounds[..|rounds| - 1];
    if |init| > 0 {
      GoodRoundsTakeTime(init);
    } else {
      assert AnrCount(init) == 0;
    }
  }
}
