/** The classification vote aggregator of src/main.cpp: the scans it runs
    over one run's scores and over the window's counters, and the global
    window state (counters, run count, failure streak, window number) as a
    class whose methods update it in place. */
module VoteAggregator {
  import opened Wrappers
  import opened VoteSpec

  /** The per-run winner scan: a strict-greater scan in label order, with
      the running maximum seeded with 0 and the winner with label 0. */
  method RunWinner(scores: seq<int>) returns (w: nat)
    ensures w == Winner(scores)
    ensures IsRunWinner(scores, w)
  {
    var largest := 0;
    w := 0;
    var ix := 0;
    while ix < |scores|
      invariant 0 <= ix <= |scores|
      invariant largest == Largest(scores[..ix])
      invariant w == Winner(scores[..ix])
    {
      assert scores[..ix + 1][..ix] == scores[..ix];
      if scores[ix] > largest {
        largest := scores[ix];
        w := ix;
      }
      ix := ix + 1;
    }
    assert scores[..ix] == scores;
  }

  /** The tally scan over a full window's counters: the two threshold
      tallies and the running maximum with its label and duplicate count. */
  method ScanCounts(times: array<nat>) returns (t: Tally)
    ensures t == TallyOf(times[..])
  {
    var entriesOverMin, entriesOverErr := 0, 0;
    var maxId, maxVal, maxDup := 0, 0, 1;
    var ix := 0;
    while ix < times.Length
      invariant 0 <= ix <= times.Length
      invariant Tally(entriesOverMin, entriesOverErr, maxId, maxVal, maxDup) == TallyOf(times[..ix])
    {
      ghost var p := times[..ix];
      ghost var x := times[ix];
      assert times[..ix + 1][..ix] == p;
      if times[ix] >= MIN_BUCKETS {
        entriesOverMin := entriesOverMin + 1;
      }
      if times[ix] >= ERR_BUCKETS {
        entriesOverErr := entriesOverErr + 1;
      }
      if times[ix] >= maxVal {
        if times[ix] == maxVal {
          maxDup := maxDup + 1;
        } else {
          // a new maximum: no earlier label holds it
          CountAtLeastZero(p, x);
          CountEqSplit(p, x);
          maxId := ix;
          maxVal := times[ix];
          maxDup := 1;
        }
      }
      ix := ix + 1;
    }
    assert times[..ix] == times[..];
    t := Tally(entriesOverMin, entriesOverErr, maxId, maxVal, maxDup);
  }

  /** The search of the good-point table for the winning label: the index
      where it stops, which is the table's length when the label is not a
      good point. */
  method FindGoodPoint(id: nat) returns (i: nat)
    ensures i <= |GOOD_POINTS|
    ensures i < |GOOD_POINTS| ==> GOOD_POINTS[i] == id
    ensures i == |GOOD_POINTS| <==> id !in GOOD_POINTS
  {
    i := 0;
    while i < |GOOD_POINTS|
      invariant i <= |GOOD_POINTS|
      invariant forall j :: 0 <= j < i ==> GOOD_POINTS[j] != id
    {
      if GOOD_POINTS[i] == id {
        break;
      }
      i := i + 1;
    }
  }

  /** The aggregator's window state: the counters `times`, the run count of
      the current window, the 8-bit failure streak and the 32-bit window
      number. */
  class Aggregator {
    /** Number of labels the classifier scores. */
    const labelCount: nat
    /** Per-label vote counters of the current window. */
    const times: array<nat>
    /** Runs recorded in the current window. */
    var runs: nat
    /** Failing windows so far, modulo 256. */
    var prevFails: nat
    /** Number of the current window, starting at 1, modulo 2^32. */
    var totalRuns: nat

    /** The counters hold exactly one vote per run of the current window,
        and the window is never full between calls. */
    ghost predicate Valid()
      reads this, times
    {
      && times.Length == labelCount
      && 1 <= labelCount < UINT8_MODULUS
      && runs < CHECK_BUCKETS
      && Sum(times[..]) == runs
      && prevFails < UINT8_MODULUS
      && totalRuns < UINT32_MODULUS
    }

    /** The statically initialised state: cleared counters, no runs, no
        failures, window number 1. */
    constructor (labelCount: nat)
      requires 1 <= labelCount < UINT8_MODULUS
      ensures Valid() && fresh(times)
      ensures this.labelCount == labelCount
      ensures times[..] == Zeros(labelCount)
      ensures runs == 0 && prevFails == 0 && totalRuns == 1
    {
      this.labelCount := labelCount;
      times := new nat[labelCount](_ => 0);
      runs, prevFails, totalRuns := 0, 0, 1;
      new;
      assert times[..] == Zeros(labelCount);
      SumZeros(labelCount);
    }

    /** Records one classification run.  The winning label's counter and
        the run count go up by one; when that completes the window, the
        counters (which then total CHECK_BUCKETS) are resolved into the
        returned verdict, the failure streak is updated, and the window is
        cleared and numbered on. */
    method Record(scores: seq<int>) returns (verdict: Option<Verdict>)
      requires Valid() && |scores| == labelCount
      modifies this, times
      ensures Valid()
      ensures var counts := old(times[..])[Winner(scores) := old(times[Winner(scores)]) + 1];
        if old(runs) + 1 == CHECK_BUCKETS then
          && Sum(counts) == CHECK_BUCKETS
          && verdict == Some(Resolve(counts, old(prevFails)).verdict)
          && prevFails == Resolve(counts, old(prevFails)).prevFails
          && times[..] == Zeros(labelCount) && runs == 0
          && totalRuns == (old(totalRuns) + 1) % UINT32_MODULUS
        else
          && verdict == None
          && times[..] == counts && runs == old(runs) + 1
          && prevFails == old(prevFails) && totalRuns == old(totalRuns)
    {
      var w := RunWinner(scores);
      ghost var counts := times[..][w := times[w] + 1];
      SumIncrement(times[..], w);
      times[w] := times[w] + 1;
      runs := runs + 1;
      assert times[..] == counts;
      if runs >= CHECK_BUCKETS {
        FailureStreak(counts, prevFails);
        var v := ResolveWindow();
        verdict := Some(v);
        Reset();
        SumZeros(labelCount);
      } else {
        verdict := None;
      }
    }

    /** Resolves the current counters into a verdict and updates the
        failure streak. */
    method ResolveWindow() returns (v: Verdict)
      requires times.Length == labelCount
      modifies this`prevFails
      ensures v == Resolve(times[..], old(prevFails)).verdict
      ensures prevFails == Resolve(times[..], old(prevFails)).prevFails
    {
      var t := ScanCounts(times);
      var goodPass, badPass, highFail, singleFail := false, false, false, false;
      if t.entriesOverMin == 0 {
        prevFails := (prevFails + 1) % UINT8_MODULUS;
        if prevFails >= ERR_FAILS_IN_ROW {
          highFail := true;
        } else {
          singleFail := true;
        }
      } else if t.entriesOverErr >= ERR_BUCKETS_FAIL_COUNT {
        prevFails := (prevFails + 1) % UINT8_MODULUS;
        if prevFails >= ERR_FAILS_IN_ROW {
          highFail := true;
        } else {
          singleFail := true;
        }
      } else {
        var i := FindGoodPoint(t.maxId);
        if i < |GOOD_POINTS| {
          goodPass := true;
        }
        if i == |GOOD_POINTS| {
          badPass := true;
        }
      }
      v := Verdict(t, goodPass, badPass, highFail, singleFail);
    }

    /** Clears the counters and the run count and numbers the next window. */
    method Reset()
      requires times.Length == labelCount
      modifies this`runs, this`totalRuns, times
      ensures times[..] == Zeros(labelCount) && runs == 0
      ensures totalRuns == (old(totalRuns) + 1) % UINT32_MODULUS
    {
      var ix := 0;
      while ix < times.Length
        invariant 0 <= ix <= times.Length
        invariant forall j :: 0 <= j < ix ==> times[j] == 0
        modifies times
      {
        times[ix] := 0;
        ix := ix + 1;
      }
      runs := 0;
      totalRuns := (totalRuns + 1) % UINT32_MODULUS;
    }
  }
}
