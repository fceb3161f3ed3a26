/** The sampler and frame assembler of src/main.cpp: which accelerometer
    axes are enabled, the sampling period, and the loop that fills the
    feature buffer with one sample per time step. */
module FrameAssembler {
  import opened Wrappers

  datatype Axis = X | Y | Z

  /** Which axes the build enables. */
  datatype AxisConfig = AxisConfig(x: bool, y: bool, z: bool)

  /** One accelerometer reading; the values stay opaque. */
  datatype Sample<T> = Sample(x: T, y: T, z: T)

  /** The two configurations the build refuses. */
  datatype ConfigError = NoAxisEnabled | ArityMismatch

  const MICROS_PER_SECOND: int := 1000000

  /** The enabled axes in the fixed X, Y, Z order. */
  function EnabledAxes(cfg: AxisConfig): seq<Axis>
  {
    (if cfg.x then [X] else []) + (if cfg.y then [Y] else []) + (if cfg.z then [Z] else [])
  }

  /** The axis count chosen by the chain of configuration tests: three when
      all axes are on, two when exactly one is off, one when any is on, and
      no count at all when none is on. */
  function AxisCount(cfg: AxisConfig): (k: Option<nat>)
    ensures k.None? <==> !(cfg.x || cfg.y || cfg.z)
    ensures k.Some? ==> k.value == |EnabledAxes(cfg)| && 1 <= k.value <= 3
  {
    if cfg.x && cfg.y && cfg.z then Some(3)
    else if (!cfg.x && cfg.y && cfg.z) || (cfg.x && !cfg.y && cfg.z) || (cfg.x && cfg.y && !cfg.z) then Some(2)
    else if cfg.x || cfg.y || cfg.z then Some(1)
    else None
  }

  /** The two build-time checks: some axis is enabled, and the number of
      enabled axes is the number of values per time step the classifier
      was trained with. */
  function CheckConfig(cfg: AxisConfig, rawSamplesPerFrame: nat): (r: Result<nat, ConfigError>)
    ensures r.Ok? <==> EnabledAxes(cfg) != [] && |EnabledAxes(cfg)| == rawSamplesPerFrame
    ensures r.Ok? ==> r.value == rawSamplesPerFrame
    ensures r == Err(NoAxisEnabled) <==> EnabledAxes(cfg) == []
  {
    match AxisCount(cfg)
    case None => Err(NoAxisEnabled)
    case Some(k) => if k != rawSamplesPerFrame then Err(ArityMismatch) else Ok(k)
  }

  function Abs(a: int): nat
  {
    if a < 0 then -a else a
  }

  /** Integer division as the 64-bit C division does it, truncating toward
      zero. */
  function TruncDiv(a: int, b: int): int
    requires b != 0
  {
    if (a >= 0) == (b > 0) then Abs(a) / Abs(b) else -(Abs(a) / Abs(b))
  }

  /** The timer period between samples, in microseconds: one second divided
      by one less than the sampling frequency.  A frequency of 1 would divide
      by zero. */
  function SamplePeriodUs(freq: int): (p: int)
    requires freq != 1
    ensures freq > 1 ==> 0 <= p * (freq - 1) <= MICROS_PER_SECOND < (p + 1) * (freq - 1)
    ensures freq < 1 ==> p == -(MICROS_PER_SECOND / (1 - freq))
  {
    TruncDiv(MICROS_PER_SECOND, freq - 1)
  }

  /** Dividing by one less than the frequency makes the period no shorter
      than the nominal one, so the achieved rate never exceeds the nominal
      rate. */
  lemma PeriodAtLeastNominal(freq: int)
    requires freq > 1
    ensures MICROS_PER_SECOND / freq <= SamplePeriodUs(freq)
  {
    var p, q := SamplePeriodUs(freq), MICROS_PER_SECOND / freq;
    assert q * freq <= MICROS_PER_SECOND;
    assert q * (freq - 1) <= MICROS_PER_SECOND by {
      assert q * (freq - 1) == q * freq - q;
    }
    if q > p {
      assert (p + 1) * (freq - 1) <= q * (freq - 1) by {
        MulMonotone(p + 1, q, freq - 1);
      }
      assert false;
    }
  }

  lemma MulMonotone(a: int, b: int, c: nat)
    requires a <= b
    ensures a * c <= b * c
  {
    assert b * c - a * c == (b - a) * c;
  }

  lemma DivMod(i: nat, k: nat)
    requires k >= 1
    ensures i == (i / k) * k + i % k && 0 <= i % k < k
  {
  }

  function AxisValue<T>(s: Sample<T>, a: Axis): T
  {
    match a
    case X => s.x
    case Y => s.y
    case Z => s.z
  }

  /** The values one time step contributes: the sample's enabled axes. */
  function Pack<T>(cfg: AxisConfig, s: Sample<T>): seq<T>
  {
    seq(|EnabledAxes(cfg)|, j requires 0 <= j < |EnabledAxes(cfg)| => AxisValue(s, EnabledAxes(cfg)[j]))
  }

  /** A frame: the packed samples of all time steps, one after the other. */
  function Frame<T>(cfg: AxisConfig, samples: seq<Sample<T>>): seq<T>
  {
    if |samples| == 0 then []
    else Frame(cfg, samples[..|samples| - 1]) + Pack(cfg, samples[|samples| - 1])
  }

  /** A frame holds k values per time step. */
  lemma {:induction false} FrameLength<T>(cfg: AxisConfig, samples: seq<Sample<T>>)
    ensures |Frame(cfg, samples)| == StepOffset(|samples|, |EnabledAxes(cfg)|)
  {
    if |samples| > 0 {
      FrameLength(cfg, samples[..|samples| - 1]);
    }
  }

  /** Slot `j` of time step `t` sits at index t*k + j of the frame and holds
      the j-th enabled axis of sample `t`. */
  lemma {:induction false} FrameAt<T>(cfg: AxisConfig, samples: seq<Sample<T>>, t: nat, j: nat)
    requires t < |samples| && j < |EnabledAxes(cfg)|
    ensures t * |EnabledAxes(cfg)| + j < |Frame(cfg, samples)|
    ensures Frame(cfg, samples)[t * |EnabledAxes(cfg)| + j] == AxisValue(samples[t], EnabledAxes(cfg)[j])
  {
    var k, n := |EnabledAxes(cfg)|, |samples|;
    var prefix := samples[..n - 1];
    FrameLength(cfg, samples);
    FrameLength(cfg, prefix);
    StepOffsetIsProduct(n, k);
    StepOffsetIsProduct(n - 1, k);
    MulMonotone(t + 1, n, k);
    if t < n - 1 {
      MulMonotone(t + 1, n - 1, k);
      FrameAt(cfg, prefix, t, j);
    } else {
      assert t * k == (n - 1) * k;
    }
  }

  /** Every index of a frame belongs to exactly one time step and slot:
      index i holds axis i % k of sample i / k. */
  lemma FrameLayout<T>(cfg: AxisConfig, samples: seq<Sample<T>>, i: nat)
    requires i < |Frame(cfg, samples)|
    ensures && EnabledAxes(cfg) != []
            && i / |EnabledAxes(cfg)| < |samples|
            && Frame(cfg, samples)[i] ==
                 AxisValue(samples[i / |EnabledAxes(cfg)|], EnabledAxes(cfg)[i % |EnabledAxes(cfg)|])
  {
    var k := |EnabledAxes(cfg)|;
    FrameLength(cfg, samples);
    StepOffsetIsProduct(|samples|, k);
    assert k != 0;
    var t, j := i / k, i % k;
    DivMod(i, k);
    if t >= |samples| {
      MulMonotone(|samples|, t, k);
    }
    FrameAt(cfg, samples, t, j);
  }

  /** The first time step whose sensor fetch fails, or `steps` when the
      first `steps` fetches all succeed. */
  function FirstFailure<T>(fetch: nat -> Option<Sample<T>>, steps: nat): (f: nat)
    ensures f <= steps
    ensures forall t :: 0 <= t < f ==> fetch(t).Some?
    ensures f < steps ==> fetch(f).None?
  {
    if steps == 0 then 0
    else
      var f := FirstFailure(fetch, steps - 1);
      if f < steps - 1 then f
      else if fetch(steps - 1).None? then steps - 1
      else steps
  }

  /** The samples of the first `n` fetches, all of which succeeded. */
  function Fetched<T>(fetch: nat -> Option<Sample<T>>, n: nat): (s: seq<Sample<T>>)
    requires forall t :: 0 <= t < n ==> fetch(t).Some?
    ensures |s| == n && forall t :: 0 <= t < n ==> s[t] == fetch(t).value
  {
    seq(n, t requires 0 <= t < n => fetch(t).value)
  }

  /** Fills the feature buffer, one time step of k values at a time; the
      t-th fetch of the frame yields `fetch(t)`.  Each step writes the
      enabled axes of its sample, in X, Y, Z order, at indices ix .. ix+k-1
      and then waits for the timer unless it was the last step.  A failed
      fetch stops the fill: the steps before it are written and the rest of
      the buffer is untouched. */
  method FillFrame<T>(features: array<T>, cfg: AxisConfig, k: nat, fetch: nat -> Option<Sample<T>>)
    returns (ok: bool, waited: seq<bool>)
    requires AxisCount(cfg) == Some(k)
    requires features.Length % k == 0
    modifies features
    ensures var steps := features.Length / k;
      var f := FirstFailure(fetch, steps);
      && ok == (f == steps)
      && FilledUpTo(features[..], old(features[..]), cfg, k, fetch, f)
      && waited == Waits(f, steps)
  {
    var n := features.Length;
    ghost var steps := n / k;
    ghost var init := features[..];
    StepsOfFrame(n, k);
    var ix, t := 0, 0;
    waited := [];
    while ix < n
      invariant t <= steps && ix == StepOffset(t, k) && (ix < n) == (t < steps)
      invariant FilledUpTo(features[..], init, cfg, k, fetch, t)
      invariant waited == Waits(t, steps)
    {
      var wait;
      ok, wait := FillStep(features, cfg, k, fetch, t, ix, init, steps);
      if !ok {
        FailureStops(fetch, t, steps);
        return;
      }
      waited := waited + [wait];
      ix := ix + k;
      t := t + 1;
    }
    FailureStops(fetch, t, steps);
    ok := true;
  }

  /** A buffer whose length is a multiple of k holds length / k time
      steps. */
  lemma StepsOfFrame(n: nat, k: nat)
    requires k >= 1 && n % k == 0
    ensures n == StepOffset(n / k, k) && (0 < n) == (0 < n / k)
  {
    StepOffsetIsProduct(n / k, k);
  }

  /** The wait decisions of the first `n` of `steps` time steps: every
      step but the last waits for the timer. */
  function Waits(n: nat, steps: nat): (w: seq<bool>)
    ensures |w| == n && forall t :: 0 <= t < n ==> w[t] == (t + 1 < steps)
  {
    if n == 0 then [] else Waits(n - 1, steps) + [n < steps]
  }

  /** The buffer after the first `t` steps of a fill that started from
      `init`: the frame of the `t` samples fetched so far, then the untouched
      rest of `init`. */
  ghost predicate FilledUpTo<T>(buf: seq<T>, init: seq<T>, cfg: AxisConfig, k: nat, fetch: nat -> Option<Sample<T>>, t: nat)
  {
    && (forall u :: 0 <= u < t ==> fetch(u).Some?)
    && |buf| == |init|
    && StepOffset(t, k) <= |buf|
    && buf[..StepOffset(t, k)] == Frame(cfg, Fetched(fetch, t))
    && buf[StepOffset(t, k)..] == init[StepOffset(t, k)..]
  }

  /** What a buffer filled for `t` steps holds at each index: below t * k,
      axis i % k, in X, Y, Z order of the enabled axes, of the sample fetched
      at step i / k; from t * k on, what the buffer held before the fill. */
  lemma FilledContents<T>(buf: seq<T>, init: seq<T>, cfg: AxisConfig, k: nat,
                          fetch: nat -> Option<Sample<T>>, t: nat, i: nat)
    requires AxisCount(cfg) == Some(k)
    requires FilledUpTo(buf, init, cfg, k, fetch, t) && i < |buf|
    ensures i < t * k ==>
              && i / k < t && fetch(i / k).Some? && i % k < |EnabledAxes(cfg)|
              && buf[i] == AxisValue(fetch(i / k).value, EnabledAxes(cfg)[i % k])
    ensures i >= t * k ==> buf[i] == init[i]
  {
    StepOffsetIsProduct(t, k);
    var ix := t * k;
    if i < ix {
      assert buf[i] == buf[..ix][i];
      FrameLayout(cfg, Fetched(fetch, t), i);
    } else {
      assert buf[i] == buf[ix..][i - ix];
    }
  }

  /** Time step `t` of the fill: fetches sample `t`; when the fetch fails
      the buffer is left alone, otherwise the sample's enabled axes are
      written at ix .. ix+k-1. */
  method FillStep<T>(features: array<T>, cfg: AxisConfig, k: nat, fetch: nat -> Option<Sample<T>>,
                     t: nat, ix: nat, ghost init: seq<T>, ghost steps: nat) returns (ok: bool, wait: bool)
    requires AxisCount(cfg) == Some(k) && t < steps
    requires ix == StepOffset(t, k) && features.Length == StepOffset(steps, k)
    requires FilledUpTo(features[..], init, cfg, k, fetch, t)
    modifies features
    ensures ok == fetch(t).Some?
    ensures ok ==> FilledUpTo(features[..], init, cfg, k, fetch, t + 1)
    ensures ok ==> wait == (ix + k < features.Length) == (t + 1 < steps)
    ensures !ok ==> features[..] == old(features[..])
  {
    var s := fetch(t);
    if s.None? {
      return false, false;
    }
    StepOffsetMono(t, steps, k);
    ghost var before := features[..];
    PackStep(features, cfg, k, ix, s.value);
    FrameGrows(cfg, fetch, t);
    SpliceStep(before, features[..], ix, Pack(cfg, s.value));
    if t + 1 < steps {
      StepOffsetMono(t + 1, steps, k);
    }
    ok := true;
    wait := ix + k < features.Length;
  }

  /** The fill stops at the first failing fetch: when the first `t` fetches
      succeed and fetch `t` fails or is not needed, `t` is the first failure. */
  lemma FailureStops<T>(fetch: nat -> Option<Sample<T>>, t: nat, steps: nat)
    requires t <= steps
    requires forall u :: 0 <= u < t ==> fetch(u).Some?
    requires t < steps ==> fetch(t).None?
    ensures FirstFailure(fetch, steps) == t
  {
  }

  /** One time step of the fill: writes the enabled axes of `s`, in X, Y, Z
      order, at indices ix .. ix+k-1 and leaves the rest of the buffer
      alone. */
  method PackStep<T>(features: array<T>, cfg: AxisConfig, k: nat, ix: nat, s: Sample<T>)
    requires AxisCount(cfg) == Some(k) && ix + k <= features.Length
    modifies features
    ensures features[..] == old(features[..ix]) + Pack(cfg, s) + old(features[ix + k..])
  {
    var current := ix;
    if cfg.x {
      features[current] := s.x;
      current := current + 1;
    }
    if cfg.y {
      features[current] := s.y;
      current := current + 1;
    }
    if cfg.z {
      features[current] := s.z;
    }
  }

  /** One more successful fetch appends its packed sample to the frame. */
  lemma FrameGrows<T>(cfg: AxisConfig, fetch: nat -> Option<Sample<T>>, t: nat)
    requires forall u :: 0 <= u <= t ==> fetch(u).Some?
    ensures Frame(cfg, Fetched(fetch, t + 1)) == Frame(cfg, Fetched(fetch, t)) + Pack(cfg, fetch(t).value)
  {
    assert Fetched(fetch, t + 1)[..t] == Fetched(fetch, t);
  }

  /** Writing `w` over a buffer at `ix` extends its written prefix by `w`
      and keeps what follows. */
  lemma SpliceStep<T>(before: seq<T>, after: seq<T>, ix: nat, w: seq<T>)
    requires ix + |w| <= |before|
    requires after == before[..ix] + w + before[ix + |w|..]
    ensures after[..ix + |w|] == before[..ix] + w
    ensures after[ix + |w|..] == before[ix + |w|..]
  {
  }

  /** Where time step `t` starts in the buffer, counted up step by step as
      the fill loop does; it is t * k. */
  function StepOffset(t: nat, k: nat): nat
  {
    if t == 0 then 0 else StepOffset(t - 1, k) + k
  }

  lemma {:induction false} StepOffsetIsProduct(t: nat, k: nat)
    ensures StepOffset(t, k) == t * k
  {
    if t > 0 {
      StepOffsetIsProduct(t - 1, k);
    }
  }

  /** Later time steps start further on: step t2 starts at least k
      values after step t1 < t2. */
  lemma {:induction false} StepOffsetMono(t1: nat, t2: nat, k: nat)
    requires t1 < t2
    ensures StepOffset(t1, k) + k <= StepOffset(t2, k)
  {
    if t1 + 1 < t2 {
      StepOffsetMono(t1, t2 - 1, k);
    }
  }
}
