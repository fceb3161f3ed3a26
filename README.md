# Vibration-frequency classifier: vote aggregator and frame assembler

This project models the two pieces of deterministic logic in the firmware's
`main` loop (`src/main.cpp`).

**Frame assembler.** The firmware samples an accelerometer at a fixed rate
and packs the enabled axes of each sample into a feature buffer, one time
step of `k` values after another.
- The axis count `k` comes from three build flags.
- The build is refused when no axis is enabled, or when `k` differs from
  the classifier's trained arity.
- The timer period between samples is one second divided by one less than
  the sampling frequency, using C's truncating 64-bit division.
- Each step waits for the timer, except the last one.

**Vote aggregator.** After every frame the classifier scores each label,
and the run votes for the winning label. Votes are collected in per-label
counters `times`.
- Every `CHECK_BUCKETS` (20) runs the window is resolved.
- The resolution tallies the labels that reached `MIN_BUCKETS` (10) and
  `ERR_BUCKETS` (5), and finds the maximum count, its label and its ties.
- It then gives exactly one verdict: good pass, bad pass, single failure
  or high failure.
- An 8-bit streak `prev_fails` counts failing windows.
- Finally the window is cleared and numbered on.

Layout:
- `wrappers.dfy` (module `Wrappers`): `Option` and `Result`.
- `vote_spec.dfy` (module `VoteSpec`): the constants, and the specification
  functions for the run winner, the counters' tallies and the verdict
  policy, with the lemmas about them.
- `vote_aggregator.dfy` (module `VoteAggregator`): the scan loops as methods
  proved against those functions. The class `Aggregator` holds the
  counter array, the run count, the failure streak and the window number.
  Its `Record` method handles one classification run.
- `frame_assembler.dfy` (module `FrameAssembler`): the axis configuration,
  the sampling period, and the frame-filling loop over an `array`. The
  fill is proved against the specification function `Frame`.

## Model

| member | source | states |
|---|---|---|
| VoteSpec.Winner | src/main.cpp:150-158 | the run's vote is the lowest label holding the maximal score when that maximum is positive, and label 0 when no score is positive |
| VoteSpec.Largest | src/main.cpp:151-157 | the running maximum seeded with 0 bounds every score, is never negative, and is attained when positive |
| VoteSpec.RunWinnerUnique | src/main.cpp:150-158 | the winner property admits only one label, so ties go to the lowest index |
| VoteAggregator.RunWinner | src/main.cpp:150-158 | the strict-greater scan loop returns exactly the winner defined above |
| VoteSpec.SumIncrement | src/main.cpp:160-161 | a vote raises the total of the counters by exactly one, in step with `runs` |
| VoteSpec.SumZeros | src/main.cpp:296-297 | cleared counters total zero, in step with `runs = 0` |
| VoteAggregator.ScanCounts | src/main.cpp:175-211 | the tally loop computes the two threshold counts, the maximum, its lowest label and the duplicate count as defined by `TallyOf` |
| VoteSpec.ThresholdTallies | src/main.cpp:187-193 | in a full window every label over the winning minimum is also over the error minimum, at most 2 labels reach the winning minimum and at most 4 reach the error minimum |
| VoteSpec.MaximumAndTies | src/main.cpp:175-202 | in a full window `max_val` is positive and is the largest count, `max_id` is the lowest label holding it, and `max_dup` is the number of labels holding it |
| VoteSpec.PassingWindow | src/main.cpp:187-233 | a passing full window has a maximum of at least 10; its duplicate count equals the number of labels over the winning minimum, and a tie means both labels hold exactly 10 |
| VoteAggregator.FindGoodPoint | src/main.cpp:251-265 | the search stops at an index holding the winning label, and runs off the table's end exactly when the label is not a good point |
| VoteSpec.ResolutionFlags | src/main.cpp:171-273 | exactly one of the four flags is set; a window fails iff no label reached 10 or at least 3 labels reached 5; a pass is good iff the winning label is in {1,3,4,5,6}, and bad otherwise |
| VoteSpec.FailureStreak | src/main.cpp:217-248 | a failing window bumps the streak modulo 256 and is a high failure iff the bumped streak is at least 3; a passing window leaves the streak unchanged and is never a high failure |
| VoteSpec.ScatteredFailuresRaiseHighFailure | src/main.cpp:217-273 | from a zero streak, the sequence fail, pass, fail, fail ends in a high failure with a streak of 3, because a pass does not reset the streak |
| VoteSpec.StreakWrapsAround | src/main.cpp:221-232 | a failure on a streak of 255 wraps the streak to 0 and is a single failure |
| VoteAggregator.Aggregator.constructor | src/main.cpp:65-68 | the counters start cleared, with no runs, no failures and window number 1 |
| VoteAggregator.Aggregator.Record | src/main.cpp:150-301 | one run adds one vote to the winner's counter and one run; the window is resolved exactly when the run count reaches 20, and then the verdict and the new streak are those of `Resolve`, the counters and run count are cleared, and the window number grows by one modulo 2^32; the counter total always equals the run count |
| VoteAggregator.Aggregator.ResolveWindow | src/main.cpp:169-273 | the tally and policy code yields the verdict and streak that `Resolve` defines for the current counters |
| VoteAggregator.Aggregator.Reset | src/main.cpp:296-300 | every counter and the run count become 0 and the window number grows by one modulo 2^32 |
| FrameAssembler.AxisCount | src/main.cpp:42-52 | the chain of build tests yields a count exactly when some axis is enabled, and that count is the number of enabled axes, between 1 and 3 |
| FrameAssembler.CheckConfig | src/main.cpp:42-56 | the build is accepted iff some axis is enabled and the enabled count equals the trained arity; no enabled axis is its own error |
| FrameAssembler.SamplePeriodUs | src/main.cpp:61-62 | the period is one second divided by `freq - 1`, truncated toward zero as in C, for both signs of the divisor |
| FrameAssembler.PeriodAtLeastNominal | src/main.cpp:61-62 | for frequencies above 1 the period is never shorter than one second divided by the frequency |
| FrameAssembler.FillFrame | src/main.cpp:104-135 | when every fetch succeeds, the whole buffer holds the frame of the fetched samples and every step but the last waited; a failed fetch stops the fill, leaving the earlier steps written and the rest of the buffer untouched |
| FrameAssembler.FillStep | src/main.cpp:106-134 | one step either fails its fetch and changes nothing, or extends the written frame by its sample and reports whether to wait (not the last step) |
| FrameAssembler.PackStep | src/main.cpp:116-129 | the enabled axes of one sample are written, in X, Y, Z order, at `ix .. ix+k-1`, and nothing else changes |
| FrameAssembler.FilledContents | src/main.cpp:104-129 | after `t` steps, buffer index `i < t*k` holds axis `i % k` of the sample fetched at step `i / k`, and every later index keeps its old value |
| FrameAssembler.FrameAt | src/main.cpp:116-129 | slot `j` of time step `t` lies at frame index `t*k + j` and holds the j-th enabled axis of sample `t` |
| FrameAssembler.FrameLayout | src/main.cpp:104-129 | every frame index belongs to exactly one time step and slot, and holds that slot's axis of that step's sample |
| FrameAssembler.FrameLength | src/main.cpp:104 | a frame of `n` samples holds `n*k` values |
| FrameAssembler.StepOffsetIsProduct | src/main.cpp:104 | stepping `ix` by `k` per time step puts step `t` at index `t*k` |
| FrameAssembler.FirstFailure | src/main.cpp:109-112 | the first failing fetch: all earlier fetches succeeded, and the fetch at that step fails unless every step succeeded |
| FrameAssembler.FailureStops | src/main.cpp:109-112 | the fill stops at the first failing fetch and at no other step |
| FrameAssembler.Waits | src/main.cpp:131-134 | the wait decisions of the steps so far: every step but the last waits for the timer |

## Left out

- The sensor driver, the device lookup, the timer and the busy-wait loop are hardware and OS calls. Fetch outcomes are a parameter: a function from the time step to an optional sample. Only the decision to wait is modelled.
- Sample values and the conversion of sensor readings to `float` are left out. Buffer elements are of an opaque type `T`.
- The classifier and the construction of its input signal are left out, including its error return. A run is modelled by its sequence of label scores, as integers instead of floats, so NaN scores are not modelled.
- The `printf` reports, in both the readable and the delimited format, are left out. The verdict and the tally they print are what `Record` returns.
- The `uint16_t` sums of classifier timings are left out; they only feed the reports.
- The endless `while (1)` loop and the fatal early returns are left out. One call of `FillFrame` models one frame. One call of `Record` models one classification run, and `ok == false` from `FillFrame` stands for the return after a failed fetch.
- `VoteAggregator.Aggregator.constructor` requires between 1 and 255 labels. The counters, tallies and label indices are 8-bit in the source, and with at most 20 votes per window they never wrap; the model uses unbounded naturals under that bound.
- `FrameAssembler.FillFrame` requires the buffer length to be a multiple of the axis count. The trained frame size is a whole number of time steps.
- `VoteAggregator.Aggregator.Record` resolves when the run count reaches 20 (`runs >= CHECK_BUCKETS` in the source). Since the count never exceeds 20, the two tests agree.
- The failure streak follows the code, not the documented design. The design describes `prev_fails` as counting failures in a row, reset by a passing window, but the code never resets it: it is only incremented, and wraps modulo 256. `ScatteredFailuresRaiseHighFailure` states the resulting behaviour.
