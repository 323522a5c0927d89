/** The rate-keeping rule shared by every read or teleoperation loop:
    measure how long the iteration took and sleep only for what is left
    of the period. Clock readings are inputs. */
module Pacing {
  import opened Errors

  /** `loop_time = 1.0 / frequency`; Python raises ZeroDivisionError for a
      zero frequency. */
  function LoopTime(frequency: real): (r: Result<real>)
    ensures r.Err? <==> frequency == 0.0
    ensures r.Err? ==> r.error == ZeroDivisionError
    ensures r.Ok? ==> r.value * frequency == 1.0
  {
    if frequency == 0.0 then Err(ZeroDivisionError) else Ok(1.0 / frequency)
  }

  /** After an iteration that took `elapsed` seconds: sleep
      `loopTime - elapsed` when the iteration finished early, not at all
      otherwise. */
  function SleepDuration(loopTime: real, elapsed: real): (r: Option<real>)
    ensures r.Some? <==> elapsed < loopTime
    ensures r.Some? ==> r.value > 0.0 && elapsed + r.value == loopTime
  {
    if elapsed < loopTime then Some(loopTime - elapsed) else None
  }

  /** An iteration plus its sleep lasts the full period, or as long as the
      work took when that overran the period: never less than either. */
  lemma IterationLength(loopTime: real, elapsed: real)
    ensures var total := elapsed + SleepDuration(loopTime, elapsed).GetOr(0.0);
            total >= loopTime && total >= elapsed && (total == loopTime || total == elapsed)
  {
  }

  /** The sleeps of a run of iterations, one per iteration, each from that
      iteration's own elapsed time. */
  predicate PacedBy(loopTime: real, elapsed: seq<real>, sleeps: seq<Option<real>>) {
    |sleeps| <= |elapsed|
    && forall i :: 0 <= i < |sleeps| ==> sleeps[i] == SleepDuration(loopTime, elapsed[i])
  }
}
