/** Bevy's `Timer` in `TimerMode::Once`, the only way the game uses it:
    a duration and the time elapsed so far, in integer nanoseconds like
    Rust's `Duration`. A tick adds the frame's delta and clamps the elapsed
    time at the duration; a timer is finished once elapsed reaches duration,
    and an already finished timer ignores further ticks. */
module Timing {

  type Nanos = nat

  const NANOS_PER_SECOND: Nanos := 1_000_000_000

  datatype Timer = Timer(duration: Nanos, elapsed: Nanos)

  /** `Timer::from_seconds(seconds, TimerMode::Once)`: nothing elapsed yet. */
  function FromSeconds(seconds: nat): (t: Timer)
    ensures WithinDuration(t) && t.elapsed == 0
    ensures Finished(t) <==> seconds == 0
  {
    Timer(seconds * NANOS_PER_SECOND, 0)
  }

  predicate Finished(t: Timer) {
    t.elapsed >= t.duration
  }

  /** Ticking keeps this; every timer built by FromSeconds has it. */
  predicate WithinDuration(t: Timer) {
    t.elapsed <= t.duration
  }

  /** `timer.tick(delta)` for a Once timer. */
  function Tick(t: Timer, delta: Nanos): (r: Timer)
    ensures r.duration == t.duration
    ensures t.elapsed <= r.elapsed
    ensures WithinDuration(t) ==> WithinDuration(r)
    ensures Finished(r) <==> t.elapsed + delta >= t.duration
    ensures !Finished(r) ==> r.elapsed == t.elapsed + delta
  {
    if Finished(t) then t
    else if t.elapsed + delta >= t.duration then Timer(t.duration, t.duration)
    else Timer(t.duration, t.elapsed + delta)
  }

  /** Total time of a run of frame deltas. */
  function Sum(ds: seq<Nanos>): Nanos {
    if ds == [] then 0 else ds[0] + Sum(ds[1..])
  }

  /** The timer after one tick per frame delta, in order. */
  function Run(t: Timer, ds: seq<Nanos>): Timer
    decreases |ds|
  {
    if ds == [] then t else Run(Tick(t, ds[0]), ds[1..])
  }

  /** Over any run of frames, a timer finishes exactly when the total
      time reaches its duration; until then it has counted every delta. */
  lemma {:induction false} RunFinished(t: Timer, ds: seq<Nanos>)
    ensures Run(t, ds).duration == t.duration
    ensures WithinDuration(t) ==> WithinDuration(Run(t, ds))
    ensures Finished(Run(t, ds)) <==> t.elapsed + Sum(ds) >= t.duration
    ensures !Finished(Run(t, ds)) ==> Run(t, ds).elapsed == t.elapsed + Sum(ds)
    decreases |ds|
  {
    if ds != [] {
      RunFinished(Tick(t, ds[0]), ds[1..]);
    }
  }
}
