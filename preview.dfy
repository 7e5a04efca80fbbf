/**
 * The preview loop's pure parts: the start/stop decision taken after a status
 * change, the frames handed to subscribers, and the delay before the next
 * read, `Math.max(0, 1000 / fps - elapsed)` with `elapsed` the time the read
 * and the deliveries took.
 */
module Preview {
  import opened Wrappers
  import opened Options
  import opened Registry

  /** Milliseconds between frames at the configured rate. */
  function Period(fps: Fps): (p: real)
    ensures p > 0.0
    ensures p * fps == 1000.0
  {
    1000.0 / fps
  }

  /** The delay before the next preview read. */
  function Delay(fps: Fps, elapsed: real): (d: real)
    ensures 0.0 <= d
    ensures 0.0 <= elapsed ==> d <= Period(fps)
    ensures Period(fps) <= elapsed + d
    ensures elapsed <= Period(fps) ==> elapsed + d == Period(fps)
    ensures Period(fps) <= elapsed ==> d == 0.0
  {
    if Period(fps) - elapsed > 0.0 then Period(fps) - elapsed else 0.0
  }

  /** After a status change the loop runs only when the camera is not halted and someone is watching. */
  predicate ShouldRun(status: Option<string>, subscribers: seq<nat>) {
    status != Some("halted") && |subscribers| > 0
  }

  /** One frame delivered to each subscriber, in subscription order. */
  function Frames(subscribers: seq<nat>): (r: seq<Event>)
    ensures |r| == |subscribers|
    ensures forall k :: 0 <= k < |r| ==> r[k] == Frame(subscribers[k])
    decreases |subscribers|
  {
    if subscribers == [] then []
    else Frames(subscribers[..|subscribers| - 1]) + [Frame(subscribers[|subscribers| - 1])]
  }

  /** Time from the start of one read to the start of the read after the last of `elapsed`. */
  function Cadence(fps: Fps, elapsed: seq<real>): real
    decreases |elapsed|
  {
    if elapsed == [] then 0.0
    else elapsed[0] + Delay(fps, elapsed[0]) + Cadence(fps, elapsed[1..])
  }

  /** While each frame takes no longer than a period, reads start exactly one period apart: no drift accumulates. */
  lemma {:induction false} CadenceKeepsRate(fps: Fps, elapsed: seq<real>)
    requires forall k :: 0 <= k < |elapsed| ==> 0.0 <= elapsed[k] <= Period(fps)
    ensures Cadence(fps, elapsed) == |elapsed| as real * Period(fps)
    decreases |elapsed|
  {
    if elapsed != [] {
      CadenceKeepsRate(fps, elapsed[1..]);
    }
  }

  /** However long frames take, reads never start more often than the configured rate. */
  lemma {:induction false} CadenceNeverFaster(fps: Fps, elapsed: seq<real>)
    ensures Cadence(fps, elapsed) >= |elapsed| as real * Period(fps)
    decreases |elapsed|
  {
    if elapsed != [] {
      CadenceNeverFaster(fps, elapsed[1..]);
    }
  }
}
