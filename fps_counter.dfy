/** logFPS of the earlier renderer revision: a frame counter that is printed
    and restarted whenever at least a second of steady-clock time has passed
    since the last print. Time is an integer count of clock ticks, passed in
    by the caller in place of `steady_clock::now()`. */
module FpsCounting {
  import opened VkTypes

  /** `std::chrono::seconds(1)` in ticks of `steady_clock`, which counts
      nanoseconds. */
  const TicksPerSecond: int := 1_000_000_000

  /** The two globals of logFPS: `fps` (a `uint32_t`) and `lastPrintTime`. */
  datatype FpsState = FpsState(fps: U32, lastPrintTime: int)

  /** A print: the time of the call and the count it printed. */
  datatype Print = Print(time: int, count: U32)

  /** One logFPS call at time `now`: the count goes up by one (modulo 2^32);
      once a second has passed since the last print, that count is printed,
      and the counter restarts at 0 from `now`. */
  function LogStep(st: FpsState, now: int): (r: (FpsState, Option<U32>))
    ensures r.1.Some? <==> now - st.lastPrintTime >= TicksPerSecond
    ensures r.1.Some? ==> r.1.value == ToU32(st.fps + 1) && r.0 == FpsState(0, now)
    ensures r.1.None? ==> r.0 == FpsState(ToU32(st.fps + 1), st.lastPrintTime)
    ensures st.fps < UINT32_MAX ==> (if r.1.Some? then r.1.value else r.0.fps) == st.fps + 1
  {
    var counted := ToU32(st.fps + 1);
    if now - st.lastPrintTime >= TicksPerSecond then (FpsState(0, now), Some(counted))
    else (FpsState(counted, st.lastPrintTime), None)
  }

  /** A run of logFPS calls at `times`, in order: the state afterwards and
      the prints made. */
  function Run(st: FpsState, times: seq<int>): (FpsState, seq<Print>)
    decreases |times|
  {
    if times == [] then (st, [])
    else
      var step := LogStep(st, times[0]);
      var rest := Run(step.0, times[1..]);
      (rest.0, (if step.1.Some? then [Print(times[0], step.1.value)] else []) + rest.1)
  }

  function SumCounts(prints: seq<Print>): int
    decreases |prints|
  {
    if prints == [] then 0 else prints[0].count + SumCounts(prints[1..])
  }

  /** Every call is counted once: the printed counts and the final counter
      add up to the calls made (plus the counter's start), as long as the
      counter does not wrap. */
  lemma {:induction false} CallsAccounted(st: FpsState, times: seq<int>)
    requires st.fps + |times| <= UINT32_MAX
    ensures SumCounts(Run(st, times).1) + Run(st, times).0.fps == st.fps + |times|
    decreases |times|
  {
    if times != [] {
      var step := LogStep(st, times[0]);
      CallsAccounted(step.0, times[1..]);
      var own := if step.1.Some? then [Print(times[0], step.1.value)] else [];
      var rest := Run(step.0, times[1..]).1;
      assert Run(st, times).1 == own + rest;
      if step.1.Some? {
        assert (own + rest)[1..] == rest;
      } else {
        assert own + rest == rest;
      }
    }
  }

  /** The first print comes at least a second after the starting print
      time; afterwards the print time is that of the last print, or the
      starting one when nothing was printed. */
  lemma {:induction false} PrintTimeTracked(st: FpsState, times: seq<int>)
    ensures var r := Run(st, times);
      && (|r.1| > 0 ==> r.1[0].time - st.lastPrintTime >= TicksPerSecond)
      && r.0.lastPrintTime == if r.1 == [] then st.lastPrintTime else r.1[|r.1| - 1].time
    decreases |times|
  {
    if times != [] {
      var step := LogStep(st, times[0]);
      PrintTimeTracked(step.0, times[1..]);
      var rest := Run(step.0, times[1..]).1;
      if step.1.Some? {
        var own := [Print(times[0], step.1.value)];
        assert Run(st, times).1 == own + rest;
        assert rest != [] ==> (own + rest)[|own + rest| - 1] == rest[|rest| - 1];
      } else {
        assert Run(st, times).1 == rest;
      }
    }
  }

  /** Prints are at least a second apart. */
  lemma {:induction false} PrintsSpaced(st: FpsState, times: seq<int>)
    ensures var prints := Run(st, times).1;
      forall k :: 0 < k < |prints| ==> prints[k].time - prints[k - 1].time >= TicksPerSecond
    decreases |times|
  {
    if times != [] {
      var step := LogStep(st, times[0]);
      PrintsSpaced(step.0, times[1..]);
      var rest := Run(step.0, times[1..]).1;
      if step.1.Some? {
        PrintTimeTracked(step.0, times[1..]);
        var all := [Print(times[0], step.1.value)] + rest;
        assert Run(st, times).1 == all;
        forall k | 0 < k < |all|
          ensures all[k].time - all[k - 1].time >= TicksPerSecond
        {
          assert all[k] == rest[k - 1];
          if k > 1 {
            assert all[k - 1] == rest[k - 2];
          }
        }
      } else {
        assert Run(st, times).1 == [] + rest == rest;
        assert Run(st, times).1 == Run(step.0, times[1..]).1;
      }
    }
  }

  /** The two globals, updated in place by each call. */
  class FpsCounter {
    var fps: U32
    var lastPrintTime: int

    function State(): FpsState
      reads this
    {
      FpsState(fps, lastPrintTime)
    }

    /** main sets `lastPrintTime` right after creating the renderer and
        before `renderer.init()`, so the first interval includes the Vulkan
        set-up. */
    constructor(now: int)
      ensures State() == FpsState(0, now)
    {
      fps, lastPrintTime := 0, now;
    }

    /** logFPS at time `now`; the result is the count it prints, if any. */
    method LogFps(now: int) returns (printed: Option<U32>)
      modifies this
      ensures (State(), printed) == LogStep(old(State()), now)
    {
      fps := ToU32(fps + 1);
      if now - lastPrintTime >= TicksPerSecond {
        printed := Some(fps);
        lastPrintTime := now;
        fps := 0;
      } else {
        printed := None;
      }
    }
  }
}
