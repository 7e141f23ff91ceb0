/**
  The profiler's time counter (perf-counter.ts). A counter keeps a time mark,
  the last value it measured and the number of frames in the current
  window; `Start`/`End` measure one interval, `Frame` counts frames and,
  once a window longer than the averaging period has passed, turns the
  count into frames per 1000 time units. Every value handed to the base
  class's averaging is recorded in the ghost `averaged` history.
 */
module Perf {
  import opened Wrappers

  /** The fields the counter updates: the time mark, the last value and the frame count. */
  datatype Sample = Sample(time: real, value: real, total: nat)

  /** `_opts.average || 1000`: a missing or zero averaging period falls back to 1000. */
  function Window(average: Option<real>): (w: real)
    ensures average.None? || average.value == 0.0 ==> w == 1000.0
    ensures average.Some? && average.value != 0.0 ==> w == average.value
    ensures w > 0.0 <==> average.None? || average.value >= 0.0
  {
    if average.None? || average.value == 0.0 then 1000.0 else average.value
  }

  /** `start(now)`: the mark moves to `now`. */
  function StartState(s: Sample, now: real): Sample {
    s.(time := now)
  }

  /** `end(now)`: the value becomes the time since the mark. */
  function EndState(s: Sample, now: real): Sample {
    s.(value := now - s.time)
  }

  /** `tick()`: `end()` then `start()`, both with the default time 0. */
  function TickState(s: Sample): Sample {
    StartState(EndState(s, 0.0), 0.0)
  }

  /** Whether a frame at `now` closes the window that started at the mark. */
  predicate Closes(s: Sample, now: real, w: real) {
    now - s.time > w
  }

  /**
    `frame(now)`: one more frame; when more than `w` has elapsed since the
    mark, the value becomes the frames counted per 1000 time units, the count
    restarts at 0 and the mark moves to `now`.
   */
  function FrameState(s: Sample, now: real, w: real): Sample
    requires Closes(s, now, w) ==> now - s.time != 0.0
  {
    var e := now - s.time;
    if e > w then Sample(now, (s.total + 1) as real * 1000.0 / e, 0)
    else s.(total := s.total + 1)
  }

  /** `frame` called at each time of `ts` in turn. */
  function Frames(s: Sample, ts: seq<real>, w: real): Sample
    requires w > 0.0
    decreases |ts|
  {
    if |ts| == 0 then s
    else Frames(FrameState(s, ts[0], w), ts[1..], w)
  }

  // ----- What the transitions promise -----

  /** `start(t0)` then `end(t1)` measures `t1 - t0` and keeps the mark at `t0` and the count. */
  lemma StartEndMeasures(s: Sample, t0: real, t1: real)
    ensures EndState(StartState(s, t0), t1) == Sample(t0, t1 - t0, s.total)
  {
  }

  /** `tick` records minus the old mark and resets the mark to 0, so a second tick records 0. */
  lemma TickTwice(s: Sample)
    ensures TickState(s) == Sample(0.0, -s.time, s.total)
    ensures TickState(TickState(s)).value == 0.0
  {
  }

  /** Frames within the window only add to the count. */
  lemma {:induction false} WindowStaysOpen(s: Sample, ts: seq<real>, w: real)
    requires w > 0.0
    requires forall k :: 0 <= k < |ts| ==> ts[k] - s.time <= w
    ensures Frames(s, ts, w) == s.(total := s.total + |ts|)
    decreases |ts|
  {
    if |ts| > 0 {
      var s' := FrameState(s, ts[0], w);
      assert s' == s.(total := s.total + 1);
      WindowStaysOpen(s', ts[1..], w);
    }
  }

  /** Running frames over `ts + [t]` is running them over `ts` and then one more frame at `t`. */
  lemma {:induction false} FramesAppend(s: Sample, ts: seq<real>, t: real, w: real)
    requires w > 0.0
    ensures Frames(s, ts + [t], w) == FrameState(Frames(s, ts, w), t, w)
    decreases |ts|
  {
    if |ts| == 0 {
      assert ([] + [t])[1..] == [];
    } else {
      assert (ts + [t])[1..] == ts[1..] + [t];
      FramesAppend(FrameState(s, ts[0], w), ts[1..], t, w);
    }
  }

  /**
    The first frame past the window turns every frame since the mark,
    itself included, into a positive rate per 1000 time units over the time
    elapsed, restarts the count and moves the mark.
   */
  lemma WindowCloses(s: Sample, ts: seq<real>, t: real, w: real)
    requires w > 0.0
    requires forall k :: 0 <= k < |ts| ==> ts[k] - s.time <= w
    requires t - s.time > w
    ensures Frames(s, ts + [t], w) == Sample(t, (s.total + |ts| + 1) as real * 1000.0 / (t - s.time), 0)
    ensures Frames(s, ts + [t], w).value > 0.0
  {
    WindowStaysOpen(s, ts, w);
    FramesAppend(s, ts, t, w);
    QuotientPositive((s.total + |ts| + 1) as real * 1000.0, t - s.time);
  }

  lemma QuotientPositive(n: real, e: real)
    requires n > 0.0 && e > 0.0
    ensures n / e > 0.0
  {
    assert n == (n / e) * e;
  }

  // ----- The counter object -----

  class PerfCounter {
    var time: real
    var value: real
    var total: nat
    const average: Option<real>
    /** The values passed to the base class's averaging, oldest first. */
    ghost var averaged: seq<real>

    function State(): Sample
      reads this
    {
      Sample(time, value, total)
    }

    /** The mark starts at `now`; the base counter starts with value and count 0. */
    constructor (average: Option<real>, now: real)
      ensures State() == Sample(now, 0.0, 0)
      ensures this.average == average && averaged == []
    {
      this.average := average;
      value := 0.0;
      total := 0;
      averaged := [];
      time := now;
    }

    method Start(now: real)
      modifies this
      ensures State() == StartState(old(State()), now)
      ensures averaged == old(averaged)
    {
      time := now;
    }

    method End(now: real)
      modifies this
      ensures State() == EndState(old(State()), now)
      ensures averaged == old(averaged) + [value]
    {
      value := now - time;
      averaged := averaged + [value];
    }

    method Tick()
      modifies this
      ensures State() == TickState(old(State()))
      ensures averaged == old(averaged) + [-old(time)]
    {
      End(0.0);
      Start(0.0);
    }

    /** A frame at `now`; a window that closes at an elapsed time of 0 (a negative period) is excluded. */
    method Frame(now: real)
      requires Closes(State(), now, Window(average)) ==> now - time != 0.0
      modifies this
      ensures State() == FrameState(old(State()), now, Window(average))
      ensures averaged == old(averaged) + if Closes(old(State()), now, Window(average)) then [value] else []
    {
      var t := now;
      var e := t - time;
      total := total + 1;
      var avg := Window(average);
      if e > avg {
        value := total as real * 1000.0 / e;
        total := 0;
        time := t;
        averaged := averaged + [value];
      }
    }
  }
}
