/** Gapless playback scheduling of the model's audio segments
    (components/views/LiveView.tsx lines 180-197): each decoded segment
    starts at the later of the running cursor and the output clock, and
    pushes the cursor by its duration; an interruption resets the cursor
    to zero. */
module LivePlayback {

  /** Output audio is produced at 24 kHz, one channel. */
  const OutputSampleRate: nat := 24000

  /** The seconds a segment of `frames` frames lasts. */
  function Duration(frames: nat): (d: real)
    ensures d >= 0.0
  {
    frames as real / OutputSampleRate as real
  }

  /** When a segment plays, in seconds of the output clock. */
  datatype Interval = Interval(start: real, stop: real)

  /** A decoded segment of `frames` frames, arriving when the output
      clock reads `clock`. */
  datatype Arrival = Arrival(frames: nat, clock: real)

  /** `Math.max(cursor, clock)`: never in the past, never before the
      segment already queued. */
  function StartTime(cursor: real, clock: real): (start: real)
    ensures start >= cursor && start >= clock
    ensures start == cursor || start == clock
  {
    if cursor >= clock then cursor else clock
  }

  /** The intervals a run of arrivals is given, with no interruption
      between them, starting from `cursor`. */
  function Schedule(cursor: real, arrivals: seq<Arrival>): (r: seq<Interval>)
    ensures |r| == |arrivals|
    decreases |arrivals|
  {
    if arrivals == [] then []
    else
      var start := StartTime(cursor, arrivals[0].clock);
      var stop := start + Duration(arrivals[0].frames);
      [Interval(start, stop)] + Schedule(stop, arrivals[1..])
  }

  /** The cursor after a run of arrivals. */
  function Cursor(cursor: real, arrivals: seq<Arrival>): (c: real)
    ensures c >= cursor
    decreases |arrivals|
  {
    if arrivals == [] then cursor
    else Cursor(StartTime(cursor, arrivals[0].clock) + Duration(arrivals[0].frames), arrivals[1..])
  }

  /** Every segment starts no earlier than the cursor and its own arrival,
      lasts exactly its duration, and ends no later than the final cursor. */
  lemma {:induction false} ScheduleRespectsArrivals(cursor: real, arrivals: seq<Arrival>)
    ensures var r := Schedule(cursor, arrivals);
      forall i :: 0 <= i < |r| ==>
        && r[i].start >= cursor
        && r[i].start >= arrivals[i].clock
        && r[i].stop == r[i].start + Duration(arrivals[i].frames)
        && r[i].stop <= Cursor(cursor, arrivals)
    decreases |arrivals|
  {
    if arrivals != [] {
      var start := StartTime(cursor, arrivals[0].clock);
      var stop := start + Duration(arrivals[0].frames);
      ScheduleRespectsArrivals(stop, arrivals[1..]);
      var r := Schedule(cursor, arrivals);
      forall i | 1 <= i < |r|
        ensures r[i] == Schedule(stop, arrivals[1..])[i - 1] && arrivals[i] == arrivals[1..][i - 1]
      {
      }
    }
  }

  /** No two segments of a run overlap: each later segment starts after
      every earlier one has stopped. */
  lemma {:induction false} ScheduleHasNoOverlap(cursor: real, arrivals: seq<Arrival>)
    ensures var r := Schedule(cursor, arrivals);
      forall i, j :: 0 <= i < j < |r| ==> r[i].stop <= r[j].start
    decreases |arrivals|
  {
    if arrivals != [] {
      var start := StartTime(cursor, arrivals[0].clock);
      var stop := start + Duration(arrivals[0].frames);
      ScheduleHasNoOverlap(stop, arrivals[1..]);
      ScheduleRespectsArrivals(stop, arrivals[1..]);
      var r := Schedule(cursor, arrivals);
      var tail := Schedule(stop, arrivals[1..]);
      forall i, j | 0 <= i < j < |r| ensures r[i].stop <= r[j].start {
        assert r[j] == tail[j - 1];
        if i > 0 {
          assert r[i] == tail[i - 1];
        }
      }
    }
  }

  /** A segment that arrives before the previous one has stopped plays
      right after it, with no gap. */
  lemma {:induction false} ScheduleIsGapless(cursor: real, arrivals: seq<Arrival>, i: nat)
    requires 0 < i < |arrivals|
    requires arrivals[i].clock <= Schedule(cursor, arrivals)[i - 1].stop
    ensures Schedule(cursor, arrivals)[i].start == Schedule(cursor, arrivals)[i - 1].stop
    decreases |arrivals|
  {
    var start := StartTime(cursor, arrivals[0].clock);
    var stop := start + Duration(arrivals[0].frames);
    var r := Schedule(cursor, arrivals);
    var tail := Schedule(stop, arrivals[1..]);
    assert r[i] == tail[i - 1] && arrivals[i] == arrivals[1..][i - 1];
    if i > 1 {
      assert r[i - 1] == tail[i - 2];
      ScheduleIsGapless(stop, arrivals[1..], i - 1);
    } else {
      assert r[0] == Interval(start, stop);
      assert tail[0].start == StartTime(stop, arrivals[1..][0].clock);
    }
  }

  /** Half a second that arrives at clock 0 plays at once; 0.3 s arriving
      at clock 0.1 waits for it and starts at 0.5. After an interruption
      the cursor is 0 again, so 0.2 s arriving at clock 0.65 starts at
      0.65. */
  lemma InterruptedConversation()
    ensures Schedule(0.0, [Arrival(12000, 0.0), Arrival(7200, 0.1)])
         == [Interval(0.0, 0.5), Interval(0.5, 0.8)]
    ensures Schedule(0.0, [Arrival(4800, 0.65)]) == [Interval(0.65, 0.85)]
  {
  }
}
