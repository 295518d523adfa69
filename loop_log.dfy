/**
 * The loop event log, the built-in classic beats, and the playback window
 * that decides which logged events a 1 ms tick of the loop clock fires.
 */
module LoopLog {
  import opened CInt

  const TRACK_NR: int := 6
  const MAX_LOOP_EVENTS: int := 1000
  const NUM_CLASSIC_BEATS: int := 3
  const MAX_BEAT_EVENTS: int := 50
  /** The track number that ends a classic beat. */
  const END_MARKER: int := 255
  /** Width of the playback window, in microseconds. */
  const WINDOW_US: int := 5000
  /** Advance of the loop clock per tick of the loop timer, in microseconds. */
  const TICK_US: int := 1000

  /** `LoopEvent`: which pad to trigger, and when (µs from loop start; ms in the beat table). */
  datatype LoopEvent = LoopEvent(track: Uint8, timestamp: Uint64)

  /** The zero entries the C initialiser leaves after the end marker of every beat. */
  function Padding(n: nat): (r: seq<LoopEvent>)
    ensures |r| == n && forall j :: 0 <= j < n ==> r[j] == LoopEvent(0, 0)
  {
    seq(n, _ => LoopEvent(0, 0))
  }

  /** Beat 0 of `classic_beats`, with times in milliseconds. */
  const BILLIE_JEAN: seq<LoopEvent> := [
    LoopEvent(4, 0), LoopEvent(0, 0), LoopEvent(4, 250), LoopEvent(4, 500),
    LoopEvent(3, 500), LoopEvent(4, 750), LoopEvent(4, 1000), LoopEvent(0, 1000),
    LoopEvent(4, 1250), LoopEvent(4, 1500), LoopEvent(3, 1500), LoopEvent(4, 1750),
    LoopEvent(0, 2000), LoopEvent(255, 0)]

  /** Beat 1 of `classic_beats`. */
  const HIP_HOP: seq<LoopEvent> := [
    LoopEvent(0, 0), LoopEvent(3, 500), LoopEvent(0, 750), LoopEvent(0, 1000),
    LoopEvent(3, 1500), LoopEvent(4, 1750), LoopEvent(0, 2000), LoopEvent(255, 0)]

  /** Beat 2 of `classic_beats`. */
  const FUNK: seq<LoopEvent> := [
    LoopEvent(0, 0), LoopEvent(4, 125), LoopEvent(3, 250), LoopEvent(4, 375),
    LoopEvent(0, 500), LoopEvent(4, 625), LoopEvent(3, 750), LoopEvent(0, 875),
    LoopEvent(4, 1000), LoopEvent(3, 1250), LoopEvent(0, 1500), LoopEvent(4, 1625),
    LoopEvent(3, 1750), LoopEvent(4, 1875), LoopEvent(0, 2000), LoopEvent(255, 0)]

  /** `classic_beats[NUM_CLASSIC_BEATS][MAX_BEAT_EVENTS]`. */
  const CLASSIC_BEATS: seq<seq<LoopEvent>> := [
    BILLIE_JEAN + Padding(MAX_BEAT_EVENTS - |BILLIE_JEAN|),
    HIP_HOP + Padding(MAX_BEAT_EVENTS - |HIP_HOP|),
    FUNK + Padding(MAX_BEAT_EVENTS - |FUNK|)]

  /** `classic_beat_durations`, in milliseconds. */
  const CLASSIC_BEAT_DURATIONS: seq<Uint64> := [2000, 2000, 2000]

  /**
   * Where the copy loop of `load_classic_beat` starting at `i` stops: the
   * first end marker at or after `i`, or `MAX_BEAT_EVENTS` when there is none.
   */
  function EndOfBeat(beat: seq<LoopEvent>, i: nat): (r: nat)
    requires |beat| == MAX_BEAT_EVENTS && i <= MAX_BEAT_EVENTS
    ensures i <= r <= MAX_BEAT_EVENTS
    ensures forall j :: i <= j < r ==> beat[j].track != END_MARKER
    ensures r < MAX_BEAT_EVENTS ==> beat[r].track == END_MARKER
    decreases MAX_BEAT_EVENTS - i
  {
    if i == MAX_BEAT_EVENTS || beat[i].track == END_MARKER then i else EndOfBeat(beat, i + 1)
  }

  /** The number of events beat `k` loads: the position of its first end marker. */
  function BeatLength(k: nat): (n: nat)
    requires k < NUM_CLASSIC_BEATS
    ensures n <= MAX_BEAT_EVENTS
  {
    EndOfBeat(CLASSIC_BEATS[k], 0)
  }

  /** A table entry as it is stored in the log: the same track, its time converted from ms to µs. */
  function ToMicros(e: LoopEvent): (r: LoopEvent)
    ensures r.track == e.track
    ensures e.timestamp < TWO_64 / 1000 ==> r.timestamp == e.timestamp * 1000
  {
    LoopEvent(e.track, WrapU64(e.timestamp * 1000))
  }

  /**
   * The built-in beats as loaded: 13, 7 and 15 events, every track a drum
   * pad that has a sound by default, times non-decreasing and within the
   * beat's duration.
   */
  lemma ClassicBeatFacts()
    ensures BeatLength(0) == 13 && BeatLength(1) == 7 && BeatLength(2) == 15
    ensures forall k, j :: 0 <= k < NUM_CLASSIC_BEATS && 0 <= j < BeatLength(k) ==>
      && CLASSIC_BEATS[k][j].track < TRACK_NR - 1
      && CLASSIC_BEATS[k][j].timestamp <= CLASSIC_BEAT_DURATIONS[k]
      && (j + 1 < BeatLength(k) ==> CLASSIC_BEATS[k][j].timestamp <= CLASSIC_BEATS[k][j + 1].timestamp)
  {
    BeatEnds(CLASSIC_BEATS[0], BILLIE_JEAN);
    BeatEnds(CLASSIC_BEATS[1], HIP_HOP);
    BeatEnds(CLASSIC_BEATS[2], FUNK);
    TableInOrder();
    forall k, j | 0 <= k < NUM_CLASSIC_BEATS && 0 <= j < BeatLength(k)
      ensures CLASSIC_BEATS[k][j].track < TRACK_NR - 1
      ensures CLASSIC_BEATS[k][j].timestamp <= CLASSIC_BEAT_DURATIONS[k]
      ensures j + 1 < BeatLength(k) ==> CLASSIC_BEATS[k][j].timestamp <= CLASSIC_BEATS[k][j + 1].timestamp
    {
      if k == 0 {
        assert InOrderAt(BILLIE_JEAN, 13, j);
      } else if k == 1 {
        assert InOrderAt(HIP_HOP, 7, j);
      } else {
        assert InOrderAt(FUNK, 15, j);
      }
    }
  }

  /** Converting a loaded entry of a built-in beat to µs never wraps. */
  lemma BeatEntryInMicros(k: nat, j: nat)
    requires k < NUM_CLASSIC_BEATS && j < BeatLength(k)
    ensures ToMicros(CLASSIC_BEATS[k][j]).track == CLASSIC_BEATS[k][j].track
    ensures ToMicros(CLASSIC_BEATS[k][j]).timestamp == CLASSIC_BEATS[k][j].timestamp * 1000
  {
    ClassicBeatFacts();
  }

  /** Entry `j` of the first `n` events is a pad 0 to 4, no later than the beat's 2000 ms, and no later than entry `j + 1`. */
  predicate InOrderAt(events: seq<LoopEvent>, n: nat, j: nat)
    requires j < n <= |events|
  {
    && events[j].track < TRACK_NR - 1
    && events[j].timestamp <= 2000
    && (j + 1 < n ==> events[j].timestamp <= events[j + 1].timestamp)
  }

  lemma TableInOrder()
    ensures forall j :: 0 <= j < 13 ==> InOrderAt(BILLIE_JEAN, 13, j)
    ensures forall j :: 0 <= j < 7 ==> InOrderAt(HIP_HOP, 7, j)
    ensures forall j :: 0 <= j < 15 ==> InOrderAt(FUNK, 15, j)
  {
    assert forall j :: 0 <= j < 15 ==>
      FUNK[j].track < 5 && FUNK[j].timestamp <= 2000 && (j + 1 < 15 ==> FUNK[j].timestamp <= FUNK[j + 1].timestamp);
  }

  /** A padded beat whose only end marker is the last entry of `events` ends there. */
  lemma BeatEnds(beat: seq<LoopEvent>, events: seq<LoopEvent>)
    requires 0 < |events| <= MAX_BEAT_EVENTS
    requires beat == events + Padding(MAX_BEAT_EVENTS - |events|)
    requires events[|events| - 1].track == END_MARKER
    requires forall j :: 0 <= j < |events| - 1 ==> events[j].track != END_MARKER
    ensures EndOfBeat(beat, 0) == |events| - 1
    ensures forall j :: 0 <= j < |events| ==> beat[j] == events[j]
  {
    var n := |events| - 1;
    assert beat[n] == events[n];
  }

  /**
   * The playback window, as written: `timestamp <= loop_timestamp &&
   * timestamp > loop_timestamp - 5000`, the subtraction in `uint64_t`.
   */
  predicate InWindow(timestamp: Uint64, clock: Uint64) {
    timestamp <= clock && timestamp > WrapU64(clock - WINDOW_US)
  }

  /**
   * The window in plain arithmetic: while the clock is below 5000 µs the
   * subtraction wraps to a huge value and nothing falls in the window.
   */
  lemma InWindowExactly(timestamp: Uint64, clock: Uint64)
    ensures InWindow(timestamp, clock) <==> WINDOW_US <= clock && clock - WINDOW_US < timestamp <= clock
  {
  }

  /** An event logged at time 0 never fires: the clock is never below 5000 µs and at most 0 at once. */
  lemma EventAtZeroNeverFires(clock: Uint64)
    ensures !InWindow(0, clock)
  {
  }

  /** The first tick number `k` (clock `1000 * k`) with `timestamp <= 1000 * k`. */
  function FirstTickAtOrAfter(timestamp: nat): (k: nat)
    ensures timestamp <= TICK_US * k < timestamp + TICK_US
  {
    (timestamp + TICK_US - 1) / TICK_US
  }

  /**
   * On the 1 ms grid the clock runs on, an event fires on the ticks from
   * the first one at or after its time, for five ticks, but never on a tick
   * before the fifth: so an event later than 4 ms fires five times per
   * pass, an earlier one fewer times, and one at 0 never.
   */
  lemma FiringTicks(timestamp: Uint64, k: nat)
    requires TICK_US * k < TWO_64
    ensures InWindow(timestamp, TICK_US * k) <==>
      && 5 <= k
      && FirstTickAtOrAfter(timestamp) <= k < FirstTickAtOrAfter(timestamp) + 5
  {
    var f := FirstTickAtOrAfter(timestamp);
    InWindowExactly(timestamp, TICK_US * k);
    if f <= k {
      assert TICK_US * f <= TICK_US * k;
    } else {
      assert TICK_US * k <= TICK_US * (f - 1);
    }
    if k < f + 5 {
      assert TICK_US * k <= TICK_US * (f + 4);
    } else {
      assert TICK_US * (f + 5) <= TICK_US * k;
    }
  }

  /** Whether `e` re-arms its track when the clock reads `clock`. */
  predicate Fires(e: LoopEvent, clock: Uint64) {
    InWindow(e.timestamp, clock) && e.track < TRACK_NR
  }

  /** The tracks the events `events` re-arm at clock `clock`, as `check_loop_events` scans them in order. */
  function FiredTracks(events: seq<LoopEvent>, clock: Uint64): (r: set<int>)
    ensures forall t :: t in r ==> 0 <= t < TRACK_NR
  {
    if events == [] then {}
    else
      var e := events[|events| - 1];
      FiredTracks(events[..|events| - 1], clock) + FiredBy(e, clock)
  }

  /** The track `e` re-arms on its own at clock `clock`, if any. */
  function FiredBy(e: LoopEvent, clock: Uint64): set<int> {
    if Fires(e, clock) then {e.track as int} else {}
  }

  /** A track is re-armed exactly when some event of that track lies in the window. */
  lemma {:induction false} FiredTracksExactly(events: seq<LoopEvent>, clock: Uint64, t: int)
    ensures t in FiredTracks(events, clock) <==>
      exists i :: 0 <= i < |events| && events[i].track == t && Fires(events[i], clock)
  {
    if events != [] {
      var n := |events| - 1;
      var front := events[..n];
      FiredTracksExactly(front, clock, t);
      if t in FiredTracks(front, clock) {
        var i :| 0 <= i < |front| && front[i].track == t && Fires(front[i], clock);
        assert events[i] == front[i];
      }
      if exists i :: 0 <= i < |events| && events[i].track == t && Fires(events[i], clock) {
        var i :| 0 <= i < |events| && events[i].track == t && Fires(events[i], clock);
        if i < n {
          assert front[i] == events[i];
        }
      }
    }
  }

  /** Scanning one more event adds what that event fires on its own. */
  lemma FiredTracksAppend(events: seq<LoopEvent>, i: nat, clock: Uint64)
    requires i < |events|
    ensures FiredTracks(events[..i + 1], clock) == FiredTracks(events[..i], clock) + FiredBy(events[i], clock)
  {
    assert events[..i + 1][..i] == events[..i];
  }
}
