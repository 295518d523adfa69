/**
 * What the firmware promises about its entry points, stated over the
 * specification functions of `DrumSpec`.
 */
module DrumProperties {
  import opened CInt
  import opened Wrappers
  import opened Bits
  import opened Mixer
  import opened LoopLog
  import opened DrumSpec

  // ---------------------------------------------------------------------
  // Sound assignment

  /**
   * `change_button_sound` points pad `b` at sound `k` (mapping, length and
   * buffer) and changes nothing else; an out-of-range pad or sound is a no-op.
   */
  lemma ChangeButtonSoundEffect(s: MachineState, b: Uint8, k: Uint8)
    requires WellFormed(s)
    ensures var r := ChangeButtonSound(s, b, k);
      && (b >= TRACK_NR || k >= SOUND_LIBRARY_SIZE ==> r == s)
      && (b < TRACK_NR && k < SOUND_LIBRARY_SIZE ==>
           && r.buttonSoundMapping[b] == k
           && r.tracks[b] == Some(s.library[k])
           && r.tracksSampNr[b] == |s.library[k]|
           && (forall j :: 0 <= j < TRACK_NR && j != b ==>
                 && r.buttonSoundMapping[j] == s.buttonSoundMapping[j]
                 && VoiceOf(r, j) == VoiceOf(s, j))
           && VoiceOf(r, b).playing == VoiceOf(s, b).playing
           && VoiceOf(r, b).remaining == VoiceOf(s, b).remaining
           && r == s.(buttonSoundMapping := r.buttonSoundMapping, tracksSampNr := r.tracksSampNr,
                      tracks := r.tracks))
  {
    if b < TRACK_NR && k < SOUND_LIBRARY_SIZE {
      var r := ChangeButtonSound(s, b, k);
      assert r.tracksPlaying == s.tracksPlaying && r.sampPlayCnt == s.sampPlayCnt;
      forall j | 0 <= j < TRACK_NR && j != b
        ensures VoiceOf(r, j) == VoiceOf(s, j)
      {
        assert r.tracks[j] == s.tracks[j] && r.tracksSampNr[j] == s.tracksSampNr[j];
      }
    }
  }

  // ---------------------------------------------------------------------
  // Loop event log

  /**
   * `add_loop_event` appends `{track, now - loop_start_time}` (in `uint64_t`)
   * and counts it only while the log has room; a full log, its count and
   * its entries stay as they are. Entries past the count are untouched too.
   */
  lemma AddLoopEventAppends(s: MachineState, track: Uint8, now: Uint64)
    requires WellFormed(s)
    ensures var r := AddLoopEvent(s, track, now);
      && (s.loopEventCount < MAX_LOOP_EVENTS ==>
           && r.loopEventCount == s.loopEventCount + 1
           && Logged(r) == Logged(s) + [LoopEvent(track, WrapU64(now - s.loopStartTime))]
           && r.loopEvents[r.loopEventCount..] == s.loopEvents[r.loopEventCount..])
      && (s.loopEventCount == MAX_LOOP_EVENTS ==> r == s)
      && r == s.(loopEvents := r.loopEvents, loopEventCount := r.loopEventCount)
  {
    if s.loopEventCount < MAX_LOOP_EVENTS {
      UpdateAfterPrefix(s.loopEvents, s.loopEventCount, LoopEvent(track, WrapU64(now - s.loopStartTime)));
    }
  }

  /** Writing entry `n` of `a` extends its first `n` entries by one and keeps the entries after it. */
  lemma UpdateAfterPrefix<T>(a: seq<T>, n: nat, e: T)
    requires n < |a|
    ensures a[n := e][..n + 1] == a[..n] + [e]
    ensures a[n := e][n + 1..] == a[n + 1..]
  {
    assert a[n := e][..n + 1] == a[..n] + [e] by {
      assert forall j :: 0 <= j < n ==> a[n := e][..n + 1][j] == a[j];
    }
  }

  /** A recording never loses events to wrap-around: once full, the log stays full and unchanged. */
  lemma {:induction false} FullLogKeepsItsEvents(s: MachineState, tracks: seq<Uint8>, now: Uint64)
    requires WellFormed(s) && s.loopEventCount == MAX_LOOP_EVENTS
    ensures AddEach(s, tracks, now) == s
    decreases |tracks|
  {
    if tracks != [] {
      FullLogKeepsItsEvents(s, tracks[1..], now);
    }
  }

  /** `add_loop_event` for each track of `tracks` at the same time `now`. */
  function AddEach(s: MachineState, tracks: seq<Uint8>, now: Uint64): (r: MachineState)
    requires WellFormed(s)
    ensures WellFormed(r)
    decreases |tracks|
  {
    if tracks == [] then s else AddEach(AddLoopEvent(s, tracks[0], now), tracks[1..], now)
  }

  /**
   * `load_classic_beat`: past the table nothing changes; otherwise the log
   * holds exactly the entries before the beat's first end marker, each with
   * its time multiplied by 1000, entries after them keep their old
   * contents, and the duration is the beat's duration in µs.
   */
  lemma LoadClassicBeatEffect(s: MachineState, k: Uint8)
    requires WellFormed(s)
    ensures k >= NUM_CLASSIC_BEATS ==> LoadClassicBeat(s, k) == s
    ensures k < NUM_CLASSIC_BEATS ==>
      var r := LoadClassicBeat(s, k);
      && r.loopEventCount == EndOfBeat(CLASSIC_BEATS[k], 0)
      && (forall j :: 0 <= j < r.loopEventCount ==> CLASSIC_BEATS[k][j].track != END_MARKER)
      && (r.loopEventCount < MAX_BEAT_EVENTS ==> CLASSIC_BEATS[k][r.loopEventCount].track == END_MARKER)
      && (forall j :: 0 <= j < r.loopEventCount ==>
            Logged(r)[j].track == CLASSIC_BEATS[k][j].track &&
            Logged(r)[j].timestamp == CLASSIC_BEATS[k][j].timestamp * 1000)
      && r.loopEvents[r.loopEventCount..] == s.loopEvents[r.loopEventCount..]
      && r.loopDuration == CLASSIC_BEAT_DURATIONS[k] * 1000
      && r == s.(loopEvents := r.loopEvents, loopEventCount := r.loopEventCount,
                 loopDuration := r.loopDuration)
  {
    if k < NUM_CLASSIC_BEATS {
      var r := LoadClassicBeat(s, k);
      var n := BeatLength(k);
      assert r.loopEvents == LoadedEvents(s.loopEvents, k);
      forall j | 0 <= j < n
        ensures Logged(r)[j].track == CLASSIC_BEATS[k][j].track &&
            Logged(r)[j].timestamp == CLASSIC_BEATS[k][j].timestamp * 1000
      {
        BeatEntryInMicros(k, j);
        assert Logged(r)[j] == ToMicros(CLASSIC_BEATS[k][j]);
      }
      assert r.loopEvents[n..] == s.loopEvents[n..] by {
        assert forall j :: n <= j < MAX_LOOP_EVENTS ==> r.loopEvents[j] == s.loopEvents[j];
      }
    }
  }

  /** Loading the same beat twice leaves the same state as loading it once. */
  lemma LoadClassicBeatIdempotent(s: MachineState, k: Uint8)
    requires WellFormed(s)
    ensures LoadClassicBeat(LoadClassicBeat(s, k), k) == LoadClassicBeat(s, k)
  {
    if k < NUM_CLASSIC_BEATS {
      var once := LoadClassicBeat(s, k);
      assert LoadedEvents(once.loopEvents, k) == once.loopEvents;
    }
  }

  // ---------------------------------------------------------------------
  // The input dispatcher

  /** The drum pad pins are distinct and none is a mode button. */
  lemma PadPin(b: nat)
    requires b < TRACK_NR
    ensures ButtonIndex(BUTTON_PINS[b]) == b
    ensures BUTTON_PINS[b] !in {SOUND_SELECT_PIN, RECORD_PIN, PLAY_PIN, CLEAR_PIN, BEAT_SELECT_PIN}
  {
    if b == 0 {
    } else if b == 1 {
      assert ButtonIndexFrom(BUTTON_PINS[b], 0) == ButtonIndexFrom(BUTTON_PINS[b], 1);
    } else if b == 2 {
      assert ButtonIndexFrom(BUTTON_PINS[b], 0) == ButtonIndexFrom(BUTTON_PINS[b], 2);
    } else if b == 3 {
      assert ButtonIndexFrom(BUTTON_PINS[b], 0) == ButtonIndexFrom(BUTTON_PINS[b], 3);
    } else if b == 4 {
      assert ButtonIndexFrom(BUTTON_PINS[b], 0) == ButtonIndexFrom(BUTTON_PINS[b], 4);
    } else {
      assert ButtonIndexFrom(BUTTON_PINS[b], 0) == ButtonIndexFrom(BUTTON_PINS[b], 5);
    }
  }

  /** Only a falling edge does anything, and a pin that is not wired to an input does nothing. */
  lemma IgnoredEdges(s: MachineState, gpio: Uint32, pressed: bool, now: Uint64)
    requires WellFormed(s)
    ensures GpioCallback(s, gpio, false, pressed, now) == s
    ensures gpio !in {SOUND_SELECT_PIN, RECORD_PIN, PLAY_PIN, CLEAR_PIN, BEAT_SELECT_PIN} &&
            (forall b :: 0 <= b < TRACK_NR ==> BUTTON_PINS[b] != gpio) ==>
            GpioCallback(s, gpio, true, pressed, now) == s
  {
  }

  /**
   * Entering sound-select mode turns recording, playback and classic-beat
   * mode off, selects no pad, starts from sound 0 and turns both LEDs off;
   * the voices and the log are kept.
   */
  lemma SoundSelectEntry(s: MachineState, now: Uint64)
    requires WellFormed(s) && !s.soundSelectMode
    ensures var r := GpioCallback(s, SOUND_SELECT_PIN, true, true, now);
      && r.soundSelectMode && !r.recordMode && !r.playMode && !r.classicBeatMode
      && r.currentButtonToConfigure == NO_BUTTON && r.currentlySelectedSound == 0
      && !r.recordLed && !r.playLed
      && Voices(r) == Voices(s) && Logged(r) == Logged(s) && r.loopDuration == s.loopDuration
      && r.buttonSoundMapping == s.buttonSoundMapping
  {
  }

  /** Leaving sound-select mode changes only the flag. */
  lemma SoundSelectExit(s: MachineState, now: Uint64)
    requires WellFormed(s) && s.soundSelectMode
    ensures GpioCallback(s, SOUND_SELECT_PIN, true, true, now) == s.(soundSelectMode := false)
  {
  }

  /** While sound-select mode is on, the record, play, clear and beat-select buttons change nothing. */
  lemma SoundSelectIgnoresModeButtons(s: MachineState, gpio: Uint32, pressed: bool, now: Uint64)
    requires WellFormed(s) && s.soundSelectMode
    requires gpio in {RECORD_PIN, PLAY_PIN, CLEAR_PIN, BEAT_SELECT_PIN}
    ensures GpioCallback(s, gpio, true, pressed, now) == s
  {
  }

  /**
   * In sound-select mode, pressing the pad already selected moves it on to
   * the next sound of the library (cyclically), points that pad (and no
   * other) at it, and previews it: the pad's voice is armed with the new
   * sound's length. The log and the modes are unchanged.
   */
  lemma SoundSelectSamePad(s: MachineState, b: nat, now: Uint64)
    requires WellFormed(s) && s.soundSelectMode && b < TRACK_NR && s.currentButtonToConfigure == b
    ensures var r := GpioCallback(s, BUTTON_PINS[b], true, true, now);
      var k := (s.currentlySelectedSound + 1) % SOUND_LIBRARY_SIZE;
      && r.currentlySelectedSound == k && r.currentButtonToConfigure == b
      && r.buttonSoundMapping == s.buttonSoundMapping[b := k]
      && r.tracks == s.tracks[b := Some(s.library[k])]
      && r.tracksSampNr == s.tracksSampNr[b := |s.library[k]|]
      && VoiceOf(r, b) == Arm(Voice(VoiceOf(s, b).playing, VoiceOf(s, b).remaining,
                                    |s.library[k]|, Some(s.library[k])))
      && (forall j :: 0 <= j < TRACK_NR && j != b ==> VoiceOf(r, j) == VoiceOf(s, j))
      && r.buttonsPressed[b] && r.buttonStateChanged
      && Logged(r) == Logged(s) && r.soundSelectMode && !r.recordMode && !r.playMode
      && r == s.(currentlySelectedSound := k, buttonSoundMapping := r.buttonSoundMapping,
                 tracks := r.tracks, tracksSampNr := r.tracksSampNr,
                 tracksPlaying := r.tracksPlaying, sampPlayCnt := r.sampPlayCnt,
                 buttonsPressed := s.buttonsPressed[b := true], buttonStateChanged := true)
  {
    PadPin(b);
  }

  /**
   * In sound-select mode, pressing another pad selects it, takes its
   * current sound as the selected sound, leaves every mapping as it is and
   * previews the pad's sound.
   */
  lemma SoundSelectOtherPad(s: MachineState, b: nat, now: Uint64)
    requires WellFormed(s) && s.soundSelectMode && b < TRACK_NR && s.currentButtonToConfigure != b
    ensures var r := GpioCallback(s, BUTTON_PINS[b], true, true, now);
      && r.currentButtonToConfigure == b
      && r.currentlySelectedSound == s.buttonSoundMapping[b]
      && r.buttonSoundMapping == s.buttonSoundMapping
      && r.tracks == s.tracks && r.tracksSampNr == s.tracksSampNr
      && VoiceOf(r, b) == Arm(VoiceOf(s, b))
      && (forall j :: 0 <= j < TRACK_NR && j != b ==> VoiceOf(r, j) == VoiceOf(s, j))
      && Logged(r) == Logged(s) && r.soundSelectMode && !r.recordMode && !r.playMode
      && r == s.(currentButtonToConfigure := b, currentlySelectedSound := r.currentlySelectedSound,
                 tracksPlaying := r.tracksPlaying, sampPlayCnt := r.sampPlayCnt,
                 buttonsPressed := s.buttonsPressed[b := true], buttonStateChanged := true)
  {
    PadPin(b);
  }

  /**
   * Outside sound-select mode a pad press arms that pad's voice from the
   * start of its sound, leaves every other voice alone and, while
   * recording, logs it (when the log has room).
   */
  lemma NormalPadPress(s: MachineState, b: nat, now: Uint64)
    requires WellFormed(s) && !s.soundSelectMode && b < TRACK_NR
    ensures var r := GpioCallback(s, BUTTON_PINS[b], true, true, now);
      && VoiceOf(r, b) == Arm(VoiceOf(s, b))
      && (forall j :: 0 <= j < TRACK_NR && j != b ==> VoiceOf(r, j) == VoiceOf(s, j))
      && r.buttonSoundMapping == s.buttonSoundMapping
      && r.buttonsPressed[b] && r.buttonStateChanged
      && (s.recordMode && s.loopEventCount < MAX_LOOP_EVENTS ==>
            Logged(r) == Logged(s) + [LoopEvent(b, WrapU64(now - s.loopStartTime))])
      && (!s.recordMode || s.loopEventCount == MAX_LOOP_EVENTS ==> Logged(r) == Logged(s))
      && r.recordMode == s.recordMode && r.playMode == s.playMode
      && r == s.(tracksPlaying := r.tracksPlaying, sampPlayCnt := r.sampPlayCnt,
                 buttonsPressed := s.buttonsPressed[b := true], buttonStateChanged := true,
                 loopEvents := r.loopEvents, loopEventCount := r.loopEventCount)
  {
    PadPin(b);
    var armed := ArmTracks(s.(buttonsPressed := s.buttonsPressed[b := true], buttonStateChanged := true), {b});
    AddLoopEventAppends(armed, b, now);
  }

  /** A pad whose pin reads high again by the time the edge is handled only records its state. */
  lemma PadRelease(s: MachineState, b: nat, now: Uint64)
    requires WellFormed(s) && b < TRACK_NR
    ensures GpioCallback(s, BUTTON_PINS[b], true, false, now) ==
      s.(buttonsPressed := s.buttonsPressed[b := false], buttonStateChanged := true)
  {
    PadPin(b);
  }

  /**
   * Starting a recording: record mode on, classic-beat mode off, the start
   * time is `now` and the log is emptied; playback is left as it was.
   */
  lemma RecordStart(s: MachineState, now: Uint64)
    requires WellFormed(s) && !s.soundSelectMode && !s.recordMode
    ensures var r := GpioCallback(s, RECORD_PIN, true, true, now);
      && r.recordMode && !r.classicBeatMode && r.loopStartTime == now
      && Logged(r) == [] && r.recordLed
      && r.playMode == s.playMode && r.loopDuration == s.loopDuration && Voices(r) == Voices(s)
      && r == s.(recordMode := true, classicBeatMode := false, loopStartTime := now,
                 loopEventCount := 0, recordLed := true)
  {
  }

  /**
   * Stopping a recording: the duration is the time since the start (in
   * `uint64_t`), record mode is off, and playback starts from the loop's
   * beginning exactly when something was recorded.
   */
  lemma RecordStop(s: MachineState, now: Uint64)
    requires WellFormed(s) && !s.soundSelectMode && s.recordMode
    ensures var r := GpioCallback(s, RECORD_PIN, true, true, now);
      && !r.recordMode && !r.recordLed
      && r.loopEndTime == now && r.loopDuration == WrapU64(now - s.loopStartTime)
      && (s.loopEventCount > 0 ==> r.playMode && r.loopTimestamp == 0 && r.playLed)
      && (s.loopEventCount == 0 ==> r.playMode == s.playMode && r.loopTimestamp == s.loopTimestamp)
      && Logged(r) == Logged(s) && Voices(r) == Voices(s)
      && r == s.(recordMode := false, loopEndTime := now, loopDuration := r.loopDuration,
                 recordLed := false, playMode := r.playMode, loopTimestamp := r.loopTimestamp,
                 playLed := r.playLed)
  {
  }

  /** The play button toggles playback, restarting the loop clock when it turns playback on. */
  lemma PlayToggle(s: MachineState, now: Uint64)
    requires WellFormed(s) && !s.soundSelectMode
    ensures var r := GpioCallback(s, PLAY_PIN, true, true, now);
      && r.playMode == !s.playMode && r.playLed == r.playMode
      && (r.playMode ==> r.loopTimestamp == 0)
      && r.classicBeatMode == s.classicBeatMode && r.recordMode == s.recordMode
      && Logged(r) == Logged(s) && r.loopDuration == s.loopDuration
      && r == s.(playMode := r.playMode, loopTimestamp := r.loopTimestamp, playLed := r.playLed)
  {
  }

  /** The clear button empties the log, zeroes the duration and leaves classic-beat mode. */
  lemma ClearButton(s: MachineState, now: Uint64)
    requires WellFormed(s) && !s.soundSelectMode
    ensures var r := GpioCallback(s, CLEAR_PIN, true, true, now);
      && Logged(r) == [] && r.loopDuration == 0 && !r.classicBeatMode
      && r == s.(loopEventCount := 0, loopDuration := 0, classicBeatMode := false)
  {
  }

  /**
   * The beat-select button moves to the next built-in beat (cyclically),
   * loads it and plays it from its start, stopping any recording.
   */
  lemma BeatSelect(s: MachineState, now: Uint64)
    requires WellFormed(s) && !s.soundSelectMode
    ensures var r := GpioCallback(s, BEAT_SELECT_PIN, true, true, now);
      var k := (s.currentBeat + 1) % NUM_CLASSIC_BEATS;
      && r.currentBeat == k
      && r.loopEventCount == BeatLength(k)
      && (forall j :: 0 <= j < r.loopEventCount ==> Logged(r)[j] == ToMicros(CLASSIC_BEATS[k][j]))
      && r.loopDuration == CLASSIC_BEAT_DURATIONS[k] * 1000
      && r.classicBeatMode && r.playMode && !r.recordMode && r.loopTimestamp == 0
      && !r.recordLed && r.playLed
      && Voices(r) == Voices(s)
      && r == s.(currentBeat := k, loopEvents := r.loopEvents, loopEventCount := r.loopEventCount,
                 loopDuration := r.loopDuration, classicBeatMode := true, playMode := true,
                 recordMode := false, loopTimestamp := 0, recordLed := false, playLed := true)
  {
  }

  // ---------------------------------------------------------------------
  // The loop player

  /** Some logged event of track `i` lies in the window of clock `clock`. */
  predicate LoggedInWindow(s: MachineState, i: int, clock: Uint64)
    requires WellFormed(s)
  {
    exists j :: 0 <= j < s.loopEventCount && s.loopEvents[j].track == i && InWindow(s.loopEvents[j].timestamp, clock)
  }

  /**
   * `check_loop_events` while playing a non-empty loop: a voice is re-armed
   * exactly when some logged event of its track lies in the window of the
   * current clock, and the clock wraps to 0 once it reaches the duration,
   * so that afterwards it is below the duration.
   */
  lemma {:induction false} CheckLoopEventsEffect(s: MachineState)
    requires WellFormed(s) && s.playMode && s.loopDuration > 0
    ensures var r := CheckLoopEvents(s);
      && r.loopTimestamp == (if s.loopTimestamp >= s.loopDuration then 0 else s.loopTimestamp)
      && r.loopTimestamp < r.loopDuration
      && (forall i :: 0 <= i < TRACK_NR ==>
            VoiceOf(r, i) == if LoggedInWindow(s, i, s.loopTimestamp) then Arm(VoiceOf(s, i)) else VoiceOf(s, i))
      && r == s.(tracksPlaying := r.tracksPlaying, sampPlayCnt := r.sampPlayCnt, loopTimestamp := r.loopTimestamp)
  {
    var fired := FiredTracks(Logged(s), s.loopTimestamp);
    forall i | 0 <= i < TRACK_NR
      ensures i in fired <==> LoggedInWindow(s, i, s.loopTimestamp)
    {
      FiredTracksExactly(Logged(s), s.loopTimestamp, i);
      if LoggedInWindow(s, i, s.loopTimestamp) {
        var j :| 0 <= j < s.loopEventCount && s.loopEvents[j].track == i &&
                 InWindow(s.loopEvents[j].timestamp, s.loopTimestamp);
        assert Logged(s)[j] == s.loopEvents[j];
      }
    }
  }

  /**
   * One tick of the loop timer. Without playback or with an empty loop
   * the clock stands still and no voice is touched. Otherwise the clock
   * advances by 1 ms; a voice is re-armed exactly when some logged event
   * of its track lies in the window `(clock - 5000, clock]` of the new
   * clock (the subtraction in `uint64_t`); and the clock ends below the
   * loop's duration, wrapping to 0 when it reaches it. The LEDs show the
   * modes afterwards.
   */
  lemma PlaybackTick(s: MachineState)
    requires WellFormed(s)
    ensures var r := LoopTimerCallback(s);
      && r.recordLed == r.recordMode == s.recordMode && r.playLed == r.playMode == s.playMode
      && Logged(r) == Logged(s) && r.loopDuration == s.loopDuration
      && (!(s.playMode && s.loopDuration > 0) ==>
            r == s.(recordLed := s.recordMode, playLed := s.playMode))
      && (s.playMode && s.loopDuration > 0 ==>
            var clock := WrapU64(s.loopTimestamp + TICK_US);
            && r.loopTimestamp == (if clock >= s.loopDuration then 0 else clock)
            && r.loopTimestamp < r.loopDuration
            && (forall i :: 0 <= i < TRACK_NR ==>
                  VoiceOf(r, i) == if LoggedInWindow(s, i, clock) then Arm(VoiceOf(s, i)) else VoiceOf(s, i)))
  {
    if s.playMode && s.loopDuration > 0 {
      var ticked := s.(loopTimestamp := WrapU64(s.loopTimestamp + TICK_US));
      CheckLoopEventsEffect(ticked);
      assert forall i :: 0 <= i < TRACK_NR ==> VoiceOf(ticked, i) == VoiceOf(s, i);
      assert forall i :: LoggedInWindow(ticked, i, ticked.loopTimestamp) == LoggedInWindow(s, i, ticked.loopTimestamp);
    }
  }

  // ---------------------------------------------------------------------
  // The mixer over the whole machine

  /** With nothing else happening, each voice of the machine runs on its own for `k` samples. */
  lemma {:induction false} SamplesRunEachVoice(s: MachineState, k: nat, i: nat)
    requires WellFormed(s) && i < TRACK_NR
    ensures VoiceOf(RunSamples(s, k), i) == RunVoice(VoiceOf(s, i), k)
    ensures RunSamples(s, k).tracks == s.tracks && Logged(RunSamples(s, k)) == Logged(s)
    decreases k
  {
    if k > 0 {
      var next := SampleTimerCallback(s).state;
      assert VoiceOf(next, i) == MixVoice(VoiceOf(s, i)).next;
      assert next.loopEvents == s.loopEvents && next.loopEventCount == s.loopEventCount;
      SamplesRunEachVoice(next, k - 1, i);
    }
  }

  /**
   * A pad press outside sound-select mode plays the pad's sound from its
   * first sample to its last: on the `k + 1`-th sample tick afterwards the
   * voice reads sample `k`, and after as many ticks as the sound has
   * samples the voice has stopped.
   */
  lemma PadPressPlaysItsSound(s: MachineState, b: nat, now: Uint64, k: nat)
    requires WellFormed(s) && !s.soundSelectMode && b < TRACK_NR && s.tracks[b].Some?
    ensures var pressed := GpioCallback(s, BUTTON_PINS[b], true, true, now);
      var sound := s.tracks[b].value;
      && (k < |sound| ==>
            MixVoice(VoiceOf(RunSamples(pressed, k), b)).tap == Read(k, sound[k]))
      && (k >= |sound| ==> !VoiceOf(RunSamples(pressed, k), b).playing)
  {
    var pressed := GpioCallback(s, BUTTON_PINS[b], true, true, now);
    NormalPadPress(s, b, now);
    var v := VoiceOf(s, b);
    SamplesRunEachVoice(pressed, k, b);
    if k < v.length {
      ArmedVoiceReadsInOrder(v, k);
    } else {
      ArmedVoiceStopsAfterLength(v);
      IdleAfter(Arm(v), v.length, k);
    }
  }

  /** Once a voice has stopped, it stays stopped. */
  lemma {:induction false} IdleAfter(v: Voice, n: nat, k: nat)
    requires WellFormedVoice(v) && n <= k && !RunVoice(v, n).playing
    ensures !RunVoice(v, k).playing
    decreases k - n
  {
    if k > n {
      IdleAfter(v, n, k - 1);
      RunVoiceLast(v, k);
    }
  }

  // ---------------------------------------------------------------------
  // A session at the panel

  /**
   * Sound selection on pad 0 from the power-on state: enter sound-select
   * mode, press pad 0 (select it, preview the kick), press it again (pad 0
   * now plays sound 1), leave sound-select mode, press pad 0: it plays
   * sound 1 from its first sample.
   */
  lemma ReassignPadZero(lib: seq<Sample>, t: Uint64)
    requires ValidLibrary(lib)
    ensures var s0 := Initial(lib);
      var s1 := GpioCallback(s0, SOUND_SELECT_PIN, true, true, t);
      var s2 := GpioCallback(s1, BUTTON_PINS[0], true, true, t);
      var s3 := GpioCallback(s2, BUTTON_PINS[0], true, true, t);
      var s4 := GpioCallback(s3, SOUND_SELECT_PIN, true, true, t);
      var s5 := GpioCallback(s4, BUTTON_PINS[0], true, true, t);
      && s2.currentButtonToConfigure == 0 && s2.currentlySelectedSound == 0
      && VoiceOf(s2, 0) == Arm(Voice(false, 0, |lib[0]|, Some(lib[0])))
      && s3.currentlySelectedSound == 1 && s3.buttonSoundMapping[0] == 1
      && !s4.soundSelectMode
      && s5.buttonSoundMapping[0] == 1
      && VoiceOf(s5, 0) == Arm(Voice(true, |lib[1]|, |lib[1]|, Some(lib[1])))
  {
    var s0 := Initial(lib);
    SoundSelectEntry(s0, t);
    var s1 := GpioCallback(s0, SOUND_SELECT_PIN, true, true, t);
    assert VoiceOf(s1, 0) == VoiceOf(s0, 0) == Voice(false, 0, |lib[0]|, Some(lib[0]));
    SoundSelectOtherPad(s1, 0, t);
    var s2 := GpioCallback(s1, BUTTON_PINS[0], true, true, t);
    assert s2.currentlySelectedSound == 0 && s2.library == lib;
    SoundSelectSamePad(s2, 0, t);
    var s3 := GpioCallback(s2, BUTTON_PINS[0], true, true, t);
    assert s3.currentlySelectedSound == 1;
    assert VoiceOf(s3, 0) == Voice(true, |lib[1]|, |lib[1]|, Some(lib[1]));
    SoundSelectExit(s3, t);
    var s4 := GpioCallback(s3, SOUND_SELECT_PIN, true, true, t);
    assert VoiceOf(s4, 0) == VoiceOf(s3, 0);
    NormalPadPress(s4, 0, t);
  }

  // ---------------------------------------------------------------------
  // Counter bounds

  /** Every voice's counter lies between 0 and the length of its sound. */
  predicate CountsInRange(s: MachineState)
    requires WellFormed(s)
  {
    forall i :: 0 <= i < TRACK_NR ==> 0 <= s.sampPlayCnt[i] <= s.tracksSampNr[i]
  }

  /** The initialisers leave every counter at 0. */
  lemma InitialCountsInRange(lib: seq<Sample>)
    requires ValidLibrary(lib)
    ensures CountsInRange(Initial(lib))
  {
    var s := Initial(lib);
    forall i | 0 <= i < TRACK_NR
      ensures 0 <= s.sampPlayCnt[i] <= s.tracksSampNr[i]
    {
      assert s.sampPlayCnt[i] == 0;
    }
  }

  /**
   * Arming sets each armed counter to its length, so the bound holds
   * afterwards as long as it held for the voices not armed.
   */
  lemma ArmRestoresCounts(s: MachineState, fired: set<int>)
    requires WellFormed(s)
    requires forall i :: 0 <= i < TRACK_NR && i !in fired ==> 0 <= s.sampPlayCnt[i] <= s.tracksSampNr[i]
    ensures CountsInRange(ArmTracks(s, fired))
  {
    var r := ArmTracks(s, fired);
    forall i | 0 <= i < TRACK_NR
      ensures 0 <= r.sampPlayCnt[i] <= r.tracksSampNr[i]
    {
      assert VoiceOf(r, i) == if i in fired then Arm(VoiceOf(s, i)) else VoiceOf(s, i);
    }
  }

  /**
   * The interrupt handler keeps every counter within its sound's length:
   * a reassignment in sound-select mode changes a pad's length, but the
   * preview that follows re-arms that pad with the new length.
   */
  lemma GpioCallbackKeepsCounts(s: MachineState, gpio: Uint32, fallingEdge: bool, pressed: bool, now: Uint64)
    requires WellFormed(s) && CountsInRange(s)
    ensures CountsInRange(GpioCallback(s, gpio, fallingEdge, pressed, now))
  {
    var r := GpioCallback(s, gpio, fallingEdge, pressed, now);
    if fallingEdge && gpio !in {SOUND_SELECT_PIN, RECORD_PIN, PLAY_PIN, CLEAR_PIN, BEAT_SELECT_PIN} && ButtonIndex(gpio) >= 0 {
      PadEdgeKeepsCounts(s, ButtonIndex(gpio), pressed, now);
    } else {
      ModeButtonFrame(s, gpio, fallingEdge, pressed, now);
    }
  }

  /**
   * Every branch of the handler other than the drum pads leaves the
   * counters and the lengths alone, and either resets the loop clock to 0
   * or leaves it as it was.
   */
  lemma ModeButtonFrame(s: MachineState, gpio: Uint32, fallingEdge: bool, pressed: bool, now: Uint64)
    requires WellFormed(s)
    requires !(fallingEdge && gpio !in {SOUND_SELECT_PIN, RECORD_PIN, PLAY_PIN, CLEAR_PIN, BEAT_SELECT_PIN} &&
               ButtonIndex(gpio) >= 0)
    ensures var r := GpioCallback(s, gpio, fallingEdge, pressed, now);
      && r.sampPlayCnt == s.sampPlayCnt && r.tracksSampNr == s.tracksSampNr
      && (r.loopTimestamp == 0 || r.loopTimestamp == s.loopTimestamp)
  {
    var r := GpioCallback(s, gpio, fallingEdge, pressed, now);
    if !fallingEdge || !pressed {
    } else if gpio == SOUND_SELECT_PIN {
      assert r == SoundSelectPressed(s);
    } else if s.soundSelectMode {
    } else if gpio == RECORD_PIN {
      assert r == RecordPressed(s, now);
    } else if gpio == PLAY_PIN {
      assert r == PlayPressed(s);
    } else if gpio == CLEAR_PIN {
      assert r == ClearLoop(s).(classicBeatMode := false);
    } else if gpio == BEAT_SELECT_PIN {
      var n := NextBeat(s);
      var l := LoadClassicBeat(n, n.currentBeat);
      assert l.sampPlayCnt == s.sampPlayCnt && l.tracksSampNr == s.tracksSampNr;
      assert r == StartBeatPlayback(l);
    }
  }

  /** The drum-pad branch keeps every counter within its sound's length. */
  lemma PadEdgeKeepsCounts(s: MachineState, b: nat, pressed: bool, now: Uint64)
    requires WellFormed(s) && CountsInRange(s) && b < TRACK_NR
    ensures CountsInRange(PadEdge(s, b, pressed, now))
  {
    var s1 := s.(buttonsPressed := s.buttonsPressed[b := pressed], buttonStateChanged := true);
    if s.soundSelectMode && pressed {
      var c := if s1.currentButtonToConfigure == b then NextSound(s1, b) else ChoosePad(s1, b);
      assert forall i :: 0 <= i < TRACK_NR && i != b ==>
        c.sampPlayCnt[i] == s.sampPlayCnt[i] && c.tracksSampNr[i] == s.tracksSampNr[i];
      ArmRestoresCounts(c, {b});
    } else if pressed {
      ArmRestoresCounts(s1, {b});
    }
  }

  /** The loop tick keeps every counter within its sound's length. */
  lemma LoopTimerKeepsCounts(s: MachineState)
    requires WellFormed(s) && CountsInRange(s)
    ensures CountsInRange(LoopTimerCallback(s))
  {
    var ticked := s.(loopTimestamp := WrapU64(s.loopTimestamp + TICK_US));
    assert CountsInRange(ticked);
    CheckLoopEventsKeepsCounts(ticked);
  }

  /** Re-arming the events in the window keeps every counter within its sound's length. */
  lemma CheckLoopEventsKeepsCounts(s: MachineState)
    requires WellFormed(s) && CountsInRange(s)
    ensures CountsInRange(CheckLoopEvents(s))
  {
    if s.playMode && s.loopDuration > 0 {
      ArmRestoresCounts(s, FiredTracks(Logged(s), s.loopTimestamp));
    }
  }

  /** A mixer tick only counts a voice down while it reads, so no counter leaves its range. */
  lemma SampleTimerKeepsCounts(s: MachineState)
    requires WellFormed(s) && CountsInRange(s)
    ensures CountsInRange(SampleTimerCallback(s).state)
  {
    var r := SampleTimerCallback(s).state;
    forall i | 0 <= i < TRACK_NR
      ensures 0 <= r.sampPlayCnt[i] <= r.tracksSampNr[i]
    {
      assert VoiceOf(r, i) == MixVoice(VoiceOf(s, i)).next;
    }
  }

  // ---------------------------------------------------------------------
  // The loop clock's grid

  /** The loop clock is a whole number of 1 ms ticks. */
  predicate ClockOnGrid(s: MachineState) {
    s.loopTimestamp % TICK_US == 0
  }

  /** The clock starts at 0. */
  lemma InitialClockOnGrid(lib: seq<Sample>)
    requires ValidLibrary(lib)
    ensures ClockOnGrid(Initial(lib))
  {
  }

  /** The interrupt handler only ever resets the clock to 0 or leaves it alone. */
  lemma GpioCallbackKeepsGrid(s: MachineState, gpio: Uint32, fallingEdge: bool, pressed: bool, now: Uint64)
    requires WellFormed(s)
    ensures var r := GpioCallback(s, gpio, fallingEdge, pressed, now);
      r.loopTimestamp == 0 || r.loopTimestamp == s.loopTimestamp
    ensures ClockOnGrid(s) ==> ClockOnGrid(GpioCallback(s, gpio, fallingEdge, pressed, now))
  {
    if fallingEdge && gpio !in {SOUND_SELECT_PIN, RECORD_PIN, PLAY_PIN, CLEAR_PIN, BEAT_SELECT_PIN} && ButtonIndex(gpio) >= 0 {
      PadEdgeKeepsClock(s, ButtonIndex(gpio), pressed, now);
    } else {
      ModeButtonFrame(s, gpio, fallingEdge, pressed, now);
    }
  }

  /** The drum-pad branch never touches the clock. */
  lemma PadEdgeKeepsClock(s: MachineState, b: nat, pressed: bool, now: Uint64)
    requires WellFormed(s) && b < TRACK_NR
    ensures PadEdge(s, b, pressed, now).loopTimestamp == s.loopTimestamp
  {
    var s1 := s.(buttonsPressed := s.buttonsPressed[b := pressed], buttonStateChanged := true);
    if s.soundSelectMode && pressed {
      var c := if s1.currentButtonToConfigure == b then NextSound(s1, b) else ChoosePad(s1, b);
      assert c.loopTimestamp == s.loopTimestamp;
    } else if pressed {
      AddLoopEventAppends(ArmTracks(s1, {b}), b, now);
    }
  }

  /** The mixer never touches the clock. */
  lemma SampleTimerKeepsGrid(s: MachineState)
    requires WellFormed(s)
    ensures SampleTimerCallback(s).state.loopTimestamp == s.loopTimestamp
  {
  }

  /**
   * A loop tick moves the clock by one 1 ms step or back to 0, so on the
   * grid it stays on the grid, while the step fits `uint64_t`: the clock
   * then reads `1000 * k` for a tick number `k`, which is the form
   * `LoopLog.FiringTicks` is stated for.
   */
  lemma LoopTimerKeepsGrid(s: MachineState)
    requires WellFormed(s) && s.loopTimestamp + TICK_US < TWO_64
    ensures var r := LoopTimerCallback(s);
      r.loopTimestamp in {0, s.loopTimestamp, s.loopTimestamp + TICK_US}
    ensures ClockOnGrid(s) ==> ClockOnGrid(LoopTimerCallback(s))
  {
    PlaybackTick(s);
  }
}
