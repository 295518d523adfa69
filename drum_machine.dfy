/**
 * The firmware's global variables as one object, and its entry points as
 * methods that update them in place, each proved to perform exactly the
 * step its `DrumSpec` function describes. The larger branches of the
 * callbacks are split into methods of their own, one per step of the
 * specification.
 */
module DrumMachine {
  import opened CInt
  import opened Wrappers
  import opened Bits
  import opened Mixer
  import opened LoopLog
  import Spec = DrumSpec

  /**
   * The pad wired to `gpio`, found by the search loop of `gpio_callback`:
   * the first pad whose pin is `gpio`, or -1 when `gpio` is no pad's pin.
   */
  method FindButton(gpio: Uint32) returns (index: int)
    ensures index == -1 || (0 <= index < TRACK_NR && Spec.BUTTON_PINS[index] == gpio)
    ensures index == -1 <==> forall j :: 0 <= j < TRACK_NR ==> Spec.BUTTON_PINS[j] != gpio
    ensures index >= 0 ==> forall j :: 0 <= j < index ==> Spec.BUTTON_PINS[j] != gpio
  {
    index := -1;
    var i := 0;
    while i < TRACK_NR
      invariant 0 <= i <= TRACK_NR
      invariant forall j :: 0 <= j < i ==> Spec.BUTTON_PINS[j] != gpio
    {
      if gpio == Spec.BUTTON_PINS[i] {
        index := i;
        return;
      }
      i := i + 1;
    }
  }

  class Machine {
    /** `available_sounds` with `available_sounds_sizes`: read-only. */
    const library: seq<Sample>

    var tracksPlaying: Mask32
    var sampPlayCnt: seq<Int32>
    var tracksSampNr: seq<Uint32>
    var tracks: seq<Option<Sample>>
    var buttonSoundMapping: seq<Uint8>
    var buttonsPressed: seq<bool>
    var buttonStateChanged: bool

    var recordMode: bool
    var playMode: bool
    var loopTimestamp: Uint64
    var loopStartTime: Uint64
    var loopEndTime: Uint64
    var loopDuration: Uint64

    var soundSelectMode: bool
    var currentButtonToConfigure: Uint8
    var currentlySelectedSound: Uint8
    var currentBeat: Uint8
    var classicBeatMode: bool

    /** `loop_events[MAX_LOOP_EVENTS]`. */
    const loopEvents: array<LoopEvent>
    var loopEventCount: Uint16

    /** Levels last written to `RECORD_LED_PIN` and `PLAY_LED_PIN`. */
    var recordLed: bool
    var playLed: bool

    /** The contents of the event log array. */
    ghost function Events(): seq<LoopEvent>
      reads loopEvents
    {
      loopEvents[..]
    }

    /** The machine's state as a value. */
    ghost function State(): Spec.MachineState
      reads this, loopEvents
    {
      Spec.MachineState(
        library, tracksPlaying, sampPlayCnt, tracksSampNr, tracks, buttonSoundMapping,
        buttonsPressed, buttonStateChanged, recordMode, playMode,
        loopTimestamp, loopStartTime, loopEndTime, loopDuration,
        soundSelectMode, currentButtonToConfigure, currentlySelectedSound, currentBeat,
        classicBeatMode, Events(), loopEventCount, recordLed, playLed)
    }

    ghost predicate Valid()
      reads this, loopEvents
    {
      loopEvents.Length == MAX_LOOP_EVENTS && Spec.WellFormed(State())
    }

    /** The globals as their initialisers leave them, for the sound library `lib`. */
    constructor (lib: seq<Sample>)
      requires Spec.ValidLibrary(lib)
      ensures State() == Spec.Initial(lib)
      ensures Valid() && fresh(loopEvents)
    {
      library := lib;
      tracksPlaying := Zero();
      sampPlayCnt := [0, 0, 0, 0, 0, 0];
      tracksSampNr := [|lib[0]|, |lib[1]|, |lib[2]|, |lib[3]|, |lib[4]|, 0];
      tracks := [Some(lib[0]), Some(lib[1]), Some(lib[2]), Some(lib[3]), Some(lib[4]), None];
      buttonSoundMapping := [0, 1, 2, 3, 4, 5];
      buttonsPressed := [false, false, false, false, false, false];
      buttonStateChanged := false;
      recordMode, playMode := false, false;
      loopTimestamp, loopStartTime, loopEndTime, loopDuration := 0, 0, 0, 0;
      soundSelectMode := false;
      currentButtonToConfigure, currentlySelectedSound, currentBeat := 0, 0, 2;
      classicBeatMode := false;
      loopEvents := new LoopEvent[MAX_LOOP_EVENTS](_ => LoopEvent(0, 0));
      loopEventCount := 0;
      recordLed, playLed := false, false;
      new;
      assert sampPlayCnt == Spec.Initial(lib).sampPlayCnt;
      assert buttonsPressed == Spec.Initial(lib).buttonsPressed;
      assert loopEvents[..] == Spec.Initial(lib).loopEvents;
    }

    /** `bit_set(tracks_playing, t); samp_play_cnt[t] = tracks_samp_nr[t];` */
    method ArmTrack(t: nat)
      requires Valid() && t < TRACK_NR
      modifies this
      ensures State() == Spec.ArmTracks(old(State()), {t})
      ensures Valid()
    {
      ghost var s := State();
      tracksPlaying := BitSet(tracksPlaying, t);
      sampPlayCnt := sampPlayCnt[t := tracksSampNr[t] as Int32];
      assert tracksPlaying == Spec.ArmTracks(s, {t}).tracksPlaying;
      assert sampPlayCnt == Spec.ArmTracks(s, {t}).sampPlayCnt;
    }

    /** `change_button_sound`. */
    method ChangeButtonSound(button: Uint8, sound: Uint8)
      requires Valid()
      modifies this
      ensures State() == Spec.ChangeButtonSound(old(State()), button, sound)
      ensures Valid()
    {
      if button >= TRACK_NR || sound >= Spec.SOUND_LIBRARY_SIZE {
        return;
      }
      buttonSoundMapping := buttonSoundMapping[button := sound];
      tracksSampNr := tracksSampNr[button := |library[sound]|];
      tracks := tracks[button := Some(library[sound])];
    }

    /** `add_loop_event`, with `time_us_64()` passed in as `now`. */
    method AddLoopEvent(track: Uint8, now: Uint64)
      requires Valid()
      modifies this, loopEvents
      ensures State() == Spec.AddLoopEvent(old(State()), track, now)
      ensures Valid()
    {
      if loopEventCount < MAX_LOOP_EVENTS {
        var relativeTime := WrapU64(now - loopStartTime);
        loopEvents[loopEventCount] := LoopEvent(track, relativeTime);
        loopEventCount := loopEventCount + 1;
      }
    }

    /** `clear_loop`. */
    method ClearLoop()
      requires Valid()
      modifies this
      ensures State() == Spec.ClearLoop(old(State()))
      ensures Valid()
    {
      loopEventCount := 0;
      loopDuration := 0;
    }

    /**
     * The copying loop of `load_classic_beat` over the row `beat` of the
     * beat table: its entries up to the end marker go over the first
     * entries of the log array, timestamps converted to microseconds; it
     * returns how many entries it wrote.
     */
    method CopyBeat(beat: seq<LoopEvent>) returns (n: nat)
      requires loopEvents.Length == MAX_LOOP_EVENTS && |beat| == MAX_BEAT_EVENTS
      modifies loopEvents
      ensures n == EndOfBeat(beat, 0)
      ensures loopEvents[..] == Spec.CopiedBeat(old(loopEvents[..]), beat)
    {
      ghost var before := loopEvents[..];
      ghost var end := EndOfBeat(beat, 0);
      var i := 0;
      while i < MAX_BEAT_EVENTS && beat[i].track != END_MARKER
        invariant 0 <= i <= end
        invariant EndOfBeat(beat, i) == end
        invariant forall j :: 0 <= j < i ==> loopEvents[j] == ToMicros(beat[j])
        invariant forall j :: i <= j < MAX_LOOP_EVENTS ==> loopEvents[j] == before[j]
        decreases MAX_BEAT_EVENTS - i
      {
        loopEvents[i] := LoopEvent(beat[i].track, WrapU64(beat[i].timestamp * 1000));
        i := i + 1;
      }
      n := i;
      assert loopEvents[..] == Spec.CopiedBeat(before, beat);
    }

    /** `load_classic_beat`: an index past the table is a no-op. */
    method LoadClassicBeat(k: Uint8)
      requires Valid()
      modifies this, loopEvents
      ensures State() == Spec.LoadClassicBeat(old(State()), k)
      ensures Valid()
    {
      if k >= NUM_CLASSIC_BEATS {
        return;
      }
      loopEventCount := 0;
      var n := CopyBeat(CLASSIC_BEATS[k]);
      loopEventCount := n;
      loopDuration := CLASSIC_BEAT_DURATIONS[k] * 1000;
    }

    /** The sound-select branch of `gpio_callback`, for a press. */
    method SoundSelectPressed()
      requires Valid()
      modifies this
      ensures State() == Spec.SoundSelectPressed(old(State()))
      ensures Valid()
    {
      if !soundSelectMode {
        soundSelectMode, currentButtonToConfigure, currentlySelectedSound := true, Spec.NO_BUTTON, 0;
        LeaveModes();
      } else {
        soundSelectMode := false;
      }
    }

    /** `gpio_put(pin, on)` on one of the two mode LEDs. */
    method GpioPut(pin: Uint32, on: bool)
      requires pin == Spec.RECORD_LED_PIN || pin == Spec.PLAY_LED_PIN
      modifies this
      ensures State() == Spec.GpioPut(old(State()), pin, on)
    {
      if pin == Spec.RECORD_LED_PIN {
        recordLed := on;
      } else {
        playLed := on;
      }
    }

    /** Entering sound-select mode turns recording, playback and classic-beat mode off, and their LEDs. */
    method LeaveModes()
      modifies this
      ensures State() == old(State()).(recordMode := false, playMode := false, classicBeatMode := false,
                                       recordLed := false, playLed := false)
    {
      recordMode, classicBeatMode := false, false;
      GpioPut(Spec.RECORD_LED_PIN, false);
      StopPlayback();
    }

    /** Playback starts from loop time zero, with its LED on. */
    method StartPlayback()
      modifies this
      ensures State() == old(State()).(playMode := true, loopTimestamp := 0, playLed := true)
    {
      playMode, loopTimestamp := true, 0;
      GpioPut(Spec.PLAY_LED_PIN, true);
    }

    /** Playback stops, with its LED off. */
    method StopPlayback()
      modifies this
      ensures State() == old(State()).(playMode := false, playLed := false)
    {
      playMode := false;
      GpioPut(Spec.PLAY_LED_PIN, false);
    }

    /** A new recording: loop time zero is `now` and the log is emptied. */
    method RestartLog(now: Uint64)
      modifies this
      ensures State() == old(State()).(loopStartTime := now, loopEventCount := 0)
    {
      loopStartTime, loopEventCount := now, 0;
    }

    /** The record branch of `gpio_callback` while recording is off: it starts. */
    method StartRecording(now: Uint64)
      requires Valid() && !soundSelectMode
      modifies this
      ensures State() == Spec.StartRecording(old(State()), now)
      ensures Valid()
    {
      recordMode, classicBeatMode := true, false;
      RestartLog(now);
      GpioPut(Spec.RECORD_LED_PIN, true);
    }

    /** The loop ends at `now`; its duration is the time since it started, in `uint64_t`. */
    method EndLoop(now: Uint64)
      modifies this
      ensures State() == old(State()).(loopEndTime := now, loopDuration := WrapU64(now - old(loopStartTime)))
    {
      loopEndTime := now;
      loopDuration := WrapU64(loopEndTime - loopStartTime);
    }

    /** The record branch of `gpio_callback` while recording is on: it stops, and playback may start. */
    method StopRecording(now: Uint64)
      requires Valid() && !soundSelectMode
      modifies this
      ensures State() == Spec.StopRecording(old(State()), now)
      ensures Valid()
    {
      recordMode := false;
      EndLoop(now);
      GpioPut(Spec.RECORD_LED_PIN, false);
      if loopEventCount > 0 {
        StartPlayback();
      }
    }

    /** The record branch of `gpio_callback`, for a press outside sound-select mode. */
    method RecordPressed(now: Uint64)
      requires Valid() && !soundSelectMode
      modifies this
      ensures State() == Spec.RecordPressed(old(State()), now)
      ensures Valid()
    {
      if !recordMode {
        StartRecording(now);
      } else {
        StopRecording(now);
      }
    }

    /** The play branch of `gpio_callback`, for a press outside sound-select mode. */
    method PlayPressed()
      requires Valid() && !soundSelectMode
      modifies this
      ensures State() == Spec.PlayPressed(old(State()))
      ensures Valid()
    {
      if !playMode {
        StartPlayback();
      } else {
        StopPlayback();
      }
    }

    /** The modes and LEDs the beat-select branch sets once the beat is loaded. */
    method StartBeatPlayback()
      requires Valid() && !soundSelectMode
      modifies this
      ensures State() == Spec.StartBeatPlayback(old(State()))
      ensures Valid()
    {
      classicBeatMode, recordMode := true, false;
      GpioPut(Spec.RECORD_LED_PIN, false);
      StartPlayback();
    }

    /** The beat-select button moves on to the next classic beat, cyclically. */
    method NextBeat()
      requires Valid()
      modifies this
      ensures State() == Spec.NextBeat(old(State()))
      ensures Valid()
    {
      currentBeat := (currentBeat + 1) % NUM_CLASSIC_BEATS;
    }

    /** The beat-select branch of `gpio_callback`, for a press outside sound-select mode. */
    method BeatSelectPressed()
      requires Valid() && !soundSelectMode
      modifies this, loopEvents
      ensures State() == Spec.BeatSelectPressed(old(State()))
      ensures Valid()
    {
      NextBeat();
      LoadClassicBeat(currentBeat);
      StartBeatPlayback();
    }

    /** Steps pad `b`, the one being configured, on to the next sound. */
    method NextSound(b: nat)
      requires Valid() && b < TRACK_NR
      modifies this
      ensures State() == Spec.NextSound(old(State()), b)
      ensures Valid()
    {
      currentlySelectedSound := (currentlySelectedSound + 1) % Spec.SOUND_LIBRARY_SIZE;
      ChangeButtonSound(b, currentlySelectedSound);
    }

    /** Makes pad `b` the one being configured. */
    method ChoosePad(b: nat)
      requires Valid() && b < TRACK_NR
      modifies this
      ensures State() == Spec.ChoosePad(old(State()), b)
      ensures Valid()
    {
      currentButtonToConfigure := b;
      currentlySelectedSound := buttonSoundMapping[b];
    }

    /** The drum-pad branch of `gpio_callback` for a press of pad `b` in sound-select mode. */
    method PadConfigure(b: nat)
      requires Valid() && b < TRACK_NR
      modifies this
      ensures State() == Spec.PadConfigure(old(State()), b)
      ensures Valid()
    {
      if currentButtonToConfigure == b {
        NextSound(b);
      } else {
        ChoosePad(b);
      }
      ArmTrack(b);
    }

    /** The drum-pad branch of `gpio_callback` for a press of pad `b` outside sound-select mode. */
    method PadPlay(b: nat, now: Uint64)
      requires Valid() && b < TRACK_NR
      modifies this, loopEvents
      ensures State() == Spec.PadPlay(old(State()), b, now)
      ensures Valid()
    {
      ArmTrack(b);
      if recordMode {
        AddLoopEvent(b, now);
      }
    }

    /** The drum-pad branch of `gpio_callback` for pad `b`. */
    method PadEdge(b: nat, pressed: bool, now: Uint64)
      requires Valid() && b < TRACK_NR
      modifies this, loopEvents
      ensures State() == Spec.PadEdge(old(State()), b, pressed, now)
      ensures Valid()
    {
      buttonsPressed := buttonsPressed[b := pressed];
      buttonStateChanged := true;
      if soundSelectMode && buttonsPressed[b] {
        PadConfigure(b);
      } else if buttonsPressed[b] {
        PadPlay(b, now);
      }
    }

    /**
     * `gpio_callback(gpio, events)`: `fallingEdge` is `events &
     * GPIO_IRQ_EDGE_FALL`, `pressed` is `!gpio_get(gpio)` and `now` is
     * `time_us_64()`.
     */
    method GpioCallback(gpio: Uint32, fallingEdge: bool, pressed: bool, now: Uint64)
      requires Valid()
      modifies this, loopEvents
      ensures State() == Spec.GpioCallback(old(State()), gpio, fallingEdge, pressed, now)
      ensures Valid()
    {
      if !fallingEdge {
        return;
      }
      if gpio == Spec.SOUND_SELECT_PIN {
        if pressed {
          SoundSelectPressed();
        }
        return;
      }
      if gpio == Spec.RECORD_PIN {
        if pressed && !soundSelectMode {
          RecordPressed(now);
        }
        return;
      }
      if gpio == Spec.PLAY_PIN {
        if pressed && !soundSelectMode {
          PlayPressed();
        }
        return;
      }
      if gpio == Spec.CLEAR_PIN {
        if pressed && !soundSelectMode {
          ClearLoop();
          classicBeatMode := false;
        }
        return;
      }
      if gpio == Spec.BEAT_SELECT_PIN {
        if pressed && !soundSelectMode {
          BeatSelectPressed();
        }
        return;
      }
      var b := FindButton(gpio);
      if b >= 0 {
        PadEdge(b, pressed, now);
      }
    }

    /** One pass of the scan in `check_loop_events`: event `e` re-arms its track when it fires. */
    method CheckEvent(e: LoopEvent)
      requires Valid()
      modifies this
      ensures State() == Spec.ArmTracks(old(State()), FiredBy(e, old(loopTimestamp)))
      ensures Valid()
    {
      if e.timestamp <= loopTimestamp && e.timestamp > WrapU64(loopTimestamp - WINDOW_US) && e.track < TRACK_NR {
        ArmTrack(e.track);
      } else {
        Spec.ArmNothing(State());
      }
    }

    /** The scan of `check_loop_events`: every logged event in the playback window re-arms its track. */
    method ScanLog()
      requires Valid()
      modifies this
      ensures State() == Spec.ArmTracks(old(State()), FiredTracks(Spec.Logged(old(State())), old(loopTimestamp)))
      ensures Valid()
    {
      ghost var s := State();
      Spec.ArmNothing(s);
      var i := 0;
      while i < loopEventCount
        invariant 0 <= i <= loopEventCount == s.loopEventCount
        invariant loopEvents[..] == s.loopEvents && loopTimestamp == s.loopTimestamp
        invariant State() == Spec.ArmTracks(s, FiredTracks(s.loopEvents[..i], s.loopTimestamp))
        invariant Valid()
      {
        ghost var fired := FiredTracks(s.loopEvents[..i], s.loopTimestamp);
        var e := loopEvents[i];
        CheckEvent(e);
        Spec.ArmTracksUnion(s, fired, FiredBy(e, s.loopTimestamp));
        FiredTracksAppend(s.loopEvents, i, s.loopTimestamp);
        i := i + 1;
      }
      assert s.loopEvents[..i] == Spec.Logged(s);
    }

    /** `check_loop_events`: re-arm every logged event in the window, then wrap the clock at the loop's end. */
    method CheckLoopEvents()
      requires Valid()
      modifies this
      ensures State() == Spec.CheckLoopEvents(old(State()))
      ensures Valid()
    {
      if playMode && loopDuration > 0 {
        ScanLog();
        if loopTimestamp >= loopDuration {
          loopTimestamp := 0;
        }
      }
    }

    /** `update_led_states`. */
    method UpdateLedStates()
      requires Valid()
      modifies this
      ensures State() == Spec.UpdateLedStates(old(State()))
      ensures Valid()
    {
      GpioPut(Spec.RECORD_LED_PIN, recordMode);
      GpioPut(Spec.PLAY_LED_PIN, playMode);
    }

    /** The loop clock moves on by one timer period of 1 ms, in `uint64_t`. */
    method AdvanceLoopClock()
      requires Valid()
      modifies this
      ensures State() == old(State()).(loopTimestamp := WrapU64(old(loopTimestamp) + TICK_US))
      ensures Valid()
    {
      loopTimestamp := WrapU64(loopTimestamp + TICK_US);
    }

    /** `loop_timer_callback`: it always asks the timer to keep repeating. */
    method LoopTimerCallback() returns (repeat: bool)
      requires Valid()
      modifies this
      ensures State() == Spec.LoopTimerCallback(old(State()))
      ensures Valid()
      ensures repeat
    {
      if playMode && loopDuration > 0 {
        AdvanceLoopClock();
        CheckLoopEvents();
      }
      UpdateLedStates();
      return true;
    }

    /**
     * One pass of the loop of `sample_timer_callback`: voice `i` reads its
     * next sample if it has one, and stops when it has none left; the
     * result is what it adds to the mix.
     */
    method MixTrack(i: nat) returns (amplitude: int)
      requires Valid() && i < TRACK_NR
      modifies this
      ensures State() == Spec.StepVoice(old(State()), i)
      ensures amplitude == Amplitude(MixVoice(Spec.VoiceOf(old(State()), i)).tap)
      ensures Valid()
    {
      amplitude := 0;
      if TestBit(tracksPlaying, i) {
        var currentSampNr := WrapU32(tracksSampNr[i] - sampPlayCnt[i]);
        if currentSampNr < tracksSampNr[i] && tracks[i].Some? {
          amplitude := tracks[i].value[currentSampNr];
          sampPlayCnt := sampPlayCnt[i := sampPlayCnt[i] - 1];
          if sampPlayCnt[i] <= 0 {
            tracksPlaying := BitClr(tracksPlaying, i);
          }
        } else {
          tracksPlaying := BitClr(tracksPlaying, i);
        }
      }
    }

    /**
     * The loop of `sample_timer_callback`: every voice in turn takes its
     * step, and the result is the sum of what they read.
     */
    method MixTracks() returns (sampSum: Int32)
      requires Valid()
      modifies this
      ensures State() == Spec.MixVoices(old(State()), TRACK_NR)
      ensures sampSum == MixSum(Spec.Voices(old(State())))
      ensures Valid()
    {
      ghost var s := State();
      ghost var vs := Spec.Voices(s);
      Spec.MixNoVoices(s);
      sampSum := 0;
      var i := 0;
      while i < TRACK_NR
        invariant 0 <= i <= TRACK_NR
        invariant State() == Spec.MixVoices(s, i)
        invariant Valid()
        invariant sampSum == MixSum(vs[..i])
      {
        Spec.MixNextVoice(s, i);
        var amplitude := MixTrack(i);
        assert vs[..i + 1][..i] == vs[..i];
        sampSum := sampSum + amplitude;
        i := i + 1;
      }
      assert vs[..i] == vs;
    }

    /**
     * `sample_timer_callback`: mixes every playing voice, clips the sum and
     * returns the level it writes to the audio pin; it always asks the
     * timer to keep repeating.
     */
    method SampleTimerCallback() returns (pwmLevel: Uint16, repeat: bool)
      requires Valid()
      modifies this
      ensures State() == Spec.SampleTimerCallback(old(State())).state
      ensures pwmLevel == Spec.SampleTimerCallback(old(State())).duty
      ensures Valid()
      ensures pwmLevel < PWM_WRAP && repeat
    {
      var sampSum := MixTracks();
      var mix: Int32 := sampSum;
      if mix < MIN_SIGNED_16BIT_VAL {
        mix := MIN_SIGNED_16BIT_VAL;
      } else if mix > MAX_SIGNED_16BIT_VAL {
        mix := MAX_SIGNED_16BIT_VAL;
      }
      assert (mix - MIN_SIGNED_16BIT_VAL) * PWM_WRAP / 65536 == Duty(mix);
      pwmLevel := (mix - MIN_SIGNED_16BIT_VAL) * PWM_WRAP / 65536;
      repeat := true;
    }
  }
}
