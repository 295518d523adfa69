/**
 * The drum machine's global state as one value, and each entry point of
 * the firmware (the GPIO interrupt handler and the two repeating timers)
 * as one atomic step on it. These functions are the specifications the
 * imperative methods of `DrumMachine.Machine` are proved against; the
 * lemmas at the end state what the firmware promises about them.
 */
module DrumSpec {
  import opened CInt
  import opened Wrappers
  import opened Bits
  import opened Mixer
  import opened LoopLog

  const SOUND_LIBRARY_SIZE: int := 7

  /** The GPIO pins of the six drum pads (the sixth pad starts with no sound). */
  const BUTTON_PINS: seq<Uint32> := [16, 17, 18, 19, 28, 7]
  const RECORD_PIN: Uint32 := 27
  const PLAY_PIN: Uint32 := 26
  const CLEAR_PIN: Uint32 := 22
  const BEAT_SELECT_PIN: Uint32 := 21
  const SOUND_SELECT_PIN: Uint32 := 20
  const RECORD_LED_PIN: Uint32 := 15
  const PLAY_LED_PIN: Uint32 := 14

  /** `current_button_to_configure` when sound-select mode has no pad chosen yet. */
  const NO_BUTTON: Uint8 := 0xFF

  /** Every global variable the three entry points read or write. */
  datatype MachineState = MachineState(
    library: seq<Sample>,              // available_sounds and available_sounds_sizes
    tracksPlaying: Mask32,
    sampPlayCnt: seq<Int32>,
    tracksSampNr: seq<Uint32>,
    tracks: seq<Option<Sample>>,
    buttonSoundMapping: seq<Uint8>,
    buttonsPressed: seq<bool>,
    buttonStateChanged: bool,
    recordMode: bool,
    playMode: bool,
    loopTimestamp: Uint64,
    loopStartTime: Uint64,
    loopEndTime: Uint64,
    loopDuration: Uint64,
    soundSelectMode: bool,
    currentButtonToConfigure: Uint8,
    currentlySelectedSound: Uint8,
    currentBeat: Uint8,
    classicBeatMode: bool,
    loopEvents: seq<LoopEvent>,
    loopEventCount: Uint16,
    recordLed: bool,                   // level of RECORD_LED_PIN
    playLed: bool)                     // level of PLAY_LED_PIN

  /** The seven sounds: every one a valid PCM buffer. */
  predicate ValidLibrary(lib: seq<Sample>) {
    |lib| == SOUND_LIBRARY_SIZE && forall k :: 0 <= k < |lib| ==> ValidSample(lib[k])
  }

  /** Sound-select mode excludes recording, playback and classic-beat mode. */
  predicate ModesExclusive(s: MachineState) {
    s.soundSelectMode ==> !s.recordMode && !s.playMode && !s.classicBeatMode
  }

  /**
   * The invariant every entry point keeps: table sizes; every mapping
   * names a sound of the library, and a pad with a sound plays exactly the
   * sound its mapping names, with that sound's length (an empty slot has
   * length 0); the log count is within capacity; and the modes are
   * exclusive.
   */
  predicate WellFormed(s: MachineState) {
    && VoiceTables(s)
    && |s.loopEvents| == MAX_LOOP_EVENTS && s.loopEventCount <= MAX_LOOP_EVENTS
    && ModesExclusive(s)
  }

  /** The library, the per-pad tables and the mapping agree, as `WellFormed` describes. */
  predicate VoiceTables(s: MachineState) {
    && ValidLibrary(s.library)
    && |s.sampPlayCnt| == TRACK_NR && |s.tracksSampNr| == TRACK_NR && |s.tracks| == TRACK_NR
    && |s.buttonSoundMapping| == TRACK_NR && |s.buttonsPressed| == TRACK_NR
    && (forall i :: 0 <= i < TRACK_NR ==>
         && s.buttonSoundMapping[i] < SOUND_LIBRARY_SIZE
         && (s.tracks[i].Some? ==>
               s.tracks[i].value == s.library[s.buttonSoundMapping[i]] && s.tracksSampNr[i] == |s.tracks[i].value|)
         && (s.tracks[i].None? ==> s.tracksSampNr[i] == 0))
  }

  /** The state the initialisers of the globals give, for the sound library `lib`. */
  function Initial(lib: seq<Sample>): (s: MachineState)
    requires ValidLibrary(lib)
    ensures WellFormed(s)
    ensures forall i :: 0 <= i < TRACK_NR ==> !VoiceOf(s, i).playing
    ensures forall i :: 0 <= i < TRACK_NR - 1 ==>
      s.tracks[i] == Some(lib[i]) && s.buttonSoundMapping[i] == i
    ensures s.tracks[TRACK_NR - 1] == None
  {
    MachineState(
      lib, Zero(), seq(TRACK_NR, _ => 0),
      [|lib[0]|, |lib[1]|, |lib[2]|, |lib[3]|, |lib[4]|, 0],
      [Some(lib[0]), Some(lib[1]), Some(lib[2]), Some(lib[3]), Some(lib[4]), None],
      [0, 1, 2, 3, 4, 5], seq(TRACK_NR, _ => false), false,
      false, false, 0, 0, 0, 0,
      false, 0, 0, 2, false,
      seq(MAX_LOOP_EVENTS, _ => LoopEvent(0, 0)), 0,
      false, false)
  }

  /** Voice `i` of the voice table. */
  function VoiceOf(s: MachineState, i: nat): (v: Voice)
    requires WellFormed(s) && i < TRACK_NR
    ensures WellFormedVoice(v) && v.length < TWO_31
  {
    Voice(TestBit(s.tracksPlaying, i), s.sampPlayCnt[i], s.tracksSampNr[i], s.tracks[i])
  }

  function Voices(s: MachineState): (vs: seq<Voice>)
    requires WellFormed(s)
    ensures |vs| == TRACK_NR && forall i :: 0 <= i < TRACK_NR ==> vs[i] == VoiceOf(s, i)
  {
    seq(TRACK_NR, i requires 0 <= i < TRACK_NR => VoiceOf(s, i))
  }

  /**
   * Arms the voices of `fired` (`bit_set(tracks_playing, t)` and
   * `samp_play_cnt[t] = tracks_samp_nr[t]`); every other voice, the
   * unused high bits of the mask and all other state stay as they are.
   */
  function ArmTracks(s: MachineState, fired: set<int>): (r: MachineState)
    requires WellFormed(s)
    ensures WellFormed(r)
    ensures forall i :: 0 <= i < TRACK_NR ==>
      VoiceOf(r, i) == if i in fired then Arm(VoiceOf(s, i)) else VoiceOf(s, i)
    ensures forall j :: TRACK_NR <= j < 32 ==> r.tracksPlaying[j] == s.tracksPlaying[j]
    ensures r == s.(tracksPlaying := r.tracksPlaying, sampPlayCnt := r.sampPlayCnt)
  {
    s.(tracksPlaying := seq(32, j requires 0 <= j < 32 =>
                              if j < TRACK_NR && j in fired then true else s.tracksPlaying[j]),
       sampPlayCnt := seq(TRACK_NR, j requires 0 <= j < TRACK_NR =>
                              if j in fired then s.tracksSampNr[j] as Int32 else s.sampPlayCnt[j]))
  }

  /** Arming is idempotent, so arming one set and then another arms their union. */
  lemma ArmTracksUnion(s: MachineState, a: set<int>, b: set<int>)
    requires WellFormed(s)
    ensures ArmTracks(ArmTracks(s, a), b) == ArmTracks(s, a + b)
  {
    var x, y := ArmTracks(ArmTracks(s, a), b), ArmTracks(s, a + b);
    assert x.tracksPlaying == y.tracksPlaying;
    assert x.sampPlayCnt == y.sampPlayCnt;
  }

  /** Arming no voice changes nothing. */
  lemma ArmNothing(s: MachineState)
    requires WellFormed(s)
    ensures ArmTracks(s, {}) == s
  {
    assert ArmTracks(s, {}).tracksPlaying == s.tracksPlaying;
    assert ArmTracks(s, {}).sampPlayCnt == s.sampPlayCnt;
  }

  /** `change_button_sound`: out-of-range pad or sound is a no-op. */
  function ChangeButtonSound(s: MachineState, button: Uint8, sound: Uint8): (r: MachineState)
    requires WellFormed(s)
    ensures WellFormed(r) && r.library == s.library
  {
    if button >= TRACK_NR || sound >= SOUND_LIBRARY_SIZE then s
    else
      s.(buttonSoundMapping := s.buttonSoundMapping[button := sound],
         tracksSampNr := s.tracksSampNr[button := |s.library[sound]|],
         tracks := s.tracks[button := Some(s.library[sound])])
  }

  /** The events of the log, `loop_events[0 .. loop_event_count - 1]`. */
  function Logged(s: MachineState): seq<LoopEvent>
    requires WellFormed(s)
  {
    s.loopEvents[..s.loopEventCount]
  }

  /** `add_loop_event`: the event gets the time since recording started; a full log drops it. */
  function AddLoopEvent(s: MachineState, track: Uint8, now: Uint64): (r: MachineState)
    requires WellFormed(s)
    ensures WellFormed(r) && r.library == s.library
  {
    if s.loopEventCount < MAX_LOOP_EVENTS then
      s.(loopEvents := s.loopEvents[s.loopEventCount := LoopEvent(track, WrapU64(now - s.loopStartTime))],
         loopEventCount := s.loopEventCount + 1)
    else s
  }

  /** `clear_loop`. */
  function ClearLoop(s: MachineState): (r: MachineState)
    requires WellFormed(s)
    ensures WellFormed(r) && Logged(r) == [] && r.loopDuration == 0
  {
    s.(loopEventCount := 0, loopDuration := 0)
  }

  /**
   * The log array once the copy loop of `load_classic_beat` has run over
   * `beat`: its entries up to the first end marker, converted to µs, over
   * the first entries of the array.
   */
  function CopiedBeat(old_events: seq<LoopEvent>, beat: seq<LoopEvent>): (r: seq<LoopEvent>)
    requires |old_events| == MAX_LOOP_EVENTS && |beat| == MAX_BEAT_EVENTS
    ensures |r| == MAX_LOOP_EVENTS
  {
    seq(MAX_LOOP_EVENTS, j requires 0 <= j < MAX_LOOP_EVENTS =>
      if j < EndOfBeat(beat, 0) then ToMicros(beat[j]) else old_events[j])
  }

  /** The log array once beat `k` is copied over its first entries. */
  function LoadedEvents(old_events: seq<LoopEvent>, k: nat): (r: seq<LoopEvent>)
    requires |old_events| == MAX_LOOP_EVENTS && k < NUM_CLASSIC_BEATS
    ensures |r| == MAX_LOOP_EVENTS
  {
    CopiedBeat(old_events, CLASSIC_BEATS[k])
  }

  /** `load_classic_beat`: an index past the table is a no-op. */
  function LoadClassicBeat(s: MachineState, k: Uint8): (r: MachineState)
    requires WellFormed(s)
    ensures WellFormed(r) && r.library == s.library
  {
    if k >= NUM_CLASSIC_BEATS then s
    else
      s.(loopEvents := LoadedEvents(s.loopEvents, k),
         loopEventCount := BeatLength(k),
         loopDuration := CLASSIC_BEAT_DURATIONS[k] * 1000)
  }

  /** The pad wired to `gpio`, or -1, as the search loop of `gpio_callback` finds it. */
  function ButtonIndex(gpio: int): (r: int)
    ensures -1 <= r < TRACK_NR
    ensures r >= 0 ==> BUTTON_PINS[r] == gpio
    ensures r == -1 <==> forall j :: 0 <= j < TRACK_NR ==> BUTTON_PINS[j] != gpio
  {
    ButtonIndexFrom(gpio, 0)
  }

  function ButtonIndexFrom(gpio: int, i: nat): (r: int)
    requires i <= TRACK_NR
    ensures r == -1 || i <= r < TRACK_NR
    ensures r >= 0 ==> BUTTON_PINS[r] == gpio
    ensures r == -1 <==> forall j :: i <= j < TRACK_NR ==> BUTTON_PINS[j] != gpio
    decreases TRACK_NR - i
  {
    if i == TRACK_NR then -1
    else if BUTTON_PINS[i] == gpio then i
    else ButtonIndexFrom(gpio, i + 1)
  }

  /** `gpio_put` on one of the two mode LEDs: that LED takes the level `on`. */
  function GpioPut(s: MachineState, pin: Uint32, on: bool): MachineState
    requires pin == RECORD_LED_PIN || pin == PLAY_LED_PIN
  {
    if pin == RECORD_LED_PIN then s.(recordLed := on) else s.(playLed := on)
  }

  /** A press of the sound-select button. */
  function SoundSelectPressed(s: MachineState): (r: MachineState)
    requires WellFormed(s)
    ensures WellFormed(r) && r.library == s.library
  {
    if !s.soundSelectMode then
      s.(soundSelectMode := true, currentButtonToConfigure := NO_BUTTON, currentlySelectedSound := 0,
         recordMode := false, playMode := false, classicBeatMode := false,
         recordLed := false, playLed := false)
    else
      s.(soundSelectMode := false)
  }

  /** Recording starts: the log is emptied and loop time zero is `now`; a classic beat is dropped. */
  function StartRecording(s: MachineState, now: Uint64): (r: MachineState)
    requires WellFormed(s) && !s.soundSelectMode
    ensures WellFormed(r) && r.library == s.library
  {
    s.(recordMode := true, classicBeatMode := false, loopStartTime := now, loopEventCount := 0,
       recordLed := true)
  }

  /** Recording stops at `now`, fixing the loop's length; a loop with events starts playing. */
  function StopRecording(s: MachineState, now: Uint64): (r: MachineState)
    requires WellFormed(s) && !s.soundSelectMode
    ensures WellFormed(r) && r.library == s.library
  {
    var stopped := s.(recordMode := false, loopEndTime := now,
                      loopDuration := WrapU64(now - s.loopStartTime), recordLed := false);
    if s.loopEventCount > 0 then stopped.(playMode := true, loopTimestamp := 0, playLed := true)
    else stopped
  }

  /** A press of the record button outside sound-select mode. */
  function RecordPressed(s: MachineState, now: Uint64): (r: MachineState)
    requires WellFormed(s) && !s.soundSelectMode
    ensures WellFormed(r) && r.library == s.library
  {
    if !s.recordMode then StartRecording(s, now) else StopRecording(s, now)
  }

  /** A press of the play button outside sound-select mode. */
  function PlayPressed(s: MachineState): (r: MachineState)
    requires WellFormed(s) && !s.soundSelectMode
    ensures WellFormed(r) && r.library == s.library
  {
    if !s.playMode then s.(playMode := true, loopTimestamp := 0, playLed := true)
    else s.(playMode := false, playLed := false)
  }

  /** The modes and LEDs once a classic beat is loaded: it plays from loop time zero, recording stops. */
  function StartBeatPlayback(s: MachineState): (r: MachineState)
    requires WellFormed(s) && !s.soundSelectMode
    ensures WellFormed(r) && r.library == s.library
  {
    s.(classicBeatMode := true, playMode := true, recordMode := false, loopTimestamp := 0,
       recordLed := false, playLed := true)
  }

  /** A press of the beat-select button outside sound-select mode: the next classic beat, cyclically. */
  function BeatSelectPressed(s: MachineState): (r: MachineState)
    requires WellFormed(s) && !s.soundSelectMode
    ensures WellFormed(r) && r.library == s.library
  {
    StartBeatPlayback(LoadClassicBeat(NextBeat(s), NextBeat(s).currentBeat))
  }

  /** The beat-select button moves on to the next classic beat, cyclically. */
  function NextBeat(s: MachineState): (r: MachineState)
    requires WellFormed(s)
    ensures WellFormed(r)
  {
    s.(currentBeat := (s.currentBeat + 1) % NUM_CLASSIC_BEATS)
  }

  /** Pressing the pad being configured again moves it on to the next sound of the library. */
  function NextSound(s: MachineState, b: nat): (r: MachineState)
    requires WellFormed(s) && b < TRACK_NR
    ensures WellFormed(r) && r.library == s.library
  {
    var sound := (s.currentlySelectedSound + 1) % SOUND_LIBRARY_SIZE;
    ChangeButtonSound(s.(currentlySelectedSound := sound), b, sound)
  }

  /** Pressing another pad makes it the one being configured, starting from its current sound. */
  function ChoosePad(s: MachineState, b: nat): (r: MachineState)
    requires WellFormed(s) && b < TRACK_NR
    ensures WellFormed(r) && r.library == s.library
  {
    s.(currentButtonToConfigure := b, currentlySelectedSound := s.buttonSoundMapping[b])
  }

  /** A press of pad `b` in sound-select mode: choose the pad, or step it to the next sound; either way it plays. */
  function PadConfigure(s: MachineState, b: nat): (r: MachineState)
    requires WellFormed(s) && b < TRACK_NR
    ensures WellFormed(r) && r.library == s.library
  {
    ArmTracks(if s.currentButtonToConfigure == b then NextSound(s, b) else ChoosePad(s, b), {b})
  }

  /** A press of pad `b` outside sound-select mode: play it, and log it while recording. */
  function PadPlay(s: MachineState, b: nat, now: Uint64): (r: MachineState)
    requires WellFormed(s) && b < TRACK_NR
    ensures WellFormed(r) && r.library == s.library
  {
    var armed := ArmTracks(s, {b});
    if s.recordMode then AddLoopEvent(armed, b, now) else armed
  }

  /** A falling edge on drum pad `b`, with the pin low (`pressed`) or already high again. */
  function PadEdge(s: MachineState, b: nat, pressed: bool, now: Uint64): (r: MachineState)
    requires WellFormed(s) && b < TRACK_NR
    ensures WellFormed(r) && r.library == s.library
  {
    var s1 := s.(buttonsPressed := s.buttonsPressed[b := pressed], buttonStateChanged := true);
    if s.soundSelectMode && pressed then PadConfigure(s1, b)
    else if pressed then PadPlay(s1, b, now)
    else s1
  }

  /**
   * `gpio_callback`: `fallingEdge` is `events & GPIO_IRQ_EDGE_FALL`,
   * `pressed` is `!gpio_get(gpio)` (the inputs are active low) and `now`
   * is `time_us_64()`.
   */
  function GpioCallback(s: MachineState, gpio: Uint32, fallingEdge: bool, pressed: bool, now: Uint64): (r: MachineState)
    requires WellFormed(s)
    ensures WellFormed(r) && r.library == s.library
  {
    if !fallingEdge then s
    else if gpio == SOUND_SELECT_PIN then
      if pressed then SoundSelectPressed(s) else s
    else if gpio == RECORD_PIN then
      if pressed && !s.soundSelectMode then RecordPressed(s, now) else s
    else if gpio == PLAY_PIN then
      if pressed && !s.soundSelectMode then PlayPressed(s) else s
    else if gpio == CLEAR_PIN then
      if pressed && !s.soundSelectMode then ClearLoop(s).(classicBeatMode := false) else s
    else if gpio == BEAT_SELECT_PIN then
      if pressed && !s.soundSelectMode then BeatSelectPressed(s) else s
    else if ButtonIndex(gpio) >= 0 then
      PadEdge(s, ButtonIndex(gpio), pressed, now)
    else s
  }

  /** `check_loop_events`: re-arm every logged event in the window, then wrap the clock at the loop's end. */
  function CheckLoopEvents(s: MachineState): (r: MachineState)
    requires WellFormed(s)
    ensures WellFormed(r) && r.library == s.library
  {
    if s.playMode && s.loopDuration > 0 then
      var armed := ArmTracks(s, FiredTracks(Logged(s), s.loopTimestamp));
      if armed.loopTimestamp >= armed.loopDuration then armed.(loopTimestamp := 0) else armed
    else s
  }

  /** `update_led_states`: the two status LEDs show the record and play modes. */
  function UpdateLedStates(s: MachineState): (r: MachineState)
    requires WellFormed(s)
    ensures WellFormed(r)
    ensures r.recordLed == r.recordMode && r.playLed == r.playMode
  {
    s.(recordLed := s.recordMode, playLed := s.playMode)
  }

  /** `loop_timer_callback`, once per millisecond. */
  function LoopTimerCallback(s: MachineState): (r: MachineState)
    requires WellFormed(s)
    ensures WellFormed(r) && r.library == s.library
  {
    var ticked :=
      if s.playMode && s.loopDuration > 0
      then CheckLoopEvents(s.(loopTimestamp := WrapU64(s.loopTimestamp + TICK_US)))
      else s;
    UpdateLedStates(ticked)
  }

  /** Voice `i` advanced by one mix: one pass of the callback's loop. */
  function StepVoice(s: MachineState, i: nat): (r: MachineState)
    requires WellFormed(s) && i < TRACK_NR
    ensures WellFormed(r)
  {
    var v := MixVoice(VoiceOf(s, i)).next;
    s.(tracksPlaying := s.tracksPlaying[i := v.playing], sampPlayCnt := s.sampPlayCnt[i := v.remaining])
  }

  /** The voice table with voices `0 .. n - 1` advanced by one mix each and the rest untouched. */
  function MixVoices(s: MachineState, n: nat): (r: MachineState)
    requires WellFormed(s) && n <= TRACK_NR
    ensures WellFormed(r)
  {
    s.(tracksPlaying := seq(32, j requires 0 <= j < 32 =>
                              if j < n then MixVoice(VoiceOf(s, j)).next.playing else s.tracksPlaying[j]),
       sampPlayCnt := seq(TRACK_NR, j requires 0 <= j < TRACK_NR =>
                              if j < n then MixVoice(VoiceOf(s, j)).next.remaining else s.sampPlayCnt[j]))
  }

  /** No voice handled yet leaves the state as it is. */
  lemma MixNoVoices(s: MachineState)
    requires WellFormed(s)
    ensures MixVoices(s, 0) == s
  {
    assert MixVoices(s, 0).tracksPlaying == s.tracksPlaying;
    assert MixVoices(s, 0).sampPlayCnt == s.sampPlayCnt;
  }

  /**
   * The callback's loop handles the voices one after another, yet each
   * voice's step sees that voice as it was before the callback: stepping
   * voice `n` after voices `0 .. n - 1` is handling voices `0 .. n`.
   */
  lemma MixNextVoice(s: MachineState, n: nat)
    requires WellFormed(s) && n < TRACK_NR
    ensures VoiceOf(MixVoices(s, n), n) == VoiceOf(s, n)
    ensures StepVoice(MixVoices(s, n), n) == MixVoices(s, n + 1)
  {
    var m := MixVoices(s, n);
    assert VoiceOf(m, n) == VoiceOf(s, n);
    var x, y := StepVoice(m, n), MixVoices(s, n + 1);
    assert x.tracksPlaying == y.tracksPlaying;
    assert x.sampPlayCnt == y.sampPlayCnt;
  }

  /** The voice table after one mix, and the PWM level written. */
  datatype MixOutput = MixOutput(state: MachineState, duty: int)

  /**
   * `sample_timer_callback`: every voice advances on its own, and the
   * level written to the audio pin is the clipped sum of what the voices
   * read, always a valid PWM level.
   */
  function SampleTimerCallback(s: MachineState): (r: MixOutput)
    requires WellFormed(s)
    ensures WellFormed(r.state)
    ensures forall i :: 0 <= i < TRACK_NR ==> VoiceOf(r.state, i) == MixVoice(VoiceOf(s, i)).next
    ensures forall j :: TRACK_NR <= j < 32 ==> r.state.tracksPlaying[j] == s.tracksPlaying[j]
    ensures r.state == s.(tracksPlaying := r.state.tracksPlaying, sampPlayCnt := r.state.sampPlayCnt)
    ensures 0 <= r.duty <= PWM_WRAP - 1
  {
    var vs := Voices(s);
    MixOutput(MixVoices(s, TRACK_NR), MixDuty(MixSum(vs)))
  }

  /** The state after `k` calls of the sample timer callback with nothing else happening. */
  function RunSamples(s: MachineState, k: nat): (r: MachineState)
    requires WellFormed(s)
    ensures WellFormed(r)
    decreases k
  {
    if k == 0 then s else RunSamples(SampleTimerCallback(s).state, k - 1)
  }
}
