# Drum machine engine, modelled in Dafny

This project models the engine of the RP2040 drum machine firmware in `DRUMS/main.c`. The firmware has six drum pads, each a voice playing a sound from a seven-entry sound library. A 22.05 kHz sample timer mixes the playing voices into one PWM level. A 1 ms loop timer replays a recorded or built-in loop of pad events. A GPIO interrupt handler dispatches presses of the pads and of five mode buttons: sound-select, record, play, clear and beat-select.

The firmware's global tables and flags form the class `DrumMachine.Machine`:
- the voice table, with the `tracks_playing` mask, `samp_play_cnt`, `tracks_samp_nr` and `tracks`;
- the mapping from pads to sounds;
- the loop event log and its clock;
- the mode flags;
- the levels of the two status LEDs.

Each entry point is a method over this class: `GpioCallback`, `LoopTimerCallback` and `SampleTimerCallback`, and so is each branch of those entry points. Each of these methods is proved against one function of `DrumSpec`, which performs the same step on an immutable `MachineState` value. It ends with `State() == Spec.F(old(State()), …)` and keeps the invariant `Valid()`.

A few small helper methods make up the larger branches: `GpioPut`, `LeaveModes`, `StartPlayback`, `StopPlayback`, `RestartLog`, `EndLoop` and `AdvanceLoopClock`. Each states its whole effect as a field update of `old(State())`. Apart from `AdvanceLoopClock`, they neither require nor ensure `Valid()`, and their callers re-establish it.

`Valid()` says:
- the tables have their sizes;
- every pad maps to a sound of the library, and every pad with a buffer plays exactly the sound it maps to, with that sound's length; a pad without a buffer has length 0;
- the log count is at most 1000;
- sound-select mode excludes the other modes.

`DrumProperties` states what the firmware promises, as lemmas over the `DrumSpec` functions:
- the effect of every button in every mode;
- the capacity-bounded append;
- the classic-beat load and its idempotence;
- the playback window and the clock wrap;
- a pad press playing its sound from its first sample to its last;
- every voice's counter staying between 0 and its sound's length (`DrumProperties.CountsInRange`), from power-on and across all three entry points;
- the loop clock staying a whole number of milliseconds (`DrumProperties.ClockOnGrid`);
- a worked sound-reassignment session starting at power-on.

`Mixer` and `LoopLog` hold the per-voice mixer and the loop log. `CInt` and `Bits` hold the C integer semantics: `uint32_t` and `uint64_t` wrap-around, the `int32_t` counters, and the three bit macros over a 32-bit mask.

Inputs the firmware reads from hardware are parameters:
- `time_us_64()` is `now`;
- `events & GPIO_IRQ_EDGE_FALL` is `fallingEdge`;
- `!gpio_get(gpio)` is `pressed`.

Outputs are modelled as follows:
- the level passed to `pwm_set_gpio_level` is the `pwmLevel` result of `SampleTimerCallback`;
- `gpio_put` on the two status LEDs sets the fields `recordLed` and `playLed`.

Behaviour of the code worth knowing:
- **The playback window.** The window `timestamp <= clock && timestamp > clock - 5000` is modelled as written, with the subtraction in `uint64_t` (`LoopLog.InWindow`). While the clock is below 5000 µs the subtraction wraps, so nothing fires there. In particular an event logged at time 0 never fires (`LoopLog.EventAtZeroNeverFires`). The clock starts at 0 and is only ever reset to 0 or advanced by 1 ms, so it reads `1000 * k` for a tick number `k` (`DrumProperties.ClockOnGrid` with its lemmas, while `clock + 1000` fits `uint64_t`). On that grid any other event fires on up to five consecutive ticks per pass, not once (`LoopLog.FiringTicks`).
- **Bookkeeping.** These are not maintained:
  - a loop's duration being at least the latest event time;
  - classic-beat mode implying playback: the play button can stop playback while `classic_beat_mode` stays set;
  - playback implying a loop to play: play can be pressed after clear, or with nothing recorded, leaving playback on with a duration of 0. The loop timer then leaves the clock where it is and fires nothing (`DrumProperties.PlaybackTick`).
- **Recording during playback.** Recording can start while playback is on.
- **The sixth pad.** It starts with mapping 5 but no buffer (`tracks[5]` is NULL, with length 0). It stays silent until a sound is assigned to it.

## Model

| member | source | states |
|---|---|---|
| CInt.WrapU32 | DRUMS/main.c:593 | the `uint32_t` result of a subtraction: in range values are kept, a negative value gains 2^32 |
| CInt.WrapU64 | DRUMS/main.c:534 | the `uint64_t` result of an assignment: in range values are kept, a negative value gains 2^64, an overflow past 2^64 loses it |
| Bits.Zero | DRUMS/main.c:71 | `tracks_playing = 0`: all 32 bits clear |
| Bits.BitSet | DRUMS/main.c:23 | `bit_set` sets bit `b` and leaves every other bit of the mask as it was |
| Bits.BitClr | DRUMS/main.c:24 | `bit_clr` clears bit `b` and leaves every other bit of the mask as it was |
| Mixer.MixVoice | DRUMS/main.c:592-604 | one voice per sample tick: it reads exactly when it is playing, has a buffer and its `uint32_t` index is below its length; the index read is then inside the buffer and the value an int16; a read decrements the positive counter by one and the voice keeps playing iff the counter stays positive; otherwise only the playing bit is cleared (an idle voice is untouched) |
| Mixer.Arm | DRUMS/main.c:515-516 | arming sets the playing bit and the counter to the voice's length, keeping length and buffer |
| Mixer.RunVoice | DRUMS/main.c:591-606 | any number of mixer ticks keep a voice well formed, with its length and buffer |
| Mixer.ArmedVoiceReadsInOrder | DRUMS/main.c:591-600 | a voice armed with a buffer of L samples reads sample k on tick k + 1 for each k < L, its counter at L - k by then |
| Mixer.RunVoiceLast | DRUMS/main.c:591-606 | k ticks are k - 1 ticks followed by one more |
| Mixer.ArmedVoiceStopsAfterLength | DRUMS/main.c:596-600 | an armed voice plays on every tick before the L-th and stops on exactly the L-th, counter zero |
| Mixer.IdleVoiceStaysIdle | DRUMS/main.c:592 | a voice whose bit is clear is never read and never changes |
| Mixer.MixSum | DRUMS/main.c:591-607 | the sum of what n voices read lies between n times the int16 minimum and n times the int16 maximum, so six voices fit the `int32_t` sum |
| Mixer.Clip16 | DRUMS/main.c:609-614 | the clipped value is an int16; an int16 is kept, a lower sum becomes -32768, a higher one 32767 |
| Mixer.Duty | DRUMS/main.c:616-618 | the level of an int16 lies in 0 .. 4094 |
| Mixer.DutyMonotone | DRUMS/main.c:618 | the level is monotone in the amplitude, 0 at -32768, 4094 at 32767 and 2047 at silence |
| Mixer.MixDuty | DRUMS/main.c:608-618 | clipping invariant: whatever the voices sum to, the level written is in 0 .. 4094 |
| LoopLog.Padding | DRUMS/main.c:114-167 | the entries the initialiser leaves after a beat's end marker are all `{0, 0}` |
| LoopLog.EndOfBeat | DRUMS/main.c:326-331 | where the copy loop stops: no end marker before it, an end marker at it unless it is the table's end |
| LoopLog.BeatLength | DRUMS/main.c:327-333 | a built-in beat loads at most 50 events |
| LoopLog.ToMicros | DRUMS/main.c:329 | the copied event keeps the track, and its time is the table's times 1000 when that fits `uint64_t` |
| LoopLog.ClassicBeatFacts | DRUMS/main.c:114-167 | the built-in beats load 13, 7 and 15 events; every track is a pad with a default sound, and the times are non-decreasing and within the 2000 ms duration |
| LoopLog.BeatEntryInMicros | DRUMS/main.c:329 | converting a loaded entry of a built-in beat never wraps |
| LoopLog.TableInOrder | DRUMS/main.c:114-167 | the entries before each end marker are pads 0 to 4, in time order, within 2000 ms |
| LoopLog.BeatEnds | DRUMS/main.c:327 | a padded beat with one end marker stops the copy loop at that marker and agrees with its listed entries |
| LoopLog.InWindowExactly | DRUMS/main.c:533-534 | the window as written is, in plain arithmetic: clock at least 5000 and clock - 5000 < timestamp <= clock |
| LoopLog.EventAtZeroNeverFires | DRUMS/main.c:533-534 | an event logged at time 0 is in the window of no clock value |
| LoopLog.FirstTickAtOrAfter | DRUMS/main.c:574 | the first tick of the 1 ms clock at or after a time lies less than 1 ms after it |
| LoopLog.FiringTicks | DRUMS/main.c:533-534 | on the 1 ms grid an event is in the window on tick k iff k >= 5 and k is one of the five ticks from the first tick at or after its time |
| LoopLog.FiredTracks | DRUMS/main.c:530-544 | scanning events re-arms only pads 0 to 5 |
| LoopLog.FiredTracksExactly | DRUMS/main.c:530-544 | the scan re-arms a track iff some event of that track is in the window and names a pad |
| LoopLog.FiredTracksAppend | DRUMS/main.c:530-544 | scanning one more event adds what that event fires on its own |
| DrumSpec.Initial | DRUMS/main.c:71-108 | the initialisers give a well-formed state with no voice playing, pads 0 to 4 on sounds 0 to 4 and pad 5 with no buffer |
| DrumSpec.VoiceOf | DRUMS/main.c:71-73 | every voice of a well-formed state is well formed, with a length that fits `int32_t` |
| DrumSpec.Voices | DRUMS/main.c:203-219 | the voice table has six voices, voice i being pad i's |
| DrumSpec.ArmTracks | DRUMS/main.c:539-540 | arming a set of tracks arms exactly those voices and changes nothing else, unused mask bits included, keeping the invariant |
| DrumSpec.ArmTracksUnion | DRUMS/main.c:530-544 | arming one set and then another arms their union |
| DrumSpec.ArmNothing | DRUMS/main.c:530-544 | arming no track changes nothing |
| DrumSpec.ChangeButtonSound | DRUMS/main.c:278-291 | reassigning a pad keeps the invariant (the pad plays the mapped sound with its length) and the library |
| DrumSpec.AddLoopEvent | DRUMS/main.c:294-306 | the append keeps the count within capacity |
| DrumSpec.ClearLoop | DRUMS/main.c:309-313 | after clearing, the log holds no event and the duration is 0 |
| DrumSpec.CopiedBeat | DRUMS/main.c:326-331 | the copied log array keeps its 1000 entries |
| DrumSpec.LoadedEvents | DRUMS/main.c:326-331 | loading a built-in beat keeps the log array's 1000 entries |
| DrumSpec.LoadClassicBeat | DRUMS/main.c:316-338 | loading keeps the invariant (the count stays within capacity) |
| DrumSpec.ButtonIndex | DRUMS/main.c:468-476 | the lookup gives a pad whose pin is `gpio`, or -1 exactly when no pad has that pin |
| DrumSpec.ButtonIndexFrom | DRUMS/main.c:471-476 | the search from pad i finds a pad at or after i with pin `gpio`, or -1 exactly when none from i on has it |
| DrumSpec.SoundSelectPressed | DRUMS/main.c:348-375 | the sound-select toggle keeps the invariant, including the exclusion of the other modes |
| DrumSpec.StartRecording | DRUMS/main.c:382-389 | starting a recording keeps the invariant |
| DrumSpec.StopRecording | DRUMS/main.c:390-405 | stopping a recording keeps the invariant |
| DrumSpec.RecordPressed | DRUMS/main.c:378-409 | the record toggle keeps the invariant |
| DrumSpec.PlayPressed | DRUMS/main.c:411-428 | the play toggle keeps the invariant |
| DrumSpec.StartBeatPlayback | DRUMS/main.c:452-459 | the beat-select mode changes keep the invariant |
| DrumSpec.BeatSelectPressed | DRUMS/main.c:441-465 | beat selection keeps the invariant |
| DrumSpec.NextBeat | DRUMS/main.c:446 | the cyclic beat index keeps the invariant |
| DrumSpec.NextSound | DRUMS/main.c:485-488 | cycling the selected pad's sound keeps the invariant |
| DrumSpec.ChoosePad | DRUMS/main.c:494-496 | selecting a pad keeps the invariant |
| DrumSpec.PadConfigure | DRUMS/main.c:484-507 | a pad press in sound-select mode keeps the invariant |
| DrumSpec.PadPlay | DRUMS/main.c:511-522 | a normal pad press keeps the invariant |
| DrumSpec.PadEdge | DRUMS/main.c:478-523 | the drum-pad branch keeps the invariant |
| DrumSpec.GpioCallback | DRUMS/main.c:341-524 | the interrupt handler keeps the invariant and the sound library |
| DrumSpec.CheckLoopEvents | DRUMS/main.c:527-552 | the event scan keeps the invariant |
| DrumSpec.UpdateLedStates | DRUMS/main.c:555-568 | afterwards the two LEDs show the record and play modes |
| DrumSpec.LoopTimerCallback | DRUMS/main.c:571-582 | the loop tick keeps the invariant and the library |
| DrumSpec.StepVoice | DRUMS/main.c:592-605 | one pass of the mixer loop keeps the invariant |
| DrumSpec.MixVoices | DRUMS/main.c:591-607 | mixing the first n voices keeps the invariant |
| DrumSpec.MixNoVoices | DRUMS/main.c:591 | before the first pass the voice table is unchanged |
| DrumSpec.MixNextVoice | DRUMS/main.c:591-607 | earlier passes do not touch voice n, so pass n sees the voice as it was and the passes compose voice by voice |
| DrumSpec.SampleTimerCallback | DRUMS/main.c:585-624 | each voice takes its own `MixVoice` step independently of the others, nothing else changes, and the level is in 0 .. 4094 |
| DrumSpec.RunSamples | DRUMS/main.c:585-624 | any number of mixer ticks keep the invariant |
| DrumProperties.ChangeButtonSoundEffect | DRUMS/main.c:278-291 | an out-of-range pad or sound is a no-op; otherwise pad b's mapping, length and buffer become sound k's, and every other pad and all other state stay as they were |
| DrumProperties.AddLoopEventAppends | DRUMS/main.c:294-306 | with room, the log becomes the old log plus `{track, now - loop_start_time}` in `uint64_t`, and entries past the count are untouched; a full log leaves the state unchanged |
| DrumProperties.UpdateAfterPrefix | DRUMS/main.c:299-301 | writing entry n extends the first n entries by one and keeps the later ones |
| DrumProperties.FullLogKeepsItsEvents | DRUMS/main.c:295-305 | once full, any number of further presses leave the log unchanged |
| DrumProperties.AddEach | DRUMS/main.c:294-306 | successive appends keep the invariant |
| DrumProperties.LoadClassicBeatEffect | DRUMS/main.c:316-334 | an index of 3 or more changes nothing; otherwise the count is the position of the first end marker, each loaded entry has the table's track and time times 1000, later entries keep their contents, the duration is the table's times 1000, and nothing else changes |
| DrumProperties.LoadClassicBeatIdempotent | DRUMS/main.c:316-334 | loading the same beat twice gives the same state as loading it once |
| DrumProperties.PadPin | DRUMS/main.c:47-58 | each pad's pin finds that pad, and no pad shares a pin with a mode button |
| DrumProperties.IgnoredEdges | DRUMS/main.c:343-345 | a non-falling edge, or a falling edge on a pin wired to nothing, changes nothing |
| DrumProperties.SoundSelectEntry | DRUMS/main.c:350-368 | entering sound-select mode turns record, play and classic-beat mode and both LEDs off, selects no pad (0xFF) and sound 0, and keeps the voices, the mapping and the log |
| DrumProperties.SoundSelectExit | DRUMS/main.c:350-372 | leaving sound-select mode clears only its flag |
| DrumProperties.SoundSelectIgnoresModeButtons | DRUMS/main.c:378-465 | while sound-select mode is on, record, play, clear and beat-select change nothing |
| DrumProperties.SoundSelectSamePad | DRUMS/main.c:485-492 | pressing the selected pad again moves it to the next sound mod 7, repoints that pad only, and previews it armed with the new sound's length; nothing else changes |
| DrumProperties.SoundSelectOtherPad | DRUMS/main.c:493-505 | pressing another pad selects it, takes its mapped sound as the selection, keeps every mapping, and previews its current sound; nothing else changes |
| DrumProperties.NormalPadPress | DRUMS/main.c:509-522 | outside sound-select mode a press arms that pad's voice only; while recording with room it logs the event, otherwise the log is unchanged; nothing else changes |
| DrumProperties.PadRelease | DRUMS/main.c:478-481 | a press whose pin reads high again only records the button state |
| DrumProperties.RecordStart | DRUMS/main.c:382-389 | starting a recording sets record mode and its LED, clears classic-beat mode, sets the start to `now`, empties the log, and changes nothing else |
| DrumProperties.RecordStop | DRUMS/main.c:390-405 | stopping a recording sets the end to `now` and the duration to `now - start` in `uint64_t`; playback starts at clock 0 with its LED iff events were logged; nothing else changes |
| DrumProperties.PlayToggle | DRUMS/main.c:411-428 | the play button toggles playback and its LED, restarting the clock when it turns on, and changes nothing else |
| DrumProperties.ClearButton | DRUMS/main.c:430-439 | clear empties the log, zeroes the duration, leaves classic-beat mode and changes nothing else |
| DrumProperties.BeatSelect | DRUMS/main.c:441-465 | beat-select moves to the next beat mod 3, loads exactly its events in µs with its duration, and plays it from clock 0 with recording off, setting the LEDs; nothing else changes |
| DrumProperties.CheckLoopEventsEffect | DRUMS/main.c:527-552 | while playing a loop of positive duration, a voice is re-armed iff a logged event of its track is in the window; the clock wraps to 0 at the duration, so it ends below it, and nothing else changes |
| DrumProperties.PlaybackTick | DRUMS/main.c:571-582 | the clock advances by 1000 only while playing a loop of positive duration; voices re-arm iff a logged event is in the window of the new clock; the clock ends below the duration; the LEDs show the modes |
| DrumProperties.SamplesRunEachVoice | DRUMS/main.c:585-607 | over k mixer ticks each voice runs on its own, and the tracks and the log stay as they are |
| DrumProperties.PadPressPlaysItsSound | DRUMS/main.c:509-607 | after a pad press its voice reads sample k on the k+1-th mixer tick for each k below the sound's length, and has stopped once the sound's length of ticks have passed |
| DrumProperties.IdleAfter | DRUMS/main.c:598-600 | a voice that has stopped stays stopped |
| DrumProperties.ReassignPadZero | DRUMS/main.c:348-523 | from power-on: select mode, two presses of pad 0, leave the mode, and pad 0 now plays sound 1 from its start |
| DrumProperties.InitialCountsInRange | DRUMS/main.c:73 | at power-on every counter is 0, within its sound's length |
| DrumProperties.ArmRestoresCounts | DRUMS/main.c:515-516 | arming sets each armed counter to its length, so the bound holds afterwards if it held for the voices not armed |
| DrumProperties.GpioCallbackKeepsCounts | DRUMS/main.c:341-524 | the interrupt handler keeps every counter between 0 and its sound's length |
| DrumProperties.ModeButtonFrame | DRUMS/main.c:341-465 | every non-pad branch of the handler leaves the counters and lengths alone, and either resets the clock to 0 or leaves it |
| DrumProperties.PadEdgeKeepsCounts | DRUMS/main.c:478-523 | the pad branch keeps the bound: a reassigned pad is re-armed with its new length at once |
| DrumProperties.LoopTimerKeepsCounts | DRUMS/main.c:571-582 | the loop tick keeps every counter between 0 and its sound's length |
| DrumProperties.CheckLoopEventsKeepsCounts | DRUMS/main.c:527-552 | re-arming the events in the window keeps the bound |
| DrumProperties.SampleTimerKeepsCounts | DRUMS/main.c:591-606 | a mixer tick counts a voice down only while it reads, so no counter leaves its range |
| DrumProperties.InitialClockOnGrid | DRUMS/main.c:80 | the loop clock starts on the 1 ms grid, at 0 |
| DrumProperties.GpioCallbackKeepsGrid | DRUMS/main.c:341-524 | the interrupt handler sets the clock to 0 or leaves it, so it stays on the grid |
| DrumProperties.PadEdgeKeepsClock | DRUMS/main.c:478-523 | the pad branch never touches the clock |
| DrumProperties.SampleTimerKeepsGrid | DRUMS/main.c:585-624 | the mixer never touches the clock |
| DrumProperties.LoopTimerKeepsGrid | DRUMS/main.c:573-576 | a loop tick sets the clock to 0, leaves it, or adds 1000, so it stays on the 1 ms grid while the addition fits `uint64_t` |
| DrumMachine.FindButton | DRUMS/main.c:468-476 | the search loop returns the first pad whose pin is `gpio`, or -1 exactly when no pad has it |
| DrumMachine.Machine.constructor | DRUMS/main.c:71-108 | the globals as their initialisers leave them, which satisfy the invariant |
| DrumMachine.Machine.ArmTrack | DRUMS/main.c:515-516 | sets the pad's bit and counter in place, as `DrumSpec.ArmTracks` with one track |
| DrumMachine.Machine.ChangeButtonSound | DRUMS/main.c:278-291 | updates the three tables in place, as `DrumSpec.ChangeButtonSound` |
| DrumMachine.Machine.AddLoopEvent | DRUMS/main.c:294-306 | writes the log array in place, as `DrumSpec.AddLoopEvent` |
| DrumMachine.Machine.ClearLoop | DRUMS/main.c:309-313 | as `DrumSpec.ClearLoop` |
| DrumMachine.Machine.CopyBeat | DRUMS/main.c:326-331 | the sentinel-driven copy loop writes exactly the entries before the end marker, in µs, leaves the rest of the array, and returns their number |
| DrumMachine.Machine.LoadClassicBeat | DRUMS/main.c:316-338 | as `DrumSpec.LoadClassicBeat` |
| DrumMachine.Machine.SoundSelectPressed | DRUMS/main.c:348-375 | as `DrumSpec.SoundSelectPressed` |
| DrumMachine.Machine.GpioPut | DRUMS/main.c:367-368 | sets the level of one status LED and nothing else |
| DrumMachine.Machine.LeaveModes | DRUMS/main.c:361-368 | turns record, play and classic-beat mode and both LEDs off, nothing else |
| DrumMachine.Machine.StartPlayback | DRUMS/main.c:415-420 | playback on from clock 0 with its LED on, nothing else |
| DrumMachine.Machine.StopPlayback | DRUMS/main.c:421-423 | playback and its LED off, nothing else |
| DrumMachine.Machine.RestartLog | DRUMS/main.c:386-387 | the start time becomes `now` and the log is emptied, nothing else |
| DrumMachine.Machine.StartRecording | DRUMS/main.c:382-389 | as `DrumSpec.StartRecording` |
| DrumMachine.Machine.EndLoop | DRUMS/main.c:393-394 | the end time becomes `now` and the duration `now - start` in `uint64_t`, nothing else |
| DrumMachine.Machine.StopRecording | DRUMS/main.c:390-405 | as `DrumSpec.StopRecording` |
| DrumMachine.Machine.RecordPressed | DRUMS/main.c:378-409 | as `DrumSpec.RecordPressed` |
| DrumMachine.Machine.PlayPressed | DRUMS/main.c:411-428 | as `DrumSpec.PlayPressed` |
| DrumMachine.Machine.StartBeatPlayback | DRUMS/main.c:452-459 | as `DrumSpec.StartBeatPlayback` |
| DrumMachine.Machine.NextBeat | DRUMS/main.c:446 | as `DrumSpec.NextBeat` |
| DrumMachine.Machine.BeatSelectPressed | DRUMS/main.c:441-465 | as `DrumSpec.BeatSelectPressed` |
| DrumMachine.Machine.NextSound | DRUMS/main.c:485-488 | as `DrumSpec.NextSound` |
| DrumMachine.Machine.ChoosePad | DRUMS/main.c:494-496 | as `DrumSpec.ChoosePad` |
| DrumMachine.Machine.PadConfigure | DRUMS/main.c:484-507 | as `DrumSpec.PadConfigure` |
| DrumMachine.Machine.PadPlay | DRUMS/main.c:511-522 | as `DrumSpec.PadPlay` |
| DrumMachine.Machine.PadEdge | DRUMS/main.c:478-523 | as `DrumSpec.PadEdge` |
| DrumMachine.Machine.GpioCallback | DRUMS/main.c:341-524 | the interrupt handler as `DrumSpec.GpioCallback`, keeping the invariant |
| DrumMachine.Machine.CheckEvent | DRUMS/main.c:533-542 | one pass of the scan arms the event's track exactly when the event fires at the current clock |
| DrumMachine.Machine.ScanLog | DRUMS/main.c:530-544 | the scan loop arms exactly the tracks `LoopLog.FiredTracks` gives for the logged events |
| DrumMachine.Machine.CheckLoopEvents | DRUMS/main.c:527-552 | as `DrumSpec.CheckLoopEvents` |
| DrumMachine.Machine.UpdateLedStates | DRUMS/main.c:555-568 | as `DrumSpec.UpdateLedStates` |
| DrumMachine.Machine.AdvanceLoopClock | DRUMS/main.c:574 | the clock advances by 1000 in `uint64_t`, nothing else |
| DrumMachine.Machine.LoopTimerCallback | DRUMS/main.c:571-582 | the loop tick as `DrumSpec.LoopTimerCallback`, and the timer keeps repeating |
| DrumMachine.Machine.MixTrack | DRUMS/main.c:592-605 | one pass of the mixer loop in place, as `DrumSpec.StepVoice`, returning the voice's `MixVoice` contribution |
| DrumMachine.Machine.MixTracks | DRUMS/main.c:591-607 | the mixer loop advances every voice and returns the sum `Mixer.MixSum` of what they read |
| DrumMachine.Machine.SampleTimerCallback | DRUMS/main.c:585-624 | the new voice table and the level as `DrumSpec.SampleTimerCallback`, the level below 4095, and the timer keeps repeating |

## Left out

- `pwm_audio_init` is not modelled: it is the PWM hardware set-up, with a floating-point clock divider and SDK calls. `pwm_set_gpio_level` is modelled as the level `SampleTimerCallback` returns.
- The initialisation in `main` is not modelled: GPIO set-up, pull-ups, interrupt registration, and the two repeating timers. Each callback is one atomic step, invoked with the inputs it would read.
- The interleaving of the GPIO interrupt with the two timers, and the `volatile` qualifiers, are not modelled. Each callback runs to completion on the state as the previous step left it.
- `printf`, `print_sound_config` and `sleep_ms` are not modelled: they are diagnostics with no effect on the engine's state.
- The status loop at the end of `main` is not modelled. Besides printing, it clears `button_state_changed` after reporting the buttons (DRUMS/main.c:728-731). The model carries that flag as `buttonStateChanged`, which `PadEdge` sets and nothing clears.
- `gpio_put` is modelled only for the two status LEDs, as the fields `recordLed` and `playLed`. No other pin is written by the engine.
- The PCM sample headers are not modelled. The library is a constructor parameter of seven non-empty buffers of int16 values, each shorter than 2^31 samples. Only their lengths and contents matter.
- `sound_names` only feeds `printf` and is not modelled.
- The unused globals `button_tracker`, `record_led_state`, `play_led_state` and `led_flash_timestamp` are not modelled.
- `DRUMS/main.cpp` is not part of this model. It is the OLED and joystick menu variant of the firmware.
- `song_conversion/song_converter.py` is not part of this model. It is an offline tool that writes the sample headers.
- An event fires on up to five ticks per pass, not once, because the window is kept as written (`LoopLog.FiringTicks`, `LoopLog.EventAtZeroNeverFires`).
- `DrumProperties.LoopTimerKeepsGrid` is stated only while `clock + 1000` fits `uint64_t`. Past that point the addition wraps, and the clock leaves the 1 ms grid.
