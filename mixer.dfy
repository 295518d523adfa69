/**
 * The audio mixer of the drum machine: one voice per drum pad, each
 * playing a PCM buffer of the sound library from its first sample to its
 * last, and the conversion of the clipped sum into a PWM duty value.
 *
 * `MixVoice` is one voice's share of one call of the sample timer
 * callback; the callback itself (a loop over the six voices) is the method
 * `DrumMachine.Machine.SampleTimerCallback`.
 */
module Mixer {
  import opened CInt
  import opened Wrappers

  const PWM_WRAP: int := 4095
  const MIN_SIGNED_16BIT_VAL: int := -32768
  const MAX_SIGNED_16BIT_VAL: int := 32767

  /** A PCM buffer of the sound library. */
  type Sample = seq<int>

  predicate IsAmplitude(x: int) {
    MIN_SIGNED_16BIT_VAL <= x <= MAX_SIGNED_16BIT_VAL
  }

  /**
   * A buffer of the sound library: not empty, signed 16-bit amplitudes,
   * and short enough that its length fits the `int32_t` play counter.
   */
  predicate ValidSample(s: Sample) {
    && 0 < |s| < TWO_31
    && forall k :: 0 <= k < |s| ==> IsAmplitude(s[k])
  }

  /**
   * One voice: its bit of `tracks_playing`, `samp_play_cnt[i]` (samples
   * still to play), `tracks_samp_nr[i]` (the length of the assigned
   * sound) and `tracks[i]` (the assigned buffer, `None` for NULL).
   */
  datatype Voice = Voice(playing: bool, remaining: Int32, length: Uint32, buffer: Option<Sample>)

  /** The length recorded for a voice never exceeds the buffer it points to. */
  predicate WellFormedVoice(v: Voice) {
    v.buffer.Some? ==> ValidSample(v.buffer.value) && v.length <= |v.buffer.value|
  }

  /** `uint32_t current_samp_nr = tracks_samp_nr[i] - samp_play_cnt[i];` */
  function SampleIndex(v: Voice): Uint32 {
    WrapU32(v.length - v.remaining)
  }

  /** What a voice contributes to one mix: nothing, or the sample it read. */
  datatype Tap = Silent | Read(index: nat, amplitude: int)

  datatype VoiceTick = VoiceTick(next: Voice, tap: Tap)

  function Amplitude(t: Tap): int {
    if t.Read? then t.amplitude else 0
  }

  /**
   * One voice in one call of the sample timer callback. A playing voice
   * reads its buffer only when the index is below the length and the
   * buffer exists, and then the index is inside the buffer; otherwise it
   * stops without reading.
   */
  function MixVoice(v: Voice): (r: VoiceTick)
    requires WellFormedVoice(v)
    ensures r.next.length == v.length && r.next.buffer == v.buffer
    ensures r.tap.Read? <==> v.playing && v.buffer.Some? && SampleIndex(v) < v.length
    ensures r.tap.Read? ==>
      && r.tap.index == SampleIndex(v) < |v.buffer.value|
      && r.tap.amplitude == v.buffer.value[r.tap.index]
      && IsAmplitude(r.tap.amplitude)
    ensures r.tap.Read? ==>
      && 0 < v.remaining
      && r.next.remaining == v.remaining - 1
      && (r.next.playing <==> r.next.remaining > 0)
    ensures r.tap.Silent? ==> r.next == v.(playing := false)
  {
    if !v.playing then
      VoiceTick(v, Silent)
    else
      var index := SampleIndex(v);
      if index < v.length && v.buffer.Some? then
        var left := v.remaining - 1;
        VoiceTick(v.(remaining := left, playing := left > 0), Read(index, v.buffer.value[index]))
      else
        VoiceTick(v.(playing := false), Silent)
  }

  /** A voice as a pad press leaves it: `bit_set` and `samp_play_cnt[i] = tracks_samp_nr[i]`. */
  function Arm(v: Voice): (r: Voice)
    requires v.length < TWO_31
    ensures r.playing && r.remaining == r.length == v.length && r.buffer == v.buffer
  {
    v.(playing := true, remaining := v.length)
  }

  /** The voice after `k` calls of the sample timer callback with nothing else happening. */
  function RunVoice(v: Voice, k: nat): (r: Voice)
    requires WellFormedVoice(v)
    ensures WellFormedVoice(r) && r.length == v.length && r.buffer == v.buffer
    decreases k
  {
    if k == 0 then v else RunVoice(MixVoice(v).next, k - 1)
  }

  /**
   * Voice termination: a voice armed with a buffer of `L` samples reads
   * sample `k` on tick `k + 1`, for each `k < L` in order, its counter
   * falls by exactly one per tick, and it is still playing before that tick.
   */
  lemma {:induction false} ArmedVoiceReadsInOrder(v: Voice, k: nat)
    requires WellFormedVoice(v) && v.buffer.Some? && v.length < TWO_31
    requires k < v.length
    ensures RunVoice(Arm(v), k) == Arm(v).(remaining := v.length - k)
    ensures MixVoice(RunVoice(Arm(v), k)).tap == Read(k, v.buffer.value[k])
  {
    if k > 0 {
      ArmedVoiceReadsInOrder(v, k - 1);
      RunVoiceLast(Arm(v), k);
    }
  }

  /** Unfolding `RunVoice` at its last step. */
  lemma {:induction false} RunVoiceLast(v: Voice, k: nat)
    requires WellFormedVoice(v) && k > 0
    ensures RunVoice(v, k) == MixVoice(RunVoice(v, k - 1)).next
    decreases k
  {
    if k > 1 {
      RunVoiceLast(MixVoice(v).next, k - 1);
    }
  }

  /**
   * A voice armed with a buffer of `L > 0` samples stops on exactly the
   * `L`-th tick, with its counter at zero.
   */
  lemma ArmedVoiceStopsAfterLength(v: Voice)
    requires WellFormedVoice(v) && v.buffer.Some? && 0 < v.length < TWO_31
    ensures forall k :: 0 <= k < v.length ==> RunVoice(Arm(v), k).playing
    ensures RunVoice(Arm(v), v.length) == Arm(v).(playing := false, remaining := 0)
  {
    forall k | 0 <= k < v.length
      ensures RunVoice(Arm(v), k).playing
    {
      ArmedVoiceReadsInOrder(v, k);
    }
    ArmedVoiceReadsInOrder(v, v.length - 1);
    RunVoiceLast(Arm(v), v.length);
  }

  /** A voice that is not playing stays silent and unchanged on every later tick. */
  lemma {:induction false} IdleVoiceStaysIdle(v: Voice, k: nat)
    requires WellFormedVoice(v) && !v.playing
    ensures RunVoice(v, k) == v
    ensures MixVoice(RunVoice(v, k)).tap == Silent
  {
    if k > 0 {
      IdleVoiceStaysIdle(v, k - 1);
      RunVoiceLast(v, k);
    }
  }

  /** The samples the voices `vs` contribute to one mix, in the order the callback adds them. */
  function MixSum(vs: seq<Voice>): (r: int)
    requires forall i :: 0 <= i < |vs| ==> WellFormedVoice(vs[i])
    ensures MIN_SIGNED_16BIT_VAL * |vs| <= r <= MAX_SIGNED_16BIT_VAL * |vs|
  {
    if vs == [] then 0
    else MixSum(vs[..|vs| - 1]) + Amplitude(MixVoice(vs[|vs| - 1]).tap)
  }

  /** Saturation of the sum to the signed 16-bit range. */
  function Clip16(x: int): (r: int)
    ensures IsAmplitude(r)
    ensures IsAmplitude(x) ==> r == x
    ensures x < MIN_SIGNED_16BIT_VAL ==> r == MIN_SIGNED_16BIT_VAL
    ensures x > MAX_SIGNED_16BIT_VAL ==> r == MAX_SIGNED_16BIT_VAL
  {
    if x < MIN_SIGNED_16BIT_VAL then MIN_SIGNED_16BIT_VAL
    else if x > MAX_SIGNED_16BIT_VAL then MAX_SIGNED_16BIT_VAL
    else x
  }

  /**
   * The linear map of a 16-bit amplitude onto the PWM level written to the
   * audio pin; it is always a level the PWM slice (wrap `PWM_WRAP - 1`)
   * can produce, so the `uint16_t` cast keeps the value.
   */
  function Duty(mix: int): (r: int)
    requires IsAmplitude(mix)
    ensures 0 <= r <= PWM_WRAP - 1
  {
    (mix - MIN_SIGNED_16BIT_VAL) * PWM_WRAP / 65536
  }

  /** The level is monotone in the amplitude, lowest at the most negative sample and highest at the most positive. */
  lemma DutyMonotone(a: int, b: int)
    requires IsAmplitude(a) && IsAmplitude(b) && a <= b
    ensures Duty(a) <= Duty(b)
    ensures Duty(MIN_SIGNED_16BIT_VAL) == 0 && Duty(MAX_SIGNED_16BIT_VAL) == PWM_WRAP - 1
    ensures Duty(0) == PWM_WRAP / 2
  {
    var x, y := (a - MIN_SIGNED_16BIT_VAL) * PWM_WRAP, (b - MIN_SIGNED_16BIT_VAL) * PWM_WRAP;
    assert x <= y;
    var qx, qy := x / 65536, y / 65536;
    assert 65536 * qx <= x && y < 65536 * qy + 65536;
  }

  /** Clipping invariant: whatever the sum of the voices, the level written is in `0 .. PWM_WRAP - 1`. */
  function MixDuty(sum: int): (r: int)
    ensures 0 <= r <= PWM_WRAP - 1
  {
    Duty(Clip16(sum))
  }
}
