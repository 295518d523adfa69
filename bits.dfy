/**
 * The 32-bit playing mask and the three bit macros that act on it
 * (bit_set, bit_clr, testbit). The mask is modelled bit by bit: element
 * `b` of the sequence is bit `b` of the `uint32_t`.
 */
module Bits {

  type Mask32 = m: seq<bool> | |m| == 32 witness Zero()

  /** The mask with every bit clear, `tracks_playing = 0`. */
  function Zero(): (m: seq<bool>)
    ensures |m| == 32 && forall j :: 0 <= j < |m| ==> !m[j]
  {
    seq(32, _ => false)
  }

  /** `testbit(var, bitno)`: bit `b` of the mask is 1. */
  predicate TestBit(m: Mask32, b: nat)
    requires b < 32
  {
    m[b]
  }

  /** `bit_set(var, bitno)`: set bit `b`, keep every other bit. */
  function BitSet(m: Mask32, b: nat): (r: Mask32)
    requires b < 32
    ensures TestBit(r, b)
    ensures forall j :: 0 <= j < 32 && j != b ==> r[j] == m[j]
  {
    m[b := true]
  }

  /** `bit_clr(var, bitno)`: clear bit `b`, keep every other bit. */
  function BitClr(m: Mask32, b: nat): (r: Mask32)
    requires b < 32
    ensures !TestBit(r, b)
    ensures forall j :: 0 <= j < 32 && j != b ==> r[j] == m[j]
  {
    m[b := false]
  }
}
