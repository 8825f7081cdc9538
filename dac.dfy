/**
 * Conversion of a sample or an inference output to an analog output level
 * (OutputToVoltage) and the clamp every DAC-bound sink applies before writing.
 * Integer inputs are divided by powers of two, so `real` arithmetic is exact.
 */
module Dac {
  import opened Common

  /** OutputToVoltage: int16 scaled by 1/8192, int8 by 1/128, any other integral type only cast. */
  function OutputToVoltage(t: ElementType, v: int): (r: real)
    ensures t == Int16Type && -32768 <= v <= 32767 ==> -4.0 <= r <= 32767.0 / 8192.0
    ensures t == Int8Type && -128 <= v <= 127 ==> -1.0 <= r <= 127.0 / 128.0
    ensures r == 0.0 <==> v == 0
    ensures r > 0.0 <==> v > 0
  {
    match t
    case Int16Type => v as real / 8192.0
    case Int8Type => v as real / 128.0
    case OtherIntegral => v as real
  }

  /** std::clamp(v, -1.0f, 1.0f). */
  function Clamp(v: real): (r: real)
    ensures -1.0 <= r <= 1.0
    ensures -1.0 <= v <= 1.0 ==> r == v
    ensures v < -1.0 ==> r == -1.0
    ensures v > 1.0 ==> r == 1.0
  {
    if v < -1.0 then -1.0 else if 1.0 < v then 1.0 else v
  }

  /** The level actually written to the DAC for one value. */
  function Amplitude(t: ElementType, v: int): (a: real)
    ensures -1.0 <= a <= 1.0
  {
    Clamp(OutputToVoltage(t, v))
  }

  /** The scaling is monotone in its input for every element type. */
  lemma OutputToVoltageMonotone(t: ElementType, x: int, y: int)
    requires x <= y
    ensures OutputToVoltage(t, x) <= OutputToVoltage(t, y)
  {
  }

  /** An int8 value's voltage needs no clamping: the clamp leaves it unchanged. */
  lemma Int8NeedsNoClamp(v: int)
    requires -128 <= v <= 127
    ensures Amplitude(Int8Type, v) == OutputToVoltage(Int8Type, v)
  {
  }

  /** The written amplitude is monotone too, and never leaves [-1, 1]. */
  lemma AmplitudeMonotone(t: ElementType, x: int, y: int)
    requires x <= y
    ensures Amplitude(t, x) <= Amplitude(t, y)
    ensures -1.0 <= Amplitude(t, x) <= 1.0
  {
    OutputToVoltageMonotone(t, x, y);
  }

  /** One analog output: the amplitudes handed to rp_GenAmp, in order. */
  class Generator {
    var amplitudes: seq<real>

    constructor ()
      ensures amplitudes == []
    {
      amplitudes := [];
    }

    /** rp_GenAmp: the output is set to one more amplitude. */
    method GenAmp(v: real)
      modifies this
      ensures amplitudes == old(amplitudes) + [v]
    {
      amplitudes := amplitudes + [v];
    }
  }
}
