/**
 * Adc/tm7705_spi.py: the bit-banged SPI transport for the TM7705 ADC
 * (byte write and read with chip-select framing, MSB first), the DRDY
 * ready-wait, the gain-to-input-range calculation and the offered gains.
 * Line writes and reads become trace events; the level of DOUT and DRDY at
 * each read is supplied by the caller; sleeps are dropped.
 */
module Tm7705Spi {
  import opened Bits
  import opened LineTrace

  /** The fixed 2.5 V reference of the converter. */
  const VREF: real := 2.5

  /** The gains offered to the user, in menu order. */
  const GainOptions: seq<int> := [1, 2, 4, 8, 16, 32, 64, 128]

  /**
   * spi_write_byte: CS low, then for bit positions 7 down to 0 set DIN to
   * `(value >> i) & 1` and pulse SCK, then CS high.
   */
  method SpiWriteByte(byteValue: nat) returns (trace: seq<Event>)
    ensures trace == WriteFrame(MsbBits(byteValue, 8))
  {
    trace := [CS(0)];
    var i: int := 7;
    while i >= 0
      invariant -1 <= i <= 7
      invariant trace == [CS(0)] + Pulses(MsbBits(byteValue, 8)[..7 - i])
    {
      var b := BitOf(byteValue, i);
      MsbBitsIndex(byteValue, 8, 7 - i);
      assert MsbBits(byteValue, 8)[..8 - i] == MsbBits(byteValue, 8)[..7 - i] + [b];
      PulsesSnoc(MsbBits(byteValue, 8)[..7 - i], b);
      trace := trace + [DIN(b), SCK(1), SCK(0)];
      i := i - 1;
    }
    assert MsbBits(byteValue, 8)[..8] == MsbBits(byteValue, 8);
    trace := trace + [CS(1)];
  }

  /**
   * spi_read_byte: CS low, then for bit positions 7 down to 0 raise SCK,
   * sample DOUT into bit i with `value |= bit << i`, lower SCK; then CS high.
   * `dout` holds the eight levels DOUT shows, in sampling order.
   */
  method SpiReadByte(dout: seq<bit>) returns (value: nat, trace: seq<Event>)
    requires |dout| == 8
    ensures value == MsbValue(dout)
    ensures value < 256
    ensures trace == ReadFrame(8)
  {
    trace := [CS(0)];
    value := 0;
    var i: int := 7;
    while i >= 0
      invariant -1 <= i <= 7
      invariant value == MsbValue(dout[..7 - i]) * Pow2(i + 1)
      invariant trace == [CS(0)] + ReadPulses(7 - i)
    {
      trace := trace + [SCK(1), SampleDOUT];
      var b := dout[7 - i];
      OrAppendsBit(dout[..7 - i], b, i);
      value := Or(value, b * Pow2(i));
      assert dout[..8 - i] == dout[..7 - i] + [b];
      trace := trace + [SCK(0)];
      i := i - 1;
    }
    assert dout[..8] == dout;
    MsbValueBound(dout);
    trace := trace + [CS(1)];
  }

  /**
   * wait_for_ready: poll DRDY until it reads 0 or the time budget is spent.
   * `drdy(k)` is the level seen at the k-th poll; `polls` is how many polls
   * fit in the timeout. Returns whether DRDY was seen low and how many polls
   * were made.
   */
  method WaitForReady(drdy: nat -> bit, polls: nat) returns (ready: bool, sampled: nat)
    ensures sampled <= polls
    ensures ready <==> exists k :: 0 <= k < polls && drdy(k) == 0
    ensures ready ==> sampled >= 1 && drdy(sampled - 1) == 0
    ensures ready ==> forall k :: 0 <= k < sampled - 1 ==> drdy(k) == 1
    ensures !ready ==> sampled == polls
  {
    sampled := 0;
    while sampled < polls
      invariant sampled <= polls
      invariant forall k :: 0 <= k < sampled ==> drdy(k) == 1
    {
      var level := drdy(sampled);
      sampled := sampled + 1;
      if level == 0 {
        return true, sampled;
      }
    }
    return false, sampled;
  }

  datatype VoltageRange = VoltageRange(minVolt: real, maxVolt: real)

  /** `VREF / gain` raises ZeroDivisionError for a zero gain. */
  datatype RangeResult = Range(range: VoltageRange) | ZeroDivisionError

  /**
   * calculate_voltage_range: unipolar spans 0 .. VREF/gain, bipolar spans
   * -VREF/gain .. VREF/gain. Computed over the reals.
   */
  function CalculateVoltageRange(gain: int, unipolar: bool): (r: RangeResult)
    ensures r.ZeroDivisionError? <==> gain == 0
    ensures r.Range? ==> r.range.maxVolt * (gain as real) == VREF
    ensures r.Range? && unipolar ==> r.range.minVolt == 0.0
    ensures r.Range? && !unipolar ==> r.range.minVolt == -r.range.maxVolt
  {
    if gain == 0 then ZeroDivisionError
    else
      var top := VREF / (gain as real);
      if unipolar then Range(VoltageRange(0.0, top)) else Range(VoltageRange(-top, top))
  }

  /** The offered gains are the powers of two 2^0 .. 2^7. */
  lemma GainOptionsArePowersOfTwo()
    ensures |GainOptions| == 8
    ensures forall i :: 0 <= i < 8 ==> GainOptions[i] == Pow2(i)
  {
    assert Pow2(0) == 1 && Pow2(1) == 2 && Pow2(2) == 4 && Pow2(3) == 8;
    assert Pow2(4) == 16 && Pow2(5) == 32 && Pow2(6) == 64 && Pow2(7) == 128;
  }

  /** A larger positive gain gives a strictly smaller full-scale voltage. */
  lemma MaxVoltageDecreasing(g1: int, g2: int)
    requires 0 < g1 < g2
    ensures CalculateVoltageRange(g2, true).range.maxVolt < CalculateVoltageRange(g1, true).range.maxVolt
    ensures CalculateVoltageRange(g2, false).range.maxVolt < CalculateVoltageRange(g1, false).range.maxVolt
  {
    QuotientDecreasing(VREF, g1 as real, g2 as real);
  }

  lemma QuotientDecreasing(v: real, g1: real, g2: real)
    requires v > 0.0 && 0.0 < g1 < g2
    ensures v / g2 < v / g1
  {
    var a, b := v / g1, v / g2;
    assert a * g1 == v && b * g2 == v;
    PositiveQuotient(v, g2);
    assert b * g1 < b * g2;
    RealCancel(b, a, g1);
  }

  lemma PositiveQuotient(v: real, g: real)
    requires v > 0.0 && g > 0.0
    ensures v / g > 0.0
  {
  }

  lemma RealCancel(x: real, y: real, g: real)
    requires g > 0.0 && x * g < y * g
    ensures x < y
  {
  }

  /** Along the offered list, every later gain has a strictly smaller range. */
  lemma GainMenuRangesShrink(i: nat, j: nat)
    requires i < j < |GainOptions|
    ensures CalculateVoltageRange(GainOptions[j], true).range.maxVolt
          < CalculateVoltageRange(GainOptions[i], true).range.maxVolt
  {
    GainOptionsArePowersOfTwo();
    PowStrictlyIncreasing(i, j);
    MaxVoltageDecreasing(GainOptions[i], GainOptions[j]);
  }

  lemma {:induction false} PowStrictlyIncreasing(i: nat, j: nat)
    requires i < j
    ensures Pow2(i) < Pow2(j)
  {
    if j > i + 1 {
      PowStrictlyIncreasing(i, j - 1);
    }
  }

  /**
   * A byte write frames its 8 clock pulses between CS low and CS high, puts
   * bit 7 - k of the value on DIN before the k-th rising edge, always returns
   * SCK low, and sends only the low 8 bits of a larger value.
   */
  lemma WriteByteFrame(byteValue: nat)
    ensures var t := WriteFrame(MsbBits(byteValue, 8));
      && t[0] == CS(0) && t[|t| - 1] == CS(1)
      && (forall j :: 0 < j < |t| - 1 ==> !t[j].CS?)
      && Rises(t) == 8
      && ClockReturnsLow(t)
      && (forall k :: 0 <= k < 8 ==> t[1 + 3 * k] == DIN(BitOf(byteValue, 7 - k)) && t[2 + 3 * k] == SCK(1))
    ensures WriteFrame(MsbBits(byteValue, 8)) == WriteFrame(MsbBits(byteValue % 256, 8))
  {
    WriteFrameShape(MsbBits(byteValue, 8));
    forall k | 0 <= k < 8
      ensures MsbBits(byteValue, 8)[k] == BitOf(byteValue, 7 - k)
    {
      MsbBitsIndex(byteValue, 8, k);
    }
    MsbBitsLow(byteValue, 8);
    assert Pow2(8) == 256;
  }

  /** A byte read is 8 clock pulses, each sampling DOUT while SCK is high, between CS low and CS high. */
  lemma ReadByteFrame()
    ensures var t := ReadFrame(8);
      && |t| == 26 && t[0] == CS(0) && t[25] == CS(1)
      && (forall j :: 0 < j < 25 ==> !t[j].CS?)
      && Rises(t) == 8 && ClockReturnsLow(t)
      && forall k :: 0 <= k < 8 ==> t[1 + 3 * k] == SCK(1) && t[2 + 3 * k] == SampleDOUT && t[3 + 3 * k] == SCK(0)
  {
    ReadFrameShape(8);
  }

  /**
   * Loopback wiring, as in an integration test: the DIN levels a byte write
   * produces are fed back as the DOUT samples of a byte read, which returns
   * the written byte (its low 8 bits).
   */
  method Loopback(byteValue: nat) returns (readBack: nat)
    ensures readBack == byteValue % 256
  {
    var written := SpiWriteByte(byteValue);
    WriteFrameShape(MsbBits(byteValue, 8));
    var dout := DinLevels(written);
    var readTrace;
    readBack, readTrace := SpiReadByte(dout);
    MsbValueOfBits(byteValue, 8);
    assert Pow2(8) == 256;
  }
}
