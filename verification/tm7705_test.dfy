/**
 * Adc/tm7705_test.py: the second TM7705 driver, which shifts commands of any
 * width bit by bit, reads a data register after a read command, waits for
 * DRDY with a bounded poll count, and writes the fixed configuration and
 * self-calibration sequence. Line actions become trace events; the levels
 * DOUT and DRDY show are supplied by the caller; sleeps and printing are
 * dropped.
 */
module Tm7705Test {
  import opened Bits
  import opened LineTrace

  /** Register-select values of the communication byte. */
  const COMM_ADDR: nat := 0x00
  const SETUP_ADDR: nat := 0x20
  const CLOCK_ADDR: nat := 0x40
  const DATA_ADDR: nat := 0x60

  /** Clock register: master clock enabled, no divider, 50 Hz update rate. */
  const CLOCK_DATA: nat := 0x10
  /** Setup register: normal mode, gain 1, bipolar, unbuffered. */
  const SETUP_DATA: nat := 0x00
  /** Setup register with the self-calibration mode bit set. */
  const SETUP_CAL_DATA: nat := 0x20

  /** The read/write bit of the communication byte that asks for a read. */
  const READ_FLAG: nat := 0x08

  /** The poll budget of `wait_for_drdy_low`. */
  const MAX_TIMEOUT: nat := 1000000

  /** The bytes `configure_tm7705` writes before the DRDY wait, in order. */
  const CalibrationCommands: seq<nat> := [CLOCK_ADDR, CLOCK_DATA, SETUP_ADDR, SETUP_DATA, SETUP_ADDR, SETUP_CAL_DATA]
  /** The bytes `configure_tm7705` writes after the DRDY wait, in order. */
  const RestoreCommands: seq<nat> := [SETUP_ADDR, SETUP_DATA]

  /**
   * send_bit_to_tm7705: DIN is driven high for a truthy `bit` and low
   * otherwise, then SCK is pulsed once.
   */
  function SendBit(bit: int): (t: seq<Event>)
    ensures |t| == 3 && Rises(t) == 1 && ClockReturnsLow(t)
    ensures DinLevels(t) == [if bit == 0 then 0 else 1]
    ensures t[0].DIN? && t[1] == SCK(1)
  {
    var t := BitPulse(if bit == 0 then 0 else 1);
    WriteFrameShape([if bit == 0 then 0 else 1]);
    assert WriteFrame([if bit == 0 then 0 else 1]) == [CS(0)] + t + [CS(1)];
    assert Rises(t) == 1;
    assert DinLevels(t) == [t[0].level];
    t
  }

  /** receive_bit_from_tm7705: SCK high, DOUT sampled, SCK low; the sample is returned. */
  method ReceiveBit(dout: bit) returns (bit: bit, t: seq<Event>)
    ensures bit == dout
    ensures t == ReadPulse() && Rises(t) == 1 && ClockReturnsLow(t)
  {
    t := [SCK(1), SampleDOUT, SCK(0)];
    bit := dout;
    assert t[1..] == [SampleDOUT, SCK(0)] && t[1..][1..] == [SCK(0)];
    assert t[1..][1..][1..] == [];
    assert NextWriteLowersClock(t, 2);
  }

  /**
   * send_command_tm7705: CS low, then bits `num_bits - 1` down to 0 of the
   * command, each as one clock pulse, then CS high.
   */
  method SendCommand(command: nat, numBits: nat) returns (trace: seq<Event>)
    ensures trace == WriteFrame(MsbBits(command, numBits))
    ensures Frames(trace) == [MsbBits(command, numBits)]
    ensures FrameValues(Frames(trace)) == [command % Pow2(numBits)]
  {
    var bits := MsbBits(command, numBits);
    trace := [CS(0)];
    var i := 0;
    while i < numBits
      invariant 0 <= i <= numBits
      invariant trace == [CS(0)] + Pulses(bits[..i])
    {
      var bit := BitOf(command, numBits - 1 - i);
      MsbBitsIndex(command, numBits, i);
      assert bits[..i + 1] == bits[..i] + [bit];
      PulsesSnoc(bits[..i], bit);
      trace := trace + SendBit(bit);
      i := i + 1;
    }
    assert bits[..numBits] == bits;
    trace := trace + [CS(1)];
    WriteFrameReceived(bits, [], Receiver(false, 0, []));
    assert trace + [] == trace;
    MsbValueOfBits(command, numBits);
  }

  /** The read command is the data register address with the read bit set: 0x68. */
  lemma ReadCommandValue()
    ensures Or(DATA_ADDR, READ_FLAG) == 0x68
  {
  }

  /**
   * read_register_tm7705: the read command as its own frame, then a second
   * frame that clocks `num_bits` bits in from DOUT, folding each into
   * `(acc << 1) | bit`. `dout` holds the levels DOUT shows, in order.
   */
  method ReadRegister(numBits: nat, dout: seq<bit>) returns (value: nat, trace: seq<Event>)
    requires |dout| == numBits
    ensures value == MsbValue(dout)
    ensures value < Pow2(numBits)
    ensures trace == WriteFrame(MsbBits(0x68, 8)) + ReadFrame(numBits)
  {
    ReadCommandValue();
    var command := SendCommand(Or(DATA_ADDR, READ_FLAG), 8);
    var pulses;
    value, pulses := ReceiveBits(dout);
    trace := command + [CS(0)] + pulses + [CS(1)];
    MsbValueBound(dout);
  }

  /** The receive loop of read_register_tm7705: one clock pulse per bit, `acc = (acc << 1) | bit`. */
  method ReceiveBits(dout: seq<bit>) returns (value: nat, trace: seq<Event>)
    ensures value == MsbValue(dout)
    ensures trace == ReadPulses(|dout|)
  {
    trace := [];
    value := 0;
    var i := 0;
    while i < |dout|
      invariant 0 <= i <= |dout|
      invariant value == MsbValue(dout[..i])
      invariant trace == ReadPulses(i)
    {
      var bit, pulse := ReceiveBit(dout[i]);
      trace := trace + pulse;
      OrEvenBit(value, bit);
      MsbValueSnoc(dout[..i], bit);
      assert dout[..i + 1] == dout[..i] + [bit];
      value := Or(2 * value, bit);
      i := i + 1;
    }
    assert dout[..|dout|] == dout;
  }

  /**
   * wait_for_drdy_low: reads DRDY and, while it is high and fewer than
   * 1 000 000 polls were counted, counts one more. `drdy(k)` is the level
   * seen at the k-th read. Returns the count, whether it reached the budget
   * (the only thing the source reports, and it never raises), and the reads.
   */
  method WaitForDrdyLow(drdy: nat -> bit) returns (count: nat, timedOut: bool, trace: seq<Event>)
    ensures count <= MAX_TIMEOUT
    ensures forall k :: 0 <= k < count ==> drdy(k) == 1
    ensures count < MAX_TIMEOUT ==> drdy(count) == 0
    ensures timedOut <==> forall k :: 0 <= k < MAX_TIMEOUT ==> drdy(k) == 1
    ensures trace == Polls(count + 1)
  {
    count := 0;
    trace := [SampleDRDY];
    while drdy(count) == 1 && count < MAX_TIMEOUT
      invariant count <= MAX_TIMEOUT
      invariant forall k :: 0 <= k < count ==> drdy(k) == 1
      invariant trace == Polls(count + 1)
      decreases MAX_TIMEOUT - count
    {
      count := count + 1;
      PollsSnoc(count);
      trace := trace + [SampleDRDY];
    }
    timedOut := count >= MAX_TIMEOUT;
    if !timedOut {
      assert drdy(count) == 0;
    }
  }

  lemma {:induction false} PollsSnoc(n: nat)
    ensures Polls(n + 1) == Polls(n) + [SampleDRDY]
  {
    if n > 0 {
      PollsSnoc(n - 1);
    }
  }

  /** The 8-bit frames that write the given command bytes. */
  function CommandFrames(commands: seq<nat>): (r: seq<seq<bit>>)
    ensures |r| == |commands|
    ensures forall i :: 0 <= i < |commands| ==> r[i] == MsbBits(commands[i], 8)
  {
    if |commands| == 0 then [] else [MsbBits(commands[0], 8)] + CommandFrames(commands[1..])
  }

  /** The command bytes sent one after another, each as its own 8-bit frame. */
  method SendCommands(commands: seq<nat>) returns (trace: seq<Event>)
    ensures trace == WriteFrames(CommandFrames(commands))
  {
    trace := [];
    var i := 0;
    while i < |commands|
      invariant 0 <= i <= |commands|
      invariant trace == WriteFrames(CommandFrames(commands[..i]))
    {
      var frame := SendCommand(commands[i], 8);
      assert commands[..i + 1] == commands[..i] + [commands[i]];
      CommandFramesSnoc(commands[..i], commands[i]);
      WriteFramesSnoc(CommandFrames(commands[..i]), MsbBits(commands[i], 8));
      trace := trace + frame;
      i := i + 1;
    }
    assert commands[..|commands|] == commands;
  }

  /**
   * configure_tm7705: clock address and data, setup address and data, setup
   * address and the calibration value, a DRDY wait, then setup address and
   * data again to return to normal mode.
   */
  method Configure(drdy: nat -> bit) returns (trace: seq<Event>, polls: nat)
    ensures trace == WriteFrames(CommandFrames(CalibrationCommands)) + Polls(polls)
                   + WriteFrames(CommandFrames(RestoreCommands))
    ensures 1 <= polls <= MAX_TIMEOUT + 1
    ensures FrameValues(Frames(trace)) == [0x40, 0x10, 0x20, 0x00, 0x20, 0x20, 0x20, 0x00]
  {
    var before := SendCommands(CalibrationCommands);
    var count, timedOut, waited := WaitForDrdyLow(drdy);
    polls := count + 1;
    var after := SendCommands(RestoreCommands);
    trace := before + waited + after;
    ConfigureFrames(polls);
  }

  lemma {:induction false} CommandFramesSnoc(commands: seq<nat>, c: nat)
    ensures CommandFrames(commands + [c]) == CommandFrames(commands) + [MsbBits(c, 8)]
  {
    if |commands| > 0 {
      assert (commands + [c])[1..] == commands[1..] + [c];
      CommandFramesSnoc(commands[1..], c);
    } else {
      assert CommandFrames([c]) == [MsbBits(c, 8)] + CommandFrames([]);
    }
  }

  /** Byte-wide frames read back as the bytes they were made from. */
  lemma CommandFramesValues(commands: seq<nat>)
    requires forall i :: 0 <= i < |commands| ==> commands[i] < 256
    ensures FrameValues(CommandFrames(commands)) == commands
  {
    var r := FrameValues(CommandFrames(commands));
    forall i | 0 <= i < |commands|
      ensures r[i] == commands[i]
    {
      ByteRoundTrip(commands[i]);
    }
  }

  lemma FrameValuesAppend(a: seq<seq<bit>>, b: seq<seq<bit>>)
    ensures FrameValues(a + b) == FrameValues(a) + FrameValues(b)
  {
    var r := FrameValues(a + b);
    assert forall i :: 0 <= i < |a| ==> (a + b)[i] == a[i];
    assert forall i :: |a| <= i < |a| + |b| ==> (a + b)[i] == b[i - |a|];
  }

  /**
   * Bytes written before and after a run of DRDY reads reach the device as
   * exactly those bytes, in order.
   */
  lemma CommandsAroundPolls(front: seq<nat>, back: seq<nat>, polls: nat)
    requires |front| > 0 && |back| > 0
    requires forall i :: 0 <= i < |front| ==> front[i] < 256
    requires forall i :: 0 <= i < |back| ==> back[i] < 256
    ensures FrameValues(Frames(WriteFrames(CommandFrames(front)) + Polls(polls)
                                + WriteFrames(CommandFrames(back)))) == front + back
  {
    FramesAroundPolls(CommandFrames(front), CommandFrames(back), polls);
    FrameValuesAppend(CommandFrames(front), CommandFrames(back));
    CommandFramesValues(front);
    CommandFramesValues(back);
  }

  /** The device receives the configuration bytes, in order, whatever the DRDY wait did. */
  lemma ConfigureFrames(polls: nat)
    ensures FrameValues(Frames(WriteFrames(CommandFrames(CalibrationCommands)) + Polls(polls)
                                + WriteFrames(CommandFrames(RestoreCommands))))
         == [0x40, 0x10, 0x20, 0x00, 0x20, 0x20, 0x20, 0x00]
  {
    CommandsAroundPolls(CalibrationCommands, RestoreCommands, polls);
  }
}
