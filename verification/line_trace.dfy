/**
 * The GPIO line activity of the bit-banged TM7705 interface, as a trace of
 * events, together with the observers used to state what a trace means:
 * how many rising clock edges it has, whether the clock always returns low,
 * and which bytes a device that samples DIN on each rising SCK edge while
 * chip-select is low receives.
 */
module LineTrace {
  import opened Bits

  /** One line action: a level written to CS, DIN or SCK, or a read of DOUT or DRDY. */
  datatype Event = CS(level: bit) | DIN(level: bit) | SCK(level: bit) | SampleDOUT | SampleDRDY

  /** One data bit clocked out: DIN set, SCK raised, SCK lowered. */
  function BitPulse(b: bit): seq<Event>
  {
    [DIN(b), SCK(1), SCK(0)]
  }

  /** The bits shifted out one after another, first bit first. */
  function Pulses(bits: seq<bit>): (t: seq<Event>)
    ensures |t| == 3 * |bits|
  {
    if |bits| == 0 then [] else BitPulse(bits[0]) + Pulses(bits[1..])
  }

  /** A chip-select frame that shifts `bits` out on DIN. */
  function WriteFrame(bits: seq<bit>): (t: seq<Event>)
    ensures |t| == 3 * |bits| + 2
  {
    [CS(0)] + Pulses(bits) + [CS(1)]
  }

  /** One clock pulse with DOUT sampled while SCK is high. */
  function ReadPulse(): seq<Event>
  {
    [SCK(1), SampleDOUT, SCK(0)]
  }

  function ReadPulses(n: nat): (t: seq<Event>)
    ensures |t| == 3 * n
  {
    if n == 0 then [] else ReadPulses(n - 1) + ReadPulse()
  }

  /** A chip-select frame that clocks n bits in from DOUT. */
  function ReadFrame(n: nat): seq<Event>
  {
    [CS(0)] + ReadPulses(n) + [CS(1)]
  }

  /** Several chip-select frames back to back, one per bit string. */
  function WriteFrames(frames: seq<seq<bit>>): (t: seq<Event>)
  {
    if |frames| == 0 then [] else WriteFrame(frames[0]) + WriteFrames(frames[1..])
  }

  /** n reads of the DRDY line. */
  function Polls(n: nat): (t: seq<Event>)
    ensures |t| == n
    ensures forall j :: 0 <= j < n ==> t[j] == SampleDRDY
  {
    if n == 0 then [] else [SampleDRDY] + Polls(n - 1)
  }

  // ---------------------------------------------------------------------------
  // Observers
  // ---------------------------------------------------------------------------

  /** The number of rising SCK edges (writes of SCK high). */
  function Rises(t: seq<Event>): nat
  {
    if |t| == 0 then 0 else (if t[0] == SCK(1) then 1 else 0) + Rises(t[1..])
  }

  /** A level written to CS, DIN or SCK, as opposed to a line read. */
  predicate IsWrite(e: Event)
  {
    e.CS? || e.DIN? || e.SCK?
  }

  /** The first line write at or after position i exists and lowers SCK. */
  predicate NextWriteLowersClock(t: seq<Event>, i: nat)
    decreases |t| - i
  {
    i < |t| && (if IsWrite(t[i]) then t[i] == SCK(0) else NextWriteLowersClock(t, i + 1))
  }

  /** Every write of SCK high is followed, before any other line write, by a write of SCK low. */
  ghost predicate ClockReturnsLow(t: seq<Event>)
  {
    forall j :: 0 <= j < |t| && t[j] == SCK(1) ==> NextWriteLowersClock(t, j + 1)
  }

  /** What the device side of the bus holds: selected or not, DIN's level, bits clocked in so far. */
  datatype Receiver = Receiver(selected: bool, din: bit, bits: seq<bit>)

  /**
   * The frames a device receives from a trace: while CS is low it latches DIN
   * at every rising SCK edge; raising CS completes the frame.
   */
  function FramesFrom(t: seq<Event>, rx: Receiver): seq<seq<bit>>
  {
    if |t| == 0 then []
    else match t[0]
      case CS(v) =>
        if v == 0 then FramesFrom(t[1..], Receiver(true, rx.din, []))
        else (if rx.selected then [rx.bits] else []) + FramesFrom(t[1..], Receiver(false, rx.din, []))
      case DIN(v) => FramesFrom(t[1..], rx.(din := v))
      case SCK(v) =>
        if v == 1 && rx.selected then FramesFrom(t[1..], rx.(bits := rx.bits + [rx.din]))
        else FramesFrom(t[1..], rx)
      case SampleDOUT => FramesFrom(t[1..], rx)
      case SampleDRDY => FramesFrom(t[1..], rx)
  }

  /** Frames received from a trace that starts with the bus idle and DIN low. */
  function Frames(t: seq<Event>): seq<seq<bit>>
  {
    FramesFrom(t, Receiver(false, 0, []))
  }

  /** The bytes received, one per frame, each read MSB first. */
  function FrameValues(frames: seq<seq<bit>>): (r: seq<nat>)
    ensures |r| == |frames|
    ensures forall i :: 0 <= i < |frames| ==> r[i] == MsbValue(frames[i])
  {
    if |frames| == 0 then [] else [MsbValue(frames[0])] + FrameValues(frames[1..])
  }

  /** The DIN levels written, in order. */
  function DinLevels(t: seq<Event>): seq<bit>
  {
    if |t| == 0 then [] else (if t[0].DIN? then [t[0].level] else []) + DinLevels(t[1..])
  }

  // ---------------------------------------------------------------------------
  // Lemmas about the building blocks
  // ---------------------------------------------------------------------------

  lemma {:induction false} PulsesSnoc(bits: seq<bit>, b: bit)
    ensures Pulses(bits + [b]) == Pulses(bits) + BitPulse(b)
  {
    if |bits| > 0 {
      assert (bits + [b])[1..] == bits[1..] + [b];
      PulsesSnoc(bits[1..], b);
    } else {
      assert (bits + [b])[1..] == [];
    }
  }

  /** Position j of a pulse train: DIN with bit j / 3, then SCK high, then SCK low. */
  lemma {:induction false} PulsesIndex(bits: seq<bit>, j: nat)
    requires j < 3 * |bits|
    ensures j % 3 == 0 ==> Pulses(bits)[j] == DIN(bits[j / 3])
    ensures j % 3 == 1 ==> Pulses(bits)[j] == SCK(1)
    ensures j % 3 == 2 ==> Pulses(bits)[j] == SCK(0)
  {
    if j >= 3 {
      PulsesIndex(bits[1..], j - 3);
    }
  }

  lemma {:induction false} RisesAppend(a: seq<Event>, b: seq<Event>)
    ensures Rises(a + b) == Rises(a) + Rises(b)
  {
    if |a| > 0 {
      assert (a + b)[1..] == a[1..] + b;
      RisesAppend(a[1..], b);
    } else {
      assert a + b == b;
    }
  }

  lemma {:induction false} RisesPulses(bits: seq<bit>)
    ensures Rises(Pulses(bits)) == |bits|
  {
    if |bits| > 0 {
      RisesAppend(BitPulse(bits[0]), Pulses(bits[1..]));
      RisesPulses(bits[1..]);
    }
  }

  lemma {:induction false} DinLevelsAppend(a: seq<Event>, b: seq<Event>)
    ensures DinLevels(a + b) == DinLevels(a) + DinLevels(b)
  {
    if |a| > 0 {
      assert (a + b)[1..] == a[1..] + b;
      DinLevelsAppend(a[1..], b);
    } else {
      assert a + b == b;
    }
  }

  lemma {:induction false} DinLevelsPulses(bits: seq<bit>)
    ensures DinLevels(Pulses(bits)) == bits
  {
    if |bits| > 0 {
      DinLevelsAppend(BitPulse(bits[0]), Pulses(bits[1..]));
      DinLevelsPulses(bits[1..]);
      assert bits == [bits[0]] + bits[1..];
    }
  }

  /** While selected, one bit pulse appends its bit to the frame being received. */
  lemma FramesBitPulse(b: bit, rest: seq<Event>, din: bit, acc: seq<bit>)
    ensures FramesFrom(BitPulse(b) + rest, Receiver(true, din, acc))
         == FramesFrom(rest, Receiver(true, b, acc + [b]))
  {
    var t := BitPulse(b) + rest;
    var t1 := [SCK(1), SCK(0)] + rest;
    var t2 := [SCK(0)] + rest;
    assert t[0] == DIN(b) && t[1..] == t1;
    assert t1[0] == SCK(1) && t1[1..] == t2;
    assert t2[0] == SCK(0) && t2[1..] == rest;
    assert FramesFrom(t, Receiver(true, din, acc)) == FramesFrom(t1, Receiver(true, b, acc));
    assert FramesFrom(t1, Receiver(true, b, acc)) == FramesFrom(t2, Receiver(true, b, acc + [b]));
    assert FramesFrom(t2, Receiver(true, b, acc + [b])) == FramesFrom(rest, Receiver(true, b, acc + [b]));
  }

  /** While selected, a pulse train appends its bits to the frame being received. */
  lemma {:induction false} FramesPulses(bits: seq<bit>, rest: seq<Event>, din: bit, acc: seq<bit>)
    ensures exists d: bit :: FramesFrom(Pulses(bits) + rest, Receiver(true, din, acc))
                         == FramesFrom(rest, Receiver(true, d, acc + bits))
  {
    if |bits| == 0 {
      assert Pulses(bits) + rest == rest;
      assert acc + bits == acc;
      assert FramesFrom(Pulses(bits) + rest, Receiver(true, din, acc))
          == FramesFrom(rest, Receiver(true, din, acc + bits));
    } else {
      var b := bits[0];
      assert Pulses(bits) + rest == BitPulse(b) + (Pulses(bits[1..]) + rest);
      FramesBitPulse(b, Pulses(bits[1..]) + rest, din, acc);
      FramesPulses(bits[1..], rest, b, acc + [b]);
      var d: bit :| FramesFrom(Pulses(bits[1..]) + rest, Receiver(true, b, acc + [b]))
                   == FramesFrom(rest, Receiver(true, d, acc + [b] + bits[1..]));
      assert acc + [b] + bits[1..] == acc + bits;
      assert FramesFrom(Pulses(bits) + rest, Receiver(true, din, acc))
          == FramesFrom(rest, Receiver(true, d, acc + bits));
    }
  }

  /** A write frame is received as exactly its bits, whatever state the receiver was in. */
  lemma WriteFrameReceived(bits: seq<bit>, rest: seq<Event>, rx: Receiver)
    ensures exists d: bit :: FramesFrom(WriteFrame(bits) + rest, rx)
                         == [bits] + FramesFrom(rest, Receiver(false, d, []))
  {
    var t := WriteFrame(bits) + rest;
    assert t[1..] == Pulses(bits) + ([CS(1)] + rest);
    FramesPulses(bits, [CS(1)] + rest, rx.din, []);
    var d: bit :| FramesFrom(Pulses(bits) + ([CS(1)] + rest), Receiver(true, rx.din, []))
                 == FramesFrom([CS(1)] + rest, Receiver(true, d, [] + bits));
    assert ([CS(1)] + rest)[1..] == rest;
    assert [] + bits == bits;
  }

  /** DRDY reads between frames are invisible to the receiver. */
  lemma {:induction false} PollsUnseen(n: nat, rest: seq<Event>, rx: Receiver)
    ensures FramesFrom(Polls(n) + rest, rx) == FramesFrom(rest, rx)
  {
    if n > 0 {
      assert (Polls(n) + rest)[0] == SampleDRDY;
      assert (Polls(n) + rest)[1..] == Polls(n - 1) + rest;
      assert FramesFrom(Polls(n) + rest, rx) == FramesFrom((Polls(n) + rest)[1..], rx);
      PollsUnseen(n - 1, rest, rx);
    } else {
      assert Polls(n) + rest == rest;
    }
  }

  /**
   * The shape of a write frame: CS low first and high last and nowhere else,
   * one rising edge per bit, the k-th DIN write carrying bit k just before the
   * k-th rising edge, SCK always returning low, and the DIN levels being the bits.
   */
  lemma WriteFrameShape(bits: seq<bit>)
    ensures WriteFrame(bits)[0] == CS(0)
    ensures WriteFrame(bits)[|WriteFrame(bits)| - 1] == CS(1)
    ensures forall j :: 0 < j < |WriteFrame(bits)| - 1 ==> !WriteFrame(bits)[j].CS?
    ensures forall k :: 0 <= k < |bits| ==>
              && WriteFrame(bits)[1 + 3 * k] == DIN(bits[k])
              && WriteFrame(bits)[2 + 3 * k] == SCK(1)
              && WriteFrame(bits)[3 + 3 * k] == SCK(0)
    ensures Rises(WriteFrame(bits)) == |bits|
    ensures ClockReturnsLow(WriteFrame(bits))
    ensures DinLevels(WriteFrame(bits)) == bits
  {
    var t := WriteFrame(bits);
    forall j | 0 < j < |t| - 1
      ensures !t[j].CS?
    {
      WriteFrameInner(bits, j);
      PulsesIndex(bits, j - 1);
    }
    forall k | 0 <= k < |bits|
      ensures t[1 + 3 * k] == DIN(bits[k]) && t[2 + 3 * k] == SCK(1) && t[3 + 3 * k] == SCK(0)
    {
      WriteFrameInner(bits, 1 + 3 * k);
      WriteFrameInner(bits, 2 + 3 * k);
      WriteFrameInner(bits, 3 + 3 * k);
      PulsesIndex(bits, 3 * k);
      PulsesIndex(bits, 3 * k + 1);
      PulsesIndex(bits, 3 * k + 2);
    }
    WriteFrameClock(bits);
    WriteFrameCounts(bits);
  }

  lemma WriteFrameInner(bits: seq<bit>, j: nat)
    requires 0 < j < 3 * |bits| + 1
    ensures WriteFrame(bits)[j] == Pulses(bits)[j - 1]
  {
  }

  lemma WriteFrameClock(bits: seq<bit>)
    ensures ClockReturnsLow(WriteFrame(bits))
  {
    var t := WriteFrame(bits);
    forall j | 0 <= j < |t| && t[j] == SCK(1)
      ensures NextWriteLowersClock(t, j + 1)
    {
      assert 0 < j < |t| - 1;
      WriteFrameInner(bits, j);
      PulsesIndex(bits, j - 1);
      var k := (j - 1) / 3;
      assert j - 1 == 3 * k + 1;
      WriteFrameInner(bits, j + 1);
      PulsesIndex(bits, j);
    }
  }

  lemma WriteFrameCounts(bits: seq<bit>)
    ensures Rises(WriteFrame(bits)) == |bits|
    ensures DinLevels(WriteFrame(bits)) == bits
  {
    var t := WriteFrame(bits);
    assert t == [CS(0)] + (Pulses(bits) + [CS(1)]);
    assert Rises([CS(1)]) == 0;
    RisesAppend([CS(0)], Pulses(bits) + [CS(1)]);
    RisesAppend(Pulses(bits), [CS(1)]);
    RisesPulses(bits);
    DinLevelsAppend([CS(0)], Pulses(bits) + [CS(1)]);
    DinLevelsAppend(Pulses(bits), [CS(1)]);
    DinLevelsPulses(bits);
  }

  /** Position j of a read pulse train: SCK high, DOUT sample, SCK low, repeating. */
  lemma {:induction false} ReadPulsesIndex(n: nat, j: nat)
    requires j < 3 * n
    ensures j % 3 == 0 ==> ReadPulses(n)[j] == SCK(1)
    ensures j % 3 == 1 ==> ReadPulses(n)[j] == SampleDOUT
    ensures j % 3 == 2 ==> ReadPulses(n)[j] == SCK(0)
  {
    if j < 3 * (n - 1) {
      ReadPulsesIndex(n - 1, j);
      assert ReadPulses(n)[j] == ReadPulses(n - 1)[j];
    } else {
      assert ReadPulses(n)[j] == ReadPulse()[j - 3 * (n - 1)];
    }
  }

  lemma {:induction false} RisesReadPulses(n: nat)
    ensures Rises(ReadPulses(n)) == n
  {
    if n > 0 {
      RisesAppend(ReadPulses(n - 1), ReadPulse());
      RisesReadPulses(n - 1);
    }
  }

  /**
   * The shape of a read frame: CS low first and high last and nowhere else,
   * n rising edges, DOUT sampled while SCK is high, SCK always returning low.
   */
  lemma ReadFrameShape(n: nat)
    ensures |ReadFrame(n)| == 3 * n + 2
    ensures ReadFrame(n)[0] == CS(0) && ReadFrame(n)[3 * n + 1] == CS(1)
    ensures forall j :: 0 < j < 3 * n + 1 ==> !ReadFrame(n)[j].CS?
    ensures forall k :: 0 <= k < n ==>
              && ReadFrame(n)[1 + 3 * k] == SCK(1)
              && ReadFrame(n)[2 + 3 * k] == SampleDOUT
              && ReadFrame(n)[3 + 3 * k] == SCK(0)
    ensures Rises(ReadFrame(n)) == n
    ensures ClockReturnsLow(ReadFrame(n))
  {
    var t := ReadFrame(n);
    forall j | 0 < j < 3 * n + 1
      ensures !t[j].CS?
    {
      ReadFrameInner(n, j);
      ReadPulsesIndex(n, j - 1);
    }
    forall k | 0 <= k < n
      ensures t[1 + 3 * k] == SCK(1) && t[2 + 3 * k] == SampleDOUT && t[3 + 3 * k] == SCK(0)
    {
      ReadFrameInner(n, 1 + 3 * k);
      ReadFrameInner(n, 2 + 3 * k);
      ReadFrameInner(n, 3 + 3 * k);
      ReadPulsesIndex(n, 3 * k);
      ReadPulsesIndex(n, 3 * k + 1);
      ReadPulsesIndex(n, 3 * k + 2);
    }
    ReadFrameClock(n);
    ReadFrameRises(n);
  }

  lemma ReadFrameInner(n: nat, j: nat)
    requires 0 < j < 3 * n + 1
    ensures ReadFrame(n)[j] == ReadPulses(n)[j - 1]
  {
  }

  lemma ReadFrameClock(n: nat)
    ensures ClockReturnsLow(ReadFrame(n))
  {
    var t := ReadFrame(n);
    forall j | 0 <= j < |t| && t[j] == SCK(1)
      ensures NextWriteLowersClock(t, j + 1)
    {
      assert 0 < j < |t| - 1;
      ReadFrameInner(n, j);
      ReadPulsesIndex(n, j - 1);
      var k := (j - 1) / 3;
      assert j - 1 == 3 * k;
      ReadFrameInner(n, j + 1);
      ReadPulsesIndex(n, j);
      ReadFrameInner(n, j + 2);
      ReadPulsesIndex(n, j + 1);
      assert t[j + 1] == SampleDOUT && t[j + 2] == SCK(0);
    }
  }

  lemma ReadFrameRises(n: nat)
    ensures Rises(ReadFrame(n)) == n
  {
    var t := ReadFrame(n);
    assert t == [CS(0)] + (ReadPulses(n) + [CS(1)]);
    assert Rises([CS(1)]) == 0;
    RisesAppend([CS(0)], ReadPulses(n) + [CS(1)]);
    RisesAppend(ReadPulses(n), [CS(1)]);
    RisesReadPulses(n);
  }

  lemma {:induction false} WriteFramesSnoc(frames: seq<seq<bit>>, f: seq<bit>)
    ensures WriteFrames(frames + [f]) == WriteFrames(frames) + WriteFrame(f)
  {
    if |frames| == 0 {
      assert WriteFrames([f]) == WriteFrame(f) + WriteFrames([]);
    } else {
      assert (frames + [f])[1..] == frames[1..] + [f];
      WriteFramesSnoc(frames[1..], f);
    }
  }

  /** Back-to-back write frames are received as exactly their bit strings, in order. */
  lemma {:induction false} WriteFramesReceived(frames: seq<seq<bit>>, rest: seq<Event>, rx: Receiver)
    requires |frames| > 0
    ensures exists d: bit :: FramesFrom(WriteFrames(frames) + rest, rx)
                         == frames + FramesFrom(rest, Receiver(false, d, []))
  {
    var tail := WriteFrames(frames[1..]) + rest;
    assert WriteFrames(frames) + rest == WriteFrame(frames[0]) + tail;
    WriteFrameReceived(frames[0], tail, rx);
    var d: bit :| FramesFrom(WriteFrame(frames[0]) + tail, rx)
                 == [frames[0]] + FramesFrom(tail, Receiver(false, d, []));
    if |frames| == 1 {
      assert frames[1..] == [] && tail == rest;
      assert frames == [frames[0]];
    } else {
      WriteFramesReceived(frames[1..], rest, Receiver(false, d, []));
      var d2: bit :| FramesFrom(tail, Receiver(false, d, []))
                    == frames[1..] + FramesFrom(rest, Receiver(false, d2, []));
      assert frames == [frames[0]] + frames[1..];
      assert FramesFrom(WriteFrames(frames) + rest, rx)
          == frames + FramesFrom(rest, Receiver(false, d2, []));
    }
  }

  /** Write frames on either side of a run of DRDY reads are received as exactly those frames. */
  lemma FramesAroundPolls(front: seq<seq<bit>>, back: seq<seq<bit>>, polls: nat)
    requires |front| > 0 && |back| > 0
    ensures Frames(WriteFrames(front) + Polls(polls) + WriteFrames(back)) == front + back
  {
    var b := WriteFrames(back);
    assert WriteFrames(front) + Polls(polls) + b == WriteFrames(front) + (Polls(polls) + b);
    WriteFramesReceived(front, Polls(polls) + b, Receiver(false, 0, []));
    var d: bit :| FramesFrom(WriteFrames(front) + (Polls(polls) + b), Receiver(false, 0, []))
                 == front + FramesFrom(Polls(polls) + b, Receiver(false, d, []));
    PollsUnseen(polls, b, Receiver(false, d, []));
    WriteFramesReceived(back, [], Receiver(false, d, []));
    assert b + [] == b;
  }
}
