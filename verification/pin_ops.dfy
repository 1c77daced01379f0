/**
 * Straight-line runs of TCA9555 set-high / set-low calls, as the valve and
 * pump scripts issue them. A run stops at the first call that raises and
 * passes the exception on, as Python does when nothing catches it.
 */
module PinOps {
  import opened I2cBus
  import opened Tca9555
  import opened Wrappers

  /** One driver call: set_tca9555_pin_high(pin) or set_tca9555_pin_low(pin). */
  datatype PinOp = Set(pin: int, high: bool)

  function High(pin: int): PinOp { Set(pin, true) }
  function Low(pin: int): PinOp { Set(pin, false) }

  /** The calls in order, each range-checked; the first exception ends the run. */
  function Run(dev: Tca, ops: seq<PinOp>): (r: Outcome)
    ensures |ops| == 0 ==> r == Done(dev)
    ensures r.Done? ==> PinsInRange(ops)
    ensures r.dev.bus.pcf == dev.bus.pcf
    decreases |ops|
  {
    if |ops| == 0 then Done(dev)
    else
      var first := SetPinChecked(dev, ops[0].pin, ops[0].high);
      if first.Raised? then first else Run(first.dev, ops[1..])
  }

  /**
   * The same run with the driver's guard as written, which lets a negative
   * pin through to the bus (it addresses the slot Python's negative
   * shift and index pick).
   */
  function RunAsWritten(dev: Tca, ops: seq<PinOp>): (r: Outcome)
    ensures |ops| == 0 ==> r == Done(dev)
    ensures r.Done? ==> forall i :: 0 <= i < |ops| ==> ops[i].pin <= 15
    ensures r.dev.bus.pcf == dev.bus.pcf
    decreases |ops|
  {
    if |ops| == 0 then Done(dev)
    else
      var first := SetPin(dev, ops[0].pin, ops[0].high);
      if first.Raised? then first else RunAsWritten(first.dev, ops[1..])
  }

  /**
   * The range-checked run differs from the run as written only on negative
   * pins: for lists without one, which is every list the scripts issue, the
   * two are the same.
   */
  lemma {:induction false} RunAsWrittenAgrees(dev: Tca, ops: seq<PinOp>)
    requires forall i :: 0 <= i < |ops| ==> ops[i].pin >= 0
    ensures RunAsWritten(dev, ops) == Run(dev, ops)
    decreases |ops|
  {
    if |ops| > 0 {
      var first := SetPin(dev, ops[0].pin, ops[0].high);
      if first.Done? {
        RunAsWrittenAgrees(first.dev, ops[1..]);
      }
    }
  }

  /** The level the last call of the run that addresses q's register bit sets, if any. */
  function LastLevel(ops: seq<PinOp>, q: int): (r: Option<bool>)
    ensures r.None? <==> forall i :: 0 <= i < |ops| ==> !SameSlot(q, ops[i].pin)
    ensures |ops| > 0 && SameSlot(q, ops[|ops| - 1].pin) ==> r == Some(ops[|ops| - 1].high)
  {
    if |ops| == 0 then None
    else
      var later := LastLevel(ops[1..], q);
      if later.Some? then later
      else if SameSlot(q, ops[0].pin) then Some(ops[0].high)
      else None
  }

  /** A pin's level after a run that returned normally: the level the last call on it set, or as before. */
  predicate ResultLevel(before: Tca, after: Tca, ops: seq<PinOp>, q: int)
  {
    Level(after.bus.tca, q) == match LastLevel(ops, q)
                               case Some(h) => h
                               case None => Level(before.bus.tca, q)
  }

  /**
   * The effect of a run that returned normally: every pin ends at the level
   * its last call set, and every pin no call addressed keeps its level.
   */
  lemma {:induction false} RunEffect(dev: Tca, ops: seq<PinOp>)
    requires Run(dev, ops).Done?
    ensures forall q :: ResultLevel(dev, Run(dev, ops).dev, ops, q)
    decreases |ops|
  {
    if |ops| > 0 {
      var first := SetPinChecked(dev, ops[0].pin, ops[0].high);
      SetPinEffect(dev, ops[0].pin, ops[0].high);
      RunEffect(first.dev, ops[1..]);
      forall q
        ensures ResultLevel(dev, Run(dev, ops).dev, ops, q)
      {
        assert ResultLevel(first.dev, Run(dev, ops).dev, ops[1..], q);
        if SameSlot(q, ops[0].pin) {
          SameSlotSymmetric(q, ops[0].pin);
        }
      }
    }
  }

  lemma SameSlotSymmetric(p: int, q: int)
    ensures SameSlot(p, q) <==> SameSlot(q, p)
  {
  }

  /** Running two lists one after the other is running their concatenation. */
  lemma {:induction false} RunAppend(dev: Tca, a: seq<PinOp>, b: seq<PinOp>)
    ensures Run(dev, a + b) == if Run(dev, a).Done? then Run(Run(dev, a).dev, b) else Run(dev, a)
    decreases |a|
  {
    if |a| == 0 {
      assert a + b == b;
    } else {
      assert (a + b)[0] == a[0] && (a + b)[1..] == a[1..] + b;
      var first := SetPinChecked(dev, a[0].pin, a[0].high);
      if first.Done? {
        RunAppend(first.dev, a[1..], b);
      }
    }
  }

  /** On a healthy bus a run returns normally exactly when every pin is in 0 .. 15. */
  lemma {:induction false} RunSucceeds(dev: Tca, ops: seq<PinOp>)
    requires Healthy(dev.bus)
    ensures Run(dev, ops).Done? <==> PinsInRange(ops)
    decreases |ops|
  {
    if |ops| > 0 {
      SetPinCheckedSucceeds(dev, ops[0].pin, ops[0].high);
      if 0 <= ops[0].pin <= 15 {
        RunSucceeds(SetPinChecked(dev, ops[0].pin, ops[0].high).dev, ops[1..]);
        assert forall i :: 1 <= i < |ops| ==> ops[i] == ops[1..][i - 1];
      }
    }
  }

  /** A run on a bus where nothing fails leaves a bus where nothing fails. */
  lemma {:induction false} RunStaysHealthy(dev: Tca, ops: seq<PinOp>)
    requires Healthy(dev.bus)
    ensures Healthy(Run(dev, ops).dev.bus)
    decreases |ops|
  {
    if |ops| > 0 {
      SetPinCheckedSucceeds(dev, ops[0].pin, ops[0].high);
      var first := SetPinChecked(dev, ops[0].pin, ops[0].high);
      if first.Done? {
        RunStaysHealthy(first.dev, ops[1..]);
      }
    }
  }

  /** `pulses` iterations of the step loop: PUL (pin) high, then low. */
  function PulseOps(pin: int, pulses: nat): (r: seq<PinOp>)
    ensures |r| == 2 * pulses
  {
    if pulses == 0 then [] else [High(pin), Low(pin)] + PulseOps(pin, pulses - 1)
  }

  /** After any positive number of pulses the pulse pin is left low. */
  lemma {:induction false} PulsesEndLow(pin: int, pulses: nat)
    requires pulses > 0
    ensures LastLevel(PulseOps(pin, pulses), pin) == Some(false)
  {
    if pulses > 1 {
      PulsesEndLow(pin, pulses - 1);
      assert PulseOps(pin, pulses)[1..][1..] == PulseOps(pin, pulses - 1);
    }
  }

  /** Every call of the list addresses one of the pins 0 .. 15. */
  predicate PinsInRange(ops: seq<PinOp>)
  {
    forall i :: 0 <= i < |ops| ==> 0 <= ops[i].pin <= 15
  }

  lemma PinsInRangeAppend(a: seq<PinOp>, b: seq<PinOp>)
    requires PinsInRange(a) && PinsInRange(b)
    ensures PinsInRange(a + b)
  {
    forall i | 0 <= i < |a + b|
      ensures 0 <= (a + b)[i].pin <= 15
    {
      if i >= |a| {
        assert (a + b)[i] == b[i - |a|];
      }
    }
  }

  /** Every call of a pulse train is on the pulse pin. */
  lemma {:induction false} PulseOpsAt(pin: int, pulses: nat)
    ensures forall i :: 0 <= i < 2 * pulses ==> PulseOps(pin, pulses)[i].pin == pin
  {
    if pulses > 0 {
      PulseOpsAt(pin, pulses - 1);
      var r := PulseOps(pin, pulses);
      assert forall i :: 2 <= i < 2 * pulses ==> r[i] == PulseOps(pin, pulses - 1)[i - 2];
    }
  }

  lemma PulsesInRange(pin: int, pulses: nat)
    requires 0 <= pin <= 15
    ensures PinsInRange(PulseOps(pin, pulses))
  {
    PulseOpsAt(pin, pulses);
  }

  /** A pulse train addresses only its own pin. */
  lemma PulsesOnlyTouch(pin: int, pulses: nat, q: int)
    requires !SameSlot(q, pin)
    ensures LastLevel(PulseOps(pin, pulses), q) == None
  {
  }

  /** LastLevel over a concatenation: the second part wins where it addresses the pin. */
  lemma {:induction false} LastLevelAppend(a: seq<PinOp>, b: seq<PinOp>, q: int)
    ensures LastLevel(a + b, q) == if LastLevel(b, q).Some? then LastLevel(b, q) else LastLevel(a, q)
  {
    if |a| == 0 {
      assert a + b == b;
    } else {
      assert (a + b)[1..] == a[1..] + b && (a + b)[0] == a[0];
      LastLevelAppend(a[1..], b, q);
    }
  }

  /** The last call on q's register bit decides q's final level. */
  lemma {:induction false} LastLevelAt(ops: seq<PinOp>, q: int, i: nat)
    requires i < |ops| && SameSlot(q, ops[i].pin)
    requires forall j :: i < j < |ops| ==> !SameSlot(q, ops[j].pin)
    ensures LastLevel(ops, q) == Some(ops[i].high)
  {
    if i == 0 {
      assert forall j :: 0 <= j < |ops[1..]| ==> !SameSlot(q, ops[1..][j].pin) by {
        forall j | 0 <= j < |ops[1..]|
          ensures !SameSlot(q, ops[1..][j].pin)
        {
          assert ops[1..][j] == ops[j + 1];
        }
      }
    } else {
      LastLevelAt(ops[1..], q, i - 1);
    }
  }
}
