/**
 * WaterAnaly/controller/src/main.py, ctrl_open: the forward / stop / reverse
 * pump cycle on the TCA9555's pins 10 (PUL), 11 (DIR) and 12 (ENA). Each
 * three-second pulse phase becomes any number of pulses. The exception
 * handler's own attempt to disable the motor is not guarded: if it raises,
 * the exception leaves ctrl_open.
 */
module CtrlOpen {
  import opened I2cBus
  import opened Tca9555
  import opened PinOps
  import opened Wrappers

  const PUL: int := 10
  const DIR: int := 11
  const ENA: int := 12

  /** Forward phase: direction forward, motor enabled, then the pulses. */
  function ForwardOps(forward: nat): seq<PinOp>
  {
    [High(DIR), Low(ENA)] + PulseOps(PUL, forward)
  }

  /** Stop phase and reverse phase: disable, re-enable, reverse, pulses. */
  function ReverseOps(reverse: nat): seq<PinOp>
  {
    [High(ENA), Low(ENA), Low(DIR)] + PulseOps(PUL, reverse)
  }

  /** Every call ctrl_open makes when nothing raises. */
  function CycleOps(forward: nat, reverse: nat): seq<PinOp>
  {
    ForwardOps(forward) + ReverseOps(reverse) + [High(ENA)]
  }

  /**
   * ctrl_open with `forward` and `reverse` pulses. The whole cycle runs; on
   * an exception one more call sets pin 12 high, and that call's own
   * exception propagates.
   */
  function CtrlOpen(dev: Tca, forward: nat, reverse: nat): (r: Outcome)
    ensures Run(dev, CycleOps(forward, reverse)).Done? ==> r == Run(dev, CycleOps(forward, reverse))
    ensures Run(dev, CycleOps(forward, reverse)).Raised? ==> r == SetPinHigh(Run(dev, CycleOps(forward, reverse)).dev, ENA)
    ensures r.Done? ==> Level(r.dev.bus.tca, ENA)
  {
    var run := Run(dev, CycleOps(forward, reverse));
    if run.Done? then
      RunEffect(dev, CycleOps(forward, reverse));
      CycleLastLevels(forward, reverse, ENA);
      assert ResultLevel(dev, run.dev, CycleOps(forward, reverse), ENA);
      run
    else
      var stop := SetPinHigh(run.dev, ENA);
      if stop.Done? then
        SetPinEffect(run.dev, ENA, true);
        stop
      else
        stop
  }

  /** The level the cycle leaves on pulse pin 10: low after any pulse, else untouched. */
  function PulseEnd(forward: nat, reverse: nat): Option<bool>
  {
    if forward + reverse > 0 then Some(false) else None
  }

  /** The last word the cycle's calls have on each pin 0 .. 15. */
  lemma CycleLastLevels(forward: nat, reverse: nat, q: int)
    requires 0 <= q <= 15
    ensures LastLevel(CycleOps(forward, reverse), q)
            == if q == ENA then Some(true)
               else if q == DIR then Some(false)
               else if q == PUL then PulseEnd(forward, reverse)
               else None
  {
    var front := ForwardOps(forward);
    var back := ReverseOps(reverse);
    var head := [High(DIR), Low(ENA)];
    var stop := [High(ENA), Low(ENA), Low(DIR)];
    SlotsDistinct();
    LastLevelAppend(front + back, [High(ENA)], q);
    if q != ENA {
      LastLevelAppend(front, back, q);
      LastLevelAppend(head, PulseOps(PUL, forward), q);
      LastLevelAppend(stop, PulseOps(PUL, reverse), q);
      if q == PUL {
        if reverse > 0 {
          PulsesEndLow(PUL, reverse);
        } else if forward > 0 {
          PulsesEndLow(PUL, forward);
        }
      } else {
        PulsesOnlyTouch(PUL, forward, q);
        PulsesOnlyTouch(PUL, reverse, q);
        if q == DIR {
          LastLevelAt(stop, q, 2);
        }
      }
    }
  }

  /**
   * A cycle that completes leaves the motor disabled (pin 12 high), the
   * direction reversed (pin 11 low), the pulse pin low if any pulse was sent,
   * and every other pin 0 .. 15 as before.
   */
  lemma CtrlOpenCompletes(dev: Tca, forward: nat, reverse: nat)
    requires Run(dev, CycleOps(forward, reverse)).Done?
    ensures var t := CtrlOpen(dev, forward, reverse).dev.bus.tca;
      && Level(t, ENA) && !Level(t, DIR)
      && (forward + reverse > 0 ==> !Level(t, PUL))
      && (forward + reverse == 0 ==> Level(t, PUL) == Level(dev.bus.tca, PUL))
      && forall q :: 0 <= q <= 15 && q != PUL && q != DIR && q != ENA ==> Level(t, q) == Level(dev.bus.tca, q)
  {
    var ops := CycleOps(forward, reverse);
    var after := Run(dev, ops).dev;
    RunEffect(dev, ops);
    forall q | 0 <= q <= 15
      ensures Level(after.bus.tca, q)
              == if q == ENA then true
                 else if q == DIR then false
                 else if q == PUL && forward + reverse > 0 then false
                 else Level(dev.bus.tca, q)
    {
      assert ResultLevel(dev, after, ops, q);
      CycleLastLevels(forward, reverse, q);
    }
    assert Level(after.bus.tca, ENA) && !Level(after.bus.tca, DIR);
  }

  /**
   * When the forward phase has run, pin 11 is high and the motor is enabled
   * (pin 12 low); the pulse pin is low after any pulse and untouched
   * without one.
   */
  lemma ForwardPhaseState(dev: Tca, forward: nat)
    requires Run(dev, ForwardOps(forward)).Done?
    ensures var t := Run(dev, ForwardOps(forward)).dev.bus.tca;
      && Level(t, DIR) && !Level(t, ENA)
      && (forward > 0 ==> !Level(t, PUL))
      && (forward == 0 ==> Level(t, PUL) == Level(dev.bus.tca, PUL))
  {
    var ops := ForwardOps(forward);
    var after := Run(dev, ops).dev;
    var head := [High(DIR), Low(ENA)];
    RunEffect(dev, ops);
    SlotsDistinct();
    assert ResultLevel(dev, after, ops, DIR) && ResultLevel(dev, after, ops, ENA);
    assert ResultLevel(dev, after, ops, PUL);
    PulsesOnlyTouch(PUL, forward, DIR);
    PulsesOnlyTouch(PUL, forward, ENA);
    LastLevelAppend(head, PulseOps(PUL, forward), DIR);
    LastLevelAppend(head, PulseOps(PUL, forward), ENA);
    LastLevelAppend(head, PulseOps(PUL, forward), PUL);
    LastLevelAt(head, DIR, 0);
    if forward > 0 {
      PulsesEndLow(PUL, forward);
    }
  }

  /**
   * When the stop and reverse phases have run too, the stop phase's
   * disable has been undone: the motor is enabled (pin 12 low) with the
   * direction reversed (pin 11 low), and the pulse pin is low after any
   * pulse.
   */
  lemma ReversePhaseState(dev: Tca, forward: nat, reverse: nat)
    requires Run(dev, ForwardOps(forward) + ReverseOps(reverse)).Done?
    ensures var t := Run(dev, ForwardOps(forward) + ReverseOps(reverse)).dev.bus.tca;
      && !Level(t, DIR) && !Level(t, ENA)
      && (forward + reverse > 0 ==> !Level(t, PUL))
  {
    var ops := ForwardOps(forward) + ReverseOps(reverse);
    var after := Run(dev, ops).dev;
    RunEffect(dev, ops);
    assert ResultLevel(dev, after, ops, DIR) && ResultLevel(dev, after, ops, ENA);
    assert ResultLevel(dev, after, ops, PUL);
    ReverseLastLevels(forward, reverse);
  }

  /** The last word of the forward, stop and reverse phases on the three motor pins. */
  lemma ReverseLastLevels(forward: nat, reverse: nat)
    ensures var ops := ForwardOps(forward) + ReverseOps(reverse);
      && LastLevel(ops, DIR) == Some(false) && LastLevel(ops, ENA) == Some(false)
      && (forward + reverse > 0 ==> LastLevel(ops, PUL) == Some(false))
  {
    var front, back := ForwardOps(forward), ReverseOps(reverse);
    var head := [High(DIR), Low(ENA)];
    var stop := [High(ENA), Low(ENA), Low(DIR)];
    SlotsDistinct();
    LastLevelAppend(front, back, DIR);
    LastLevelAppend(front, back, ENA);
    LastLevelAppend(front, back, PUL);
    PulsesOnlyTouch(PUL, reverse, DIR);
    PulsesOnlyTouch(PUL, reverse, ENA);
    LastLevelAppend(stop, PulseOps(PUL, reverse), DIR);
    LastLevelAppend(stop, PulseOps(PUL, reverse), ENA);
    LastLevelAppend(stop, PulseOps(PUL, reverse), PUL);
    LastLevelAt(stop, ENA, 1);
    if reverse > 0 {
      PulsesEndLow(PUL, reverse);
    } else if forward > 0 {
      LastLevelAppend(head, PulseOps(PUL, forward), PUL);
      PulsesEndLow(PUL, forward);
    }
  }

  /** On a bus where nothing fails the whole cycle completes. */
  lemma CtrlOpenHealthy(dev: Tca, forward: nat, reverse: nat)
    requires Healthy(dev.bus)
    ensures Run(dev, CycleOps(forward, reverse)).Done?
  {
    RunSucceeds(dev, CycleOps(forward, reverse));
    CycleInRange(forward, reverse);
  }

  lemma CycleInRange(forward: nat, reverse: nat)
    ensures PinsInRange(CycleOps(forward, reverse))
  {
    var head := [High(DIR), Low(ENA)];
    var stop := [High(ENA), Low(ENA), Low(DIR)];
    assert PinsInRange(head) && PinsInRange(stop) && PinsInRange([High(ENA)]);
    PulsesInRange(PUL, forward);
    PulsesInRange(PUL, reverse);
    PinsInRangeAppend(head, PulseOps(PUL, forward));
    PinsInRangeAppend(stop, PulseOps(PUL, reverse));
    PinsInRangeAppend(ForwardOps(forward), ReverseOps(reverse));
    PinsInRangeAppend(ForwardOps(forward) + ReverseOps(reverse), [High(ENA)]);
  }
}
