/**
 * WaterAnaly/controller/src/paishui.py: valve and peristaltic-pump control
 * through the TCA9555. Pins 1-6 drive valves; the pump's stepper driver
 * takes PUL on pin 10, DIR on pin 11 (1 = forward) and ENA on pin 12
 * (0 = enabled, 1 = disabled). The time-driven pulse loop becomes any
 * number of pulses.
 */
module Paishui {
  import opened I2cBus
  import opened Tca9555
  import opened PinOps
  import opened Wrappers

  const SUBDIVISION: int := 800
  const TARGET_RPM: int := 300
  /** Step pulses per second: `(TARGET_RPM * SUBDIVISION) / 60.0`. */
  const TARGET_FREQ: real := (TARGET_RPM * SUBDIVISION) as real / 60.0

  const DISSOLVER_UP: int := 1
  const DISSOLVER_DOWN: int := 2
  const PI_DISSOLVER: int := 3
  const PI_STD_1: int := 4
  const PI_STD_2: int := 5
  const PI_ANL_WAST: int := 6

  const PUL: int := 10
  const DIR: int := 11
  const ENA: int := 12

  /** 300 rpm at 800 steps per revolution is 4000 pulses per second. */
  lemma TargetFrequency()
    ensures TARGET_FREQ == 4000.0
  {
  }

  /** The calls close_all makes: pins 1 .. 6 low, in order. */
  const CloseAllOps: seq<PinOp> := [Low(1), Low(2), Low(3), Low(4), Low(5), Low(6)]

  /**
   * close_all: returns on a bus where nothing fails, and when it returns
   * pins 1 .. 6 are low and every other pin 0 .. 15 is as before.
   */
  function CloseAll(dev: Tca): (r: Outcome)
    ensures Healthy(dev.bus) ==> r.Done?
    ensures r.Done? ==> forall p :: 1 <= p <= 6 ==> !Level(r.dev.bus.tca, p)
    ensures r.Done? ==> forall q :: 0 <= q <= 15 && !(1 <= q <= 6) ==> Level(r.dev.bus.tca, q) == Level(dev.bus.tca, q)
  {
    var r := Run(dev, CloseAllOps);
    CloseAllRuns(dev);
    if r.Done? then
      CloseAllEffect(dev);
      r
    else r
  }

  /** close_all's calls all address pins 0 .. 15, so on a healthy bus they return. */
  lemma CloseAllRuns(dev: Tca)
    ensures Healthy(dev.bus) ==> Run(dev, CloseAllOps).Done?
  {
    if Healthy(dev.bus) {
      assert forall i :: 0 <= i < |CloseAllOps| ==> CloseAllOps[i].pin == i + 1;
      RunSucceeds(dev, CloseAllOps);
    }
  }

  /** After close_all's calls return, pins 1 .. 6 are low and every other pin 0 .. 15 is as before. */
  lemma CloseAllEffect(dev: Tca)
    requires Run(dev, CloseAllOps).Done?
    ensures forall p :: 1 <= p <= 6 ==> !Level(Run(dev, CloseAllOps).dev.bus.tca, p)
    ensures forall q :: 0 <= q <= 15 && !(1 <= q <= 6) ==> Level(Run(dev, CloseAllOps).dev.bus.tca, q) == Level(dev.bus.tca, q)
  {
    var after := Run(dev, CloseAllOps).dev;
    RunEffect(dev, CloseAllOps);
    forall q | 0 <= q <= 15
      ensures if 1 <= q <= 6 then !Level(after.bus.tca, q) else Level(after.bus.tca, q) == Level(dev.bus.tca, q)
    {
      assert ResultLevel(dev, after, CloseAllOps, q);
      CloseAllLast(q);
    }
  }

  /** close_all's last word on each pin: low for 1 .. 6, nothing for the rest. */
  lemma CloseAllLast(q: int)
    requires 0 <= q <= 15
    ensures LastLevel(CloseAllOps, q) == if 1 <= q <= 6 then Some(false) else None
  {
    SlotsDistinct();
    if 1 <= q <= 6 {
      LastLevelAt(CloseAllOps, q, q - 1);
    }
  }

  /** The calls ctrl_dissolver makes: open three valves for 1, close them for 0, nothing otherwise. */
  function DissolverOps(ctr: int): seq<PinOp>
  {
    if ctr == 1 then [High(DISSOLVER_UP), High(DISSOLVER_DOWN), High(PI_DISSOLVER)]
    else if ctr == 0 then [Low(DISSOLVER_DOWN), Low(DISSOLVER_UP), Low(PI_DISSOLVER)]
    else []
  }

  /** ctrl_dissolver. */
  function CtrlDissolver(dev: Tca, ctr: int): (r: Outcome)
    ensures ctr != 0 && ctr != 1 ==> r == Done(dev)
  {
    Run(dev, DissolverOps(ctr))
  }

  /**
   * ctrl_dissolver(1) leaves pins 1, 2, 3 high and ctrl_dissolver(0) leaves
   * them low; every other pin keeps its level.
   */
  lemma CtrlDissolverEffect(dev: Tca, ctr: int)
    requires CtrlDissolver(dev, ctr).Done?
    requires ctr == 0 || ctr == 1
    ensures forall p :: 1 <= p <= 3 ==> Level(CtrlDissolver(dev, ctr).dev.bus.tca, p) == (ctr == 1)
    ensures forall q :: 0 <= q <= 15 && !(1 <= q <= 3)
              ==> Level(CtrlDissolver(dev, ctr).dev.bus.tca, q) == Level(dev.bus.tca, q)
  {
    var ops := DissolverOps(ctr);
    var after := CtrlDissolver(dev, ctr).dev;
    RunEffect(dev, ops);
    forall q | 0 <= q <= 15
      ensures Level(after.bus.tca, q) == if 1 <= q <= 3 then ctr == 1 else Level(dev.bus.tca, q)
    {
      assert ResultLevel(dev, after, ops, q);
      DissolverLast(ctr, q);
    }
  }

  /** ctrl_dissolver's last word on each pin: its level for 1 .. 3, nothing for the rest. */
  lemma DissolverLast(ctr: int, q: int)
    requires ctr == 0 || ctr == 1
    requires 0 <= q <= 15
    ensures LastLevel(DissolverOps(ctr), q) == if 1 <= q <= 3 then Some(ctr == 1) else None
  {
    SlotsDistinct();
    if 1 <= q <= 3 {
      var i := if ctr == 1 then q - 1 else if q == 1 then 1 else if q == 2 then 0 else 2;
      LastLevelAt(DissolverOps(ctr), q, i);
    }
  }

  /** The calls pump_control makes when nothing raises. */
  function PumpOps(direction: int, pulses: nat): seq<PinOp>
  {
    PumpSetupOps(direction) + PulseOps(PUL, pulses) + [High(ENA)]
  }

  /** Everything before the pulse loop: all three lines low, then direction, then enable. */
  function PumpSetupOps(direction: int): seq<PinOp>
  {
    [Low(PUL), Low(DIR), Low(ENA), if direction == 1 then High(DIR) else Low(DIR), Low(ENA)]
  }

  /**
   * pump_control: returns True after the full sequence; on any exception
   * makes one attempt to disable the motor (ignoring its own failure) and
   * returns False.
   */
  function PumpControl(dev: Tca, direction: int, pulses: nat): (r: (bool, Tca))
    ensures r.0 <==> Run(dev, PumpOps(direction, pulses)).Done?
    ensures r.0 ==> Level(r.1.bus.tca, ENA)
    ensures !r.0 && SetPinHigh(Run(dev, PumpOps(direction, pulses)).dev, ENA).Done? ==> Level(r.1.bus.tca, ENA)
  {
    var run := Run(dev, PumpOps(direction, pulses));
    if run.Done? then
      RunEffect(dev, PumpOps(direction, pulses));
      assert ResultLevel(dev, run.dev, PumpOps(direction, pulses), ENA);
      (true, run.dev)
    else
      var stop := SetPinHigh(run.dev, ENA);
      (false, stop.dev)
  }

  lemma SetupLastLevels(direction: int)
    ensures LastLevel(PumpSetupOps(direction), DIR) == Some(direction == 1)
    ensures LastLevel(PumpSetupOps(direction), ENA) == Some(false)
    ensures LastLevel(PumpSetupOps(direction), PUL) == Some(false)
    ensures forall q :: 0 <= q <= 15 && q != PUL && q != DIR && q != ENA ==> LastLevel(PumpSetupOps(direction), q) == None
  {
    var ops := PumpSetupOps(direction);
    SlotsDistinct();
    LastLevelAt(ops, DIR, 3);
    LastLevelAt(ops, ENA, 4);
    LastLevelAt(ops, PUL, 0);
  }

  /**
   * Before the first pulse, pin 11 is high exactly when the direction is 1,
   * pin 12 is low (motor enabled) and pin 10 is low.
   */
  lemma PumpSetupState(dev: Tca, direction: int)
    requires Run(dev, PumpSetupOps(direction)).Done?
    ensures var t := Run(dev, PumpSetupOps(direction)).dev.bus.tca;
      Level(t, DIR) == (direction == 1) && !Level(t, ENA) && !Level(t, PUL)
  {
    var ops := PumpSetupOps(direction);
    RunEffect(dev, ops);
    var after := Run(dev, ops).dev;
    assert ResultLevel(dev, after, ops, DIR);
    assert ResultLevel(dev, after, ops, ENA);
    assert ResultLevel(dev, after, ops, PUL);
    SetupLastLevels(direction);
  }

  /** The last word pump_control's calls have on each pin 0 .. 15. */
  lemma PumpLastLevels(direction: int, pulses: nat, q: int)
    requires 0 <= q <= 15
    ensures LastLevel(PumpOps(direction, pulses), q)
            == if q == ENA then Some(true)
               else if q == PUL then Some(false)
               else if q == DIR then Some(direction == 1)
               else None
  {
    var setup := PumpSetupOps(direction);
    var pulseOps := PulseOps(PUL, pulses);
    SlotsDistinct();
    SetupLastLevels(direction);
    assert PumpOps(direction, pulses) == (setup + pulseOps) + [High(ENA)];
    LastLevelAppend(setup + pulseOps, [High(ENA)], q);
    if q != ENA {
      LastLevelAppend(setup, pulseOps, q);
      if q == PUL && pulses > 0 {
        PulsesEndLow(PUL, pulses);
      } else if q != PUL {
        PulsesOnlyTouch(PUL, pulses, q);
      }
    }
  }

  /**
   * When pump_control returns True, the motor is disabled (pin 12 high), the
   * pulse line is low, pin 11 shows the direction, and pins other than
   * 10, 11, 12 are unchanged.
   */
  lemma PumpControlSuccess(dev: Tca, direction: int, pulses: nat)
    requires PumpControl(dev, direction, pulses).0
    ensures var t := PumpControl(dev, direction, pulses).1.bus.tca;
      && Level(t, ENA) && !Level(t, PUL) && Level(t, DIR) == (direction == 1)
      && forall q :: 0 <= q <= 15 && q != PUL && q != DIR && q != ENA ==> Level(t, q) == Level(dev.bus.tca, q)
  {
    var ops := PumpOps(direction, pulses);
    var after := Run(dev, ops).dev;
    RunEffect(dev, ops);
    forall q | 0 <= q <= 15
      ensures Level(after.bus.tca, q)
              == if q == ENA then true
                 else if q == PUL then false
                 else if q == DIR then direction == 1
                 else Level(dev.bus.tca, q)
    {
      assert ResultLevel(dev, after, ops, q);
      PumpLastLevels(direction, pulses, q);
    }
    assert Level(after.bus.tca, ENA) && !Level(after.bus.tca, PUL);
  }

  /** On a bus where nothing fails, pump_control always returns True. */
  lemma PumpControlHealthy(dev: Tca, direction: int, pulses: nat)
    requires Healthy(dev.bus)
    ensures PumpControl(dev, direction, pulses).0
  {
    var ops := PumpOps(direction, pulses);
    RunSucceeds(dev, ops);
    PulseOpsAt(PUL, pulses);
    forall i | 0 <= i < |ops|
      ensures 0 <= ops[i].pin <= 15
    {
      var setup := PumpSetupOps(direction);
      if i >= |setup| && i < |ops| - 1 {
        assert ops[i] == PulseOps(PUL, pulses)[i - |setup|];
      }
    }
  }

  /** How the `__main__` block ends: NameError before any call, or the outcome of the sequence. */
  datatype MainEnd = NameError(dev: Tca) | Ran(outcome: Outcome)

  /**
   * The `__main__` block as written: its first statement is the bare name
   * 排水, evidently meant as a comment, so it raises NameError before any pin
   * is touched and the drain sequence never runs.
   */
  function MainAsWritten(dev: Tca, forward: nat, reverse: nat): (r: MainEnd)
    ensures r.NameError? && r.dev == dev
  {
    NameError(dev)
  }

  /**
   * The drain sequence the block evidently means: open the three dissolver
   * valves, pump forward, close them, open the waste valve (pin 6), pump in
   * reverse, close the waste valve. pump_control never raises; a valve call
   * that raises ends the block.
   */
  function Drain(dev: Tca, forward: nat, reverse: nat): (r: Outcome)
    ensures r.Done? ==> !Level(r.dev.bus.tca, PI_ANL_WAST)
  {
    var first := DrainDissolver(dev, forward);
    if first.Raised? then first else DrainWaste(first.dev, reverse)
  }

  /** The first half of the drain: dissolver valves open, pump forward, valves closed. */
  function DrainDissolver(dev: Tca, forward: nat): (r: Outcome)
  {
    var valvesOpen := CtrlDissolver(dev, 1);
    if valvesOpen.Raised? then valvesOpen
    else CtrlDissolver(PumpControl(valvesOpen.dev, 1, forward).1, 0)
  }

  /** The second half of the drain: waste valve open, pump in reverse, waste valve closed. */
  function DrainWaste(dev: Tca, reverse: nat): (r: Outcome)
    ensures r.Done? ==> !Level(r.dev.bus.tca, PI_ANL_WAST)
  {
    var waste := SetPinChecked(dev, PI_ANL_WAST, true);
    if waste.Raised? then waste
    else SetPinChecked(PumpControl(waste.dev, 0, reverse).1, PI_ANL_WAST, false)
  }

  /** pump_control on a healthy bus returns True and leaves the bus healthy. */
  lemma PumpControlStaysHealthy(dev: Tca, direction: int, pulses: nat)
    requires Healthy(dev.bus)
    ensures PumpControl(dev, direction, pulses).0
    ensures Healthy(PumpControl(dev, direction, pulses).1.bus)
  {
    PumpControlHealthy(dev, direction, pulses);
    RunStaysHealthy(dev, PumpOps(direction, pulses));
  }

  /** On a healthy bus the first half completes, healthy, with the three dissolver valves closed. */
  lemma DrainDissolverCloses(dev: Tca, forward: nat)
    requires Healthy(dev.bus)
    ensures DrainDissolver(dev, forward).Done? && Healthy(DrainDissolver(dev, forward).dev.bus)
    ensures forall p :: 1 <= p <= 3 ==> !Level(DrainDissolver(dev, forward).dev.bus.tca, p)
  {
    var valvesOpen := CtrlDissolver(dev, 1);
    CtrlDissolverHealthy(dev, 1);
    var pumped := PumpControl(valvesOpen.dev, 1, forward).1;
    PumpControlStaysHealthy(valvesOpen.dev, 1, forward);
    assert DrainDissolver(dev, forward) == CtrlDissolver(pumped, 0);
    CtrlDissolverHealthy(pumped, 0);
    CtrlDissolverEffect(pumped, 0);
  }

  /** ctrl_dissolver on a healthy bus returns and leaves the bus healthy. */
  lemma CtrlDissolverHealthy(dev: Tca, ctr: int)
    requires Healthy(dev.bus)
    ensures CtrlDissolver(dev, ctr).Done? && Healthy(CtrlDissolver(dev, ctr).dev.bus)
  {
    RunSucceeds(dev, DissolverOps(ctr));
    RunStaysHealthy(dev, DissolverOps(ctr));
  }

  /**
   * On a healthy bus the second half completes with the waste valve closed,
   * the motor disabled, pulse and direction pins low, and pins 1-3 untouched.
   */
  lemma DrainWasteCloses(dev: Tca, reverse: nat)
    requires Healthy(dev.bus)
    ensures DrainWaste(dev, reverse).Done?
    ensures var t := DrainWaste(dev, reverse).dev.bus.tca;
      && (forall p :: 1 <= p <= 3 ==> Level(t, p) == Level(dev.bus.tca, p))
      && Level(t, ENA) && !Level(t, PUL) && !Level(t, DIR)
  {
    var waste := SetPinChecked(dev, PI_ANL_WAST, true);
    SetPinCheckedSucceeds(dev, PI_ANL_WAST, true);
    var drained := PumpControl(waste.dev, 0, reverse).1;
    PumpControlStaysHealthy(waste.dev, 0, reverse);
    PumpControlSuccess(waste.dev, 0, reverse);
    SetPinCheckedSucceeds(drained, PI_ANL_WAST, false);
  }

  /**
   * On a bus where nothing fails the intended drain sequence completes with
   * the dissolver valves (pins 1-3) and the waste valve (pin 6) closed, the
   * motor disabled (pin 12 high), the pulse pin low and the direction pin
   * low, while the block as written does nothing but raise NameError.
   */
  lemma DrainCloses(dev: Tca, forward: nat, reverse: nat)
    requires Healthy(dev.bus)
    ensures MainAsWritten(dev, forward, reverse) == NameError(dev)
    ensures Drain(dev, forward, reverse).Done?
    ensures var t := Drain(dev, forward, reverse).dev.bus.tca;
      && (forall p :: 1 <= p <= 3 ==> !Level(t, p))
      && !Level(t, PI_ANL_WAST) && Level(t, ENA) && !Level(t, PUL) && !Level(t, DIR)
  {
    DrainDissolverCloses(dev, forward);
    DrainWasteCloses(DrainDissolver(dev, forward).dev, reverse);
  }
}
