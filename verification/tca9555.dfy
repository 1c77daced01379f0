/**
 * WaterAnaly/controller/lib/TCA9555.py: the TCA9555 16-pin I2C expander
 * driver. Pins 0-7 live in port 0 (output register 0x02, configuration
 * register 0x06), pins 8-15 in port 1 (0x03, 0x07), at bit `pin % 8`. Every
 * operation is a read-modify-write of one register byte, and the driver
 * keeps a 16-bit shadow `output_state` of both output registers.
 *
 * Python's `%` floors, as Dafny's does for a positive divisor, so
 * `BitPos(-1) == 7` exactly as in the source.
 */
module Tca9555 {
  import opened I2cBus
  import opened Wrappers

  const TCA9555_ADDR: nat := 0x20
  const REG_INPUT_PORT0: nat := 0x00
  const REG_OUTPUT_PORT0: nat := 0x02
  const REG_OUTPUT_PORT1: nat := 0x03
  const REG_CONFIG_PORT0: nat := 0x06
  const REG_CONFIG_PORT1: nat := 0x07

  /** The pin the solenoid-valve helpers use when none is given (P2). */
  const DEFAULT_VALVE_PIN: int := 2

  /** The Python exceptions an operation can end with. */
  datatype Error = ValueError | IOError

  /** The driver object: its bus and the shadow of both output registers. */
  datatype Tca = Tca(bus: Bus, outputState: bv16)

  /** How an operation ended: normally, or with an exception, with the driver state either way. */
  datatype Outcome = Done(dev: Tca) | Raised(error: Error, dev: Tca)

  // ---------------------------------------------------------------------------
  // Pin addressing
  // ---------------------------------------------------------------------------

  function ConfigRegister(pin: int): (r: nat)
    ensures r == REG_CONFIG_PORT0 || r == REG_CONFIG_PORT1
  {
    if pin < 8 then REG_CONFIG_PORT0 else REG_CONFIG_PORT1
  }

  function OutputRegister(pin: int): (r: nat)
    ensures r == REG_OUTPUT_PORT0 || r == REG_OUTPUT_PORT1
  {
    if pin < 8 then REG_OUTPUT_PORT0 else REG_OUTPUT_PORT1
  }

  /** `pin_number % 8` with Python's floored remainder. */
  function BitPos(pin: int): (r: nat)
    ensures r < 8
  {
    pin % 8
  }

  /**
   * Pins 0 .. 7 sit on port 0 and pins 8 .. 15 on port 1, each at bit
   * `pin % 8`: the port and the bit give the pin back, and the configuration
   * register is the output register's counterpart on the same port.
   */
  lemma PinFromSlot(pin: int)
    requires 0 <= pin <= 15
    ensures pin == 8 * (OutputRegister(pin) - REG_OUTPUT_PORT0) + BitPos(pin)
    ensures ConfigRegister(pin) - REG_CONFIG_PORT0 == OutputRegister(pin) - REG_OUTPUT_PORT0
  {
  }

  /** `1 << i` for the eight bit positions of a byte. */
  const Masks: seq<bv8> := [1, 2, 4, 8, 16, 32, 64, 128]

  lemma MasksAreShifts()
    ensures forall i :: 0 <= i < 8 ==> Masks[i] == (1 as bv8) << i
  {
  }

  /** Bit i of a register byte: `v & (1 << i) != 0`. */
  predicate BitSet(v: bv8, i: nat)
    requires i < 8
  {
    v & Masks[i] != 0
  }

  /** The level the output register drives on a pin. */
  predicate Level(regs: Regs, pin: int)
  {
    BitSet(regs[OutputRegister(pin)], BitPos(pin))
  }

  /** Whether a pin's configuration bit says output (a cleared bit). */
  predicate IsOutput(regs: Regs, pin: int)
  {
    !BitSet(regs[ConfigRegister(pin)], BitPos(pin))
  }

  /** Two pin numbers that address the same register bit. */
  predicate SameSlot(p: int, q: int)
  {
    OutputRegister(p) == OutputRegister(q) && BitPos(p) == BitPos(q)
  }

  /** The 16-bit word with `hi` as its high byte and `lo` as its low byte. */
  function Word(hi: bv8, lo: bv8): bv16
  {
    ((hi as bv16) << 8) | (lo as bv16)
  }

  /** The shadow agrees with both output registers: port 1 in the high byte, port 0 in the low. */
  predicate InSync(dev: Tca)
  {
    dev.outputState == Word(dev.bus.tca[REG_OUTPUT_PORT1], dev.bus.tca[REG_OUTPUT_PORT0])
  }

  /** Pins 0 .. 15 address 16 different register bits. */
  lemma SlotsDistinct()
    ensures forall p, q :: 0 <= p <= 15 && 0 <= q <= 15 ==> (SameSlot(p, q) <==> p == q)
  {
  }

  // ---------------------------------------------------------------------------
  // Byte updates
  // ---------------------------------------------------------------------------

  /** `v | (1 << i)`: sets bit i, keeps the rest. */
  function SetBit(v: bv8, i: nat): (r: bv8)
    requires i < 8
    ensures forall j :: 0 <= j < 8 ==> BitSet(r, j) == (j == i || BitSet(v, j))
  {
    v | Masks[i]
  }

  /** `v & ~(1 << i)`: clears bit i, keeps the rest. */
  function ClearBit(v: bv8, i: nat): (r: bv8)
    requires i < 8
    ensures forall j :: 0 <= j < 8 ==> BitSet(r, j) == (j != i && BitSet(v, j))
  {
    v & !Masks[i]
  }

  /**
   * The shadow update after writing `newByte` to the output register of
   * `pin`: port 0 replaces the low byte, port 1 the high byte.
   */
  function ShadowUpdate(state: bv16, pin: int, newByte: bv8): (r: bv16)
    ensures pin < 8 ==> r & 0x00FF == newByte as bv16 && r & 0xFF00 == state & 0xFF00
    ensures pin >= 8 ==> r >> 8 == newByte as bv16 && r & 0x00FF == state & 0x00FF
  {
    if pin < 8 then (state & 0xFF00) | (newByte as bv16)
    else (state & 0x00FF) | ((newByte as bv16) << 8)
  }

  // ---------------------------------------------------------------------------
  // Driver operations
  // ---------------------------------------------------------------------------

  /**
   * __init__: when the SMBus cannot be opened the error is re-raised and no
   * driver exists; otherwise the shadow starts at 0 and the probe read of
   * input port 0 takes one bus transaction, whose failure is only printed.
   */
  function Init(bus: Bus, busOpens: bool): (r: Option<Tca>)
    ensures r.Some? <==> busOpens
    ensures r.Some? ==> r.value.outputState == 0 && r.value.bus == Consume(bus)
    ensures r.Some? ==> r.value.bus.tca == bus.tca && r.value.bus.pcf == bus.pcf
  {
    if !busOpens then None
    else Some(Tca(TcaRead(bus, REG_INPUT_PORT0).bus, 0))
  }

  /**
   * _configure_tca9555_pin_output: a pin above 15 raises ValueError before
   * any bus access; otherwise the configuration bit of the pin is cleared by
   * a read-modify-write, and a bus failure is re-raised.
   */
  function ConfigurePinOutput(dev: Tca, pin: int): (r: Outcome)
    ensures pin > 15 ==> r == Raised(ValueError, dev)
    ensures r.dev.outputState == dev.outputState && r.dev.bus.pcf == dev.bus.pcf
    ensures r.Done? ==> pin <= 15 && r.dev.bus.tca == dev.bus.tca[ConfigRegister(pin) :=
                          ClearBit(dev.bus.tca[ConfigRegister(pin)], BitPos(pin))]
    ensures r.Raised? && pin <= 15 ==> r.error == IOError && r.dev.bus.tca == dev.bus.tca
  {
    if pin > 15 then Raised(ValueError, dev)
    else
      var reg := ConfigRegister(pin);
      var rd := TcaRead(dev.bus, reg);
      if rd.Raise? then Raised(IOError, dev.(bus := rd.bus))
      else
        var wr := TcaWrite(rd.bus, reg, ClearBit(rd.value, BitPos(pin)));
        if wr.Raise? then Raised(IOError, dev.(bus := wr.bus))
        else Done(dev.(bus := wr.bus))
  }

  /** The output byte with the pin's bit set (high) or cleared (low). */
  function PinByte(v: bv8, pin: int, high: bool): (r: bv8)
    ensures BitSet(r, BitPos(pin)) == high
    ensures forall j :: 0 <= j < 8 && j != BitPos(pin) ==> BitSet(r, j) == BitSet(v, j)
  {
    if high then SetBit(v, BitPos(pin)) else ClearBit(v, BitPos(pin))
  }

  /**
   * The second half of set-high and set-low: read the pin's output register,
   * write it back with the pin's bit changed, then update the shadow byte of
   * that port. A bus failure is re-raised and leaves the shadow alone.
   */
  function WriteLevel(dev: Tca, pin: int, high: bool): (r: Outcome)
    ensures r.Raised? ==> r.error == IOError && r.dev.bus.tca == dev.bus.tca && r.dev.outputState == dev.outputState
    ensures r.Done? ==> r.dev.bus.tca == dev.bus.tca[OutputRegister(pin) :=
                          PinByte(dev.bus.tca[OutputRegister(pin)], pin, high)]
    ensures r.Done? ==> r.dev.outputState == ShadowUpdate(dev.outputState, pin, r.dev.bus.tca[OutputRegister(pin)])
    ensures r.dev.bus.pcf == dev.bus.pcf
  {
    var reg := OutputRegister(pin);
    var rd := TcaRead(dev.bus, reg);
    if rd.Raise? then Raised(IOError, dev.(bus := rd.bus))
    else
      var newByte := PinByte(rd.value, pin, high);
      var wr := TcaWrite(rd.bus, reg, newByte);
      if wr.Raise? then Raised(IOError, dev.(bus := wr.bus))
      else Done(Tca(wr.bus, ShadowUpdate(dev.outputState, pin, newByte)))
  }

  /**
   * The shared body of set_tca9555_pin_high and set_tca9555_pin_low: range
   * check, configure the pin as output, then write its level.
   */
  function SetPin(dev: Tca, pin: int, high: bool): (r: Outcome)
    ensures pin > 15 ==> r == Raised(ValueError, dev)
    ensures r.Raised? && pin <= 15 ==> r.error == IOError
    ensures r.Raised? ==> r.dev.outputState == dev.outputState
    ensures r.Done? ==> pin <= 15
    ensures r.dev.bus.pcf == dev.bus.pcf
  {
    if pin > 15 then Raised(ValueError, dev)
    else
      var cfg := ConfigurePinOutput(dev, pin);
      if cfg.Raised? then cfg else WriteLevel(cfg.dev, pin, high)
  }

  /** set_tca9555_pin_high. */
  function SetPinHigh(dev: Tca, pin: int): (r: Outcome)
    ensures r.Done? ==> Level(r.dev.bus.tca, pin)
    ensures pin > 15 ==> r == Raised(ValueError, dev)
  {
    SetPin(dev, pin, true)
  }

  /** set_tca9555_pin_low. */
  function SetPinLow(dev: Tca, pin: int): (r: Outcome)
    ensures r.Done? ==> !Level(r.dev.bus.tca, pin)
    ensures pin > 15 ==> r == Raised(ValueError, dev)
  {
    SetPin(dev, pin, false)
  }

  /**
   * Set-high / set-low with the range check their message promises
   * ("pin number must be 0-15"): negative pins raise ValueError too. The
   * valve and pump sequences are modelled over this version; for the pins
   * they use it behaves as the driver does.
   */
  function SetPinChecked(dev: Tca, pin: int, high: bool): (r: Outcome)
    ensures !(0 <= pin <= 15) ==> r == Raised(ValueError, dev)
    ensures 0 <= pin ==> r == SetPin(dev, pin, high)
  {
    if pin < 0 then Raised(ValueError, dev) else SetPin(dev, pin, high)
  }

  /**
   * is_valve_open: reads the pin's output register and tests its bit. There
   * is no range check, and a failed read answers False instead of raising.
   */
  function IsValveOpen(dev: Tca, pin: int): (r: (bool, Tca))
    ensures r.0 ==> Level(dev.bus.tca, pin)
    ensures !NextFails(dev.bus) ==> r.0 == Level(dev.bus.tca, pin)
    ensures r.1 == dev.(bus := Consume(dev.bus))
  {
    var rd := TcaRead(dev.bus, OutputRegister(pin));
    if rd.Raise? then (false, dev.(bus := rd.bus))
    else (BitSet(rd.value, BitPos(pin)), dev.(bus := rd.bus))
  }

  /**
   * cleanup: writes 0x00 to output port 0 and then port 1; an exception
   * ends the attempt and is swallowed. The shadow is not touched.
   */
  function Cleanup(dev: Tca): (r: Tca)
    ensures r.outputState == dev.outputState
    ensures NextFails(dev.bus) ==> r.bus.tca == dev.bus.tca
    ensures !NextFails(dev.bus) ==> r.bus.tca[REG_OUTPUT_PORT0] == 0
    ensures !NextFails(dev.bus) && !NextFails(Consume(dev.bus)) ==> r.bus.tca[REG_OUTPUT_PORT1] == 0
    ensures !NextFails(dev.bus) && NextFails(Consume(dev.bus)) ==> r.bus.tca[REG_OUTPUT_PORT1] == dev.bus.tca[REG_OUTPUT_PORT1]
    ensures forall k :: 0 <= k < 8 && k != REG_OUTPUT_PORT0 && k != REG_OUTPUT_PORT1 ==> r.bus.tca[k] == dev.bus.tca[k]
    ensures r.bus.pcf == dev.bus.pcf && r.bus.adsWord == dev.bus.adsWord
  {
    var w0 := TcaWrite(dev.bus, REG_OUTPUT_PORT0, 0);
    if w0.Raise? then dev.(bus := w0.bus)
    else
      var w1 := TcaWrite(w0.bus, REG_OUTPUT_PORT1, 0);
      dev.(bus := w1.bus)
  }

  /** open_solenoid_valve: drive the valve pin high. */
  function OpenSolenoidValve(dev: Tca, pin: int := DEFAULT_VALVE_PIN): (r: Outcome)
    ensures r.Done? ==> Level(r.dev.bus.tca, pin)
  {
    SetPinHigh(dev, pin)
  }

  /** close_solenoid_valve: drive the valve pin low. */
  function CloseSolenoidValve(dev: Tca, pin: int := DEFAULT_VALVE_PIN): (r: Outcome)
    ensures r.Done? ==> !Level(r.dev.bus.tca, pin)
  {
    SetPinLow(dev, pin)
  }

  // ---------------------------------------------------------------------------
  // Properties
  // ---------------------------------------------------------------------------

  /** On a healthy bus, set-high and set-low succeed exactly for pins up to 15. */
  lemma SetPinSucceeds(dev: Tca, pin: int, high: bool)
    requires Healthy(dev.bus)
    ensures SetPin(dev, pin, high).Done? <==> pin <= 15
    ensures Healthy(SetPin(dev, pin, high).dev.bus)
  {
    if pin <= 15 {
      HealthyConsume(dev.bus);
      HealthyConsume(Consume(dev.bus));
      var b2 := TcaWrite(Consume(dev.bus), ConfigRegister(pin), 0).bus;
      var cfg := ConfigurePinOutput(dev, pin);
      assert cfg.dev.bus.faults == Consume(Consume(dev.bus)).faults;
      HealthyConsume(cfg.dev.bus);
      HealthyConsume(Consume(cfg.dev.bus));
    }
  }

  /**
   * As written, the guard lets pin -1 through: it lands on port 0 bit 7, so
   * set_tca9555_pin_high(-1) succeeds and drives P7 high. The checked version
   * refuses it.
   */
  lemma NegativePinAliases(dev: Tca)
    requires Healthy(dev.bus)
    ensures SetPin(dev, -1, true).Done?
    ensures Level(SetPin(dev, -1, true).dev.bus.tca, 7)
    ensures SetPinChecked(dev, -1, true) == Raised(ValueError, dev)
  {
    SetPinSucceeds(dev, -1, true);
    SetPinEffect(dev, -1, true);
    var t := SetPin(dev, -1, true).dev.bus.tca;
    assert OutputRegister(-1) == OutputRegister(7) && BitPos(-1) == 7;
    assert Level(t, 7) == Level(t, -1);
  }

  /**
   * On a healthy bus the checked set succeeds exactly for pins 0 .. 15, and
   * then the pin has the level asked for and no other pin 0 .. 15 changes.
   */
  lemma SetPinCheckedSucceeds(dev: Tca, pin: int, high: bool)
    requires Healthy(dev.bus)
    ensures SetPinChecked(dev, pin, high).Done? <==> 0 <= pin <= 15
    ensures Healthy(SetPinChecked(dev, pin, high).dev.bus)
    ensures SetPinChecked(dev, pin, high).Done? ==>
      var t := SetPinChecked(dev, pin, high).dev.bus.tca;
      Level(t, pin) == high && forall q :: 0 <= q <= 15 && q != pin ==> Level(t, q) == Level(dev.bus.tca, q)
  {
    if 0 <= pin <= 15 {
      SetPinSucceeds(dev, pin, high);
      SetPinEffect(dev, pin, high);
      SlotsDistinct();
    }
  }

  /** Changing one pin's output bit changes that pin's level and no other pin's. */
  lemma LevelAfterWrite(regs: Regs, pin: int, high: bool, q: int)
    ensures Level(regs[OutputRegister(pin) := PinByte(regs[OutputRegister(pin)], pin, high)], q)
         == if SameSlot(q, pin) then high else Level(regs, q)
  {
  }

  /** A configuration write leaves every pin's level alone. */
  lemma LevelAfterConfig(regs: Regs, pin: int, v: bv8, q: int)
    ensures Level(regs[ConfigRegister(pin) := v], q) == Level(regs, q)
  {
  }

  /**
   * A set-high (set-low) that returns normally leaves the pin configured as
   * output and driven high (low), changes no other pin's level, touches only
   * the pin's two registers, and updates the shadow byte of the pin's port to
   * the byte written.
   */
  lemma SetPinEffect(dev: Tca, pin: int, high: bool)
    requires SetPin(dev, pin, high).Done?
    ensures var t := SetPin(dev, pin, high).dev.bus.tca;
      && Level(t, pin) == high && IsOutput(t, pin)
      && (forall q :: !SameSlot(q, pin) ==> Level(t, q) == Level(dev.bus.tca, q))
      && (forall k :: 0 <= k < 8 && k != ConfigRegister(pin) && k != OutputRegister(pin) ==> t[k] == dev.bus.tca[k])
    ensures SetPin(dev, pin, high).dev.outputState
         == ShadowUpdate(dev.outputState, pin, SetPin(dev, pin, high).dev.bus.tca[OutputRegister(pin)])
  {
    var c := ConfigurePinOutput(dev, pin).dev;
    var t := SetPin(dev, pin, high).dev.bus.tca;
    forall q | !SameSlot(q, pin)
      ensures Level(t, q) == Level(dev.bus.tca, q)
    {
      LevelAfterWrite(c.bus.tca, pin, high, q);
      LevelAfterConfig(dev.bus.tca, pin, ClearBit(dev.bus.tca[ConfigRegister(pin)], BitPos(pin)), q);
    }
    LevelAfterWrite(c.bus.tca, pin, high, pin);
    assert t[ConfigRegister(pin)] == c.bus.tca[ConfigRegister(pin)];
  }

  /**
   * Reading a pin's state right after setting it high (low) answers True
   * (False), as long as that read goes through.
   */
  lemma SetThenRead(dev: Tca, pin: int, high: bool)
    requires SetPin(dev, pin, high).Done?
    requires !NextFails(SetPin(dev, pin, high).dev.bus)
    ensures IsValveOpen(SetPin(dev, pin, high).dev, pin).0 == high
  {
  }

  lemma ClearBitIdempotent(v: bv8, i: nat)
    requires i < 8
    ensures ClearBit(ClearBit(v, i), i) == ClearBit(v, i)
  {
  }

  lemma PinByteIdempotent(v: bv8, pin: int, high: bool)
    ensures PinByte(PinByte(v, pin, high), pin, high) == PinByte(v, pin, high)
  {
  }

  lemma ShadowUpdateIdempotent(state: bv16, pin: int, b: bv8)
    ensures ShadowUpdate(ShadowUpdate(state, pin, b), pin, b) == ShadowUpdate(state, pin, b)
  {
  }

  /** Configuring a pin that is already an output changes no register. */
  lemma ConfigureAgain(dev: Tca, pin: int)
    requires ConfigurePinOutput(dev, pin).Done? && IsOutput(dev.bus.tca, pin)
    ensures ConfigurePinOutput(dev, pin).dev.bus.tca == dev.bus.tca
  {
    var v := dev.bus.tca[ConfigRegister(pin)];
    assert ClearBit(v, BitPos(pin)) == v;
  }

  /** Writing a level the pin already has changes neither register nor shadow. */
  lemma WriteLevelAgain(dev: Tca, pin: int, high: bool, state: bv16, prev: bv8)
    requires WriteLevel(dev, pin, high).Done?
    requires dev.bus.tca[OutputRegister(pin)] == PinByte(prev, pin, high)
    requires dev.outputState == ShadowUpdate(state, pin, dev.bus.tca[OutputRegister(pin)])
    ensures WriteLevel(dev, pin, high).dev.bus.tca == dev.bus.tca
    ensures WriteLevel(dev, pin, high).dev.outputState == dev.outputState
  {
    PinByteIdempotent(prev, pin, high);
    ShadowUpdateIdempotent(state, pin, dev.bus.tca[OutputRegister(pin)]);
  }

  /**
   * Repeating a set-high (set-low) that succeeded leaves both the registers
   * and the shadow as the first call left them.
   */
  lemma SetPinIdempotent(dev: Tca, pin: int, high: bool)
    requires SetPin(dev, pin, high).Done?
    requires SetPin(SetPin(dev, pin, high).dev, pin, high).Done?
    ensures SetPin(SetPin(dev, pin, high).dev, pin, high).dev.bus.tca == SetPin(dev, pin, high).dev.bus.tca
    ensures SetPin(SetPin(dev, pin, high).dev, pin, high).dev.outputState == SetPin(dev, pin, high).dev.outputState
  {
    var c0 := ConfigurePinOutput(dev, pin).dev;
    var d1 := SetPin(dev, pin, high).dev;
    assert d1 == WriteLevel(c0, pin, high).dev;
    SetPinEffect(dev, pin, high);
    var c1 := ConfigurePinOutput(d1, pin);
    ConfigureAgain(d1, pin);
    assert SetPin(d1, pin, high) == WriteLevel(c1.dev, pin, high);
    WriteLevelAgain(c1.dev, pin, high, c0.outputState, c0.bus.tca[OutputRegister(pin)]);
  }

  /** Writing port 0's byte into the low half of an in-step shadow keeps it in step. */
  lemma ShadowLow(hi: bv8, lo: bv8, pin: int, b: bv8)
    requires pin < 8
    ensures ShadowUpdate(Word(hi, lo), pin, b) == Word(hi, b)
  {
  }

  /** Writing port 1's byte into the high half of an in-step shadow keeps it in step. */
  lemma ShadowHigh(hi: bv8, lo: bv8, pin: int, b: bv8)
    requires pin >= 8
    ensures ShadowUpdate(Word(hi, lo), pin, b) == Word(b, lo)
  {
  }

  /** Whether a set succeeds or raises, a shadow in step with the output registers stays in step. */
  lemma SetPinKeepsSync(dev: Tca, pin: int, high: bool)
    requires InSync(dev)
    ensures InSync(SetPin(dev, pin, high).dev)
  {
    if pin <= 15 {
      var c := ConfigurePinOutput(dev, pin);
      assert c.dev.bus.tca[REG_OUTPUT_PORT0] == dev.bus.tca[REG_OUTPUT_PORT0];
      assert c.dev.bus.tca[REG_OUTPUT_PORT1] == dev.bus.tca[REG_OUTPUT_PORT1];
      if c.Done? {
        WriteLevelKeepsSync(c.dev, pin, high);
      }
    }
  }

  lemma WriteLevelKeepsSync(dev: Tca, pin: int, high: bool)
    requires InSync(dev)
    ensures InSync(WriteLevel(dev, pin, high).dev)
  {
    var r := WriteLevel(dev, pin, high);
    var t := r.dev.bus.tca;
    var lo, hi := dev.bus.tca[REG_OUTPUT_PORT0], dev.bus.tca[REG_OUTPUT_PORT1];
    if r.Done? {
      var b := t[OutputRegister(pin)];
      if pin < 8 {
        assert t[REG_OUTPUT_PORT1] == hi && t[REG_OUTPUT_PORT0] == b;
        ShadowLow(hi, lo, pin, b);
      } else {
        assert t[REG_OUTPUT_PORT0] == lo && t[REG_OUTPUT_PORT1] == b;
        ShadowHigh(hi, lo, pin, b);
      }
    }
  }

  lemma WordLowBit(hi: bv8, lo: bv8, i: nat)
    requires i < 8
    ensures Word(hi, lo) & ((1 as bv16) << i) != 0 <==> BitSet(lo, i)
  {
  }

  lemma WordHighBit(hi: bv8, lo: bv8, i: nat)
    requires 8 <= i < 16
    ensures Word(hi, lo) & ((1 as bv16) << i) != 0 <==> BitSet(hi, i - 8)
  {
  }

  /** In a shadow that is in step, bit p tells pin p's level, for every pin 0 .. 15. */
  lemma ShadowTellsLevel(dev: Tca, pin: int)
    requires InSync(dev) && 0 <= pin <= 15
    ensures Level(dev.bus.tca, pin) <==> dev.outputState & ((1 as bv16) << pin) != 0
  {
    var lo, hi := dev.bus.tca[REG_OUTPUT_PORT0], dev.bus.tca[REG_OUTPUT_PORT1];
    if pin < 8 {
      assert BitPos(pin) == pin;
      WordLowBit(hi, lo, pin);
    } else {
      assert BitPos(pin) == pin - 8;
      WordHighBit(hi, lo, pin);
    }
  }
}
