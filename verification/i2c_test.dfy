/**
 * I2C/i2cteset.py: probe the three bus devices, drive P2 high on the
 * TCA9555 and on the PCF8574, and on the way out drive P2 low again. Every
 * bus exception is caught and printed; the messages are not modelled.
 */
module I2cTest {
  import opened I2cBus

  const TCA9555_ADDR: int := 0x20
  const PCF8574_ADDR: int := 0x21
  const ADS1115_ADDR: int := 0x48
  const REG_OUTPUT_PORT0: nat := 0x02
  const REG_CONFIG_PORT0: nat := 0x06

  /** Bit 2 of a port byte: pin P2. */
  const P2: bv8 := 4

  /** Whether P2's bit is set in a port byte. */
  predicate HasP2(v: bv8)
  {
    v & P2 != 0
  }

  /** A port byte with P2's bit masked out: the state of the other seven pins. */
  function Others(v: bv8): bv8
  {
    v & !P2
  }

  /** What one probe of test_i2c_devices printed: the value read, or a failure. */
  datatype Probe = Probe(addr: int, value: int) | ProbeFailed(addr: int)

  /**
   * test_i2c_devices: the devices in their table order (0x20, 0x21, 0x48),
   * each read in its own try block, so one failure does not stop the others.
   */
  function TestI2cDevices(bus: Bus): (r: (seq<Probe>, Bus))
    ensures |r.0| == 3
    ensures r.0[0].addr == TCA9555_ADDR && r.0[1].addr == PCF8574_ADDR && r.0[2].addr == ADS1115_ADDR
    ensures r.0[0].Probe? <==> !NextFails(bus)
    ensures r.0[1].Probe? <==> !NextFails(Consume(bus))
    ensures r.0[2].Probe? <==> !NextFails(Consume(Consume(bus)))
    ensures r.0[0].Probe? ==> r.0[0].value == bus.tca[0] as int
    ensures r.0[1].Probe? ==> r.0[1].value == bus.pcf as int
    ensures r.0[2].Probe? ==> r.0[2].value == bus.adsWord as int
    ensures r.1 == Consume(Consume(Consume(bus)))
  {
    var tca := TcaRead(bus, 0);
    var p0 := if tca.Ok? then Probe(TCA9555_ADDR, tca.value as int) else ProbeFailed(TCA9555_ADDR);
    var pcf := PcfRead(tca.bus);
    var p1 := if pcf.Ok? then Probe(PCF8574_ADDR, pcf.value as int) else ProbeFailed(PCF8574_ADDR);
    var ads := AdsReadWord(pcf.bus);
    var p2 := if ads.Ok? then Probe(ADS1115_ADDR, ads.value as int) else ProbeFailed(ADS1115_ADDR);
    ([p0, p1, p2], ads.bus)
  }

  /** The first half of the TCA9555 block: read the configuration register, write it back with P2 clear (an output). */
  function TcaP2Output(bus: Bus): (r: Io<()>)
    ensures r.Ok? ==> !HasP2(r.bus.tca[REG_CONFIG_PORT0])
    ensures Others(r.bus.tca[REG_CONFIG_PORT0]) == Others(bus.tca[REG_CONFIG_PORT0])
    ensures forall k :: 0 <= k < 8 && k != REG_CONFIG_PORT0 ==> r.bus.tca[k] == bus.tca[k]
    ensures r.bus.pcf == bus.pcf
  {
    var config := TcaRead(bus, REG_CONFIG_PORT0);
    if config.Raise? then Raise(config.bus)
    else
      ClearP2(config.value);
      TcaWrite(config.bus, REG_CONFIG_PORT0, config.value & !P2)
  }

  /** The second half of the TCA9555 block: read the output register, write it back with P2 set. */
  function TcaP2Set(bus: Bus): (r: Io<()>)
    ensures r.Ok? ==> HasP2(r.bus.tca[REG_OUTPUT_PORT0])
    ensures r.Raise? ==> r.bus.tca == bus.tca
    ensures Others(r.bus.tca[REG_OUTPUT_PORT0]) == Others(bus.tca[REG_OUTPUT_PORT0])
    ensures forall k :: 0 <= k < 8 && k != REG_OUTPUT_PORT0 ==> r.bus.tca[k] == bus.tca[k]
    ensures r.bus.pcf == bus.pcf
  {
    var output := TcaRead(bus, REG_OUTPUT_PORT0);
    if output.Raise? then Raise(output.bus)
    else
      SetP2(output.value);
      TcaWrite(output.bus, REG_OUTPUT_PORT0, output.value | P2)
  }

  /** The TCA9555 block of set_p2_high: P2 becomes an output, then P2's output bit is set. */
  function TcaP2High(bus: Bus): (r: Io<()>)
    ensures r.Ok? ==> !HasP2(r.bus.tca[REG_CONFIG_PORT0]) && HasP2(r.bus.tca[REG_OUTPUT_PORT0])
    ensures Others(r.bus.tca[REG_CONFIG_PORT0]) == Others(bus.tca[REG_CONFIG_PORT0])
    ensures Others(r.bus.tca[REG_OUTPUT_PORT0]) == Others(bus.tca[REG_OUTPUT_PORT0])
    ensures r.Raise? ==> r.bus.tca[REG_OUTPUT_PORT0] == bus.tca[REG_OUTPUT_PORT0]
    ensures forall k :: 0 <= k < 8 && k != REG_CONFIG_PORT0 && k != REG_OUTPUT_PORT0 ==> r.bus.tca[k] == bus.tca[k]
    ensures r.bus.pcf == bus.pcf
  {
    var config := TcaP2Output(bus);
    if config.Raise? then config else TcaP2Set(config.bus)
  }

  /** The PCF8574 block of set_p2_high: read the port, write it back with P2 set. */
  function PcfP2High(bus: Bus): (r: Io<()>)
    ensures r.Ok? ==> HasP2(r.bus.pcf) && Others(r.bus.pcf) == Others(bus.pcf)
    ensures r.Raise? ==> r.bus.pcf == bus.pcf
    ensures r.bus.tca == bus.tca
  {
    var current := PcfRead(bus);
    if current.Raise? then Raise(current.bus)
    else
      SetP2(current.value);
      PcfWrite(current.bus, current.value | P2)
  }

  /**
   * set_p2_high: the two blocks run one after the other, each in its own
   * try block; the result says which of them completed. A completed block
   * leaves its P2 high (and, on the TCA9555, configured as an output); a
   * failed PCF8574 block leaves that port as it was; no other pin changes.
   */
  function SetP2High(bus: Bus): (r: (bool, bool, Bus))
    ensures r.0 ==> !HasP2(r.2.tca[REG_CONFIG_PORT0]) && HasP2(r.2.tca[REG_OUTPUT_PORT0])
    ensures r.1 ==> HasP2(r.2.pcf)
    ensures !r.1 ==> r.2.pcf == bus.pcf
    ensures Others(r.2.tca[REG_CONFIG_PORT0]) == Others(bus.tca[REG_CONFIG_PORT0])
    ensures Others(r.2.tca[REG_OUTPUT_PORT0]) == Others(bus.tca[REG_OUTPUT_PORT0])
    ensures Others(r.2.pcf) == Others(bus.pcf)
    ensures forall k :: 0 <= k < 8 && k != REG_CONFIG_PORT0 && k != REG_OUTPUT_PORT0 ==> r.2.tca[k] == bus.tca[k]
  {
    var tca := TcaP2High(bus);
    var pcf := PcfP2High(tca.bus);
    (tca.Ok?, pcf.Ok?, pcf.bus)
  }

  /**
   * The PCF8574 block runs whatever became of the TCA9555 block: when the
   * bus is healthy from there on, it completes even after the first block
   * raised.
   */
  lemma PcfBlockIndependent(bus: Bus)
    requires Healthy(TcaP2High(bus).bus)
    ensures SetP2High(bus).1
  {
    PcfP2HighHealthy(TcaP2High(bus).bus);
  }

  /** A concrete run: the TCA9555's first read raises, and P2 on the PCF8574 still goes high. */
  lemma TcaFailureStillDrivesPcf()
    ensures var bus := Bus([0, 0, 0, 0, 0, 0, 0xFF, 0], 0, 0, [true]);
      var r := SetP2High(bus);
      !r.0 && r.1 && HasP2(r.2.pcf) && r.2.tca == bus.tca
  {
    var bus := Bus([0, 0, 0, 0, 0, 0, 0xFF, 0], 0, 0, [true]);
    assert Healthy(TcaP2High(bus).bus);
    PcfBlockIndependent(bus);
  }

  /** Clearing P2 leaves P2 low and every other bit as it was. */
  lemma ClearP2(v: bv8)
    ensures !HasP2(v & !P2) && Others(v & !P2) == Others(v)
  {
  }

  /** Setting P2 leaves P2 high and every other bit as it was. */
  lemma SetP2(v: bv8)
    ensures HasP2(v | P2) && Others(v | P2) == Others(v)
  {
  }

  /** The TCA9555 half of cleanup: read the output register, write it back with P2 clear. */
  function TcaP2Low(bus: Bus): (r: Io<()>)
    ensures r.Ok? ==> !HasP2(r.bus.tca[REG_OUTPUT_PORT0])
    ensures Others(r.bus.tca[REG_OUTPUT_PORT0]) == Others(bus.tca[REG_OUTPUT_PORT0])
    ensures forall k :: 0 <= k < 8 && k != REG_OUTPUT_PORT0 ==> r.bus.tca[k] == bus.tca[k]
    ensures r.bus.pcf == bus.pcf
  {
    var output := TcaRead(bus, REG_OUTPUT_PORT0);
    if output.Raise? then Raise(output.bus)
    else
      ClearP2(output.value);
      TcaWrite(output.bus, REG_OUTPUT_PORT0, output.value & !P2)
  }

  /** The PCF8574 half of cleanup: read the port, write it back with P2 clear. */
  function PcfP2Low(bus: Bus): (r: Io<()>)
    ensures r.Ok? ==> !HasP2(r.bus.pcf)
    ensures Others(r.bus.pcf) == Others(bus.pcf)
    ensures r.bus.tca == bus.tca
  {
    var current := PcfRead(bus);
    if current.Raise? then Raise(current.bus)
    else
      ClearP2(current.value);
      PcfWrite(current.bus, current.value & !P2)
  }

  /**
   * cleanup: one try block clears P2's output bit on the TCA9555 and then P2
   * on the PCF8574; a TCA9555 failure skips the PCF8574 part. The
   * configuration register is left as it is.
   */
  function Cleanup(bus: Bus): (r: (bool, Bus))
    ensures r.0 <==> TcaP2Low(bus).Ok? && PcfP2Low(TcaP2Low(bus).bus).Ok?
    ensures r.0 ==> !HasP2(r.1.tca[REG_OUTPUT_PORT0]) && !HasP2(r.1.pcf)
    ensures !TcaP2Low(bus).Ok? ==> r.1.pcf == bus.pcf
    ensures Others(r.1.tca[REG_OUTPUT_PORT0]) == Others(bus.tca[REG_OUTPUT_PORT0])
    ensures Others(r.1.pcf) == Others(bus.pcf)
    ensures forall k :: 0 <= k < 8 && k != REG_OUTPUT_PORT0 ==> r.1.tca[k] == bus.tca[k]
  {
    var tca := TcaP2Low(bus);
    if tca.Raise? then (false, tca.bus)
    else
      var pcf := PcfP2Low(tca.bus);
      (pcf.Ok?, pcf.bus)
  }

  /**
   * The script's try block up to the point where an exception escapes it:
   * `escapeAt` 0 means nothing ran (the SMBus of test_i2c_devices could not
   * be opened, or an interrupt came first), 1 that the probes ran and then
   * set_p2_high's SMBus could not be opened, 2 that the TCA9555 block ran
   * and an interrupt came before the PCF8574 block, and 3 or more that
   * set_p2_high completed. The GPIO scan and the wait for Enter change no
   * bus state; the wait catches an interrupt itself.
   */
  function TryBlock(bus: Bus, escapeAt: nat): (r: Bus)
    ensures Others(r.tca[REG_OUTPUT_PORT0]) == Others(bus.tca[REG_OUTPUT_PORT0])
    ensures Others(r.pcf) == Others(bus.pcf)
    ensures forall k :: 0 <= k < 8 && k != REG_CONFIG_PORT0 && k != REG_OUTPUT_PORT0 ==> r.tca[k] == bus.tca[k]
    ensures escapeAt < 3 ==> r.pcf == bus.pcf
  {
    if escapeAt == 0 then bus
    else
      var probed := TestI2cDevices(bus).1;
      if escapeAt == 1 then probed
      else if escapeAt == 2 then TcaP2High(probed).bus
      else SetP2High(probed).2
  }

  /**
   * The script: the try block, then its finally clause, cleanup, which
   * itself raises (and does nothing) when its SMBus cannot be opened. The
   * result says whether cleanup completed; whatever happened, no pin but P2
   * changed its output, and a completed cleanup leaves P2 low on both
   * expanders.
   */
  function Script(bus: Bus, escapeAt: nat, cleanupOpens: bool): (r: (bool, Bus))
    ensures !cleanupOpens ==> !r.0
    ensures r.0 ==> !HasP2(r.1.tca[REG_OUTPUT_PORT0]) && !HasP2(r.1.pcf)
    ensures Others(r.1.tca[REG_OUTPUT_PORT0]) == Others(bus.tca[REG_OUTPUT_PORT0])
    ensures Others(r.1.pcf) == Others(bus.pcf)
    ensures forall k :: 0 <= k < 8 && k != REG_CONFIG_PORT0 && k != REG_OUTPUT_PORT0 ==> r.1.tca[k] == bus.tca[k]
  {
    var tried := TryBlock(bus, escapeAt);
    if cleanupOpens then Cleanup(tried) else (false, tried)
  }

  /** A bus whose fault plan is a healthy plan with its head used up is healthy. */
  lemma HealthyAfter(bus: Bus, next: Bus)
    requires Healthy(bus) && next.faults == Consume(bus).faults
    ensures Healthy(next)
  {
    HealthyConsume(bus);
  }

  /** On a healthy bus the TCA9555 block of set_p2_high completes and the bus stays healthy. */
  lemma TcaP2HighHealthy(bus: Bus)
    requires Healthy(bus)
    ensures TcaP2High(bus).Ok? && Healthy(TcaP2High(bus).bus)
  {
    HealthyConsume(bus);
    var b1 := Consume(bus);
    HealthyConsume(b1);
    var w1 := TcaWrite(b1, REG_CONFIG_PORT0, bus.tca[REG_CONFIG_PORT0] & !P2);
    HealthyAfter(b1, w1.bus);
    HealthyConsume(w1.bus);
    var b3 := Consume(w1.bus);
    HealthyConsume(b3);
    HealthyAfter(b3, TcaP2High(bus).bus);
  }

  /** On a healthy bus the PCF8574 block of set_p2_high completes and the bus stays healthy. */
  lemma PcfP2HighHealthy(bus: Bus)
    requires Healthy(bus)
    ensures PcfP2High(bus).Ok? && Healthy(PcfP2High(bus).bus)
  {
    HealthyConsume(bus);
    HealthyConsume(Consume(bus));
    HealthyAfter(Consume(bus), PcfP2High(bus).bus);
  }

  /** On a bus where nothing fails, set_p2_high completes both blocks. */
  lemma SetP2HighHealthy(bus: Bus)
    requires Healthy(bus)
    ensures SetP2High(bus).0 && SetP2High(bus).1 && Healthy(SetP2High(bus).2)
  {
    TcaP2HighHealthy(bus);
    PcfP2HighHealthy(TcaP2High(bus).bus);
  }

  /** On a bus where nothing fails, cleanup completes. */
  lemma CleanupHealthy(bus: Bus)
    requires Healthy(bus)
    ensures Cleanup(bus).0
  {
    HealthyConsume(bus);
    var b1 := Consume(bus);
    HealthyConsume(b1);
    HealthyAfter(b1, TcaP2Low(bus).bus);
    HealthyConsume(TcaP2Low(bus).bus);
    HealthyConsume(Consume(TcaP2Low(bus).bus));
  }

  /**
   * Setting P2 high and cleaning up on a healthy bus leaves P2 low on both
   * expanders, every other output bit as it was before, and P2 configured as
   * an output on the TCA9555.
   */
  lemma SetThenCleanup(bus: Bus)
    requires Healthy(bus)
    ensures var after := Cleanup(SetP2High(bus).2);
      && after.0
      && !HasP2(after.1.tca[REG_OUTPUT_PORT0])
      && Others(after.1.tca[REG_OUTPUT_PORT0]) == Others(bus.tca[REG_OUTPUT_PORT0])
      && !HasP2(after.1.pcf) && Others(after.1.pcf) == Others(bus.pcf)
      && !HasP2(after.1.tca[REG_CONFIG_PORT0])
  {
    SetP2HighHealthy(bus);
    CleanupHealthy(SetP2High(bus).2);
  }

  /** On a healthy bus the try block, wherever it is cut short, leaves the bus healthy. */
  lemma TryBlockHealthy(bus: Bus, escapeAt: nat)
    requires Healthy(bus)
    ensures Healthy(TryBlock(bus, escapeAt))
  {
    if escapeAt > 0 {
      HealthyConsume(bus);
      HealthyConsume(Consume(bus));
      HealthyConsume(Consume(Consume(bus)));
      var probed := TestI2cDevices(bus).1;
      if escapeAt == 2 {
        TcaP2HighHealthy(probed);
      } else if escapeAt > 2 {
        SetP2HighHealthy(probed);
      }
    }
  }

  /**
   * Wherever an exception cuts the script short, on a healthy bus the
   * finally clause ends with P2 low on both expanders and the other output
   * bits untouched.
   */
  lemma ScriptRestores(bus: Bus, escapeAt: nat)
    requires Healthy(bus)
    ensures var r := Script(bus, escapeAt, true);
      && r.0
      && !HasP2(r.1.tca[REG_OUTPUT_PORT0])
      && Others(r.1.tca[REG_OUTPUT_PORT0]) == Others(bus.tca[REG_OUTPUT_PORT0])
      && !HasP2(r.1.pcf) && Others(r.1.pcf) == Others(bus.pcf)
  {
    TryBlockHealthy(bus, escapeAt);
    CleanupHealthy(TryBlock(bus, escapeAt));
  }
}
