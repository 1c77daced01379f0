/**
 * The I2C bus as the Python scripts see it through smbus2: a TCA9555 at
 * 0x20 whose eight registers return the last byte written to them, a
 * PCF8574 at 0x21 with one quasi-bidirectional port byte, and an ADS1115 at
 * 0x48 whose conversion word is whatever the caller supplies. Any
 * transaction can raise; which ones do is a fault plan the caller chooses,
 * one entry consumed per transaction (true: the transaction raises and
 * changes nothing).
 */
module I2cBus {

  /** The eight TCA9555 registers, indexed by register address 0x00 .. 0x07. */
  type Regs = s: seq<bv8> | |s| == 8 witness [0, 0, 0, 0, 0, 0, 0, 0]

  datatype Bus = Bus(tca: Regs, pcf: bv8, adsWord: bv16, faults: seq<bool>)

  /** The result of one bus transaction: a value and the bus after, or an exception. */
  datatype Io<T> = Ok(value: T, bus: Bus) | Raise(bus: Bus)

  /** Whether the next transaction raises. */
  predicate NextFails(bus: Bus)
  {
    |bus.faults| > 0 && bus.faults[0]
  }

  /** The bus after one transaction's fault entry is used up. */
  function Consume(bus: Bus): (r: Bus)
    ensures r.tca == bus.tca && r.pcf == bus.pcf && r.adsWord == bus.adsWord
    ensures r.faults == if |bus.faults| == 0 then [] else bus.faults[1..]
  {
    bus.(faults := if |bus.faults| == 0 then [] else bus.faults[1..])
  }

  /** A bus on which no further transaction raises. */
  predicate Healthy(bus: Bus)
  {
    forall i :: 0 <= i < |bus.faults| ==> !bus.faults[i]
  }

  /** `read_byte_data(0x20, reg)`: the register's last written byte. */
  function TcaRead(bus: Bus, reg: nat): (r: Io<bv8>)
    requires reg < 8
    ensures r.Ok? <==> !NextFails(bus)
    ensures r.bus == Consume(bus)
    ensures r.Ok? ==> r.value == bus.tca[reg]
  {
    if NextFails(bus) then Raise(Consume(bus)) else Ok(bus.tca[reg], Consume(bus))
  }

  /** `write_byte_data(0x20, reg, v)`: the register holds v afterwards, unless the write raises. */
  function TcaWrite(bus: Bus, reg: nat, v: bv8): (r: Io<()>)
    requires reg < 8
    ensures r.Ok? <==> !NextFails(bus)
    ensures r.Ok? ==> r.bus.tca[reg] == v
    ensures forall k :: 0 <= k < 8 && (k != reg || !r.Ok?) ==> r.bus.tca[k] == bus.tca[k]
    ensures r.bus.pcf == bus.pcf && r.bus.adsWord == bus.adsWord && r.bus.faults == Consume(bus).faults
  {
    if NextFails(bus) then Raise(Consume(bus))
    else Ok((), Consume(bus).(tca := bus.tca[reg := v]))
  }

  /** `read_byte(0x21)`: the PCF8574 port byte. */
  function PcfRead(bus: Bus): (r: Io<bv8>)
    ensures r.Ok? <==> !NextFails(bus)
    ensures r.bus == Consume(bus)
    ensures r.Ok? ==> r.value == bus.pcf
  {
    if NextFails(bus) then Raise(Consume(bus)) else Ok(bus.pcf, Consume(bus))
  }

  /** `write_byte(0x21, v)`: the PCF8574 port holds v afterwards, unless the write raises. */
  function PcfWrite(bus: Bus, v: bv8): (r: Io<()>)
    ensures r.Ok? <==> !NextFails(bus)
    ensures r.bus.pcf == if r.Ok? then v else bus.pcf
    ensures r.bus.tca == bus.tca && r.bus.adsWord == bus.adsWord && r.bus.faults == Consume(bus).faults
  {
    if NextFails(bus) then Raise(Consume(bus)) else Ok((), Consume(bus).(pcf := v))
  }

  /** `read_word_data(0x48, 0)`: the ADS1115 conversion register. */
  function AdsReadWord(bus: Bus): (r: Io<bv16>)
    ensures r.Ok? <==> !NextFails(bus)
    ensures r.bus == Consume(bus)
    ensures r.Ok? ==> r.value == bus.adsWord
  {
    if NextFails(bus) then Raise(Consume(bus)) else Ok(bus.adsWord, Consume(bus))
  }

  /** On a healthy bus every transaction succeeds and the bus stays healthy. */
  lemma HealthyConsume(bus: Bus)
    requires Healthy(bus)
    ensures !NextFails(bus) && Healthy(Consume(bus))
  {
    var c := Consume(bus);
    forall i | 0 <= i < |c.faults|
      ensures !c.faults[i]
    {
      assert c.faults[i] == bus.faults[i + 1];
    }
  }

  /** Reading a register right after writing it returns the byte written. */
  lemma ReadAfterWrite(bus: Bus, reg: nat, v: bv8)
    requires reg < 8 && Healthy(bus)
    ensures TcaWrite(bus, reg, v).Ok?
    ensures TcaRead(TcaWrite(bus, reg, v).bus, reg) == Ok(v, Consume(TcaWrite(bus, reg, v).bus))
  {
    HealthyConsume(bus);
    HealthyConsume(Consume(bus));
  }
}
