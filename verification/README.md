# Hardware bring-up scripts of a water-analysis controller, in Dafny

The repository is a set of standalone scripts that bring up the hardware of
a water-analysis controller on a single-board computer: a bit-banged SPI
driver for a TM7705 ADC, a driver for the TCA9555 16-pin I2C expander, the
valve and stepper-pump sequences built on that driver, a GPIO-line pump
script, an I2C probe script, a Flask LED controller, a `gpioinfo` clean-up
script and a Linux kernel module that registers three I2C devices.

This project models the deterministic logic left once the GPIO, I2C, kernel
and timing calls are treated as abstract primitives, and proves properties
of it:

- **Line traces** (`Bits`, `LineTrace`): an SPI transfer is the list of
  line events it emits (`CS(v)`, `DIN(v)`, `SCK(v)`, `SampleDOUT`,
  `SampleDRDY`). A receiver model decodes the bit frames a trace carries.
- **TM7705** (`Tm7705Spi`, `Tm7705Test`): byte and n-bit shifting MSB
  first inside chip-select frames; read-back from a sequence of DOUT
  samples; the bounded DRDY poll; the configuration byte sequence; the
  gain/input-range table over reals.
- **I2C bus** (`I2cBus`): the TCA9555 registers return their last write,
  plus a PCF8574 port byte and an ADS1115 conversion word. Which
  transactions raise is a fault plan chosen by the caller.
- **TCA9555 driver** (`Tca9555`): pin-to-register mapping, read-modify-write
  of single bits and the shadowed 16-bit `output_state`.
- **Sequences** (`PinOps`, `Paishui`, `CtrlOpen`, `PumpScript`, `I2cTest`):
  - the sequences are straight-line runs of pin calls that stop at the first
    exception;
  - the time-driven pulse loops become any number of iterations.
- **LED controller** (`LedController`): simulated and hardware mode, the
  fallback, get/set/toggle and cleanup.
- **`gpioinfo` clean-up** (`GpioinfoFilter`, `ClearUnusedGpio`):
  - the `re.search` filter for a line;
  - `splitlines`;
  - chip listing in sorted order;
  - the dry-run and skip logic of `main`.
- **Kernel module** (`KernelI2c`):
  - argument checks and message framing of the read/write helpers;
  - the device tests;
  - client registration and unregistration bookkeeping.

Every I/O primitive is a parameter:

- The I2C bus carries a fault plan of `seq<bool>`.
- DRDY is a function from poll index to level.
- The pump script's steps take a fault plan of `Pass`/`Interrupt`/`Fail`.
- The LED controller takes a step index at which hardware set-up fails, plus
  per-call failure flags.
- `gpioinfo` output and user answers are functions of the chip; running a
  command is a function from its argument list to the process's exit status
  and output.
- The kernel environment holds:
  - a plan of `i2c_transfer` results;
  - a plan of `kmalloc` failures;
  - a log of the message batches sent;
  - a count of live buffers and adapter references.

## Model

| member | source | states |
|---|---|---|
| Bits.MsbValueOfBits | Adc/tm7705_test.py:129-138 | the n bits sent MSB first denote the value's low n bits, `v mod 2^n` |
| Bits.MsbValueBound | Adc/tm7705_test.py:155-163 | a value assembled from n 0/1 samples is below 2^n |
| Bits.MsbValueInjective | Adc/tm7705_test.py:155-163 | two sample strings of one length that assemble to one value are the same string |
| Bits.OrAppendsBit | Adc/tm7705_spi.py:110-113 | `value \|= bit << i` on the bits read so far appends the new bit to the MSB-first value |
| Bits.ByteRoundTrip | Adc/tm7705_spi.py:83-86 | a byte shifted out as 8 bits MSB first and assembled back is the same byte |
| LineTrace.WriteFrameShape | Adc/tm7705_spi.py:77-97 | a write frame starts with CS low and ends with CS high, with no other CS event between; the k-th pulse sets DIN to bit k, then raises SCK, then lowers it; exactly one rising SCK edge per bit; every SCK high is followed by SCK low; the DIN levels are the bits |
| LineTrace.ReadFrameShape | Adc/tm7705_spi.py:99-122 | a read frame is CS low, n pulses each sampling DOUT while SCK is high, then CS high; n rising edges; SCK returns low |
| LineTrace.WriteFrameReceived | Adc/tm7705_test.py:120-140 | a receiver in any state decodes a write frame as exactly its bit string |
| LineTrace.WriteFramesReceived | Adc/tm7705_test.py:183-221 | back-to-back write frames are decoded as their bit strings, in order |
| LineTrace.PollsUnseen | Adc/tm7705_test.py:169-181 | DRDY polls between frames change nothing the receiver decodes |
| LineTrace.FramesAroundPolls | Adc/tm7705_test.py:195-218 | frames before and after a DRDY wait are decoded as exactly those frames, whatever the number of polls |
| Tm7705Spi.SpiWriteByte | Adc/tm7705_spi.py:77-97 | the trace is the write frame of the byte's 8 low bits, MSB first |
| Tm7705Spi.WriteByteFrame | Adc/tm7705_spi.py:83-89 | the DIN level before the k-th rising edge is bit 7-k of the value; only the low 8 bits reach the line |
| Tm7705Spi.SpiReadByte | Adc/tm7705_spi.py:99-122 | the result is the MSB-first value of the 8 DOUT samples, below 256, and the trace is an 8-bit read frame |
| Tm7705Spi.Loopback | Adc/tm7705_spi.py:83-113 | feeding the DIN levels of a byte write back as DOUT makes the read return the byte (its low 8 bits) |
| Tm7705Spi.WaitForReady | Adc/tm7705_spi.py:124-131 | returns ready exactly when some sample within the budget is low; then it stopped at the first low sample; otherwise it used the whole budget |
| Tm7705Spi.CalculateVoltageRange | Adc/tm7705_spi.py:133-149 | gain 0 raises ZeroDivisionError and only gain 0 does; otherwise max·gain = VREF, min is 0 when unipolar and -max when bipolar |
| Tm7705Spi.GainOptionsArePowersOfTwo | Adc/tm7705_spi.py:157 | the offered gains are 2^0 .. 2^7 in order |
| Tm7705Spi.MaxVoltageDecreasing | Adc/tm7705_spi.py:133-149 | a larger positive gain gives a strictly smaller full-scale voltage, in both polarities |
| Tm7705Spi.GainMenuRangesShrink | Adc/tm7705_spi.py:151-163 | along the gain menu every later entry has a strictly smaller range |
| Tm7705Test.SendBit | Adc/tm7705_test.py:94-105 | one bit is DIN set to the bit, then SCK high, then SCK low: one rising edge, clock back low |
| Tm7705Test.ReceiveBit | Adc/tm7705_test.py:107-118 | the returned bit is the DOUT sample taken while SCK is high, in one clock pulse |
| Tm7705Test.SendCommand | Adc/tm7705_test.py:120-140 | one CS frame carrying bit n-1-i of the command at step i; the receiver decodes the command modulo 2^n |
| Tm7705Test.ReadCommandValue | Adc/tm7705_test.py:151 | the read command `DATA_ADDR \| 0x08` is 0x68 |
| Tm7705Test.ReadRegister | Adc/tm7705_test.py:142-167 | sends 0x68 in its own frame, then reads n bits in a second frame; the result is the MSB-first value of the samples and below 2^n |
| Tm7705Test.WaitForDrdyLow | Adc/tm7705_test.py:169-181 | up to 1 000 001 DRDY reads, one more than the counter's limit because the line is read before the counter is tested; stops at the first low sample; reports a timeout exactly when the first 1 000 000 samples are all high, without raising |
| Tm7705Test.Configure | Adc/tm7705_test.py:183-221 | the device receives 0x40, 0x10, 0x20, 0x00, 0x20, 0x20, 0x20, 0x00 in that order, with the DRDY wait between the sixth and the seventh byte |
| Tm7705Test.CommandFramesValues | Adc/tm7705_test.py:195-218 | byte-wide command frames decode back to the bytes they came from |
| I2cBus.TcaWrite | WaterAnaly/controller/lib/TCA9555.py:114-115 | a register write that does not raise leaves exactly that register holding the byte; one that raises changes no register; the PCF8574 port and the ADS1115 word are never touched |
| I2cBus.ReadAfterWrite | WaterAnaly/controller/lib/TCA9555.py:188-191 | on a bus where nothing fails, reading a register after writing it returns the byte written |
| I2cBus.HealthyConsume | WaterAnaly/controller/lib/TCA9555.py:94-127 | on a healthy bus every transaction succeeds and the bus stays healthy |
| Tca9555.PinFromSlot | WaterAnaly/controller/lib/TCA9555.py:78-79 | for pins 0 .. 15 the port (0x02/0x06 for pins below 8, 0x03/0x07 above) and bit `pin % 8` give the pin back, and configuration and output register are on the same port |
| Tca9555.SlotsDistinct | WaterAnaly/controller/lib/TCA9555.py:78-79 | pins 0 .. 15 address 16 different (register, bit) slots |
| Tca9555.ConfigurePinOutput | WaterAnaly/controller/lib/TCA9555.py:68-92 | a pin above 15 raises ValueError before any access; on success only the pin's bit of its configuration register is cleared; an I/O failure raises and changes no register |
| Tca9555.SetBit | WaterAnaly/controller/lib/TCA9555.py:114 | OR-ing the mask sets exactly bit i and keeps every other bit |
| Tca9555.ClearBit | WaterAnaly/controller/lib/TCA9555.py:149 | AND-ing with the inverted mask clears exactly bit i and keeps every other bit |
| Tca9555.ShadowUpdate | WaterAnaly/controller/lib/TCA9555.py:118-121 | the shadow update replaces only the affected port's byte of the 16-bit state |
| Tca9555.SetPin | WaterAnaly/controller/lib/TCA9555.py:94-162 | a pin above 15 raises ValueError with nothing touched; any other exception is an IOError; an exception leaves the shadow unchanged |
| Tca9555.SetPinHigh | WaterAnaly/controller/lib/TCA9555.py:94-127 | when set-high returns, the pin drives high; pin above 15 raises ValueError |
| Tca9555.SetPinLow | WaterAnaly/controller/lib/TCA9555.py:129-162 | when set-low returns, the pin drives low; pin above 15 raises ValueError |
| Tca9555.SetPinSucceeds | WaterAnaly/controller/lib/TCA9555.py:99-100 | on a bus where nothing fails, set-high and set-low return exactly when the pin is at most 15, negative pins included |
| Tca9555.SetPinEffect | WaterAnaly/controller/lib/TCA9555.py:104-121 | after a set that returns, the pin has the requested level and every pin in another slot keeps its level |
| Tca9555.SetPinIdempotent | WaterAnaly/controller/lib/TCA9555.py:94-162 | setting a pin to a level twice leaves the registers and shadow as setting it once |
| Tca9555.SetPinKeepsSync | WaterAnaly/controller/lib/TCA9555.py:118-121 | whether a set returns or raises, a shadow that agrees with both output registers keeps agreeing |
| Tca9555.ShadowTellsLevel | WaterAnaly/controller/lib/TCA9555.py:118-121 | in a shadow that agrees with the registers, bit p is pin p's level |
| Tca9555.IsValveOpen | WaterAnaly/controller/lib/TCA9555.py:180-194 | True only when the pin drives high; when the read does not fail, exactly the pin's level |
| Tca9555.SetThenRead | WaterAnaly/controller/lib/TCA9555.py:188-191 | is_valve_open right after setting a pin reports the level set |
| Tca9555.Init | WaterAnaly/controller/lib/TCA9555.py:33-65 | a driver exists exactly when the SMBus opens, since a failed open is re-raised; then the shadow starts at 0x0000 and the probe read of input port 0 takes one bus transaction and changes no register, whether or not it fails |
| Tca9555.SetPinChecked | WaterAnaly/controller/lib/TCA9555.py:94-162 | the set with the guard corrected: a pin outside 0 .. 15 raises ValueError with nothing touched; any pin in range behaves as the driver's own set |
| Tca9555.Cleanup | WaterAnaly/controller/lib/TCA9555.py:196-208 | each output port whose write is reached and succeeds ends at 0x00; a failing write leaves its port as it was, and a failing first write stops the attempt; the configuration and input registers, the PCF8574 and the ADS1115 are never touched |
| Tca9555.OpenSolenoidValve | WaterAnaly/controller/lib/TCA9555.py:164-170 | when it returns, the valve pin drives high |
| Tca9555.CloseSolenoidValve | WaterAnaly/controller/lib/TCA9555.py:172-178 | when it returns, the valve pin drives low |
| Tca9555.NegativePinAliases | WaterAnaly/controller/lib/TCA9555.py:99-100 | as written, pin -1 passes the guard and drives pin 7; the checked set rejects it with ValueError |
| Tca9555.SetPinCheckedSucceeds | WaterAnaly/controller/lib/TCA9555.py:99-121 | with the guard rejecting both ends, a set on a healthy bus returns exactly for pins 0 .. 15, sets that pin and keeps every other pin 0 .. 15 |
| PinOps.Run | WaterAnaly/controller/src/paishui.py:41-47 | a run of checked pin calls returns only when every call's pin is in 0 .. 15 and never touches the PCF8574 |
| PinOps.RunAsWritten | WaterAnaly/controller/src/paishui.py:41-47 | the run through the driver's set as written returns only when every pin is at most 15 and never touches the PCF8574 |
| PinOps.RunAsWrittenAgrees | WaterAnaly/controller/src/paishui.py:41-57 | for a list without negative pins, the run as written and the checked run are the same |
| PinOps.RunEffect | WaterAnaly/controller/src/paishui.py:41-57 | after a run that returns, every pin has the level of its last call, and every pin no call addresses keeps its level |
| PinOps.RunAppend | WaterAnaly/controller/src/main.py:52-98 | running two lists in sequence is running their concatenation, stopping at the first exception |
| PinOps.RunSucceeds | WaterAnaly/controller/src/paishui.py:81-123 | on a healthy bus a run returns exactly when all its pins are in 0 .. 15 |
| PinOps.PulsesEndLow | WaterAnaly/controller/src/paishui.py:108-114 | after any positive number of step iterations the pulse pin was last set low |
| PinOps.LastLevelAppend | WaterAnaly/controller/src/main.py:52-98 | the last level of a concatenation on a pin is the second part's, if it addresses the pin, otherwise the first part's |
| Paishui.TargetFrequency | WaterAnaly/controller/src/paishui.py:21-23 | 300 rpm at 800 steps per revolution is 4000 pulses per second |
| Paishui.CloseAll | WaterAnaly/controller/src/paishui.py:41-47 | returns on a healthy bus; when it returns pins 1 .. 6 are low and every other pin 0 .. 15 is as before |
| Paishui.CloseAllEffect | WaterAnaly/controller/src/paishui.py:41-47 | when close_all's six calls return, pins 1 .. 6 are low and every other pin 0 .. 15 is as before |
| Paishui.CtrlDissolver | WaterAnaly/controller/src/paishui.py:49-57 | an argument other than 0 or 1 changes nothing |
| Paishui.CtrlDissolverEffect | WaterAnaly/controller/src/paishui.py:49-57 | with 1 pins 1, 2, 3 end high, with 0 low; every other pin keeps its level |
| Paishui.PumpControl | WaterAnaly/controller/src/paishui.py:60-133 | returns True exactly when the pin sequence completes, then with ENA (pin 12) high; on an exception it returns False, with ENA high when the handler's write succeeded |
| Paishui.PumpSetupState | WaterAnaly/controller/src/paishui.py:84-100 | before the first pulse DIR (pin 11) is high exactly when direction is 1, ENA and PUL are low |
| Paishui.PumpControlSuccess | WaterAnaly/controller/src/paishui.py:84-123 | on success PUL is low, DIR is high exactly for direction 1, ENA is high, and pins other than 10 .. 12 keep their levels |
| Paishui.PumpControlHealthy | WaterAnaly/controller/src/paishui.py:60-123 | on a bus where nothing fails pump_control returns True |
| Paishui.Drain | WaterAnaly/controller/src/paishui.py:180-185 | the drain sequence, when it returns, leaves the waste valve (pin 6) closed |
| Paishui.DrainCloses | WaterAnaly/controller/src/paishui.py:179-185 | on a healthy bus the drain completes with valves 1 .. 3 and 6 closed, ENA high, PUL and DIR low |
| CtrlOpen.CtrlOpen | WaterAnaly/controller/src/main.py:41-104 | when the cycle's calls complete, that is the result, otherwise the handler drives ENA high; on return ENA is high |
| CtrlOpen.ForwardPhaseState | WaterAnaly/controller/src/main.py:56-69 | after the forward phase DIR is high and ENA low; PUL is low after any pulse and as before without one |
| CtrlOpen.ReversePhaseState | WaterAnaly/controller/src/main.py:73-93 | after the stop and reverse phases the stop phase's disable has been undone: ENA is low and DIR low; PUL is low after any pulse |
| CtrlOpen.CycleLastLevels | WaterAnaly/controller/src/main.py:56-98 | the cycle's last word on each pin is ENA high, DIR low, PUL low after any pulse, and nothing on the other pins |
| CtrlOpen.CtrlOpenCompletes | WaterAnaly/controller/src/main.py:81-98 | a completed cycle ends with ENA high, DIR low, PUL low (or as before without pulses) and every other pin unchanged |
| CtrlOpen.CtrlOpenHealthy | WaterAnaly/controller/src/main.py:41-104 | on a bus where nothing fails the whole cycle completes |
| I2cTest.TestI2cDevices | I2C/i2cteset.py:22-44 | all three devices are probed, in order, whatever the earlier probes did; each reports the value read or its own failure |
| I2cTest.TcaP2High | I2C/i2cteset.py:53-77 | on success P2 is an output and drives high; the other bits of both registers and every other register are kept; a failure leaves the output register as it was |
| I2cTest.PcfP2High | I2C/i2cteset.py:81-92 | on success P2 is set and the other seven port bits are as before; a failure leaves the port unchanged |
| I2cTest.SetP2High | I2C/i2cteset.py:46-94 | a completed TCA9555 block leaves P2 an output driving high; a completed PCF8574 block leaves its P2 high, a failed one the port as it was; no other pin of either device changes |
| I2cTest.PcfBlockIndependent | I2C/i2cteset.py:79-92 | the PCF8574 block completes whenever the bus is healthy after the TCA9555 block, whether or not that block raised |
| I2cTest.TcaFailureStillDrivesPcf | I2C/i2cteset.py:76-92 | when the TCA9555's first read raises, P2 on the PCF8574 still goes high and the TCA9555 registers stay as they were |
| I2cTest.ClearP2 | I2C/i2cteset.py:136-145 | clearing bit 2 leaves P2 low and the other seven bits as they were |
| I2cTest.SetP2 | I2C/i2cteset.py:59-88 | setting bit 2 leaves P2 high and the other seven bits as they were |
| I2cTest.Cleanup | I2C/i2cteset.py:129-150 | succeeds exactly when both writes do, then P2 is low on both devices; the other bits of both are never changed |
| I2cTest.SetThenCleanup | I2C/i2cteset.py:46-150 | on a healthy bus set-then-cleanup leaves P2 low on both expanders and every other bit as before |
| I2cTest.TryBlock | I2C/i2cteset.py:155-166 | wherever an exception cuts the try block short, no output pin but P2 changes, and nothing reaches the PCF8574 before set_p2_high's second block |
| I2cTest.Script | I2C/i2cteset.py:129-170 | wherever the try block ended, a cleanup whose SMBus cannot be opened does not complete, and a completed one leaves P2 low on both expanders; no output pin but P2 ever changes |
| I2cTest.ScriptRestores | I2C/i2cteset.py:152-170 | wherever an exception cuts the script short, on a healthy bus the finally clause ends with P2 low on both expanders and the other output bits untouched |
| PumpScript.Script | pump/pump_control.py:41-100 | the script completes exactly when no step of the try block raises |
| PumpScript.Handler | pump/pump_control.py:85-92 | a KeyboardInterrupt writes ENA = 1 only when the ENA line was obtained; any other exception writes nothing |
| PumpScript.Finally | pump/pump_control.py:94-100 | the finally clause releases exactly the lines obtained and closes exactly the chips opened, and sets no level |
| PumpScript.SetupLastLevel | pump/pump_control.py:56-58 | the lines are requested with PUL 0, DIR 1, ENA 0 |
| PumpScript.PulsesLastLevel | pump/pump_control.py:69-77 | after any positive number of iterations PUL was last set to 0, and no iteration touches DIR or ENA |
| PumpScript.CompletedRun | pump/pump_control.py:41-100 | a completed run ends with PUL 0, DIR 1, ENA 1, every line released and both chips closed |
| PumpScript.InterruptDisables | pump/pump_control.py:85-88 | an interrupt after ENA was obtained leaves ENA last set to 1 |
| PumpScript.FailureStopsCalls | pump/pump_control.py:90-92 | after any other exception no call is made except the releases and closes of the finally clause |
| PumpScript.ReleasesWhatItTook | pump/pump_control.py:94-100 | whatever happens, a line is released exactly when it was obtained and a chip closed exactly when it was opened |
| PumpScript.TargetFrequency | pump/pump_control.py:16-26 | 300 rpm at 800 steps per revolution is 4000 pulses per second |
| LedController.Normalize | Test/app.py:101 | the stored value is 1 exactly for a non-zero argument, otherwise 0 |
| LedController.SimController | Test/app.py:39-46 | simulation mode with both LEDs at 0 |
| LedController.InitAsWritten | Test/app.py:30-97 | without gpiod, or when set-up fails, the controller is simulated with both LEDs at 0; after a full set-up it holds the chip and lines |
| LedController.Init | Test/app.py:30-97 | every path leaves both cached states at 0, hardware mode only after a full set-up with both lines at 0 |
| LedController.SetLed | Test/app.py:99-131 | in simulation the cache gets the normalised value; in hardware the cache changes only after a successful write; the other LED is never touched |
| LedController.SimGetAfterSet | Test/app.py:105-149 | in simulation a get right after a set returns the normalised value |
| LedController.HardwareGetAfterSet | Test/app.py:109-144 | in hardware mode a successful set is seen by the next get, by line or by cache |
| LedController.Independence | Test/app.py:99-173 | setting or toggling one LED never changes what the other reads |
| LedController.ToggleFlips | Test/app.py:159-173 | a toggle returns 1 minus the current value and a following get sees it |
| LedController.ToggleLed | Test/app.py:159-173 | a get that raises AttributeError propagates with nothing changed; otherwise the result is 1 minus the value read, and that value is set |
| LedController.TwoTogglesRestore | Test/app.py:159-173 | in simulation two toggles restore the LED, and the second returns the original value |
| LedController.GetNeverRaises | Test/app.py:138-157 | with both caches assigned, no get raises |
| LedController.UnsetCacheRaises | Test/app.py:48-73 | as written, hardware mode leaves the cache unassigned, so a get whose line read fails raises AttributeError; the corrected set-up returns 0 |
| LedController.Cleanup | Test/app.py:175-186 | nothing in simulation or without a chip; otherwise line 1 and line 2 are released (when held) and then the chip closed, in that order, stopping at the call that raises; the chip is closed only after both held lines were released |
| LedController.CleanupInSim | Test/app.py:175-186 | cleanup does nothing in simulation, fallback included |
| GpioinfoFilter.ScanAt | Test/clear_unused_gpio.py:30 | the scan at a position succeeds exactly when the pattern matches there, and yields the number after `line` |
| GpioinfoFilter.SearchNone | Test/clear_unused_gpio.py:30 | the search from a position finds nothing exactly when the pattern matches at no later position |
| GpioinfoFilter.MatchLineLeftmost | Test/clear_unused_gpio.py:30-32 | a line's value is the number of the leftmost match |
| GpioinfoFilter.MatchLineNone | Test/clear_unused_gpio.py:30-32 | a line contributes nothing exactly when the pattern matches nowhere in it |
| GpioinfoFilter.ParseLinesAppend | Test/clear_unused_gpio.py:29-33 | the filter keeps line order: the filter of a concatenation is the concatenation of the filters |
| GpioinfoFilter.ParseOneLine | Test/clear_unused_gpio.py:29-33 | each line contributes exactly its match, if any |
| ClearUnusedGpio.SortStrings | Test/clear_unused_gpio.py:20 | the result is sorted and a permutation of the input |
| ClearUnusedGpio.ListChips | Test/clear_unused_gpio.py:16-20 | the chip names are the `gpiochip*` entries, each as often as listed, in sorted order |
| ClearUnusedGpio.SortedPermutationUnique | Test/clear_unused_gpio.py:16-20 | any sorted permutation of the entries is the list list_chips returns |
| ClearUnusedGpio.LexLeTotal | Test/clear_unused_gpio.py:20 | string comparison orders every pair one way or the other |
| ClearUnusedGpio.LexLeTransitive | Test/clear_unused_gpio.py:20 | string comparison is transitive |
| ClearUnusedGpio.SplitLines | Test/clear_unused_gpio.py:29 | no line contains a line-break character; empty output has no lines |
| ClearUnusedGpio.SplitLinesNewline | Test/clear_unused_gpio.py:29 | a line ended by a newline is split off as it is |
| ClearUnusedGpio.ParseGpioinfoLines | Test/clear_unused_gpio.py:22-33 | gpioinfo's output is read line by line: a first line ended by a newline contributes its match ahead of the rest's, a last line without a break only its match |
| ClearUnusedGpio.LineMatch | Test/clear_unused_gpio.py:30-32 | a line contributes at most one number, and none exactly when the pattern matches nowhere in it |
| ClearUnusedGpio.NatToStringRoundTrip | Test/clear_unused_gpio.py:36 | the printed line number reads back as the number |
| ClearUnusedGpio.GpiosetCommandParses | Test/clear_unused_gpio.py:36 | the command is `sudo gpioset` on the chip, with an argument gpioset reads as assigning 0 to exactly that line |
| ClearUnusedGpio.SetLineZero | Test/clear_unused_gpio.py:35-38 | runs `sudo gpioset <chip> <line>=0`; success exactly when that process exits with 0; the message is its stdout followed by its stderr |
| ClearUnusedGpio.Strip | Test/clear_unused_gpio.py:53 | the stripped answer is the slice of the input left after removing all leading and all trailing whitespace, so it has none at either end |
| ClearUnusedGpio.LineActions | Test/clear_unused_gpio.py:57-65 | one action per line, in order, on that chip and line; a dry announcement exactly in dry mode; a set succeeds exactly when the gpioset process for that line exits with 0 |
| ClearUnusedGpio.ChipActions | Test/clear_unused_gpio.py:46-65 | a chip without unused output lines or without a yes gets no action; otherwise one action per listed line, in gpioinfo's order, each the announcement or the gpioset call for that line |
| ClearUnusedGpio.ChipsActionsAppend | Test/clear_unused_gpio.py:46 | chips are handled one after another: the actions for two lists of chips are the first list's followed by the second's |
| ClearUnusedGpio.Main | Test/clear_unused_gpio.py:40-44 | without chips main does nothing |
| ClearUnusedGpio.MainSelected | Test/clear_unused_gpio.py:40-65 | every action is on a listed gpiochip that was answered yes, on one of its unused output lines, and is a dry announcement exactly in dry mode |
| ClearUnusedGpio.MainComplete | Test/clear_unused_gpio.py:40-65 | every unused output line of every gpiochip entry answered yes gets its action: the announcement in dry mode, otherwise the gpioset call with its result |
| ClearUnusedGpio.DryRunNeverSets | Test/clear_unused_gpio.py:57-60 | in dry mode gpioset is never called |
| KernelI2c.ReadFrame | I2C/i2c_devices_register.c:86-95 | a read is two messages to the client: a 1-byte write of the register, then a read whose `__u16` length is len modulo 2^16, so exactly len below 65536 |
| KernelI2c.WriteFrame | I2C/i2c_devices_register.c:137-147 | a write is one message, flags 0, carrying the register followed by the data; its `__u16` length is the byte count modulo 2^16, so it counts the bytes only below 65536 |
| KernelI2c.DeviceRead | I2C/i2c_devices_register.c:74-106 | a NULL client or buffer or len ≤ 0 gives -EINVAL with nothing sent; otherwise the frame is sent, a negative result is returned unchanged and any other result gives 0 |
| KernelI2c.DeviceWrite | I2C/i2c_devices_register.c:117-157 | bad arguments give -EINVAL with nothing sent; an allocation failure gives -ENOMEM with nothing sent; otherwise the frame is sent and the result handled as for reads; the buffer is freed on every path |
| KernelI2c.HelperResults | I2C/i2c_devices_register.c:74-157 | the helpers return only 0, -EINVAL, -ENOMEM or a negative transfer error |
| KernelI2c.FramesWellFormed | I2C/i2c_devices_register.c:86-147 | every message either helper sends is addressed to the client; a write's length counts its len + 1 bytes and a read's is len while they fit 16 bits, and both wrap to 0 at 65536 |
| KernelI2c.TcaTest | I2C/i2c_devices_register.c:164-191 | -ENODEV with nothing sent without a client; otherwise sends the read of input port 0, then the read of port 1 only if the first transfer did not fail; fails exactly when a transfer it made failed |
| KernelI2c.PcfTest | I2C/i2c_devices_register.c:198-226 | -ENODEV with nothing sent without a client; otherwise sends the port read, then the one-message write of 0x01 only after a read that did not fail and a buffer that could be allocated (else -ENOMEM); 0 exactly when both steps succeeded |
| KernelI2c.AdsTest | I2C/i2c_devices_register.c:233-254 | -ENODEV with nothing sent without a client; otherwise sends exactly the two-byte read of register 0, and returns 0 exactly when that transfer did not fail |
| KernelI2c.Register | I2C/i2c_devices_register.c:279-313 | a registration that succeeds adds the device and keeps its pointer; one that fails leaves the pointer NULL and the bus as it was |
| KernelI2c.RunTests | I2C/i2c_devices_register.c:323-330 | the tests only append to the log; with no client registered nothing happens |
| KernelI2c.RunTestsSends | I2C/i2c_devices_register.c:323-330 | every message the tests send is addressed to a non-NULL client, so a NULL client's test sends nothing; every non-NULL client receives at least its test's first read |
| KernelI2c.TestsSend | I2C/i2c_devices_register.c:164-254 | each test on a client sends at least one batch, the first being its first read, and every message to that client |
| KernelI2c.Init | I2C/i2c_devices_register.c:261-335 | without an adapter -ENODEV and nothing changes; otherwise 0, each pointer set exactly when its registration succeeded, the adapter reference released and no buffer leaked |
| KernelI2c.Exit | I2C/i2c_devices_register.c:342-368 | every non-NULL client is unregistered, its device removed, and all three pointers end NULL |
| KernelI2c.InitDevices | I2C/i2c_devices_register.c:279-313 | loading adds to the bus exactly the devices whose pointers it keeps |
| KernelI2c.InitExitRestores | I2C/i2c_devices_register.c:261-368 | loading then unloading leaves the module and the bus as they were |
| KernelI2c.ExitIdempotent | I2C/i2c_devices_register.c:342-368 | unloading a second time unregisters nothing |
| KernelI2c.InitWithoutDevicesIsSilent | I2C/i2c_devices_register.c:323-330 | with no device registered, loading sends nothing on the bus |

## Left out

- Sleeps, wall-clock durations and the time-driven loops: each pulse or poll loop is a count of iterations, and a time-limited DRDY wait is a poll budget.
- Printing and logging, which have no effect on the modelled state.
- `spi_init`, `initialize_gpio` and GPIO clean-up in the TM7705 scripts: they only request lines and release them through the GPIO library.
- The `main` of Adc/tm7705_test.py and its voltage conversion, which is floating point and ignores the gain; `get_user_gain_selection` and the other interactive menus.
- `main` of WaterAnaly/controller/src/main.py (lines 109-127) and the identical `main` of WaterAnaly/controller/src/paishui.py (lines 138-156): endless loops over the ADS1115 library; Lib_ADS1115 is not part of this model.
- `test_gpio_chips` and `wait_for_user` in I2C/i2cteset.py: directory listing and a keyboard wait.
- The Flask routes and templates of Test/app.py.
- The `input()` prompts of Test/clear_unused_gpio.py become a function from chip to answer; the pause before exit is left out.
- The regex classes `\s`, `\d`, `\w` and `str.strip` are modelled on ASCII only; Unicode whitespace and digits are left out.
- The gpiod library's own behaviour, such as refusing a write to a line that was not requested, is not modelled; a failing call is a fault-plan entry.
- `i2c_transfer` is a planned result: a short positive count is treated as success, as the helpers do, and the bytes read are left out because the tests only print them.
- The C `int` overflow of `len + 1` at `INT_MAX` in `i2c_device_write` is not modelled; the truncation of lengths into the `__u16` field of `struct i2c_msg` is.
- `ClearUnusedGpio.ParseGpioinfo`: only a non-zero exit of `gpioinfo` (CalledProcessError, caught at Test/clear_unused_gpio.py:25) is modelled; a missing `gpioinfo` binary (FileNotFoundError) or output that does not decode (UnicodeDecodeError) raises out of `main`, since the script catches only KeyboardInterrupt (lines 69-74), and the model has no such outcome.
- `ClearUnusedGpio.SetLineZero`: the runner always hands back a finished process; when `subprocess.run` itself raises (no `sudo` on the path, line 37) the exception ends `main` at that line, and `ClearUnusedGpio.Main` and `ClearUnusedGpio.MainComplete` state nothing about that path.
- `ClearUnusedGpio.Main`: an `input()` that meets end of input raises EOFError out of `main`; answers are a total function from chip to text.
- Concurrency and kernel locking around the module's globals are left out; the module is modelled as loaded and unloaded one call at a time.
- Closing the smbus handle in `cleanup` and the `__del__` hook: the model has no bus handle to close.
- `CtrlOpen.CtrlOpen`: a KeyboardInterrupt inside `ctrl_open` is not caught by its `except Exception` and is not modelled; a failure of the handler's own write propagates.
- `Paishui.PumpControl`: a KeyboardInterrupt during the pulse loop is not caught by its `except Exception` (WaterAnaly/controller/src/paishui.py:125), so it leaves ENA (pin 12) low with the motor enabled; the model has no interrupt and states nothing about that path.
- `PinOps.Run`: every sequence runs on the driver's set with the guard corrected to reject negative pins; the scripts call the driver as written, and `PinOps.RunAsWrittenAgrees` shows the two runs are the same for their pin lists, which hold only non-negative constants.
- `I2cTest.Script`: an exception or interrupt escaping the try block is modelled only at the boundaries of the probe, the TCA9555 block and the PCF8574 block; one in the middle of a block is not.
- `Paishui.PumpControl`, `CtrlOpen.CtrlOpen`: the exception handlers call the driver as written with the constant pin 12, where the as-written and the corrected guard agree.
- `LedController.InitAsWritten`: the fallback after the chip was opened leaves the chip open; the model records this in `chipOpen` but states nothing about the leak.
- `Paishui.TargetFrequency`, `PumpScript.TargetFrequency`: the frequency is a real number; the pulse loops do not use it because they are counted.

## Findings

| source | as written | input that shows it | evidently intended | confidence | as-written member | corrected member |
|---|---|---|---|---|---|---|
| WaterAnaly/controller/lib/TCA9555.py:99-100 | the guard rejects only `pin > 15`, and `pin % 8` floors, so a negative pin addresses another pin | pin -1: accepted, and drives pin 7 (port 0, bit 7) | reject every pin outside 0 .. 15 with ValueError | not executed | Tca9555.NegativePinAliases | Tca9555.SetPinCheckedSucceeds |
| Test/app.py:48-73 | hardware mode never assigns the cached LED states, yet the get fallback reads them | full hardware set-up, then `get_led1` whose line read raises: AttributeError | both cached states start at 0, as in simulation | not executed | LedController.UnsetCacheRaises | LedController.GetNeverRaises |
| WaterAnaly/controller/src/paishui.py:179 | a bare name `排水` starts the `__main__` block and raises NameError before any pin call | running the module as a script | run the drain sequence that follows the label | not executed | Paishui.MainAsWritten | Paishui.DrainCloses |
