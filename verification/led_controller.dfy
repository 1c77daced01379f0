/**
 * Test/app.py, GPIOController: two LEDs on one gpiod chip, or, when gpiod
 * is missing or the hardware cannot be set up, a simulation that only keeps
 * the two states. Each LED keeps a cached state (the instance attributes
 * led1_state and led2_state, which may not exist yet) and, in hardware
 * mode, a line whose level the hardware holds. Which gpiod calls raise is a
 * parameter of each operation; logging is dropped.
 */
module LedController {

  datatype Led = Led1 | Led2

  /** An instance attribute that may not have been assigned yet. */
  datatype Cache = Unset | Cached(value: int)

  /** One LED: the cached state and the level of its gpiod line. */
  datatype LedState = LedState(cache: Cache, line: int)

  /**
   * simMode: the simulation flag. chipOpen: `self.chip` was assigned.
   * linesHeld: both line objects are set (hardware mode after a full setup).
   */
  datatype Controller = Controller(simMode: bool, led1: LedState, led2: LedState, chipOpen: bool, linesHeld: bool)

  /** What a get returned: a level, or the AttributeError of reading an unassigned cache. */
  datatype Reading = Value(value: int) | AttributeError

  function State(c: Controller, led: Led): LedState
  {
    if led == Led1 then c.led1 else c.led2
  }

  function WithState(c: Controller, led: Led, s: LedState): (r: Controller)
    ensures State(r, led) == s
    ensures r.simMode == c.simMode && r.chipOpen == c.chipOpen && r.linesHeld == c.linesHeld
    ensures forall other :: other != led ==> State(r, other) == State(c, other)
  {
    if led == Led1 then c.(led1 := s) else c.(led2 := s)
  }

  /** `1 if value else 0`: Python's truth value of an int. */
  function Normalize(value: int): (r: int)
    ensures r == 0 || r == 1
    ensures r == 1 <==> value != 0
  {
    if value != 0 then 1 else 0
  }

  /** _init_sim_mode, and the state _fallback_to_sim_mode leaves: simulation, both LEDs at 0. */
  function SimController(chipOpen: bool): (r: Controller)
    ensures r.simMode && !r.linesHeld && r.chipOpen == chipOpen
    ensures forall led :: State(r, led).cache == Cached(0)
  {
    Controller(true, LedState(Cached(0), 0), LedState(Cached(0), 0), chipOpen, false)
  }

  /**
   * _setup_gpio as written. Without gpiod: simulation. Otherwise the five
   * hardware steps (open the chip, get and request line 1, get and request
   * line 2) run until step `failAt` raises or a request returns False; any
   * failure falls back to simulation. A full setup leaves both lines at 0,
   * the requested default, and assigns no cached state.
   */
  function InitAsWritten(gpiodPresent: bool, failAt: nat): (r: Controller)
    ensures !gpiodPresent || failAt < 5 ==> r.simMode && forall led :: State(r, led).cache == Cached(0)
    ensures gpiodPresent && failAt >= 5 ==> !r.simMode && r.linesHeld && r.chipOpen
    ensures gpiodPresent ==> (r.chipOpen <==> failAt >= 1)
  {
    if !gpiodPresent then SimController(false)
    else if failAt < 5 then SimController(failAt >= 1)
    else Controller(false, LedState(Unset, 0), LedState(Unset, 0), true, true)
  }

  /**
   * _setup_gpio as evidently intended: as written, except that a full
   * hardware setup caches both states as 0, the level the lines were
   * requested with.
   */
  function Init(gpiodPresent: bool, failAt: nat): (r: Controller)
    ensures forall led :: State(r, led).cache == Cached(0)
    ensures r.simMode <==> !gpiodPresent || failAt < 5
    ensures !r.simMode ==> forall led :: State(r, led).line == 0
  {
    if !gpiodPresent || failAt < 5 then InitAsWritten(gpiodPresent, failAt)
    else Controller(false, LedState(Cached(0), 0), LedState(Cached(0), 0), true, true)
  }

  /**
   * set_led1 / set_led2. The value is normalised to 0 or 1. In simulation
   * the cached state takes it. In hardware mode the line is written, and
   * only if the write returns is the cached state updated; a write that
   * raises changes nothing.
   */
  function SetLed(c: Controller, led: Led, value: int, writeFails: bool): (r: Controller)
    ensures forall other :: other != led ==> State(r, other) == State(c, other)
    ensures r.simMode == c.simMode && r.chipOpen == c.chipOpen && r.linesHeld == c.linesHeld
    ensures c.simMode ==> State(r, led) == State(c, led).(cache := Cached(Normalize(value)))
    ensures !c.simMode && writeFails ==> r == c
    ensures !c.simMode && !writeFails ==> State(r, led) == LedState(Cached(Normalize(value)), Normalize(value))
  {
    var v := Normalize(value);
    if c.simMode then WithState(c, led, State(c, led).(cache := Cached(v)))
    else if writeFails then c
    else WithState(c, led, LedState(Cached(v), v))
  }

  /** Reading a cached state: its value, or AttributeError if it was never assigned. */
  function ReadCache(cache: Cache): (r: Reading)
    ensures r.Value? <==> cache.Cached?
    ensures r.Value? ==> r.value == cache.value
  {
    match cache
    case Cached(v) => Value(v)
    case Unset => AttributeError
  }

  /**
   * get_led1 / get_led2: the cached state in simulation; in hardware mode
   * the line's level, or the cached state when the read raises.
   */
  function GetLed(c: Controller, led: Led, readFails: bool): (r: Reading)
    ensures c.simMode || readFails ==> r == ReadCache(State(c, led).cache)
    ensures !c.simMode && !readFails ==> r == Value(State(c, led).line)
  {
    if c.simMode || readFails then ReadCache(State(c, led).cache)
    else Value(State(c, led).line)
  }

  /**
   * toggle_led1 / toggle_led2: read the current state, set 1 minus it, and
   * return that. An AttributeError from the read leaves the toggle.
   */
  function ToggleLed(c: Controller, led: Led, readFails: bool, writeFails: bool): (r: (Reading, Controller))
    ensures GetLed(c, led, readFails).AttributeError? ==> r == (AttributeError, c)
    ensures GetLed(c, led, readFails).Value? ==>
              r.0 == Value(1 - GetLed(c, led, readFails).value)
              && r.1 == SetLed(c, led, 1 - GetLed(c, led, readFails).value, writeFails)
  {
    var current := GetLed(c, led, readFails);
    if current.AttributeError? then (AttributeError, c)
    else
      var next := 1 - current.value;
      (Value(next), SetLed(c, led, next, writeFails))
  }

  /** One teardown call of cleanup. */
  datatype Teardown = ReleaseLine(led: Led) | CloseChip

  /**
   * cleanup: only in hardware mode with a chip: release each line object
   * that is set, then close the chip, in one try block; the call at index
   * `failAt` raises and ends the block.
   */
  function Cleanup(c: Controller, failAt: nat): (r: seq<Teardown>)
    ensures c.simMode || !c.chipOpen ==> r == []
    ensures !c.simMode && c.chipOpen && c.linesHeld ==>
              r == [ReleaseLine(Led1), ReleaseLine(Led2), CloseChip][..if failAt < 3 then failAt else 3]
    ensures !c.simMode && c.chipOpen && !c.linesHeld ==> r == (if failAt == 0 then [] else [CloseChip])
    ensures CloseChip in r && c.linesHeld ==> ReleaseLine(Led1) in r && ReleaseLine(Led2) in r
  {
    if c.simMode || !c.chipOpen then []
    else
      var calls := (if c.linesHeld then [ReleaseLine(Led1), ReleaseLine(Led2)] else []) + [CloseChip];
      var r := calls[..if failAt < |calls| then failAt else |calls|];
      assert CloseChip in r ==> r == calls;
      r
  }

  /** The states every operation keeps: both levels 0 or 1, a full setup behind hardware mode. */
  predicate Valid(c: Controller)
  {
    && (forall led :: State(c, led).line == 0 || State(c, led).line == 1)
    && (forall led :: State(c, led).cache.Cached? ==> State(c, led).cache.value == 0 || State(c, led).cache.value == 1)
    && (c.simMode ==> forall led :: State(c, led).cache.Cached?)
    && (!c.simMode ==> c.linesHeld && c.chipOpen)
  }

  /** Valid, and both cached states assigned. */
  predicate Cached2(c: Controller)
  {
    Valid(c) && forall led :: State(c, led).cache.Cached?
  }

  lemma InitValid(gpiodPresent: bool, failAt: nat)
    ensures Valid(InitAsWritten(gpiodPresent, failAt))
    ensures Cached2(Init(gpiodPresent, failAt))
  {
  }

  lemma SetKeepsValid(c: Controller, led: Led, value: int, writeFails: bool)
    requires Valid(c)
    ensures Valid(SetLed(c, led, value, writeFails))
    ensures Cached2(c) ==> Cached2(SetLed(c, led, value, writeFails))
  {
  }

  /** In simulation a get right after a set returns the normalised value. */
  lemma SimGetAfterSet(c: Controller, led: Led, value: int, writeFails: bool, readFails: bool)
    requires c.simMode
    ensures GetLed(SetLed(c, led, value, writeFails), led, readFails) == Value(Normalize(value))
  {
  }

  /**
   * In hardware mode a set whose write returns is seen by the next get,
   * whether that get's read returns or raises and falls back to the cache.
   */
  lemma HardwareGetAfterSet(c: Controller, led: Led, value: int, readFails: bool)
    requires !c.simMode
    ensures GetLed(SetLed(c, led, value, false), led, readFails) == Value(Normalize(value))
  {
  }

  /** A set whose hardware write raises leaves what a later failed read returns unchanged. */
  lemma FailedSetKeepsCache(c: Controller, led: Led, value: int)
    requires !c.simMode
    ensures GetLed(SetLed(c, led, value, true), led, true) == GetLed(c, led, true)
  {
  }

  /** Setting or toggling one LED never changes what the other LED reads. */
  lemma Independence(c: Controller, led: Led, other: Led, value: int, readFails: bool, writeFails: bool, otherFails: bool)
    requires other != led
    ensures GetLed(SetLed(c, led, value, writeFails), other, otherFails) == GetLed(c, other, otherFails)
    ensures GetLed(ToggleLed(c, led, readFails, writeFails).1, other, otherFails) == GetLed(c, other, otherFails)
  {
  }

  /**
   * On a valid controller, a toggle that reads a state returns its
   * complement within 0 .. 1, and (in simulation, or when the write returns)
   * the next get returns the same.
   */
  lemma ToggleFlips(c: Controller, led: Led, readFails: bool, writeFails: bool, nextFails: bool)
    requires Valid(c)
    requires GetLed(c, led, readFails).Value?
    ensures var t := ToggleLed(c, led, readFails, writeFails);
      && t.0.Value? && (t.0.value == 0 || t.0.value == 1)
      && t.0.value == 1 - GetLed(c, led, readFails).value
      && (c.simMode || !writeFails ==> GetLed(t.1, led, nextFails) == t.0)
  {
  }

  /** In simulation two toggles restore the LED's state; the result of the second is the original. */
  lemma TwoTogglesRestore(c: Controller, led: Led)
    requires Valid(c) && c.simMode
    ensures var first := ToggleLed(c, led, false, false);
      var second := ToggleLed(first.1, led, false, false);
      && second.0 == GetLed(c, led, false)
      && second.1 == c
  {
  }

  /** In hardware mode with every call returning, two toggles restore the line and the cache. */
  lemma TwoTogglesRestoreLine(c: Controller, led: Led)
    requires Valid(c) && !c.simMode && State(c, led).cache == Cached(State(c, led).line)
    ensures var second := ToggleLed(ToggleLed(c, led, false, false).1, led, false, false);
      && second.0 == Value(State(c, led).line)
      && second.1 == c
  {
  }

  /** With both states cached, no get raises: the fallback always has a value. */
  lemma GetNeverRaises(c: Controller, led: Led, readFails: bool)
    requires Cached2(c)
    ensures GetLed(c, led, readFails).Value?
  {
  }

  /**
   * As written, a full hardware setup followed by a read of LED1 that raises
   * ends in AttributeError instead of the cached state the handler means to
   * return.
   */
  lemma UnsetCacheRaises()
    ensures GetLed(InitAsWritten(true, 5), Led1, true) == AttributeError
    ensures Init(true, 5).simMode == InitAsWritten(true, 5).simMode
    ensures GetLed(Init(true, 5), Led1, true) == Value(0)
  {
  }

  /** Cleanup never touches the hardware in simulation, fallback included. */
  lemma CleanupInSim(gpiodPresent: bool, failAt: nat, cleanupFailAt: nat)
    requires !gpiodPresent || failAt < 5
    ensures Cleanup(Init(gpiodPresent, failAt), cleanupFailAt) == []
  {
  }
}
