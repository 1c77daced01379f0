/**
 * pump/pump_control.py: the stand-alone stepper-pump script on two gpiod
 * chips. It opens both chips, takes the PUL, DIR and ENA lines, requests
 * them as outputs (PUL 0, DIR 1 for forward, ENA 0 for enabled), sends the
 * pulses, disables the motor, and in its finally clause releases whatever it
 * obtained. Each gpiod call is a step that can raise; a fault plan the
 * caller chooses says which step raises and whether with KeyboardInterrupt
 * or another exception. The five-second pulse loop becomes any number of
 * pulses; sleeps and printing are dropped.
 */
module PumpScript {
  import opened Wrappers

  const CHIP_PUL_ENA_NAME: string := "gpiochip1"
  const CHIP_DIR_NAME: string := "gpiochip3"
  const LINE_PUL: nat := 1
  const LINE_DIR: nat := 5
  const LINE_ENA: nat := 0

  const SUBDIVISION: int := 800
  const TARGET_RPM: int := 300
  const RUN_TIME_SEC: int := 5
  /** Step pulses per second: `(TARGET_RPM * SUBDIVISION) / 60.0`. */
  const TARGET_FREQ: real := (TARGET_RPM * SUBDIVISION) as real / 60.0

  datatype Chip = PulEnaChip | DirChip
  datatype Line = PulLine | DirLine | EnaLine

  /**
   * A gpiod call that returned: the four kinds the try block makes, and the
   * releases and closes of the finally clause.
   */
  datatype Event =
    | OpenChip(chip: Chip)
    | GetLine(line: Line)
    | RequestLine(line: Line, level: int)
    | SetValue(line: Line, level: int)
    | Release(line: Line)
    | Close(chip: Chip)

  /** A call of the try block or of a handler, as opposed to the finally clause. */
  predicate IsCall(e: Event)
  {
    !e.Release? && !e.Close?
  }

  /** How the script ended. Escaped: the interrupt handler's own write raised. */
  datatype Ending = Completed | Interrupted | Failed | Escaped

  /** What a step does when it runs: returns, raises KeyboardInterrupt, or raises anything else. */
  datatype Fault = Pass | Interrupt | Fail

  /** The chip device a line belongs to. */
  function ChipOf(line: Line): (c: Chip)
    ensures c == DirChip <==> line == DirLine
  {
    if line == DirLine then DirChip else PulEnaChip
  }

  function ChipPath(chip: Chip): string
  {
    "/dev/" + if chip == PulEnaChip then CHIP_PUL_ENA_NAME else CHIP_DIR_NAME
  }

  function Offset(line: Line): nat
  {
    match line
    case PulLine => LINE_PUL
    case DirLine => LINE_DIR
    case EnaLine => LINE_ENA
  }

  /** The three lines are three different offsets on their chips. */
  lemma LinesDistinct(a: Line, b: Line)
    requires ChipOf(a) == ChipOf(b) && Offset(a) == Offset(b)
    ensures a == b
  {
  }

  /** 300 rpm at 800 steps per revolution is 4000 pulses per second. */
  lemma TargetFrequency()
    ensures TARGET_FREQ == 4000.0
  {
  }

  /** Opening, getting and requesting, in the script's order. */
  const SetupSteps: seq<Event> := [
    OpenChip(PulEnaChip), OpenChip(DirChip),
    GetLine(PulLine), GetLine(DirLine), GetLine(EnaLine),
    RequestLine(PulLine, 0), RequestLine(DirLine, 1), RequestLine(EnaLine, 0)
  ]

  /** `pulses` iterations of the loop: PUL to 1, then to 0. */
  function PulseSteps(pulses: nat): (r: seq<Event>)
    ensures |r| == 2 * pulses
  {
    if pulses == 0 then [] else [SetValue(PulLine, 1), SetValue(PulLine, 0)] + PulseSteps(pulses - 1)
  }

  /** The whole try block when nothing raises. */
  function Steps(pulses: nat): seq<Event>
  {
    SetupSteps + PulseSteps(pulses) + [SetValue(EnaLine, 1)]
  }

  function FaultAt(faults: seq<Fault>, i: nat): Fault
  {
    if i < |faults| then faults[i] else Pass
  }

  /** How many of the first n steps run before one raises. */
  function Leading(faults: seq<Fault>, n: nat): (k: nat)
    ensures k <= n
    ensures forall i :: 0 <= i < k ==> FaultAt(faults, i) == Pass
    ensures k < n ==> FaultAt(faults, k) != Pass
  {
    if n == 0 then 0
    else
      var j := Leading(faults, n - 1);
      if j < n - 1 then j
      else if FaultAt(faults, n - 1) == Pass then n
      else n - 1
  }

  /** Releases of the listed lines the script obtained, in list order. */
  function Releases(done: seq<Event>, lines: seq<Line>): (r: seq<Event>)
    ensures forall l :: Release(l) in r <==> l in lines && GetLine(l) in done
    ensures forall i :: 0 <= i < |r| ==> r[i].Release?
  {
    if |lines| == 0 then []
    else (if GetLine(lines[0]) in done then [Release(lines[0])] else []) + Releases(done, lines[1..])
  }

  /** Closes of the listed chips the script opened, in list order. */
  function Closes(done: seq<Event>, chips: seq<Chip>): (r: seq<Event>)
    ensures forall c :: Close(c) in r <==> c in chips && OpenChip(c) in done
    ensures forall i :: 0 <= i < |r| ==> r[i].Close?
  {
    if |chips| == 0 then []
    else (if OpenChip(chips[0]) in done then [Close(chips[0])] else []) + Closes(done, chips[1..])
  }

  /**
   * The finally clause: release each line the script obtained (PUL, DIR,
   * ENA), then close each chip it opened. A variable still None is skipped.
   */
  function Finally(done: seq<Event>): (r: seq<Event>)
    ensures forall l :: Release(l) in r <==> GetLine(l) in done
    ensures forall c :: Close(c) in r <==> OpenChip(c) in done
    ensures forall i :: 0 <= i < |r| ==> !IsCall(r[i])
  {
    Enumerated();
    Releases(done, AllLines) + Closes(done, AllChips)
  }

  const AllLines: seq<Line> := [PulLine, DirLine, EnaLine]
  const AllChips: seq<Chip> := [PulEnaChip, DirChip]

  lemma Enumerated()
    ensures forall l: Line :: l in AllLines
    ensures forall c: Chip :: c in AllChips
  {
    forall l: Line
      ensures l in AllLines
    {
      match l {
        case PulLine => assert AllLines[0] == l;
        case DirLine => assert AllLines[1] == l;
        case EnaLine => assert AllLines[2] == l;
      }
    }
    forall c: Chip
      ensures c in AllChips
    {
      match c {
        case PulEnaChip => assert AllChips[0] == c;
        case DirChip => assert AllChips[1] == c;
      }
    }
  }

  /**
   * The except clauses. KeyboardInterrupt: if the ENA line was obtained, one
   * write of 1 to it, which may itself raise. Any other exception: nothing
   * but the message.
   */
  function Handler(faults: seq<Fault>, k: nat, done: seq<Event>): (r: (seq<Event>, Ending))
    requires FaultAt(faults, k) != Pass
    ensures r.1 == Escaped ==> FaultAt(faults, k) == Interrupt && GetLine(EnaLine) in done
    ensures r.1 == Failed <==> FaultAt(faults, k) == Fail
    ensures FaultAt(faults, k) == Fail ==> r == ([], Failed)
    ensures r.0 != [] <==> r.1 == Interrupted && GetLine(EnaLine) in done
    ensures r.0 != [] ==> r.0 == [SetValue(EnaLine, 1)]
  {
    match FaultAt(faults, k)
    case Interrupt =>
      if GetLine(EnaLine) in done then
        if FaultAt(faults, k + 1) == Pass then ([SetValue(EnaLine, 1)], Interrupted)
        else ([], Escaped)
      else ([], Interrupted)
    case Fail => ([], Failed)
    case Pass => ([], Failed)
  }

  /** The script with `pulses` pulses under a fault plan: how it ended and what it did. */
  function Script(faults: seq<Fault>, pulses: nat): (r: (Ending, seq<Event>))
    ensures r.0 == Completed <==> forall i :: 0 <= i < |Steps(pulses)| ==> FaultAt(faults, i) == Pass
  {
    var steps := Steps(pulses);
    var k := Leading(faults, |steps|);
    var done := steps[..k];
    if k == |steps| then
      (Completed, done + Finally(done))
    else
      var handled := Handler(faults, k, done);
      (handled.1, done + handled.0 + Finally(done))
  }

  /** The level the last request or write on a line gave it, if any. */
  function LastLevel(events: seq<Event>, line: Line): (r: Option<int>)
    ensures r.None? <==> forall i :: 0 <= i < |events| ==> SetsLevel(events[i], line).None?
    ensures |events| > 0 && SetsLevel(events[|events| - 1], line).Some? ==> r == SetsLevel(events[|events| - 1], line)
  {
    if |events| == 0 then None
    else
      var later := LastLevel(events[1..], line);
      if later.Some? then later else SetsLevel(events[0], line)
  }

  /** The level an event gives a line, if it is a request or a write of that line. */
  function SetsLevel(e: Event, line: Line): Option<int>
  {
    match e
    case RequestLine(l, v) => if l == line then Some(v) else None
    case SetValue(l, v) => if l == line then Some(v) else None
    case _ => None
  }

  /** LastLevel over a concatenation: the second part wins where it sets the line. */
  lemma {:induction false} LastLevelAppend(a: seq<Event>, b: seq<Event>, line: Line)
    ensures LastLevel(a + b, line) == if LastLevel(b, line).Some? then LastLevel(b, line) else LastLevel(a, line)
  {
    if |a| == 0 {
      assert a + b == b;
    } else {
      assert (a + b)[1..] == a[1..] + b && (a + b)[0] == a[0];
      LastLevelAppend(a[1..], b, line);
    }
  }

  /** After any positive number of pulses PUL was last set to 0; no pulse touches another line. */
  lemma {:induction false} PulsesLastLevel(pulses: nat, line: Line)
    ensures LastLevel(PulseSteps(pulses), line)
            == if line == PulLine && pulses > 0 then Some(0) else None
  {
    if pulses > 0 {
      var head := [SetValue(PulLine, 1), SetValue(PulLine, 0)];
      PulsesLastLevel(pulses - 1, line);
      LastLevelAppend(head, PulseSteps(pulses - 1), line);
      assert LastLevel(head[1..], line) == SetsLevel(head[1], line);
    }
  }

  /** The setup requests PUL 0, DIR 1 and ENA 0. */
  lemma SetupLastLevel(line: Line)
    ensures LastLevel(SetupSteps, line) == Some(if line == DirLine then 1 else 0)
  {
    var requests := SetupSteps[5..];
    assert SetupSteps == SetupSteps[..5] + requests;
    LastLevelAppend(SetupSteps[..5], requests, line);
    assert requests[1..][1..] == [RequestLine(EnaLine, 0)];
  }

  /** What every line was last set to when nothing raised: PUL 0, DIR 1, ENA 1. */
  lemma StepsLastLevel(pulses: nat, line: Line)
    ensures LastLevel(Steps(pulses), line) == Some(if line == PulLine then 0 else 1)
  {
    var tail := [SetValue(EnaLine, 1)];
    LastLevelAppend(SetupSteps + PulseSteps(pulses), tail, line);
    LastLevelAppend(SetupSteps, PulseSteps(pulses), line);
    PulsesLastLevel(pulses, line);
    SetupLastLevel(line);
  }

  /**
   * A run in which nothing raises leaves the motor disabled (ENA last set
   * to 1), PUL at 0 and DIR at 1, and releases all three lines and closes
   * both chips.
   */
  lemma CompletedRun(faults: seq<Fault>, pulses: nat)
    requires Script(faults, pulses).0 == Completed
    ensures var events := Script(faults, pulses).1;
      && LastLevel(events, EnaLine) == Some(1)
      && LastLevel(events, PulLine) == Some(0)
      && LastLevel(events, DirLine) == Some(1)
      && (forall l :: Release(l) in events)
      && (forall c :: Close(c) in events)
  {
    var steps := Steps(pulses);
    assert steps[..|steps|] == steps;
    assert Script(faults, pulses).1 == steps + Finally(steps);
    CompletedLevels(pulses, EnaLine);
    CompletedLevels(pulses, PulLine);
    CompletedLevels(pulses, DirLine);
    SetupTakesAll(pulses);
  }

  lemma CompletedLevels(pulses: nat, line: Line)
    ensures LastLevel(Steps(pulses) + Finally(Steps(pulses)), line) == Some(if line == PulLine then 0 else 1)
  {
    LastLevelAppend(Steps(pulses), Finally(Steps(pulses)), line);
    StepsLastLevel(pulses, line);
  }

  /** The full try block opens both chips and gets all three lines. */
  lemma SetupTakesAll(pulses: nat)
    ensures forall l :: GetLine(l) in Steps(pulses)
    ensures forall c :: OpenChip(c) in Steps(pulses)
  {
    var steps := Steps(pulses);
    forall l: Line
      ensures GetLine(l) in steps
    {
      match l {
        case PulLine => assert steps[2] == GetLine(l);
        case DirLine => assert steps[3] == GetLine(l);
        case EnaLine => assert steps[4] == GetLine(l);
      }
    }
    forall c: Chip
      ensures OpenChip(c) in steps
    {
      match c {
        case PulEnaChip => assert steps[0] == OpenChip(c);
        case DirChip => assert steps[1] == OpenChip(c);
      }
    }
  }

  /**
   * A KeyboardInterrupt after the ENA line was obtained, whose handler write
   * returns, leaves ENA last set to 1: the motor is disabled.
   */
  lemma InterruptDisables(faults: seq<Fault>, pulses: nat)
    requires Script(faults, pulses).0 == Interrupted
    requires GetLine(EnaLine) in Steps(pulses)[..Leading(faults, |Steps(pulses)|)]
    ensures LastLevel(Script(faults, pulses).1, EnaLine) == Some(1)
  {
    InterruptedShape(faults, pulses);
    DisableThenFinally(Steps(pulses)[..Leading(faults, |Steps(pulses)|)]);
  }

  /** The finally clause sets no line, so a disable just before it is ENA's last level. */
  lemma DisableThenFinally(done: seq<Event>)
    ensures LastLevel(done + [SetValue(EnaLine, 1)] + Finally(done), EnaLine) == Some(1)
  {
    var fin := Finally(done);
    assert LastLevel(fin, EnaLine) == None by {
      forall i | 0 <= i < |fin|
        ensures SetsLevel(fin[i], EnaLine).None?
      {
        assert !IsCall(fin[i]);
      }
    }
    LastLevelAppend(done + [SetValue(EnaLine, 1)], fin, EnaLine);
  }

  /** The events of an interrupted run that had obtained ENA: the steps that returned, the disable, the finally clause. */
  lemma InterruptedShape(faults: seq<Fault>, pulses: nat)
    requires Script(faults, pulses).0 == Interrupted
    requires GetLine(EnaLine) in Steps(pulses)[..Leading(faults, |Steps(pulses)|)]
    ensures var done := Steps(pulses)[..Leading(faults, |Steps(pulses)|)];
      Script(faults, pulses).1 == done + [SetValue(EnaLine, 1)] + Finally(done)
  {
    var steps := Steps(pulses);
    var k := Leading(faults, |steps|);
    var done := steps[..k];
    assert k < |steps|;
    var handled := Handler(faults, k, done);
    assert handled.0 == [SetValue(EnaLine, 1)];
  }

  /**
   * Any other exception stops the script's calls at the failing step:
   * after the steps that returned come only releases and closes.
   */
  lemma FailureStopsCalls(faults: seq<Fault>, pulses: nat)
    requires Script(faults, pulses).0 == Failed
    ensures var k := Leading(faults, |Steps(pulses)|);
      var events := Script(faults, pulses).1;
      && k < |Steps(pulses)| && FaultAt(faults, k) == Fail
      && events[..k] == Steps(pulses)[..k]
      && forall i :: k <= i < |events| ==> !IsCall(events[i])
  {
    var steps := Steps(pulses);
    var k := Leading(faults, |steps|);
    var done := steps[..k];
    FailedShape(faults, pulses);
    var events := done + Finally(done);
    assert events[..k] == done;
    forall i | k <= i < |events|
      ensures !IsCall(events[i])
    {
      assert events[i] == Finally(done)[i - k];
    }
  }

  lemma FailedShape(faults: seq<Fault>, pulses: nat)
    requires Script(faults, pulses).0 == Failed
    ensures var k := Leading(faults, |Steps(pulses)|);
      && k < |Steps(pulses)| && FaultAt(faults, k) == Fail
      && Script(faults, pulses).1 == Steps(pulses)[..k] + Finally(Steps(pulses)[..k])
  {
    var steps := Steps(pulses);
    var k := Leading(faults, |steps|);
    var done := steps[..k];
    assert k < |steps|;
    var handled := Handler(faults, k, done);
    assert handled == ([], Failed);
    assert done + handled.0 == done;
  }

  /**
   * Whatever happens, the finally clause releases exactly the lines the
   * script obtained and closes exactly the chips it opened.
   */
  lemma ReleasesWhatItTook(faults: seq<Fault>, pulses: nat)
    ensures var k := Leading(faults, |Steps(pulses)|);
      var done := Steps(pulses)[..k];
      var events := Script(faults, pulses).1;
      && (forall l :: Release(l) in events <==> GetLine(l) in done)
      && (forall c :: Close(c) in events <==> OpenChip(c) in done)
  {
    var steps := Steps(pulses);
    var k := Leading(faults, |steps|);
    var done := steps[..k];
    var front := if k == |steps| then done else done + Handler(faults, k, done).0;
    assert Script(faults, pulses).1 == front + Finally(done);
    assert forall i :: 0 <= i < |front| ==> IsCall(front[i]) by {
      assert forall i :: 0 <= i < |steps| ==> IsCall(steps[i]) by {
        StepsAreCalls(pulses);
      }
    }
    assert forall l :: Release(l) !in front;
    assert forall c :: Close(c) !in front;
  }

  lemma {:induction false} StepsAreCalls(pulses: nat)
    ensures forall i :: 0 <= i < |Steps(pulses)| ==> IsCall(Steps(pulses)[i])
  {
    PulsesAreCalls(pulses);
    var steps := Steps(pulses);
    forall i | 0 <= i < |steps|
      ensures IsCall(steps[i])
    {
      if 8 <= i < |steps| - 1 {
        assert steps[i] == PulseSteps(pulses)[i - 8];
      }
    }
  }

  lemma {:induction false} PulsesAreCalls(pulses: nat)
    ensures forall i :: 0 <= i < 2 * pulses ==> PulseSteps(pulses)[i].SetValue?
  {
    if pulses > 0 {
      PulsesAreCalls(pulses - 1);
      var r := PulseSteps(pulses);
      assert forall i :: 2 <= i < 2 * pulses ==> r[i] == PulseSteps(pulses - 1)[i - 2];
    }
  }
}
