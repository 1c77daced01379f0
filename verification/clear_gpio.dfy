/**
 * Test/clear_unused_gpio.py: for each GPIO chip in sorted order, list the
 * lines gpioinfo reports as unused outputs, ask whether to clear them, and
 * drive each to 0 with gpioset (or only announce it in dry mode). The
 * directory listing, the gpioinfo run, the answers typed and the way an
 * argument list is run as a process are parameters; printing and the
 * "press Enter" pause are dropped.
 */
module ClearUnusedGpio {
  import opened GpioinfoFilter
  import opened Wrappers

  // ---------------------------------------------------------------- list_chips

  /** Python's `<=` on strings: code-point lexicographic order. */
  predicate LexLe(a: string, b: string)
  {
    if |a| == 0 then true
    else if |b| == 0 then false
    else if a[0] != b[0] then a[0] < b[0]
    else LexLe(a[1..], b[1..])
  }

  lemma {:induction false} LexLeTotal(a: string, b: string)
    ensures LexLe(a, b) || LexLe(b, a)
  {
    if |a| > 0 && |b| > 0 && a[0] == b[0] {
      LexLeTotal(a[1..], b[1..]);
    }
  }

  lemma {:induction false} LexLeReflexive(a: string)
    ensures LexLe(a, a)
  {
    if |a| > 0 {
      LexLeReflexive(a[1..]);
    }
  }

  lemma {:induction false} LexLeTransitive(a: string, b: string, c: string)
    requires LexLe(a, b) && LexLe(b, c)
    ensures LexLe(a, c)
  {
    if |a| > 0 && |b| > 0 && |c| > 0 && a[0] == b[0] && b[0] == c[0] {
      LexLeTransitive(a[1..], b[1..], c[1..]);
    }
  }

  /** Two equal strings are the only pair ordered both ways. */
  lemma {:induction false} LexLeAntisymmetric(a: string, b: string)
    requires LexLe(a, b) && LexLe(b, a)
    ensures a == b
  {
    if |a| > 0 && |b| > 0 {
      LexLeAntisymmetric(a[1..], b[1..]);
      assert a == [a[0]] + a[1..] && b == [b[0]] + b[1..];
    }
  }

  predicate Sorted(s: seq<string>)
  {
    forall i, j :: 0 <= i < j < |s| ==> LexLe(s[i], s[j])
  }

  /** x placed into a sorted list before the first element it does not follow. */
  function Insert(x: string, s: seq<string>): (r: seq<string>)
    requires Sorted(s)
    ensures Sorted(r)
    ensures multiset(r) == multiset(s) + multiset{x}
  {
    if |s| == 0 then [x]
    else if LexLe(x, s[0]) then
      forall j | 0 <= j < |s|
        ensures LexLe(x, s[j])
      {
        if j > 0 {
          LexLeTransitive(x, s[0], s[j]);
        }
      }
      [x] + s
    else
      var rest := Insert(x, s[1..]);
      LexLeTotal(x, s[0]);
      assert s == [s[0]] + s[1..];
      forall k | 0 <= k < |rest|
        ensures LexLe(s[0], rest[k])
      {
        assert rest[k] in multiset(rest);
        if rest[k] != x {
          assert rest[k] in multiset(s[1..]);
          var j :| 0 <= j < |s[1..]| && s[1..][j] == rest[k];
          assert s[j + 1] == rest[k];
        }
      }
      [s[0]] + rest
  }

  /** `sorted()`: a sorted permutation, built by insertion. */
  function SortStrings(s: seq<string>): (r: seq<string>)
    ensures Sorted(r)
    ensures multiset(r) == multiset(s)
  {
    if |s| == 0 then []
    else
      assert s == [s[0]] + s[1..];
      Insert(s[0], SortStrings(s[1..]))
  }

  predicate StartsWith(s: string, prefix: string)
  {
    |prefix| <= |s| && s[..|prefix|] == prefix
  }

  /** The directory entries the pattern `gpiochip*` matches, in listing order. */
  function ChipEntries(names: seq<string>): (r: seq<string>)
    ensures forall x :: x in r <==> x in names && StartsWith(x, "gpiochip")
    ensures multiset(r) <= multiset(names)
  {
    if |names| == 0 then []
    else
      assert names == [names[0]] + names[1..];
      (if StartsWith(names[0], "gpiochip") then [names[0]] else []) + ChipEntries(names[1..])
  }

  /** list_chips: the chip device names under /dev, sorted. */
  function ListChips(names: seq<string>): (r: seq<string>)
    ensures Sorted(r)
    ensures multiset(r) == multiset(ChipEntries(names))
    ensures forall x :: x in r <==> x in names && StartsWith(x, "gpiochip")
  {
    var r := SortStrings(ChipEntries(names));
    assert forall x :: x in r <==> x in multiset(r);
    r
  }

  /** Sorting is unique: any sorted permutation of the entries is the list list_chips returns. */
  lemma {:induction false} SortedPermutationUnique(a: seq<string>, b: seq<string>)
    requires Sorted(a) && Sorted(b) && multiset(a) == multiset(b)
    ensures a == b
    decreases |a|
  {
    if |a| > 0 {
      assert |b| == |multiset(b)| == |a|;
      HeadIsLeast(a, b[0]);
      HeadIsLeast(b, a[0]);
      LexLeAntisymmetric(a[0], b[0]);
      SplitHead(a);
      SplitHead(b);
      SortedPermutationUnique(a[1..], b[1..]);
      assert a == [a[0]] + a[1..] && b == [b[0]] + b[1..];
    }
  }

  /** The head of a sorted list is at or before every element of it. */
  lemma HeadIsLeast(s: seq<string>, x: string)
    requires Sorted(s) && x in multiset(s)
    ensures LexLe(s[0], x)
  {
    var i :| 0 <= i < |s| && s[i] == x;
    if i == 0 {
      LexLeReflexive(x);
    } else {
      assert LexLe(s[0], s[i]);
    }
  }

  /** Taking the head off a sorted list leaves a sorted list holding the rest. */
  lemma SplitHead(s: seq<string>)
    requires Sorted(s) && |s| > 0
    ensures Sorted(s[1..])
    ensures multiset(s[1..]) == multiset(s) - multiset{s[0]}
  {
    assert s == [s[0]] + s[1..];
    assert forall i, j :: 0 <= i < j < |s[1..]| ==> s[1..][i] == s[i + 1] && s[1..][j] == s[j + 1];
  }

  // ---------------------------------------------------------------- parse_gpioinfo

  /** Characters at which str.splitlines breaks a line (\r\n counts once). */
  predicate IsLineBreak(ch: char)
  {
    ch == '\n' || ch == '\r' || ch == '\U{0B}' || ch == '\U{0C}'
    || ('\U{1C}' <= ch <= '\U{1E}') || ch == '\U{85}' || ch == '\U{2028}' || ch == '\U{2029}'
  }

  /** The index of the first line break at or after i, or |s|. */
  function BreakAt(s: string, i: nat): (k: nat)
    requires i <= |s|
    ensures i <= k <= |s|
    ensures forall j :: i <= j < k ==> !IsLineBreak(s[j])
    ensures k < |s| ==> IsLineBreak(s[k])
    decreases |s| - i
  {
    if i == |s| || IsLineBreak(s[i]) then i else BreakAt(s, i + 1)
  }

  /** str.splitlines(): the lines without their breaks; a final break opens no empty line. */
  function SplitLines(s: string): (r: seq<string>)
    ensures forall n, j :: 0 <= n < |r| && 0 <= j < |r[n]| ==> !IsLineBreak(r[n][j])
    ensures |s| == 0 <==> |r| == 0
    decreases |s|
  {
    if |s| == 0 then []
    else
      var k := BreakAt(s, 0);
      if k == |s| then [s]
      else
        var width := if s[k] == '\r' && k + 1 < |s| && s[k + 1] == '\n' then 2 else 1;
        [s[..k]] + SplitLines(s[k + width..])
  }

  /** A line ended by \n is split off as it is. */
  lemma SplitLinesNewline(a: string, b: string)
    requires forall j :: 0 <= j < |a| ==> !IsLineBreak(a[j])
    ensures SplitLines(a + "\n" + b) == [a] + SplitLines(b)
  {
    var s := a + "\n" + b;
    assert BreakAt(s, 0) == |a| by {
      BreakAtFirst(s, 0, |a|);
    }
    assert s[..|a|] == a;
    assert s[|a| + 1..] == b;
  }

  lemma {:induction false} BreakAtFirst(s: string, i: nat, k: nat)
    requires i <= k < |s| && IsLineBreak(s[k])
    requires forall j :: i <= j < k ==> !IsLineBreak(s[j])
    ensures BreakAt(s, i) == k
    decreases k - i
  {
    if i < k {
      BreakAtFirst(s, i + 1, k);
    }
  }

  /** The outcome of `gpioinfo <chip>`: a non-zero exit (CalledProcessError), or its output. */
  datatype GpioinfoRun = RunFailed | RunOk(stdout: string)

  /** parse_gpioinfo: the unused output lines of a chip, in output order; none if gpioinfo failed. */
  function ParseGpioinfo(run: GpioinfoRun): (r: seq<nat>)
    ensures run.RunFailed? ==> r == []
    ensures run.RunOk? ==> r == ParseLines(SplitLines(run.stdout))
  {
    match run
    case RunFailed => []
    case RunOk(out) => ParseLines(SplitLines(out))
  }

  /** What one line of gpioinfo output contributes: its line number when it matches, else nothing. */
  function LineMatch(line: string): (r: seq<nat>)
    ensures |r| <= 1
    ensures r == [] <==> forall j: nat :: !MatchesAt(line, j)
  {
    MatchLineNone(line);
    match MatchLine(line) case Some(n) => [n] case None => []
  }

  /**
   * parse_gpioinfo reads the output line by line: a first line ended by \n
   * contributes its match ahead of whatever the rest contributes, and a
   * last line without a break contributes only its match.
   */
  lemma ParseGpioinfoLines(a: string, b: string)
    requires forall j :: 0 <= j < |a| ==> !IsLineBreak(a[j])
    ensures ParseGpioinfo(RunOk(a + "\n" + b)) == LineMatch(a) + ParseGpioinfo(RunOk(b))
    ensures |a| > 0 ==> ParseGpioinfo(RunOk(a)) == LineMatch(a)
  {
    SplitLinesNewline(a, b);
    ParseLinesAppend([a], SplitLines(b));
    ParseOneLine(a);
    if |a| > 0 {
      assert BreakAt(a, 0) == |a|;
    }
  }

  // ---------------------------------------------------------------- set_line_zero

  /** The decimal digits of n, as an f-string prints them. */
  function NatToString(n: nat): (r: string)
    ensures |r| > 0
    ensures forall k :: 0 <= k < |r| ==> IsDigit(r[k])
  {
    var last := (('0' as int) + n % 10) as char;
    if n < 10 then [last] else NatToString(n / 10) + [last]
  }

  /** Printing a line number and reading it back gives the number. */
  lemma {:induction false} NatToStringRoundTrip(n: nat)
    ensures DecimalValue(NatToString(n)) == n
  {
    var s := NatToString(n);
    var last := (('0' as int) + n % 10) as char;
    assert DigitValue(last) == n % 10;
    if n >= 10 {
      NatToStringRoundTrip(n / 10);
      assert s[..|s| - 1] == NatToString(n / 10);
    }
  }

  /** The index of the first '=' in s, or |s|. */
  function EqualsAt(s: string): (i: nat)
    ensures i <= |s|
    ensures forall k :: 0 <= k < i ==> s[k] != '='
    ensures i < |s| ==> s[i] == '='
  {
    if |s| == 0 || s[0] == '=' then 0 else 1 + EqualsAt(s[1..])
  }

  /** How gpioset reads a `<line>=<value>` argument: two decimal numbers around the first '='. */
  function ParseAssignment(arg: string): (r: Option<(nat, nat)>)
    ensures r.Some? ==> EqualsAt(arg) < |arg|
  {
    var i := EqualsAt(arg);
    if i == |arg| then None
    else
      var left, right := arg[..i], arg[i + 1..];
      if |left| > 0 && |right| > 0 && (forall k :: 0 <= k < |left| ==> IsDigit(left[k]))
         && (forall k :: 0 <= k < |right| ==> IsDigit(right[k]))
      then Some((DecimalValue(left), DecimalValue(right)))
      else None
  }

  /** The argument list of the gpioset call for a line. */
  function GpiosetCommand(chip: string, line: nat): (r: seq<string>)
    ensures |r| == 4
  {
    ["sudo", "gpioset", chip, NatToString(line) + "=0"]
  }

  /** The gpioset call runs under sudo on the chip and assigns 0 to exactly that line. */
  lemma GpiosetCommandParses(chip: string, line: nat)
    ensures var cmd := GpiosetCommand(chip, line);
      cmd[0] == "sudo" && cmd[1] == "gpioset" && cmd[2] == chip && ParseAssignment(cmd[3]) == Some((line, 0))
  {
    var digits := NatToString(line);
    var arg := digits + "=0";
    assert forall k :: 0 <= k < |digits| ==> arg[k] == digits[k] && arg[k] != '=';
    assert arg[|digits|] == '=';
    assert EqualsAt(arg) == |digits|;
    assert arg[..|digits|] == digits && arg[|digits| + 1..] == "0";
    NatToStringRoundTrip(line);
  }

  /** What subprocess.run hands back: the exit status and both captured streams. */
  datatype CompletedProcess = CompletedProcess(returncode: int, stdout: string, stderr: string)

  /**
   * set_line_zero: runs the gpioset command for the line; success exactly
   * when that process exits with 0, and the message is its stdout followed
   * by its stderr.
   */
  function SetLineZero(chip: string, line: nat, run: seq<string> -> CompletedProcess): (r: (bool, string))
    ensures r.0 <==> run(["sudo", "gpioset", chip, NatToString(line) + "=0"]).returncode == 0
    ensures var p := run(["sudo", "gpioset", chip, NatToString(line) + "=0"]);
      |r.1| == |p.stdout| + |p.stderr| && StartsWith(r.1, p.stdout) && r.1[|p.stdout|..] == p.stderr
  {
    var p := run(GpiosetCommand(chip, line));
    (p.returncode == 0, p.stdout + p.stderr)
  }

  // ---------------------------------------------------------------- main

  /** Where trailing whitespace after position a starts: the end of the last non-space character, or a. */
  function TrailStart(s: string, a: nat, e: nat): (b: nat)
    requires a <= e <= |s|
    requires forall k :: e <= k < |s| ==> IsSpace(s[k])
    ensures a <= b <= e
    ensures forall k :: b <= k < |s| ==> IsSpace(s[k])
    ensures b == a || !IsSpace(s[b - 1])
    decreases e
  {
    if e == a || !IsSpace(s[e - 1]) then e else TrailStart(s, a, e - 1)
  }

  /** str.strip() on the ASCII whitespace set: the longest run that neither starts nor ends with whitespace. */
  function Strip(s: string): (r: string)
    ensures |r| <= |s|
    ensures exists a, b :: 0 <= a <= b <= |s| && r == s[a..b]
                           && (forall k :: 0 <= k < a ==> IsSpace(s[k]))
                           && (forall k :: b <= k < |s| ==> IsSpace(s[k]))
    ensures |r| > 0 ==> !IsSpace(r[0]) && !IsSpace(r[|r| - 1])
  {
    var a := SpaceEnd(s, 0);
    var b := TrailStart(s, a, |s|);
    s[a..b]
  }

  /** `ans.strip().lower() == 'y'`: the answer is y or Y, whitespace around it allowed. */
  predicate IsYes(answer: string)
  {
    Strip(answer) == "y" || Strip(answer) == "Y"
  }

  /** What the script does to one line: an announcement in dry mode, or a gpioset call and its success. */
  datatype Action = DryRun(chip: string, line: nat) | Gpioset(chip: string, line: nat, ok: bool)

  /** Whether an action is the right one for a chip's line: in dry mode an announcement, else a gpioset call and its result. */
  predicate ActionFor(act: Action, chip: string, line: nat, dry: bool, run: seq<string> -> CompletedProcess)
  {
    && act.chip == chip && act.line == line
    && (act.DryRun? <==> dry)
    && (act.Gpioset? ==> (act.ok <==> run(GpiosetCommand(chip, line)).returncode == 0))
  }

  /** The inner loop over a chip's lines: one action per line, in order. */
  function LineActions(chip: string, lines: seq<nat>, dry: bool, run: seq<string> -> CompletedProcess): (r: seq<Action>)
    ensures |r| == |lines|
    ensures forall k :: 0 <= k < |r| ==> ActionFor(r[k], chip, lines[k], dry, run)
  {
    if |lines| == 0 then []
    else
      var first := if dry then DryRun(chip, lines[0])
                   else Gpioset(chip, lines[0], SetLineZero(chip, lines[0], run).0);
      [first] + LineActions(chip, lines[1..], dry, run)
  }

  /** Whether a chip is acted on: it has unused output lines and the answer is yes. */
  predicate Selected(chip: string, info: string -> GpioinfoRun, answer: string -> string)
  {
    ParseGpioinfo(info(chip)) != [] && IsYes(answer(chip))
  }

  /**
   * One chip of the outer loop: nothing without lines or without a yes;
   * otherwise one action per listed line, in gpioinfo's order.
   */
  function ChipActions(chip: string, dry: bool, info: string -> GpioinfoRun, answer: string -> string,
                       run: seq<string> -> CompletedProcess): (r: seq<Action>)
    ensures !Selected(chip, info, answer) ==> r == []
    ensures Selected(chip, info, answer) ==>
      var lines := ParseGpioinfo(info(chip));
      |r| == |lines| && forall k :: 0 <= k < |r| ==> ActionFor(r[k], chip, lines[k], dry, run)
  {
    var lines := ParseGpioinfo(info(chip));
    if lines == [] then []
    else if !IsYes(answer(chip)) then []
    else LineActions(chip, lines, dry, run)
  }

  function ChipsActions(chips: seq<string>, dry: bool, info: string -> GpioinfoRun, answer: string -> string,
                        run: seq<string> -> CompletedProcess): (r: seq<Action>)
  {
    if |chips| == 0 then []
    else ChipActions(chips[0], dry, info, answer, run) + ChipsActions(chips[1..], dry, info, answer, run)
  }

  /** main: every chip in sorted order; nothing at all when there is no chip. */
  function Main(dry: bool, names: seq<string>, info: string -> GpioinfoRun, answer: string -> string,
                run: seq<string> -> CompletedProcess): (r: seq<Action>)
    ensures ListChips(names) == [] ==> r == []
  {
    ChipsActions(ListChips(names), dry, info, answer, run)
  }

  /** Chips are handled one after another: the actions for two lists of chips are those of the first, then the second. */
  lemma {:induction false} ChipsActionsAppend(a: seq<string>, b: seq<string>, dry: bool, info: string -> GpioinfoRun,
                                              answer: string -> string, run: seq<string> -> CompletedProcess)
    ensures ChipsActions(a + b, dry, info, answer, run)
            == ChipsActions(a, dry, info, answer, run) + ChipsActions(b, dry, info, answer, run)
  {
    if |a| == 0 {
      assert a + b == b;
    } else {
      assert (a + b)[0] == a[0] && (a + b)[1..] == a[1..] + b;
      ChipsActionsAppend(a[1..], b, dry, info, answer, run);
    }
  }

  /**
   * Every action of main is on a line the chip's gpioinfo listed, of a chip
   * that exists, had such lines and was answered yes; it is an announcement
   * exactly in dry mode.
   */
  lemma {:induction false} ChipsActionsSelected(chips: seq<string>, dry: bool, info: string -> GpioinfoRun,
                                                answer: string -> string, run: seq<string> -> CompletedProcess)
    ensures forall a :: a in ChipsActions(chips, dry, info, answer, run) ==>
      && a.chip in chips && Selected(a.chip, info, answer)
      && a.line in ParseGpioinfo(info(a.chip))
      && (a.DryRun? <==> dry)
  {
    if |chips| > 0 {
      ChipsActionsSelected(chips[1..], dry, info, answer, run);
      var here := ChipActions(chips[0], dry, info, answer, run);
      forall a | a in here
        ensures a.chip == chips[0] && Selected(a.chip, info, answer)
                && a.line in ParseGpioinfo(info(a.chip)) && (a.DryRun? <==> dry)
      {
        var k :| 0 <= k < |here| && here[k] == a;
      }
    }
  }

  /** Every listed line of every selected chip gets its action. */
  lemma {:induction false} ChipsActionsComplete(chips: seq<string>, dry: bool, info: string -> GpioinfoRun,
                                                answer: string -> string, run: seq<string> -> CompletedProcess,
                                                chip: string, line: nat)
    requires chip in chips && Selected(chip, info, answer) && line in ParseGpioinfo(info(chip))
    ensures exists a :: a in ChipsActions(chips, dry, info, answer, run) && ActionFor(a, chip, line, dry, run)
  {
    var here := ChipActions(chips[0], dry, info, answer, run);
    var all := ChipsActions(chips, dry, info, answer, run);
    if chips[0] == chip {
      var lines := ParseGpioinfo(info(chip));
      var k :| 0 <= k < |lines| && lines[k] == line;
      assert all[k] == here[k];
      assert ActionFor(all[k], chip, line, dry, run);
    } else {
      ChipsActionsComplete(chips[1..], dry, info, answer, run, chip, line);
      var a :| a in ChipsActions(chips[1..], dry, info, answer, run) && ActionFor(a, chip, line, dry, run);
      assert a in all;
    }
  }

  lemma MainSelected(dry: bool, names: seq<string>, info: string -> GpioinfoRun, answer: string -> string,
                     run: seq<string> -> CompletedProcess)
    ensures forall a :: a in Main(dry, names, info, answer, run) ==>
      && a.chip in names && StartsWith(a.chip, "gpiochip")
      && Selected(a.chip, info, answer)
      && a.line in ParseGpioinfo(info(a.chip))
      && (a.DryRun? <==> dry)
  {
    ChipsActionsSelected(ListChips(names), dry, info, answer, run);
  }

  /**
   * main acts on every unused output line of every gpiochip entry answered
   * yes: the announcement in dry mode, otherwise the gpioset call with its
   * result.
   */
  lemma MainComplete(dry: bool, names: seq<string>, info: string -> GpioinfoRun, answer: string -> string,
                     run: seq<string> -> CompletedProcess, chip: string, line: nat)
    requires chip in names && StartsWith(chip, "gpiochip")
    requires Selected(chip, info, answer) && line in ParseGpioinfo(info(chip))
    ensures exists a :: a in Main(dry, names, info, answer, run) && ActionFor(a, chip, line, dry, run)
  {
    ChipsActionsComplete(ListChips(names), dry, info, answer, run, chip, line);
  }

  /** In dry mode main never calls gpioset. */
  lemma DryRunNeverSets(names: seq<string>, info: string -> GpioinfoRun, answer: string -> string,
                        run: seq<string> -> CompletedProcess)
    ensures forall a :: a in Main(true, names, info, answer, run) ==> !a.Gpioset?
  {
    MainSelected(true, names, info, answer, run);
  }
}
