/**
 * The line filter of Test/clear_unused_gpio.py's parse_gpioinfo: a Python
 * `re.search` of `line\s+(\d+):\s+.*\bunused\b.*\boutput\b` on one line of
 * gpioinfo output, whose group 1 is read as a decimal number. The pattern
 * is stated here as a specification over positions, and a scan that
 * computes it is proved to agree with it. Character classes are the ASCII
 * ones.
 */
module GpioinfoFilter {
  import opened Wrappers

  /** `\s` on the ASCII range: space, \t, \n, \v, \f, \r and \x1c .. \x1f. */
  predicate IsSpace(ch: char)
  {
    ch == ' ' || ('\t' <= ch <= '\r') || ('\U{1C}' <= ch <= '\U{1F}')
  }

  /** `\d` on the ASCII range. */
  predicate IsDigit(ch: char)
  {
    '0' <= ch <= '9'
  }

  /** `\w` on the ASCII range: letters, digits and underscore. */
  predicate IsWordChar(ch: char)
  {
    ('a' <= ch <= 'z') || ('A' <= ch <= 'Z') || IsDigit(ch) || ch == '_'
  }

  function DigitValue(ch: char): (n: nat)
    requires IsDigit(ch)
    ensures n <= 9
  {
    (ch as int) - ('0' as int)
  }

  /** The value of a run of decimal digits, most significant first, as `int()` reads it. */
  function DecimalValue(digits: string): (n: nat)
    requires forall k :: 0 <= k < |digits| ==> IsDigit(digits[k])
    ensures |digits| == 1 ==> n == DigitValue(digits[0])
  {
    if |digits| == 0 then 0
    else 10 * DecimalValue(digits[..|digits| - 1]) + DigitValue(digits[|digits| - 1])
  }

  /**
   * The head of the pattern at position i: "line", whitespace from i + 4 to
   * d, digits from d to c, a colon at c and one whitespace character at
   * c + 1. Both runs are non-empty.
   */
  predicate HeadShape(s: string, i: nat, d: nat, c: nat)
  {
    && i + 4 < d < c && c + 1 < |s|
    && s[i..i + 4] == "line"
    && (forall k :: i + 4 <= k < d ==> IsSpace(s[k]))
    && (forall k :: d <= k < c ==> IsDigit(s[k]))
    && s[c] == ':' && IsSpace(s[c + 1])
  }

  /** `\bw\b` at position p, for a word w that starts and ends with a word character. */
  predicate WordAt(s: string, p: nat, w: string)
  {
    && p + |w| <= |s| && s[p..p + |w|] == w
    && (p == 0 || !IsWordChar(s[p - 1]))
    && (p + |w| == |s| || !IsWordChar(s[p + |w|]))
  }

  /**
   * The whole pattern matches at i: a head, then, anywhere from c + 2 on,
   * the word "unused", and at or after its end the word "output".
   */
  ghost predicate MatchesAt(s: string, i: nat)
  {
    exists d: nat, c: nat :: HeadShape(s, i, d, c) && TailAt(s, c + 2)
  }

  /** The tail of the pattern from position `rest` on: "unused", then, at or after its end, "output". */
  ghost predicate TailAt(s: string, rest: nat)
  {
    exists u: nat, o: nat :: rest <= u && u + 6 <= o && WordAt(s, u, "unused") && WordAt(s, o, "output")
  }

  /** The end of the whitespace run starting at i. */
  function SpaceEnd(s: string, i: nat): (j: nat)
    requires i <= |s|
    ensures i <= j <= |s|
    ensures forall k :: i <= k < j ==> IsSpace(s[k])
    ensures j == |s| || !IsSpace(s[j])
    decreases |s| - i
  {
    if i < |s| && IsSpace(s[i]) then SpaceEnd(s, i + 1) else i
  }

  /** The end of the digit run starting at i. */
  function DigitEnd(s: string, i: nat): (j: nat)
    requires i <= |s|
    ensures i <= j <= |s|
    ensures forall k :: i <= k < j ==> IsDigit(s[k])
    ensures j == |s| || !IsDigit(s[j])
    decreases |s| - i
  {
    if i < |s| && IsDigit(s[i]) then DigitEnd(s, i + 1) else i
  }

  /** Where the head at i puts the number, and where the rest of the line starts. */
  datatype Head = Head(number: nat, rest: nat)

  /** The head of the pattern at i, scanned left to right. */
  function ScanHead(s: string, i: nat): (r: Option<Head>)
    ensures r.Some? <==> exists d: nat, c: nat :: HeadShape(s, i, d, c)
    ensures forall d: nat, c: nat :: HeadShape(s, i, d, c) ==> r == Some(Head(DecimalValue(s[d..c]), c + 2))
  {
    if i + 4 > |s| || s[i..i + 4] != "line" then None
    else
      var d := SpaceEnd(s, i + 4);
      var c := DigitEnd(s, d);
      if d == i + 4 || c == d || c + 1 >= |s| || s[c] != ':' || !IsSpace(s[c + 1]) then
        HeadShapeForced(s, i, d, c);
        None
      else
        assert HeadShape(s, i, d, c);
        HeadShapeForced(s, i, d, c);
        Some(Head(DecimalValue(s[d..c]), c + 2))
  }

  /** A head's two runs are maximal, so they are the runs the scan finds. */
  lemma HeadShapeForced(s: string, i: nat, d0: nat, c0: nat)
    requires i + 4 <= |s| && s[i..i + 4] == "line"
    requires d0 == SpaceEnd(s, i + 4) && c0 == DigitEnd(s, d0)
    ensures forall d: nat, c: nat :: HeadShape(s, i, d, c) ==> d == d0 && c == c0
  {
    forall d: nat, c: nat | HeadShape(s, i, d, c)
      ensures d == d0 && c == c0
    {
      SpaceRunUnique(s, i + 4, d);
      DigitRunUnique(s, d, c);
    }
  }

  /** A whitespace run that ends where the whitespace ends is the run SpaceEnd finds. */
  lemma {:induction false} SpaceRunUnique(s: string, a: nat, e: nat)
    requires a <= e <= |s|
    requires forall k :: a <= k < e ==> IsSpace(s[k])
    requires e == |s| || !IsSpace(s[e])
    ensures SpaceEnd(s, a) == e
    decreases e - a
  {
    if a < e {
      SpaceRunUnique(s, a + 1, e);
    }
  }

  /** A digit run that ends where the digits end is the run DigitEnd finds. */
  lemma {:induction false} DigitRunUnique(s: string, a: nat, e: nat)
    requires a <= e <= |s|
    requires forall k :: a <= k < e ==> IsDigit(s[k])
    requires e == |s| || !IsDigit(s[e])
    ensures DigitEnd(s, a) == e
    decreases e - a
  {
    if a < e {
      DigitRunUnique(s, a + 1, e);
    }
  }

  /** The first position at or after `from` where the word w stands. */
  function FindWord(s: string, from: nat, w: string): (r: Option<nat>)
    ensures r.Some? ==> from <= r.value && WordAt(s, r.value, w)
    ensures forall p: nat :: from <= p && WordAt(s, p, w) ==> r.Some? && r.value <= p
    decreases |s| + 1 - from
  {
    if from + |w| > |s| then None
    else if WordAt(s, from, w) then Some(from)
    else FindWord(s, from + 1, w)
  }

  /** The tail of the pattern from position `rest`: the first "unused" and an "output" after it. */
  function ScanTail(s: string, rest: nat): (b: bool)
    ensures b <==> TailAt(s, rest)
  {
    match FindWord(s, rest, "unused")
    case None => false
    case Some(u) =>
      var found := FindWord(s, u + 6, "output");
      if found.Some? then
        assert WordAt(s, u, "unused") && WordAt(s, found.value, "output");
        true
      else
        false
  }

  /** Whether the pattern matches at i, computed by the two scans. */
  function ScanAt(s: string, i: nat): (r: Option<nat>)
    ensures r.Some? <==> MatchesAt(s, i)
    ensures forall d: nat, c: nat :: HeadShape(s, i, d, c) && r.Some? ==> r.value == DecimalValue(s[d..c])
  {
    match ScanHead(s, i)
    case None => None
    case Some(h) =>
      if ScanTail(s, h.rest) then
        ScanAtMatches(s, i, h);
        Some(h.number)
      else
        ScanAtMatches(s, i, h);
        None
  }

  lemma ScanAtMatches(s: string, i: nat, h: Head)
    requires ScanHead(s, i) == Some(h)
    ensures MatchesAt(s, i) <==> ScanTail(s, h.rest)
  {
    var d: nat, c: nat :| HeadShape(s, i, d, c);
    assert h.rest == c + 2;
    if MatchesAt(s, i) {
      var d1: nat, c1: nat :| HeadShape(s, i, d1, c1) && TailAt(s, c1 + 2);
      assert ScanHead(s, i) == Some(Head(DecimalValue(s[d1..c1]), c1 + 2));
    }
  }

  /**
   * `re.search` on one line from position i on: the number of the leftmost
   * match, or None.
   */
  function SearchFrom(s: string, i: nat): (r: Option<nat>)
    ensures i > |s| ==> r.None?
    decreases |s| + 1 - i
  {
    if i > |s| then None
    else
      var here := ScanAt(s, i);
      if here.Some? then here else SearchFrom(s, i + 1)
  }

  /** The search finds nothing exactly when the pattern matches at no position from i on. */
  lemma {:induction false} SearchNone(s: string, i: nat)
    ensures SearchFrom(s, i).None? <==> forall j: nat :: i <= j ==> !MatchesAt(s, j)
    decreases |s| + 1 - i
  {
    if i > |s| {
      forall j: nat | i <= j
        ensures !MatchesAt(s, j)
      {
        NoMatchPastEnd(s, j);
      }
    } else {
      SearchNone(s, i + 1);
      if ScanAt(s, i).None? {
        assert !MatchesAt(s, i);
      }
    }
  }

  lemma NoMatchPastEnd(s: string, j: nat)
    requires j > |s|
    ensures !MatchesAt(s, j)
  {
  }

  /** The value one gpioinfo line contributes: group 1 of the leftmost match. */
  function MatchLine(line: string): (r: Option<nat>)
  {
    SearchFrom(line, 0)
  }

  /**
   * The value of a line is the number at the leftmost position where the
   * pattern matches; a line where it matches nowhere contributes nothing.
   */
  lemma {:induction false} MatchLineLeftmost(line: string, i: nat, d: nat, c: nat)
    requires MatchesAt(line, i) && HeadShape(line, i, d, c)
    requires forall j: nat :: j < i ==> !MatchesAt(line, j)
    ensures MatchLine(line) == Some(DecimalValue(line[d..c]))
  {
    assert forall j: nat :: j < i ==> ScanAt(line, j).None?;
    SearchReaches(line, 0, i, DecimalValue(line[d..c]));
  }

  lemma {:induction false} SearchReaches(s: string, from: nat, i: nat, n: nat)
    requires from <= i <= |s| && ScanAt(s, i) == Some(n)
    requires forall j: nat :: from <= j < i ==> ScanAt(s, j).None?
    ensures SearchFrom(s, from) == Some(n)
    decreases i - from
  {
    if from < i {
      assert ScanAt(s, from).None?;
      SearchReaches(s, from + 1, i, n);
    }
  }

  lemma MatchLineNone(line: string)
    ensures MatchLine(line) == None <==> forall j: nat :: !MatchesAt(line, j)
  {
    SearchNone(line, 0);
  }

  /** The filter over all lines of the output: the matched numbers in line order. */
  function ParseLines(lines: seq<string>): (r: seq<nat>)
    ensures |r| <= |lines|
  {
    if |lines| == 0 then []
    else
      var rest := ParseLines(lines[1..]);
      match MatchLine(lines[0])
      case Some(n) => [n] + rest
      case None => rest
  }

  /** Filtering keeps line order: the filter of a concatenation is the concatenation of the filters. */
  lemma {:induction false} ParseLinesAppend(a: seq<string>, b: seq<string>)
    ensures ParseLines(a + b) == ParseLines(a) + ParseLines(b)
  {
    if |a| == 0 {
      assert a + b == b;
    } else {
      assert (a + b)[0] == a[0] && (a + b)[1..] == a[1..] + b;
      ParseLinesAppend(a[1..], b);
    }
  }

  /** One line contributes exactly its match, if any. */
  lemma ParseOneLine(line: string)
    ensures ParseLines([line]) == match MatchLine(line) case Some(n) => [n] case None => []
  {
    assert [line][1..] == [];
  }
}
