/**
 Text as the command prints and reads it back: decimal numbers, lines, white space.
 */
module Text {
  import opened Wrappers

  // --- Runs of characters --------------------------------------------------------------

  /** The length of the longest prefix whose characters all satisfy `p`. */
  function RunLength(p: char -> bool, s: string): (n: nat)
    ensures n <= |s|
    ensures forall i :: 0 <= i < n ==> p(s[i])
    ensures n < |s| ==> !p(s[n])
  {
    if s == "" || !p(s[0]) then 0 else 1 + RunLength(p, s[1..])
  }

  lemma RunLengthIs(p: char -> bool, a: string, b: string)
    requires forall i :: 0 <= i < |a| ==> p(a[i])
    requires b == "" || !p(b[0])
    ensures RunLength(p, a + b) == |a|
  {
    var n := RunLength(p, a + b);
    assert forall i :: 0 <= i < |a| ==> (a + b)[i] == a[i];
    assert b != "" ==> (a + b)[|a|] == b[0];
  }

  // --- Decimal numbers -------------------------------------------------------------------

  predicate IsDigit(c: char) {
    '0' <= c <= '9'
  }

  predicate AllDigits(s: string) {
    forall i :: 0 <= i < |s| ==> IsDigit(s[i])
  }

  function Decimal(n: nat): (s: string)
    ensures s != "" && AllDigits(s)
  {
    if n < 10 then [(48 + n) as char] else Decimal(n / 10) + [(48 + n % 10) as char]
  }

  function Value(s: string): nat
    requires AllDigits(s)
  {
    if s == "" then 0 else 10 * Value(s[..|s| - 1]) + (s[|s| - 1] as int - 48)
  }

  lemma {:induction false} DecimalReadsBack(n: nat)
    ensures Value(Decimal(n)) == n
  {
    var s := Decimal(n);
    if n < 10 {
      assert s[..|s| - 1] == "";
    } else {
      DecimalReadsBack(n / 10);
      assert s[..|s| - 1] == Decimal(n / 10);
    }
  }

  const INT_MAX: int := 0x7fff_ffff_ffff_ffff

  /** A decimal integer with an optional sign, in the range of a 64-bit int. */
  function Atoi(s: string): Option<int> {
    var negative := s != "" && s[0] == '-';
    var digits := if s != "" && (s[0] == '-' || s[0] == '+') then s[1..] else s;
    if digits == "" || !AllDigits(digits) then None
    else
      var size: int := Value(digits);
      var n := if negative then -size else size;
      if -INT_MAX - 1 <= n <= INT_MAX then Some(n) else None
  }

  /** What a run of digits is worth as a 64-bit int: too large a number counts as the largest. */
  function Clamped(digits: string): nat {
    if !AllDigits(digits) then 0 else if Value(digits) > INT_MAX then INT_MAX else Value(digits)
  }

  // --- Lines ------------------------------------------------------------------------------

  predicate NotNewline(c: char) {
    c != '\n'
  }

  predicate OneLine(s: string) {
    forall i :: 0 <= i < |s| ==> s[i] != '\n'
  }

  /** The pieces between newlines: one more than there are newlines. */
  function Lines(s: string): (lines: seq<string>)
    ensures lines != []
    decreases |s|
  {
    var n := RunLength(NotNewline, s);
    if n == |s| then [s] else [s[..n]] + Lines(s[n + 1..])
  }

  /** Text that stops at the end of a line. */
  predicate WholeLines(s: string) {
    s == "" || s[|s| - 1] == '\n'
  }

  lemma LinesOne(line: string)
    requires OneLine(line)
    ensures Lines(line) == [line]
  {
  }

  lemma LinesFirst(line: string, rest: string)
    requires OneLine(line)
    ensures Lines(line + "\n" + rest) == [line] + Lines(rest)
  {
    assert line + "\n" + rest == line + ("\n" + rest);
    RunLengthIs(NotNewline, line, "\n" + rest);
  }

  lemma {:induction false} EachLineOne(s: string)
    ensures forall line :: line in Lines(s) ==> OneLine(line)
    decreases |s|
  {
    var n := RunLength(NotNewline, s);
    if n < |s| {
      EachLineOne(s[n + 1..]);
    }
  }

  /** What follows whole lines is split as if it stood alone. */
  lemma {:induction false} LinesAfter(whole: string, rest: string) returns (before: seq<string>)
    requires WholeLines(whole)
    ensures Lines(whole + rest) == before + Lines(rest) && Lines(whole) == before + [""]
    decreases |whole|
  {
    hide *;
    if whole == "" {
      before := [];
      EmptyLines();
      assert whole + rest == rest;
    } else {
      var line, tail := FirstLine(whole);
      var more := LinesAfter(tail, rest);
      before := [line] + more;
      LinesFirst(line, tail);
      LinesFirst(line, tail + rest);
      assert whole + rest == line + "\n" + (tail + rest);
      Prepend(line, more, [""]);
      Prepend(line, more, Lines(rest));
    }
  }

  lemma EmptyLines()
    ensures Lines("") == [""]
  {
  }

  lemma Prepend(line: string, a: seq<string>, b: seq<string>)
    ensures [line] + (a + b) == [line] + a + b
  {
  }

  lemma FirstLine(whole: string) returns (line: string, tail: string)
    requires WholeLines(whole) && whole != ""
    ensures OneLine(line) && WholeLines(tail) && whole == line + "\n" + tail
  {
    var n := RunLength(NotNewline, whole);
    line, tail := whole[..n], whole[n + 1..];
  }

  // --- White space ------------------------------------------------------------------------

  /** Unicode white space. */
  predicate IsSpace(c: char) {
    var n := c as int;
    || 9 <= n <= 13 || n == 32 || n == 0x85 || n == 0xA0 || n == 0x1680
    || 0x2000 <= n <= 0x200A || n == 0x2028 || n == 0x2029 || n == 0x202F || n == 0x205F || n == 0x3000
  }

  function TrimLeft(s: string): string {
    if s != "" && IsSpace(s[0]) then TrimLeft(s[1..]) else s
  }

  function TrimRight(s: string): string {
    if s != "" && IsSpace(s[|s| - 1]) then TrimRight(s[..|s| - 1]) else s
  }

  function TrimSpace(s: string): string {
    TrimRight(TrimLeft(s))
  }

  lemma {:induction false} TrimLeftBefore(a: string, b: string)
    requires b != "" && !IsSpace(b[0])
    ensures TrimLeft(a + b) == TrimLeft(a) + b
    ensures WholeLines(a) ==> WholeLines(TrimLeft(a))
  {
    if a == "" {
      assert a + b == b;
    } else if IsSpace(a[0]) {
      assert (a + b)[1..] == a[1..] + b;
      TrimLeftBefore(a[1..], b);
    }
  }

  lemma LinesBetween(before: string, first: string, between: string, last: string)
      returns (pre: seq<string>, middle: seq<string>)
    requires WholeLines(before) && WholeLines(between) && OneLine(first) && OneLine(last)
    ensures Lines(before + (first + "\n" + (between + last))) == pre + [first] + middle + [last]
  {
    hide *;
    pre := LinesAfter(before, first + "\n" + (between + last));
    LinesFirst(first, between + last);
    middle := LinesAfter(between, last);
    LinesOne(last);
  }

  /** Whole lines around two that neither start nor end blank survive trimming. */
  lemma TrimmedLines(before: string, first: string, between: string, last: string)
      returns (pre: seq<string>, middle: seq<string>)
    requires WholeLines(before) && WholeLines(between) && OneLine(first) && OneLine(last)
    requires first != "" && !IsSpace(first[0]) && last != "" && !IsSpace(last[|last| - 1])
    ensures Lines(TrimSpace(before + first + "\n" + between + last + "\n")) == pre + [first] + middle + [last]
  {
    Trimmed(before, first, between, last);
    TrimLeftBefore(before, first);
    pre, middle := LinesBetween(TrimLeft(before), first, between, last);
  }

  lemma Trimmed(before: string, first: string, between: string, last: string)
    requires first != "" && !IsSpace(first[0]) && last != "" && !IsSpace(last[|last| - 1])
    ensures TrimSpace(before + first + "\n" + between + last + "\n") == TrimLeft(before) + (first + "\n" + (between + last))
  {
    hide IsSpace, TrimLeft, TrimRight;
    var text := first + "\n" + between + last + "\n";
    assert before + first + "\n" + between + last + "\n" == before + text;
    TrimLeftBefore(before, text);
    var body := TrimLeft(before) + (first + "\n" + (between + last));
    assert TrimLeft(before) + text == body + "\n";
    assert body[|body| - 1] == last[|last| - 1];
    TrimEnd(body);
  }

  lemma TrimEnd(body: string)
    requires body != "" && !IsSpace(body[|body| - 1])
    ensures TrimRight(body + "\n") == body
  {
  }

  lemma {:induction false} TrimRightAfter(a: string, b: string)
    ensures TrimRight(b) != "" ==> TrimRight(a + b) == a + TrimRight(b)
    ensures TrimRight(b) == "" ==> TrimRight(a + b) == TrimRight(a)
    decreases |b|
  {
    if b == "" {
      assert a + b == a;
    } else {
      var front := b[..|b| - 1];
      assert (a + b)[..|a + b| - 1] == a + front && (a + b)[|a + b| - 1] == b[|b| - 1];
      TrimRightAfter(a, front);
    }
  }

  lemma {:induction false} TrimRightPrefix(s: string)
    ensures TrimRight(s) <= s
    ensures TrimRight(s) != "" ==> !IsSpace(TrimRight(s)[|TrimRight(s)| - 1])
  {
    if s != "" && IsSpace(s[|s| - 1]) {
      TrimRightPrefix(s[..|s| - 1]);
    }
  }

  lemma TrimRightOneLine(s: string)
    requires OneLine(s)
    ensures OneLine(TrimRight(s))
  {
    TrimRightPrefix(s);
    assert forall i :: 0 <= i < |TrimRight(s)| ==> TrimRight(s)[i] == s[i];
  }

  /** A line that does not start blank is still a line after trimming, itself trimmed if it
      was the last. */
  lemma LineSurvives(before: string, line: string, after: string) returns (k: nat)
    requires WholeLines(before) && OneLine(line) && line != "" && !IsSpace(line[0])
    ensures var lines := Lines(TrimSpace(before + line + "\n" + after));
      k < |lines| && (lines[k] == line || lines[k] == TrimRight(line))
  {
    var text := line + "\n" + after;
    TrimLeftBefore(before, text);
    assert before + line + "\n" + after == before + text;
    TrimRightAfter(TrimLeft(before), text);
    TrimRightAfter(line + "\n", after);
    TrimRightAfter(line, "\n");
    assert TrimRight("\n") == "" by {
      assert IsSpace("\n"[0]) && "\n"[..0] == "";
    }
    TrimRightOneLine(line);
    LineNotBlank(line);
    hide TrimSpace, TrimLeft, TrimRight, IsSpace, Lines, OneLine, WholeLines;
    assert (line + "\n") + after == text;
    var front := TrimLeft(before);
    if TrimRight(after) == "" {
      var pre := LinesAfter(front, TrimRight(line));
      LinesOne(TrimRight(line));
      k := |pre|;
    } else {
      var pre := LinesAfter(front, line + "\n" + TrimRight(after));
      LinesFirst(line, TrimRight(after));
      k := |pre|;
    }
    TrimParts(before + text);
  }

  lemma TrimParts(s: string)
    ensures TrimSpace(s) == TrimRight(TrimLeft(s))
  {
  }

  lemma {:induction false} LineNotBlank(line: string)
    requires line != "" && !IsSpace(line[0])
    ensures TrimRight(line) != ""
  {
    if IsSpace(line[|line| - 1]) {
      LineNotBlank(line[..|line| - 1]);
    }
  }
}
