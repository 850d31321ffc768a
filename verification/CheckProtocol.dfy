/**
 The result line of `promise check`: one process analyses a unit and prints one line; the
 parent of a sweep reads it back by the unit's name, which may be any text.
 */
module CheckProtocol {
  import opened Wrappers
  import opened Text

  datatype Outcome = Fine | Warned | Failed

  function Spelling(o: Outcome): (s: string)
    ensures s != ""
  {
    match o
    case Fine => "ok"
    case Warned => "warn"
    case Failed => "FAIL"
  }

  // --- Printing ---------------------------------------------------------------------------

  function Plural(n: nat, word: string): string {
    if n == 1 then word else word + "s"
  }

  function Clause(n: nat, word: string): string {
    Decimal(n) + " " + Plural(n, word)
  }

  /** "18 errors", "1 warning", "1 error, 2 warnings". */
  function DescribeDiagnostics(errors: nat, warnings: nat): string {
    if errors > 0 && warnings > 0 then Clause(errors, "error") + ", " + Clause(warnings, "warning")
    else if errors > 0 then Clause(errors, "error")
    else if warnings > 0 then Clause(warnings, "warning")
    else "0 errors"
  }

  function ResultLine(o: Outcome, unitName: string, detail: string): string {
    Spelling(o) + " " + unitName + detail
  }

  function Detail(errors: nat, warnings: nat): string {
    " (" + DescribeDiagnostics(errors, warnings) + ")"
  }

  function FailureLine(unitName: string, errors: nat, warnings: nat): string {
    ResultLine(Failed, unitName, Detail(if errors == 0 then 1 else errors, warnings))
  }

  function SuccessLine(unitName: string, warnings: nat): string {
    if warnings > 0 then ResultLine(Warned, unitName, Detail(0, warnings)) else ResultLine(Fine, unitName, "")
  }

  /** The unit under analysis and what has been found in it; `stdout` is what it printed. */
  class CheckUnitRun {
    const unitName: string
    var errors: nat
    var warnings: nat
    var reported: bool
    var stdout: string

    constructor (unitName: string)
      ensures this.unitName == unitName && errors == 0 && warnings == 0 && !reported && stdout == ""
    {
      this.unitName := unitName;
      errors, warnings, reported, stdout := 0, 0, false, "";
    }

    method CountDiagnostic(warning: bool)
      modifies this
      ensures errors == old(errors) + (if warning then 0 else 1)
      ensures warnings == old(warnings) + (if warning then 1 else 0)
      ensures reported == old(reported) && stdout == old(stdout)
    {
      if warning {
        warnings := warnings + 1;
        return;
      }
      errors := errors + 1;
    }

    method CountDiagnostics(n: nat)
      modifies this
      ensures errors == old(errors) + n && warnings == old(warnings)
      ensures reported == old(reported) && stdout == old(stdout)
    {
      for i := 0 to n
        invariant errors == old(errors) + i && warnings == old(warnings)
        invariant reported == old(reported) && stdout == old(stdout)
      {
        CountDiagnostic(false);
      }
    }

    /** Prints the failure line once; a failure without a counted error counts as one. */
    method ReportFailure()
      modifies this
      ensures reported && warnings == old(warnings)
      ensures errors == if old(reported) || old(errors) > 0 then old(errors) else 1
      ensures stdout == if old(reported) then old(stdout)
                        else old(stdout) + FailureLine(unitName, old(errors), old(warnings)) + "\n"
    {
      if reported {
        return;
      }
      reported := true;
      if errors == 0 {
        errors := 1;
      }
      stdout := stdout + ResultLine(Failed, unitName, Detail(errors, warnings)) + "\n";
    }

    method ReportSuccess()
      modifies this
      ensures reported && errors == old(errors) && warnings == old(warnings)
      ensures stdout == old(stdout) + SuccessLine(unitName, old(warnings)) + "\n"
    {
      reported := true;
      if warnings > 0 {
        stdout := stdout + ResultLine(Warned, unitName, Detail(0, warnings)) + "\n";
        return;
      }
      stdout := stdout + ResultLine(Fine, unitName, "") + "\n";
    }
  }

  /** The lines, spelled out. */
  lemma LinesSpelled(unitName: string, n: nat)
    requires n > 1
    ensures SuccessLine(unitName, 0) == "ok" + " " + unitName
    ensures SuccessLine(unitName, 1) == "warn" + " " + unitName + (" (" + (Decimal(1) + " " + "warning") + ")")
    ensures SuccessLine(unitName, n) == "warn" + " " + unitName + (" (" + (Decimal(n) + " " + "warnings") + ")")
    ensures FailureLine(unitName, 0, 0) == "FAIL" + " " + unitName + (" (" + (Decimal(1) + " " + "error") + ")")
    ensures FailureLine(unitName, n, 0) == "FAIL" + " " + unitName + (" (" + (Decimal(n) + " " + "errors") + ")")
    ensures FailureLine(unitName, n, n)
         == "FAIL" + " " + unitName
            + (" (" + (Decimal(n) + " " + "errors" + ", " + (Decimal(n) + " " + "warnings")) + ")")
  {
    assert Spelling(Fine) == "ok" && Spelling(Warned) == "warn" && Spelling(Failed) == "FAIL";
    assert Plural(n, "error") == "errors" && Plural(n, "warning") == "warnings";
    assert Plural(1, "error") == "error" && Plural(1, "warning") == "warning";
    hide Spelling, Plural, Decimal;
    assert "ok" + " " + unitName + "" == "ok" + " " + unitName;
  }

  // --- Reading ------------------------------------------------------------------------------

  /** `digits error` or `digits warning`, with or without an s, at the start of `s`. */
  function CountAt(s: string): Option<(string, bool, nat)> {
    var k := RunLength(IsDigit, s);
    var rest := s[k..];
    if k == 0 then None
    else if " error" <= rest then Some((s[..k], true, k + if " errors" <= rest then 7 else 6))
    else if " warning" <= rest then Some((s[..k], false, k + if " warnings" <= rest then 9 else 8))
    else None
  }

  lemma CountAtFits(s: string)
    ensures CountAt(s).Some? ==> 0 < CountAt(s).value.2 <= |s|
  {
  }

  /** All the counts in a text, from left to right; true marks errors. */
  function CountsIn(s: string): seq<(string, bool)>
    decreases |s|
  {
    if s == "" then []
    else
      CountAtFits(s);
      match CountAt(s)
      case None => CountsIn(s[1..])
      case Some((digits, isError, used)) => [(digits, isError)] + CountsIn(s[used..])
  }

  /** What a result line says about the unit, if it is one: the outcome and the rest. */
  function LineSays(unitName: string, line: string, o: Outcome): Option<string> {
    var start := Spelling(o) + " " + unitName;
    if !(start <= line) then None
    else
      var rest := line[|start|..];
      if rest == "" || (" (" <= rest && rest[|rest| - 1] == ')') then Some(rest) else None
  }

  function TrimCR(line: string): string {
    if line != "" && line[|line| - 1] == '\r' then TrimCR(line[..|line| - 1]) else line
  }

  datatype Report = Report(outcome: Outcome, errors: nat, warnings: nat)

  /** Later counts of a kind replace earlier ones. */
  function Tallied(r: Report, counts: seq<(string, bool)>): Report
    decreases |counts|
  {
    if counts == [] then r
    else if counts[0].1 then Tallied(r.(errors := Clamped(counts[0].0)), counts[1..])
    else Tallied(r.(warnings := Clamped(counts[0].0)), counts[1..])
  }

  predicate IsResult(unitName: string, line: string) {
    exists o :: LineSays(unitName, TrimCR(line), o).Some?
  }

  function ReportOf(unitName: string, line: string): Option<Report> {
    var l := TrimCR(line);
    if LineSays(unitName, l, Fine).Some? then Some(Tallied(Report(Fine, 0, 0), CountsIn(LineSays(unitName, l, Fine).value)))
    else if LineSays(unitName, l, Warned).Some? then Some(Tallied(Report(Warned, 0, 0), CountsIn(LineSays(unitName, l, Warned).value)))
    else if LineSays(unitName, l, Failed).Some? then Some(Tallied(Report(Failed, 0, 0), CountsIn(LineSays(unitName, l, Failed).value)))
    else None
  }

  /** The first result line speaks for the unit; a child without one has failed, whatever
      its exit code. */
  function ParsedFrom(unitName: string, lines: seq<string>): Report {
    if lines == [] then Report(Failed, 1, 0)
    else if ReportOf(unitName, lines[0]).Some? then ReportOf(unitName, lines[0]).value
    else ParsedFrom(unitName, lines[1..])
  }

  /** Fills a result in from the counts after the unit's name. */
  method FillCounts(empty: Report, rest: string) returns (r: Report)
    ensures r == Tallied(empty, CountsIn(rest))
  {
    r := empty;
    var counts := CountsIn(rest);
    hide CountsIn, Clamped;
    for c := 0 to |counts|
      invariant Tallied(r, counts[c..]) == Tallied(empty, counts)
    {
      assert counts[c..][0] == counts[c] && counts[c..][1..] == counts[c + 1..];
      var n := Clamped(counts[c].0);
      if counts[c].1 {
        r := r.(errors := n);
      } else {
        r := r.(warnings := n);
      }
    }
    assert counts[|counts|..] == [];
  }

  method ParseCheckResult(unitName: string, stdout: string) returns (r: Report)
    ensures r == ParsedFrom(unitName, Lines(stdout))
  {
    var lines := Lines(stdout);
    hide LineSays, TrimCR, Tallied, CountsIn;
    for i := 0 to |lines|
      invariant ParsedFrom(unitName, lines[i..]) == ParsedFrom(unitName, lines)
    {
      var line := TrimCR(lines[i]);
      assert lines[i..][0] == lines[i] && lines[i..][1..] == lines[i + 1..];
      var outcomes := [Fine, Warned, Failed];
      for j := 0 to |outcomes|
        invariant forall k :: 0 <= k < j ==> LineSays(unitName, line, outcomes[k]).None?
      {
        var said := LineSays(unitName, line, outcomes[j]);
        if said.None? {
          continue;
        }
        r := FillCounts(Report(outcomes[j], 0, 0), said.value);
        assert j > 0 ==> LineSays(unitName, line, outcomes[0]).None?;
        assert j > 1 ==> LineSays(unitName, line, outcomes[1]).None?;
        assert ReportOf(unitName, lines[i]) == Some(r);
        return;
      }
      assert LineSays(unitName, line, outcomes[0]).None? && LineSays(unitName, line, outcomes[1]).None?
          && LineSays(unitName, line, outcomes[2]).None?;
      assert ReportOf(unitName, lines[i]).None?;
    }
    assert lines[|lines|..] == [];
    return Report(Failed, 1, 0);
  }

  // --- The round trip ---------------------------------------------------------------------------

  lemma SpellingsApart(a: Outcome, b: Outcome)
    ensures a != b ==> Spelling(a)[0] != Spelling(b)[0]
  {
  }

  /** A line of the unit's own is read for its own outcome only. */
  lemma SaysItsOutcome(unitName: string, o: Outcome, rest: string, p: Outcome)
    requires rest == "" || (" (" <= rest && rest[|rest| - 1] == ')')
    ensures LineSays(unitName, ResultLine(o, unitName, rest), p) == if p == o then Some(rest) else None
  {
    SpellingsApart(o, p);
    hide Spelling;
    var line := ResultLine(o, unitName, rest);
    assert line[0] == Spelling(o)[0];
    assert (Spelling(p) + " " + unitName)[0] == Spelling(p)[0];
    if p == o {
      var start := Spelling(o) + " " + unitName;
      assert line[|start|..] == rest;
    }
  }

  lemma {:induction false} NoCount(s: string, rest: string)
    requires forall i :: 0 <= i < |s| ==> !IsDigit(s[i])
    ensures CountsIn(s + rest) == CountsIn(rest)
  {
    if s == "" {
      assert s + rest == rest;
    } else {
      assert (s + rest)[0] == s[0];
      assert RunLength(IsDigit, s + rest) == 0;
      assert (s + rest)[1..] == s[1..] + rest;
      NoCount(s[1..], rest);
    }
  }

  predicate NotMore(rest: string) {
    rest == "" || (rest[0] != 's' && !IsDigit(rest[0]))
  }

  function Word(isError: bool): string {
    if isError then "error" else "warning"
  }

  lemma ClauseAt(n: nat, isError: bool, rest: string)
    requires NotMore(rest)
    ensures var clause := Clause(n, Word(isError));
      CountAt(clause + rest) == Some((Decimal(n), isError, |clause|))
  {
    var digits, clause := Decimal(n), Clause(n, Word(isError));
    hide Decimal, Plural, NotMore;
    if isError {
      ErrorTail(n, rest);
    } else {
      WarningTail(n, rest);
    }
    PluralLength(n, isError);
    var tail := " " + Plural(n, Word(isError)) + rest;
    assert clause + rest == digits + tail;
    RunLengthIs(IsDigit, digits, tail);
    assert (digits + tail)[|digits|..] == tail && (digits + tail)[..|digits|] == digits;
    hide RunLength, Word;
  }

  lemma PluralLength(n: nat, isError: bool)
    ensures |Plural(n, Word(isError))| == (if isError then 5 else 7) + if n == 1 then 0 else 1
  {
  }

  lemma Continues(word: string, tail: string)
    ensures (word + "s") <= word + tail <==> tail != "" && tail[0] == 's'
  {
    if tail != "" && tail[0] == 's' {
      assert word + tail == (word + "s") + tail[1..];
    } else if tail != "" {
      assert (word + tail)[|word|] == tail[0] && (word + "s")[|word|] == 's';
    }
  }

  lemma ErrorTail(n: nat, rest: string)
    requires NotMore(rest)
    ensures var tail := " " + Plural(n, "error") + rest;
      " error" <= tail && (" errors" <= tail <==> n != 1)
  {
    var more := if n == 1 then rest else "s" + rest;
    assert " " + Plural(n, "error") + rest == " error" + more;
    Continues(" error", more);
    assert " errors" == " error" + "s";
  }

  lemma WarningTail(n: nat, rest: string)
    requires NotMore(rest)
    ensures var tail := " " + Plural(n, "warning") + rest;
      " warning" <= tail && !(" error" <= tail) && (" warnings" <= tail <==> n != 1)
  {
    var more := if n == 1 then rest else "s" + rest;
    var tail := " " + Plural(n, "warning") + rest;
    assert tail == " warning" + more;
    assert tail[1] == 'w';
    Continues(" warning", more);
    assert " warnings" == " warning" + "s";
  }

  lemma ClauseRead(n: nat, isError: bool, rest: string)
    requires NotMore(rest)
    ensures CountsIn(Clause(n, Word(isError)) + rest) == [(Decimal(n), isError)] + CountsIn(rest)
  {
    ClauseAt(n, isError, rest);
    var clause := Clause(n, Word(isError));
    assert (clause + rest)[|clause|..] == rest;
    hide CountAt, Clause, Decimal;
  }

  function Counts(errors: nat, warnings: nat): seq<(string, bool)> {
    (if errors > 0 then [(Decimal(errors), true)] else []) + (if warnings > 0 then [(Decimal(warnings), false)] else [])
  }

  lemma CloseRead()
    ensures CountsIn(")") == [] && NotMore(")") && NotMore(", ")
  {
  }

  lemma DescriptionRead(errors: nat, warnings: nat)
    requires errors > 0 || warnings > 0
    ensures CountsIn(DescribeDiagnostics(errors, warnings) + ")") == Counts(errors, warnings)
  {
    CloseRead();
    var e, w := Clause(errors, Word(true)), Clause(warnings, Word(false));
    if errors > 0 && warnings > 0 {
      hide CountsIn, Clause, Decimal;
      Regroup(e, ", ", w, ")");
      hide NotMore;
      ClauseRead(errors, true, ", " + (w + ")"));
      NoCount(", ", w + ")");
      ClauseRead(warnings, false, ")");
    } else {
      hide CountsIn, Clause, Decimal;
      if errors > 0 {
        ClauseRead(errors, true, ")");
      } else {
        ClauseRead(warnings, false, ")");
      }
    }
  }

  lemma CountsTallied(errors: nat, warnings: nat, o: Outcome)
    requires errors <= INT_MAX && warnings <= INT_MAX
    ensures Tallied(Report(o, 0, 0), Counts(errors, warnings)) == Report(o, errors, warnings)
  {
    DecimalReadsBack(errors);
    DecimalReadsBack(warnings);
    var e, w := (Decimal(errors), true), (Decimal(warnings), false);
    assert Clamped(e.0) == errors && Clamped(w.0) == warnings;
    hide Decimal, Value, Clamped;
    if errors > 0 && warnings > 0 {
      assert Counts(errors, warnings) == [e, w] && [e, w][1..] == [w] && [w][1..] == [];
      assert Tallied(Report(o, errors, 0), [w]) == Report(o, errors, warnings);
    } else if errors > 0 {
      assert Counts(errors, warnings) == [e];
    } else if warnings > 0 {
      assert Counts(errors, warnings) == [w];
    }
  }

  lemma Regroup(a: string, b: string, c: string, d: string)
    ensures a + b + c + d == a + (b + (c + d))
  {
  }

  /** The counts of a result line are read back as they were printed. */
  lemma DetailRead(errors: nat, warnings: nat, o: Outcome)
    requires errors > 0 || warnings > 0
    requires errors <= INT_MAX && warnings <= INT_MAX
    ensures Tallied(Report(o, 0, 0), CountsIn(Detail(errors, warnings))) == Report(o, errors, warnings)
  {
    var text := DescribeDiagnostics(errors, warnings) + ")";
    assert Detail(errors, warnings) == " (" + text;
    hide CountsIn, DescribeDiagnostics, Counts, Tallied;
    NoCount(" (", text);
    DescriptionRead(errors, warnings);
    CountsTallied(errors, warnings, o);
  }

  /** The line a parent can find again: on one line, and for `ok`, which ends in the name,
      no carriage return at the end. */
  predicate Readable(unitName: string, o: Outcome) {
    OneLine(unitName) && (o.Fine? ==> unitName == "" || unitName[|unitName| - 1] != '\r')
  }

  function Printed(o: Outcome, unitName: string, errors: nat, warnings: nat): string {
    ResultLine(o, unitName, if o.Fine? then "" else Detail(errors, warnings))
  }

  /** The outcomes with the counts they are printed with. */
  predicate Fits(o: Outcome, errors: nat, warnings: nat) {
    && errors <= INT_MAX && warnings <= INT_MAX
    && match o
       case Fine => errors == 0 && warnings == 0
       case Warned => errors == 0 && warnings > 0
       case Failed => errors > 0
  }

  lemma ClauseOneLine(n: nat, isError: bool)
    ensures OneLine(Clause(n, Word(isError)))
  {
  }

  lemma DetailShape(errors: nat, warnings: nat)
    ensures var d := Detail(errors, warnings); " (" <= d && d[|d| - 1] == ')' && OneLine(d)
  {
    ClauseOneLine(errors, true);
    ClauseOneLine(warnings, false);
    assert OneLine(DescribeDiagnostics(errors, warnings)) by {
      hide Clause;
    }
    hide DescribeDiagnostics;
  }

  lemma PrintedSays(o: Outcome, unitName: string, errors: nat, warnings: nat)
    requires Readable(unitName, o) && Fits(o, errors, warnings)
    ensures ReportOf(unitName, Printed(o, unitName, errors, warnings)) == Some(Report(o, errors, warnings))
  {
    var detail := if o.Fine? then "" else Detail(errors, warnings);
    var line := Printed(o, unitName, errors, warnings);
    if !o.Fine? {
      DetailShape(errors, warnings);
      DetailRead(errors, warnings, o);
      assert line[|line| - 1] == detail[|detail| - 1];
    } else {
      assert CountsIn("") == [] && Tallied(Report(o, 0, 0), []) == Report(o, 0, 0);
      assert line[|line| - 1] == if unitName == "" then ' ' else unitName[|unitName| - 1];
    }
    assert TrimCR(line) == line;
    SaysItsOutcome(unitName, o, detail, Fine);
    SaysItsOutcome(unitName, o, detail, Warned);
    SaysItsOutcome(unitName, o, detail, Failed);
    hide Detail, CountsIn, Tallied, LineSays, TrimCR, ResultLine;
  }

  lemma {:induction false} ParsedAfter(unitName: string, before: seq<string>, line: string, after: seq<string>)
    requires forall l :: l in before ==> ReportOf(unitName, l).None?
    ensures ReportOf(unitName, line).Some? ==>
      ParsedFrom(unitName, before + [line] + after) == ReportOf(unitName, line).value
  {
    hide ReportOf;
    if before == [] {
      assert before + [line] + after == [line] + after;
    } else {
      assert (before + [line] + after)[1..] == before[1..] + [line] + after;
      assert (before + [line] + after)[0] == before[0] && before[0] in before;
      ParsedAfter(unitName, before[1..], line, after);
    }
  }

  /** Whatever name the unit has and whatever the counts are, the parent reads what the child
      printed, if no earlier line could be taken for the unit's result. */
  lemma RoundTrip(o: Outcome, unitName: string, errors: nat, warnings: nat, earlier: string)
    requires Readable(unitName, o) && Fits(o, errors, warnings)
    requires WholeLines(earlier) && forall l :: l in Lines(earlier) ==> ReportOf(unitName, l).None?
    ensures ParsedFrom(unitName, Lines(earlier + Printed(o, unitName, errors, warnings) + "\n"))
         == Report(o, errors, warnings)
  {
    hide *;
    var line := Printed(o, unitName, errors, warnings);
    ReadableOneLine(unitName, o);
    PrintedOneLine(o, unitName, errors, warnings);
    var before := LinesAfter(earlier, line + "\n" + "");
    LinesFirst(line, "");
    LastLineOf(earlier, line);
    PrintedSays(o, unitName, errors, warnings);
    EarlierSilent(unitName, earlier, before);
    ParsedAfter(unitName, before, line, Lines(""));
    InTheMiddle(before, line, Lines(""));
  }

  lemma ReadableOneLine(unitName: string, o: Outcome)
    requires Readable(unitName, o)
    ensures OneLine(unitName)
  {
  }

  lemma LastLineOf(earlier: string, line: string)
    ensures earlier + line + "\n" == earlier + (line + "\n" + "")
  {
  }

  lemma InTheMiddle(before: seq<string>, line: string, after: seq<string>)
    ensures before + ([line] + after) == before + [line] + after
  {
  }

  lemma EarlierSilent(unitName: string, earlier: string, before: seq<string>)
    requires Lines(earlier) == before + [""] && forall l :: l in Lines(earlier) ==> ReportOf(unitName, l).None?
    ensures forall l :: l in before ==> ReportOf(unitName, l).None?
  {
  }

  lemma PrintedOneLine(o: Outcome, unitName: string, errors: nat, warnings: nat)
    requires OneLine(unitName)
    ensures OneLine(Printed(o, unitName, errors, warnings))
  {
    DetailShape(errors, warnings);
    assert OneLine(Spelling(o)) && OneLine(" ");
    hide Detail, Spelling;
  }

  lemma {:induction false} NoneParsed(unitName: string, lines: seq<string>)
    requires forall l :: l in lines ==> ReportOf(unitName, l).None?
    ensures ParsedFrom(unitName, lines) == Report(Failed, 1, 0)
  {
    hide ReportOf;
    if lines != [] {
      NoneParsed(unitName, lines[1..]);
    }
  }

  /** A unit whose line cannot be found again is a failure, never clean, whatever else the
      child printed before that is not taken for a result. */
  lemma UnreadableFails(o: Outcome, unitName: string, errors: nat, warnings: nat, earlier: string)
    requires !Readable(unitName, o) && (o.Fine? || !OneLine(unitName))
    requires WholeLines(earlier) && forall l :: l in Lines(earlier) ==> ReportOf(unitName, l).None?
    ensures ParsedFrom(unitName, Lines(earlier + Printed(o, unitName, errors, warnings) + "\n")) == Report(Failed, 1, 0)
  {
    var line := Printed(o, unitName, errors, warnings);
    var text := earlier + line + "\n";
    var lines := Lines(text);
    if !OneLine(unitName) {
      EachLineOne(text);
      forall l | l in lines
        ensures ReportOf(unitName, l).None?
      {
        SplitNameUnseen(unitName, l);
      }
    } else {
      PrintedOneLine(o, unitName, errors, warnings);
      ReturnUnseen(unitName, line);
      ReturnUnseen(unitName, "");
      hide *;
      LastLineOf(earlier, line);
      var before := LinesAfter(earlier, line + "\n" + "");
      LinesFirst(line, "");
      EmptyLines();
      EarlierSilent(unitName, earlier, before);
      assert lines == before + ([line] + [""]);
    }
    hide *;
    NoneParsed(unitName, lines);
  }

  lemma {:induction false} TrimCRShorter(line: string)
    ensures TrimCR(line) <= line
    ensures TrimCR(line) == "" || TrimCR(line)[|TrimCR(line)| - 1] != '\r'
  {
    if line != "" && line[|line| - 1] == '\r' {
      TrimCRShorter(line[..|line| - 1]);
    }
  }

  lemma SplitNameUnseen(unitName: string, line: string)
    requires OneLine(line) && !OneLine(unitName)
    ensures ReportOf(unitName, line).None?
  {
    TrimCRShorter(line);
    var l := TrimCR(line);
    var i :| 0 <= i < |unitName| && unitName[i] == '\n';
    hide TrimCR, Spelling;
    forall o
      ensures LineSays(unitName, l, o).None?
    {
      var start := Spelling(o) + " " + unitName;
      assert start[|Spelling(o)| + 1 + i] == '\n';
    }
  }

  /** A name that ends in a carriage return is not found on a line that ends in the name. */
  lemma ReturnUnseen(unitName: string, line: string)
    requires unitName != "" && unitName[|unitName| - 1] == '\r'
    requires line == "" || line == ResultLine(Fine, unitName, "")
    ensures ReportOf(unitName, line).None?
  {
    TrimCRShorter(line);
    var l := TrimCR(line);
    hide TrimCR;
    SpellingsApart(Fine, Warned);
    SpellingsApart(Fine, Failed);
    hide Spelling;
    forall o
      ensures LineSays(unitName, l, o).None?
    {
      var start := Spelling(o) + " " + unitName;
      assert start[|start| - 1] == '\r' && start[0] == Spelling(o)[0];
      assert line != "" ==> line[0] == Spelling(Fine)[0];
      assert line != "" && o.Fine? ==> start == line;
    }
  }

  // --- The sweep -----------------------------------------------------------------------------

  function CountOutcome(o: Outcome, rs: seq<Report>): nat {
    if rs == [] then 0 else CountOutcome(o, rs[..|rs| - 1]) + if rs[|rs| - 1].outcome == o then 1 else 0
  }

  lemma NextOutcome(o: Outcome, rs: seq<Report>, i: nat)
    requires i < |rs|
    ensures CountOutcome(o, rs[..i + 1]) == CountOutcome(o, rs[..i]) + if rs[i].outcome == o then 1 else 0
  {
    assert rs[..i + 1][..i] == rs[..i];
  }

  /** Every unit is counted once, and the sweep fails exactly when some unit did. */
  method SumUp(rs: seq<Report>) returns (checked: nat, warned: nat, failed: nat, exit: nat)
    ensures checked == CountOutcome(Fine, rs) && warned == CountOutcome(Warned, rs) && failed == CountOutcome(Failed, rs)
    ensures checked + warned + failed == |rs|
    ensures exit != 0 <==> exists r :: r in rs && r.outcome.Failed?
  {
    checked, warned, failed := 0, 0, 0;
    for i := 0 to |rs|
      invariant checked == CountOutcome(Fine, rs[..i]) && warned == CountOutcome(Warned, rs[..i])
      invariant failed == CountOutcome(Failed, rs[..i])
      invariant checked + warned + failed == i
      invariant failed > 0 <==> exists j :: 0 <= j < i && rs[j].outcome.Failed?
    {
      NextOutcome(Fine, rs, i);
      NextOutcome(Warned, rs, i);
      NextOutcome(Failed, rs, i);
      if rs[i].outcome.Fine? {
        checked := checked + 1;
        continue;
      }
      if rs[i].outcome.Warned? {
        warned := warned + 1;
        continue;
      }
      failed := failed + 1;
    }
    assert rs[..|rs|] == rs;
    exit := if failed > 0 then 1 else 0;
  }
}
