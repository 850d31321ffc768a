/**
 What becomes of one result line: how the child counts it, what it prints of it, and what
 the parent makes of the file it stands in. Lines are given as the test binary writes them.
 */
module TestReports {
  import opened Wrappers
  import opened Text
  import opened TestOutcome

  // --- Lines with a time ------------------------------------------------------------------

  /** A time, as in `0.012`. */
  predicate Clock(s: string) {
    s != "" && forall i :: 0 <= i < |s| ==> '0' <= s[i] <= '9' || s[i] == '.'
  }

  /** What may stand in the parentheses of a line without a time. */
  predicate Inside(s: string) {
    s != "" && ')' !in s
  }

  /** Nothing, or a blank and more. */
  predicate Detail(s: string) {
    s == "" || (s[0] == ' ' && |s| > 1)
  }

  lemma ClockedLine(w: Word, clock: string, detail: string)
    requires Clock(clock) && (w.Pass? || Detail(detail))
    ensures Clocked(w, Spelling(w) + " (" + clock + "s)" + detail)
  {
    hide Spelling;
    var rest := clock + ("s)" + detail);
    assert Spelling(w) + " (" + clock + "s)" + detail == (Spelling(w) + " (") + rest;
    AfterPrefix(Spelling(w) + " (", rest);
    RunLengthIs(IsClock, clock, "s)" + detail);
    assert rest[|clock|..] == "s)" + detail;
    AfterPrefix("s)", detail);
  }

  lemma BracketedLine(w: Word, inside: string, detail: string)
    requires Inside(inside) && Detail(detail)
    ensures Bracketed(w, Spelling(w) + " (" + inside + ")" + detail)
  {
    hide Spelling;
    var rest := inside + (")" + detail);
    assert Spelling(w) + " (" + inside + ")" + detail == (Spelling(w) + " (") + rest;
    AfterPrefix(Spelling(w) + " (", rest);
    RunLengthIs(NotClose, inside, ")" + detail);
    assert rest[|inside| + 1..] == detail;
  }

  lemma NotOther(w: Word, w': Word, rest: string)
    requires w != w'
    ensures !Clocked(w', Spelling(w) + rest) && !Bracketed(w', Spelling(w) + rest)
  {
    OtherWord(w, w', rest);
    hide Spelling;
  }

  lemma ClassOfClocked(w: Word, rest: string)
    requires Clocked(w, Spelling(w) + rest)
    ensures w.Pass? ==> Classify(Spelling(w) + rest) == PassLine
    ensures w.Fail? ==> Classify(Spelling(w) + rest) == FailLine
    ensures w.Leak? ==> Classify(Spelling(w) + rest) == LeakLine
  {
    hide Clocked, Bracketed, Spelling, ReadSummary;
    forall w' | w' != w
      ensures !Clocked(w', Spelling(w) + rest)
    {
      NotOther(w, w', rest);
    }
  }

  lemma ClassOfBracketed(w: Word, rest: string)
    requires Bracketed(w, Spelling(w) + rest)
    ensures w.Timeout? ==> Classify(Spelling(w) + rest) == TimeoutLine
    ensures w.MemLimit? ==> Classify(Spelling(w) + rest) == MemLimitLine
    ensures w.Incomplete? ==> Classify(Spelling(w) + rest) == IncompleteLine
  {
    hide Clocked, Bracketed, Spelling, ReadSummary;
    forall w' | w' != w
      ensures !Clocked(w', Spelling(w) + rest) && !Bracketed(w', Spelling(w) + rest)
    {
      NotOther(w, w', rest);
    }
  }

  lemma Spaced(w: Word, inside: string, close: string, detail: string)
    ensures Spelling(w) + " (" + inside + close + detail == Spelling(w) + (" (" + inside + close + detail)
  {
    hide Spelling;
  }

  /** The parent takes every line with a time for what it says. */
  lemma ResultLineRead(clock: string, detail: string)
    requires Clock(clock)
    ensures Classify("pass" + " (" + clock + "s)" + detail) == PassLine
    ensures Detail(detail) ==> Classify("FAIL" + " (" + clock + "s)" + detail) == FailLine
    ensures Detail(detail) ==> Classify("LEAK" + " (" + clock + "s)" + detail) == LeakLine
  {
    assert Spelling(Pass) == "pass" && Spelling(Fail) == "FAIL" && Spelling(Leak) == "LEAK";
    hide Spelling, Classify, Clocked;
    forall w: Word | w.Pass? || ((w.Fail? || w.Leak?) && Detail(detail))
      ensures var line := Spelling(w) + " (" + clock + "s)" + detail;
        && (w.Pass? ==> Classify(line) == PassLine) && (w.Fail? ==> Classify(line) == FailLine)
        && (w.Leak? ==> Classify(line) == LeakLine)
    {
      ClockedLine(w, clock, detail);
      Spaced(w, clock, "s)", detail);
      ClassOfClocked(w, " (" + clock + "s)" + detail);
    }
  }

  /** And every line of the other three, with or without a time. */
  lemma OtherLineRead(inside: string, detail: string)
    requires Inside(inside) && Detail(detail)
    ensures Classify("TIMEOUT" + " (" + inside + ")" + detail) == TimeoutLine
    ensures Classify("MEMLIMIT" + " (" + inside + ")" + detail) == MemLimitLine
    ensures Classify("INCOMPLETE" + " (" + inside + ")" + detail) == IncompleteLine
  {
    assert Spelling(Timeout) == "TIMEOUT" && Spelling(MemLimit) == "MEMLIMIT" && Spelling(Incomplete) == "INCOMPLETE";
    hide Spelling, Classify, Bracketed;
    forall w: Word | Synthesized(w)
      ensures var line := Spelling(w) + " (" + inside + ")" + detail;
        && (w.Timeout? ==> Classify(line) == TimeoutLine) && (w.MemLimit? ==> Classify(line) == MemLimitLine)
        && (w.Incomplete? ==> Classify(line) == IncompleteLine)
    {
      BracketedLine(w, inside, detail);
      Spaced(w, inside, ")", detail);
      ClassOfBracketed(w, " (" + inside + ")" + detail);
    }
  }

  predicate BadClass(c: Class) {
    c.FailLine? || c.LeakLine? || c.TimeoutLine? || c.MemLimitLine? || c.IncompleteLine?
  }

  lemma {:induction false} TallyBad(lines: seq<string>, i: nat)
    requires i < |lines| && BadClass(Classify(lines[i]))
    ensures !NothingBad(TallyOf(lines))
    decreases |lines|
  {
    hide Classify;
    var last := |lines| - 1;
    if i < last {
      TallyBad(lines[..last], i);
    }
  }

  /** A file whose process failed and whose output holds such a line anywhere counts as
      failed, whatever else it printed: it is no shutdown crash. Only a file that says it has
      nothing to run is left out. */
  lemma BadLineFailsFile(r: FileResult, i: nat)
    requires r.failed && i < |Lines(r.output)| && BadClass(Classify(Lines(r.output)[i]))
    ensures CountsAsFailed(Judge(r)) || Judge(r).LeftOut?
    ensures r.timedOut || !(LastLine(r.output) == "no tests found" || "SKIP" <= LastLine(r.output)) ==> CountsAsFailed(Judge(r))
  {
    TallyBad(Lines(r.output), i);
    hide Classify, Lines, LastLine, TallyOf;
  }

  /** Which files are left out: those whose last line says so. */
  lemma LeftOutExactly(r: FileResult)
    ensures Judge(r).LeftOut? <==> !r.timedOut && (LastLine(r.output) == "no tests found" || "SKIP" <= LastLine(r.output))
  {
    hide Classify, Lines, LastLine, TallyOf;
  }

  // --- The child's side ----------------------------------------------------------------------

  /** A test name as the child reads it: up to the next blank. */
  predicate Name(s: string) {
    s != "" && forall i :: 0 <= i < |s| ==> !IsBlank(s[i])
  }

  predicate AfterName(s: string) {
    s == "" || IsBlank(s[0])
  }

  lemma NameReported(w: Word, clock: string, name: string, rest: string)
    requires Clock(clock) && Name(name) && AfterName(rest)
    ensures ReportedName(w, Spelling(w) + " (" + clock + "s) " + name + rest) == Some(name)
  {
    hide Spelling, IsBlank;
    var tail := name + rest;
    var inner := clock + ("s) " + tail);
    assert Spelling(w) + " (" + clock + "s) " + name + rest == (Spelling(w) + " (") + inner;
    AfterPrefix(Spelling(w) + " (", inner);
    RunLengthIs(IsClock, clock, "s) " + tail);
    assert inner[|clock|..] == "s) " + tail;
    AfterPrefix("s) ", tail);
    RunLengthIs(NotBlank, name, rest);
    assert tail[..|name|] == name;
  }

  lemma NoOtherName(w: Word, w': Word, rest: string)
    requires w != w'
    ensures ReportedName(w', Spelling(w) + rest).None?
  {
    OtherWord(w, w', rest);
    hide Spelling;
  }

  lemma ReportIs(w: Word, clock: string, name: string, rest: string)
    requires Clock(clock) && Name(name) && AfterName(rest) && !w.MemLimit? && !w.Incomplete?
    ensures ReportOf(Spelling(w) + " (" + clock + "s) " + name + rest) == Some((w, name))
  {
    hide Spelling, ReportedName, Clock, Name, AfterName;
    var line := Spelling(w) + " (" + clock + "s) " + name + rest;
    NameReported(w, clock, name, rest);
    Spaced(w, clock, "s) ", name + rest);
    JoinName(w, clock, name, rest);
    forall w' | w' != w
      ensures ReportedName(w', line).None?
    {
      NoOtherName(w, w', " (" + clock + "s) " + (name + rest));
    }
  }

  lemma JoinName(w: Word, clock: string, name: string, rest: string)
    ensures Spelling(w) + " (" + clock + "s) " + name + rest == Spelling(w) + " (" + clock + "s) " + (name + rest)
  {
    hide Spelling;
  }

  /** The child takes a line for the result of the test it names. */
  lemma ReportRead(clock: string, name: string, rest: string)
    requires Clock(clock) && Name(name) && AfterName(rest)
    ensures ReportOf("pass" + " (" + clock + "s) " + name + rest) == Some((Pass, name))
    ensures ReportOf("FAIL" + " (" + clock + "s) " + name + rest) == Some((Fail, name))
    ensures ReportOf("LEAK" + " (" + clock + "s) " + name + rest) == Some((Leak, name))
    ensures ReportOf("TIMEOUT" + " (" + clock + "s) " + name + rest) == Some((Timeout, name))
  {
    assert Spelling(Pass) == "pass" && Spelling(Fail) == "FAIL" && Spelling(Leak) == "LEAK" && Spelling(Timeout) == "TIMEOUT";
    hide Spelling, ReportOf;
    ReportIs(Pass, clock, name, rest);
    ReportIs(Fail, clock, name, rest);
    ReportIs(Leak, clock, name, rest);
    ReportIs(Timeout, clock, name, rest);
  }

  // --- The summary, rewritten ------------------------------------------------------------------

  predicate Digits(s: string) {
    s != "" && AllDigits(s)
  }

  predicate DigitFields(fields: seq<Option<string>>) {
    forall f :: f in fields && f.Some? ==> Digits(f.value)
  }

  /** What reading gives is digits. */
  lemma {:induction false} FieldsAreDigits(i: nat, last: nat, s: string)
    requires i <= last <= FIELDS
    ensures DigitFields(ReadFields(i, last, s))
    decreases last - i
  {
    hide Label, After;
    if i < last {
      match ReadField(i, s)
      case None => FieldsAreDigits(i + 1, last, s);
      case Some((digits, rest)) => FieldsAreDigits(i + 1, last, rest);
    }
  }

  lemma SummaryIsDigits(line: string, m: Summary)
    requires ReadSummary(CHILD_FIELDS, line) == Some(m)
    ensures Digits(m.passed) && Digits(m.failed) && DigitFields(m.fields) && |m.fields| == CHILD_FIELDS
  {
    hide ReadFields;
    var r := ReadNumber(line).value.1;
    var r2 := After(" passed, ", r).value;
    var r3 := ReadNumber(r2).value.1;
    FieldsAreDigits(0, CHILD_FIELDS, After(" failed", r3).value);
  }

  lemma DigitsRead(digits: string, rest: string)
    requires Digits(digits) && (rest == "" || !IsDigit(rest[0]))
    ensures ReadNumber(digits + rest) == Some((digits, rest))
  {
    RunLengthIs(IsDigit, digits, rest);
    assert (digits + rest)[..|digits|] == digits && (digits + rest)[|digits|..] == rest;
  }

  function FieldText(i: nat, digits: string): string
    requires i < FIELDS
  {
    ", " + digits + " " + Label(i)
  }

  lemma FieldTextRead(i: nat, j: nat, digits: string, rest: string)
    requires i < FIELDS && j < FIELDS && Digits(digits)
    ensures ReadField(i, FieldText(j, digits) + rest) == if i == j then Some((digits, rest)) else None
  {
    hide Label, ReadNumber, Digits;
    var tail := " " + Label(j) + rest;
    assert FieldText(j, digits) + rest == ", " + (digits + tail);
    AfterPrefix(", ", digits + tail);
    DigitsRead(digits, tail);
    if i == j {
      AfterPrefix(" " + Label(i), rest);
    } else {
      LabelsApart(i, j, rest);
      NotContinued(" ", Label(i), Label(j) + rest);
      assert " " + (Label(j) + rest) == tail;
    }
  }

  lemma FieldAt(fields: seq<Option<string>>, k: nat)
    requires k < |fields| == FIELDS
    ensures RewriteFields(k, fields)
         == (if fields[k].Some? then FieldText(k, fields[k].value) else "") + RewriteFields(k + 1, fields)
  {
  }

  lemma Attach(a: string, b: string, c: string)
    ensures a + b + c == a + (b + c) && "" + b == b
  {
  }

  lemma {:induction false} LaterRefusedText(i: nat, k: nat, fields: seq<Option<string>>, rest: string)
    requires i < k <= |fields| == FIELDS && DigitFields(fields) && Ends(rest)
    ensures ReadField(i, RewriteFields(k, fields) + rest).None?
    decreases FIELDS - k
  {
    if k == FIELDS {
      assert RewriteFields(k, fields) + rest == rest;
      hide ReadField;
      EndRefused(i, rest);
    } else {
      hide *;
      FieldAt(fields, k);
      DigitsAt(fields, k);
      if fields[k].Some? {
        FieldTextRead(i, k, fields[k].value, RewriteFields(k + 1, fields) + rest);
        Attach(FieldText(k, fields[k].value), RewriteFields(k + 1, fields), rest);
      } else {
        LaterRefusedText(i, k + 1, fields, rest);
        Attach("", RewriteFields(k + 1, fields), rest);
      }
    }
  }

  lemma DigitsAt(fields: seq<Option<string>>, k: nat)
    requires DigitFields(fields) && k < |fields|
    ensures fields[k].Some? ==> Digits(fields[k].value)
  {
  }

  lemma {:induction false} RewrittenFieldsRead(i: nat, fields: seq<Option<string>>, rest: string)
    requires i <= |fields| == FIELDS && DigitFields(fields) && Ends(rest)
    ensures ReadFields(i, FIELDS, RewriteFields(i, fields) + rest) == fields[i..]
    decreases FIELDS - i
  {
    if i == FIELDS {
      assert fields[i..] == [];
    } else {
      hide *;
      RewrittenFieldsRead(i + 1, fields, rest);
      FieldAt(fields, i);
      DigitsAt(fields, i);
      var text := RewriteFields(i, fields) + rest;
      if fields[i].Some? {
        Attach(FieldText(i, fields[i].value), RewriteFields(i + 1, fields), rest);
        FieldTextRead(i, i, fields[i].value, RewriteFields(i + 1, fields) + rest);
      } else {
        Attach("", RewriteFields(i + 1, fields), rest);
        LaterRefusedText(i, i + 1, fields, rest);
      }
      ReadFieldsFrom(i, text);
      assert fields[i..] == [fields[i]] + fields[i + 1..];
    }
  }

  /** The fields a child never prints are absent. */
  function Padded(fields: seq<Option<string>>): (all: seq<Option<string>>)
    requires |fields| == CHILD_FIELDS
    ensures |all| == FIELDS
  {
    fields + [None, None]
  }

  lemma {:induction false} PaddedText(i: nat, fields: seq<Option<string>>)
    requires |fields| == CHILD_FIELDS && i <= CHILD_FIELDS
    ensures RewriteFields(i, Padded(fields)) == RewriteFields(i, fields)
    decreases CHILD_FIELDS - i
  {
    if i < CHILD_FIELDS {
      PaddedText(i + 1, fields);
    } else {
      assert RewriteFields(7, Padded(fields)) == "";
      assert RewriteFields(6, Padded(fields)) == "";
    }
  }

  /** Every optional field, spelled out. */
  function SpelledFields(f: seq<string>): string
    requires |f| == 7
  {
    ", " + f[0] + " " + "skipped" + (", " + f[1] + " " + "leaked" + (", " + f[2] + " " + "timed out"
    + (", " + f[3] + " " + "allowed leaks" + (", " + f[4] + " " + "stale allow_leaks"
    + (", " + f[5] + " " + "memlimit" + (", " + f[6] + " " + "incomplete"))))))
  }

  function AllSome(f: seq<string>): (fields: seq<Option<string>>)
    ensures |fields| == |f| && forall i :: 0 <= i < |f| ==> fields[i] == Some(f[i])
  {
    seq(|f|, i requires 0 <= i < |f| => Some(f[i]))
  }

  lemma SpelledAre(f: seq<string>)
    requires |f| == 7
    ensures RewriteFields(0, AllSome(f)) == SpelledFields(f)
  {
    var fields := AllSome(f);
    assert RewriteFields(7, fields) == "";
    assert Label(0) == "skipped" && Label(1) == "leaked" && Label(2) == "timed out" && Label(3) == "allowed leaks";
    assert Label(4) == "stale allow_leaks" && Label(5) == "memlimit" && Label(6) == "incomplete";
    hide RewriteFields, Label;
    FieldAt(fields, 6);
    FieldAt(fields, 5);
    FieldAt(fields, 4);
    FieldAt(fields, 3);
    FieldAt(fields, 2);
    FieldAt(fields, 1);
    FieldAt(fields, 0);
    assert FieldText(6, f[6]) + "" == FieldText(6, f[6]);
  }

  /** A summary with every field, spelled out, as the parent reads it. */
  lemma SpelledSummaryRead(p: string, q: string, f: seq<string>, rest: string)
    requires Digits(p) && Digits(q) && Ends(rest) && |f| == 7 && forall d :: d in f ==> Digits(d)
    ensures ReadSummary(FIELDS, p + (" passed, " + (q + (" failed" + (SpelledFields(f) + rest)))))
         == Some(Summary(p, q, AllSome(f)))
  {
    SpelledAre(f);
    assert DigitFields(AllSome(f));
    hide Digits, RewriteFields, ReadFields, ReadNumber, Ends, DigitFields, SpelledFields, AllSome;
    var tail := SpelledFields(f) + rest;
    var r3 := " failed" + tail;
    var r2 := q + r3;
    var r := " passed, " + r2;
    DigitsRead(p, r);
    AfterPrefix(" passed, ", r2);
    DigitsRead(q, r3);
    AfterPrefix(" failed", tail);
    RewrittenFieldsRead(0, AllSome(f), rest);
    assert AllSome(f)[0..] == AllSome(f);
  }

  /** The counts of a summary as a line of text. */
  function SummaryText(m: Summary): string
    requires |m.fields| == CHILD_FIELDS
  {
    m.passed + " passed, " + m.failed + " failed" + RewriteFields(0, m.fields)
  }

  lemma SummaryTextRead(m: Summary, rest: string)
    requires |m.fields| == CHILD_FIELDS && Digits(m.passed) && Digits(m.failed) && DigitFields(m.fields) && Ends(rest)
    ensures ReadSummary(FIELDS, SummaryText(m) + rest) == Some(Summary(m.passed, m.failed, Padded(m.fields)))
  {
    hide Digits, RewriteFields, ReadFields, ReadNumber, Ends;
    var fields := RewriteFields(0, m.fields) + rest;
    var r3 := " failed" + fields;
    var r2 := m.failed + r3;
    var r := " passed, " + r2;
    assert SummaryText(m) + rest == m.passed + r;
    DigitsRead(m.passed, r);
    AfterPrefix(" passed, ", r2);
    DigitsRead(m.failed, r3);
    AfterPrefix(" failed", fields);
    PaddedText(0, m.fields);
    RewrittenFieldsRead(0, Padded(m.fields), rest);
    assert Padded(m.fields)[0..] == Padded(m.fields);
  }

  /** The summary a child reprints carries the counts of the one it read, every field of it,
      and the parent reads them. */
  lemma RewrittenReadsBack(line: string, m: Summary, setting: Setting)
    requires ReadSummary(CHILD_FIELDS, line) == Some(m) && ProperSetting(setting)
    ensures |m.fields| == CHILD_FIELDS
    ensures Rewritten(m, setting) == "\n" + (SummaryText(m) + Timing(setting)) + "\n"
    ensures Classify(SummaryText(m) + Timing(setting)) == SummaryLine(Summary(m.passed, m.failed, Padded(m.fields)))
  {
    SummaryIsDigits(line, m);
    RewrittenParts(m, setting);
    TimingStops(setting);
    hide Classify, ReadSummary, Rewritten, Timing, RewriteFields, Stops, Ends, ProperSetting;
    SummaryTextRead(m, Timing(setting));
    var text := SummaryText(m) + Timing(setting);
    assert text[0] == m.passed[0] && IsDigit(m.passed[0]);
    hide SummaryText;
    DigitFirst(text);
  }

  lemma RewrittenParts(m: Summary, setting: Setting)
    requires |m.fields| == CHILD_FIELDS
    ensures Rewritten(m, setting) == "\n" + (SummaryText(m) + Timing(setting)) + "\n"
  {
    hide RewriteFields;
  }

  // --- What is reprinted ------------------------------------------------------------------------

  lemma {:induction false} PrintedAt(lines: seq<string>, i: nat, setting: Setting, opts: Options) returns (after: string)
    requires i < |lines|
    ensures PrintedText(lines, setting, opts) == PrintedText(lines[..i], setting, opts) + PrintedLine(lines[i], setting, opts) + after
    decreases |lines|
  {
    hide PrintedLine;
    var last := |lines| - 1;
    if i == last {
      after := "";
    } else {
      var front := lines[..last];
      var more := PrintedAt(front, i, setting, opts);
      assert front[..i] == lines[..i];
      after := more + PrintedLine(lines[last], setting, opts);
    }
  }

  /** Every line but empty ones, the memory-limit message and summaries is printed again,
      in its place; result lines are followed by the suffix. */
  lemma Reprinted(lines: seq<string>, i: nat, setting: Setting, opts: Options) returns (after: string)
    requires i < |lines| && lines[i] != "" && ReadSummary(CHILD_FIELDS, lines[i]).None?
    requires !(opts.dropMemlimitFatal && "fatal: memory limit exceeded" <= lines[i])
    ensures WholeLines(PrintedText(lines[..i], setting, opts))
    ensures PrintedText(lines, setting, opts)
         == PrintedText(lines[..i], setting, opts)
            + (lines[i] + (if IsOutcomeLine(lines[i]) then setting.suffix else "")) + "\n" + after
  {
    PlainPrinted(lines[i], setting, opts);
    hide *;
    after := PrintedAt(lines, i, setting, opts);
    Attach(PrintedText(lines[..i], setting, opts), lines[i] + (if IsOutcomeLine(lines[i]) then setting.suffix else ""), "\n");
  }

  lemma PlainPrinted(line: string, setting: Setting, opts: Options)
    requires line != "" && ReadSummary(CHILD_FIELDS, line).None?
    requires !(opts.dropMemlimitFatal && "fatal: memory limit exceeded" <= line)
    ensures PrintedLine(line, setting, opts) == line + (if IsOutcomeLine(line) then setting.suffix else "") + "\n"
  {
    hide ReadSummary, IsOutcomeLine;
    assert line + "" == line;
  }

  /** The suffix goes on result lines, all of them and no others. */
  lemma SuffixedExactly(line: string)
    ensures IsOutcomeLine(line)
       <==> "pass " <= line || "FAIL " <= line || "LEAK " <= line || "TIMEOUT " <= line || "MEMLIMIT " <= line
            || "INCOMPLETE " <= line
  {
    assert "pass" + " " == "pass " && "FAIL" + " " == "FAIL " && "LEAK" + " " == "LEAK " && "TIMEOUT" + " " == "TIMEOUT ";
    assert "MEMLIMIT" + " " == "MEMLIMIT " && "INCOMPLETE" + " " == "INCOMPLETE ";
    assert Spelling(Pass) == "pass" && Spelling(Fail) == "FAIL" && Spelling(Leak) == "LEAK" && Spelling(Timeout) == "TIMEOUT";
    assert Spelling(MemLimit) == "MEMLIMIT" && Spelling(Incomplete) == "INCOMPLETE";
    hide Spelling;
  }

  lemma OneSummary(line: string)
    ensures ReadSummary(FIELDS, line).Some? <==> ReadSummary(CHILD_FIELDS, line).Some?
  {
    hide ReadFields;
  }

  lemma PrintedNoSummary(line: string, setting: Setting, opts: Options)
    requires opts.dropSummary && OneLine(line) && OneLine(setting.suffix)
    ensures PrintedLine(line, setting, opts) == ""
         || exists text :: PrintedLine(line, setting, opts) == text + "\n" && OneLine(text) && !Classify(text).SummaryLine?
  {
    if PrintedLine(line, setting, opts) != "" {
      var suffix := if setting.suffix != "" && IsOutcomeLine(line) then setting.suffix else "";
      SuffixOneLine(setting.suffix, suffix);
      OneLineJoin(line, suffix);
      var text := line + suffix;
      if suffix == "" {
        assert text == line;
        OneSummary(line);
      } else {
        OutcomeLineStarts(line, suffix);
        NoSummary(text);
        OneSummary(text);
      }
      ClassSummary(text);
      hide ReadSummary, Classify, IsOutcomeLine;
      assert PrintedLine(line, setting, opts) == text + "\n";
    }
  }

  lemma OutcomeLineStarts(line: string, suffix: string)
    requires IsOutcomeLine(line)
    ensures line + suffix != "" && !IsDigit((line + suffix)[0])
  {
    var w :| Spelling(w) + " " <= line;
    WordsApart(w, w);
    assert line[0] == Spelling(w)[0];
  }

  lemma ClassSummary(line: string)
    ensures Classify(line).SummaryLine? ==> ReadSummary(FIELDS, line).Some?
  {
    hide ReadSummary, Clocked, Bracketed;
  }

  /** Of a run cut short by its time no summary of the test binary's own is left: the only one
      the parent finds is the one that counts what never reported. */
  lemma {:induction false} NoStaleSummary(lines: seq<string>, setting: Setting, opts: Options)
    requires opts.dropSummary && OneLine(setting.suffix) && forall line :: line in lines ==> OneLine(line)
    ensures forall line :: line in Lines(PrintedText(lines, setting, opts)) ==> !Classify(line).SummaryLine?
    decreases |lines|
  {
    EmptyIsOther();
    if lines == [] {
      EmptyLines();
    } else {
      var last := |lines| - 1;
      var front := PrintedText(lines[..last], setting, opts);
      NoStaleSummary(lines[..last], setting, opts);
      PrintedNoSummary(lines[last], setting, opts);
      hide PrintedLine, Classify, Lines, OneLine, WholeLines;
      var printed := PrintedLine(lines[last], setting, opts);
      assert PrintedText(lines, setting, opts) == front + printed;
      hide PrintedText;
      if printed == "" {
        assert front + printed == front;
      } else {
        var text :| printed == text + "\n" && OneLine(text) && !Classify(text).SummaryLine?;
        var before := LinesAfter(front, text + "\n" + "");
        assert text + "\n" + "" == printed;
        LinesFirst(text, "");
        EmptyLines();
      }
    }
  }

  lemma EmptyIsOther()
    ensures !Classify("").SummaryLine?
  {
  }

  lemma CutByTimeDrops(run: TestRun)
    ensures !run.end.Exited? ==> OptionsFor(run).dropSummary
    ensures run.end.Exited? ==> !OptionsFor(run).dropSummary
  {
  }

  /** And the summary too, rewritten, unless the run was cut short by its time. */
  lemma SummaryReprinted(lines: seq<string>, i: nat, setting: Setting, opts: Options, m: Summary) returns (after: string)
    requires i < |lines| && ReadSummary(CHILD_FIELDS, lines[i]) == Some(m) && !opts.dropSummary && ProperSetting(setting)
    ensures WholeLines(PrintedText(lines[..i], setting, opts)) && |m.fields| == CHILD_FIELDS
    ensures PrintedText(lines, setting, opts)
         == PrintedText(lines[..i], setting, opts) + ("\n" + (SummaryText(m) + Timing(setting)) + "\n") + after
    ensures Classify(SummaryText(m) + Timing(setting)) == SummaryLine(Summary(m.passed, m.failed, Padded(m.fields)))
  {
    after := PrintedAt(lines, i, setting, opts);
    RewrittenReadsBack(lines[i], m, setting);
    SummaryIsRead(lines[i], opts);
    hide PrintedText, ReadSummary, Classify, SummaryText, Timing, Rewritten;
  }

  lemma SummaryIsRead(line: string, opts: Options)
    requires ReadSummary(CHILD_FIELDS, line).Some?
    ensures Read(line, opts)
  {
    assert line != "" && IsDigit(line[0]);
  }

  // --- A failure, from the test to the verdict on its file ------------------------------------------

  /** A result line of a test that did not pass. */
  function BadReport(w: Word, clock: string, name: string, rest: string): string {
    Spelling(w) + " (" + clock + "s)" + (" " + name + rest)
  }

  predicate Bad(w: Word) {
    w.Fail? || w.Leak? || w.Timeout?
  }

  lemma BadStarts(w: Word, clock: string, detail: string)
    requires Bad(w) && Clock(clock) && OneLine(detail)
    ensures var line := Spelling(w) + " (" + clock + "s)" + detail;
      line != "" && !IsSpace(line[0]) && OneLine(line) && !IsDigit(line[0])
  {
    WordsApart(w, w);
    var line := Spelling(w) + " (" + clock + "s)" + detail;
    assert line[0] == Spelling(w)[0];
    assert OneLine(" (") && OneLine(clock) && OneLine("s)");
    hide Spelling, IsSpace, IsDigit, Clock;
    OneLineJoin(Spelling(w), " (");
    OneLineJoin(Spelling(w) + " (", clock);
    OneLineJoin(Spelling(w) + " (" + clock, "s)");
    OneLineJoin(Spelling(w) + " (" + clock + "s)", detail);
  }

  lemma BadClassOf(w: Word, clock: string, detail: string)
    requires Bad(w) && Clock(clock) && Detail(detail)
    ensures BadClass(Classify(Spelling(w) + " (" + clock + "s)" + detail))
  {
    hide Classify, Clocked, Bracketed;
    var rest := " (" + clock + "s)" + detail;
    Spaced(w, clock, "s)", detail);
    if w.Timeout? {
      var inside := clock + "s";
      assert ')' !in inside;
      BracketedLine(w, inside, detail);
      assert Spelling(w) + " (" + inside + ")" + detail == Spelling(w) + rest by {
        hide Spelling, Clock;
        assert clock + "s" + ")" == clock + "s)";
      }
      hide Spelling, Clock;
      ClassOfBracketed(w, rest);
    } else {
      ClockedLine(w, clock, detail);
      hide Spelling, Clock;
      ClassOfClocked(w, rest);
    }
  }

  /** Trimming leaves a result line a result line. */
  lemma BadTrimmed(w: Word, clock: string, detail: string)
    requires Bad(w) && Clock(clock) && Detail(detail)
    ensures BadClass(Classify(TrimRight(Spelling(w) + " (" + clock + "s)" + detail)))
  {
    var head := Spelling(w) + " (" + clock + "s)";
    TrimRightAfter(head, detail);
    TrimRightPrefix(detail);
    assert head[|head| - 1] == ')' by {
      hide Spelling;
    }
    hide Classify, Spelling;
    if TrimRight(detail) == "" {
      assert TrimRight(head) == head;
      assert head + "" == head;
      BadClassOf(w, clock, "");
    } else {
      assert TrimRight(detail)[0] == detail[0];
      BadClassOf(w, clock, TrimRight(detail));
    }
  }

  lemma NotFatal(line: string)
    requires line != "" && line[0] != 'f'
    ensures !("fatal: memory limit exceeded" <= line)
  {
    assert "fatal: memory limit exceeded" == "f" + "atal: memory limit exceeded";
  }

  lemma NoSummary(line: string)
    requires line != "" && !IsDigit(line[0])
    ensures ReadSummary(CHILD_FIELDS, line).None?
  {
    hide ReadFields, After;
  }

  lemma WordFirst(w: Word, rest: string)
    requires Bad(w)
    ensures var line := Spelling(w) + rest; line != "" && line[0] != 'f' && !IsDigit(line[0])
  {
    assert (Spelling(w) + rest)[0] == Spelling(w)[0];
  }

  lemma BadReportPlain(w: Word, clock: string, name: string, rest: string)
    requires Bad(w)
    ensures var line := BadReport(w, clock, name, rest);
      line != "" && ReadSummary(CHILD_FIELDS, line).None? && !("fatal: memory limit exceeded" <= line)
  {
    BadReportIs(w, clock, name, rest);
    Spaced(w, clock, "s)", " " + name + rest);
    WordFirst(w, " (" + clock + "s)" + (" " + name + rest));
    hide *;
    NotFatal(BadReport(w, clock, name, rest));
    NoSummary(BadReport(w, clock, name, rest));
  }

  lemma DetailOf(name: string, rest: string, suffix: string)
    requires Name(name) && OneLine(name) && OneLine(rest) && OneLine(suffix)
    ensures Detail(" " + name + rest + suffix) && OneLine(" " + name + rest + suffix)
  {
    assert OneLine(" ");
    OneLineJoin(" ", name);
    OneLineJoin(" " + name, rest);
    OneLineJoin(" " + name + rest, suffix);
    assert (" " + name + rest + suffix)[0] == ' ';
  }

  lemma BadLineSeen(w: Word, clock: string, detail: string, before: string, after: string) returns (k: nat)
    requires Bad(w) && Clock(clock) && Detail(detail) && OneLine(detail) && WholeLines(before)
    ensures var lines := Lines(TrimSpace(before + (Spelling(w) + " (" + clock + "s)" + detail) + "\n" + after));
      k < |lines| && BadClass(Classify(lines[k]))
  {
    hide *;
    var line := Spelling(w) + " (" + clock + "s)" + detail;
    BadStarts(w, clock, detail);
    BadClassOf(w, clock, detail);
    BadTrimmed(w, clock, detail);
    k := LineSurvives(before, line, after);
  }

  /** A test that failed, leaked or timed out fails its file: whatever the test binary printed
      before and after its result line, the parent counts the file as failed, unless the last
      line says that there is nothing to run. */
  lemma FailureSeen(earlier: string, roster: seq<RosterEntry>, run: TestRun, setting: Setting, timedOut: bool, i: nat,
                    w: Word, clock: string, name: string, rest: string)
    requires WholeLines(earlier) && OneLine(setting.suffix) && i < |RunLines(run)|
    requires Bad(w) && Clock(clock) && Name(name) && OneLine(name) && AfterName(rest) && OneLine(rest)
    requires RunLines(run)[i] == BadReport(w, clock, name, rest)
    ensures Reports(RunLines(run)[i], OptionsFor(run), w)
    ensures var v := Judge(FileResult(TrimSpace(earlier + ChildText(roster, run, setting)), true, timedOut));
      CountsAsFailed(v) || v.LeftOut?
  {
    hide *;
    var lines, opts := RunLines(run), OptionsFor(run);
    BadReported(w, clock, name, rest, opts);
    BadReportPlain(w, clock, name, rest);
    var after := PrintedBad(roster, run, setting, i);
    var head, detail := Spelling(w) + " (" + clock + "s)", " " + name + rest;
    var suffix := if IsOutcomeLine(lines[i]) then setting.suffix else "";
    var printed := PrintedText(lines[..i], setting, opts);
    SuffixOneLine(setting.suffix, suffix);
    DetailOf(name, rest, suffix);
    WholeJoin(earlier, printed);
    var k := BadLineSeen(w, clock, detail + suffix, earlier + printed, after);
    SamePlace(earlier, printed, head, detail, suffix, after);
    BadReportIs(w, clock, name, rest);
    BadLineFailsFile(FileResult(TrimSpace(earlier + ChildText(roster, run, setting)), true, timedOut), k);
  }

  lemma SuffixOneLine(suffix: string, chosen: string)
    requires OneLine(suffix) && (chosen == suffix || chosen == "")
    ensures OneLine(chosen)
  {
  }

  lemma BadReportIs(w: Word, clock: string, name: string, rest: string)
    ensures BadReport(w, clock, name, rest) == Spelling(w) + " (" + clock + "s)" + (" " + name + rest)
  {
  }

  lemma BadReported(w: Word, clock: string, name: string, rest: string, opts: Options)
    requires Bad(w) && Clock(clock) && Name(name) && AfterName(rest)
    ensures Reports(BadReport(w, clock, name, rest), opts, w)
  {
    BadReportPlain(w, clock, name, rest);
    ReportIs(w, clock, name, rest);
    BadReportIs(w, clock, name, rest);
    JoinBlank(Spelling(w) + " (" + clock, name, rest);
    hide ReportOf, ReadSummary, BadReport, Spelling, Clock, Name, AfterName;
  }

  lemma JoinBlank(a: string, name: string, rest: string)
    ensures a + "s) " + name + rest == a + "s)" + (" " + name + rest)
  {
    assert "s) " == "s)" + " ";
  }

  lemma SamePlace(earlier: string, printed: string, head: string, detail: string, suffix: string, after: string)
    ensures earlier + (printed + (head + detail + suffix) + "\n" + after)
         == (earlier + printed) + (head + (detail + suffix)) + "\n" + after
  {
    assert head + detail + suffix == head + (detail + suffix);
  }

  lemma PrintedBad(roster: seq<RosterEntry>, run: TestRun, setting: Setting, i: nat) returns (after: string)
    requires i < |RunLines(run)|
    requires var line := RunLines(run)[i];
      line != "" && ReadSummary(CHILD_FIELDS, line).None? && !("fatal: memory limit exceeded" <= line)
    ensures var lines, opts := RunLines(run), OptionsFor(run);
      && WholeLines(PrintedText(lines[..i], setting, opts))
      && ChildText(roster, run, setting)
         == PrintedText(lines[..i], setting, opts)
            + (lines[i] + (if IsOutcomeLine(lines[i]) then setting.suffix else "")) + "\n" + after
  {
    var lines, opts := RunLines(run), OptionsFor(run);
    NotDropped(lines[i], opts);
    var tail := if CutShort(roster, run) then TailText(CutTail(roster, run, setting)) else "";
    ChildTextIs(roster, run, setting);
    hide *;
    var more := Reprinted(lines, i, setting, opts);
    after := more + tail;
    Append(PrintedText(lines[..i], setting, opts) + (lines[i] + (if IsOutcomeLine(lines[i]) then setting.suffix else "")) + "\n",
           more, tail);
  }

  lemma NotDropped(line: string, opts: Options)
    requires !("fatal: memory limit exceeded" <= line)
    ensures !(opts.dropMemlimitFatal && "fatal: memory limit exceeded" <= line)
  {
  }

  lemma ChildTextIs(roster: seq<RosterEntry>, run: TestRun, setting: Setting)
    ensures ChildText(roster, run, setting)
         == PrintedText(RunLines(run), setting, OptionsFor(run))
            + (if CutShort(roster, run) then TailText(CutTail(roster, run, setting)) else "")
  {
    hide RunLines, OptionsFor, PrintedText, CutShort, CutTail, TailText;
  }

  lemma Append(a: string, b: string, c: string)
    ensures a + b + c == a + (b + c)
  {
  }

  // --- Counts -----------------------------------------------------------------------------------

  /** The places in a list that satisfy a predicate. */
  function Places<T(!new)>(p: T -> bool, items: seq<T>): set<nat> {
    set i | 0 <= i < |items| && p(items[i])
  }

  lemma OneMorePlace<T(!new)>(p: T -> bool, items: seq<T>)
    requires items != []
    ensures var last := |items| - 1;
      |Places(p, items)| == |Places(p, items[..last])| + if p(items[last]) then 1 else 0
  {
    var last := |items| - 1;
    var fewer := Places(p, items[..last]);
    assert last !in fewer;
    assert Places(p, items) == if p(items[last]) then fewer + {last} else fewer;
  }

  lemma {:induction false} CountIsNumber(lines: seq<string>, opts: Options, w: Word)
    ensures CountReports(lines, opts, w) == |Places(line => Reports(line, opts, w), lines)|
  {
    hide Reports;
    if lines == [] {
      assert Places(line => Reports(line, opts, w), lines) == {};
    } else {
      CountIsNumber(lines[..|lines| - 1], opts, w);
      OneMorePlace(line => Reports(line, opts, w), lines);
    }
  }

  /** The child's counts are the numbers of lines that report a pass, a failure, a leak and a
      timeout. */
  lemma ChildCountsExactly(lines: seq<string>, opts: Options)
    ensures var c := CountsOf(lines, opts);
      && c.passed == |Places(line => Reports(line, opts, Pass), lines)|
      && c.failed == |Places(line => Reports(line, opts, Fail), lines)|
      && c.leaked == |Places(line => Reports(line, opts, Leak), lines)|
      && c.timedOut == |Places(line => Reports(line, opts, Timeout), lines)|
  {
    CountIsNumber(lines, opts, Pass);
    CountIsNumber(lines, opts, Fail);
    CountIsNumber(lines, opts, Leak);
    CountIsNumber(lines, opts, Timeout);
    hide Reports;
  }

  /** The last summary among the lines. */
  predicate LastSummary(lines: seq<string>, i: nat) {
    i < |lines| && Classify(lines[i]).SummaryLine? && forall j :: i < j < |lines| ==> !Classify(lines[j]).SummaryLine?
  }

  lemma {:induction false} TallySummary(lines: seq<string>) returns (i: nat)
    ensures match TallyOf(lines).summary
            case Some(m) => LastSummary(lines, i) && Classify(lines[i]).summary == m
            case None => forall j :: 0 <= j < |lines| ==> !Classify(lines[j]).SummaryLine?
  {
    hide Classify;
    i := 0;
    if lines != [] {
      var last := |lines| - 1;
      i := TallySummary(lines[..last]);
      if Classify(lines[last]).SummaryLine? {
        i := last;
      }
    }
  }

  lemma {:induction false} TallyNumbers(lines: seq<string>)
    ensures var t := TallyOf(lines);
      && t.passed == |Places(line => Classify(line).PassLine?, lines)|
      && t.failed == |Places(line => Classify(line).FailLine?, lines)|
      && t.leaked == |Places(line => Classify(line).LeakLine?, lines)|
      && t.timedOut == |Places(line => Classify(line).TimeoutLine?, lines)|
      && t.memlimited == |Places(line => Classify(line).MemLimitLine?, lines)|
      && t.incomplete == |Places(line => Classify(line).IncompleteLine?, lines)|
  {
    hide Classify;
    if lines == [] {
      assert Places(line => Classify(line).PassLine?, lines) == {};
      assert Places(line => Classify(line).FailLine?, lines) == {};
      assert Places(line => Classify(line).LeakLine?, lines) == {};
      assert Places(line => Classify(line).TimeoutLine?, lines) == {};
      assert Places(line => Classify(line).MemLimitLine?, lines) == {};
      assert Places(line => Classify(line).IncompleteLine?, lines) == {};
    } else {
      TallyNumbers(lines[..|lines| - 1]);
      OneMorePlace(line => Classify(line).PassLine?, lines);
      OneMorePlace(line => Classify(line).FailLine?, lines);
      OneMorePlace(line => Classify(line).LeakLine?, lines);
      OneMorePlace(line => Classify(line).TimeoutLine?, lines);
      OneMorePlace(line => Classify(line).MemLimitLine?, lines);
      OneMorePlace(line => Classify(line).IncompleteLine?, lines);
      hide Places;
    }
  }

  predicate Eligible(e: RosterEntry, reported: set<string>) {
    !e.excluded && e.name !in reported
  }

  lemma {:induction false} UnreportedJoin(a: seq<RosterEntry>, b: seq<RosterEntry>, reported: set<string>)
    ensures UnreportedTests(a + b, reported) == UnreportedTests(a, reported) + UnreportedTests(b, reported)
  {
    if a == [] {
      assert a + b == b;
    } else {
      assert (a + b)[1..] == a[1..] + b;
      UnreportedJoin(a[1..], b, reported);
    }
  }

  /** The tests that did not report, each counted. */
  lemma {:induction false} MissingIsNumber(roster: seq<RosterEntry>, reported: set<string>)
    ensures |UnreportedTests(roster, reported)| == |Places(e => Eligible(e, reported), roster)|
  {
    if roster == [] {
      assert Places(e => Eligible(e, reported), roster) == {};
    } else {
      var last := |roster| - 1;
      MissingIsNumber(roster[..last], reported);
      OneMorePlace(e => Eligible(e, reported), roster);
      UnreportedJoin(roster[..last], [roster[last]], reported);
      assert roster == roster[..last] + [roster[last]];
      assert UnreportedTests([roster[last]][1..], reported) == [];
    }
  }

  /** They are in the order of the roster: the first of them there is the one named. */
  lemma {:induction false} FirstMissing(roster: seq<RosterEntry>, reported: set<string>, i: nat)
    requires i < |roster| && Eligible(roster[i], reported) && forall j :: 0 <= j < i ==> !Eligible(roster[j], reported)
    ensures UnreportedTests(roster, reported) != [] && UnreportedTests(roster, reported)[0] == roster[i].name
    decreases i
  {
    if i > 0 {
      var rest := roster[1..];
      assert !Eligible(roster[0], reported) && rest[i - 1] == roster[i];
      assert forall j :: 0 <= j < i - 1 ==> rest[j] == roster[j + 1];
      FirstMissing(rest, reported, i - 1);
    }
  }

  lemma {:induction false} SkippedJoin(a: seq<RosterEntry>, b: seq<RosterEntry>)
    ensures Skipped(a + b) == Skipped(a) + Skipped(b)
  {
    if a == [] {
      assert a + b == b;
    } else {
      assert (a + b)[1..] == a[1..] + b;
      SkippedJoin(a[1..], b);
    }
  }

  lemma {:induction false} SkippedIsNumber(roster: seq<RosterEntry>)
    ensures Skipped(roster) == |Places((e: RosterEntry) => e.excluded, roster)|
  {
    if roster == [] {
      assert Places((e: RosterEntry) => e.excluded, roster) == {};
    } else {
      var last := |roster| - 1;
      SkippedIsNumber(roster[..last]);
      OneMorePlace((e: RosterEntry) => e.excluded, roster);
      SkippedJoin(roster[..last], [roster[last]]);
      assert roster == roster[..last] + [roster[last]];
      assert Skipped([roster[last]][1..]) == 0;
    }
  }

  /** What a summary adds to the totals: each number it prints, under its own heading. */
  lemma SummaryAdds(tot: Totals, passed: nat, failed: nat, values: seq<nat>)
    requires |values| == FIELDS && passed <= INT_MAX && failed <= INT_MAX && forall v :: v in values ==> v <= INT_MAX
    ensures var m := Summary(Decimal(passed), Decimal(failed), Shown(values));
      AddSummary(tot, m, true) ==
        Totals(tot.passed + passed, tot.failed + failed, tot.skipped + values[0], tot.leaked + values[1],
               tot.timedOut + values[2], tot.ignored + values[3], tot.stale + values[4], tot.memlimited + values[5],
               tot.incomplete + values[6], tot.files, tot.failedFiles)
  {
    ClampedReads(passed);
    ClampedReads(failed);
    var shown := Shown(values);
    forall i | 0 <= i < FIELDS
      ensures Num(shown[i]) == values[i]
    {
      assert values[i] in values;
      ClampedReads(values[i]);
    }
    hide Decimal, Shown, Clamped, Num;
  }

  /** What a file adds to the totals, from its lines: how many there are of each class and
      which is its last summary, if it has one. */
  lemma AccountedExactly(tot: Totals, r: FileResult, i: nat)
    requires LastSummary(Lines(r.output), i) || forall j :: 0 <= j < |Lines(r.output)| ==> !Classify(Lines(r.output)[j]).SummaryLine?
    ensures var lines, after, last := Lines(r.output), Account(tot, r), LastLine(r.output);
      var passes, fails := |Places(line => Classify(line).PassLine?, lines)|, |Places(line => Classify(line).FailLine?, lines)|;
      var leaks, timeouts := |Places(line => Classify(line).LeakLine?, lines)|, |Places(line => Classify(line).TimeoutLine?, lines)|;
      var others := |Places(line => Classify(line).MemLimitLine?, lines)| + |Places(line => Classify(line).IncompleteLine?, lines)|;
      var bad, summed := tot.(files := tot.files + 1, failedFiles := tot.failedFiles + 1), LastSummary(lines, i);
      && (summed ==> Full(Classify(lines[i]).summary))
      && after ==
        if r.timedOut then bad.(failed := tot.failed + 1)
        else if "SKIP" <= last then tot.(skipped := tot.skipped + 1)
        else if last == "no tests found" then tot
        else if !r.failed then
          var good := tot.(files := tot.files + 1);
          if summed then AddSummary(good, Classify(lines[i]).summary, true) else good
        else if summed && passes > 0 && fails + leaks + timeouts + others == 0 then
          AddSummary(tot.(files := tot.files + 2), Classify(lines[i]).summary, false)
        else if summed then AddSummary(bad, Classify(lines[i]).summary, true)
        else if passes > 0 && fails + leaks + timeouts == 0 then bad.(passed := tot.passed + passes, failed := tot.failed + 1)
        else if passes + fails > 0 then bad.(passed := tot.passed + passes, failed := tot.failed + fails)
        else bad.(failed := tot.failed + 1)
  {
    var lines := Lines(r.output);
    TallyNumbers(lines);
    var k := TallySummary(lines);
    hide Places, Classify, Lines, LastLine, TallyOf;
    if LastSummary(lines, i) {
      ClassifiedFull(lines[i]);
      SameLast(lines, i, k);
    }
    hide Full, AddSummary, LastSummary;
  }

  lemma SameLast(lines: seq<string>, i: nat, k: nat)
    requires LastSummary(lines, i)
    ensures LastSummary(lines, k) ==> k == i
    ensures !(forall j :: 0 <= j < |lines| ==> !Classify(lines[j]).SummaryLine?)
  {
    hide Classify;
    assert Classify(lines[i]).SummaryLine?;
  }

  lemma ClampedReads(n: nat)
    requires n <= INT_MAX
    ensures Clamped(Decimal(n)) == n
  {
    DecimalReadsBack(n);
    hide Decimal;
  }

  // --- What a cut run names -----------------------------------------------------------------------

  /** The line of a run cut short names the first test of the roster that never reported, or
      what was under way when there is none. */
  lemma CutNamesFirst(roster: seq<RosterEntry>, run: TestRun, setting: Setting)
    requires CutShort(roster, run)
    ensures var line, missing := CutTail(roster, run, setting).line, Missing(roster, run);
      match run.end
      case NeverAlive => line == "TIMEOUT" + " (-) " + "<startup>" + setting.suffix
      case TimedOut =>
        line == "TIMEOUT" + " (-) " + (if missing != [] then missing[0] else "<teardown>") + setting.suffix
      case Exited(_) =>
        if Contains(run.output, MEMLIMIT_FATAL) then line == "MEMLIMIT" + " (-) " + "<aborted>" + setting.suffix
        else missing != [] && line == "INCOMPLETE" + " (-) " + missing[0] + setting.suffix
  {
    assert Spelling(Timeout) == "TIMEOUT" && Spelling(MemLimit) == "MEMLIMIT" && Spelling(Incomplete) == "INCOMPLETE";
    hide Spelling, Missing, Contains, TruncatedBatchSummary, PrintSummary, CountsOf, SawSummary, MemLimitContext, Timing;
  }

  /** A summary anywhere among the lines is noticed. */
  lemma SummarySeen(lines: seq<string>, opts: Options)
    ensures SawSummary(lines, opts)
       <==> exists i :: 0 <= i < |lines| && ReadSummary(CHILD_FIELDS, lines[i]).Some?
  {
    hide ReadSummary, Read;
    forall line | line in lines && ReadSummary(CHILD_FIELDS, line).Some?
      ensures Read(line, opts)
    {
      SummaryIsRead(line, opts);
    }
  }
}
