/**
 How a test run becomes a verdict: a child runs one test binary and prints what it saw; the
 parent of a multi-file run reads that text back. A run cut short must never come out as a
 pass, whatever the tests themselves printed.
 */
module TestOutcome {
  import opened Wrappers
  import opened Text

  // --- Matching lines -------------------------------------------------------------------

  function After(prefix: string, s: string): Option<string> {
    if prefix <= s then Some(s[|prefix|..]) else None
  }

  lemma AfterPrefix(prefix: string, rest: string)
    ensures After(prefix, prefix + rest) == Some(rest)
  {
  }

  lemma NotAfter(prefix: string, s: string)
    requires prefix != "" && s != "" && prefix[0] != s[0]
    ensures After(prefix, s).None?
  {
  }

  predicate IsClock(c: char) {
    IsDigit(c) || c == '.'
  }

  /** White space to a regular expression. */
  predicate IsBlank(c: char) {
    c == ' ' || c == '\t' || c == '\n' || c == '\r' || c as int == 12
  }

  predicate NotBlank(c: char) {
    !IsBlank(c)
  }

  predicate NotClose(c: char) {
    c != ')'
  }

  /** The words result lines start with. */
  datatype Word = Pass | Fail | Leak | Timeout | MemLimit | Incomplete

  function Spelling(w: Word): (s: string)
    ensures s != ""
  {
    match w
    case Pass => "pass"
    case Fail => "FAIL"
    case Leak => "LEAK"
    case Timeout => "TIMEOUT"
    case MemLimit => "MEMLIMIT"
    case Incomplete => "INCOMPLETE"
  }

  /** The test a result line of a test binary reports, e.g. `pass (0.012s) name`. */
  function ReportedName(w: Word, line: string): Option<string> {
    match After(Spelling(w) + " (", line)
    case None => None
    case Some(r) =>
      var k := RunLength(IsClock, r);
      match After("s) ", r[k..])
      case None => None
      case Some(name) =>
        var n := RunLength(NotBlank, name);
        if k > 0 && n > 0 then Some(name[..n]) else None
  }

  /** Nothing, or a blank and at least one more character. */
  predicate OptionalDetail(s: string) {
    s == "" || (s[0] == ' ' && |s| > 1)
  }

  /** A result line with its time: `FAIL (0.1s)`, perhaps with a name. */
  predicate Clocked(w: Word, line: string) {
    match After(Spelling(w) + " (", line)
    case None => false
    case Some(r) =>
      var k := RunLength(IsClock, r);
      && k > 0
      && match After("s)", r[k..])
         case None => false
         case Some(detail) => w.Pass? || OptionalDetail(detail)
  }

  /** A result line with anything in the parentheses: `INCOMPLETE (-) name`. */
  predicate Bracketed(w: Word, line: string) {
    match After(Spelling(w) + " (", line)
    case None => false
    case Some(r) =>
      var k := RunLength(NotClose, r);
      0 < k < |r| && OptionalDetail(r[k + 1..])
  }

  // --- Summary lines ----------------------------------------------------------------------

  /** The optional fields of a summary, in order. */
  const FIELDS: nat := 7
  const CHILD_FIELDS: nat := 5

  function Label(i: nat): (s: string)
    requires i < FIELDS
    ensures s != ""
  {
    match i
    case 0 => "skipped"
    case 1 => "leaked"
    case 2 => "timed out"
    case 3 => "allowed leaks"
    case 4 => "stale allow_leaks"
    case 5 => "memlimit"
    case _ => "incomplete"
  }

  /** A number and what follows it. */
  function ReadNumber(s: string): Option<(string, string)> {
    var k := RunLength(IsDigit, s);
    if k > 0 then Some((s[..k], s[k..])) else None
  }

  function ReadField(i: nat, s: string): Option<(string, string)>
    requires i < FIELDS
  {
    match After(", ", s)
    case None => None
    case Some(r) =>
      match ReadNumber(r)
      case None => None
      case Some((digits, t)) =>
        match After(" " + Label(i), t)
        case None => None
        case Some(rest) => Some((digits, rest))
  }

  /** The optional fields from the i-th to the last: the digits of each, or none. */
  function ReadFields(i: nat, last: nat, s: string): (fields: seq<Option<string>>)
    requires i <= last <= FIELDS
    ensures |fields| == last - i
    decreases last - i
  {
    if i == last then []
    else
      match ReadField(i, s)
      case None => [None] + ReadFields(i + 1, last, s)
      case Some((digits, rest)) => [Some(digits)] + ReadFields(i + 1, last, rest)
  }

  datatype Summary = Summary(passed: string, failed: string, fields: seq<Option<string>>)

  /** `3 passed, 0 failed`, then any of the fields; whatever follows is ignored. */
  function ReadSummary(last: nat, line: string): Option<Summary>
    requires last <= FIELDS
  {
    match ReadNumber(line)
    case None => None
    case Some((passed, r)) =>
      match After(" passed, ", r)
      case None => None
      case Some(r2) =>
        match ReadNumber(r2)
        case None => None
        case Some((failed, r3)) =>
          match After(" failed", r3)
          case None => None
          case Some(rest) => Some(Summary(passed, failed, ReadFields(0, last, rest)))
  }

  // --- Printing a summary -------------------------------------------------------------------

  function PrintField(i: nat, n: nat): string
    requires i < FIELDS
  {
    ", " + Decimal(n) + " " + Label(i)
  }

  function Maybe(i: nat, n: nat): string
    requires i < FIELDS
  {
    if n > 0 then PrintField(i, n) else ""
  }

  /** The fields by position; zero means left out. */
  function PrintFields(i: nat, values: seq<nat>): string
    requires i <= |values| == FIELDS
    decreases FIELDS - i
  {
    if i == FIELDS then ""
    else Maybe(i, values[i]) + PrintFields(i + 1, values)
  }

  /** What reading gives back: the digits of the positive ones. */
  function Shown(values: seq<nat>): seq<Option<string>> {
    seq(|values|, i requires 0 <= i < |values| => if values[i] > 0 then Some(Decimal(values[i])) else None)
  }

  datatype Counts = Counts(passed: nat, failed: nat, leaked: nat, timedOut: nat)

  /** The summary line of a run cut short: skipped, leaked, timed out and incomplete. */
  function TruncatedBatchSummary(c: Counts, skipped: nat, extraTimedOut: nat, incomplete: nat): string {
    Decimal(c.passed) + " passed, " + Decimal(c.failed) + " failed"
    + Maybe(0, skipped)
    + Maybe(1, c.leaked)
    + Maybe(2, c.timedOut + extraTimedOut)
    + Maybe(6, incomplete)
  }

  function TruncatedFields(c: Counts, skipped: nat, extraTimedOut: nat, incomplete: nat): (values: seq<nat>)
    ensures |values| == FIELDS
  {
    [skipped, c.leaked, c.timedOut + extraTimedOut, 0, 0, 0, incomplete]
  }

  /** Neither spelling continues as the other. */
  lemma LabelsApart(i: nat, j: nat, rest: string)
    requires i < FIELDS && j < FIELDS && i != j
    ensures !(Label(i) <= Label(j) + rest)
  {
    var a, b := Label(i), Label(j) + rest;
    assert b[0] == Label(j)[0] && b[1] == Label(j)[1];
    assert a[0] != b[0] || a[1] != b[1];
  }

  /** Where a summary's fields stop: anything but another field. */
  predicate Ends(rest: string) {
    After(", ", rest).None?
  }

  lemma NumberReads(n: nat, rest: string)
    requires rest == "" || !IsDigit(rest[0])
    ensures ReadNumber(Decimal(n) + rest) == Some((Decimal(n), rest))
  {
    RunLengthIs(IsDigit, Decimal(n), rest);
    assert (Decimal(n) + rest)[..|Decimal(n)|] == Decimal(n);
    assert (Decimal(n) + rest)[|Decimal(n)|..] == rest;
  }

  lemma NotContinued(prefix: string, a: string, b: string)
    requires !(a <= b)
    ensures !(prefix + a <= prefix + b)
  {
    if |a| <= |b| {
      var k :| 0 <= k < |a| && a[k] != b[k];
      assert (prefix + a)[|prefix| + k] != (prefix + b)[|prefix| + k];
    }
  }

  lemma FieldReads(i: nat, j: nat, n: nat, rest: string)
    requires i < FIELDS && j < FIELDS
    ensures ReadField(i, PrintField(j, n) + rest) == if i == j then Some((Decimal(n), rest)) else None
  {
    hide Label, Decimal, ReadNumber;
    var tail := " " + Label(j) + rest;
    assert PrintField(j, n) + rest == ", " + (Decimal(n) + tail);
    AfterPrefix(", ", Decimal(n) + tail);
    NumberReads(n, tail);
    if i == j {
      AfterPrefix(" " + Label(i), rest);
    } else {
      LabelsApart(i, j, rest);
      NotContinued(" ", Label(i), Label(j) + rest);
      assert " " + (Label(j) + rest) == tail;
    }
  }

  lemma {:induction false} LaterRefused(i: nat, k: nat, values: seq<nat>, rest: string)
    requires i < k <= |values| == FIELDS && Ends(rest)
    ensures ReadField(i, PrintFields(k, values) + rest).None?
    decreases FIELDS - k
  {
    hide ReadField, PrintField;
    if k == FIELDS {
      assert PrintFields(k, values) + rest == rest;
      EndRefused(i, rest);
    } else if values[k] > 0 {
      FieldReads(i, k, values[k], PrintFields(k + 1, values) + rest);
      PrintedFirst(k, values, rest);
    } else {
      LaterRefused(i, k + 1, values, rest);
      assert PrintFields(k, values) == PrintFields(k + 1, values);
    }
  }

  lemma EndRefused(i: nat, rest: string)
    requires i < FIELDS && Ends(rest)
    ensures ReadField(i, rest).None?
  {
  }

  lemma PrintedFirst(k: nat, values: seq<nat>, rest: string)
    requires k < |values| == FIELDS && values[k] > 0
    ensures PrintFields(k, values) + rest == PrintField(k, values[k]) + (PrintFields(k + 1, values) + rest)
  {
  }

  /** Every field printed is read back in its own place, and a field left out is read as
      left out. */
  lemma {:induction false} FieldsReadBack(i: nat, values: seq<nat>, rest: string)
    requires i <= |values| == FIELDS && Ends(rest)
    ensures ReadFields(i, FIELDS, PrintFields(i, values) + rest) == Shown(values)[i..]
    decreases FIELDS - i
  {
    if i == FIELDS {
      assert Shown(values)[i..] == [];
    } else {
      hide *;
      FieldsReadBack(i + 1, values, rest);
      ShownFrom(i, values);
      var text := PrintFields(i, values) + rest;
      if values[i] > 0 {
        PrintedFirst(i, values, rest);
        FieldReads(i, i, values[i], PrintFields(i + 1, values) + rest);
      } else {
        NothingPrinted(i, values);
        LaterRefused(i, i + 1, values, rest);
      }
      ReadFieldsFrom(i, text);
    }
  }

  lemma ShownFrom(i: nat, values: seq<nat>)
    requires i < |values|
    ensures Shown(values)[i..] == [if values[i] > 0 then Some(Decimal(values[i])) else None] + Shown(values)[i + 1..]
  {
  }

  lemma NothingPrinted(i: nat, values: seq<nat>)
    requires i < |values| == FIELDS && values[i] == 0
    ensures PrintFields(i, values) == PrintFields(i + 1, values)
  {
  }

  lemma ReadFieldsFrom(i: nat, text: string)
    requires i < FIELDS
    ensures var field := ReadField(i, text);
      ReadFields(i, FIELDS, text)
      == if field.None? then [None] + ReadFields(i + 1, FIELDS, text)
         else [Some(field.value.0)] + ReadFields(i + 1, FIELDS, field.value.1)
  {
  }

  function PrintSummary(passed: nat, failed: nat, values: seq<nat>): string
    requires |values| == FIELDS
  {
    Decimal(passed) + " passed, " + Decimal(failed) + " failed" + PrintFields(0, values)
  }

  lemma SummaryReadsBack(passed: nat, failed: nat, values: seq<nat>, rest: string)
    requires |values| == FIELDS && Ends(rest)
    ensures ReadSummary(FIELDS, PrintSummary(passed, failed, values) + rest)
         == Some(Summary(Decimal(passed), Decimal(failed), Shown(values)))
  {
    hide Decimal, PrintFields, ReadFields, ReadNumber, Ends;
    var fields := PrintFields(0, values) + rest;
    var r3 := " failed" + fields;
    var r2 := Decimal(failed) + r3;
    var r := " passed, " + r2;
    assert PrintSummary(passed, failed, values) + rest == Decimal(passed) + r;
    NumberReads(passed, r);
    AfterPrefix(" passed, ", r2);
    NumberReads(failed, r3);
    AfterPrefix(" failed", fields);
    FieldsReadBack(0, values, rest);
    assert Shown(values)[0..] == Shown(values);
  }

  lemma NextField(i: nat, values: seq<nat>)
    requires i < |values| == FIELDS
    ensures PrintFields(i, values) == Maybe(i, values[i]) + PrintFields(i + 1, values)
  {
  }

  lemma Regroup(a: string, b: string, c: string, d: string, e: string)
    ensures a + b + c + d + e == a + (b + (c + (d + e)))
  {
  }

  lemma TruncatedIsSummary(c: Counts, skipped: nat, extraTimedOut: nat, incomplete: nat)
    ensures TruncatedBatchSummary(c, skipped, extraTimedOut, incomplete)
         == PrintSummary(c.passed, c.failed, TruncatedFields(c, skipped, extraTimedOut, incomplete))
  {
    var values := TruncatedFields(c, skipped, extraTimedOut, incomplete);
    var head := Decimal(c.passed) + " passed, " + Decimal(c.failed) + " failed";
    TruncatedFieldsPrint(values, skipped, c.leaked, c.timedOut + extraTimedOut, incomplete);
    hide Decimal, Maybe, PrintFields;
    Regroup(head, Maybe(0, skipped), Maybe(1, c.leaked), Maybe(2, c.timedOut + extraTimedOut), Maybe(6, incomplete));
  }

  lemma TruncatedFieldsPrint(values: seq<nat>, skipped: nat, leaked: nat, timedOut: nat, incomplete: nat)
    requires values == [skipped, leaked, timedOut, 0, 0, 0, incomplete]
    ensures PrintFields(0, values) == Maybe(0, skipped) + (Maybe(1, leaked) + (Maybe(2, timedOut) + Maybe(6, incomplete)))
  {
    assert PrintFields(7, values) == "" && Maybe(3, 0) == "" && Maybe(4, 0) == "" && Maybe(5, 0) == "";
    hide PrintFields, PrintField, Maybe;
    NextField(6, values);
    assert PrintFields(6, values) == Maybe(6, incomplete);
    NextField(5, values);
    assert PrintFields(5, values) == Maybe(6, incomplete);
    NextField(4, values);
    assert PrintFields(4, values) == Maybe(6, incomplete);
    NextField(3, values);
    assert PrintFields(3, values) == Maybe(6, incomplete);
    NextField(2, values);
    NextField(1, values);
    NextField(0, values);
  }

  /** The parent reads every count of a cut-short run back, whatever the counts are. */
  lemma TruncatedReadsBack(c: Counts, skipped: nat, extraTimedOut: nat, incomplete: nat, rest: string)
    requires Ends(rest)
    ensures ReadSummary(FIELDS, TruncatedBatchSummary(c, skipped, extraTimedOut, incomplete) + rest)
         == Some(Summary(Decimal(c.passed), Decimal(c.failed), Shown(TruncatedFields(c, skipped, extraTimedOut, incomplete))))
  {
    TruncatedIsSummary(c, skipped, extraTimedOut, incomplete);
    hide *;
    SummaryReadsBack(c.passed, c.failed, TruncatedFields(c, skipped, extraTimedOut, incomplete), rest);
  }

  // --- The child: running one test binary -------------------------------------------------

  datatype RosterEntry = RosterEntry(name: string, excluded: bool)

  /** In declaration order, the tests that should have reported and did not. */
  function UnreportedTests(roster: seq<RosterEntry>, reported: set<string>): (missing: seq<string>)
    ensures forall n :: n in missing <==> exists e :: e in roster && !e.excluded && e.name == n && n !in reported
  {
    if roster == [] then []
    else
      (if roster[0].excluded || roster[0].name in reported then [] else [roster[0].name])
      + UnreportedTests(roster[1..], reported)
  }

  function Skipped(roster: seq<RosterEntry>): nat {
    if roster == [] then 0 else (if roster[0].excluded then 1 else 0) + Skipped(roster[1..])
  }

  /** How the test process ended: a code of -1 stands for a signal. */
  datatype RunError = Status(code: int) | OtherError

  datatype Ending = NeverAlive | TimedOut | Exited(err: Option<RunError>)

  datatype Options = Options(dropMemlimitFatal: bool, dropSummary: bool)

  /** The texts that come from elsewhere: elapsed time, contexts of the synthetic lines. */
  datatype Setting = Setting(elapsed: string, suffix: string, context: string, windows: bool)

  const MEMLIMIT_FATAL := "fatal: memory limit exceeded"

  predicate Contains(s: string, part: string) {
    exists i :: 0 <= i <= |s| && part <= s[i..]
  }

  predicate IsOutcomeLine(line: string) {
    exists w :: Spelling(w) + " " <= line
  }

  /** The result a line of the test binary reports, if it is a result line. */
  function ReportOf(line: string): Option<(Word, string)> {
    if ReportedName(Pass, line).Some? then Some((Pass, ReportedName(Pass, line).value))
    else if ReportedName(Fail, line).Some? then Some((Fail, ReportedName(Fail, line).value))
    else if ReportedName(Leak, line).Some? then Some((Leak, ReportedName(Leak, line).value))
    else if ReportedName(Timeout, line).Some? then Some((Timeout, ReportedName(Timeout, line).value))
    else None
  }

  predicate Read(line: string, opts: Options) {
    line != "" && !(opts.dropMemlimitFatal && MEMLIMIT_FATAL <= line)
  }

  predicate Reports(line: string, opts: Options, w: Word) {
    Read(line, opts) && ReportOf(line).Some? && ReportOf(line).value.0 == w
  }

  function CountReports(lines: seq<string>, opts: Options, w: Word): nat {
    if lines == [] then 0
    else CountReports(lines[..|lines| - 1], opts, w) + if Reports(lines[|lines| - 1], opts, w) then 1 else 0
  }

  function ReportedIn(lines: seq<string>, opts: Options): set<string> {
    set line | line in lines && Read(line, opts) && ReportOf(line).Some? :: ReportOf(line).value.1
  }

  predicate SawSummary(lines: seq<string>, opts: Options) {
    exists line :: line in lines && Read(line, opts) && ReadSummary(CHILD_FIELDS, line).Some?
  }

  function CountsOf(lines: seq<string>, opts: Options): Counts {
    Counts(CountReports(lines, opts, Pass), CountReports(lines, opts, Fail),
           CountReports(lines, opts, Leak), CountReports(lines, opts, Timeout))
  }

  function RewriteFields(i: nat, fields: seq<Option<string>>): string
    requires i <= |fields| <= FIELDS
    decreases |fields| - i
  {
    if i == |fields| then ""
    else (if fields[i].Some? then ", " + fields[i].value + " " + Label(i) else "") + RewriteFields(i + 1, fields)
  }

  function Rewritten(m: Summary, setting: Setting): string
    requires |m.fields| == CHILD_FIELDS
  {
    "\n" + m.passed + " passed, " + m.failed + " failed" + RewriteFields(0, m.fields)
    + " (" + setting.elapsed + "s)" + setting.suffix + "\n"
  }

  function PrintedLine(line: string, setting: Setting, opts: Options): string {
    if !Read(line, opts) then ""
    else
      match ReadSummary(CHILD_FIELDS, line)
      case Some(m) => if opts.dropSummary then "" else Rewritten(m, setting)
      case None => line + (if setting.suffix != "" && IsOutcomeLine(line) then setting.suffix else "") + "\n"
  }

  function PrintedText(lines: seq<string>, setting: Setting, opts: Options): (text: string)
    ensures WholeLines(text)
  {
    if lines == [] then ""
    else PrintedText(lines[..|lines| - 1], setting, opts) + PrintedLine(lines[|lines| - 1], setting, opts)
  }

  function Tick(c: Counts, w: Word): Counts {
    match w
    case Pass => c.(passed := c.passed + 1)
    case Fail => c.(failed := c.failed + 1)
    case Leak => c.(leaked := c.leaked + 1)
    case _ => c.(timedOut := c.timedOut + 1)
  }

  function ReportRead(line: string, opts: Options): Option<(Word, string)> {
    if Read(line, opts) then ReportOf(line) else None
  }

  lemma NextPrinted(lines: seq<string>, i: nat, setting: Setting, opts: Options)
    requires i < |lines|
    ensures PrintedText(lines[..i + 1], setting, opts) == PrintedText(lines[..i], setting, opts) + PrintedLine(lines[i], setting, opts)
  {
    hide PrintedLine;
    assert lines[..i + 1][..i] == lines[..i];
  }

  lemma NextCount(lines: seq<string>, i: nat, opts: Options, w: Word)
    requires i < |lines|
    ensures CountReports(lines[..i + 1], opts, w) == CountReports(lines[..i], opts, w) + if Reports(lines[i], opts, w) then 1 else 0
  {
    hide Reports;
    assert lines[..i + 1][..i] == lines[..i];
  }

  lemma ReportWord(line: string)
    ensures ReportOf(line).Some? ==> !ReportOf(line).value.0.MemLimit? && !ReportOf(line).value.0.Incomplete?
  {
  }

  lemma NextCounts(lines: seq<string>, i: nat, opts: Options)
    requires i < |lines|
    ensures var report := ReportRead(lines[i], opts);
      CountsOf(lines[..i + 1], opts)
      == if report.Some? then Tick(CountsOf(lines[..i], opts), report.value.0) else CountsOf(lines[..i], opts)
  {
    ReportWord(lines[i]);
    hide Read, ReportOf, CountReports;
    NextCount(lines, i, opts, Pass);
    NextCount(lines, i, opts, Fail);
    NextCount(lines, i, opts, Leak);
    NextCount(lines, i, opts, Timeout);
  }

  lemma NextReported(lines: seq<string>, i: nat, opts: Options)
    requires i < |lines|
    ensures var report := ReportRead(lines[i], opts);
      ReportedIn(lines[..i + 1], opts) == ReportedIn(lines[..i], opts) + if report.Some? then {report.value.1} else {}
  {
  }

  lemma NextSummary(lines: seq<string>, i: nat, opts: Options)
    requires i < |lines|
    ensures SawSummary(lines[..i + 1], opts)
        <==> SawSummary(lines[..i], opts) || (Read(lines[i], opts) && ReadSummary(CHILD_FIELDS, lines[i]).Some?)
  {
  }

  /** One more line. */
  lemma NextLine(lines: seq<string>, i: nat, setting: Setting, opts: Options)
    requires i < |lines|
    ensures PrintedText(lines[..i + 1], setting, opts) == PrintedText(lines[..i], setting, opts) + PrintedLine(lines[i], setting, opts)
    ensures var report := ReportRead(lines[i], opts);
      && ReportedIn(lines[..i + 1], opts) == ReportedIn(lines[..i], opts) + (if report.Some? then {report.value.1} else {})
      && CountsOf(lines[..i + 1], opts)
         == if report.Some? then Tick(CountsOf(lines[..i], opts), report.value.0) else CountsOf(lines[..i], opts)
    ensures SawSummary(lines[..i + 1], opts)
        <==> SawSummary(lines[..i], opts) || (Read(lines[i], opts) && ReadSummary(CHILD_FIELDS, lines[i]).Some?)
  {
    hide *;
    NextPrinted(lines, i, setting, opts);
    NextCounts(lines, i, opts);
    NextReported(lines, i, opts);
    NextSummary(lines, i, opts);
  }

  /** Prints a test binary's output, its summary rewritten, and says what it reported. */
  method PrintChildTestOutput(output: string, setting: Setting, opts: Options)
      returns (printed: string, counts: Counts, reported: set<string>, sawSummary: bool)
    ensures var lines := Lines(TrimSpace(output));
      && printed == PrintedText(lines, setting, opts)
      && counts == CountsOf(lines, opts)
      && reported == ReportedIn(lines, opts)
      && sawSummary == SawSummary(lines, opts)
  {
    var lines := Lines(TrimSpace(output));
    printed, counts, reported, sawSummary := "", Counts(0, 0, 0, 0), {}, false;
    hide ReportOf, ReadSummary, Rewritten, IsOutcomeLine, Lines, TrimSpace;
    for i := 0 to |lines|
      invariant printed == PrintedText(lines[..i], setting, opts)
      invariant counts == CountsOf(lines[..i], opts)
      invariant reported == ReportedIn(lines[..i], opts)
      invariant sawSummary == SawSummary(lines[..i], opts)
    {
      var line := lines[i];
      NextLine(lines, i, setting, opts);
      hide PrintedText, CountsOf, ReportedIn, SawSummary;
      if line == "" {
        continue;
      }
      if opts.dropMemlimitFatal && MEMLIMIT_FATAL <= line {
        continue;
      }
      if ReportOf(line).Some? {
        var (w, name) := ReportOf(line).value;
        counts, reported := Tick(counts, w), reported + {name};
      }
      match ReadSummary(CHILD_FIELDS, line) {
        case Some(m) =>
          sawSummary := true;
          if !opts.dropSummary {
            printed := printed + Rewritten(m, setting);
          }
        case None =>
          printed := printed + (line + (if setting.suffix != "" && IsOutcomeLine(line) then setting.suffix else "") + "\n");
      }
    }
    assert lines[..|lines|] == lines;
  }

  // --- A run cut short -----------------------------------------------------------------------

  /** What is printed after the output of a run cut short: an outcome line, its context, and
      a summary last. */
  datatype Tail = Tail(line: string, between: string, last: string)

  function TailText(t: Tail): string {
    t.line + "\n" + t.between + t.last + "\n"
  }

  function Timing(setting: Setting): string {
    " (" + setting.elapsed + "s)" + setting.suffix
  }

  function Synthetic(w: Word, name: string, setting: Setting): string {
    Spelling(w) + " (-) " + name + setting.suffix
  }

  /** A test process that never started: no test is named. */
  function NeverAliveTail(missing: seq<string>, skipped: nat, c: Counts, setting: Setting): Tail {
    Tail(Synthetic(Timeout, "<startup>", setting), setting.context + "\n\n",
         TruncatedBatchSummary(c, skipped, |missing|, 0) + Timing(setting))
  }

  /** A test process killed at its budget: the first test that never reported is named, or
      the teardown when they all did. */
  function TimedOutTail(missing: seq<string>, skipped: nat, c: Counts, setting: Setting): Tail {
    Tail(Synthetic(Timeout, if missing != [] then missing[0] else "<teardown>", setting), setting.context + "\n\n",
         TruncatedBatchSummary(c, skipped, if missing != [] then |missing| else 1, 0) + Timing(setting))
  }

  /** A test process that died before every test reported. */
  function IncompleteTail(missing: seq<string>, skipped: nat, c: Counts, setting: Setting): Tail
    requires missing != []
  {
    Tail(Synthetic(Incomplete, missing[0], setting), setting.context + "\n\n",
         TruncatedBatchSummary(c, skipped, 0, |missing|) + Timing(setting))
  }

  function MemLimitContext(): string {
    "  memory limit: exceeded " + "(test process aborted; " + "subsequent tests not run)"
  }

  /** A test process that ran out of memory. */
  function MemLimitTail(sawSummary: bool, c: Counts, setting: Setting): Tail {
    var line := Synthetic(MemLimit, "<aborted>", setting);
    if sawSummary then Tail(line, "", MemLimitContext())
    else Tail(line, MemLimitContext() + "\n\n", PrintSummary(c.passed, c.failed, [0, 0, 0, 0, 0, 1, 0]) + Timing(setting))
  }

  datatype TestRun = TestRun(output: string, end: Ending)

  function OptionsFor(run: TestRun): Options {
    if run.end.Exited? then Options(Contains(run.output, MEMLIMIT_FATAL), false) else Options(false, true)
  }

  function RunLines(run: TestRun): seq<string> {
    Lines(TrimSpace(run.output))
  }

  function Missing(roster: seq<RosterEntry>, run: TestRun): seq<string> {
    UnreportedTests(roster, ReportedIn(RunLines(run), OptionsFor(run)))
  }

  /** A run that did not let every test have its say. */
  predicate CutShort(roster: seq<RosterEntry>, run: TestRun) {
    !run.end.Exited? || Contains(run.output, MEMLIMIT_FATAL) || Missing(roster, run) != []
  }

  function CutTail(roster: seq<RosterEntry>, run: TestRun, setting: Setting): Tail
    requires CutShort(roster, run)
  {
    var missing, counts := Missing(roster, run), CountsOf(RunLines(run), OptionsFor(run));
    match run.end
    case NeverAlive => NeverAliveTail(missing, Skipped(roster), counts, setting)
    case TimedOut => TimedOutTail(missing, Skipped(roster), counts, setting)
    case Exited(_) =>
      if Contains(run.output, MEMLIMIT_FATAL) then MemLimitTail(SawSummary(RunLines(run), OptionsFor(run)), counts, setting)
      else IncompleteTail(missing, Skipped(roster), counts, setting)
  }

  function ChildText(roster: seq<RosterEntry>, run: TestRun, setting: Setting): string {
    PrintedText(RunLines(run), setting, OptionsFor(run))
    + if CutShort(roster, run) then TailText(CutTail(roster, run, setting)) else ""
  }

  // --- Exit codes ------------------------------------------------------------------------------

  function SanitizeExitCode(code: int, windows: bool): int {
    if windows && (code < 0 || code > 125) then 1 else code
  }

  /** Keeps a usable failure code; anything else, a deceptive 0 included, becomes 1. */
  function IncompleteExitCode(err: Option<RunError>, windows: bool): int {
    if err.Some? && err.value.Status? && err.value.code > 0 then SanitizeExitCode(err.value.code, windows) else 1
  }

  /** The status the parent sees of a process that exits with `code`. */
  function ExitStatus(code: int, windows: bool): nat {
    code % (if windows then 0x1_0000_0000 else 0x100)
  }

  /** What operating systems report: no error means status 0, and an error is not 0. */
  predicate RealEnding(end: Ending, windows: bool) {
    end.Exited? && end.err.Some? && end.err.value.Status? ==>
      end.err.value.code != 0 && -1 <= end.err.value.code < (if windows then 0x1_0000_0000 else 0x100)
  }

  function ChildExit(roster: seq<RosterEntry>, run: TestRun, windows: bool): int {
    if !run.end.Exited? || Contains(run.output, MEMLIMIT_FATAL) then 1
    else if Missing(roster, run) != [] then IncompleteExitCode(run.end.err, windows)
    else
      match run.end.err
      case None => 0
      case Some(Status(code)) => SanitizeExitCode(code, windows)
      case Some(OtherError) => 1
  }

  /** The child succeeds exactly when its test process did and nothing was cut short. */
  lemma ExitTellsSuccess(roster: seq<RosterEntry>, run: TestRun, windows: bool)
    requires RealEnding(run.end, windows)
    ensures ExitStatus(ChildExit(roster, run, windows), windows) == 0
       <==> !CutShort(roster, run) && run.end == Exited(None)
    // A code is passed on, but for those of Windows that tools cannot take.
    ensures forall code :: !CutShort(roster, run) && run.end == Exited(Some(Status(code))) ==>
      ExitStatus(ChildExit(roster, run, windows), windows)
      == if code < 0 then (if windows then 1 else 255) else if windows && code > 125 then 1 else code
  {
  }

  /** Runs the report of one test process: what is printed and the code exited with. */
  method RunTestBinary(roster: seq<RosterEntry>, run: TestRun, setting: Setting) returns (text: string, code: int)
    ensures text == ChildText(roster, run, setting)
    ensures code == ChildExit(roster, run, setting.windows)
  {
    hide Lines, TrimSpace, CountsOf, ReportedIn, SawSummary, PrintedText;
    match run.end {
      case NeverAlive =>
        var printed, counts, reported, _ := PrintChildTestOutput(run.output, setting, Options(false, true));
        var missing := UnreportedTests(roster, reported);
        return printed + TailText(NeverAliveTail(missing, Skipped(roster), counts, setting)), 1;
      case TimedOut =>
        var printed, counts, reported, _ := PrintChildTestOutput(run.output, setting, Options(false, true));
        var missing := UnreportedTests(roster, reported);
        return printed + TailText(TimedOutTail(missing, Skipped(roster), counts, setting)), 1;
      case Exited(err) =>
        var memlimitTripped := Contains(run.output, MEMLIMIT_FATAL);
        var printed, counts, reported, sawSummary :=
          PrintChildTestOutput(run.output, setting, Options(memlimitTripped, false));
        if memlimitTripped {
          return printed + TailText(MemLimitTail(sawSummary, counts, setting)), 1;
        }
        var missing := UnreportedTests(roster, reported);
        if missing != [] {
          return printed + TailText(IncompleteTail(missing, Skipped(roster), counts, setting)),
                 IncompleteExitCode(err, setting.windows);
        }
        text, code := printed + "", 0;
        match err {
          case None =>
          case Some(Status(c)) => code := SanitizeExitCode(c, setting.windows);
          case Some(OtherError) => code := 1;
        }
    }
  }

  // --- The parent: reading one file's output -------------------------------------------------

  datatype Class =
    | PassLine | FailLine | LeakLine | TimeoutLine | MemLimitLine | IncompleteLine
    | SummaryLine(summary: Summary)
    | OtherLine

  function Classify(line: string): Class {
    if Clocked(Pass, line) then PassLine
    else if Clocked(Fail, line) then FailLine
    else if Clocked(Leak, line) then LeakLine
    else if Bracketed(Timeout, line) then TimeoutLine
    else if Bracketed(MemLimit, line) then MemLimitLine
    else if Bracketed(Incomplete, line) then IncompleteLine
    else
      match ReadSummary(FIELDS, line)
      case Some(m) => SummaryLine(m)
      case None => OtherLine
  }

  /** A line of context under an outcome line. */
  predicate IsContext(line: string) {
    && "  " <= line
    && var rest := line[2..];
       || "panic:" <= rest || "expected:" <= rest || "actual:" <= rest || "exit:" <= rest || "leak:" <= rest
       || "warning:" <= rest || "fatal:" <= rest || "signal:" <= rest || "timeout:" <= rest
       || "memory limit:" <= rest || "incomplete:" <= rest
  }

  datatype Tally = Tally(passed: nat, failed: nat, leaked: nat, timedOut: nat, memlimited: nat, incomplete: nat,
                         summary: Option<Summary>)

  function Counted(t: Tally, c: Class): Tally {
    match c
    case PassLine => t.(passed := t.passed + 1)
    case FailLine => t.(failed := t.failed + 1)
    case LeakLine => t.(leaked := t.leaked + 1)
    case TimeoutLine => t.(timedOut := t.timedOut + 1)
    case MemLimitLine => t.(memlimited := t.memlimited + 1)
    case IncompleteLine => t.(incomplete := t.incomplete + 1)
    case SummaryLine(m) => t.(summary := Some(m))
    case OtherLine => t
  }

  /** Every line counted for what it is; the last summary wins. */
  function TallyOf(lines: seq<string>): Tally {
    if lines == [] then Tally(0, 0, 0, 0, 0, 0, None)
    else Counted(TallyOf(lines[..|lines| - 1]), Classify(lines[|lines| - 1]))
  }

  lemma NextTally(lines: seq<string>, i: nat)
    requires i < |lines|
    ensures TallyOf(lines[..i + 1]) == Counted(TallyOf(lines[..i]), Classify(lines[i]))
  {
    hide Classify, Counted;
    assert lines[..i + 1][..i] == lines[..i];
  }

  lemma ContextBlank(line: string)
    requires IsContext(line)
    ensures line != "" && line[0] == ' '
  {
  }

  lemma ContextCountsNothing(t: Tally, line: string)
    requires IsContext(line)
    ensures Counted(t, Classify(line)) == t
  {
    ContextBlank(line);
    hide IsContext;
    BlankIsOther(line);
  }

  lemma BlankIsOther(line: string)
    requires line != "" && line[0] == ' '
    ensures Classify(line).OtherLine?
  {
    forall w
      ensures !Clocked(w, line) && !Bracketed(w, line)
    {
      NoWord(w, line);
    }
    assert !IsDigit(line[0]) && ReadSummary(FIELDS, line).None?;
    hide ReadSummary, Clocked, Bracketed;
  }

  /** Passes over the context under an outcome line. */
  method SkipContext(lines: seq<string>, start: nat, t: Tally) returns (i: nat)
    requires start <= |lines| && t == TallyOf(lines[..start])
    ensures start <= i <= |lines| && t == TallyOf(lines[..i])
  {
    hide *;
    i := start;
    while i < |lines| && IsContext(lines[i])
      invariant start <= i <= |lines| && t == TallyOf(lines[..i])
    {
      ContextCountsNothing(t, lines[i]);
      NextTally(lines, i);
      i := i + 1;
    }
  }

  /** Reads a file's output. Context lines under an outcome line are passed over, which
      loses no outcome and no summary. */
  method ScanFile(lines: seq<string>) returns (t: Tally)
    ensures t == TallyOf(lines)
  {
    t := Tally(0, 0, 0, 0, 0, 0, None);
    var i := 0;
    assert lines[..0] == [] && t == TallyOf([]);
    hide *;
    while i < |lines|
      invariant i <= |lines| && t == TallyOf(lines[..i])
    {
      var kind := Classify(lines[i]);
      NextTally(lines, i);
      t := Counted(t, kind);
      i := i + 1;
      if !kind.PassLine? && !kind.SummaryLine? && !kind.OtherLine? {
        i := SkipContext(lines, i, t);
      }
    }
    assert lines[..i] == lines;
  }

  // --- The parent: judging one file ------------------------------------------------------------

  datatype FileResult = FileResult(output: string, failed: bool, timedOut: bool)

  function LastNonEmpty(lines: seq<string>): string {
    if lines == [] then ""
    else if lines[|lines| - 1] != "" then lines[|lines| - 1]
    else LastNonEmpty(lines[..|lines| - 1])
  }

  function LastLine(s: string): string {
    LastNonEmpty(Lines(TrimSpace(s)))
  }

  /** A file with nothing to run for this target. */
  predicate NothingToRun(last: string) {
    last == "no tests found" || "SKIP" <= last
  }

  datatype Verdict =
    | LeftOut
    | BackstopKill
    | ShutdownCrash(counts: Summary)      // counted as a pass
    | CrashedMidway
    | FailedWith(counts: Summary)
    | FailedWithout                       // failures but no summary
    | CompilationError
    | Succeeded(last: Option<Summary>)

  predicate NothingBad(t: Tally) {
    t.failed == 0 && t.leaked == 0 && t.timedOut == 0 && t.memlimited == 0 && t.incomplete == 0
  }

  function Judge(r: FileResult): Verdict {
    if !r.timedOut && NothingToRun(LastLine(r.output)) then LeftOut
    else if r.timedOut then BackstopKill
    else
      var t := TallyOf(Lines(r.output));
      if !r.failed then Succeeded(t.summary)
      else if t.passed > 0 && NothingBad(t) && t.summary.Some? then ShutdownCrash(t.summary.value)
      else if t.summary.None? && t.passed > 0 && t.failed == 0 && t.leaked == 0 && t.timedOut == 0 then CrashedMidway
      else if t.summary.Some? then FailedWith(t.summary.value)
      else if t.failed > 0 || t.passed > 0 then FailedWithout
      else CompilationError
  }

  predicate CountsAsFailed(v: Verdict) {
    !v.LeftOut? && !v.ShutdownCrash? && !v.Succeeded?
  }

  // --- Nothing cut short passes -----------------------------------------------------------------

  /** Texts that print on one line; a suffix is set off by a blank. */
  predicate ProperSetting(setting: Setting) {
    && OneLine(setting.elapsed) && OneLine(setting.suffix)
    && (setting.suffix == "" || !IsSpace(setting.suffix[|setting.suffix| - 1]))
  }

  /** Test names are identifiers: not empty, and on one line. */
  predicate ProperRoster(roster: seq<RosterEntry>) {
    forall e :: e in roster ==> e.name != "" && OneLine(e.name)
  }

  predicate Synthesized(w: Word) {
    w.Timeout? || w.MemLimit? || w.Incomplete?
  }

  function ClassOf(w: Word): Class {
    match w
    case Timeout => TimeoutLine
    case MemLimit => MemLimitLine
    case _ => IncompleteLine
  }

  lemma WordsApart(w: Word, w': Word)
    ensures w != w' ==> Spelling(w)[0] != Spelling(w')[0]
    ensures !IsSpace(Spelling(w)[0]) && !IsDigit(Spelling(w)[0])
    ensures OneLine(Spelling(w))
  {
  }

  lemma OtherWord(w: Word, w': Word, rest: string)
    requires w != w'
    ensures After(Spelling(w') + " (", Spelling(w) + rest).None?
  {
    WordsApart(w, w');
    hide Spelling;
    assert (Spelling(w') + " (")[0] == Spelling(w')[0];
    assert (Spelling(w) + rest)[0] == Spelling(w)[0];
  }

  lemma SyntheticBracketed(w: Word, name: string, setting: Setting)
    requires name != ""
    ensures Bracketed(w, Synthetic(w, name, setting))
  {
    hide Spelling;
    var detail := " " + name + setting.suffix;
    var r := "-" + (")" + detail);
    assert Synthetic(w, name, setting) == (Spelling(w) + " (") + r;
    AfterPrefix(Spelling(w) + " (", r);
    RunLengthIs(NotClose, "-", ")" + detail);
    assert r[2..] == detail;
  }

  /** The parent recognises a synthetic line for what it is. */
  lemma SyntheticRecognised(w: Word, name: string, setting: Setting)
    requires Synthesized(w) && name != ""
    ensures Classify(Synthetic(w, name, setting)) == ClassOf(w)
  {
    var line := Synthetic(w, name, setting);
    hide Spelling, Clocked, Bracketed, Synthetic, ReadSummary;
    forall w' | w' != w
      ensures !Clocked(w', line) && !Bracketed(w', line)
    {
      OtherSynthetic(w, w', name, setting);
    }
    SyntheticBracketed(w, name, setting);
  }

  lemma OtherSynthetic(w: Word, w': Word, name: string, setting: Setting)
    requires w != w'
    ensures var line := Synthetic(w, name, setting); !Clocked(w', line) && !Bracketed(w', line)
  {
    hide Spelling;
    var rest := " (-) " + name + setting.suffix;
    assert Synthetic(w, name, setting) == Spelling(w) + rest;
    OtherWord(w, w', rest);
  }

  lemma NoWord(w: Word, line: string)
    requires line != "" && (IsDigit(line[0]) || line[0] == ' ')
    ensures !Clocked(w, line) && !Bracketed(w, line)
  {
  }

  lemma DigitFirst(line: string)
    requires line != "" && IsDigit(line[0]) && ReadSummary(FIELDS, line).Some?
    ensures Classify(line) == SummaryLine(ReadSummary(FIELDS, line).value)
  {
    hide ReadSummary, Clocked, Bracketed, IsDigit;
    forall w
      ensures !Clocked(w, line) && !Bracketed(w, line)
    {
      NoWord(w, line);
    }
  }

  predicate Starts(line: string) {
    line != "" && !IsSpace(line[0]) && OneLine(line)
  }

  predicate Stops(line: string) {
    line != "" && !IsSpace(line[|line| - 1]) && OneLine(line)
  }

  /** A last line the parent does not take for a file with nothing to run. */
  predicate SaysSomething(line: string) {
    line != "" && (IsDigit(line[0]) || line[0] == ' ')
  }

  predicate TailSound(w: Word, t: Tail) {
    && Synthesized(w) && Classify(t.line) == ClassOf(w) && Starts(t.line)
    && WholeLines(t.between) && Stops(t.last) && SaysSomething(t.last)
  }

  lemma SyntheticStarts(w: Word, name: string, setting: Setting)
    requires OneLine(name) && OneLine(setting.suffix)
    ensures Starts(Synthetic(w, name, setting))
  {
  }

  lemma {:induction false} FieldsOneLine(i: nat, values: seq<nat>)
    requires i <= |values| == FIELDS
    ensures OneLine(PrintFields(i, values))
    decreases FIELDS - i
  {
    if i < FIELDS {
      FieldsOneLine(i + 1, values);
      FieldOneLine(i, values[i]);
      NextField(i, values);
      hide PrintFields, PrintField;
    }
  }

  lemma FieldOneLine(i: nat, n: nat)
    requires i < FIELDS
    ensures OneLine(PrintField(i, n))
  {
    assert OneLine(Label(i));
    hide Label;
    assert AllDigits(Decimal(n));
    hide Decimal;
    assert OneLine(Decimal(n));
  }

  lemma OneLineJoin(a: string, b: string)
    requires OneLine(a) && OneLine(b)
    ensures OneLine(a + b)
  {
  }

  lemma NumbersOneLine(n: nat)
    ensures OneLine(Decimal(n))
  {
  }

  lemma TimingStops(setting: Setting)
    requires ProperSetting(setting)
    ensures Stops(Timing(setting)) && Ends(Timing(setting))
  {
    OneLineJoin(" (", setting.elapsed);
    OneLineJoin(" (" + setting.elapsed, "s)");
    OneLineJoin(" (" + setting.elapsed + "s)", setting.suffix);
    var timing := Timing(setting);
    assert timing[0] == ' ' && timing[|timing| - 1] == if setting.suffix == "" then ')' else setting.suffix[|setting.suffix| - 1];
  }

  lemma FiveOneLine(a: string, b: string, c: string, d: string, e: string)
    requires OneLine(a) && OneLine(b) && OneLine(c) && OneLine(d) && OneLine(e)
    ensures OneLine(a + b + c + d + e)
  {
  }

  lemma SummaryParts(passed: nat, failed: nat, values: seq<nat>)
    requires |values| == FIELDS
    ensures OneLine(" passed, ") && OneLine(" failed")
    ensures PrintSummary(passed, failed, values)
         == Decimal(passed) + " passed, " + Decimal(failed) + " failed" + PrintFields(0, values)
  {
  }

  lemma SummaryOneLine(passed: nat, failed: nat, values: seq<nat>)
    requires |values| == FIELDS
    ensures OneLine(PrintSummary(passed, failed, values))
  {
    hide *;
    SummaryParts(passed, failed, values);
    NumbersOneLine(passed);
    NumbersOneLine(failed);
    FieldsOneLine(0, values);
    FiveOneLine(Decimal(passed), " passed, ", Decimal(failed), " failed", PrintFields(0, values));
  }

  lemma SummaryFirst(passed: nat, failed: nat, values: seq<nat>, rest: string)
    requires |values| == FIELDS
    ensures var line := PrintSummary(passed, failed, values) + rest; line != "" && IsDigit(line[0])
  {
  }

  lemma FirstOfJoin(a: string, b: string)
    requires a != ""
    ensures a + b != "" && (a + b)[0] == a[0]
  {
  }

  lemma StopsJoin(a: string, b: string)
    requires OneLine(a) && Stops(b)
    ensures Stops(a + b)
  {
  }

  /** A summary the runner prints is recognised, and is a last line that says something. */
  lemma SummaryRecognised(passed: nat, failed: nat, values: seq<nat>, setting: Setting)
    requires |values| == FIELDS && ProperSetting(setting)
    ensures Stops(PrintSummary(passed, failed, values) + Timing(setting))
    ensures SaysSomething(PrintSummary(passed, failed, values) + Timing(setting))
    ensures Classify(PrintSummary(passed, failed, values) + Timing(setting))
         == SummaryLine(Summary(Decimal(passed), Decimal(failed), Shown(values)))
  {
    TimingStops(setting);
    SummaryOneLine(passed, failed, values);
    SummaryFirst(passed, failed, values, Timing(setting));
    hide PrintSummary, Timing, Stops, Classify, ReadSummary, Decimal, Shown, IsDigit;
    StopsJoin(PrintSummary(passed, failed, values), Timing(setting));
    SummaryReadsBack(passed, failed, values, Timing(setting));
    DigitFirst(PrintSummary(passed, failed, values) + Timing(setting));
  }

  lemma IncompleteSound(missing: seq<string>, skipped: nat, c: Counts, setting: Setting)
    requires missing != [] && missing[0] != "" && OneLine(missing[0]) && ProperSetting(setting)
    ensures TailSound(Incomplete, IncompleteTail(missing, skipped, c, setting))
    ensures Classify(IncompleteTail(missing, skipped, c, setting).last)
         == SummaryLine(Summary(Decimal(c.passed), Decimal(c.failed), Shown(TruncatedFields(c, skipped, 0, |missing|))))
  {
    SyntheticRecognised(Incomplete, missing[0], setting);
    SyntheticStarts(Incomplete, missing[0], setting);
    TruncatedIsSummary(c, skipped, 0, |missing|);
    SummaryRecognised(c.passed, c.failed, TruncatedFields(c, skipped, 0, |missing|), setting);
    hide Classify, Synthetic, PrintSummary, TruncatedBatchSummary, Timing, SaysSomething, Starts, Stops, Decimal, Shown;
  }

  /** The counts a timed out run adds: what never reported, or one for the teardown. */
  function TimedOutExtra(end: Ending, missing: seq<string>): nat {
    if end.TimedOut? && missing == [] then 1 else |missing|
  }

  lemma TimeoutSound(end: Ending, missing: seq<string>, skipped: nat, c: Counts, setting: Setting)
    requires !end.Exited? && (missing != [] ==> missing[0] != "" && OneLine(missing[0])) && ProperSetting(setting)
    ensures var t := if end.NeverAlive? then NeverAliveTail(missing, skipped, c, setting)
                     else TimedOutTail(missing, skipped, c, setting);
      && TailSound(Timeout, t)
      && Classify(t.last) == SummaryLine(Summary(Decimal(c.passed), Decimal(c.failed),
                                                 Shown(TruncatedFields(c, skipped, TimedOutExtra(end, missing), 0))))
  {
    var name := if end.NeverAlive? then "<startup>" else if missing != [] then missing[0] else "<teardown>";
    assert name != "" && OneLine(name);
    var extra := TimedOutExtra(end, missing);
    SyntheticRecognised(Timeout, name, setting);
    SyntheticStarts(Timeout, name, setting);
    TruncatedIsSummary(c, skipped, extra, 0);
    SummaryRecognised(c.passed, c.failed, TruncatedFields(c, skipped, extra, 0), setting);
    hide Classify, Synthetic, PrintSummary, TruncatedBatchSummary, Timing, SaysSomething, Starts, Stops, Decimal, Shown;
  }

  lemma MemLimitSound(sawSummary: bool, c: Counts, setting: Setting)
    requires ProperSetting(setting)
    ensures TailSound(MemLimit, MemLimitTail(sawSummary, c, setting))
    ensures !sawSummary ==>
      Classify(MemLimitTail(sawSummary, c, setting).last)
      == SummaryLine(Summary(Decimal(c.passed), Decimal(c.failed), Shown([0, 0, 0, 0, 0, 1, 0])))
  {
    assert OneLine("<aborted>");
    SyntheticRecognised(MemLimit, "<aborted>", setting);
    SyntheticStarts(MemLimit, "<aborted>", setting);
    MemLimitContextSound();
    SummaryRecognised(c.passed, c.failed, [0, 0, 0, 0, 0, 1, 0], setting);
    hide Classify, Synthetic, PrintSummary, Timing, SaysSomething, Starts, Stops, Decimal, Shown;
  }

  lemma MemLimitContextSound()
    ensures Stops(MemLimitContext()) && SaysSomething(MemLimitContext())
  {
  }

  lemma {:induction false} TallyHas(lines: seq<string>, i: nat, w: Word)
    requires i < |lines| && Synthesized(w) && Classify(lines[i]) == ClassOf(w)
    ensures !NothingBad(TallyOf(lines))
    decreases |lines|
  {
    hide Classify;
    var last := |lines| - 1;
    if i < last {
      TallyHas(lines[..last], i, w);
    }
  }

  lemma TrimSpaceTwice(s: string)
    ensures TrimSpace(TrimSpace(s)) == TrimSpace(s)
  {
    TrimLeftTwice(s);
    TrimRightKeepsFirst(TrimLeft(s));
    TrimRightTwice(TrimLeft(s));
  }

  lemma TrimLeftTwice(s: string)
    ensures TrimLeft(s) == "" || !IsSpace(TrimLeft(s)[0])
  {
  }

  lemma TrimRightKeepsFirst(s: string)
    ensures TrimRight(s) == "" || TrimRight(s)[0] == s[0]
  {
  }

  lemma TrimRightTwice(s: string)
    ensures TrimRight(TrimRight(s)) == TrimRight(s)
  {
  }

  /** The text a child leaves, seen by the parent, ends in its summary and holds its outcome
      line, whatever was printed before. */
  lemma TailSeen(before: string, w: Word, t: Tail) returns (i: nat)
    requires WholeLines(before) && TailSound(w, t)
    ensures var lines := Lines(TrimSpace(before + TailText(t)));
      && i < |lines| - 1 && lines[i] == t.line && lines[|lines| - 1] == t.last
  {
    var pre, middle := TrimmedLines(before, t.line, t.between, t.last);
    TailTextParts(before, t);
    i := |pre|;
    hide *;
    InPlace(pre, t.line, middle, t.last);
  }

  lemma TailTextParts(before: string, t: Tail)
    ensures before + t.line + "\n" + t.between + t.last + "\n" == before + TailText(t)
  {
  }

  lemma InPlace(pre: seq<string>, first: string, middle: seq<string>, last: string)
    ensures var lines := pre + [first] + middle + [last];
      |pre| < |lines| - 1 && lines[|pre|] == first && lines[|lines| - 1] == last
  {
  }

  lemma SaysNotNothing(line: string)
    requires SaysSomething(line)
    ensures !NothingToRun(line)
  {
  }

  lemma JudgedBad(r: FileResult)
    requires r.failed && !NothingToRun(LastLine(r.output)) && !NothingBad(TallyOf(Lines(r.output)))
    ensures CountsAsFailed(Judge(r))
    ensures var t := TallyOf(Lines(r.output)); !r.timedOut && t.summary.Some? ==> Judge(r) == FailedWith(t.summary.value)
  {
  }

  lemma CountedSummary(t: Tally, c: Class)
    ensures c.SummaryLine? ==> Counted(t, c).summary == Some(c.summary)
  {
  }

  /** What the parent makes of any text that ends like a run cut short. */
  lemma TailJudged(before: string, w: Word, t: Tail, timedOut: bool)
    requires WholeLines(before) && TailSound(w, t)
    ensures var v := Judge(FileResult(TrimSpace(before + TailText(t)), true, timedOut));
      && CountsAsFailed(v)
      && (!timedOut && Classify(t.last).SummaryLine? ==> v == FailedWith(Classify(t.last).summary))
  {
    assert Synthesized(w) && Classify(t.line) == ClassOf(w) && SaysSomething(t.last) && t.last != "";
    hide *;
    var output := TrimSpace(before + TailText(t));
    var lines := Lines(output);
    var i := TailSeen(before, w, t);
    TallyHas(lines, i, w);
    LastTally(lines);
    CountedSummary(TallyOf(lines[..|lines| - 1]), Classify(t.last));
    TrimSpaceTwice(before + TailText(t));
    LastSeen(lines);
    LastIs(output);
    SaysNotNothing(t.last);
    JudgedBad(FileResult(output, true, timedOut));
  }

  lemma LastIs(output: string)
    ensures LastLine(output) == LastNonEmpty(Lines(TrimSpace(output)))
  {
  }

  lemma LastSeen(lines: seq<string>)
    requires lines != [] && lines[|lines| - 1] != ""
    ensures LastNonEmpty(lines) == lines[|lines| - 1]
  {
  }

  lemma LastTally(lines: seq<string>)
    requires lines != []
    ensures TallyOf(lines) == Counted(TallyOf(lines[..|lines| - 1]), Classify(lines[|lines| - 1]))
  {
  }

  /** The main result. Whatever the tests and the compiler printed before, the parent counts
      the file of a run cut short as failed; when the cut was not the memory limit's, it also
      reads back the child's counts, field by field. */
  lemma CutShortNeverPasses(earlier: string, roster: seq<RosterEntry>, run: TestRun, setting: Setting, timedOut: bool)
    requires WholeLines(earlier) && ProperRoster(roster) && ProperSetting(setting) && RealEnding(run.end, setting.windows)
    requires CutShort(roster, run)
    ensures var status := ExitStatus(ChildExit(roster, run, setting.windows), setting.windows);
      var v := Judge(FileResult(TrimSpace(earlier + ChildText(roster, run, setting)), status != 0, timedOut));
      var missing, c := Missing(roster, run), CountsOf(RunLines(run), OptionsFor(run));
      && CountsAsFailed(v)
      && (!timedOut && !run.end.Exited? ==>
            v == FailedWith(Summary(Decimal(c.passed), Decimal(c.failed),
                   Shown(TruncatedFields(c, Skipped(roster), TimedOutExtra(run.end, missing), 0)))))
      && (!timedOut && run.end.Exited? && !Contains(run.output, MEMLIMIT_FATAL) ==>
            v == FailedWith(Summary(Decimal(c.passed), Decimal(c.failed),
                   Shown(TruncatedFields(c, Skipped(roster), 0, |missing|)))))
      && (!timedOut && run.end.Exited? && Contains(run.output, MEMLIMIT_FATAL)
          && !SawSummary(RunLines(run), OptionsFor(run)) ==>
            v == FailedWith(Summary(Decimal(c.passed), Decimal(c.failed), Shown([0, 0, 0, 0, 0, 1, 0]))))
  {
    hide *;
    ExitTellsSuccess(roster, run, setting.windows);
    var tail := CutTail(roster, run, setting);
    var w := TailOfRun(roster, run, setting);
    var printed := PrintedText(RunLines(run), setting, OptionsFor(run));
    ChildTextParts(earlier, roster, run, setting);
    WholeJoin(earlier, printed);
    TailJudged(earlier + printed, w, tail, timedOut);
  }

  lemma ChildTextParts(earlier: string, roster: seq<RosterEntry>, run: TestRun, setting: Setting)
    requires CutShort(roster, run)
    ensures var printed := PrintedText(RunLines(run), setting, OptionsFor(run));
      earlier + ChildText(roster, run, setting) == (earlier + printed) + TailText(CutTail(roster, run, setting))
  {
  }

  lemma WholeJoin(a: string, b: string)
    requires WholeLines(a) && WholeLines(b)
    ensures WholeLines(a + b)
  {
  }

  lemma MissingProper(roster: seq<RosterEntry>, run: TestRun)
    requires ProperRoster(roster) && Missing(roster, run) != []
    ensures Missing(roster, run)[0] != "" && OneLine(Missing(roster, run)[0])
  {
    var missing := Missing(roster, run);
    assert missing[0] in missing;
  }

  lemma TailOfRun(roster: seq<RosterEntry>, run: TestRun, setting: Setting) returns (w: Word)
    requires ProperRoster(roster) && ProperSetting(setting) && CutShort(roster, run)
    ensures TailSound(w, CutTail(roster, run, setting))
    ensures var missing, c := Missing(roster, run), CountsOf(RunLines(run), OptionsFor(run));
      var last := Classify(CutTail(roster, run, setting).last);
      && (!run.end.Exited? ==>
            last == SummaryLine(Summary(Decimal(c.passed), Decimal(c.failed),
                      Shown(TruncatedFields(c, Skipped(roster), TimedOutExtra(run.end, missing), 0)))))
      && (run.end.Exited? && !Contains(run.output, MEMLIMIT_FATAL) ==>
            last == SummaryLine(Summary(Decimal(c.passed), Decimal(c.failed),
                      Shown(TruncatedFields(c, Skipped(roster), 0, |missing|)))))
      && (run.end.Exited? && Contains(run.output, MEMLIMIT_FATAL) && !SawSummary(RunLines(run), OptionsFor(run)) ==>
            last == SummaryLine(Summary(Decimal(c.passed), Decimal(c.failed), Shown([0, 0, 0, 0, 0, 1, 0]))))
  {
    var missing, c := Missing(roster, run), CountsOf(RunLines(run), OptionsFor(run));
    if missing != [] {
      MissingProper(roster, run);
    }
    hide TailSound, Classify, Shown, TruncatedFields, Decimal, Missing, CountsOf, RunLines, OptionsFor, Contains,
         NeverAliveTail, TimedOutTail, IncompleteTail, MemLimitTail, ProperSetting, ProperRoster, Skipped;
    if !run.end.Exited? {
      w := Timeout;
      TimeoutSound(run.end, missing, Skipped(roster), c, setting);
    } else if Contains(run.output, MEMLIMIT_FATAL) {
      w := MemLimit;
      MemLimitSound(SawSummary(RunLines(run), OptionsFor(run)), c, setting);
    } else {
      w := Incomplete;
      IncompleteSound(missing, Skipped(roster), c, setting);
    }
  }

  // --- The parent: all the files ------------------------------------------------------------------

  datatype Totals = Totals(passed: nat, failed: nat, skipped: nat, leaked: nat, timedOut: nat, ignored: nat, stale: nat,
                           memlimited: nat, incomplete: nat, files: nat, failedFiles: nat)

  function Num(field: Option<string>): nat {
    if field.Some? then Clamped(field.value) else 0
  }

  predicate Full(m: Summary) {
    |m.fields| == FIELDS
  }

  /** A summary's counts added; a run taken for a shutdown crash has no incomplete tests. */
  function AddSummary(tot: Totals, m: Summary, withIncomplete: bool): Totals
    requires Full(m)
  {
    tot.(passed := tot.passed + Clamped(m.passed), failed := tot.failed + Clamped(m.failed),
         skipped := tot.skipped + Num(m.fields[0]), leaked := tot.leaked + Num(m.fields[1]),
         timedOut := tot.timedOut + Num(m.fields[2]), ignored := tot.ignored + Num(m.fields[3]),
         stale := tot.stale + Num(m.fields[4]), memlimited := tot.memlimited + Num(m.fields[5]),
         incomplete := tot.incomplete + if withIncomplete then Num(m.fields[6]) else 0)
  }

  lemma ClassifiedFull(line: string)
    ensures Classify(line).SummaryLine? ==> Full(Classify(line).summary)
  {
    hide Clocked, Bracketed, ReadFields;
  }

  lemma {:induction false} TallyFull(lines: seq<string>)
    ensures TallyOf(lines).summary.Some? ==> Full(TallyOf(lines).summary.value)
  {
    hide Classify, Full;
    if lines != [] {
      TallyFull(lines[..|lines| - 1]);
      ClassifiedFull(lines[|lines| - 1]);
    }
  }

  function Account(tot: Totals, r: FileResult): Totals {
    var t := TallyOf(Lines(r.output));
    TallyFull(Lines(r.output));
    match Judge(r)
    case LeftOut => if "SKIP" <= LastLine(r.output) then tot.(skipped := tot.skipped + 1) else tot
    case BackstopKill => tot.(files := tot.files + 1, failedFiles := tot.failedFiles + 1, failed := tot.failed + 1)
    case ShutdownCrash(m) => AddSummary(tot.(files := tot.files + 2), m, false)
    case CrashedMidway =>
      tot.(files := tot.files + 1, failedFiles := tot.failedFiles + 1, passed := tot.passed + t.passed, failed := tot.failed + 1)
    case FailedWith(m) => AddSummary(tot.(files := tot.files + 1, failedFiles := tot.failedFiles + 1), m, true)
    case FailedWithout =>
      tot.(files := tot.files + 1, failedFiles := tot.failedFiles + 1, passed := tot.passed + t.passed,
           failed := tot.failed + t.failed)
    case CompilationError =>
      tot.(files := tot.files + 1, failedFiles := tot.failedFiles + 1, failed := tot.failed + 1)
    case Succeeded(last) =>
      var counted := tot.(files := tot.files + 1);
      if last.Some? then AddSummary(counted, last.value, true) else counted
  }

  const NO_TOTALS := Totals(0, 0, 0, 0, 0, 0, 0, 0, 0, 0, 0)

  function TotalsOf(results: seq<FileResult>): Totals {
    if results == [] then NO_TOTALS else Account(TotalsOf(results[..|results| - 1]), results[|results| - 1])
  }

  predicate AnyBad(tot: Totals) {
    tot.failed > 0 || tot.leaked > 0 || tot.timedOut > 0 || tot.memlimited > 0 || tot.incomplete > 0 || tot.failedFiles > 0
  }

  /** Runs the judgement of all files, in order. */
  method RunTestFiles(results: seq<FileResult>) returns (exit: nat, tot: Totals)
    ensures tot == TotalsOf(results)
    ensures exit == if AnyBad(tot) then 1 else 0
  {
    tot := NO_TOTALS;
    hide Classify, Lines, LastLine, NothingToRun, AddSummary, TallyOf;
    for i := 0 to |results|
      invariant tot == TotalsOf(results[..i])
    {
      var r := results[i];
      assert results[..i + 1][..i] == results[..i];
      TallyFull(Lines(r.output));
      var last := LastLine(r.output);
      if !r.timedOut && NothingToRun(last) {
        if "SKIP" <= last {
          tot := tot.(skipped := tot.skipped + 1);
        }
        continue;
      }
      tot := tot.(files := tot.files + 1);
      if r.timedOut {
        tot := tot.(failedFiles := tot.failedFiles + 1, failed := tot.failed + 1);
        continue;
      }
      var t := ScanFile(Lines(r.output));
      if r.failed {
        if t.passed > 0 && NothingBad(t) && t.summary.Some? {
          tot := AddSummary(tot.(files := tot.files + 1), t.summary.value, false);
          continue;
        }
        tot := tot.(failedFiles := tot.failedFiles + 1);
        if t.summary.None? && t.passed > 0 && t.failed == 0 && t.leaked == 0 && t.timedOut == 0 {
          tot := tot.(passed := tot.passed + t.passed, failed := tot.failed + 1);
        } else if t.summary.Some? {
          tot := AddSummary(tot, t.summary.value, true);
        } else if t.failed > 0 || t.passed > 0 {
          tot := tot.(passed := tot.passed + t.passed, failed := tot.failed + t.failed);
        } else {
          tot := tot.(failed := tot.failed + 1);
        }
        continue;
      }
      if t.summary.Some? {
        tot := AddSummary(tot, t.summary.value, true);
      }
    }
    assert results[..|results|] == results;
    if tot.files == 0 {
      NoFilesNothingBad(results);
      return 0, tot;
    }
    exit := if AnyBad(tot) then 1 else 0;
  }

  /** How one file moves the file counts. */
  lemma AccountFiles(tot: Totals, r: FileResult)
    ensures var after := Account(tot, r); var v := Judge(r);
      && after.files == tot.files + (if Examined(v) then 1 else 0) + (if CrashedLate(v) then 1 else 0)
      && after.failedFiles == tot.failedFiles + (if CountsAsFailed(v) then 1 else 0)
      && (v.LeftOut? ==> AnyBad(after) == AnyBad(tot))
  {
    hide Classify, Lines, LastLine, NothingToRun, TallyOf, Judge, Num, Clamped, Full;
  }

  lemma {:induction false} NoFilesNothingBad(results: seq<FileResult>)
    requires TotalsOf(results).files == 0
    ensures !AnyBad(TotalsOf(results))
  {
    hide Account, Judge;
    if results != [] {
      var fewer := results[..|results| - 1];
      AccountFiles(TotalsOf(fewer), results[|results| - 1]);
      NoFilesNothingBad(fewer);
    }
  }

  predicate SummaryClean(m: Summary, withIncomplete: bool)
    requires Full(m)
  {
    && Clamped(m.failed) == 0 && Num(m.fields[1]) == 0 && Num(m.fields[2]) == 0 && Num(m.fields[5]) == 0
    && (withIncomplete ==> Num(m.fields[6]) == 0)
  }

  /** A file that does not fail the run. */
  predicate Clean(r: FileResult) {
    match Judge(r)
    case LeftOut => true
    case ShutdownCrash(m) => Full(m) && SummaryClean(m, false)
    case Succeeded(None) => true
    case Succeeded(Some(m)) => Full(m) && SummaryClean(m, true)
    case _ => false
  }

  lemma AccountBad(tot: Totals, r: FileResult)
    ensures AnyBad(Account(tot, r)) <==> AnyBad(tot) || !Clean(r)
  {
    hide Classify, Lines, LastLine, NothingToRun, TallyOf, Judge, Clamped;
    TallyFull(Lines(r.output));
    JudgedFull(r);
  }

  lemma JudgedFull(r: FileResult)
    ensures match Judge(r)
            case ShutdownCrash(m) => Full(m)
            case FailedWith(m) => Full(m)
            case Succeeded(Some(m)) => Full(m)
            case _ => true
  {
    TallyFull(Lines(r.output));
    hide Classify, Lines, LastLine, NothingToRun, TallyOf;
  }

  predicate AllClean(results: seq<FileResult>) {
    forall r :: r in results ==> Clean(r)
  }

  lemma OneMoreClean(results: seq<FileResult>)
    requires results != []
    ensures AllClean(results) <==> AllClean(results[..|results| - 1]) && Clean(results[|results| - 1])
  {
  }

  lemma OneMoreTotal(results: seq<FileResult>)
    requires results != []
    ensures TotalsOf(results) == Account(TotalsOf(results[..|results| - 1]), results[|results| - 1])
  {
  }

  /** A multi-file run succeeds exactly when every file is clean: one bad file is enough. */
  lemma {:induction false} RunSucceedsExactly(results: seq<FileResult>)
    ensures !AnyBad(TotalsOf(results)) <==> AllClean(results)
  {
    if results == [] {
      assert !AnyBad(NO_TOTALS);
    } else {
      hide *;
      RunSucceedsExactly(results[..|results| - 1]);
      OneMoreTotal(results);
      OneMoreClean(results);
      AccountBad(TotalsOf(results[..|results| - 1]), results[|results| - 1]);
    }
  }

  predicate Examined(v: Verdict) {
    !v.LeftOut?
  }

  predicate CrashedLate(v: Verdict) {
    v.ShutdownCrash?
  }

  function CountIf(p: Verdict -> bool, results: seq<FileResult>): nat {
    if results == [] then 0
    else CountIf(p, results[..|results| - 1]) + if p(Judge(results[|results| - 1])) then 1 else 0
  }

  /** The file count of the closing line: a file whose crash came at shutdown is counted
      twice. */
  lemma {:induction false} FilesCounted(results: seq<FileResult>)
    ensures TotalsOf(results).files
         == CountIf(Examined, results) + CountIf(CrashedLate, results)
    ensures TotalsOf(results).failedFiles == CountIf(CountsAsFailed, results)
  {
    hide Account, Judge, Examined, CrashedLate, CountsAsFailed;
    if results != [] {
      FilesCounted(results[..|results| - 1]);
      AccountFiles(TotalsOf(results[..|results| - 1]), results[|results| - 1]);
    }
  }

  lemma PassRecognised(line: string)
    requires line == Spelling(Pass) + " (" + "1s)"
    ensures Classify(line) == PassLine && Starts(line)
  {
    AfterPrefix(Spelling(Pass) + " (", "1s)");
    assert "1s)" == "1" + "s)";
    RunLengthIs(IsClock, "1", "s)");
    assert Clocked(Pass, line);
  }

  lemma Untrimmed(first: string, last: string)
    requires Starts(first) && Stops(last)
    ensures TrimSpace(first + "\n" + last) == first + "\n" + last
  {
    var output := first + "\n" + last;
    assert output[0] == first[0] && output[|output| - 1] == last[|last| - 1];
  }

  lemma OnLines(first: string, last: string)
    requires Starts(first) && Stops(last)
    ensures OneLine(first) && OneLine(last) && last != ""
  {
  }

  lemma TwoLines(first: string, last: string)
    requires Starts(first) && Stops(last)
    ensures Lines(first + "\n" + last) == [first, last] && LastLine(first + "\n" + last) == last
  {
    OnLines(first, last);
    hide *;
    var output := first + "\n" + last;
    LinesFirst(first, last);
    LinesOne(last);
    assert [first] + [last] == [first, last];
    Untrimmed(first, last);
    LastSeen([first, last]);
    LastIs(output);
  }

  lemma TallyOfTwo(first: string, last: string)
    requires Classify(first) == PassLine && Classify(last).SummaryLine?
    ensures var t := TallyOf([first, last]);
      t.passed > 0 && NothingBad(t) && t.summary.Some?
  {
    LastTally([first]);
    LastTally([first, last]);
    assert [first, last][..1] == [first] && [first][..0] == [];
    assert TallyOf([]) == Tally(0, 0, 0, 0, 0, 0, None);
    hide Classify, TallyOf;
  }

  lemma JudgedCrashed(r: FileResult)
    requires r.failed && !r.timedOut && !NothingToRun(LastLine(r.output))
    requires var t := TallyOf(Lines(r.output)); t.passed > 0 && NothingBad(t) && t.summary.Some?
    ensures CrashedLate(Judge(r))
  {
    hide Lines, LastLine, NothingToRun, TallyOf, NothingBad;
  }

  lemma CrashedLateText(first: string, last: string) returns (r: FileResult)
    requires Classify(first) == PassLine && Starts(first)
    requires Classify(last).SummaryLine? && Stops(last) && SaysSomething(last)
    ensures r.failed && CrashedLate(Judge(r))
  {
    hide *;
    r := FileResult(first + "\n" + last, true, false);
    TwoLines(first, last);
    SaysNotNothing(last);
    TallyOfTwo(first, last);
    JudgedCrashed(r);
  }

  /** A file counted twice: one test passes, the summary says so, and the process fails on its way
      out. */
  lemma CrashedLateExists() returns (r: FileResult)
    ensures r.failed && CrashedLate(Judge(r))
  {
    var setting := Setting("1", "", "", false);
    var first := Spelling(Pass) + " (" + "1s)";
    var last := PrintSummary(1, 0, [0, 0, 0, 0, 0, 0, 0]) + Timing(setting);
    assert ProperSetting(setting);
    SummaryRecognised(1, 0, [0, 0, 0, 0, 0, 0, 0], setting);
    PassRecognised(first);
    hide *;
    r := CrashedLateText(first, last);
  }

  /** So a run cut short in any one file fails the whole multi-file run. */
  lemma CutShortFailsTheRun(results: seq<FileResult>, i: nat, earlier: string, roster: seq<RosterEntry>, run: TestRun,
                            setting: Setting, timedOut: bool)
    requires WholeLines(earlier) && ProperRoster(roster) && ProperSetting(setting) && RealEnding(run.end, setting.windows)
    requires CutShort(roster, run) && i < |results|
    requires results[i] == FileResult(TrimSpace(earlier + ChildText(roster, run, setting)),
                                      ExitStatus(ChildExit(roster, run, setting.windows), setting.windows) != 0, timedOut)
    ensures AnyBad(TotalsOf(results))
  {
    hide *;
    CutShortNeverPasses(earlier, roster, run, setting, timedOut);
    FailedNotClean(results[i]);
    OneUnclean(results, i);
    RunSucceedsExactly(results);
  }

  lemma OneUnclean(results: seq<FileResult>, i: nat)
    requires i < |results| && !Clean(results[i])
    ensures !AllClean(results)
  {
  }

  lemma FailedNotClean(r: FileResult)
    requires CountsAsFailed(Judge(r))
    ensures !Clean(r)
  {
    hide Judge;
  }
}
