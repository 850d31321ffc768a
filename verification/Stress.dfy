/**
 The stress loop: every iteration visits every file, files that behave are visited less and
 less often, and each run's results are booked test by test.
 */
module Stress {
  import opened Wrappers

  /** What is booked for one test; `timings` is how many times were recorded. */
  datatype Stats = Stats(passes: nat, fails: nat, timeouts: nat, timings: nat)

  datatype Status = Pass | Timeout | Leak | Fail

  /** A result line; `timed` says that its time could be read. */
  datatype ResultLine = ResultLine(status: Status, timed: bool, name: string)

  /** One run of a file's binary: an end-to-end file compares its output, a unit file prints
      a line for each test. */
  datatype Run = EndToEnd(timedOut: bool, matches: bool) | Unit(timedOut: bool, lines: seq<ResultLine>)

  /** The stats of a file's tests, and the tests in their order. */
  datatype Book = Book(stats: map<string, Stats>, order: seq<string>)

  const NO_STATS := Stats(0, 0, 0, 0)

  predicate GoodStats(st: Stats) {
    st.timeouts <= st.fails && st.timings <= st.passes + st.fails - st.timeouts
  }

  ghost predicate GoodBook(b: Book) {
    && (forall n :: n in b.order <==> n in b.stats)
    && (forall n :: n in b.stats ==> GoodStats(b.stats[n]))
  }

  // --- Booking a run -----------------------------------------------------------------------

  function Scored(st: Stats, status: Status, timed: bool): Stats {
    var t := if timed then st.timings + 1 else st.timings;
    match status
    case Pass => st.(passes := st.passes + 1, timings := t)
    case Timeout => st.(fails := st.fails + 1, timeouts := st.timeouts + 1)
    case Leak => st.(fails := st.fails + 1, timings := t)
    case Fail => st.(fails := st.fails + 1, timings := t)
  }

  /** A test seen for the first time joins the end of the order. */
  function Booked(b: Book, l: ResultLine): Book {
    if l.name in b.stats then b.(stats := b.stats[l.name := Scored(b.stats[l.name], l.status, l.timed)])
    else Book(b.stats[l.name := Scored(NO_STATS, l.status, l.timed)], b.order + [l.name])
  }

  function BookedAll(b: Book, lines: seq<ResultLine>): Book {
    if lines == [] then b else Booked(BookedAll(b, lines[..|lines| - 1]), lines[|lines| - 1])
  }

  function Seen(lines: seq<ResultLine>): set<string> {
    set l | l in lines :: l.name
  }

  function FirstUnseen(order: seq<string>, seen: set<string>): (first: Option<string>)
    ensures first.None? <==> forall n :: n in order ==> n in seen
    ensures first.Some? ==> exists i :: 0 <= i < |order| && order[i] == first.value && first.value !in seen
                                        && forall j :: 0 <= j < i ==> order[j] in seen
  {
    if order == [] then None
    else if order[0] !in seen then Some(order[0])
    else
      var first := FirstUnseen(order[1..], seen);
      assert first.Some? ==> exists i :: 0 <= i < |order[1..]| && order[1..][i] == first.value
                                        && forall j :: 0 <= j < i ==> order[1..][j] in seen;
      first
  }

  /** A test that never reported: it was running when the process was killed or died. */
  function Blamed(b: Book, seen: set<string>, timedOut: bool): Book {
    match FirstUnseen(b.order, seen)
    case None => b
    case Some(n) =>
      if n !in b.stats then b
      else
        var st := b.stats[n];
        b.(stats := b.stats[n := st.(fails := st.fails + 1, timeouts := st.timeouts + if timedOut then 1 else 0)])
  }

  function AfterRun(b: Book, run: Run): Book {
    match run
    case EndToEnd(timedOut, matches) =>
      if b.order == [] || b.order[0] !in b.stats then b
      else
        var n := b.order[0];
        b.(stats := b.stats[n := Scored(b.stats[n], if timedOut then Timeout else if matches then Pass else Fail, true)])
    case Unit(timedOut, lines) => Blamed(BookedAll(b, lines), Seen(lines), timedOut)
  }

  predicate HasFailures(b: Book) {
    exists n :: n in b.order && n in b.stats && b.stats[n].fails > 0
  }

  /** How often to run: always when something failed or the times vary, else by experience. */
  function IntervalFor(b: Book, runs: nat, highVariance: bool): (interval: nat)
    ensures interval == 1 || interval == 2 || interval == 4 || interval == 8
  {
    if HasFailures(b) || highVariance then 1
    else if runs < 20 then 1
    else if runs < 50 then 2
    else if runs < 100 then 4
    else 8
  }

  // --- One file, visit by visit ---------------------------------------------------------------

  datatype State = State(book: Book, interval: nat, skipCount: nat, runs: nat)

  /** What the run of a visit would bring, if the file is not skipped. */
  datatype Visit = Visit(run: Run, highVariance: bool)

  function Visited(s: State, v: Visit): State {
    if s.skipCount > 0 then s.(skipCount := s.skipCount - 1)
    else
      var book := AfterRun(s.book, v.run);
      var interval := IntervalFor(book, s.runs + 1, v.highVariance);
      State(book, interval, interval - 1, s.runs + 1)
  }

  /** `GoodFile` holds of a file's state between visits. */
  ghost predicate GoodFile(s: State) {
    && GoodBook(s.book) && s.book.order != []
    && 1 <= s.interval <= 8 && s.skipCount < s.interval
    && (HasFailures(s.book) ==> s.skipCount == 0)
  }

  class FileStats {
    const isEndToEnd: bool
    var stats: map<string, Stats>
    var testOrder: seq<string>
    var interval: nat
    var skipCount: nat
    var runs: nat

    function Contents(): State
      reads this
    {
      State(Book(stats, testOrder), interval, skipCount, runs)
    }

    constructor (isEndToEnd: bool, tests: seq<string>)
      requires tests != []
      ensures this.isEndToEnd == isEndToEnd
      ensures Contents() == NewState(tests) && GoodFile(Contents())
    {
      this.isEndToEnd := isEndToEnd;
      stats := map n | n in tests :: NO_STATS;
      testOrder := tests;
      interval, skipCount, runs := 1, 0, 0;
    }

    method RecalcInterval(highVariance: bool)
      modifies this`interval
      ensures interval == IntervalFor(Contents().book, runs, highVariance)
    {
      var failures := false;
      for i := 0 to |testOrder|
        invariant failures <==> exists j :: 0 <= j < i && testOrder[j] in stats && stats[testOrder[j]].fails > 0
      {
        if testOrder[i] in stats && stats[testOrder[i]].fails > 0 {
          failures := true;
        }
      }
      FailuresAt(Book(stats, testOrder));
      if failures || highVariance {
        interval := 1;
        return;
      }
      interval := if runs < 20 then 1 else if runs < 50 then 2 else if runs < 100 then 4 else 8;
    }

    method BookLine(l: ResultLine)
      modifies this`stats, this`testOrder
      ensures Contents().book == Booked(old(Contents().book), l)
    {
      if l.name !in stats {
        stats := stats[l.name := NO_STATS];
        testOrder := testOrder + [l.name];
      }
      var st := stats[l.name];
      match l.status {
        case Pass =>
          st := st.(passes := st.passes + 1);
          if l.timed {
            st := st.(timings := st.timings + 1);
          }
        case Timeout =>
          st := st.(fails := st.fails + 1, timeouts := st.timeouts + 1);
        case _ =>
          st := st.(fails := st.fails + 1);
          if l.timed {
            st := st.(timings := st.timings + 1);
          }
      }
      stats := stats[l.name := st];
    }

    /** Blames the first test, in order, that has no result line. */
    method Blame(seen: set<string>, timedOut: bool)
      requires GoodBook(Contents().book)
      modifies this`stats
      ensures Contents().book == Blamed(old(Contents().book), seen, timedOut)
    {
      var i := 0;
      while i < |testOrder| && testOrder[i] in seen
        invariant 0 <= i <= |testOrder|
        invariant forall j :: 0 <= j < i ==> testOrder[j] in seen
      {
        i := i + 1;
      }
      FirstUnseenAt(testOrder, seen, i);
      if i < |testOrder| {
        var st := stats[testOrder[i]];
        stats := stats[testOrder[i] := st.(fails := st.fails + 1, timeouts := st.timeouts + if timedOut then 1 else 0)];
      }
    }

    /** Books every result line, then blames the first test that has none. */
    method BookLines(timedOut: bool, lines: seq<ResultLine>)
      requires GoodBook(Contents().book)
      modifies this`stats, this`testOrder
      ensures Contents().book == AfterRun(old(Contents().book), Unit(timedOut, lines))
    {
      var seen: set<string> := {};
      ghost var before := Contents().book;
      hide Booked, Blamed, GoodBook;
      for i := 0 to |lines|
        invariant Contents().book == BookedAll(before, lines[..i])
        invariant seen == Seen(lines[..i])
      {
        assert lines[..i + 1][..i] == lines[..i] && lines[..i + 1] == lines[..i] + [lines[i]];
        BookLine(lines[i]);
        seen := seen + {lines[i].name};
      }
      assert lines[..|lines|] == lines;
      BookedAllGood(before, lines);
      Blame(seen, timedOut);
    }

    method BookOutput(timedOut: bool, matches: bool)
      requires GoodBook(Contents().book) && testOrder != []
      modifies this`stats
      ensures Contents().book == AfterRun(old(Contents().book), EndToEnd(timedOut, matches))
    {
      var name := testOrder[0];
      var st := stats[name];
      if timedOut {
        st := st.(fails := st.fails + 1, timeouts := st.timeouts + 1);
      } else if matches {
        st := st.(timings := st.timings + 1, passes := st.passes + 1);
      } else {
        st := st.(timings := st.timings + 1, fails := st.fails + 1);
      }
      stats := stats[name := st];
    }

    method VisitOnce(v: Visit)
      requires GoodFile(Contents())
      requires v.run.EndToEnd? == isEndToEnd
      modifies this
      ensures Contents() == Visited(old(Contents()), v)
      ensures GoodFile(Contents())
    {
      VisitGood(Contents(), v);
      hide AfterRun, IntervalFor;
      if skipCount > 0 {
        skipCount := skipCount - 1;
        return;
      }
      runs := runs + 1;
      match v.run {
        case EndToEnd(timedOut, matches) =>
          BookOutput(timedOut, matches);
        case Unit(timedOut, lines) =>
          BookLines(timedOut, lines);
      }
      RecalcInterval(v.highVariance);
      skipCount := interval - 1;
    }
  }

  function NewState(tests: seq<string>): State {
    State(Book(map n | n in tests :: NO_STATS, tests), 1, 0, 0)
  }

  lemma FailuresAt(b: Book)
    ensures HasFailures(b) <==> exists j :: 0 <= j < |b.order| && b.order[j] in b.stats && b.stats[b.order[j]].fails > 0
  {
  }

  lemma {:induction false} FirstUnseenAt(order: seq<string>, seen: set<string>, i: nat)
    requires i <= |order| && forall j :: 0 <= j < i ==> order[j] in seen
    requires i < |order| ==> order[i] !in seen
    ensures FirstUnseen(order, seen) == if i < |order| then Some(order[i]) else None
  {
  }

  // --- What a run leaves in the book ------------------------------------------------------------

  lemma {:induction false} BookedAllGood(b: Book, lines: seq<ResultLine>)
    requires GoodBook(b)
    ensures GoodBook(BookedAll(b, lines)) && b.order <= BookedAll(b, lines).order
  {
    if lines != [] {
      BookedAllGood(b, lines[..|lines| - 1]);
    }
  }

  lemma {:induction false} FailsStayBooked(b: Book, lines: seq<ResultLine>, n: string)
    requires n in b.stats
    ensures n in BookedAll(b, lines).stats && BookedAll(b, lines).stats[n].fails >= b.stats[n].fails
  {
    if lines != [] {
      FailsStayBooked(b, lines[..|lines| - 1], n);
    }
  }

  lemma AfterRunGood(b: Book, run: Run)
    requires GoodBook(b) && b.order != []
    ensures GoodBook(AfterRun(b, run)) && b.order <= AfterRun(b, run).order
    ensures HasFailures(b) ==> HasFailures(AfterRun(b, run))
  {
    if run.Unit? {
      BookedAllGood(b, run.lines);
    }
    if n :| n in b.order && n in b.stats && b.stats[n].fails > 0 {
      if run.Unit? {
        FailsStayBooked(b, run.lines, n);
      }
      assert n in AfterRun(b, run).order && AfterRun(b, run).stats[n].fails > 0;
    }
  }

  lemma VisitGood(s: State, v: Visit)
    requires GoodFile(s)
    ensures GoodFile(Visited(s, v)) && Visited(s, v).runs >= s.runs
    ensures HasFailures(s.book) ==> HasFailures(Visited(s, v).book)
  {
    AfterRunGood(s.book, v.run);
  }

  /** A run in which a known test did not report always costs: the first such test has one
      failure more, a timeout when the run was killed for its time. */
  lemma SilenceIsBooked(b: Book, timedOut: bool, lines: seq<ResultLine>, n: string)
    requires GoodBook(b) && n in b.order && n !in Seen(lines)
    ensures var after := AfterRun(b, Unit(timedOut, lines));
      && HasFailures(after)
      && exists first :: first in b.order && first !in Seen(lines) && first in after.stats
                        && after.stats[first].fails == BookedAll(b, lines).stats[first].fails + 1
                        && (after.stats[first].timeouts > BookedAll(b, lines).stats[first].timeouts <==> timedOut)
  {
    var mid := BookedAll(b, lines);
    BookedAllGood(b, lines);
    assert n in mid.order;
    var first := FirstUnseen(mid.order, Seen(lines)).value;
    NewOnesAreSeen(b, lines, first);
    BlamedFirst(mid, Seen(lines), timedOut);
    var after := AfterRun(b, Unit(timedOut, lines));
    assert after == Blamed(mid, Seen(lines), timedOut);
    hide Blamed, BookedAll, GoodBook, FirstUnseen;
    assert first in after.order && after.stats[first].fails > 0;
  }

  lemma BlamedFirst(b: Book, seen: set<string>, timedOut: bool)
    requires GoodBook(b) && FirstUnseen(b.order, seen).Some?
    ensures var first := FirstUnseen(b.order, seen).value; var after := Blamed(b, seen, timedOut);
      && first in b.stats && first in after.stats && first in after.order && first !in seen
      && after.stats[first].fails == b.stats[first].fails + 1
      && (after.stats[first].timeouts > b.stats[first].timeouts <==> timedOut)
  {
  }

  lemma {:induction false} NewOnesAreSeen(b: Book, lines: seq<ResultLine>, n: string)
    requires n in BookedAll(b, lines).order
    ensures n in b.order || n in Seen(lines)
  {
    if lines != [] {
      var before := lines[..|lines| - 1];
      assert lines == before + [lines[|lines| - 1]];
      assert lines[|lines| - 1].name in Seen(lines);
      assert Seen(before) <= Seen(lines);
      if n in BookedAll(b, before).order {
        NewOnesAreSeen(b, before, n);
      }
    }
  }

  // --- Every sequence of visits ---------------------------------------------------------------

  function After(s: State, visits: seq<Visit>): State {
    if visits == [] then s else Visited(After(s, visits[..|visits| - 1]), visits[|visits| - 1])
  }

  /** Whether the i-th visit runs the file. */
  predicate Runs(s: State, visits: seq<Visit>, i: nat)
    requires i < |visits|
  {
    After(s, visits[..i]).skipCount == 0
  }

  lemma {:induction false} AfterGood(s: State, visits: seq<Visit>)
    requires GoodFile(s)
    ensures GoodFile(After(s, visits))
  {
    if visits != [] {
      AfterGood(s, visits[..|visits| - 1]);
      VisitGood(After(s, visits[..|visits| - 1]), visits[|visits| - 1]);
    }
  }

  lemma OneMore(s: State, visits: seq<Visit>, i: nat)
    requires i < |visits|
    ensures After(s, visits[..i + 1]) == Visited(After(s, visits[..i]), visits[i])
  {
    assert visits[..i + 1][..i] == visits[..i];
  }

  /** A file runs at least once in eight visits, all told... */
  lemma {:induction false} RunsOften(tests: seq<string>, visits: seq<Visit>)
    requires tests != []
    ensures var s := After(NewState(tests), visits); |visits| + s.skipCount <= 8 * s.runs
  {
    if visits != [] {
      RunsOften(tests, visits[..|visits| - 1]);
    }
  }

  lemma {:induction false} SkipsRunOut(s: State, visits: seq<Visit>, i: nat, n: nat) returns (j: nat)
    requires i + n < |visits| && After(s, visits[..i]).skipCount <= n
    ensures i <= j <= i + n && Runs(s, visits, j)
    decreases n
  {
    j := i;
    if After(s, visits[..i]).skipCount > 0 {
      OneMore(s, visits, i);
      j := SkipsRunOut(s, visits, i + 1, n - 1);
    }
  }

  /** ...and in any eight visits in a row. */
  lemma RunsInAnyEight(s: State, visits: seq<Visit>, i: nat) returns (j: nat)
    requires GoodFile(s) && i + 8 <= |visits|
    ensures i <= j < i + 8 && Runs(s, visits, j)
  {
    AfterGood(s, visits[..i]);
    j := SkipsRunOut(s, visits, i, 7);
  }

  /** A file that has failed is run at every visit from then on. */
  lemma {:induction false} FailedNeverSkipped(s: State, visits: seq<Visit>, i: nat, j: nat)
    requires GoodFile(s) && i <= j < |visits| && HasFailures(After(s, visits[..i]).book)
    ensures Runs(s, visits, j) && HasFailures(After(s, visits[..j]).book)
    decreases j
  {
    AfterGood(s, visits[..j]);
    if i < j {
      FailedNeverSkipped(s, visits, i, j - 1);
      OneMore(s, visits, j - 1);
      AfterGood(s, visits[..j - 1]);
      VisitGood(After(s, visits[..j - 1]), visits[j - 1]);
    }
  }

  /** The one test of an end-to-end file passes or fails once for each run. */
  lemma {:induction false} EndToEndTotals(name: string, visits: seq<Visit>)
    requires forall v :: v in visits ==> v.run.EndToEnd?
    ensures var s := After(NewState([name]), visits);
      && s.book.order == [name] && s.book.stats.Keys == {name}
      && s.book.stats[name].passes + s.book.stats[name].fails == s.runs
      && s.book.stats[name].timings + s.book.stats[name].timeouts == s.runs
  {
    if visits != [] {
      var before := visits[..|visits| - 1];
      EndToEndTotals(name, before);
    }
  }

  // --- What is booked, number by number --------------------------------------------------------

  /** The lines for a test with a given result. */
  function LinesOf(lines: seq<ResultLine>, n: string, good: bool): nat {
    if lines == [] then 0
    else
      var l := lines[|lines| - 1];
      LinesOf(lines[..|lines| - 1], n, good) + if l.name == n && (l.status == Pass) == good then 1 else 0
  }

  function PassesOf(b: Book, n: string): nat {
    if n in b.stats then b.stats[n].passes else 0
  }

  function FailsOf(b: Book, n: string): nat {
    if n in b.stats then b.stats[n].fails else 0
  }

  lemma {:induction false} LinesBooked(b: Book, lines: seq<ResultLine>, n: string)
    ensures PassesOf(BookedAll(b, lines), n) == PassesOf(b, n) + LinesOf(lines, n, true)
    ensures FailsOf(BookedAll(b, lines), n) == FailsOf(b, n) + LinesOf(lines, n, false)
  {
    if lines != [] {
      LinesBooked(b, lines[..|lines| - 1], n);
    }
  }

  /** One run of a unit file: a test gains a pass for each of its passing lines and a failure
      for each of the others; besides only the first silent test gains one failure. */
  lemma UnitBookedExactly(b: Book, timedOut: bool, lines: seq<ResultLine>, n: string)
    requires GoodBook(b)
    ensures var after := AfterRun(b, Unit(timedOut, lines));
      var silent := FirstUnseen(BookedAll(b, lines).order, Seen(lines));
      && PassesOf(after, n) == PassesOf(b, n) + LinesOf(lines, n, true)
      && FailsOf(after, n) == FailsOf(b, n) + LinesOf(lines, n, false) + if silent == Some(n) then 1 else 0
  {
    LinesBooked(b, lines, n);
    BookedAllGood(b, lines);
    var mid := BookedAll(b, lines);
    assert FirstUnseen(mid.order, Seen(lines)).Some? ==> FirstUnseen(mid.order, Seen(lines)).value in mid.stats;
    hide BookedAll, LinesOf, FirstUnseen, Seen;
  }

  /** One run of an end-to-end file: a pass if the output matched in time, else a failure, a
      timeout if it was killed for its time. */
  lemma OutputBookedExactly(b: Book, timedOut: bool, matches: bool)
    requires GoodBook(b) && b.order != []
    ensures var n := b.order[0]; var after := AfterRun(b, EndToEnd(timedOut, matches));
      && PassesOf(after, n) == PassesOf(b, n) + (if matches && !timedOut then 1 else 0)
      && FailsOf(after, n) == FailsOf(b, n) + (if matches && !timedOut then 0 else 1)
      && after.stats[n].timeouts == b.stats[n].timeouts + (if timedOut then 1 else 0)
  {
  }

  /** How often a file runs: every time while it is new, once a test of it has failed, and
      while its times vary; else every second, fourth and eighth time as it runs on. */
  lemma IntervalExactly(s: State, v: Visit)
    requires GoodFile(s) && s.skipCount == 0
    ensures var after := Visited(s, v);
      && after.runs == s.runs + 1 && after.skipCount == after.interval - 1
      && after.interval ==
           if (exists n :: n in after.book.order && FailsOf(after.book, n) > 0) || v.highVariance || s.runs + 1 < 20 then 1
           else if s.runs + 1 < 50 then 2
           else if s.runs + 1 < 100 then 4
           else 8
  {
    AfterRunGood(s.book, v.run);
    hide AfterRun;
  }
}
