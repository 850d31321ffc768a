/**
 Progress lines: persistent text goes to one stream, a transient line that is drawn over
 goes to another, and in a terminal both end up on the same rows.
 */
module Renderer {
  import opened Wrappers
  import opened Text

  // --- A terminal --------------------------------------------------------------------------

  /** What stands in a column; `transient` marks characters of a transient line. */
  datatype Cell = Blank | Ink(c: char, transient: bool)

  /** The current row; `stranded` says that a row was left with transient characters on it. */
  datatype Terminal = Terminal(width: nat, row: seq<Cell>, col: nat, stranded: bool)

  predicate CleanRow(row: seq<Cell>) {
    forall i :: 0 <= i < |row| ==> row[i].Ink? ==> !row[i].transient
  }

  predicate Proper(t: Terminal) {
    t.width > 0 && t.col <= |t.row|
  }

  function NewRow(t: Terminal): Terminal {
    Terminal(t.width, [], 0, t.stranded || !CleanRow(t.row))
  }

  /** Every character but a newline and a carriage return takes one column; a full row wraps. */
  function Put(t: Terminal, c: char, transient: bool): (t': Terminal)
    requires Proper(t)
    ensures Proper(t') && t'.width == t.width
  {
    if c == '\n' then NewRow(t)
    else if c == '\r' then t.(col := 0)
    else
      var u := if t.col >= t.width then NewRow(t) else t;
      var cell := if c == ' ' then Blank else Ink(c, transient);
      u.(row := if u.col < |u.row| then u.row[u.col := cell] else u.row + [cell], col := u.col + 1)
  }

  function Write(t: Terminal, text: string, transient: bool): (t': Terminal)
    requires Proper(t)
    ensures Proper(t') && t'.width == t.width
    decreases |text|
  {
    if text == "" then t else Write(Put(t, text[0], transient), text[1..], transient)
  }

  // --- The renderer --------------------------------------------------------------------------

  datatype Mode = Full | Plain | TTY

  /** Everything a call can change. */
  datatype Screen = Screen(lastLen: nat, out: string, status: string, terminal: Terminal)

  /** The calls, with the text their arguments format to. */
  datatype Call = Clear | Print(text: string) | Println(text: string) | Pass(text: string)

  function Spaces(n: nat): (s: string)
    ensures |s| == n && forall i :: 0 <= i < n ==> s[i] == ' '
  {
    seq(n, _ => ' ')
  }

  predicate IsControl(c: char) {
    c as int < 0x20 || c as int == 0x7f
  }

  function FlattenTransient(s: string): (r: string)
    ensures |r| == |s| && forall i :: 0 <= i < |s| ==> r[i] == if IsControl(s[i]) then ' ' else s[i]
  {
    seq(|s|, i requires 0 <= i < |s| => if IsControl(s[i]) then ' ' else s[i])
  }

  function TruncateRunes(s: string, n: int): (r: string)
    ensures n > 0 ==> |r| <= n
    ensures r <= s
  {
    if n <= 0 || |s| <= n then s else s[..n]
  }

  function TrimLineEnd(s: string): string {
    if s != "" && (s[|s| - 1] == '\r' || s[|s| - 1] == '\n') then TrimLineEnd(s[..|s| - 1]) else s
  }

  /** The width to cut transient lines to, from the COLUMNS variable. */
  function ProgressWidth(columns: string): (n: nat)
    ensures n > 20
  {
    match Atoi(TrimSpace(columns))
    case Some(n) => if n > 20 then n else 80
    case None => 80
  }

  function TransientText(text: string, width: nat): (s: string)
    requires width > 20
    ensures |s| <= width - 2
    ensures forall i :: 0 <= i < |s| ==> s[i] != '\n' && s[i] != '\r'
  {
    TruncateRunes(FlattenTransient(TrimLineEnd(text)), width - 2)
  }

  function Persist(s: Screen, text: string): Screen
    requires Proper(s.terminal)
  {
    s.(out := s.out + text, terminal := Write(s.terminal, text, false))
  }

  function Erased(s: Screen): Screen
    requires Proper(s.terminal)
  {
    if s.lastLen == 0 then s
    else
      var text := "\r" + Spaces(s.lastLen) + "\r";
      s.(status := s.status + text, terminal := Write(s.terminal, text, false), lastLen := 0)
  }

  function Drawn(s: Screen, text: string): Screen
    requires Proper(s.terminal)
  {
    s.(status := s.status + text, terminal := Write(s.terminal, text, true), lastLen := |text|)
  }

  /** What a call does. */
  function Do(mode: Mode, width: nat, s: Screen, call: Call): (s': Screen)
    requires Proper(s.terminal) && width > 20
    ensures Proper(s'.terminal) && s'.terminal.width == s.terminal.width
  {
    match call
    case Clear => Erased(s)
    case Print(text) => Persist(Erased(s), text)
    case Println(text) => Persist(Erased(s), text + "\n")
    case Pass(text) =>
      match mode
      case Full => Persist(Erased(s), text)
      case Plain => s
      case TTY => Drawn(Erased(s), TransientText(text, width))
  }

  /** The streams are different ones; a terminal shows both. */
  class Renderer {
    const mode: Mode
    const columns: string
    var lastLen: nat
    var out: string
    var status: string
    var terminal: Terminal

    constructor (mode: Mode, columns: string, terminal: Terminal)
      requires Proper(terminal)
      ensures this.mode == mode && this.columns == columns && Shown() == Screen(0, "", "", terminal)
    {
      this.mode, this.columns := mode, columns;
      lastLen, out, status, this.terminal := 0, "", "", terminal;
    }

    function Shown(): Screen
      reads this
    {
      Screen(lastLen, out, status, terminal)
    }

    method Clear()
      requires Proper(terminal)
      modifies this
      ensures Shown() == Do(mode, ProgressWidth(columns), old(Shown()), Call.Clear)
    {
      if lastLen == 0 {
        return;
      }
      WriteStatus("\r" + Spaces(lastLen) + "\r", false);
      lastLen := 0;
    }

    method WriteStatus(text: string, transient: bool)
      requires Proper(terminal)
      modifies this`status, this`terminal
      ensures status == old(status) + text && terminal == Write(old(terminal), text, transient)
    {
      status := status + text;
      terminal := Write(terminal, text, transient);
    }

    method Print(text: string)
      requires Proper(terminal)
      modifies this
      ensures Shown() == Do(mode, ProgressWidth(columns), old(Shown()), Call.Print(text))
    {
      Clear();
      out := out + text;
      terminal := Write(terminal, text, false);
    }

    method Println(text: string)
      requires Proper(terminal)
      modifies this
      ensures Shown() == Do(mode, ProgressWidth(columns), old(Shown()), Call.Println(text))
    {
      Clear();
      out := out + (text + "\n");
      terminal := Write(terminal, text + "\n", false);
    }

    method Transient(text: string)
      requires Proper(terminal)
      modifies this
      ensures Shown() == Drawn(Erased(old(Shown())), TransientText(text, ProgressWidth(columns)))
    {
      var s := TrimLineEnd(text);
      s := FlattenTransient(s);
      s := TruncateRunes(s, ProgressWidth(columns) - 2);
      Clear();
      WriteStatus(s, true);
      lastLen := |s|;
    }

    method Pass(text: string)
      requires Proper(terminal)
      modifies this
      ensures Shown() == Do(mode, ProgressWidth(columns), old(Shown()), Call.Pass(text))
    {
      match mode {
        case Full => Print(text);
        case TTY => Transient(text);
        case Plain =>
      }
    }
  }

  function DoAll(mode: Mode, width: nat, s: Screen, calls: seq<Call>): (s': Screen)
    requires Proper(s.terminal) && width > 20
    ensures Proper(s'.terminal) && s'.terminal.width == s.terminal.width
  {
    if calls == [] then s
    else Do(mode, width, DoAll(mode, width, s, calls[..|calls| - 1]), calls[|calls| - 1])
  }

  // --- The persistent stream -------------------------------------------------------------------

  /** The calls without the passing lines. */
  function Persistent(calls: seq<Call>): seq<Call> {
    if calls == [] then []
    else
      var before, last := Persistent(calls[..|calls| - 1]), calls[|calls| - 1];
      if last.Pass? then before else before + [last]
  }

  /** What a call adds to the out stream. */
  function Added(mode: Mode, call: Call): string {
    match call
    case Clear => ""
    case Print(text) => text
    case Println(text) => text + "\n"
    case Pass(text) => if mode.Full? then text else ""
  }

  lemma DoAdds(mode: Mode, width: nat, s: Screen, call: Call)
    requires Proper(s.terminal) && width > 20
    ensures Do(mode, width, s, call).out == s.out + Added(mode, call)
  {
  }

  /** The out stream of plain and of terminal mode is the full stream without the passing
      lines: nothing else is lost, and nothing of the transient line gets in. */
  lemma {:induction false} OutWithoutPasses(mode: Mode, width: nat, s: Screen, calls: seq<Call>)
    requires Proper(s.terminal) && width > 20 && !mode.Full?
    ensures DoAll(mode, width, s, calls).out == DoAll(Full, width, s, Persistent(calls)).out
  {
    hide Do;
    if calls != [] {
      var before, last := calls[..|calls| - 1], calls[|calls| - 1];
      OutWithoutPasses(mode, width, s, before);
      DoAdds(mode, width, DoAll(mode, width, s, before), last);
      if !last.Pass? {
        DoAdds(Full, width, DoAll(Full, width, s, Persistent(before)), last);
        assert Persistent(calls)[..|Persistent(calls)| - 1] == Persistent(before);
      }
    }
  }

  /** What a call prints for good, in full. */
  lemma FullPrints(width: nat, s: Screen, text: string)
    requires Proper(s.terminal) && width > 20
    ensures Do(Full, width, s, Call.Pass(text)).out == s.out + text
    ensures forall mode :: Do(mode, width, s, Call.Print(text)).out == s.out + text
    ensures forall mode :: Do(mode, width, s, Call.Println(text)).out == s.out + (text + "\n")
    ensures Do(Plain, width, s, Call.Pass(text)) == s
  {
  }

  // --- Nothing transient is left behind ---------------------------------------------------------

  predicate OneRow(text: string) {
    forall i :: 0 <= i < |text| ==> text[i] != '\n' && text[i] != '\r'
  }

  /** Text that fits the row overwrites the columns it covers and no others. */
  lemma {:induction false} WriteInRow(t: Terminal, text: string, transient: bool)
    requires Proper(t) && OneRow(text) && t.col + |text| <= t.width
    ensures var t' := Write(t, text, transient);
      && t'.col == t.col + |text| && t'.stranded == t.stranded
      && |t'.row| == (if |t.row| > t'.col then |t.row| else t'.col)
      && (forall i :: 0 <= i < |t'.row| && !(t.col <= i < t'.col) ==> i < |t.row| && t'.row[i] == t.row[i])
      && (forall i :: 0 <= i < |text| ==>
            t'.row[t.col + i] == if text[i] == ' ' then Blank else Ink(text[i], transient))
    decreases |text|
  {
    if text != "" {
      var u := Put(t, text[0], transient);
      WriteInRow(u, text[1..], transient);
      var t' := Write(t, text, transient);
      forall i | 0 <= i < |text|
        ensures t'.row[t.col + i] == if text[i] == ' ' then Blank else Ink(text[i], transient)
      {
        if i > 0 {
          assert text[1..][i - 1] == text[i];
        }
      }
    }
  }

  predicate Spotless(t: Terminal) {
    CleanRow(t.row) && !t.stranded
  }

  /** Persistent text leaves a spotless terminal spotless; whole lines leave the cursor at
      the start of a row. */
  lemma {:induction false} PersistSpotless(t: Terminal, text: string)
    requires Proper(t) && Spotless(t)
    ensures Spotless(Write(t, text, false))
    ensures WholeLines(text) && (t.col == 0 || text != "") ==> Write(t, text, false).col == 0
    decreases |text|
  {
    if text != "" {
      var u := Put(t, text[0], false);
      if |text| > 1 {
        assert text[|text| - 1] == text[1..][|text| - 2];
      }
      PersistSpotless(u, text[1..]);
    }
  }

  /** Between calls: either nothing transient is shown, or exactly a transient line that
      starts its row, as long as the renderer remembers. */
  predicate Tidy(s: Screen) {
    && Proper(s.terminal) && !s.terminal.stranded && s.terminal.col == s.lastLen
    && CleanRow(s.terminal.row[s.lastLen..]) && s.lastLen <= s.terminal.width
    && (s.lastLen == 0 ==> CleanRow(s.terminal.row))
  }

  /** Erasing writes the length remembered in blanks from the start of the row. */
  lemma EraseTidy(s: Screen)
    requires Tidy(s)
    ensures var s' := Erased(s); Tidy(s') && s'.lastLen == 0 && Spotless(s'.terminal)
  {
    var t := s.terminal;
    if s.lastLen > 0 {
      var blanks := Spaces(s.lastLen);
      var text := "\r" + blanks + "\r";
      var t1 := Put(t, '\r', false);
      var t2 := Write(t1, blanks, false);
      WriteInRow(t1, blanks, false);
      WriteJoin(t1, blanks, "\r", false);
      assert text[1..] == blanks + "\r";
      assert Write(t2, "\r", false) == Put(t2, '\r', false);
      assert Erased(s).terminal == t2.(col := 0);
      forall i | 0 <= i < |t2.row|
        ensures t2.row[i].Ink? ==> !t2.row[i].transient
      {
        if i < s.lastLen {
          assert blanks[i] == ' ' && t2.row[t1.col + i] == Blank;
        } else {
          assert t2.row[i] == t.row[i] == t.row[s.lastLen..][i - s.lastLen];
        }
      }
    }
  }

  lemma {:induction false} WriteJoin(t: Terminal, a: string, b: string, transient: bool)
    requires Proper(t)
    ensures Write(t, a + b, transient) == Write(Write(t, a, transient), b, transient)
    decreases |a|
  {
    if a == "" {
      assert a + b == b;
    } else {
      assert (a + b)[1..] == a[1..] + b;
      WriteJoin(Put(t, a[0], transient), a[1..], b, transient);
    }
  }

  lemma DrawTidy(s: Screen, text: string)
    requires Tidy(s) && s.lastLen == 0 && OneRow(text) && |text| <= s.terminal.width
    ensures Tidy(Drawn(s, text))
  {
    var t := s.terminal;
    var t' := Write(t, text, true);
    WriteInRow(t, text, true);
    forall i | 0 <= i < |t'.row[|text|..]|
      ensures t'.row[|text|..][i].Ink? ==> !t'.row[|text|..][i].transient
    {
      assert t'.row[|text| + i] == t.row[|text| + i];
    }
    if text == "" {
      assert t' == t;
    }
  }

  /** Calls whose persistent text ends its line. */
  predicate EndsLine(mode: Mode, call: Call) {
    match call
    case Print(text) => WholeLines(text)
    case Pass(text) => mode.Full? ==> WholeLines(text)
    case _ => true
  }

  lemma PersistTidy(s: Screen, text: string)
    requires Tidy(s) && s.lastLen == 0 && WholeLines(text)
    ensures var s' := Persist(s, text); Tidy(s') && s'.lastLen == 0 && Spotless(s'.terminal)
  {
    PersistSpotless(s.terminal, text);
    var t' := Write(s.terminal, text, false);
    assert t'.row[0..] == t'.row;
  }

  lemma DoTidy(mode: Mode, width: nat, s: Screen, call: Call)
    requires Tidy(s) && width > 20 && s.terminal.width >= width - 2 && EndsLine(mode, call)
    ensures var s' := Do(mode, width, s, call);
      Tidy(s') && (!call.Pass? || mode.Full? ==> s'.lastLen == 0 && Spotless(s'.terminal))
  {
    EraseTidy(s);
    hide Erased, Tidy, Persist, Drawn, WholeLines;
    match call
    case Clear =>
    case Print(text) => PersistTidy(Erased(s), text);
    case Println(text) =>
      assert WholeLines(text + "\n") by {
        EndsWhole(text);
      }
      PersistTidy(Erased(s), text + "\n");
    case Pass(text) =>
      if mode.Full? {
        PersistTidy(Erased(s), text);
      } else if mode.TTY? {
        ErasedWidth(s);
        DrawTidy(Erased(s), TransientText(text, width));
      }
  }

  lemma EndsWhole(text: string)
    ensures WholeLines(text + "\n")
  {
  }

  lemma ErasedWidth(s: Screen)
    requires Proper(s.terminal)
    ensures Erased(s).terminal.width == s.terminal.width
  {
  }

  /** After any calls, a cleared or newline-terminated screen carries no character of any
      transient line, on the row or on the rows above. */
  lemma {:induction false} NothingLeftOver(mode: Mode, width: nat, s: Screen, calls: seq<Call>)
    requires Tidy(s) && width > 20 && s.terminal.width >= width - 2
    requires forall c :: c in calls ==> EndsLine(mode, c)
    ensures var s' := DoAll(mode, width, s, calls);
      && Tidy(s')
      && (calls != [] && (!calls[|calls| - 1].Pass? || mode.Full?) ==> s'.lastLen == 0 && Spotless(s'.terminal))
  {
    if calls != [] {
      var before, last := calls[..|calls| - 1], calls[|calls| - 1];
      NothingLeftOver(mode, width, s, before);
      hide Tidy, EndsLine, Do, Spotless;
      DoTidy(mode, width, DoAll(mode, width, s, before), last);
    }
  }

  /** A fresh terminal is tidy. */
  lemma FreshTidy(width: nat)
    requires width > 0
    ensures Tidy(Screen(0, "", "", Terminal(width, [], 0, false)))
  {
  }

  /** A transient line drawn behind text that did not end its line: erasing starts at the
      row's first column, so it misses what stands further to the right. */
  lemma LeftBehindExactly(s: Screen, text: string)
    requires Proper(s.terminal) && Spotless(s.terminal) && s.lastLen == 0
    requires OneRow(text) && text != "" && s.terminal.col + |text| <= s.terminal.width
    ensures Spotless(Erased(Drawn(s, text)).terminal)
       <==> forall i :: 0 <= i < |text| && s.terminal.col + i >= |text| ==> text[i] == ' '
  {
    var t := s.terminal;
    var t1 := Write(t, text, true);
    WriteInRow(t, text, true);
    var blanks := Spaces(|text|);
    var t2 := Put(t1, '\r', false);
    var t3 := Write(t2, blanks, false);
    WriteInRow(t2, blanks, false);
    EraseSteps(t1, |text|);
    hide Write, Put;
    assert Erased(Drawn(s, text)).terminal == t3.(col := 0);
    forall i | 0 <= i < |text| && t.col + i >= |text|
      ensures t3.row[t.col + i] == if text[i] == ' ' then Blank else Ink(text[i], true)
    {
      assert t1.row[t.col + i] == t3.row[t.col + i];
    }
    if forall i :: 0 <= i < |text| && t.col + i >= |text| ==> text[i] == ' ' {
      forall j | 0 <= j < |t3.row|
        ensures t3.row[j].Ink? ==> !t3.row[j].transient
      {
        if j < |text| {
          assert blanks[j] == ' ' && t3.row[t2.col + j] == Blank;
        } else if j >= t.col && j < t.col + |text| {
          assert text[j - t.col] == ' ' && t3.row[t.col + (j - t.col)] == Blank;
        } else {
          assert t3.row[j] == t1.row[j] == t.row[j];
        }
      }
    }
  }

  lemma EraseSteps(t: Terminal, n: nat)
    requires Proper(t)
    ensures Write(t, "\r" + Spaces(n) + "\r", false) == Write(Put(t, '\r', false), Spaces(n), false).(col := 0)
  {
    var blanks := Spaces(n);
    var text := "\r" + blanks + "\r";
    assert text[1..] == blanks + "\r";
    WriteJoin(Put(t, '\r', false), blanks, "\r", false);
    var t2 := Write(Put(t, '\r', false), blanks, false);
    assert Write(t2, "\r", false) == Put(t2, '\r', false);
  }

  /** In a terminal a passing line is seen: on an empty row it stands there character for
      character, control characters as blanks, cut to the row. */
  lemma PassShown(width: nat, s: Screen, text: string, i: nat)
    requires Proper(s.terminal) && width > 20 && s.terminal.width >= width
    requires s.lastLen == 0 && s.terminal.col == 0 && s.terminal.row == []
    requires i < |TrimLineEnd(text)| && i < width - 2
    ensures var after := Do(TTY, width, s, Call.Pass(text)); var c := TrimLineEnd(text)[i];
      && i < |after.terminal.row|
      && after.terminal.row[i] == (if IsControl(c) || c == ' ' then Blank else Ink(c, true))
      && after.out == s.out
  {
    var shown := TransientText(text, width);
    assert OneRow(shown);
    WriteInRow(s.terminal, shown, true);
    assert i < |shown| && shown[i] == FlattenTransient(TrimLineEnd(text))[i];
  }
}
