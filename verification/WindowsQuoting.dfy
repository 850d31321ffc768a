/**
 Linker response files: quoting one argument per line, and the tokenizer on the
 linker's side that has to recover the arguments.

 A string stands for its byte sequence, one char a byte: every byte either side treats
 specially is ASCII.
 */
module WindowsQuoting {

  const BACKSLASH := '\\'
  const QUOTE := '"'
  const NUL := '\0'

  // ---------------------------------------------------------------------------
  // The reader: the Windows command-line rules as a character-at-a-time machine.
  // ---------------------------------------------------------------------------

  /** Where the reader stands. A backslash run is pending until the character after it is
      seen; a quote inside quotes is pending because a second one makes it literal. */
  datatype Mode = Gap | Bare | Quoted | AfterQuote

  datatype Reader = Reader(mode: Mode, out: seq<string>, token: string, pending: nat)

  const START := Reader(Gap, [], "", 0)

  predicate IsBreak(c: char) {
    c == ' ' || c == '\t' || c == '\r' || c == '\n' || c == NUL
  }

  function Backslashes(n: nat): (r: string)
    ensures |r| == n
    ensures forall i :: 0 <= i < n ==> r[i] == BACKSLASH
  {
    seq(n, i => BACKSLASH)
  }

  /** Consumes one character. */
  function Step(r: Reader, c: char): Reader {
    if c == BACKSLASH then
      r.(mode := if r.mode == Quoted then Quoted else Bare, pending := r.pending + 1)
    else if c == QUOTE then
      if r.pending % 2 == 1 then
        // An odd run: half of it, and the quote is a character.
        r.(token := r.token + Backslashes(r.pending / 2) + [QUOTE], pending := 0)
      else
        var s := r.(token := r.token + Backslashes(r.pending / 2), pending := 0);
        match s.mode
        case Quoted => s.(mode := AfterQuote)
        case AfterQuote => s.(mode := Quoted, token := s.token + [QUOTE])
        case _ => s.(mode := Quoted)
    else
      // A run not followed by a quote is literal.
      var s := r.(token := r.token + Backslashes(r.pending), pending := 0);
      if r.mode == Quoted then
        s.(token := s.token + [c])
      else if !IsBreak(c) then
        s.(mode := Bare, token := s.token + [c])
      else if r.mode == Gap then
        s
      else
        Reader(Gap, s.out + [s.token], "", 0)
  }

  function Run(r: Reader, text: string): Reader
    decreases |text|
  {
    if text == "" then r else Run(Step(r, text[0]), text[1..])
  }

  /** End of input ends a token that is still open. */
  function Finish(r: Reader): seq<string> {
    if r.mode == Gap then r.out else r.out + [r.token + Backslashes(r.pending)]
  }

  function Tokenize(text: string): seq<string> {
    Finish(Run(START, text))
  }

  // ---------------------------------------------------------------------------
  // The writer.
  // ---------------------------------------------------------------------------

  predicate NeedsQuotes(s: string) {
    s == "" || ' ' in s || '\t' in s || '\r' in s || '\n' in s || QUOTE in s
  }

  /** What follows the opening quote when `slashes` backslashes were just written. */
  function Escaped(s: string, slashes: nat): string {
    if s == "" then Backslashes(slashes) + [QUOTE]
    else if s[0] == BACKSLASH then [BACKSLASH] + Escaped(s[1..], slashes + 1)
    else if s[0] == QUOTE then Backslashes(slashes + 1) + [QUOTE] + Escaped(s[1..], 0)
    else [s[0]] + Escaped(s[1..], 0)
  }

  function QuotedForm(s: string): string {
    if NeedsQuotes(s) then [QUOTE] + Escaped(s, 0) else s
  }

  lemma {:induction false} EscapedIsLonger(s: string, slashes: nat)
    ensures |Escaped(s, slashes)| > |s|
  {
    if s != "" {
      EscapedIsLonger(s[1..], slashes + 1);
      EscapedIsLonger(s[1..], 0);
    }
  }

  /** An argument is written as it is exactly when it is not empty and has no white space and
      no quote in it. */
  lemma PlainExactly(s: string)
    ensures QuotedForm(s) == s <==> s != "" && forall c :: c in s ==> c != ' ' && c != '\t' && c != '\r' && c != '\n' && c != '\"'
  {
    EscapedIsLonger(s, 0);
    hide Escaped;
  }

  method QuoteArg(s: string) returns (r: string)
    ensures r == QuotedForm(s)
  {
    if s != "" && !(' ' in s || '\t' in s || '\r' in s || '\n' in s || QUOTE in s) {
      return s;
    }
    var b := [QUOTE];
    var slashes := 0;
    for i := 0 to |s|
      invariant b + Escaped(s[i..], slashes) == [QUOTE] + Escaped(s, 0)
    {
      ghost var before := b + Escaped(s[i..], slashes);
      assert s[i..][1..] == s[i + 1..];
      ghost var wasSlashes := slashes;
      ghost var wasB := b;
      if s[i] == BACKSLASH {
        slashes := slashes + 1;
        b := b + [s[i]];
      } else if s[i] == QUOTE {
        b := b + Backslashes(slashes + 1);
        slashes := 0;
        b := b + [s[i]];
      } else {
        slashes := 0;
        b := b + [s[i]];
      }
      assert b + Escaped(s[i + 1..], slashes) == before;
    }
    b := b + Backslashes(slashes);
    b := b + [QUOTE];
    return b;
  }

  /** The response file's text: one quoted argument per line. */
  function ResponseText(args: seq<string>): string {
    if args == [] then "" else QuotedForm(args[0]) + "\n" + ResponseText(args[1..])
  }

  method WriteResponseText(args: seq<string>) returns (b: string)
    ensures b == ResponseText(args)
  {
    b := "";
    for i := 0 to |args|
      invariant b + ResponseText(args[i..]) == ResponseText(args)
    {
      var q := QuoteArg(args[i]);
      assert args[i..][1..] == args[i + 1..];
      assert b + (q + "\n" + ResponseText(args[i + 1..])) == (b + q + "\n") + ResponseText(args[i + 1..]);
      b := b + q;
      b := b + "\n";
    }
  }

  // ---------------------------------------------------------------------------
  // The round trip.
  // ---------------------------------------------------------------------------

  lemma {:induction false} RunConcat(r: Reader, a: string, b: string)
    ensures Run(r, a + b) == Run(Run(r, a), b)
    decreases |a|
  {
    if a == "" {
      assert a + b == b;
    } else {
      assert (a + b)[1..] == a[1..] + b;
      RunConcat(Step(r, a[0]), a[1..], b);
    }
  }

  lemma {:induction false} RunBackslashes(r: Reader, n: nat)
    ensures Run(r, Backslashes(n))
         == if n == 0 then r
            else r.(mode := if r.mode == Quoted then Quoted else Bare, pending := r.pending + n)
    decreases n
  {
    if n > 0 {
      assert Backslashes(n)[1..] == Backslashes(n - 1);
      RunBackslashes(Step(r, BACKSLASH), n - 1);
    }
  }

  /** An escaped quote inside quotes is a quote, and halves the backslashes before it. */
  lemma QuoteEscaped(r: Reader, rest: string)
    requires r.mode == Quoted
    ensures Run(r, Backslashes(r.pending + 1) + [QUOTE] + rest)
         == Run(Reader(Quoted, r.out, r.token + Backslashes(r.pending) + [QUOTE], 0), rest)
  {
    var n := r.pending;
    assert Backslashes(n + 1) + [QUOTE] + rest == Backslashes(n + 1) + ([QUOTE] + rest);
    RunConcat(r, Backslashes(n + 1), [QUOTE] + rest);
    RunBackslashes(r, n + 1);
    var mid := r.(pending := n + n + 1);
    assert (n + n + 1) / 2 == n && (n + n + 1) % 2 == 1;
    assert ([QUOTE] + rest)[1..] == rest && ([QUOTE] + rest)[0] == QUOTE;
    assert Run(mid, [QUOTE] + rest) == Run(Step(mid, QUOTE), rest);
  }

  /** Inside quotes, with the writer's slash counter equal to the reader's pending run, the
      rest of the escaped text delivers exactly the rest of the argument and leaves the
      reader just past the closing quote. */
  lemma {:induction false} ReadEscaped(s: string, r: Reader)
    requires r.mode == Quoted
    ensures Run(r, Escaped(s, r.pending))
         == Reader(AfterQuote, r.out, r.token + Backslashes(r.pending) + s, 0)
  {
    var n := r.pending;
    if s == "" {
      RunConcat(r, Backslashes(n), [QUOTE]);
      RunBackslashes(r, n);
      assert (n + n) / 2 == n && (n + n) % 2 == 0;
      assert Run(r.(pending := n + n), [QUOTE]) == Step(r.(pending := n + n), QUOTE);
      assert r.token + Backslashes(n) + s == r.token + Backslashes(n);
    } else if s[0] == BACKSLASH {
      var next := Step(r, BACKSLASH);
      ReadEscaped(s[1..], next);
      assert ([BACKSLASH] + Escaped(s[1..], n + 1))[1..] == Escaped(s[1..], n + 1);
      assert Backslashes(n + 1) == Backslashes(n) + [BACKSLASH];
      assert r.token + Backslashes(n + 1) + s[1..] == r.token + Backslashes(n) + s;
    } else if s[0] == QUOTE {
      var rest := Escaped(s[1..], 0);
      QuoteEscaped(r, rest);
      var next := Reader(Quoted, r.out, r.token + Backslashes(n) + [QUOTE], 0);
      ReadEscaped(s[1..], next);
      assert next.token + Backslashes(0) + s[1..] == r.token + Backslashes(n) + s;
    } else {
      var next := Step(r, s[0]);
      assert ([s[0]] + Escaped(s[1..], 0))[1..] == Escaped(s[1..], 0);
      ReadEscaped(s[1..], next);
      assert next.token + Backslashes(0) + s[1..] == r.token + Backslashes(n) + s;
    }
  }

  /** Outside quotes, text free of breaks and quotes is literal, backslashes included. */
  lemma {:induction false} ReadBare(s: string, r: Reader)
    requires r.mode == Bare || (r.mode == Gap && r.token == "" && r.pending == 0)
    requires QUOTE !in s && forall c :: c in s ==> !IsBreak(c)
    ensures var e := Run(r, s);
            && e.mode == (if s == "" then r.mode else Bare)
            && e.out == r.out
            && e.token + Backslashes(e.pending) == r.token + Backslashes(r.pending) + s
  {
    if s == "" {
      assert r.token + Backslashes(r.pending) + s == r.token + Backslashes(r.pending);
    } else {
      assert s[0] in s;
      var next := Step(r, s[0]);
      assert forall c :: c in s[1..] ==> c in s;
      ReadBare(s[1..], next);
      if s[0] == BACKSLASH {
        assert Backslashes(r.pending + 1) == Backslashes(r.pending) + [BACKSLASH];
      }
      assert next.token + Backslashes(next.pending) == r.token + Backslashes(r.pending) + [s[0]];
      assert s == [s[0]] + s[1..];
      assert r.token + Backslashes(r.pending) + [s[0]] + s[1..]
          == r.token + Backslashes(r.pending) + s;
    }
  }

  /** The arguments the round trip keeps: a NUL outside quotes is a separator, and NUL is
      the one separator the writer does not quote for. */
  predicate Faithful(s: string) {
    NUL in s ==> NeedsQuotes(s)
  }

  lemma ReadLine(s: string, out: seq<string>)
    requires Faithful(s)
    ensures Run(Reader(Gap, out, "", 0), QuotedForm(s) + "\n") == Reader(Gap, out + [s], "", 0)
  {
    var r := Reader(Gap, out, "", 0);
    RunConcat(r, QuotedForm(s), "\n");
    if NeedsQuotes(s) {
      var inQuotes := Step(r, QUOTE);
      assert ([QUOTE] + Escaped(s, 0))[1..] == Escaped(s, 0);
      ReadEscaped(s, inQuotes);
      var closed := Run(r, QuotedForm(s));
      assert closed.token == s;
      assert Run(closed, "\n") == Step(closed, '\n');
      assert s + Backslashes(0) == s;
    } else {
      ReadBare(s, r);
      var e := Run(r, s);
      assert Run(e, "\n") == Step(e, '\n');
      assert e.token + Backslashes(e.pending) == s;
    }
  }

  /** Reading the lines of an argument list, from any point between arguments. */
  lemma {:induction false} ReadAll(args: seq<string>, out: seq<string>)
    requires forall a :: a in args ==> Faithful(a)
    ensures Run(Reader(Gap, out, "", 0), ResponseText(args)) == Reader(Gap, out + args, "", 0)
  {
    if args == [] {
      assert out + args == out;
    } else {
      var line := QuotedForm(args[0]) + "\n";
      RunConcat(Reader(Gap, out, "", 0), line, ResponseText(args[1..]));
      ReadLine(args[0], out);
      ReadAll(args[1..], out + [args[0]]);
      assert out + [args[0]] + args[1..] == out + args;
    }
  }

  /** Every list of NUL-free arguments comes back unchanged: same strings, number and order. */
  lemma RoundTrip(args: seq<string>)
    requires forall a :: a in args ==> NUL !in a
    ensures Tokenize(ResponseText(args)) == args
  {
    ReadAll(args, []);
    assert [] + args == args;
  }

  // --- The exact condition -----------------------------------------------------

  function NulsIn(s: string): nat {
    if s == "" then 0 else (if s[0] == NUL then 1 else 0) + NulsIn(s[1..])
  }

  function NulsInAll(ss: seq<string>): nat {
    if ss == [] then 0 else NulsIn(ss[0]) + NulsInAll(ss[1..])
  }

  lemma {:induction false} NulsConcat(a: string, b: string)
    ensures NulsIn(a + b) == NulsIn(a) + NulsIn(b)
  {
    if a == "" {
      assert a + b == b;
    } else {
      assert (a + b)[1..] == a[1..] + b;
      NulsConcat(a[1..], b);
    }
  }

  lemma {:induction false} NulsAppend(ss: seq<string>, s: string)
    ensures NulsInAll(ss + [s]) == NulsInAll(ss) + NulsIn(s)
  {
    if ss == [] {
      assert ss + [s] == [s];
      assert NulsInAll([s]) == NulsIn(s) + NulsInAll([s][1..]);
    } else {
      assert (ss + [s])[1..] == ss[1..] + [s];
      NulsAppend(ss[1..], s);
    }
  }

  lemma {:induction false} NulsBackslashes(n: nat)
    ensures NulsIn(Backslashes(n)) == 0
  {
    if n > 0 {
      assert Backslashes(n)[1..] == Backslashes(n - 1);
      NulsBackslashes(n - 1);
    }
  }

  lemma {:induction false} NulsPositive(s: string)
    requires NUL in s
    ensures NulsIn(s) > 0
  {
    if s[0] != NUL {
      assert s == [s[0]] + s[1..];
      NulsPositive(s[1..]);
    }
  }

  function NulsHeld(r: Reader): nat {
    NulsInAll(r.out) + NulsIn(r.token)
  }

  /** Unquoted text never puts a NUL into a token. */
  lemma {:induction false} BareDropsNuls(s: string, r: Reader)
    requires r.mode == Bare || (r.mode == Gap && r.token == "" && r.pending == 0)
    requires QUOTE !in s
    ensures var e := Run(r, s);
            && (e.mode == Bare || (e.mode == Gap && e.token == "" && e.pending == 0))
            && NulsHeld(e) == NulsHeld(r)
  {
    if s != "" {
      assert s[0] in s;
      assert forall c :: c in s[1..] ==> c in s;
      var next := Step(r, s[0]);
      var flushed := r.token + Backslashes(r.pending);
      NulsConcat(r.token, Backslashes(r.pending));
      NulsBackslashes(r.pending);
      if s[0] != BACKSLASH {
        NulsConcat(flushed, [s[0]]);
        NulsAppend(r.out, flushed);
      }
      assert NulsIn([s[0]]) == (if s[0] == NUL then 1 else 0) + NulsIn("");
      assert NulsHeld(next) == NulsHeld(r);
      BareDropsNuls(s[1..], next);
    }
  }

  /** One line adds its argument's NULs if the argument is faithful and none otherwise. */
  lemma LineNuls(s: string, out: seq<string>)
    ensures var e := Run(Reader(Gap, out, "", 0), QuotedForm(s) + "\n");
            && e == Reader(Gap, e.out, "", 0)
            && NulsInAll(e.out) == NulsInAll(out) + if Faithful(s) then NulsIn(s) else 0
  {
    var r := Reader(Gap, out, "", 0);
    if Faithful(s) {
      ReadLine(s, out);
      NulsAppend(out, s);
    } else {
      BareDropsNuls(s, r);
      RunConcat(r, s, "\n");
      var e := Run(r, s);
      assert Run(e, "\n") == Step(e, '\n');
      NulsConcat(e.token, Backslashes(e.pending));
      NulsBackslashes(e.pending);
      NulsAppend(e.out, e.token + Backslashes(e.pending));
    }
  }

  lemma {:induction false} AllNuls(args: seq<string>, out: seq<string>)
    ensures var e := Run(Reader(Gap, out, "", 0), ResponseText(args));
            && e == Reader(Gap, e.out, "", 0)
            && NulsInAll(e.out) <= NulsInAll(out) + NulsInAll(args)
            && ((exists a :: a in args && !Faithful(a)) ==> NulsInAll(e.out) < NulsInAll(out) + NulsInAll(args))
  {
    if args != [] {
      var r := Reader(Gap, out, "", 0);
      var line := QuotedForm(args[0]) + "\n";
      RunConcat(r, line, ResponseText(args[1..]));
      LineNuls(args[0], out);
      AllNuls(args[1..], Run(r, line).out);
      if !Faithful(args[0]) {
        NulsPositive(args[0]);
      }
      assert forall a :: a in args ==> a == args[0] || a in args[1..];
    }
  }

  /** The response file delivers its arguments exactly when no argument holds a NUL that
      the writer left outside quotes. */
  lemma RoundTripExactly(args: seq<string>)
    ensures Tokenize(ResponseText(args)) == args <==> forall a :: a in args ==> Faithful(a)
  {
    if forall a :: a in args ==> Faithful(a) {
      ReadAll(args, []);
      assert [] + args == args;
    } else {
      AllNuls(args, []);
    }
  }

  /** Distinct argument lists never share a response file. */
  lemma ResponseTextInjective(a: seq<string>, b: seq<string>)
    requires forall s :: s in a + b ==> NUL !in s
    requires ResponseText(a) == ResponseText(b)
    ensures a == b
  {
    assert forall s :: s in a ==> s in a + b;
    assert forall s :: s in b ==> s in a + b;
    RoundTrip(a);
    RoundTrip(b);
  }
}
