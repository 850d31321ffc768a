/**
 The binary cache: the text a key is the hash of, for each way a binary is built, and what
 a hit can be trusted to be. Keys stand for their text: the hash is taken to be injective.
 */
module CacheKeys {
  import opened Wrappers
  import opened Text

  datatype Kind = Run | Exec | Project | TestFile

  /** A local module: the path it is used by and the hash of its sources. */
  datatype Dep = Dep(path: string, hash: string)

  /** What a key lists. `limits` holds for test files, `sourceDir` for all but exec; exec and
      test files are always built in debug mode. */
  datatype Inputs = Inputs(
    kind: Kind,
    content: string,       // the hash of the source, or of a project's sources
    compiler: string,
    std: string,
    target: string,
    release: bool,
    limits: string,
    sourceDir: string,
    embeds: seq<string>,
    mods: seq<Dep>)        // sorted

  function KindLabel(k: Kind): string {
    match k
    case Run => "run-binary:"
    case Exec => "exec-binary:"
    case Project => "project-binary:"
    case TestFile => "test-file:"
  }

  function Mode(release: bool): string {
    if release then "release" else "debug"
  }

  /** The inputs that are in the key: what a kind does not list is blanked. */
  function Listed(i: Inputs): Inputs {
    i.(release := i.release && !i.kind.Exec? && !i.kind.TestFile?,
       limits := if i.kind.TestFile? then i.limits else "",
       sourceDir := if i.kind.Exec? then "" else i.sourceDir)
  }

  function Labelled(tag: string, items: seq<string>): (lines: seq<string>)
    ensures |lines| == |items|
    ensures forall i :: 0 <= i < |items| ==> lines[i] == tag + items[i]
  {
    seq(|items|, i requires 0 <= i < |items| => tag + items[i])
  }

  function DepTexts(mods: seq<Dep>): (texts: seq<string>)
    ensures |texts| == |mods|
    ensures forall i :: 0 <= i < |mods| ==> texts[i] == mods[i].path + ":" + mods[i].hash
  {
    seq(|mods|, i requires 0 <= i < |mods| => mods[i].path + ":" + mods[i].hash)
  }

  function Front(i: Inputs): (lines: seq<string>)
    ensures |lines| == 5 + if i.kind.TestFile? then 1 else 0
  {
    [KindLabel(i.kind) + i.content,
     "compiler:" + i.compiler,
     "std:" + i.std,
     "target:" + i.target,
     "mode:" + Mode(i.release && !i.kind.Exec? && !i.kind.TestFile?)]
    + if i.kind.TestFile? then [i.limits] else []
  }

  function Rest(i: Inputs): seq<string> {
    Labelled("embed:", i.embeds) + Labelled("mod:", DepTexts(i.mods))
  }

  function KeyLines(i: Inputs): seq<string> {
    Front(i) + ((if i.kind.Exec? then [] else ["source-dir:" + i.sourceDir]) + Rest(i))
  }

  function Joined(lines: seq<string>): string {
    if lines == [] then "" else lines[0] + "\n" + Joined(lines[1..])
  }

  function KeyText(i: Inputs): string {
    Joined(KeyLines(i))
  }

  // --- Keys are injective -----------------------------------------------------------------

  /** No field but the source directory has a newline in it, and a hash has no colon. */
  predicate Plain(i: Inputs) {
    && OneLine(i.content) && OneLine(i.compiler) && OneLine(i.std) && OneLine(i.target) && OneLine(i.limits)
    && (forall e :: e in i.embeds ==> OneLine(e))
    && (forall d :: d in i.mods ==> OneLine(d.path) && OneLine(d.hash) && ':' !in d.hash)
  }

  /** The lines the source directory takes: more than one if it has newlines. */
  function DirLines(i: Inputs): seq<string> {
    if i.kind.Exec? then [] else Lines("source-dir:" + i.sourceDir)
  }

  /** The last of several lines of the source directory reads as what may come next: an
      embedded file or, if there is none, a module. */
  predicate RunsOn(i: Inputs) {
    var lines := DirLines(i);
    |lines| > 1 && ReadsOn(i, lines[|lines| - 1])
  }

  predicate ReadsOn(i: Inputs, line: string) {
    "embed:" <= line || (i.embeds == [] && "mod:" <= line && ':' in line[4..])
  }

  lemma {:induction false} JoinedSplits(lines: seq<string>)
    requires forall l :: l in lines ==> OneLine(l)
    ensures Lines(Joined(lines)) == lines + [""]
  {
    if lines == [] {
      EmptyLines();
    } else {
      JoinedSplits(lines[1..]);
      LinesFirst(lines[0], Joined(lines[1..]));
    }
  }

  lemma JoinedOneWay(a: seq<string>, b: seq<string>)
    requires (forall l :: l in a ==> OneLine(l)) && (forall l :: l in b ==> OneLine(l))
    requires Joined(a) == Joined(b)
    ensures a == b
  {
    JoinedSplits(a);
    JoinedSplits(b);
    assert a == (a + [""])[..|a|] && b == (b + [""])[..|b|];
  }

  lemma SamePrefix(p: string, a: string, b: string)
    requires p + a == p + b
    ensures a == b
  {
    assert a == (p + a)[|p|..] && b == (p + b)[|p|..];
  }

  lemma SameLabel(tag: string, a: seq<string>, b: seq<string>)
    requires Labelled(tag, a) == Labelled(tag, b)
    ensures a == b
  {
    forall i | 0 <= i < |a|
      ensures a[i] == b[i]
    {
      SamePrefix(tag, a[i], b[i]);
    }
  }

  lemma LastColon(d: Dep)
    requires ':' !in d.hash
    ensures var s := d.path + ":" + d.hash;
      s[|d.path|] == ':' && forall k :: |d.path| < k < |s| ==> s[k] != ':'
  {
  }

  /** A path and a hash are told apart by the last colon. */
  lemma SameDep(a: Dep, b: Dep)
    requires a.path + ":" + a.hash == b.path + ":" + b.hash && ':' !in a.hash && ':' !in b.hash
    ensures a == b
  {
    LastColon(a);
    LastColon(b);
    var s, t := a.path + ":" + a.hash, b.path + ":" + b.hash;
    assert |a.path| == |b.path|;
    assert a.path == s[..|a.path|] && b.path == t[..|b.path|];
    assert a.hash == s[|a.path| + 1..] && b.hash == t[|b.path| + 1..];
  }

  lemma SameDeps(a: seq<Dep>, b: seq<Dep>)
    requires DepTexts(a) == DepTexts(b)
    requires (forall d :: d in a ==> ':' !in d.hash) && (forall d :: d in b ==> ':' !in d.hash)
    ensures a == b
  {
    forall i | 0 <= i < |a|
      ensures a[i] == b[i]
    {
      assert a[i] in a && b[i] in b && DepTexts(a)[i] == DepTexts(b)[i];
      SameDep(a[i], b[i]);
    }
  }

  lemma FirstLetters(e: seq<string>, m: seq<string>)
    ensures var lines := Labelled("embed:", e) + Labelled("mod:", m);
      forall k :: 0 <= k < |lines| ==> lines[k] != "" && lines[k][0] == if k < |e| then 'e' else 'm'
  {
  }

  lemma SameCount(lines: seq<string>, n: nat, n': nat)
    requires n <= |lines| && n' <= |lines|
    requires forall k :: 0 <= k < |lines| ==> lines[k] != "" && lines[k][0] == if k < n then 'e' else 'm'
    requires forall k :: 0 <= k < |lines| ==> lines[k] != "" && lines[k][0] == if k < n' then 'e' else 'm'
    ensures n == n'
  {
    var first := if n < |lines| then lines[n] else "";
    var first' := if n' < |lines| then lines[n'] else "";
  }

  /** Embed lines and module lines do not run into each other. */
  lemma SameTail(e: seq<string>, m: seq<string>, e': seq<string>, m': seq<string>)
    requires Labelled("embed:", e) + Labelled("mod:", m) == Labelled("embed:", e') + Labelled("mod:", m')
    ensures e == e' && m == m'
  {
    var a, b := Labelled("embed:", e), Labelled("mod:", m);
    var a', b' := Labelled("embed:", e'), Labelled("mod:", m');
    FirstLetters(e, m);
    FirstLetters(e', m');
    SameCount(a + b, |e|, |e'|);
    assert a == (a + b)[..|e|] && a' == (a' + b')[..|e|];
    assert b == (a + b)[|e|..] && b' == (a' + b')[|e|..];
    SameLabel("embed:", e, e');
    SameLabel("mod:", m, m');
  }

  lemma KindsApart(k: Kind, k': Kind, a: string, b: string)
    requires KindLabel(k) + a == KindLabel(k') + b
    ensures k == k' && a == b
  {
    assert (KindLabel(k) + a)[0] == KindLabel(k)[0];
    assert (KindLabel(k') + b)[0] == KindLabel(k')[0];
    SamePrefix(KindLabel(k), a, b);
  }

  lemma SameFront(a: Inputs, b: Inputs)
    requires a.kind == b.kind && Front(a) == Front(b)
    ensures var x, y := Listed(a), Listed(b);
      && x.content == y.content && x.compiler == y.compiler && x.std == y.std && x.target == y.target
      && x.release == y.release && x.limits == y.limits
  {
    var h, h' := Front(a), Front(b);
    assert h[0] == KindLabel(a.kind) + a.content && h'[0] == KindLabel(b.kind) + b.content;
    assert h[1] == "compiler:" + a.compiler && h'[1] == "compiler:" + b.compiler;
    assert h[2] == "std:" + a.std && h'[2] == "std:" + b.std;
    assert h[3] == "target:" + a.target && h'[3] == "target:" + b.target;
    SamePrefix(KindLabel(a.kind), a.content, b.content);
    SamePrefix("compiler:", a.compiler, b.compiler);
    SamePrefix("std:", a.std, b.std);
    SamePrefix("target:", a.target, b.target);
    SameMode(a, b);
    if a.kind.TestFile? {
      assert h[5] == a.limits && h'[5] == b.limits;
    }
  }

  lemma SameMode(a: Inputs, b: Inputs)
    requires a.kind == b.kind && Front(a) == Front(b)
    ensures Listed(a).release == Listed(b).release
  {
    var x, y := Mode(Listed(a).release), Mode(Listed(b).release);
    assert Front(a)[4] == "mode:" + x && Front(b)[4] == "mode:" + y;
    SamePrefix("mode:", x, y);
    assert "release"[0] == 'r' && "debug"[0] == 'd';
  }

  lemma OneLineJoin(a: string, b: string)
    requires OneLine(a) && OneLine(b)
    ensures OneLine(a + b)
  {
  }

  lemma WordsOneLine(k: Kind, release: bool)
    ensures OneLine(KindLabel(k)) && OneLine(Mode(release)) && OneLine("mode:")
    ensures OneLine("compiler:") && OneLine("std:") && OneLine("target:")
  {
  }

  lemma FrontPlain(i: Inputs)
    requires Plain(i)
    ensures forall l :: l in Front(i) ==> OneLine(l)
  {
    var release := i.release && !i.kind.Exec? && !i.kind.TestFile?;
    WordsOneLine(i.kind, release);
    hide OneLine, KindLabel, Mode;
    OneLineJoin(KindLabel(i.kind), i.content);
    OneLineJoin("compiler:", i.compiler);
    OneLineJoin("std:", i.std);
    OneLineJoin("target:", i.target);
    OneLineJoin("mode:", Mode(release));
  }

  lemma RestPlain(i: Inputs)
    requires Plain(i)
    ensures forall l :: l in Rest(i) ==> OneLine(l)
  {
    forall k | 0 <= k < |i.embeds|
      ensures OneLine("embed:" + i.embeds[k])
    {
      assert i.embeds[k] in i.embeds;
    }
    forall k | 0 <= k < |i.mods|
      ensures OneLine("mod:" + DepTexts(i.mods)[k])
    {
      assert i.mods[k] in i.mods;
    }
  }

  /** The lines a key really has. */
  function Expanded(i: Inputs): seq<string> {
    Front(i) + (DirLines(i) + Rest(i))
  }

  lemma {:induction false} JoinedTogether(a: seq<string>, b: seq<string>)
    ensures Joined(a + b) == Joined(a) + Joined(b)
  {
    if a == [] {
      assert a + b == b;
    } else {
      assert (a + b)[1..] == a[1..] + b;
      JoinedTogether(a[1..], b);
    }
  }

  lemma {:induction false} JoinedLines(s: string)
    ensures Joined(Lines(s)) == s + "\n"
    decreases |s|
  {
    var n := RunLength(NotNewline, s);
    if n == |s| {
      assert Joined([s]) == s + "\n" + Joined([]);
    } else {
      JoinedLines(s[n + 1..]);
      assert Lines(s)[1..] == Lines(s[n + 1..]);
      assert s == s[..n] + "\n" + s[n + 1..];
    }
  }

  lemma ExpandedPlain(i: Inputs)
    requires Plain(i)
    ensures KeyText(i) == Joined(Expanded(i)) && forall l :: l in Expanded(i) ==> OneLine(l)
  {
    FrontPlain(i);
    RestPlain(i);
    var rest := Rest(i);
    hide Front, Rest, Plain;
    if !i.kind.Exec? {
      var line := "source-dir:" + i.sourceDir;
      EachLineOne(line);
      JoinedLines(line);
      hide Lines, OneLine;
      assert Joined([line]) == line + "\n" + Joined([]);
      hide Joined;
      JoinedTogether(Front(i), [line] + rest);
      JoinedTogether([line], rest);
      JoinedTogether(Front(i), Lines(line) + rest);
      JoinedTogether(Lines(line), rest);
    }
  }

  /** One key means one text, line for line. */
  lemma SameKeySameLines(a: Inputs, b: Inputs)
    requires Plain(a) && Plain(b)
    ensures KeyText(a) == KeyText(b) <==> Expanded(a) == Expanded(b)
  {
    ExpandedPlain(a);
    ExpandedPlain(b);
    hide *;
    if KeyText(a) == KeyText(b) {
      JoinedOneWay(Expanded(a), Expanded(b));
    }
  }

  lemma SameParts(a: Inputs, b: Inputs)
    requires Expanded(a) == Expanded(b)
    ensures a.kind == b.kind && Front(a) == Front(b) && DirLines(a) + Rest(a) == DirLines(b) + Rest(b)
  {
    var x, y := Expanded(a), Expanded(b);
    assert x[0] == KindLabel(a.kind) + a.content && y[0] == KindLabel(b.kind) + b.content;
    KindsApart(a.kind, b.kind, a.content, b.content);
    var n := |Front(a)|;
    assert Front(a) == x[..n] && Front(b) == y[..n];
    assert DirLines(a) + Rest(a) == x[n..] && DirLines(b) + Rest(b) == y[n..];
  }

  lemma RestLine(j: Inputs, m: nat)
    requires Plain(j) && m < |Rest(j)|
    ensures var line := Rest(j)[m];
      if m < |j.embeds| then "embed:" <= line
      else line != "" && line[0] == 'm' && "mod:" <= line && ':' in line[4..]
  {
    if m >= |j.embeds| {
      var d := j.mods[m - |j.embeds|];
      var line := "mod:" + (d.path + ":" + d.hash);
      assert Rest(j)[m] == line && line[4 + |d.path|] == ':' && line[4..][|d.path|] == ':';
    }
  }

  /** Where one of two such directories has more lines its last one reads on. */
  lemma LongerRunsOn(i: Inputs, j: Inputs)
    requires Plain(i) && Plain(j) && i.kind == j.kind && DirLines(i) + Rest(i) == DirLines(j) + Rest(j)
    requires |DirLines(j)| < |DirLines(i)|
    ensures RunsOn(i)
  {
    var n, k := |DirLines(i)|, |DirLines(j)|;
    var m := n - 1 - k;
    FirstLetters(i.embeds, DepTexts(i.mods));
    FirstLetters(j.embeds, DepTexts(j.mods));
    RunsTogether(DirLines(i), Rest(i), DirLines(j), Rest(j));
    RestLine(j, m);
    assert k > 0;
    hide DirLines, DepTexts;
    assert i.embeds != [] ==> Rest(i)[0] == Rest(j)[m + 1];
  }

  /** Two ways to cut one list. */
  lemma RunsTogether(a: seq<string>, x: seq<string>, b: seq<string>, y: seq<string>)
    requires |b| < |a| && a + x == b + y
    ensures |y| == |a| - |b| + |x| && a[|a| - 1] == y[|a| - 1 - |b|]
    ensures forall c :: 0 <= c < |x| ==> x[c] == y[|a| - |b| + c]
  {
    var all := a + x;
    assert all[|a| - 1] == a[|a| - 1] && all[|a| - 1] == (b + y)[|a| - 1];
    forall c | 0 <= c < |x| ensures x[c] == y[|a| - |b| + c] {
      assert all[|a| + c] == x[c] && (b + y)[|a| + c] == y[|a| - |b| + c];
    }
  }

  /** Equal keys come from equal listed inputs, and so from the same kind. */
  lemma KeyTellsInputs(a: Inputs, b: Inputs)
    requires Plain(a) && Plain(b) && !RunsOn(a) && !RunsOn(b) && KeyText(a) == KeyText(b)
    ensures Listed(a) == Listed(b)
  {
    SameKeySameLines(a, b);
    SameParts(a, b);
    hide Front, Rest, DirLines, RunsOn, KeyText, Expanded;
    if |DirLines(a)| != |DirLines(b)| {
      if |DirLines(a)| > |DirLines(b)| {
        LongerRunsOn(a, b);
      } else {
        LongerRunsOn(b, a);
      }
    } else {
      SameFront(a, b);
      SameEnds(DirLines(a), Rest(a), DirLines(b), Rest(b));
      SameRest(a, b);
      SameDir(a, b);
    }
  }

  lemma SameEnds(a: seq<string>, x: seq<string>, b: seq<string>, y: seq<string>)
    requires |a| == |b| && a + x == b + y
    ensures a == b && x == y
  {
    assert a == (a + x)[..|a|] && b == (b + y)[..|b|] && x == (a + x)[|a|..] && y == (b + y)[|b|..];
  }

  lemma SameRest(a: Inputs, b: Inputs)
    requires Plain(a) && Plain(b) && Rest(a) == Rest(b)
    ensures a.embeds == b.embeds && a.mods == b.mods
  {
    SameTail(a.embeds, DepTexts(a.mods), b.embeds, DepTexts(b.mods));
    SameDeps(a.mods, b.mods);
  }

  lemma SameDir(a: Inputs, b: Inputs)
    requires a.kind == b.kind && DirLines(a) == DirLines(b)
    ensures Listed(a).sourceDir == Listed(b).sourceDir
  {
    if !a.kind.Exec? {
      var x, y := "source-dir:" + a.sourceDir, "source-dir:" + b.sourceDir;
      JoinedLines(x);
      JoinedLines(y);
      assert x == (x + "\n")[..|x|] && y == (y + "\n")[..|y|];
      SamePrefix("source-dir:", a.sourceDir, b.sourceDir);
    }
  }

  /** The converse: what a kind does not list is not in its key. */
  lemma KeyOfListed(i: Inputs)
    ensures KeyText(Listed(i)) == KeyText(i)
  {
  }

  // --- Where they are not --------------------------------------------------------------------

  /** A text of several lines is its front, a newline and its last line. */
  lemma LastLineOff(s: string) returns (k: nat)
    requires |Lines(s)| > 1
    ensures k < |s| && s[k] == '\n' && OneLine(s[k + 1..])
    ensures Lines(s) == Lines(s[..k]) + [s[k + 1..]]
  {
    k := LastNewline(s);
    hide *;
    var front, last := s[..k], s[k + 1..];
    LinesOfWhole(front);
    LinesOne(last);
    var before := LinesAfter(front + "\n", last);
    CutAt(s, k);
    SameFrontOf(before, Lines(front), "");
  }

  lemma CutAt(s: string, k: nat)
    requires k < |s| && s[k] == '\n'
    ensures s[..k] + "\n" + s[k + 1..] == s
  {
  }

  lemma SameFrontOf(a: seq<string>, b: seq<string>, x: string)
    requires a + [x] == b + [x]
    ensures a == b
  {
    assert |a + [x]| == |b + [x]|;
    assert a == (a + [x])[..|a|] && b == (b + [x])[..|b|];
  }

  lemma LinesOfWhole(front: string)
    ensures Lines(front + "\n") == Lines(front) + [""] && WholeLines(front + "\n")
  {
    hide Lines, OneLine, Joined;
    JoinedLines(front);
    EachLineOne(front);
    JoinedSplits(Lines(front));
  }

  lemma SingleLine(s: string)
    ensures |Lines(s)| == 1 ==> OneLine(s)
  {
    var n := RunLength(NotNewline, s);
  }

  lemma LastNewline(s: string) returns (k: nat)
    requires |Lines(s)| > 1
    ensures k < |s| && s[k] == '\n' && OneLine(s[k + 1..])
    decreases |s|
  {
    var n := RunLength(NotNewline, s);
    var rest := s[n + 1..];
    if OneLine(rest) {
      k := n;
    } else {
      SingleLine(rest);
      var m := LastNewline(rest);
      k := n + 1 + m;
      assert s[k + 1..] == rest[m + 1..];
    }
  }

  lemma DirEndsOff(i: Inputs) returns (dir: string, last: string)
    requires |DirLines(i)| > 1
    ensures OneLine(last) && DirLines(i) == DirLines(i.(sourceDir := dir)) + [last]
  {
    var tag, at := "source-dir:", i.sourceDir;
    assert OneLine(tag);
    hide OneLine, Lines;
    var k := LastLineOff(tag + at);
    AfterTag(tag, at, k);
    dir, last := at[..k - |tag|], (tag + at)[k + 1..];
  }

  lemma AfterTag(tag: string, text: string, k: nat)
    requires OneLine(tag) && k < |tag + text| && (tag + text)[k] == '\n'
    ensures |tag| <= k && (tag + text)[..k] == tag + text[..k - |tag|]
  {
  }

  lemma LabelledCons(tag: string, item: string, items: seq<string>)
    ensures Labelled(tag, [item] + items) == [tag + item] + Labelled(tag, items)
  {
  }

  lemma AsDep(line: string) returns (d: Dep)
    requires OneLine(line) && "mod:" <= line && ':' in line[4..]
    ensures line == "mod:" + (d.path + ":" + d.hash) && OneLine(d.path) && OneLine(d.hash) && ':' !in d.hash
  {
    var text := line[4..];
    var k := LastColonOf(text);
    d := Dep(text[..k], text[k + 1..]);
    assert text == d.path + ":" + d.hash;
    assert line == "mod:" + text;
  }

  lemma LastColonOf(text: string) returns (k: nat)
    requires ':' in text
    ensures k < |text| && text[k] == ':' && ':' !in text[k + 1..]
    decreases |text|
  {
    k := |text| - 1;
    if text[k] != ':' {
      var front := text[..k];
      var m := LastColonOf(front);
      assert text[m + 1..] == front[m + 1..] + [text[k]];
      k := m;
    }
  }

  /** With newlines in source directories: other inputs have the key, with fewer lines in
      theirs, exactly when the last line of this one reads on. */
  lemma SourceDirCollidesExactly(i: Inputs)
    requires Plain(i)
    ensures RunsOn(i) <==> exists j :: Plain(j) && KeyText(j) == KeyText(i) && |DirLines(j)| < |DirLines(i)|
  {
    if RunsOn(i) {
      var j := Collision(i);
    } else if j :| Plain(j) && KeyText(j) == KeyText(i) && |DirLines(j)| < |DirLines(i)| {
      SameKeySameLines(i, j);
      SameParts(i, j);
      LongerRunsOn(i, j);
    }
  }

  lemma EmbedMoved(i: Inputs, dir: string, last: string) returns (j: Inputs)
    requires Plain(i) && OneLine(last) && "embed:" <= last
    ensures Plain(j) && Front(j) == Front(i) && Rest(j) == [last] + Rest(i)
    ensures j.kind == i.kind && j.sourceDir == dir
  {
    var e := last[6..];
    j := i.(sourceDir := dir, embeds := [e] + i.embeds);
    assert last == "embed:" + e && OneLine(e);
    LabelledCons("embed:", e, i.embeds);
  }

  lemma ModMoved(i: Inputs, dir: string, last: string) returns (j: Inputs)
    requires Plain(i) && OneLine(last) && i.embeds == [] && "mod:" <= last && ':' in last[4..]
    ensures Plain(j) && Front(j) == Front(i) && Rest(j) == [last] + Rest(i)
    ensures j.kind == i.kind && j.sourceDir == dir
  {
    var d := AsDep(last);
    j := i.(sourceDir := dir, mods := [d] + i.mods);
    hide OneLine;
    assert Plain(j) && Front(j) == Front(i);
    hide Plain, Front;
    var text := d.path + ":" + d.hash;
    assert DepTexts(j.mods) == [text] + DepTexts(i.mods);
    LabelledCons("mod:", text, DepTexts(i.mods));
    assert Labelled("embed:", []) == [];
  }

  lemma Collision(i: Inputs) returns (j: Inputs)
    requires Plain(i) && RunsOn(i)
    ensures Plain(j) && KeyText(j) == KeyText(i) && |DirLines(j)| < |DirLines(i)|
  {
    hide Plain, Front, Rest, KeyText, OneLine, Lines;
    var dir, last := DirEndsOff(i);
    assert DirLines(i)[|DirLines(i)| - 1] == last;
    if "embed:" <= last {
      j := EmbedMoved(i, dir, last);
    } else {
      j := ModMoved(i, dir, last);
    }
    assert DirLines(j) == DirLines(i.(sourceDir := dir));
    hide DirLines, RunsOn, ReadsOn;
    SameKeySameLines(i, j);
    assert DirLines(j) + ([last] + Rest(i)) == DirLines(j) + [last] + Rest(i);
  }

  // --- A cache in use ----------------------------------------------------------------------------

  /** One use of the cache: a build saved, or a lookup and what it returned. */
  datatype Event = Save(inputs: Inputs, binary: string) | Lookup(inputs: Inputs, found: Option<string>)

  /** The binary under each key: the last one saved there. */
  function Store(events: seq<Event>): map<string, string> {
    if events == [] then map[]
    else
      var before, e := Store(events[..|events| - 1]), events[|events| - 1];
      if e.Save? then before[KeyText(e.inputs) := e.binary] else before
  }

  ghost predicate Answers(events: seq<Event>) {
    forall i :: 0 <= i < |events| && events[i].Lookup? ==>
      var store, key := Store(events[..i]), KeyText(events[i].inputs);
      events[i].found == Find(store, key)
  }

  predicate PlainEvents(events: seq<Event>) {
    forall e :: e in events ==> Plain(e.inputs) && !RunsOn(e.inputs)
  }

  /** The j-th event is the last save of these listed inputs before the k-th. */
  predicate LastSave(events: seq<Event>, j: nat, k: nat, i: Inputs)
    requires j < k <= |events|
  {
    && events[j].Save? && Listed(events[j].inputs) == Listed(i)
    && forall m :: j < m < k && events[m].Save? ==> Listed(events[m].inputs) != Listed(i)
  }

  lemma SameKeyExactly(a: Inputs, b: Inputs)
    requires Plain(a) && Plain(b) && !RunsOn(a) && !RunsOn(b)
    ensures KeyText(a) == KeyText(b) <==> Listed(a) == Listed(b)
  {
    if KeyText(a) == KeyText(b) {
      KeyTellsInputs(a, b);
    }
    KeyOfListed(a);
    KeyOfListed(b);
  }

  lemma StillLast(events: seq<Event>, j: nat, k: nat, i: Inputs)
    requires j < k < |events| && LastSave(events, j, k, i)
    requires events[k].Save? ==> Listed(events[k].inputs) != Listed(i)
    ensures LastSave(events, j, k + 1, i)
  {
    hide Listed;
  }

  lemma NowLast(events: seq<Event>, k: nat, i: Inputs)
    requires k < |events| && events[k].Save? && Listed(events[k].inputs) == Listed(i)
    ensures LastSave(events, k, k + 1, i)
  {
  }

  lemma StoreStep(events: seq<Event>, k: nat)
    requires k < |events|
    ensures var before, e := Store(events[..k]), events[k];
      Store(events[..k + 1]) == if e.Save? then before[KeyText(e.inputs) := e.binary] else before
  {
    hide KeyText;
    assert events[..k + 1][..k] == events[..k];
  }

  predicate SavedBefore(events: seq<Event>, k: nat, i: Inputs)
    requires k <= |events|
  {
    exists j :: 0 <= j < k && events[j].Save? && Listed(events[j].inputs) == Listed(i)
  }

  lemma PlainAt(events: seq<Event>, k: nat)
    requires PlainEvents(events) && k < |events|
    ensures Plain(events[k].inputs) && !RunsOn(events[k].inputs)
  {
    hide Plain, RunsOn;
    assert events[k] in events;
  }

  lemma NoneBefore(events: seq<Event>, k: nat, i: Inputs)
    requires k < |events| && !SavedBefore(events, k, i)
    requires events[k].Save? ==> Listed(events[k].inputs) != Listed(i)
    ensures !SavedBefore(events, k + 1, i)
  {
    hide Listed;
  }

  lemma LastSaveIsSaved(events: seq<Event>, j: nat, k: nat, i: Inputs)
    requires j < k <= |events| && LastSave(events, j, k, i)
    ensures events[j].Save?
  {
  }

  predicate AnswersWith(events: seq<Event>, k: nat, i: Inputs, stored: Option<string>, j: nat)
    requires k <= |events|
  {
    match stored
    case Some(binary) => j < k && LastSave(events, j, k, i) && events[j].binary == binary
    case None => !SavedBefore(events, k, i)
  }

  function Find(store: map<string, string>, key: string): Option<string> {
    if key in store then Some(store[key]) else None
  }

  /** What is stored under a key is what was saved last for the same listed inputs, whoever
      saved it; nothing is stored if nothing was saved. */
  lemma {:induction false} StoredIsLastSave(events: seq<Event>, k: nat, i: Inputs) returns (j: nat)
    requires PlainEvents(events) && Plain(i) && !RunsOn(i) && k <= |events|
    ensures AnswersWith(events, k, i, Find(Store(events[..k]), KeyText(i)), j)
    decreases k
  {
    j := 0;
    if k > 0 {
      hide *;
      j := StoredIsLastSave(events, k - 1, i);
      j := OneMoreEvent(events, k - 1, i, j);
    }
  }

  lemma OneMoreEvent(events: seq<Event>, k: nat, i: Inputs, last: nat) returns (j: nat)
    requires PlainEvents(events) && Plain(i) && !RunsOn(i) && k < |events|
    requires AnswersWith(events, k, i, Find(Store(events[..k]), KeyText(i)), last)
    ensures AnswersWith(events, k + 1, i, Find(Store(events[..k + 1]), KeyText(i)), j)
  {
    hide PlainEvents, Plain, RunsOn, KeyText, Listed, Store, LastSave, SavedBefore;
    var e := events[k];
    PlainAt(events, k);
    StoreStep(events, k);
    SameKeyExactly(e.inputs, i);
    j := last;
    if e.Save? && Listed(e.inputs) == Listed(i) {
      j := k;
      NowLast(events, k, i);
    } else if KeyText(i) in Store(events[..k]) {
      StillLast(events, j, k, i);
    } else {
      NoneBefore(events, k, i);
    }
  }

  /** In any run of saves and lookups, whatever was built: a hit is the binary saved last for
      the same listed inputs, and a miss means none was. */
  lemma HitsAreOwn(events: seq<Event>, k: nat) returns (j: nat)
    requires PlainEvents(events) && Answers(events) && k < |events| && events[k].Lookup?
    ensures match events[k].found
            case Some(binary) => j < k && LastSave(events, j, k, events[k].inputs) && events[j].binary == binary
            case None => !SavedBefore(events, k, events[k].inputs)
  {
    assert events[k] in events;
    j := StoredIsLastSave(events, k, events[k].inputs);
  }
}
