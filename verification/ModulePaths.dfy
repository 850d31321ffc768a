/**
 Directories, import spellings and module identities.

 A clean absolute directory is its list of components ([] is the root of the file
 system); separators are POSIX ones.
 */
module ModulePaths {

  type Dir = seq<string>

  predicate IsName(s: string) {
    s != "" && '/' !in s && s != "." && s != ".."
  }

  predicate CleanDir(d: Dir) {
    forall i :: 0 <= i < |d| ==> IsName(d[i])
  }

  /** Parts that survive joining with slashes: "." and ".." do, "" does not. */
  predicate Joinable(parts: seq<string>) {
    forall i :: 0 <= i < |parts| ==> parts[i] != "" && '/' !in parts[i]
  }

  function Join(parts: seq<string>): string {
    if parts == [] then ""
    else if |parts| == 1 then parts[0]
    else parts[0] + "/" + Join(parts[1..])
  }

  /** The text up to the first slash. */
  function Head(path: string): (h: string)
    ensures |h| <= |path| && h == path[..|h|] && '/' !in h
    ensures |h| < |path| ==> path[|h|] == '/'
  {
    if path == "" || path[0] == '/' then "" else [path[0]] + Head(path[1..])
  }

  function Split(path: string): seq<string>
    decreases |path|
  {
    var h := Head(path);
    if |h| == |path| then [h] else [h] + Split(path[|h| + 1..])
  }

  /** One component of lexical path cleaning. */
  function Enter(d: Dir, part: string): Dir {
    if part == "" || part == "." then d
    else if part == ".." then (if d == [] then [] else d[..|d| - 1])
    else d + [part]
  }

  function Walk(d: Dir, parts: seq<string>): Dir
    decreases |parts|
  {
    if parts == [] then d else Walk(Enter(d, parts[0]), parts[1..])
  }

  /** The directory an import string names when written by the owner of `base`. */
  function Resolve(base: Dir, path: string): Dir {
    Walk(if path != "" && path[0] == '/' then [] else base, Split(path))
  }

  /** Appends a relative path to a directory, a leading slash included. */
  function Under(base: Dir, path: string): Dir {
    Walk(base, Split(path))
  }

  function AbsPath(d: Dir): string {
    "/" + Join(d)
  }

  function CommonPrefix(a: Dir, b: Dir): (n: nat)
    ensures n <= |a| && n <= |b| && a[..n] == b[..n]
    ensures n < |a| && n < |b| ==> a[n] != b[n]
  {
    if a == [] || b == [] || a[0] != b[0] then 0
    else
      var n := 1 + CommonPrefix(a[1..], b[1..]);
      assert a[..n] == [a[0]] + a[1..][..n - 1];
      assert b[..n] == [b[0]] + b[1..][..n - 1];
      n
  }

  function Ups(n: nat): (r: seq<string>)
    ensures |r| == n
    ensures forall i :: 0 <= i < n ==> r[i] == ".."
  {
    seq(n, i => "..")
  }

  function RelParts(root: Dir, dir: Dir): seq<string> {
    var n := CommonPrefix(root, dir);
    Ups(|root| - n) + dir[n..]
  }

  /** The shortest lexical path from one directory to another. */
  function Rel(root: Dir, dir: Dir): string {
    if root == dir then "." else Join(RelParts(root, dir))
  }

  /** A local module's identity. */
  function LocalIdentity(root: Dir, dir: Dir): string {
    if ".." <= Rel(root, dir) then AbsPath(dir) else "./" + Rel(root, dir)
  }

  // ---------------------------------------------------------------------------

  lemma {:induction false} HeadOf(part: string, rest: string)
    requires '/' !in part
    ensures Head(part + "/" + rest) == part
    ensures Head(part) == part
  {
    if part != "" {
      assert part[0] in part;
      assert forall c :: c in part[1..] ==> c in part;
      HeadOf(part[1..], rest);
      assert (part + "/" + rest)[1..] == part[1..] + "/" + rest;
    } else {
      assert part + "/" + rest == "/" + rest;
    }
  }

  lemma {:induction false} SplitJoin(parts: seq<string>)
    requires Joinable(parts) && parts != []
    ensures Split(Join(parts)) == parts
  {
    if |parts| == 1 {
      HeadOf(parts[0], "");
    } else {
      var rest := Join(parts[1..]);
      HeadOf(parts[0], rest);
      assert Join(parts)[|parts[0]| + 1..] == rest;
      SplitJoin(parts[1..]);
    }
  }

  lemma {:induction false} WalkConcat(d: Dir, a: seq<string>, b: seq<string>)
    ensures Walk(d, a + b) == Walk(Walk(d, a), b)
    decreases |a|
  {
    if a == [] {
      assert a + b == b;
    } else {
      assert (a + b)[1..] == a[1..] + b;
      WalkConcat(Enter(d, a[0]), a[1..], b);
    }
  }

  lemma {:induction false} WalkNames(d: Dir, names: Dir)
    requires CleanDir(names)
    ensures Walk(d, names) == d + names
    decreases |names|
  {
    if names == [] {
      assert d + names == d;
    } else {
      assert CleanDir(names[1..]);
      assert IsName(names[0]);
      WalkNames(d + [names[0]], names[1..]);
      assert d + [names[0]] + names[1..] == d + names;
    }
  }

  lemma {:induction false} WalkUps(d: Dir, n: nat)
    requires n <= |d|
    ensures Walk(d, Ups(n)) == d[..|d| - n]
  {
    if n > 0 {
      assert Ups(n)[1..] == Ups(n - 1);
      WalkUps(d[..|d| - 1], n - 1);
    }
  }

  /** Whatever the spelling, what an import resolves to is a clean directory. */
  lemma ResolveIsClean(base: Dir, path: string)
    requires CleanDir(base)
    ensures CleanDir(Resolve(base, path)) && CleanDir(Under(base, path))
  {
    SplitSlashFree(path);
    WalkClean(if path != "" && path[0] == '/' then [] else base, Split(path));
    WalkClean(base, Split(path));
  }

  lemma {:induction false} SplitSlashFree(path: string)
    ensures forall i :: 0 <= i < |Split(path)| ==> '/' !in Split(path)[i]
    decreases |path|
  {
    if |Head(path)| < |path| {
      SplitSlashFree(path[|Head(path)| + 1..]);
    }
  }

  lemma {:induction false} WalkClean(d: Dir, parts: seq<string>)
    requires CleanDir(d) && forall i :: 0 <= i < |parts| ==> '/' !in parts[i]
    ensures CleanDir(Walk(d, parts))
    decreases |parts|
  {
    if parts != [] {
      WalkClean(Enter(d, parts[0]), parts[1..]);
    }
  }

  /** A directory is reached back from its absolute spelling... */
  lemma ResolveAbsPath(base: Dir, dir: Dir)
    requires CleanDir(dir)
    ensures Resolve(base, AbsPath(dir)) == dir
  {
    var path := AbsPath(dir);
    assert path == "" + "/" + Join(dir);
    HeadOf("", Join(dir));
    assert path[1..] == Join(dir);
    assert Split(path) == [""] + Split(Join(dir));
    assert Walk([], [""] + Split(Join(dir))) == Walk([], Split(Join(dir)));
    if dir == [] {
      assert Split("") == [""];
      assert Walk([], [""]) == Walk([], [""][1..]);
    } else {
      SplitJoin(dir);
      WalkNames([], dir);
      assert [] + dir == dir;
    }
  }

  lemma ResolveJoin(base: Dir, parts: seq<string>)
    requires Joinable(parts) && parts != []
    ensures Resolve(base, Join(parts)) == Walk(base, parts)
  {
    SplitJoin(parts);
    assert Join(parts) != "" && Join(parts)[0] == parts[0][0];
    assert parts[0][0] in parts[0];
  }

  /** A subdirectory goes below its base, component by component; an empty one is the base. */
  lemma UnderBelow(base: Dir, sub: Dir)
    requires CleanDir(base) && CleanDir(sub)
    ensures Under(base, Join(sub)) == base + sub
  {
    if sub == [] {
      assert Split("") == [""];
      assert Walk(base, [""]) == Walk(Enter(base, ""), []);
      assert base + sub == base;
    } else {
      SplitJoin(sub);
      WalkNames(base, sub);
    }
  }

  lemma RelPartsJoinable(base: Dir, dir: Dir)
    requires CleanDir(dir) && base != dir
    ensures Joinable(RelParts(base, dir)) && RelParts(base, dir) != []
  {
  }

  lemma WalkRelParts(base: Dir, dir: Dir)
    requires CleanDir(dir)
    ensures Walk(base, RelParts(base, dir)) == dir
  {
    var n := CommonPrefix(base, dir);
    WalkConcat(base, Ups(|base| - n), dir[n..]);
    WalkUps(base, |base| - n);
    WalkNames(base[..n], dir[n..]);
    assert dir == dir[..n] + dir[n..];
  }

  /** ... and from its spelling relative to any other directory. */
  lemma ResolveRel(base: Dir, dir: Dir)
    requires CleanDir(dir)
    ensures Resolve(base, Rel(base, dir)) == dir
  {
    if base == dir {
      HeadOf(".", "");
      assert Split(".") == ["."];
      assert Walk(base, ["."]) == Walk(base, ["."][1..]);
    } else {
      RelPartsJoinable(base, dir);
      ResolveJoin(base, RelParts(base, dir));
      WalkRelParts(base, dir);
    }
  }

  /** The directories with a project-relative name are those below the root, except under a
      first component that itself starts with two dots. */
  lemma InsideExactly(root: Dir, dir: Dir)
    requires CleanDir(dir)
    ensures !(".." <= Rel(root, dir))
       <==> root <= dir && (|root| < |dir| ==> !(".." <= dir[|root|]))
  {
    if root != dir {
      var n := CommonPrefix(root, dir);
      var parts := RelParts(root, dir);
      if root <= dir {
        assert forall i :: 0 <= i < |root| ==> root[i] == dir[i];
        assert parts == dir[n..];
        FirstOfJoin(parts);
      } else {
        assert root[..|root|] == root;
        FirstOfJoin(parts);
      }
    } else {
      assert !(".." <= ".");
    }
  }

  lemma FirstOfJoin(parts: seq<string>)
    requires Joinable(parts) && parts != []
    ensures ".." <= Join(parts) <==> ".." <= parts[0]
  {
    assert parts[0] <= Join(parts);
    if |parts[0]| == 1 && |parts| > 1 {
      assert Join(parts)[1] == '/';
    }
  }

  /** One directory, one identity; one identity, one directory. */
  lemma LocalIdentityInjective(root: Dir, a: Dir, b: Dir)
    requires CleanDir(a) && CleanDir(b)
    requires LocalIdentity(root, a) == LocalIdentity(root, b)
    ensures a == b
  {
    assert AbsPath(a)[0] == '/' && AbsPath(b)[0] == '/';
    if ".." <= Rel(root, a) {
      ResolveAbsPath(root, a);
      ResolveAbsPath(root, b);
    } else {
      assert ("./" + Rel(root, a))[2..] == Rel(root, a);
      assert ("./" + Rel(root, b))[2..] == Rel(root, b);
      ResolveRel(root, a);
      ResolveRel(root, b);
    }
  }

  /** A local identity is written as a path: below the root from a dot and a slash, elsewhere
      from a slash. */
  lemma LocalIdentityIsLocal(root: Dir, dir: Dir)
    ensures "./" <= LocalIdentity(root, dir) || "/" <= LocalIdentity(root, dir)
  {
  }
}
