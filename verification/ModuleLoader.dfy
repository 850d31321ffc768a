/**
 The recursive module loader: a depth-first walk with a visiting set, a visit stack, memo
 tables, identity overriding and transitive pins.
 */
module ModuleLoader {
  import opened Wrappers
  import opened ModulePaths
  import opened CommitPins
  import opened ModuleGraph
  import opened ModuleWalk

  /** A loaded module, one per directory. */
  datatype ModuleInfo = ModuleInfo(globalIdentity: string, path: string)

  datatype LoadError =
    | Circular(cycle: seq<string>)
    | BadModule(dir: Dir)
    | DuplicateIdentity(identity: string)
    | NoPin(id: RemoteId)
    | FetchFailed(id: RemoteId)
    | PinConflict(entry: Entry)
    | UnknownCatalogModule(name: string)

  // ---------------------------------------------------------------------------
  // Cycle reports.
  // ---------------------------------------------------------------------------

  function IndexOf(stack: seq<string>, target: string): Option<nat> {
    if stack == [] then None
    else if stack[0] == target then Some(0)
    else match IndexOf(stack[1..], target) case None => None case Some(i) => Some(i + 1)
  }

  lemma {:induction false} IndexOfIsFirst(stack: seq<string>, target: string)
    ensures match IndexOf(stack, target)
            case None => target !in stack
            case Some(i) => i < |stack| && stack[i] == target && target !in stack[..i]
  {
    if stack != [] && stack[0] != target {
      IndexOfIsFirst(stack[1..], target);
      assert stack == [stack[0]] + stack[1..];
      if IndexOf(stack[1..], target).Some? {
        var i := IndexOf(stack[1..], target).value;
        assert stack[..i + 1] == [stack[0]] + stack[1..][..i];
      }
    }
  }

  function CyclePath(stack: seq<string>, target: string): seq<string> {
    match IndexOf(stack, target)
    case None => stack + [target]
    case Some(i) => IndexOfIsFirst(stack, target); stack[i..] + [target]
  }

  method BuildCyclePath(stack: seq<string>, target: string) returns (r: seq<string>)
    ensures r == CyclePath(stack, target)
  {
    IndexOfIsFirst(stack, target);
    var start := -1;
    for i := 0 to |stack|
      invariant start == -1 && target !in stack[..i]
    {
      if stack[i] == target {
        start := i;
        break;
      }
    }
    if start < 0 {
      assert stack[..|stack|] == stack;
      return stack + [target];
    }
    return stack[start..] + [target];
  }

  /** The report is the cycle, which starts where the directory reached again was entered
      (position k of the stack), exactly when the spelling it was reached by now first
      occurs there, or occurs nowhere and the cycle is the whole stack. */
  lemma CycleReportRightExactly(stack: seq<string>, target: string, k: nat)
    requires k < |stack|
    ensures CyclePath(stack, target) == stack[k..] + [target]
       <==> (if target in stack then target == stack[k] && target !in stack[..k] else k == 0)
  {
    IndexOfIsFirst(stack, target);
    var found := IndexOf(stack, target);
    var start := if found.Some? then found.value else 0;
    assert CyclePath(stack, target) == stack[start..] + [target];
    assert |stack[start..] + [target]| == |stack[k..] + [target]| <==> start == k;
    if target == stack[k] && target !in stack[..k] {
      IndexOfUnique(stack, target, k);
    }
  }

  lemma {:induction false} IndexOfUnique(stack: seq<string>, target: string, k: nat)
    requires k < |stack| && stack[k] == target && target !in stack[..k]
    ensures IndexOf(stack, target) == Some(k)
  {
    if k > 0 {
      assert stack[0] in stack[..k];
      assert stack[..k] == [stack[0]] + stack[1..][..k - 1];
      IndexOfUnique(stack[1..], target, k - 1);
    }
  }

  /** Three sibling modules: x uses "../a", a uses "../b", b uses "./../a". The last import
      closes the cycle a -> b -> a under a spelling that is not on the stack, so the report
      starts at x, which is not on the cycle. */
  lemma CycleReportMayNameABystander(p: Dir, x: string, a: string, b: string)
    requires IsName(x) && IsName(a) && IsName(b)
    ensures Resolve(p, "./" + x) == p + [x]
    ensures Resolve(p + [x], "../" + a) == p + [a]
    ensures Resolve(p + [a], "../" + b) == p + [b]
    ensures Resolve(p + [b], "./../" + a) == p + [a]
    ensures var stack := ["./" + x, "../" + a, "../" + b];
            CyclePath(stack, "./../" + a) == stack + ["./../" + a] != stack[1..] + ["./../" + a]
  {
    ResolveBelow(p, x);
    ResolveSibling(p, x, a);
    ResolveSibling(p, a, b);
    ResolveDottedSibling(p, b, a);
    var stack, target := ["./" + x, "../" + a, "../" + b], "./../" + a;
    assert target[4] == '/' && ("./" + x)[2..] == x;
    assert |x| > 2 ==> ("./" + x)[4] == x[2] && x[2] in x;
    assert target !in stack;
    IndexOfIsFirst(stack, target);
  }

  lemma ResolveBelow(d: Dir, n: string)
    requires IsName(n)
    ensures Resolve(d, "./" + n) == d + [n]
  {
    ResolveTwo(d, ".", n);
    assert "." + "/" + n == "./" + n;
  }

  lemma ResolveSibling(d: Dir, x: string, n: string)
    requires IsName(n)
    ensures Resolve(d + [x], "../" + n) == d + [n]
  {
    ResolveTwo(d + [x], "..", n);
    assert ".." + "/" + n == "../" + n;
    assert Enter(d + [x], "..") == d;
  }

  lemma ResolveDottedSibling(d: Dir, x: string, n: string)
    requires IsName(n)
    ensures Resolve(d + [x], "./../" + n) == d + [n]
  {
    var parts := [".", "..", n];
    ResolveJoin(d + [x], parts);
    assert parts[1..] == ["..", n] && parts[1..][1..] == [n];
    assert Join(parts[1..]) == ".." + "/" + n;
    assert Join(parts) == "." + "/" + (".." + "/" + n) == "./../" + n;
    WalkTwo(d + [x], "..", n);
    assert Enter(d + [x], "..") == d;
  }

  lemma WalkTwo(d: Dir, a: string, b: string)
    ensures Walk(d, [a, b]) == Enter(Enter(d, a), b)
  {
    assert [a, b][1..] == [b];
    assert Walk(Enter(d, a), [b]) == Walk(Enter(Enter(d, a), b), []);
  }

  lemma ResolveTwo(d: Dir, a: string, b: string)
    requires Joinable([a, b])
    ensures Resolve(d, a + "/" + b) == Enter(Enter(d, a), b)
  {
    ResolveJoin(d, [a, b]);
    assert [a, b][1..] == [b];
    assert Join([a, b]) == a + "/" + b;
    WalkTwo(d, a, b);
  }

  // ---------------------------------------------------------------------------
  // The loader's state, one predicate per table.
  // ---------------------------------------------------------------------------

  function Identities(root: Dir, order: seq<Dir>): seq<string> {
    seq(|order|, i requires 0 <= i < |order| => LocalIdentity(root, order[i]))
  }

  /** `order` lists the loaded directories; `loaded`, `depOrder` and `allModInfos` are all
      keyed by it. */
  ghost predicate Registered(w: World, order: seq<Dir>, loaded: map<Dir, ModuleInfo>, depOrder: seq<string>,
                             allModInfos: map<string, Dir>) {
    && NoDuplicates(order)
    && depOrder == Identities(w.root, order)
    && (forall d :: d in order <==> d in loaded)
    && (forall d :: d in loaded ==>
          && CleanDir(d) && loaded[d].path == LocalIdentity(w.root, d)
          && LocalIdentity(w.root, d) in allModInfos && allModInfos[LocalIdentity(w.root, d)] == d)
    && (forall id :: id in allModInfos ==> allModInfos[id] in loaded && id == LocalIdentity(w.root, allModInfos[id]))
  }

  /** `visitDirs` lists the directories being loaded, outermost first. */
  ghost predicate OnStack(visitDirs: seq<Dir>, visiting: map<Dir, string>, visitStack: seq<string>, order: seq<Dir>) {
    && |visitStack| == |visitDirs| && NoDuplicates(visitDirs)
    && (forall d :: d in visitDirs <==> d in visiting)
    && (forall i :: 0 <= i < |visitDirs| ==> visiting[visitDirs[i]] == visitStack[i])
    && (forall d :: d in visitDirs ==> d !in order)
  }

  ghost predicate IdentitiesRight(w: World, ids: map<string, Dir>) {
    WellNamed(w) ==>
      forall id :: id in ids ==> CleanDir(ids[id]) && (id == LocalIdentity(w.root, ids[id]) || Foreign(id))
  }

  ghost predicate CatalogRight(w: World, order: seq<Dir>, resolved: map<string, Dir>) {
    forall n :: n in resolved ==> CatalogTarget(w, n) == Some(resolved[n]) && resolved[n] in order
  }

  lemma RegisterOne(w: World, order: seq<Dir>, loaded: map<Dir, ModuleInfo>, depOrder: seq<string>,
                    allModInfos: map<string, Dir>, d: Dir, mi: ModuleInfo)
    requires Registered(w, order, loaded, depOrder, allModInfos)
    requires CleanDir(d) && d !in order && mi.path == LocalIdentity(w.root, d)
    ensures Registered(w, order + [d], loaded[d := mi], depOrder + [mi.path], allModInfos[mi.path := d])
  {
    hide LocalIdentity, CleanDir;
    forall x | x in loaded
      ensures LocalIdentity(w.root, x) != mi.path
    {
      if LocalIdentity(w.root, x) == mi.path {
        LocalIdentityInjective(w.root, x, d);
      }
    }
    assert Identities(w.root, order + [d]) == Identities(w.root, order) + [mi.path];
  }

  lemma ListedIsLoaded(w: World, order: seq<Dir>, loaded: map<Dir, ModuleInfo>, depOrder: seq<string>,
                       allModInfos: map<string, Dir>, d: Dir)
    requires Registered(w, order, loaded, depOrder, allModInfos)
    ensures d in order <==> d in loaded
  {
  }

  lemma Renamed(w: World, order: seq<Dir>, loaded: map<Dir, ModuleInfo>, depOrder: seq<string>,
                allModInfos: map<string, Dir>, d: Dir, name: string)
    requires Registered(w, order, loaded, depOrder, allModInfos) && d in loaded
    ensures Registered(w, order, loaded[d := ModuleInfo(name, loaded[d].path)], depOrder, allModInfos)
  {
    hide LocalIdentity, CleanDir, Identities, NoDuplicates;
  }

  lemma Pushed(dirs: seq<Dir>, visiting: map<Dir, string>, stack: seq<string>, order: seq<Dir>, d: Dir, path: string)
    requires OnStack(dirs, visiting, stack, order) && d !in visiting && d !in order
    ensures OnStack(dirs + [d], visiting[d := path], stack + [path], order)
  {
  }

  lemma PushUndone(dirs: seq<Dir>, visiting: map<Dir, string>, stack: seq<string>, d: Dir, path: string)
    requires d !in visiting
    ensures visiting[d := path] - {d} == visiting
    ensures (dirs + [d])[..|dirs + [d]| - 1] == dirs
    ensures (stack + [path])[..|stack + [path]| - 1] == stack
    ensures visiting[d := path].Keys == visiting.Keys + {d}
  {
  }

  lemma TopOfStackNotListed(dirs: seq<Dir>, visiting: map<Dir, string>, stack: seq<string>, order: seq<Dir>, d: Dir)
    requires OnStack(dirs, visiting, stack, order) && d in visiting
    ensures d !in order
  {
  }

  lemma Popped(dirs: seq<Dir>, visiting: map<Dir, string>, stack: seq<string>, order: seq<Dir>, d: Dir, path: string,
               order': seq<Dir>)
    requires OnStack(dirs + [d], visiting[d := path], stack + [path], order) && d !in visiting
    requires order' == order || order' == order + [d]
    ensures OnStack(dirs, visiting, stack, order')
  {
    var deeper, marks := dirs + [d], visiting[d := path];
    assert deeper[|dirs|] == d;
    forall i | 0 <= i < |dirs|
      ensures dirs[i] != d && marks[dirs[i]] == stack[i]
    {
      assert deeper[i] == dirs[i] && deeper[i] != deeper[|dirs|];
    }
    assert forall x :: x in deeper <==> x in dirs || x == d;
    forall i, j | 0 <= i < j < |dirs|
      ensures dirs[i] != dirs[j]
    {
      assert deeper[i] != deeper[j];
    }
  }

  ghost predicate UsesListed(w: World, pins: Pins, base: Dir, uses: seq<Use>, order: seq<Dir>) {
    forall u :: u in uses ==> Target(w, pins, base, u).Some? && Target(w, pins, base, u).value in order
  }

  lemma AppendListed(w: World, pins: Pins, order: seq<Dir>, d: Dir)
    requires PostOrder(w, pins, order) && NoDuplicates(order) && d !in order
    requires !Broken(w, d) && UsesListed(w, pins, d, w.modules[d].uses, order)
    ensures PostOrder(w, pins, order + [d])
  {
    PostOrderAppend(w, pins, order, d);
  }

  ghost predicate UseFails(w: World, pins: Pins, busy: set<Dir>, base: Dir, u: Use) {
    var t := Target(w, pins, base, u);
    t.None? || Obstructed(w, pins, busy, t.value)
  }

  lemma NothingListed(w: World, pins: Pins, base: Dir, order: seq<Dir>)
    ensures UsesListed(w, pins, base, [], order)
  {
  }

  lemma OneMoreListed(w: World, pins: Pins, more: Pins, base: Dir, uses: seq<Use>, i: nat, order: seq<Dir>, longer: seq<Dir>)
    requires i < |uses| && UsesListed(w, pins, base, uses[..i], order)
    requires Extends(pins, more) && order <= longer
    requires Target(w, more, base, uses[i]).Some? && Target(w, more, base, uses[i]).value in longer
    ensures UsesListed(w, more, base, uses[..i + 1], longer)
  {
    forall u | u in uses[..i + 1]
      ensures Target(w, more, base, u).Some? && Target(w, more, base, u).value in longer
    {
      if u in uses[..i] {
        TargetMonotone(w, pins, more, base, u);
      } else {
        assert u == uses[i];
      }
    }
  }

  lemma ObstructedHere(w: World, pins: Pins, busy: set<Dir>, d: Dir)
    requires d in busy || Broken(w, d) || Unresolved(w, pins, d) || PinClash(w, pins, d)
    ensures Obstructed(w, pins, busy, d)
  {
    if PinClash(w, pins, d) {
      ClashingHere(w, pins, d);
    } else {
      BlockedHere(w, pins, busy, d);
    }
  }

  lemma BrokenHere(w: World, pins: Pins, busy: set<Dir>, d: Dir)
    requires d !in w.modules || !w.modules[d].opens || !w.modules[d].checks
    ensures Obstructed(w, pins, busy, d)
  {
    ObstructedHere(w, pins, busy, d);
  }

  lemma ClashHere(w: World, pins: Pins, busy: set<Dir>, d: Dir)
    requires PinClash(w, pins, d)
    ensures Obstructed(w, pins, busy, d)
  {
    ObstructedHere(w, pins, busy, d);
  }

  lemma RootIsClean(w: World)
    requires CleanWorld(w)
    ensures CleanDir(w.root)
  {
  }

  lemma SoundHere(w: World, d: Dir)
    requires d in w.modules && w.modules[d].opens && w.modules[d].checks
    ensures !Broken(w, d)
  {
  }

  /** Two directories never share a local identity, so a duplicate is a given name that
      looks like one. */
  lemma DuplicateMeansIllNamed(w: World, ids: map<string, Dir>, d: Dir)
    requires IdentitiesRight(w, ids) && CleanDir(d)
    requires LocalIdentity(w.root, d) in ids && ids[LocalIdentity(w.root, d)] != d
    ensures !WellNamed(w)
  {
    LocalIdentityIsLocal(w.root, d);
    if WellNamed(w) {
      LocalIdentityInjective(w.root, d, ids[LocalIdentity(w.root, d)]);
    }
  }

  ghost predicate KnownName(w: World, name: string) {
    exists u :: Known(w, u) && GivenName(w, u) == Some(name)
  }

  lemma RemoteNameIs(id: RemoteId)
    ensures RemoteName(id) == id.url + (if id.subdir == "" then "" else "//" + id.subdir)
  {
    assert id.url + "" == id.url;
  }

  /** Two modules of one repository never go by one name. */
  lemma SubdirsApart(url: string, a: string, b: string)
    requires RemoteName(RemoteId(url, a)) == RemoteName(RemoteId(url, b))
    ensures a == b
  {
    RemoteNameIs(RemoteId(url, a));
    RemoteNameIs(RemoteId(url, b));
    hide RemoteName;
    var x, y := if a == "" then "" else "//" + a, if b == "" then "" else "//" + b;
    assert x == (url + x)[|url|..] && y == (url + y)[|url|..];
    assert a != "" && b != "" ==> a == x[2..] && b == y[2..];
  }

  lemma KnownNameForeign(w: World, name: string)
    requires KnownName(w, name)
    ensures WellNamed(w) ==> Foreign(name)
  {
  }

  /** The one failure that is about names, and only where they are ill chosen. */
  ghost predicate Misnamed(w: World, e: LoadError) {
    e.DuplicateIdentity? && !WellNamed(w)
  }

  /** The loader did what the walk does: it failed where the walk fails, and came to the same
      pins, order and resolved remotes where it does not. */
  ghost predicate Agrees(w: World, walk: Option<Progress>, failed: Option<LoadError>, now: Progress) {
    if failed.None? then walk == Some(now) else walk.None? || Misnamed(w, failed.value)
  }

  function ErrorOf<T>(r: Result<T, LoadError>): Option<LoadError> {
    if r.Err? then Some(r.error) else None
  }

  /** The walk of a directory between entering and leaving it. */
  function WalkBody(w: World, s: Progress, busy: set<Dir>, d: Dir): Option<Progress>
    requires d in w.modules
  {
    if !w.modules[d].opens then None
    else
      match WalkUses(w, s, busy, d, w.modules[d].uses)
      case None => None
      case Some(t) => if w.modules[d].checks then Some(t) else None
  }

  lemma DirIsBody(w: World, s: Progress, busy: set<Dir>, d: Dir)
    ensures d in s.order ==> WalkDir(w, s, busy, d) == Some(s)
    ensures d !in s.order && (d in busy || d !in w.modules) ==> WalkDir(w, s, busy, d) == None
    ensures d !in s.order && d !in busy && d in w.modules ==>
      WalkDir(w, s, busy, d)
      == match WalkBody(w, s, busy + {d}, d) case None => None case Some(t) => Some(t.(order := t.order + [d]))
  {
    hide WalkUses;
  }

  /** The walk of a remote from its directory on. */
  function WalkAs(w: World, s: Progress, busy: set<Dir>, id: RemoteId, d: Dir): Option<Progress> {
    match WalkDir(w, s, busy, d)
    case None => None
    case Some(t) => Absorbed(w, t.(resolved := t.resolved[id := d]), d)
  }

  lemma RemoteIsAs(w: World, s: Progress, busy: set<Dir>, id: RemoteId)
    ensures WalkRemote(w, s, busy, id)
         == if Remembered(s, id) then Some(s)
            else match RemoteTarget(w, s.pins, id)
                 case None => None
                 case Some(d) => WalkAs(w, Noted(w, s, id, d), busy, id, d)
  {
    hide WalkDir, Absorbed, RemoteTarget, Noted;
  }

  lemma UsesOneMore(w: World, s: Progress, busy: set<Dir>, base: Dir, uses: seq<Use>, i: nat)
    requires i < |uses|
    ensures WalkUses(w, s, busy, base, uses[i..])
         == match WalkUse(w, s, busy, base, uses[i])
            case None => None
            case Some(t) => WalkUses(w, t, busy, base, uses[i + 1..])
  {
    assert uses[i..][0] == uses[i] && uses[i..][1..] == uses[i + 1..];
    hide WalkUse;
  }

  lemma UseFailsBack(w: World, pins: Pins, busy: set<Dir>, d: Dir)
    requires d in w.modules && exists u :: u in w.modules[d].uses && UseFails(w, pins, busy + {d}, d, u)
    ensures Obstructed(w, pins, busy, d)
  {
    var u :| u in w.modules[d].uses && UseFails(w, pins, busy + {d}, d, u);
    if Target(w, pins, d, u).None? {
      ObstructedHere(w, pins, busy, d);
    } else {
      ObstructedBack(w, pins, busy, d, Target(w, pins, d, u).value);
    }
  }

  lemma RemoteAdded(w: World, pins: Pins, resolved: map<RemoteId, Dir>, id: RemoteId, dir: Dir)
    requires RemotesRight(w, pins, resolved) && RemoteTarget(w, pins, id) == Some(dir)
    ensures RemotesRight(w, pins, resolved[id := dir])
  {
  }

  lemma RemoteKnown(w: World, pins: Pins, resolved: map<RemoteId, Dir>, id: RemoteId)
    requires RemotesRight(w, pins, resolved) && id in resolved
    ensures RemoteTarget(w, pins, id) == Some(resolved[id])
  {
  }

  lemma PathsReflexive(a: map<Dir, ModuleInfo>)
    ensures PathsKept(a, a)
  {
  }

  lemma PathsTransitive(a: map<Dir, ModuleInfo>, b: map<Dir, ModuleInfo>, c: map<Dir, ModuleInfo>)
    requires PathsKept(a, b) && PathsKept(b, c)
    ensures PathsKept(a, c)
  {
  }

  lemma ListedOnce(w: World, order: seq<Dir>, loaded: map<Dir, ModuleInfo>, depOrder: seq<string>,
                   allModInfos: map<string, Dir>)
    requires Registered(w, order, loaded, depOrder, allModInfos)
    ensures NoDuplicates(order)
  {
  }

  lemma ModuleUsesKnown(w: World, d: Dir)
    requires d in w.modules
    ensures forall u :: u in w.modules[d].uses ==> Known(w, u)
  {
  }

  lemma NoUses(w: World, s: Progress, busy: set<Dir>, base: Dir)
    ensures WalkUses(w, s, busy, base, []) == Some(s)
  {
  }

  lemma ExtendsReflexive(a: Pins)
    ensures Extends(a, a)
  {
  }

  lemma ExtendsTransitive(a: Pins, b: Pins, c: Pins)
    requires Extends(a, b) && Extends(b, c)
    ensures Extends(a, c)
  {
  }

  lemma CatalogAdded(w: World, order: seq<Dir>, resolved: map<string, Dir>, name: string, dir: Dir)
    requires CatalogRight(w, order, resolved) && CatalogTarget(w, name) == Some(dir) && dir in order
    ensures CatalogRight(w, order, resolved[name := dir])
  {
  }

  lemma CatalogKnown(w: World, order: seq<Dir>, resolved: map<string, Dir>, name: string)
    requires CatalogRight(w, order, resolved) && name in resolved
    ensures CatalogTarget(w, name) == Some(resolved[name]) && resolved[name] in order
  {
  }

  lemma CatalogGrew(w: World, order: seq<Dir>, longer: seq<Dir>, resolved: map<string, Dir>)
    requires CatalogRight(w, order, resolved) && order <= longer
    ensures CatalogRight(w, longer, resolved)
  {
  }

  lemma IdentityMoved(w: World, ids: map<string, Dir>, gone: string, id: string, d: Dir)
    requires IdentitiesRight(w, ids) && CleanDir(d)
    requires WellNamed(w) ==> id == LocalIdentity(w.root, d) || Foreign(id)
    ensures IdentitiesRight(w, (ids - {gone})[id := d])
    ensures IdentitiesRight(w, ids[id := d])
  {
  }

  lemma ListedDirs(w: World, order: seq<Dir>, loaded: map<Dir, ModuleInfo>, depOrder: seq<string>,
                   allModInfos: map<string, Dir>, d: Dir)
    requires Registered(w, order, loaded, depOrder, allModInfos) && d in order
    ensures CleanDir(d)
  {
  }

  lemma ListedSound(w: World, pins: Pins, order: seq<Dir>, d: Dir)
    requires PostOrder(w, pins, order) && d in order
    ensures d in w.modules
  {
  }

  ghost predicate PathsKept(before: map<Dir, ModuleInfo>, after: map<Dir, ModuleInfo>) {
    forall d :: d in before ==> d in after && after[d].path == before[d].path
  }

  class Loader {
    const w: World

    var loaded: map<Dir, ModuleInfo>
    var globalIdentities: map<string, Dir>
    var visiting: map<Dir, string>
    var visitStack: seq<string>
    var allModInfos: map<string, Dir>
    var depOrder: seq<string>
    var remoteResolved: map<RemoteId, Dir>
    var catalogLoaded: map<string, Dir>
    var commitPins: Pins
    ghost var order: seq<Dir>
    ghost var visitDirs: seq<Dir>

    ghost predicate Valid()
      reads this
    {
      && CleanWorld(w)
      && Registered(w, order, loaded, depOrder, allModInfos)
      && OnStack(visitDirs, visiting, visitStack, order)
      && PostOrder(w, commitPins, order)
      && IdentitiesRight(w, globalIdentities)
      && RemotesRight(w, commitPins, remoteResolved)
      && CatalogRight(w, order, catalogLoaded)
    }

    /** The part of the state that decides what loads. */
    ghost function Now(): Progress
      reads this
    {
      Progress(commitPins, order, remoteResolved)
    }

    /** What every call leaves as it was: the visiting set and stack; pins and loaded modules
        only grow, and a loaded module keeps the path it was registered under. */
    twostate predicate Kept()
      reads this
    {
      && visiting == old(visiting) && visitStack == old(visitStack) && visitDirs == old(visitDirs)
      && old(order) <= order && old(depOrder) <= depOrder
      && Extends(old(commitPins), commitPins)
      && PathsKept(old(loaded), loaded)
    }

    ghost function Budget(): nat
      reads this
    {
      |w.modules.Keys - visiting.Keys|
    }

    constructor (w: World, pins: Pins)
      requires CleanWorld(w)
      ensures Valid() && this.w == w && Now() == Start(pins)
      ensures visiting == map[] && visitDirs == []
    {
      this.w := w;
      loaded, globalIdentities, visiting, visitStack := map[], map[], map[], [];
      allModInfos, depOrder, remoteResolved, catalogLoaded := map[], [], map[], map[];
      commitPins := pins;
      order, visitDirs := [], [];
    }

    method Load(modPath: string, baseDir: Dir) returns (r: Result<Dir, LoadError>)
      requires Valid() && CleanDir(baseDir)
      modifies this
      ensures Valid() && Kept()
      ensures var d := Resolve(baseDir, modPath);
        && (r.Ok? ==> r.value == d && d in order)
        && (r.Err? ==> Obstructed(w, commitPins, visiting.Keys, d) || Misnamed(w, r.error))
        && (d in old(order) ==> r.Ok? && unchanged(this))
        && (d !in old(order) && d in old(visiting) ==> r == Err(Circular(CyclePath(visitStack, modPath))) && unchanged(this))
        && Agrees(w, WalkDir(w, old(Now()), visiting.Keys, d), ErrorOf(r), Now())
      decreases Budget(), 0, 1
    {
      hide Registered, OnStack, PostOrder, IdentitiesRight, RemotesRight, CatalogRight, Obstructed;
      hide Extends, Target, UsesListed, Resolve, LocalIdentity, CyclePath, WalkDir, WalkBody, PathsKept;
      ExtendsReflexive(commitPins);
      PathsReflexive(loaded);
      var absDir := Resolve(baseDir, modPath);
      ResolveIsClean(baseDir, modPath);
      ListedIsLoaded(w, order, loaded, depOrder, allModInfos, absDir);
      DirIsBody(w, Now(), visiting.Keys, absDir);

      if absDir in loaded {
        return Ok(absDir);
      }
      if absDir in visiting {
        var cycle := BuildCyclePath(visitStack, modPath);
        ObstructedHere(w, commitPins, visiting.Keys, absDir);
        return Err(Circular(cycle));
      }

      r := LoadFresh(absDir, modPath);
    }

    /** Loads a directory that is neither loaded nor being loaded. */
    method LoadFresh(absDir: Dir, modPath: string) returns (r: Result<Dir, LoadError>)
      requires Valid() && CleanDir(absDir) && absDir !in order && absDir !in visiting
      modifies this
      ensures Valid() && Kept()
      ensures r.Ok? ==> r.value == absDir && absDir in order
      ensures r.Err? ==> Obstructed(w, commitPins, visiting.Keys, absDir) || Misnamed(w, r.error)
      ensures Agrees(w, WalkDir(w, old(Now()), visiting.Keys, absDir), ErrorOf(r), Now())
      decreases Budget(), 0, 0
    {
      hide Registered, OnStack, PostOrder, IdentitiesRight, RemotesRight, CatalogRight, Obstructed;
      hide Extends, Target, UsesListed, LocalIdentity, CleanWorld, Broken, WalkDir, WalkBody, Misnamed, PathsKept;
      ExtendsReflexive(commitPins);
      PathsReflexive(loaded);
      ghost var busy := visiting.Keys;
      DirIsBody(w, Now(), busy, absDir);
      ghost var inside: map<Dir, ModuleInfo>;
      Enter(absDir, modPath);
      var failed: Option<LoadError>;
      if absDir !in w.modules {
        failed := Some(BadModule(absDir));
        BrokenHere(w, commitPins, busy, absDir);
      } else {
        BudgetDrops(w.modules.Keys, busy, absDir);
        failed := LoadBody(absDir, busy);
      }
      inside := loaded;
      Leave(absDir, old(visiting), old(visitStack), old(visitDirs), modPath, failed.None?);
      PathsTransitive(old(loaded), inside, loaded);
      return if failed.Some? then Err(failed.value) else Ok(absDir);
    }

    /** Marks a directory as being visited. */
    method Enter(absDir: Dir, modPath: string)
      requires Valid() && absDir !in order && absDir !in visiting
      modifies this`visiting, this`visitStack, this`visitDirs
      ensures Valid()
      ensures visiting == old(visiting)[absDir := modPath] && visiting.Keys == old(visiting.Keys) + {absDir}
      ensures visitStack == old(visitStack) + [modPath] && visitDirs == old(visitDirs) + [absDir]
    {
      hide Registered, OnStack, PostOrder, IdentitiesRight, RemotesRight, CatalogRight, CleanWorld;
      Pushed(visitDirs, visiting, visitStack, order, absDir, modPath);
      visiting := visiting[absDir := modPath];
      visitStack := visitStack + [modPath];
      visitDirs := visitDirs + [absDir];
    }

    /** Registers the directory on top of the visit stack if it loaded, and pops it. */
    method Leave(absDir: Dir, ghost busy: map<Dir, string>, ghost stack: seq<string>, ghost dirs: seq<Dir>,
                 ghost modPath: string, loadedOk: bool)
      requires Valid() && CleanDir(absDir) && absDir !in busy
      requires visiting == busy[absDir := modPath] && visitStack == stack + [modPath] && visitDirs == dirs + [absDir]
      requires loadedOk ==> !Broken(w, absDir) && UsesListed(w, commitPins, absDir, w.modules[absDir].uses, order)
      modifies this
      ensures Valid()
      ensures visiting == busy && visitStack == stack && visitDirs == dirs && commitPins == old(commitPins)
      ensures remoteResolved == old(remoteResolved) && PathsKept(old(loaded), loaded)
      ensures order == if loadedOk then old(order) + [absDir] else old(order)
      ensures old(depOrder) <= depOrder
    {
      hide Registered, OnStack, PostOrder, NoDuplicates, IdentitiesRight, RemotesRight, CatalogRight;
      hide Extends, Target, UsesListed, LocalIdentity, CleanWorld, CleanDir, Broken;
      PushUndone(dirs, busy, stack, absDir, modPath);
      Popped(dirs, busy, stack, order, absDir, modPath, if loadedOk then order + [absDir] else order);
      if loadedOk {
        var id := LocalIdentity(w.root, absDir);
        var mi := ModuleInfo(id, id);
        TopOfStackNotListed(visitDirs, visiting, visitStack, order, absDir);
        ListedIsLoaded(w, order, loaded, depOrder, allModInfos, absDir);
        ListedOnce(w, order, loaded, depOrder, allModInfos);
        RegisterOne(w, order, loaded, depOrder, allModInfos, absDir, mi);
        AppendListed(w, commitPins, order, absDir);
        CatalogGrew(w, order, order + [absDir], catalogLoaded);
        loaded := loaded[absDir := mi];
        allModInfos := allModInfos[id := absDir];
        depOrder := depOrder + [id];
        order := order + [absDir];
      }
      visiting := visiting - {absDir};
      visitStack := visitStack[..|visitStack| - 1];
      visitDirs := visitDirs[..|visitDirs| - 1];
    }

    /** The part of Load between marking the directory as being visited and registering it. */
    method LoadBody(absDir: Dir, ghost busy: set<Dir>) returns (failed: Option<LoadError>)
      requires Valid() && CleanDir(absDir)
      requires absDir in w.modules && absDir in visiting && visiting.Keys == busy + {absDir}
      modifies this
      ensures Valid() && Kept()
      ensures failed.None? ==> !Broken(w, absDir) && UsesListed(w, commitPins, absDir, w.modules[absDir].uses, order)
      ensures failed.Some? ==> Obstructed(w, commitPins, busy, absDir) || Misnamed(w, failed.value)
      ensures Agrees(w, WalkBody(w, old(Now()), visiting.Keys, absDir), failed, Now())
      decreases Budget(), 3
    {
      hide Registered, OnStack, PostOrder, IdentitiesRight, RemotesRight, CatalogRight, Obstructed;
      hide Extends, Target, UsesListed, UseFails, LocalIdentity, CleanWorld, Broken, WalkUses, PathsKept;
      ExtendsReflexive(commitPins);
      PathsReflexive(loaded);
      ModuleUsesKnown(w, absDir);
      var m := w.modules[absDir];
      if !m.opens {
        BrokenHere(w, commitPins, busy, absDir);
        return Some(BadModule(absDir));
      }
      var globalID := LocalIdentity(w.root, absDir);
      if globalID in globalIdentities && globalIdentities[globalID] != absDir {
        DuplicateMeansIllNamed(w, globalIdentities, absDir);
        return Some(DuplicateIdentity(globalID));
      }
      IdentityMoved(w, globalIdentities, globalID, globalID, absDir);
      globalIdentities := globalIdentities[globalID := absDir];

      failed := LoadDeps(m.uses, absDir);
      if failed.Some? {
        if !Misnamed(w, failed.value) {
          UseFailsBack(w, commitPins, busy, absDir);
        }
        return;
      }
      if !m.checks {
        BrokenHere(w, commitPins, busy, absDir);
        return Some(BadModule(absDir));
      }
      SoundHere(w, absDir);
    }

    /** Loads what a module's import list names, in order, stopping at the first failure. */
    method LoadDeps(uses: seq<Use>, baseDir: Dir) returns (failed: Option<LoadError>)
      requires Valid() && CleanDir(baseDir) && forall u :: u in uses ==> Known(w, u)
      modifies this
      ensures Valid() && Kept()
      ensures failed.None? ==> UsesListed(w, commitPins, baseDir, uses, order)
      ensures failed.Some? && !Misnamed(w, failed.value) ==>
        exists u :: u in uses && UseFails(w, commitPins, visiting.Keys, baseDir, u)
      ensures Agrees(w, WalkUses(w, old(Now()), visiting.Keys, baseDir, uses), failed, Now())
      decreases Budget(), 2
    {
      hide Registered, OnStack, PostOrder, IdentitiesRight, RemotesRight, CatalogRight, Obstructed;
      hide UsesListed, UseFails, Target, Extends, Known, WalkUse, Misnamed, PathsKept;
      NothingListed(w, commitPins, baseDir, order);
      ExtendsReflexive(commitPins);
      PathsReflexive(loaded);
      ghost var start := Now();
      assert uses[0..] == uses;
      hide WalkUses;
      for i := 0 to |uses|
        invariant Valid() && Kept()
        invariant UsesListed(w, commitPins, baseDir, uses[..i], order)
        invariant WalkUses(w, start, visiting.Keys, baseDir, uses) == WalkUses(w, Now(), visiting.Keys, baseDir, uses[i..])
      {
        ghost var before, listed, infos := commitPins, order, loaded;
        UsesOneMore(w, Now(), visiting.Keys, baseDir, uses, i);
        assert uses[i] in uses;
        var r := LoadUse(uses[i], baseDir);
        ExtendsTransitive(old(commitPins), before, commitPins);
        PathsTransitive(old(loaded), infos, loaded);
        if r.Err? {
          return Some(r.error);
        }
        OneMoreListed(w, before, commitPins, baseDir, uses, i, listed, order);
      }
      assert uses[..|uses|] == uses && uses[|uses|..] == [];
      NoUses(w, Now(), visiting.Keys, baseDir);
      return None;
    }

    /** One import, dispatched on its kind. */
    method LoadUse(u: Use, baseDir: Dir) returns (r: Result<Dir, LoadError>)
      requires Valid() && CleanDir(baseDir) && Known(w, u)
      modifies this
      ensures Valid() && Kept()
      ensures r.Ok? ==> Target(w, commitPins, baseDir, u) == Some(r.value) && r.value in order
      ensures r.Err? ==> UseFails(w, commitPins, visiting.Keys, baseDir, u) || Misnamed(w, r.error)
      ensures Agrees(w, WalkUse(w, old(Now()), visiting.Keys, baseDir, u), ErrorOf(r), Now())
      decreases Budget(), 1, 2
    {
      hide Registered, OnStack, PostOrder, IdentitiesRight, RemotesRight, CatalogRight, Obstructed, Known, Misnamed;
      hide WalkDir, WalkRemote, PathsKept, Extends, CleanWorld, RemoteTarget, CatalogTarget;
      assert GivenName(w, u).Some? ==> KnownName(w, GivenName(w, u).value);
      match u
      case Sourced(path) =>
        if IsLocalPath(path) {
          r := Load(path, baseDir);
        } else {
          r := LoadRemote(path, "");
        }
      case Named(name) =>
        if name in w.named {
          r := LoadRemote(w.named[name].url, w.named[name].subdir);
        } else {
          r := LoadCatalog(name);
        }
    }

    method LoadRemote(url: string, subdir: string) returns (r: Result<Dir, LoadError>)
      requires Valid() && KnownName(w, RemoteName(UrlId(w, url, subdir)))
      modifies this
      ensures Valid() && Kept()
      ensures var t := RemoteTarget(w, commitPins, UrlId(w, url, subdir));
        && (r.Ok? ==> t == Some(r.value) && r.value in order)
        && (r.Err? ==> t.None? || Obstructed(w, commitPins, visiting.Keys, t.value) || Misnamed(w, r.error))
      ensures Agrees(w, WalkRemote(w, old(Now()), visiting.Keys, UrlId(w, url, subdir)), ErrorOf(r), Now())
      decreases Budget(), 1, 0
    {
      hide Registered, OnStack, PostOrder, IdentitiesRight, RemotesRight, CatalogRight, Obstructed, KnownName;
      hide Extends, PinClash, RemoteName, CleanDir, Misnamed, WalkRemote, WalkAs, PathsKept, CleanWorld, RemoteTarget;
      hide Noted, UrlId, Valid;
      ExtendsReflexive(commitPins);
      PathsReflexive(loaded);
      var id := UrlId(w, url, subdir);
      RemoteIsAs(w, Now(), visiting.Keys, id);
      if id in remoteResolved {
        ResolvedMeansKnown(id);
      }
      if id in remoteResolved && remoteResolved[id] in loaded {
        return Ok(remoteResolved[id]);
      }
      r := Locate(id);
      if r.Ok? {
        r := LoadAs(id, r.value);
      }
    }

    lemma ResolvedMeansKnown(id: RemoteId)
      requires Valid() && id in remoteResolved
      ensures RemoteTarget(w, commitPins, id) == Some(remoteResolved[id])
      ensures remoteResolved[id] in order <==> remoteResolved[id] in loaded
    {
      hide Registered, OnStack, PostOrder, IdentitiesRight, RemotesRight, CatalogRight, CleanWorld, RemoteTarget;
      ListedIsLoaded(w, order, loaded, depOrder, allModInfos, remoteResolved[id]);
      RemoteKnown(w, commitPins, remoteResolved, id);
    }

    /** Where a remote module is: its replacement, or the checkout of its pin, which is noted. */
    method Locate(id: RemoteId) returns (r: Result<Dir, LoadError>)
      requires Valid()
      modifies this`remoteResolved
      ensures Valid()
      ensures match r
              case Ok(dir) => RemoteTarget(w, commitPins, id) == Some(dir) && CleanDir(dir) && Now() == Noted(w, old(Now()), id, dir)
              case Err(e) => RemoteTarget(w, commitPins, id).None? && remoteResolved == old(remoteResolved)
    {
      hide Registered, OnStack, PostOrder, IdentitiesRight, RemotesRight, CatalogRight, Extends, Resolve, Under, CleanDir;
      RemoteTargetIsClean(w, commitPins, id);
      var local := LookupReplace(id.url);
      if local.Some? {
        return Ok(Under(Resolve(w.root, local.value), id.subdir));
      }
      if id !in commitPins {
        return Err(NoPin(id));
      }
      if (id, commitPins[id]) !in w.checkouts {
        return Err(FetchFailed(id));
      }
      var dir := w.checkouts[(id, commitPins[id])];
      RemoteAdded(w, commitPins, remoteResolved, id, dir);
      remoteResolved := remoteResolved[id := dir];
      return Ok(dir);
    }

    /** Loads a remote module from its directory, renames it and takes over its pins. */
    method LoadAs(id: RemoteId, dir: Dir) returns (r: Result<Dir, LoadError>)
      requires Valid() && CleanDir(dir) && RemoteTarget(w, commitPins, id) == Some(dir) && KnownName(w, RemoteName(id))
      modifies this
      ensures Valid() && Kept()
      ensures RemoteTarget(w, commitPins, id) == Some(dir)
      ensures r.Ok? ==> r.value == dir && dir in order
      // It goes by its URL, and by its subdirectory if it has one.
      ensures r.Ok? ==>
        dir in loaded && loaded[dir].globalIdentity == id.url + (if id.subdir == "" then "" else "//" + id.subdir)
      ensures r.Err? ==> Obstructed(w, commitPins, visiting.Keys, dir) || Misnamed(w, r.error)
      ensures Agrees(w, WalkAs(w, old(Now()), visiting.Keys, id, dir), ErrorOf(r), Now())
      decreases Budget(), 0, 2
    {
      hide Registered, OnStack, PostOrder, IdentitiesRight, RemotesRight, CatalogRight, Obstructed, KnownName, WellNamed;
      RemoteNameIs(id);
      hide Extends, PinClash, Merge, Resolve, RemoteName, AbsPath, CleanDir, RemoteTarget, CleanWorld, WalkDir, PathsKept;
      KnownNameForeign(w, RemoteName(id));
      ghost var first := commitPins;
      ResolveAbsPath(w.root, dir);
      RootIsClean(w);
      r := Load(AbsPath(dir), w.root);
      RemoteStays(w, first, commitPins, id);
      if r.Err? {
        return;
      }
      ghost var infos := loaded;
      OverrideIdentity(dir, RemoteName(id));
      PathsTransitive(old(loaded), infos, loaded);
      RemoteAdded(w, commitPins, remoteResolved, id, dir);
      remoteResolved := remoteResolved[id := dir];
      ListedSound(w, commitPins, order, dir);
      ghost var second := commitPins;
      var clash := MergeTransitivePins(dir);
      RemoteStays(w, second, commitPins, id);
      ExtendsTransitive(first, second, commitPins);
      if clash.Some? {
        ClashHere(w, commitPins, visiting.Keys, dir);
        return Err(PinConflict(clash.value));
      }
    }

    method LoadCatalog(name: string) returns (r: Result<Dir, LoadError>)
      requires Valid() && KnownName(w, name)
      modifies this
      ensures Valid() && Kept()
      ensures var t := CatalogTarget(w, name);
        && (r.Ok? ==> t == Some(r.value) && r.value in order)
        && (r.Err? ==> t.None? || Obstructed(w, commitPins, visiting.Keys, t.value) || Misnamed(w, r.error))
        && Agrees(w, if t.Some? then WalkDir(w, old(Now()), visiting.Keys, t.value) else None, ErrorOf(r), Now())
      // Loaded under this name for the first time it goes by the name.
      ensures r.Ok? && name !in old(catalogLoaded) ==> r.value in loaded && loaded[r.value].globalIdentity == name
      decreases Budget(), 1, 0
    {
      hide Registered, OnStack, PostOrder, IdentitiesRight, RemotesRight, CatalogRight, Obstructed, KnownName, Misnamed;
      hide WalkDir, WalkBody, PathsKept, WellNamed, Extends, CleanWorld, CleanDir, Resolve, AbsPath, LocalIdentity;
      KnownNameForeign(w, name);
      RootIsClean(w);
      ExtendsReflexive(commitPins);
      PathsReflexive(loaded);
      if CatalogTarget(w, name).Some? {
        DirIsBody(w, Now(), visiting.Keys, CatalogTarget(w, name).value);
      }
      if name in catalogLoaded {
        CatalogKnown(w, order, catalogLoaded, name);
        return Ok(catalogLoaded[name]);
      }
      CatalogTargetIsClean(w, name);
      var dir: Dir;
      var local := FindReplaceName(w.replace, name);
      if local.Some? {
        dir := Resolve(w.root, local.value);
      } else {
        if name !in w.catalog || w.catalog[name].dir.None? || w.catalog[name].hasRequire {
          return Err(UnknownCatalogModule(name));
        }
        dir := w.catalog[name].dir.value;
      }
      assert CatalogTarget(w, name) == Some(dir);
      hide CatalogTarget, FindReplaceName;
      ResolveAbsPath(w.root, dir);
      r := Load(AbsPath(dir), w.root);
      if r.Err? {
        return;
      }
      ghost var infos := loaded;
      OverrideIdentity(dir, name);
      PathsTransitive(old(loaded), infos, loaded);
      CatalogAdded(w, order, catalogLoaded, name, dir);
      catalogLoaded := catalogLoaded[name := dir];
    }

    /** The replacement of a remote: the path of the first entry whose key normalises to it. */
    method LookupReplace(url: string) returns (r: Option<string>)
      ensures r == FindReplace(w, w.replace, url)
      ensures match r
              case Some(local) => exists i: nat :: FirstReplacing(w, i, url) && local == w.replace[i].1
              case None => NoneReplacing(w, url)
    {
      for i := 0 to |w.replace|
        invariant FindReplace(w, w.replace[i..], url) == FindReplace(w, w.replace, url)
        invariant forall j :: 0 <= j < i ==> w.normalize(w.replace[j].0) != url
      {
        if w.normalize(w.replace[i].0) == url {
          assert FirstReplacing(w, i, url);
          return Some(w.replace[i].1);
        }
        assert w.replace[i..][1..] == w.replace[i + 1..];
      }
      return None;
    }

    /** Renames a loaded module; its registration in allModInfos and depOrder keeps the
        name it was loaded under. */
    method OverrideIdentity(dir: Dir, globalID: string)
      requires Valid() && dir in order
      requires WellNamed(w) ==> Foreign(globalID)
      modifies this`loaded, this`globalIdentities
      ensures Valid()
      ensures dir in old(loaded)
      ensures loaded == old(loaded)[dir := ModuleInfo(globalID, old(loaded)[dir].path)]
      ensures PathsKept(old(loaded), loaded)
      ensures globalID in globalIdentities && globalIdentities[globalID] == dir
      ensures old(loaded)[dir].globalIdentity != globalID ==> old(loaded)[dir].globalIdentity !in globalIdentities
    {
      hide Registered, OnStack, PostOrder, IdentitiesRight, RemotesRight, CatalogRight;
      ListedIsLoaded(w, order, loaded, depOrder, allModInfos, dir);
      ListedDirs(w, order, loaded, depOrder, allModInfos, dir);
      Renamed(w, order, loaded, depOrder, allModInfos, dir, globalID);
      IdentityMoved(w, globalIdentities, loaded[dir].globalIdentity, globalID, dir);
      var oldID := loaded[dir].globalIdentity;
      loaded := loaded[dir := ModuleInfo(globalID, loaded[dir].path)];
      globalIdentities := globalIdentities - {oldID};
      globalIdentities := globalIdentities[globalID := dir];
    }

    /** Merges a module's [require] table into the effective pins. */
    method MergeTransitivePins(dir: Dir) returns (clash: Option<Entry>)
      requires Valid() && dir in w.modules
      modifies this`commitPins
      ensures Valid()
      ensures var out := Merge(w.normalize, w.topLevel, old(commitPins), w.modules[dir].require);
        commitPins == out.pins && clash == if out.Conflict? then Some(out.entry) else None
      ensures Extends(old(commitPins), commitPins)
      ensures clash.Some? ==> PinClash(w, commitPins, dir)
    {
      hide Registered, OnStack, PostOrder, IdentitiesRight, RemotesRight, CatalogRight, CleanWorld;
      var entries := w.modules[dir].require;
      MergeExtends(w.normalize, w.topLevel, commitPins, entries);
      ghost var goal := Merge(w.normalize, w.topLevel, commitPins, entries);
      for i := 0 to |entries|
        invariant Merge(w.normalize, w.topLevel, commitPins, entries[i..]) == goal
        invariant Extends(old(commitPins), commitPins)
      {
        var e := entries[i];
        assert entries[i..][1..] == entries[i + 1..];
        assert e in entries;
        if w.normalize(e.url) in w.topLevel {
          continue;
        }
        var slot := RemoteId(w.normalize(e.url), "");
        if slot in commitPins && commitPins[slot] != e.pin {
          assert Clash(w.normalize, w.topLevel, commitPins, e);
          PinsGrew(w, old(commitPins), commitPins, order, remoteResolved);
          return Some(e);
        }
        commitPins := commitPins[slot := e.pin];
      }
      assert entries[|entries|..] == [];
      PinsGrew(w, old(commitPins), commitPins, order, remoteResolved);
      return None;
    }
  }

  // ---------------------------------------------------------------------------
  // Whole runs.
  // ---------------------------------------------------------------------------

  /** Loads a project's imports with a fresh loader. */
  method LoadProject(w: World, pins: Pins) returns (failed: Option<LoadError>, loader: Loader)
    requires CleanWorld(w)
    ensures loader.w == w && loader.Valid() && loader.visiting == map[] && Extends(pins, loader.commitPins)
    // What loads, and with which pins and in which order, is what the walk says ...
    ensures Agrees(w, WalkUses(w, Start(pins), {}, w.root, w.uses), failed, loader.Now())
    // ... success yields a duplicate-free post-order that is closed under imports and lists
    // exactly what can be reached ...
    ensures failed.None? ==> UsesListed(w, loader.commitPins, w.root, w.uses, loader.order)
    ensures failed.None? ==> forall d :: d in loader.order <==> Reachable(w, loader.commitPins, w.root, w.uses, d)
    // ... and only where nothing reachable is unsound or on a cycle ...
    ensures failed.None? ==> SoundAndAcyclic(w, loader.commitPins)
    // ... and, where pins are settled, exactly where besides the tables that are read fit.
    ensures Settled(w, pins) && WellNamed(w) ==> (failed.None? <==> SoundAndAcyclic(w, pins) && TablesFit(w, pins))
  {
    hide Settled, SoundAndAcyclic, TablesFit, WalkUses, Reachable, Target;
    loader := new Loader(w, pins);
    failed := loader.LoadDeps(w.uses, w.root);
    assert loader.visiting.Keys == {};
    if failed.None? {
      UsesReach(w, Start(pins), {}, w.root, w.uses);
      ListedIsSound(w, loader.commitPins, loader.order);
      forall d | Reachable(w, loader.commitPins, w.root, w.uses, d)
        ensures d in loader.order
      {
        ReachableListed(w, loader.commitPins, loader.order, d);
      }
    }
    if Settled(w, pins) {
      SettledLoadsExactly(w, pins);
    }
  }

  lemma ListedIsSound(w: World, pins: Pins, order: seq<Dir>)
    requires PostOrder(w, pins, order) && NoDuplicates(order) && UsesListed(w, pins, w.root, w.uses, order)
    ensures SoundAndAcyclic(w, pins)
  {
    forall u | u in w.uses
      ensures Target(w, pins, w.root, u).Some? && !Blocked(w, pins, {}, Target(w, pins, w.root, u).value)
    {
      PostOrderNotBlocked(w, pins, order, {}, Target(w, pins, w.root, u).value);
    }
  }

  lemma PinsGrew(w: World, pins: Pins, more: Pins, order: seq<Dir>, resolved: map<RemoteId, Dir>)
    requires PostOrder(w, pins, order) && RemotesRight(w, pins, resolved) && Extends(pins, more)
    ensures PostOrder(w, more, order) && RemotesRight(w, more, resolved)
  {
    PostOrderMonotone(w, pins, more, order);
  }
}
