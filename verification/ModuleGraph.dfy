/**
 What the loader walks: the modules on disk, how an import resolves, and what it means
 for the walk from a directory to be obstructed.
 */
module ModuleGraph {
  import opened Wrappers
  import opened ModulePaths
  import opened CommitPins

  /** An import: `use alias "location"`, or `use name` without a location. */
  datatype Use = Sourced(path: string) | Named(name: string)

  /** One module directory. `opens` says whether every check made before its imports are
      loaded passes, `checks` whether every one made after passes. */
  datatype Module = Module(opens: bool, uses: seq<Use>, checks: bool, require: seq<Entry>)

  datatype NamedEntry = NamedEntry(url: string, subdir: string)

  datatype CatalogEntry = CatalogEntry(dir: Option<Dir>, hasRequire: bool)

  /** Everything outside the loader, fixed for a run. */
  datatype World = World(
    root: Dir,
    uses: seq<Use>,                           // the root project's imports
    topLevel: set<string>,                    // normalised URLs of the root's [require]
    replace: seq<(string, string)>,           // [replace] in iteration order
    named: map<string, NamedEntry>,           // [require.NAME]
    catalog: map<string, CatalogEntry>,
    checkouts: map<(RemoteId, string), Dir>,  // what fetching (module, commit) yields
    modules: map<Dir, Module>,
    normalize: string -> string)

  /** Directories are clean absolute ones. */
  ghost predicate CleanWorld(w: World) {
    && CleanDir(w.root)
    && (forall k :: k in w.checkouts ==> CleanDir(w.checkouts[k]))
    && (forall n :: n in w.catalog && w.catalog[n].dir.Some? ==> CleanDir(w.catalog[n].dir.value))
  }

  predicate IsLocalPath(path: string) {
    "./" <= path || "../" <= path || "/" <= path
  }

  function FindReplace(w: World, replace: seq<(string, string)>, url: string): Option<string> {
    if replace == [] then None
    else if w.normalize(replace[0].0) == url then Some(replace[0].1)
    else FindReplace(w, replace[1..], url)
  }

  function FindReplaceName(replace: seq<(string, string)>, name: string): Option<string> {
    if replace == [] then None
    else if replace[0].0 == name then Some(replace[0].1)
    else FindReplaceName(replace[1..], name)
  }

  function RemoteTarget(w: World, pins: Pins, id: RemoteId): Option<Dir> {
    match FindReplace(w, w.replace, id.url)
    case Some(local) => Some(Under(Resolve(w.root, local), id.subdir))
    case None =>
      if id in pins && (id, pins[id]) in w.checkouts then Some(w.checkouts[(id, pins[id])]) else None
  }

  function CatalogTarget(w: World, name: string): Option<Dir> {
    match FindReplaceName(w.replace, name)
    case Some(local) => Some(Resolve(w.root, local))
    case None =>
      if name in w.catalog && !w.catalog[name].hasRequire then w.catalog[name].dir else None
  }

  function UrlId(w: World, url: string, subdir: string): RemoteId {
    RemoteId(w.normalize(url), subdir)
  }

  /** The directory an import in the module at `base` means under the given pins. */
  function Target(w: World, pins: Pins, base: Dir, u: Use): Option<Dir> {
    match u
    case Sourced(path) =>
      if IsLocalPath(path) then Some(Resolve(base, path)) else RemoteTarget(w, pins, UrlId(w, path, ""))
    case Named(name) =>
      if name in w.named then RemoteTarget(w, pins, UrlId(w, w.named[name].url, w.named[name].subdir))
      else CatalogTarget(w, name)
  }

  // --- What that comes to --------------------------------------------------------------

  /** Entry i is the first [replace] entry for the URL: the first whose key normalises to it. */
  predicate FirstReplacing(w: World, i: nat, url: string) {
    i < |w.replace| && w.normalize(w.replace[i].0) == url && forall j :: 0 <= j < i ==> w.normalize(w.replace[j].0) != url
  }

  predicate NoneReplacing(w: World, url: string) {
    forall j :: 0 <= j < |w.replace| ==> w.normalize(w.replace[j].0) != url
  }

  lemma {:induction false} FindReplaceFrom(w: World, i: nat, url: string)
    requires i <= |w.replace|
    ensures match FindReplace(w, w.replace[i..], url)
            case Some(local) => exists k :: i <= k < |w.replace| && w.normalize(w.replace[k].0) == url && local == w.replace[k].1
                                            && forall j :: i <= j < k ==> w.normalize(w.replace[j].0) != url
            case None => forall j :: i <= j < |w.replace| ==> w.normalize(w.replace[j].0) != url
    decreases |w.replace| - i
  {
    if i < |w.replace| {
      assert w.replace[i..][1..] == w.replace[i + 1..] && w.replace[i..][0] == w.replace[i];
      FindReplaceFrom(w, i + 1, url);
    }
  }

  /** A remote is at the path its first replacement gives, taken from the project's root,
      whatever the pins; without a replacement it is the checkout of its effective pin. */
  lemma RemoteTargetExactly(w: World, pins: Pins, i: nat, url: string, sub: string)
    ensures FirstReplacing(w, i, url) ==>
      RemoteTarget(w, pins, RemoteId(url, sub)) == Some(Under(Resolve(w.root, w.replace[i].1), sub))
    ensures NoneReplacing(w, url) ==>
      var id := RemoteId(url, sub);
      RemoteTarget(w, pins, id) ==
        if id in pins && (id, pins[id]) in w.checkouts then Some(w.checkouts[(id, pins[id])]) else None
  {
    FoundFirst(w, i, url);
    hide Under, Resolve, FindReplace;
  }

  lemma FoundFirst(w: World, i: nat, url: string)
    ensures FirstReplacing(w, i, url) ==> FindReplace(w, w.replace, url) == Some(w.replace[i].1)
    ensures NoneReplacing(w, url) ==> FindReplace(w, w.replace, url) == None
  {
    assert w.replace[0..] == w.replace;
    FindReplaceFrom(w, 0, url);
    hide FindReplace;
    if FirstReplacing(w, i, url) {
      assert w.normalize(w.replace[i].0) == url;
    }
  }

  predicate FirstNamed(w: World, i: nat, name: string) {
    i < |w.replace| && w.replace[i].0 == name && forall j :: 0 <= j < i ==> w.replace[j].0 != name
  }

  lemma {:induction false} FindReplaceNameFrom(w: World, i: nat, name: string)
    requires i <= |w.replace|
    ensures match FindReplaceName(w.replace[i..], name)
            case Some(local) => exists k :: i <= k < |w.replace| && w.replace[k].0 == name && local == w.replace[k].1
                                            && forall j :: i <= j < k ==> w.replace[j].0 != name
            case None => forall j :: i <= j < |w.replace| ==> w.replace[j].0 != name
    decreases |w.replace| - i
  {
    if i < |w.replace| {
      assert w.replace[i..][1..] == w.replace[i + 1..] && w.replace[i..][0] == w.replace[i];
      FindReplaceNameFrom(w, i + 1, name);
    }
  }

  /** A catalog module is at its replacement, found by its name as it is; without one it is
      where the catalog has it, unless it is not there or has a [require] table. */
  lemma CatalogTargetExactly(w: World, i: nat, name: string)
    ensures FirstNamed(w, i, name) ==> CatalogTarget(w, name) == Some(Resolve(w.root, w.replace[i].1))
    ensures (forall j :: 0 <= j < |w.replace| ==> w.replace[j].0 != name) ==>
      CatalogTarget(w, name) ==
        if name in w.catalog && w.catalog[name].dir.Some? && !w.catalog[name].hasRequire
        then Some(w.catalog[name].dir.value) else None
  {
    assert w.replace[0..] == w.replace;
    FindReplaceNameFrom(w, 0, name);
    hide FindReplaceName, Resolve;
    if FirstNamed(w, i, name) {
      assert w.replace[i].0 == name;
    }
  }

  /** What an import means, by its form: a path from the importing directory, a URL at the
      root of its repository, a [require.NAME] section with its subdirectory, or a catalog
      name. */
  lemma ImportMeans(w: World, pins: Pins, base: Dir, path: string, name: string)
    ensures "./" <= path || "../" <= path || "/" <= path ==>
      Target(w, pins, base, Sourced(path)) == Some(Resolve(base, path)) && RemoteOf(w, Sourced(path)).None?
    ensures !("./" <= path) && !("../" <= path) && !("/" <= path) ==>
      var id := RemoteId(w.normalize(path), "");
      Target(w, pins, base, Sourced(path)) == RemoteTarget(w, pins, id) && RemoteOf(w, Sourced(path)) == Some(id)
    ensures name in w.named ==>
      var id := RemoteId(w.normalize(w.named[name].url), w.named[name].subdir);
      Target(w, pins, base, Named(name)) == RemoteTarget(w, pins, id) && RemoteOf(w, Named(name)) == Some(id)
    ensures name !in w.named ==>
      Target(w, pins, base, Named(name)) == CatalogTarget(w, name) && RemoteOf(w, Named(name)).None?
  {
    hide RemoteTarget, CatalogTarget, Resolve;
  }

  lemma TargetIsClean(w: World, pins: Pins, base: Dir, u: Use)
    requires CleanWorld(w) && CleanDir(base)
    ensures Target(w, pins, base, u).Some? ==> CleanDir(Target(w, pins, base, u).value)
  {
    match u {
      case Sourced(path) =>
        ResolveIsClean(base, path);
        RemoteTargetIsClean(w, pins, UrlId(w, path, ""));
      case Named(name) =>
        if name in w.named {
          RemoteTargetIsClean(w, pins, UrlId(w, w.named[name].url, w.named[name].subdir));
        }
        CatalogTargetIsClean(w, name);
    }
  }

  lemma RemoteTargetIsClean(w: World, pins: Pins, id: RemoteId)
    requires CleanWorld(w)
    ensures RemoteTarget(w, pins, id).Some? ==> CleanDir(RemoteTarget(w, pins, id).value)
  {
    var found := FindReplace(w, w.replace, id.url);
    if found.Some? {
      ResolveIsClean(w.root, found.value);
      ResolveIsClean(Resolve(w.root, found.value), id.subdir);
    }
  }

  lemma CatalogTargetIsClean(w: World, name: string)
    requires CleanWorld(w)
    ensures CatalogTarget(w, name).Some? ==> CleanDir(CatalogTarget(w, name).value)
  {
    var found := FindReplaceName(w.replace, name);
    if found.Some? {
      ResolveIsClean(w.root, found.value);
    }
  }

  /** More pins never move an import that already resolves. */
  lemma TargetMonotone(w: World, pins: Pins, more: Pins, base: Dir, u: Use)
    requires Extends(pins, more)
    ensures Target(w, pins, base, u).Some? ==> Target(w, more, base, u) == Target(w, pins, base, u)
  {
  }

  // --- Identities ----------------------------------------------------------------

  function RemoteName(id: RemoteId): string {
    if id.subdir == "" then id.url else id.url + "//" + id.subdir
  }

  /** The remote module an import names, if it names one. */
  function RemoteOf(w: World, u: Use): Option<RemoteId> {
    match u
    case Sourced(path) => if IsLocalPath(path) then None else Some(UrlId(w, path, ""))
    case Named(name) =>
      if name in w.named then Some(UrlId(w, w.named[name].url, w.named[name].subdir)) else None
  }

  /** The identity a loaded import is given in place of its local one. */
  function GivenName(w: World, u: Use): Option<string> {
    match RemoteOf(w, u)
    case Some(id) => Some(RemoteName(id))
    case None => if u.Named? then Some(u.name) else None
  }

  /** The imports there are: the root's and the modules'. */
  ghost predicate Known(w: World, u: Use) {
    u in w.uses || exists d :: d in w.modules && u in w.modules[d].uses
  }

  /** Not a name a local directory can have. */
  predicate Foreign(name: string) {
    !("./" <= name) && !("/" <= name)
  }

  /** The names the imports give their modules do not look like local ones. */
  ghost predicate WellNamed(w: World) {
    forall u :: Known(w, u) && GivenName(w, u).Some? ==> Foreign(GivenName(w, u).value)
  }

  // --- The graph -------------------------------------------------------------------

  ghost predicate Edge(w: World, pins: Pins, a: Dir, b: Dir) {
    a in w.modules && exists u :: u in w.modules[a].uses && Target(w, pins, a, u) == Some(b)
  }

  ghost predicate Unresolved(w: World, pins: Pins, d: Dir) {
    d in w.modules && exists u :: u in w.modules[d].uses && Target(w, pins, d, u) == None
  }

  ghost predicate Path(w: World, pins: Pins, p: seq<Dir>) {
    p != [] && forall i :: 0 <= i < |p| - 1 ==> Edge(w, pins, p[i], p[i + 1])
  }

  function Last(p: seq<Dir>): Dir
    requires p != []
  {
    p[|p| - 1]
  }

  ghost predicate Broken(w: World, d: Dir) {
    d !in w.modules || !w.modules[d].opens || !w.modules[d].checks
  }

  ghost predicate PinClash(w: World, pins: Pins, d: Dir) {
    d in w.modules && exists e :: e in w.modules[d].require && Clash(w.normalize, w.topLevel, pins, e)
  }

  /** The import path closes on itself or on a directory being loaded, or it ends at a
      directory that is not a module, fails its checks, or imports something without a
      resolution. */
  ghost predicate Dead(w: World, pins: Pins, busy: set<Dir>, p: seq<Dir>) {
    && Path(w, pins, p)
    && (|| Last(p) in busy
        || Last(p) in p[..|p| - 1]
        || Broken(w, Last(p))
        || Unresolved(w, pins, Last(p)))
  }

  ghost predicate Blocked(w: World, pins: Pins, busy: set<Dir>, d: Dir) {
    exists p :: Dead(w, pins, busy, p) && p[0] == d
  }

  /** Some module reachable from d brings a pin that differs from an effective one. */
  ghost predicate Clashing(w: World, pins: Pins, d: Dir) {
    exists p :: Path(w, pins, p) && p[0] == d && PinClash(w, pins, Last(p))
  }

  ghost predicate Obstructed(w: World, pins: Pins, busy: set<Dir>, d: Dir) {
    Blocked(w, pins, busy, d) || Clashing(w, pins, d)
  }

  lemma BlockedHere(w: World, pins: Pins, busy: set<Dir>, d: Dir)
    requires d in busy || Broken(w, d) || Unresolved(w, pins, d)
    ensures Blocked(w, pins, busy, d)
  {
    assert Dead(w, pins, busy, [d]) && [d][0] == d;
  }

  lemma ClashingHere(w: World, pins: Pins, d: Dir)
    requires PinClash(w, pins, d)
    ensures Clashing(w, pins, d)
  {
    assert Path(w, pins, [d]) && [d][0] == d && PinClash(w, pins, Last([d]));
  }

  lemma PathCons(w: World, pins: Pins, a: Dir, p: seq<Dir>)
    requires Path(w, pins, p) && Edge(w, pins, a, p[0])
    ensures Path(w, pins, [a] + p) && Last([a] + p) == Last(p)
  {
  }

  lemma BlockedBack(w: World, pins: Pins, busy: set<Dir>, a: Dir, b: Dir)
    requires Edge(w, pins, a, b) && Blocked(w, pins, busy + {a}, b)
    ensures Blocked(w, pins, busy, a)
  {
    var p :| Dead(w, pins, busy + {a}, p) && p[0] == b;
    PathCons(w, pins, a, p);
    var q := [a] + p;
    assert q[..|q| - 1] == [a] + p[..|p| - 1];
    assert Dead(w, pins, busy, q) && q[0] == a;
  }

  /** An obstruction seen from an import is one seen from the importer, which the import
      sees as busy. */
  lemma ObstructedBack(w: World, pins: Pins, busy: set<Dir>, a: Dir, b: Dir)
    requires Edge(w, pins, a, b) && Obstructed(w, pins, busy + {a}, b)
    ensures Obstructed(w, pins, busy, a)
  {
    if Blocked(w, pins, busy + {a}, b) {
      BlockedBack(w, pins, busy, a, b);
    } else {
      var p :| Path(w, pins, p) && p[0] == b && PinClash(w, pins, Last(p));
      PathCons(w, pins, a, p);
      assert ([a] + p)[0] == a;
    }
  }

  // --- Post-order -----------------------------------------------------------------

  ghost predicate NoDuplicates(s: seq<Dir>) {
    forall i, j :: 0 <= i < j < |s| ==> s[i] != s[j]
  }

  /** Every listed directory is a sound module whose imports are all listed before it. */
  ghost predicate PostOrder(w: World, pins: Pins, order: seq<Dir>) {
    forall i {:trigger order[i]} :: 0 <= i < |order| ==>
      && !Broken(w, order[i])
      && forall u :: u in w.modules[order[i]].uses ==>
        Target(w, pins, order[i], u).Some? && Target(w, pins, order[i], u).value in order[..i]
  }

  lemma PostOrderMonotone(w: World, pins: Pins, more: Pins, order: seq<Dir>)
    requires PostOrder(w, pins, order) && Extends(pins, more)
    ensures PostOrder(w, more, order)
  {
  }

  lemma PostOrderAppend(w: World, pins: Pins, order: seq<Dir>, d: Dir)
    requires PostOrder(w, pins, order) && NoDuplicates(order) && !Broken(w, d) && d !in order
    requires forall u :: u in w.modules[d].uses ==>
      Target(w, pins, d, u).Some? && Target(w, pins, d, u).value in order
    ensures PostOrder(w, pins, order + [d]) && NoDuplicates(order + [d])
  {
    var next := order + [d];
    forall i, u | 0 <= i < |next| && !Broken(w, next[i]) && u in w.modules[next[i]].uses
      ensures Target(w, pins, next[i], u).Some? && Target(w, pins, next[i], u).value in next[..i]
    {
      if i < |order| {
        assert next[i] == order[i] && next[..i] == order[..i];
      } else {
        assert next[..i] == order;
      }
    }
    forall i | 0 <= i < |next| ensures !Broken(w, next[i]) {
      if i < |order| {
        assert next[i] == order[i];
      }
    }
  }

  lemma PostOrderAt(w: World, pins: Pins, order: seq<Dir>, k: nat)
    requires PostOrder(w, pins, order) && k < |order|
    ensures !Broken(w, order[k]) && !Unresolved(w, pins, order[k])
    ensures forall b :: Edge(w, pins, order[k], b) ==> b in order[..k]
  {
  }

  lemma PathTail(w: World, pins: Pins, p: seq<Dir>)
    requires Path(w, pins, p) && |p| > 1
    ensures Edge(w, pins, p[0], p[1]) && Path(w, pins, p[1..])
  {
  }

  lemma PathFront(w: World, pins: Pins, p: seq<Dir>)
    requires Path(w, pins, p) && |p| > 1
    ensures Edge(w, pins, p[|p| - 2], p[|p| - 1]) && Path(w, pins, p[..|p| - 1])
  {
  }

  lemma PathSnoc(w: World, pins: Pins, front: seq<Dir>, b: Dir)
    requires Path(w, pins, front) && Edge(w, pins, Last(front), b)
    ensures Path(w, pins, front + [b])
  {
  }

  /** A path that starts inside a post-order runs backwards through it. */
  lemma {:induction false} PathDescends(w: World, pins: Pins, order: seq<Dir>, p: seq<Dir>, k: nat)
    requires PostOrder(w, pins, order) && NoDuplicates(order) && Path(w, pins, p)
    requires k < |order| && p[0] == order[k]
    ensures forall i :: 0 < i < |p| ==> p[i] in order[..k]
    ensures !Broken(w, Last(p)) && !Unresolved(w, pins, Last(p))
    ensures Last(p) !in p[..|p| - 1]
    decreases |p|
  {
    assert p != [];
    hide PostOrder, Path, Edge, Unresolved, Broken;
    PostOrderAt(w, pins, order, k);
    if |p| > 1 {
      var rest := p[1..];
      PathTail(w, pins, p);
      var j :| 0 <= j < k && order[j] == p[1];
      PathDescends(w, pins, order, rest, j);
      assert forall i :: 1 < i < |p| ==> p[i] == rest[i - 1];
      assert order[..j] <= order[..k];
      assert Last(p) == Last(rest);
      assert p[..|p| - 1] == [p[0]] + rest[..|rest| - 1];
    }
  }

  /** What a post-order lists is reachable-sound: no import path from it dies. */
  lemma PostOrderNotBlocked(w: World, pins: Pins, order: seq<Dir>, busy: set<Dir>, d: Dir)
    requires PostOrder(w, pins, order) && NoDuplicates(order)
    requires d in order && forall x :: x in order ==> x !in busy
    ensures !Blocked(w, pins, busy, d)
  {
    if Blocked(w, pins, busy, d) {
      var p :| Dead(w, pins, busy, p) && p[0] == d;
      var k :| 0 <= k < |order| && order[k] == d;
      PathDescends(w, pins, order, p, k);
    }
  }
}
