/**
 The order the loader does things in, as a function: which pins are effective when an import
 is reached, and what loads.
 */
module ModuleWalk {
  import opened Wrappers
  import opened ModulePaths
  import opened CommitPins
  import opened ModuleGraph

  /** What a walk carries along: the effective pins, the loaded directories in order, and the
      remotes that have been resolved. */
  datatype Progress = Progress(pins: Pins, order: seq<Dir>, resolved: map<RemoteId, Dir>)

  function RequireOf(w: World, d: Dir): seq<Entry> {
    if d in w.modules then w.modules[d].require else []
  }

  /** Loading a directory; None when it fails. */
  function WalkDir(w: World, s: Progress, busy: set<Dir>, d: Dir): Option<Progress>
    decreases |w.modules.Keys - busy|, 0, 0
  {
    if d in s.order then Some(s)
    else if d in busy || d !in w.modules || !w.modules[d].opens then None
    else
      BudgetDrops(w.modules.Keys, busy, d);
      match WalkUses(w, s, busy + {d}, d, w.modules[d].uses)
      case None => None
      case Some(t) => if w.modules[d].checks then Some(t.(order := t.order + [d])) else None
  }

  /** Loading a list of imports, in order. */
  function WalkUses(w: World, s: Progress, busy: set<Dir>, base: Dir, uses: seq<Use>): Option<Progress>
    decreases |w.modules.Keys - busy|, 2, |uses|
  {
    if uses == [] then Some(s)
    else
      match WalkUse(w, s, busy, base, uses[0])
      case None => None
      case Some(t) => WalkUses(w, t, busy, base, uses[1..])
  }

  function WalkUse(w: World, s: Progress, busy: set<Dir>, base: Dir, u: Use): Option<Progress>
    decreases |w.modules.Keys - busy|, 1, 1
  {
    match RemoteOf(w, u)
    case Some(id) => WalkRemote(w, s, busy, id)
    case None =>
      match Target(w, s.pins, base, u)
      case None => None
      case Some(d) => WalkDir(w, s, busy, d)
  }

  /** A remote that was resolved and loaded before is taken as it is. */
  predicate Remembered(s: Progress, id: RemoteId) {
    id in s.resolved && s.resolved[id] in s.order
  }

  /** A pinned remote is noted before it is loaded, a replaced one only after. */
  function Noted(w: World, s: Progress, id: RemoteId, d: Dir): Progress {
    if FindReplace(w, w.replace, id.url).Some? then s else s.(resolved := s.resolved[id := d])
  }

  function WalkRemote(w: World, s: Progress, busy: set<Dir>, id: RemoteId): Option<Progress>
    decreases |w.modules.Keys - busy|, 1, 0
  {
    if Remembered(s, id) then Some(s)
    else
      match RemoteTarget(w, s.pins, id)
      case None => None
      case Some(d) =>
        match WalkDir(w, Noted(w, s, id, d), busy, d)
        case None => None
        case Some(t) => Absorbed(w, t.(resolved := t.resolved[id := d]), d)
  }

  /** Taking over the pins of a module that has loaded. */
  function Absorbed(w: World, s: Progress, d: Dir): Option<Progress> {
    match Merge(w.normalize, w.topLevel, s.pins, RequireOf(w, d))
    case Merged(pins) => Some(s.(pins := pins))
    case Conflict(_, _) => None
  }

  // --- What every walk keeps ------------------------------------------------------------

  ghost predicate RemotesRight(w: World, pins: Pins, resolved: map<RemoteId, Dir>) {
    forall id :: id in resolved ==> RemoteTarget(w, pins, id) == Some(resolved[id])
  }

  /** Pins keep their values, the order grows, and what is resolved is resolved rightly. */
  ghost predicate Follows(w: World, s: Progress, t: Progress) {
    && Extends(s.pins, t.pins) && s.order <= t.order
    && (RemotesRight(w, s.pins, s.resolved) ==> RemotesRight(w, t.pins, t.resolved))
  }

  lemma FollowsTransitive(w: World, s: Progress, t: Progress, u: Progress)
    requires Follows(w, s, t) && Follows(w, t, u)
    ensures Follows(w, s, u)
  {
  }

  lemma {:induction false} DirFollows(w: World, s: Progress, busy: set<Dir>, d: Dir)
    ensures var t := WalkDir(w, s, busy, d); t.Some? ==> Follows(w, s, t.value) && d in t.value.order
    decreases |w.modules.Keys - busy|, 0, 0
  {
    if WalkDir(w, s, busy, d).Some? && d !in s.order {
      BudgetDrops(w.modules.Keys, busy, d);
      UsesFollow(w, s, busy + {d}, d, w.modules[d].uses);
    }
  }

  lemma {:induction false} UsesFollow(w: World, s: Progress, busy: set<Dir>, base: Dir, uses: seq<Use>)
    ensures var t := WalkUses(w, s, busy, base, uses); t.Some? ==> Follows(w, s, t.value)
    decreases |w.modules.Keys - busy|, 2, |uses|
  {
    if WalkUses(w, s, busy, base, uses).Some? && uses != [] {
      UseFollows(w, s, busy, base, uses[0]);
      var t := WalkUse(w, s, busy, base, uses[0]).value;
      UsesFollow(w, t, busy, base, uses[1..]);
      hide WalkUse;
      FollowsTransitive(w, s, t, WalkUses(w, t, busy, base, uses[1..]).value);
    }
  }

  lemma {:induction false} UseFollows(w: World, s: Progress, busy: set<Dir>, base: Dir, u: Use)
    ensures var t := WalkUse(w, s, busy, base, u); t.Some? ==> Follows(w, s, t.value)
    decreases |w.modules.Keys - busy|, 1, 1
  {
    if RemoteOf(w, u).Some? {
      RemoteFollows(w, s, busy, RemoteOf(w, u).value);
    } else if Target(w, s.pins, base, u).Some? {
      DirFollows(w, s, busy, Target(w, s.pins, base, u).value);
    }
    hide Follows, WalkDir, WalkRemote;
  }

  lemma NotedFollows(w: World, s: Progress, id: RemoteId, d: Dir)
    requires RemoteTarget(w, s.pins, id) == Some(d)
    ensures Follows(w, s, Noted(w, s, id, d))
    ensures Follows(w, s, s.(resolved := s.resolved[id := d]))
  {
  }

  lemma RemoteStays(w: World, pins: Pins, more: Pins, id: RemoteId)
    requires Extends(pins, more)
    ensures RemoteTarget(w, pins, id).Some? ==> RemoteTarget(w, more, id) == RemoteTarget(w, pins, id)
  {
  }

  lemma AbsorbedFollows(w: World, s: Progress, d: Dir)
    ensures Absorbed(w, s, d).Some? ==> Follows(w, s, Absorbed(w, s, d).value)
  {
    MergeExtends(w.normalize, w.topLevel, s.pins, RequireOf(w, d));
  }

  lemma {:induction false} RemoteFollows(w: World, s: Progress, busy: set<Dir>, id: RemoteId)
    ensures var t := WalkRemote(w, s, busy, id); t.Some? ==> Follows(w, s, t.value)
    decreases |w.modules.Keys - busy|, 1, 0
  {
    if WalkRemote(w, s, busy, id).Some? && !Remembered(s, id) {
      var d := RemoteTarget(w, s.pins, id).value;
      var noted := Noted(w, s, id, d);
      NotedFollows(w, s, id, d);
      DirFollows(w, noted, busy, d);
      var t := WalkDir(w, noted, busy, d).value;
      RemoteStays(w, s.pins, t.pins, id);
      NotedFollows(w, t, id, d);
      var r := t.(resolved := t.resolved[id := d]);
      AbsorbedFollows(w, r, d);
      hide Follows, WalkDir, Absorbed, RemoteTarget;
      FollowsTransitive(w, s, noted, t);
      FollowsTransitive(w, s, t, r);
      FollowsTransitive(w, s, r, Absorbed(w, r, d).value);
    }
  }

  // --- Import by import ---------------------------------------------------------------------

  lemma {:induction false} UsesJoin(w: World, s: Progress, busy: set<Dir>, base: Dir, a: seq<Use>, b: seq<Use>)
    ensures WalkUses(w, s, busy, base, a + b)
         == match WalkUses(w, s, busy, base, a) case None => None case Some(t) => WalkUses(w, t, busy, base, b)
    decreases |a|
  {
    if a == [] {
      assert a + b == b;
    } else {
      assert (a + b)[1..] == a[1..] + b;
      var t := WalkUse(w, s, busy, base, a[0]);
      if t.Some? {
        UsesJoin(w, t.value, busy, base, a[1..], b);
      }
      hide WalkUse;
    }
  }

  /** The i-th import loads: those before it do, it resolves under the pins effective when it
      is reached, and its target loads. */
  ghost predicate LoadsInTurn(w: World, s: Progress, busy: set<Dir>, base: Dir, uses: seq<Use>, i: nat)
    requires i < |uses|
  {
    var reached := WalkUses(w, s, busy, base, uses[..i]);
    && reached.Some?
    && Target(w, reached.value.pins, base, uses[i]).Some?
    && UseTargetLoads(w, reached.value, busy, base, uses[i])
  }

  /** The target loads, and if it is a remote not met before its own pins can be taken over
      once it has. */
  predicate UseTargetLoads(w: World, s: Progress, busy: set<Dir>, base: Dir, u: Use) {
    match Target(w, s.pins, base, u)
    case None => false
    case Some(d) =>
      match RemoteOf(w, u)
      case None => WalkDir(w, s, busy, d).Some?
      case Some(id) =>
        || Remembered(s, id)
        || (var t := WalkDir(w, Noted(w, s, id, d), busy, d);
            t.Some? && Merge(w.normalize, w.topLevel, t.value.pins, RequireOf(w, d)).Merged?)
  }

  lemma UseLoadsExactly(w: World, s: Progress, busy: set<Dir>, base: Dir, u: Use)
    requires RemotesRight(w, s.pins, s.resolved)
    ensures WalkUse(w, s, busy, base, u).Some?
       <==> Target(w, s.pins, base, u).Some? && UseTargetLoads(w, s, busy, base, u)
  {
    hide WalkDir, Merge;
  }

  /** A list of imports loads exactly when each import does in its turn. */
  lemma {:induction false} UsesLoadExactly(w: World, s: Progress, busy: set<Dir>, base: Dir, uses: seq<Use>)
    requires RemotesRight(w, s.pins, s.resolved)
    ensures WalkUses(w, s, busy, base, uses).Some?
       <==> forall i :: 0 <= i < |uses| ==> LoadsInTurn(w, s, busy, base, uses, i)
    decreases |uses|
  {
    if uses != [] {
      var last := |uses| - 1;
      var before := uses[..last];
      UsesLoadExactly(w, s, busy, base, before);
      LastUseLoads(w, s, busy, base, uses);
      forall i | 0 <= i < last
        ensures LoadsInTurn(w, s, busy, base, uses, i) <==> LoadsInTurn(w, s, busy, base, before, i)
      {
        assert uses[..i] == before[..i];
      }
      assert LoadsInTurn(w, s, busy, base, uses, last) ==> WalkUses(w, s, busy, base, before).Some?;
      hide WalkUses, LoadsInTurn;
    }
  }

  lemma LastUseLoads(w: World, s: Progress, busy: set<Dir>, base: Dir, uses: seq<Use>)
    requires RemotesRight(w, s.pins, s.resolved) && uses != []
    ensures WalkUses(w, s, busy, base, uses).Some? <==> LoadsInTurn(w, s, busy, base, uses, |uses| - 1)
  {
    var last := |uses| - 1;
    var reached := WalkUses(w, s, busy, base, uses[..last]);
    UsesJoin(w, s, busy, base, uses[..last], [uses[last]]);
    assert uses == uses[..last] + [uses[last]];
    if reached.Some? {
      UsesFollow(w, s, busy, base, uses[..last]);
      UseLoadsExactly(w, reached.value, busy, base, uses[last]);
      SingleUse(w, reached.value, busy, base, uses[last]);
    }
    hide WalkUses, WalkUse, UseTargetLoads;
  }

  lemma SingleUse(w: World, s: Progress, busy: set<Dir>, base: Dir, u: Use)
    ensures WalkUses(w, s, busy, base, [u]) == WalkUse(w, s, busy, base, u)
  {
    hide WalkUse;
    var t := WalkUse(w, s, busy, base, u);
    assert [u][1..] == [];
    assert t.Some? ==> WalkUses(w, t.value, busy, base, []) == t;
  }

  /** A directory not loaded yet loads exactly when it is a sound module that is not being
      loaded already and each of its imports loads in its turn. */
  lemma DirLoadsExactly(w: World, s: Progress, busy: set<Dir>, d: Dir)
    requires RemotesRight(w, s.pins, s.resolved) && d !in s.order
    ensures WalkDir(w, s, busy, d).Some?
       <==> d !in busy && !Broken(w, d)
            && forall i :: 0 <= i < |w.modules[d].uses| ==> LoadsInTurn(w, s, busy + {d}, d, w.modules[d].uses, i)
  {
    if d in w.modules {
      UsesLoadExactly(w, s, busy + {d}, d, w.modules[d].uses);
    }
    hide WalkUses, LoadsInTurn;
  }

  // --- A module's own pins ----------------------------------------------------------------------

  /** The same world, but for one module's [require] table. */
  function WithTable(w: World, d: Dir, table: seq<Entry>): World
    requires d in w.modules
  {
    w.(modules := w.modules[d := w.modules[d].(require := table)])
  }

  lemma {:induction false} ReplaceSame(w: World, w': World, replace: seq<(string, string)>, url: string)
    requires w'.normalize == w.normalize
    ensures FindReplace(w', replace, url) == FindReplace(w, replace, url)
  {
    if replace != [] {
      ReplaceSame(w, w', replace[1..], url);
    }
  }

  lemma TargetSame(w: World, pins: Pins, base: Dir, d: Dir, table: seq<Entry>)
    requires d in w.modules
    ensures var w' := WithTable(w, d, table);
      && (forall u :: Target(w', pins, base, u) == Target(w, pins, base, u))
      && (forall u :: RemoteOf(w', u) == RemoteOf(w, u))
      && (forall id :: RemoteTarget(w', pins, id) == RemoteTarget(w, pins, id))
      && (forall s, id, dir :: Noted(w', s, id, dir) == Noted(w, s, id, dir))
  {
    var w' := WithTable(w, d, table);
    forall url
      ensures FindReplace(w', w'.replace, url) == FindReplace(w, w.replace, url)
    {
      ReplaceSame(w, w', w.replace, url);
    }
  }

  /** While d is being loaded nothing reads its table. */
  ghost predicate StillLoading(s: Progress, busy: set<Dir>, d: Dir) {
    d in busy && d !in s.order
  }

  lemma {:induction false} DirIgnoresTable(w: World, d: Dir, table: seq<Entry>, s: Progress, busy: set<Dir>, x: Dir)
    requires d in w.modules && StillLoading(s, busy, d)
    ensures WalkDir(WithTable(w, d, table), s, busy, x) == WalkDir(w, s, busy, x)
    ensures WalkDir(w, s, busy, x).Some? ==> d !in WalkDir(w, s, busy, x).value.order && x != d
    decreases |w.modules.Keys - busy|, 0, 0
  {
    var w' := WithTable(w, d, table);
    assert w'.modules.Keys == w.modules.Keys;
    if x !in s.order && x !in busy && x in w.modules && w.modules[x].opens {
      BudgetDrops(w.modules.Keys, busy, x);
      UsesIgnoreTable(w, d, table, s, busy + {x}, x, w.modules[x].uses);
      assert w'.modules[x].uses == w.modules[x].uses && w'.modules[x].checks == w.modules[x].checks;
      hide WalkUses;
    }
  }

  lemma {:induction false} UsesIgnoreTable(w: World, d: Dir, table: seq<Entry>, s: Progress, busy: set<Dir>, base: Dir,
                                           uses: seq<Use>)
    requires d in w.modules && StillLoading(s, busy, d)
    ensures WalkUses(WithTable(w, d, table), s, busy, base, uses) == WalkUses(w, s, busy, base, uses)
    ensures WalkUses(w, s, busy, base, uses).Some? ==> d !in WalkUses(w, s, busy, base, uses).value.order
    decreases |w.modules.Keys - busy|, 2, |uses|
  {
    assert WithTable(w, d, table).modules.Keys == w.modules.Keys;
    if uses != [] {
      UseIgnoresTable(w, d, table, s, busy, base, uses[0]);
      var t := WalkUse(w, s, busy, base, uses[0]);
      if t.Some? {
        UsesIgnoreTable(w, d, table, t.value, busy, base, uses[1..]);
      }
      hide WalkUse, WithTable;
    }
  }

  lemma {:induction false} UseIgnoresTable(w: World, d: Dir, table: seq<Entry>, s: Progress, busy: set<Dir>, base: Dir, u: Use)
    requires d in w.modules && StillLoading(s, busy, d)
    ensures WalkUse(WithTable(w, d, table), s, busy, base, u) == WalkUse(w, s, busy, base, u)
    ensures WalkUse(w, s, busy, base, u).Some? ==> d !in WalkUse(w, s, busy, base, u).value.order
    decreases |w.modules.Keys - busy|, 1, 1
  {
    assert WithTable(w, d, table).modules.Keys == w.modules.Keys;
    TargetSame(w, s.pins, base, d, table);
    if RemoteOf(w, u).Some? {
      RemoteIgnoresTable(w, d, table, s, busy, RemoteOf(w, u).value);
    } else if Target(w, s.pins, base, u).Some? {
      DirIgnoresTable(w, d, table, s, busy, Target(w, s.pins, base, u).value);
    }
    hide WalkDir, WalkRemote, Target, RemoteOf, WithTable;
  }

  lemma {:induction false} RemoteIgnoresTable(w: World, d: Dir, table: seq<Entry>, s: Progress, busy: set<Dir>, id: RemoteId)
    requires d in w.modules && StillLoading(s, busy, d)
    ensures WalkRemote(WithTable(w, d, table), s, busy, id) == WalkRemote(w, s, busy, id)
    ensures WalkRemote(w, s, busy, id).Some? ==> d !in WalkRemote(w, s, busy, id).value.order
    decreases |w.modules.Keys - busy|, 1, 0
  {
    var w' := WithTable(w, d, table);
    assert w'.modules.Keys == w.modules.Keys;
    TargetSame(w, s.pins, d, d, table);
    if !Remembered(s, id) && RemoteTarget(w, s.pins, id).Some? {
      var x := RemoteTarget(w, s.pins, id).value;
      DirIgnoresTable(w, d, table, Noted(w, s, id, x), busy, x);
      assert x != d ==> RequireOf(w', x) == RequireOf(w, x);
      assert w'.normalize == w.normalize && w'.topLevel == w.topLevel;
      hide WalkDir, RemoteTarget, WithTable, RequireOf, Noted;
    }
  }

  /** Loading a module, every one of its imports included, comes out the same whatever its own
      [require] table says: the table is read only afterwards. */
  lemma OwnTableComesTooLate(w: World, s: Progress, busy: set<Dir>, d: Dir, table: seq<Entry>)
    requires d in w.modules
    ensures WalkDir(WithTable(w, d, table), s, busy, d) == WalkDir(w, s, busy, d)
  {
    var w' := WithTable(w, d, table);
    assert w'.modules.Keys == w.modules.Keys;
    if d !in s.order && d !in busy && w.modules[d].opens {
      UsesIgnoreTable(w, d, table, s, busy + {d}, d, w.modules[d].uses);
      assert w'.modules[d].uses == w.modules[d].uses && w'.modules[d].checks == w.modules[d].checks;
      hide WalkUses;
    }
  }

  /** So a remote loads exactly when it would with an empty table, and then its table does not
      conflict with the pins effective after its imports. */
  lemma RemoteLoadsExactly(w: World, s: Progress, busy: set<Dir>, id: RemoteId)
    requires !Remembered(s, id) && RemoteTarget(w, s.pins, id).Some? && RemoteTarget(w, s.pins, id).value in w.modules
    ensures var d := RemoteTarget(w, s.pins, id).value;
      var imports := WalkDir(WithTable(w, d, []), Noted(w, s, id, d), busy, d);
      WalkRemote(w, s, busy, id).Some?
      <==> imports.Some? && Compatible(w.normalize, w.topLevel, imports.value.pins, w.modules[d].require)
  {
    var d := RemoteTarget(w, s.pins, id).value;
    OwnTableComesTooLate(w, Noted(w, s, id, d), busy, d, []);
    var imports := WalkDir(w, Noted(w, s, id, d), busy, d);
    if imports.Some? {
      MergeSucceedsExactly(w.normalize, w.topLevel, imports.value.pins, w.modules[d].require);
    }
    hide WalkDir, Compatible, WithTable;
  }

  // --- What is loaded can be reached ------------------------------------------------------------

  ghost predicate Leads(w: World, pins: Pins, a: Dir, b: Dir) {
    exists p :: Path(w, pins, p) && p[0] == a && Last(p) == b
  }

  ghost predicate Reachable(w: World, pins: Pins, base: Dir, uses: seq<Use>, d: Dir) {
    exists u :: u in uses && Target(w, pins, base, u).Some? && Leads(w, pins, Target(w, pins, base, u).value, d)
  }

  lemma LeadsHere(w: World, pins: Pins, d: Dir)
    ensures Leads(w, pins, d, d)
  {
    assert Path(w, pins, [d]) && [d][0] == d && Last([d]) == d;
  }

  lemma LeadsBack(w: World, pins: Pins, a: Dir, b: Dir, c: Dir)
    requires Edge(w, pins, a, b) && Leads(w, pins, b, c)
    ensures Leads(w, pins, a, c)
  {
    var p :| Path(w, pins, p) && p[0] == b && Last(p) == c;
    PathCons(w, pins, a, p);
    assert ([a] + p)[0] == a;
  }

  lemma LeadsOn(w: World, pins: Pins, a: Dir, b: Dir, c: Dir)
    requires Leads(w, pins, a, b) && Edge(w, pins, b, c)
    ensures Leads(w, pins, a, c)
  {
    var p :| Path(w, pins, p) && p[0] == a && Last(p) == b;
    PathSnoc(w, pins, p, c);
    assert (p + [c])[0] == a && Last(p + [c]) == c;
  }

  lemma EdgeStays(w: World, pins: Pins, more: Pins, a: Dir, b: Dir)
    requires Extends(pins, more)
    ensures Edge(w, pins, a, b) ==> Edge(w, more, a, b)
  {
  }

  lemma LeadsStays(w: World, pins: Pins, more: Pins, a: Dir, b: Dir)
    requires Extends(pins, more) && Leads(w, pins, a, b)
    ensures Leads(w, more, a, b)
  {
    var p :| Path(w, pins, p) && p[0] == a && Last(p) == b;
    forall i | 0 <= i < |p| - 1
      ensures Edge(w, more, p[i], p[i + 1])
    {
      EdgeStays(w, pins, more, p[i], p[i + 1]);
    }
    assert Path(w, more, p);
  }

  lemma ReachableStays(w: World, pins: Pins, more: Pins, base: Dir, uses: seq<Use>, d: Dir)
    requires Extends(pins, more) && Reachable(w, pins, base, uses, d)
    ensures Reachable(w, more, base, uses, d)
  {
    var u :| u in uses && Target(w, pins, base, u).Some? && Leads(w, pins, Target(w, pins, base, u).value, d);
    TargetMonotone(w, pins, more, base, u);
    LeadsStays(w, pins, more, Target(w, pins, base, u).value, d);
  }

  ghost predicate NewReached(w: World, s: Progress, t: Progress, d: Dir) {
    forall x :: x in t.order && x !in s.order ==> Leads(w, t.pins, d, x)
  }

  lemma {:induction false} DirReaches(w: World, s: Progress, busy: set<Dir>, d: Dir)
    ensures var t := WalkDir(w, s, busy, d); t.Some? ==> NewReached(w, s, t.value, d)
    decreases |w.modules.Keys - busy|, 0, 0
  {
    if WalkDir(w, s, busy, d).Some? && d !in s.order {
      BudgetDrops(w.modules.Keys, busy, d);
      var uses := w.modules[d].uses;
      UsesReach(w, s, busy + {d}, d, uses);
      var t := WalkUses(w, s, busy + {d}, d, uses).value;
      LeadsHere(w, t.pins, d);
      forall x | x in t.order && x !in s.order
        ensures Leads(w, t.pins, d, x)
      {
        var u :| u in uses && Target(w, t.pins, d, u).Some? && Leads(w, t.pins, Target(w, t.pins, d, u).value, x);
        LeadsBack(w, t.pins, d, Target(w, t.pins, d, u).value, x);
      }
      hide WalkUses, Leads;
    }
  }

  lemma {:induction false} UsesReach(w: World, s: Progress, busy: set<Dir>, base: Dir, uses: seq<Use>)
    ensures var t := WalkUses(w, s, busy, base, uses);
      t.Some? ==> forall x :: x in t.value.order && x !in s.order ==> Reachable(w, t.value.pins, base, uses, x)
    decreases |w.modules.Keys - busy|, 2, |uses|
  {
    if WalkUses(w, s, busy, base, uses).Some? && uses != [] {
      UseReaches(w, s, busy, base, uses[0]);
      var t := WalkUse(w, s, busy, base, uses[0]).value;
      UsesReach(w, t, busy, base, uses[1..]);
      UsesFollow(w, t, busy, base, uses[1..]);
      var r := WalkUses(w, t, busy, base, uses[1..]).value;
      hide WalkUse, WalkUses, Target;
      forall x | x in r.order && x !in s.order
        ensures Reachable(w, r.pins, base, uses, x)
      {
        if x in t.order {
          ReachableStays(w, t.pins, r.pins, base, [uses[0]], x);
          MoreUses(w, r.pins, base, [uses[0]], uses, x);
        } else {
          MoreUses(w, r.pins, base, uses[1..], uses, x);
        }
      }
    }
  }

  lemma MoreUses(w: World, pins: Pins, base: Dir, few: seq<Use>, uses: seq<Use>, d: Dir)
    requires Reachable(w, pins, base, few, d) && forall u :: u in few ==> u in uses
    ensures Reachable(w, pins, base, uses, d)
  {
    hide Leads, Target;
  }

  lemma {:induction false} UseReaches(w: World, s: Progress, busy: set<Dir>, base: Dir, u: Use)
    ensures var t := WalkUse(w, s, busy, base, u);
      t.Some? ==> forall x :: x in t.value.order && x !in s.order ==> Reachable(w, t.value.pins, base, [u], x)
    decreases |w.modules.Keys - busy|, 1, 1
  {
    var t := WalkUse(w, s, busy, base, u);
    if t.Some? {
      UseFollows(w, s, busy, base, u);
      TargetMonotone(w, s.pins, t.value.pins, base, u);
      if RemoteOf(w, u).Some? {
        RemoteReaches(w, s, busy, RemoteOf(w, u).value);
      } else {
        DirReaches(w, s, busy, Target(w, s.pins, base, u).value);
      }
      assert u in [u];
      hide WalkDir, WalkRemote, Leads;
    }
  }

  lemma {:induction false} RemoteReaches(w: World, s: Progress, busy: set<Dir>, id: RemoteId)
    ensures var t := WalkRemote(w, s, busy, id);
      t.Some? && !Remembered(s, id) ==>
        RemoteTarget(w, s.pins, id).Some? && NewReached(w, s, t.value, RemoteTarget(w, s.pins, id).value)
    ensures Remembered(s, id) ==> WalkRemote(w, s, busy, id) == Some(s)
    decreases |w.modules.Keys - busy|, 1, 0
  {
    if WalkRemote(w, s, busy, id).Some? && !Remembered(s, id) {
      var d := RemoteTarget(w, s.pins, id).value;
      var noted := Noted(w, s, id, d);
      DirReaches(w, noted, busy, d);
      var t := WalkDir(w, noted, busy, d).value;
      AbsorbedFollows(w, t.(resolved := t.resolved[id := d]), d);
      var r := WalkRemote(w, s, busy, id).value;
      assert Extends(t.pins, r.pins) && r.order == t.order && noted.order == s.order;
      hide WalkDir, WalkRemote, Absorbed, Leads;
      forall x | x in r.order && x !in s.order
        ensures Leads(w, r.pins, d, x)
      {
        LeadsStays(w, t.pins, r.pins, d, x);
      }
    }
  }

  // --- When a project is sure to load -------------------------------------------------------------

  /** Everything the root's imports reach resolves with the pins the load starts with. */
  ghost predicate Settled(w: World, pins: Pins) {
    && (forall u :: u in w.uses ==> Target(w, pins, w.root, u).Some?)
    && (forall d :: Reachable(w, pins, w.root, w.uses, d) ==> !Unresolved(w, pins, d))
  }

  /** The modules whose tables are read: the root or something it reaches imports them as
      remotes. What is imported by a path or from the catalog only is not among them. */
  ghost predicate ReachedRemotely(w: World, pins: Pins, d: Dir) {
    || RemoteImport(w, pins, w.root, w.uses, d)
    || exists x :: Reachable(w, pins, w.root, w.uses, x) && x in w.modules && RemoteImport(w, pins, x, w.modules[x].uses, d)
  }

  ghost predicate RemoteImport(w: World, pins: Pins, base: Dir, uses: seq<Use>, d: Dir) {
    exists u :: u in uses && RemoteOf(w, u).Some? && Target(w, pins, base, u) == Some(d)
  }

  /** No table that is read names another pin than an effective one or than such a table. */
  ghost predicate TablesFit(w: World, pins: Pins) {
    && (forall d :: ReachedRemotely(w, pins, d) ==> !PinClash(w, pins, d))
    && (forall d, d' :: ReachedRemotely(w, pins, d) && ReachedRemotely(w, pins, d') ==> TablesAgree(w, d, d'))
  }

  ghost predicate TablesAgree(w: World, d: Dir, d': Dir) {
    d in w.modules && d' in w.modules ==>
      forall e, e' :: e in w.modules[d].require && e' in w.modules[d'].require ==> Agree(w.normalize, w.topLevel, e, e')
  }

  /** Every import of the root leads to sound modules only, and to no cycle. */
  ghost predicate SoundAndAcyclic(w: World, pins: Pins) {
    forall u :: u in w.uses ==>
      Target(w, pins, w.root, u).Some? && !Blocked(w, pins, {}, Target(w, pins, w.root, u).value)
  }

  ghost predicate NamesPin(w: World, e: Entry, k: RemoteId, pin: string) {
    Counts(w.normalize, w.topLevel, e) && Slot(w.normalize, e) == k && e.pin == pin
  }

  /** Every effective pin is one of the first ones or comes from a table that is read. */
  ghost predicate PinsFrom(w: World, first: Pins, pins: Pins) {
    && Extends(first, pins)
    && forall k :: k in pins ==> (k in first && first[k] == pins[k]) || PinNamed(w, first, k, pins[k])
  }

  ghost predicate PinNamed(w: World, first: Pins, k: RemoteId, pin: string) {
    exists d, e :: ReachedRemotely(w, first, d) && e in RequireOf(w, d) && NamesPin(w, e, k, pin)
  }

  lemma NoClashes(w: World, first: Pins, pins: Pins, d: Dir)
    requires TablesFit(w, first) && PinsFrom(w, first, pins) && ReachedRemotely(w, first, d)
    ensures Compatible(w.normalize, w.topLevel, pins, RequireOf(w, d))
  {
    hide ReachedRemotely;
    assert TablesAgree(w, d, d);
    forall e | e in RequireOf(w, d)
      ensures !Clash(w.normalize, w.topLevel, pins, e)
    {
      var k := Slot(w.normalize, e);
      if k in pins && !(k in first && first[k] == pins[k]) {
        var d', e' :| ReachedRemotely(w, first, d') && e' in RequireOf(w, d') && NamesPin(w, e', k, pins[k]);
        assert TablesAgree(w, d, d');
        assert Agree(w.normalize, w.topLevel, e, e');
      } else {
        assert !PinClash(w, first, d);
      }
    }
  }

  lemma AbsorbedFrom(w: World, first: Pins, s: Progress, d: Dir)
    requires TablesFit(w, first) && PinsFrom(w, first, s.pins) && ReachedRemotely(w, first, d)
    ensures Absorbed(w, s, d).Some? && PinsFrom(w, first, Absorbed(w, s, d).value.pins)
  {
    var entries := RequireOf(w, d);
    NoClashes(w, first, s.pins, d);
    MergeSucceedsExactly(w.normalize, w.topLevel, s.pins, entries);
    MergeExtends(w.normalize, w.topLevel, s.pins, entries);
    var pins := Merge(w.normalize, w.topLevel, s.pins, entries).pins;
    hide Merge, ReachedRemotely, TablesFit, Compatible, RequireOf;
    forall k | k in pins
      ensures (k in first && first[k] == pins[k]) || PinNamed(w, first, k, pins[k])
    {
      MergedPins(w.normalize, w.topLevel, s.pins, entries, k);
      if k !in s.pins {
        var e :| e in entries && Counts(w.normalize, w.topLevel, e) && Slot(w.normalize, e) == k;
        assert NamesPin(w, e, k, pins[k]);
      }
    }
  }

  lemma ReachableOn(w: World, pins: Pins, d: Dir, u: Use)
    requires Reachable(w, pins, w.root, w.uses, d) && d in w.modules && u in w.modules[d].uses
    requires Target(w, pins, d, u).Some?
    ensures Reachable(w, pins, w.root, w.uses, Target(w, pins, d, u).value)
  {
    var v :| v in w.uses && Target(w, pins, w.root, v).Some? && Leads(w, pins, Target(w, pins, w.root, v).value, d);
    LeadsOn(w, pins, Target(w, pins, w.root, v).value, d, Target(w, pins, d, u).value);
  }

  /** The imports of a reachable module or of the root, none of which is blocked. */
  ghost predicate Clear(w: World, first: Pins, busy: set<Dir>, base: Dir, uses: seq<Use>) {
    forall u :: u in uses ==>
      && Target(w, first, base, u).Some?
      && Reachable(w, first, w.root, w.uses, Target(w, first, base, u).value)
      && (RemoteOf(w, u).Some? ==> ReachedRemotely(w, first, Target(w, first, base, u).value))
      && !Blocked(w, first, busy, Target(w, first, base, u).value)
  }

  lemma ClearInside(w: World, first: Pins, busy: set<Dir>, d: Dir)
    requires Settled(w, first) && Reachable(w, first, w.root, w.uses, d) && !Blocked(w, first, busy, d)
    ensures d !in busy && !Broken(w, d) && Clear(w, first, busy + {d}, d, w.modules[d].uses)
  {
    if d in busy || Broken(w, d) || Unresolved(w, first, d) {
      BlockedHere(w, first, busy, d);
    }
    forall u | u in w.modules[d].uses
      ensures Target(w, first, d, u).Some?
      ensures Reachable(w, first, w.root, w.uses, Target(w, first, d, u).value)
      ensures RemoteOf(w, u).Some? ==> ReachedRemotely(w, first, Target(w, first, d, u).value)
      ensures !Blocked(w, first, busy + {d}, Target(w, first, d, u).value)
    {
      assert !Unresolved(w, first, d);
      var t := Target(w, first, d, u).value;
      ReachableOn(w, first, d, u);
      assert Edge(w, first, d, t);
      assert RemoteOf(w, u).Some? ==> RemoteImport(w, first, d, w.modules[d].uses, t);
      if Blocked(w, first, busy + {d}, t) {
        BlockedBack(w, first, busy, d, t);
      }
    }
  }

  lemma {:induction false} DirSucceeds(w: World, first: Pins, s: Progress, busy: set<Dir>, d: Dir)
    requires Settled(w, first) && TablesFit(w, first) && PinsFrom(w, first, s.pins)
    requires Reachable(w, first, w.root, w.uses, d) && !Blocked(w, first, busy, d)
    ensures WalkDir(w, s, busy, d).Some? && PinsFrom(w, first, WalkDir(w, s, busy, d).value.pins)
    decreases |w.modules.Keys - busy|, 0, 0
  {
    if d !in s.order {
      ClearInside(w, first, busy, d);
      BudgetDrops(w.modules.Keys, busy, d);
      hide Settled, TablesFit, PinsFrom, Reachable, ReachedRemotely, Blocked, Clear, WalkUses;
      UsesSucceed(w, first, s, busy + {d}, d, w.modules[d].uses);
    }
  }

  lemma {:induction false} UsesSucceed(w: World, first: Pins, s: Progress, busy: set<Dir>, base: Dir, uses: seq<Use>)
    requires Settled(w, first) && TablesFit(w, first) && PinsFrom(w, first, s.pins) && Clear(w, first, busy, base, uses)
    ensures WalkUses(w, s, busy, base, uses).Some? && PinsFrom(w, first, WalkUses(w, s, busy, base, uses).value.pins)
    decreases |w.modules.Keys - busy|, 2, |uses|
  {
    if uses != [] {
      hide Settled, TablesFit, PinsFrom, Reachable, ReachedRemotely, Blocked, WalkUse;
      UseSucceeds(w, first, s, busy, base, uses[0]);
      UsesSucceed(w, first, WalkUse(w, s, busy, base, uses[0]).value, busy, base, uses[1..]);
    }
  }

  lemma {:induction false} UseSucceeds(w: World, first: Pins, s: Progress, busy: set<Dir>, base: Dir, u: Use)
    requires Settled(w, first) && TablesFit(w, first) && PinsFrom(w, first, s.pins) && Clear(w, first, busy, base, [u])
    ensures WalkUse(w, s, busy, base, u).Some? && PinsFrom(w, first, WalkUse(w, s, busy, base, u).value.pins)
    decreases |w.modules.Keys - busy|, 1, 1
  {
    assert u in [u];
    TargetMonotone(w, first, s.pins, base, u);
    var d := Target(w, first, base, u).value;
    if RemoteOf(w, u).Some? {
      RemoteSucceeds(w, first, s, busy, RemoteOf(w, u).value, d);
    } else {
      DirSucceeds(w, first, s, busy, d);
    }
    hide Settled, TablesFit, PinsFrom, Reachable, ReachedRemotely, Blocked, WalkDir, WalkRemote;
  }

  lemma {:induction false} RemoteSucceeds(w: World, first: Pins, s: Progress, busy: set<Dir>, id: RemoteId, d: Dir)
    requires Settled(w, first) && TablesFit(w, first) && PinsFrom(w, first, s.pins) && RemoteTarget(w, s.pins, id) == Some(d)
    requires Reachable(w, first, w.root, w.uses, d) && ReachedRemotely(w, first, d) && !Blocked(w, first, busy, d)
    ensures WalkRemote(w, s, busy, id).Some? && PinsFrom(w, first, WalkRemote(w, s, busy, id).value.pins)
    decreases |w.modules.Keys - busy|, 1, 0
  {
    if !Remembered(s, id) {
      hide Settled, TablesFit, PinsFrom, Reachable, ReachedRemotely, Blocked, WalkDir, Absorbed, RemoteTarget;
      var noted := Noted(w, s, id, d);
      DirSucceeds(w, first, noted, busy, d);
      var t := WalkDir(w, noted, busy, d).value;
      AbsorbedFrom(w, first, t.(resolved := t.resolved[id := d]), d);
    }
  }

  function Start(pins: Pins): Progress {
    Progress(pins, [], map[])
  }

  lemma RootClear(w: World, pins: Pins)
    requires Settled(w, pins) && SoundAndAcyclic(w, pins)
    ensures Clear(w, pins, {}, w.root, w.uses)
  {
    hide Blocked;
    forall u | u in w.uses
      ensures Reachable(w, pins, w.root, w.uses, Target(w, pins, w.root, u).value)
      ensures RemoteOf(w, u).Some? ==> ReachedRemotely(w, pins, Target(w, pins, w.root, u).value)
    {
      var t := Target(w, pins, w.root, u).value;
      LeadsHere(w, pins, t);
      assert RemoteOf(w, u).Some? ==> RemoteImport(w, pins, w.root, w.uses, t);
    }
  }

  // --- What a load has done ------------------------------------------------------------------

  /** The pins of the module's table are effective, but for URLs the root pins. */
  ghost predicate Held(w: World, pins: Pins, d: Dir) {
    d in w.modules ==>
      forall e :: e in w.modules[d].require && w.normalize(e.url) !in w.topLevel ==>
        var slot := RemoteId(w.normalize(e.url), "");
        slot in pins && pins[slot] == e.pin
  }

  ghost predicate UseDone(w: World, s: Progress, base: Dir, u: Use) {
    var t := Target(w, s.pins, base, u);
    t.Some? && t.value in s.order && (RemoteOf(w, u).Some? ==> Held(w, s.pins, t.value))
  }

  ghost predicate UsesDone(w: World, s: Progress, base: Dir, uses: seq<Use>) {
    forall u :: u in uses ==> UseDone(w, s, base, u)
  }

  ghost predicate OrderDone(w: World, s: Progress) {
    forall x :: x in s.order && x in w.modules ==> UsesDone(w, s, x, w.modules[x].uses)
  }

  ghost predicate Loaded(w: World, s: Progress) {
    PostOrder(w, s.pins, s.order) && NoDuplicates(s.order) && OrderDone(w, s) && RemotesRight(w, s.pins, s.resolved)
  }

  ghost predicate Apart(s: Progress, busy: set<Dir>) {
    forall x :: x in s.order ==> x !in busy
  }

  /** What is resolved is loaded and its table taken over, or that is still to come. */
  ghost predicate Owed(w: World, s: Progress, pending: set<Dir>) {
    forall id :: id in s.resolved ==>
      s.resolved[id] in pending || (s.resolved[id] in s.order && Held(w, s.pins, s.resolved[id]))
  }

  ghost predicate NoneNew(s: Progress, t: Progress, pending: set<Dir>) {
    forall id :: id in t.resolved && t.resolved[id] in pending ==> id in s.resolved && s.resolved[id] == t.resolved[id]
  }

  ghost predicate Fine(w: World, s: Progress, busy: set<Dir>, pending: set<Dir>) {
    Loaded(w, s) && Apart(s, busy) && Owed(w, s, pending)
  }

  lemma HeldStays(w: World, pins: Pins, more: Pins, d: Dir)
    requires Held(w, pins, d) && Extends(pins, more)
    ensures Held(w, more, d)
  {
    hide RequireOf, Counts, Slot;
  }

  lemma UsesDoneStay(w: World, s: Progress, t: Progress, base: Dir, uses: seq<Use>)
    requires UsesDone(w, s, base, uses) && Extends(s.pins, t.pins) && s.order <= t.order
    ensures UsesDone(w, t, base, uses)
  {
    hide Held, Target;
    forall u | u in uses
      ensures UseDone(w, t, base, u)
    {
      TargetMonotone(w, s.pins, t.pins, base, u);
      var d := Target(w, s.pins, base, u).value;
      if RemoteOf(w, u).Some? {
        HeldStays(w, s.pins, t.pins, d);
      }
    }
  }

  lemma OrderDoneStays(w: World, s: Progress, t: Progress)
    requires OrderDone(w, s) && Extends(s.pins, t.pins) && s.order == t.order
    ensures OrderDone(w, t)
  {
    hide UsesDone;
    forall x | x in t.order && x in w.modules
      ensures UsesDone(w, t, x, w.modules[x].uses)
    {
      UsesDoneStay(w, s, t, x, w.modules[x].uses);
    }
  }

  lemma OneMoreDone(w: World, t: Progress, busy: set<Dir>, d: Dir)
    requires Loaded(w, t) && Apart(t, busy + {d}) && Owed(w, t, busy + {d}) && d !in busy && !Broken(w, d)
    requires UsesDone(w, t, d, w.modules[d].uses)
    ensures Fine(w, t.(order := t.order + [d]), busy, busy + {d})
  {
    var t' := t.(order := t.order + [d]);
    hide PostOrder, NoDuplicates, Held, RemotesRight;
    assert forall u :: u in w.modules[d].uses ==> UseDone(w, t, d, u);
    PostOrderAppend(w, t.pins, t.order, d);
    hide Broken, UsesDone;
    forall x | x in t'.order && x in w.modules
      ensures UsesDone(w, t', x, w.modules[x].uses)
    {
      assert x in t.order || x == d;
      assert UsesDone(w, t, x, w.modules[x].uses);
      UsesDoneStay(w, t, t', x, w.modules[x].uses);
    }
  }

  lemma {:induction false} DirLeaves(w: World, s: Progress, busy: set<Dir>, d: Dir)
    requires Fine(w, s, busy, busy + {d})
    ensures var t := WalkDir(w, s, busy, d);
      t.Some? ==> d in t.value.order && d !in busy && Fine(w, t.value, busy, busy + {d}) && NoneNew(s, t.value, busy + {d})
    decreases |w.modules.Keys - busy|, 0, 0
  {
    if WalkDir(w, s, busy, d).Some? && d !in s.order {
      BudgetDrops(w.modules.Keys, busy, d);
      var uses := w.modules[d].uses;
      hide Loaded, Owed, UsesDone, NoneNew, WalkUses;
      UsesLeave(w, s, busy + {d}, d, uses);
      OneMoreDone(w, WalkUses(w, s, busy + {d}, d, uses).value, busy, d);
      NoneNewOrder(s, WalkUses(w, s, busy + {d}, d, uses).value, busy + {d}, d);
    }
  }

  lemma NoneNewOrder(s: Progress, t: Progress, pending: set<Dir>, d: Dir)
    requires NoneNew(s, t, pending)
    ensures NoneNew(s, t.(order := t.order + [d]), pending)
  {
  }

  lemma NoneNewTransitive(s: Progress, t: Progress, r: Progress, pending: set<Dir>)
    requires NoneNew(s, t, pending) && NoneNew(t, r, pending)
    ensures NoneNew(s, r, pending)
  {
  }

  lemma {:induction false} UsesLeave(w: World, s: Progress, busy: set<Dir>, base: Dir, uses: seq<Use>)
    requires Fine(w, s, busy, busy)
    ensures var t := WalkUses(w, s, busy, base, uses);
      t.Some? ==> Fine(w, t.value, busy, busy) && NoneNew(s, t.value, busy) && UsesDone(w, t.value, base, uses)
    decreases |w.modules.Keys - busy|, 2, |uses|
  {
    if WalkUses(w, s, busy, base, uses).Some? && uses != [] {
      var t := WalkUse(w, s, busy, base, uses[0]).value;
      hide Fine, NoneNew, UsesDone, WalkUse;
      UseLeaves(w, s, busy, base, uses[0]);
      UsesLeave(w, t, busy, base, uses[1..]);
      UsesFollow(w, t, busy, base, uses[1..]);
      var r := WalkUses(w, t, busy, base, uses[1..]).value;
      NoneNewTransitive(s, t, r, busy);
      UsesDoneStay(w, t, r, base, [uses[0]]);
      UsesDoneJoin(w, r, base, uses);
    }
  }

  lemma UsesDoneJoin(w: World, s: Progress, base: Dir, uses: seq<Use>)
    requires uses != [] && UsesDone(w, s, base, [uses[0]]) && UsesDone(w, s, base, uses[1..])
    ensures UsesDone(w, s, base, uses)
  {
    hide UseDone;
    assert uses[0] in [uses[0]];
    assert forall u :: u in uses ==> u == uses[0] || u in uses[1..];
  }

  lemma {:induction false} UseLeaves(w: World, s: Progress, busy: set<Dir>, base: Dir, u: Use)
    requires Fine(w, s, busy, busy)
    ensures var t := WalkUse(w, s, busy, base, u);
      t.Some? ==> Fine(w, t.value, busy, busy) && NoneNew(s, t.value, busy) && UsesDone(w, t.value, base, [u])
    decreases |w.modules.Keys - busy|, 1, 1
  {
    var t := WalkUse(w, s, busy, base, u);
    if t.Some? {
      hide Fine, NoneNew, WalkDir, WalkRemote, Held, RemoteTarget;
      UseFollows(w, s, busy, base, u);
      TargetMonotone(w, s.pins, t.value.pins, base, u);
      if RemoteOf(w, u).Some? {
        RemoteLeaves(w, s, busy, RemoteOf(w, u).value);
      } else {
        LocalLeaves(w, s, busy, Target(w, s.pins, base, u).value);
      }
    }
  }

  lemma OwedMore(w: World, s: Progress, busy: set<Dir>, d: Dir)
    requires Fine(w, s, busy, busy)
    ensures Fine(w, s, busy, busy + {d})
  {
    hide Loaded, Held;
  }

  lemma {:induction false} LocalLeaves(w: World, s: Progress, busy: set<Dir>, d: Dir)
    requires Fine(w, s, busy, busy)
    ensures var t := WalkDir(w, s, busy, d);
      t.Some? ==> d in t.value.order && Fine(w, t.value, busy, busy) && NoneNew(s, t.value, busy)
    decreases |w.modules.Keys - busy|, 0, 1
  {
    hide WalkDir, Loaded, Held;
    OwedMore(w, s, busy, d);
    DirLeaves(w, s, busy, d);
    if WalkDir(w, s, busy, d).Some? {
      var t := WalkDir(w, s, busy, d).value;
      DirFollows(w, s, busy, d);
      forall id | id in t.resolved && t.resolved[id] == d
        ensures Held(w, t.pins, d)
      {
        assert id in s.resolved && s.resolved[id] == d;
        HeldStays(w, s.pins, t.pins, d);
      }
    }
  }

  lemma AbsorbedHeld(w: World, t: Progress, d: Dir)
    requires Absorbed(w, t, d).Some?
    ensures Held(w, Absorbed(w, t, d).value.pins, d)
  {
    hide Merge;
    if d in w.modules {
      var entries := w.modules[d].require;
      forall e | e in entries && w.normalize(e.url) !in w.topLevel
        ensures var pins, slot := Absorbed(w, t, d).value.pins, RemoteId(w.normalize(e.url), "");
          slot in pins && pins[slot] == e.pin
      {
        MergedPins(w.normalize, w.topLevel, t.pins, entries, RemoteId(w.normalize(e.url), ""));
      }
    }
  }

  lemma NotedFine(w: World, s: Progress, busy: set<Dir>, id: RemoteId, d: Dir)
    requires Fine(w, s, busy, busy + {d}) && RemoteTarget(w, s.pins, id) == Some(d)
    ensures Fine(w, Noted(w, s, id, d), busy, busy + {d}) && Fine(w, s.(resolved := s.resolved[id := d]), busy, busy + {d})
  {
    hide PostOrder, NoDuplicates, UsesDone, Held, RemoteTarget;
    var r := s.(resolved := s.resolved[id := d]);
    OrderDoneStays(w, s, r);
    hide OrderDone;
  }

  lemma AbsorbedFine(w: World, t: Progress, busy: set<Dir>, d: Dir)
    requires Fine(w, t, busy, busy + {d}) && d in t.order && Absorbed(w, t, d).Some?
    ensures Fine(w, Absorbed(w, t, d).value, busy, busy)
  {
    var r := Absorbed(w, t, d).value;
    AbsorbedFollows(w, t, d);
    AbsorbedHeld(w, t, d);
    assert r.order == t.order && r.resolved == t.resolved;
    hide Absorbed, Held;
    PostOrderMonotone(w, t.pins, r.pins, t.order);
    hide PostOrder, RemotesRight;
    OrderDoneStays(w, t, r);
    hide OrderDone;
    forall id | id in r.resolved && r.resolved[id] !in busy
      ensures r.resolved[id] in r.order && Held(w, r.pins, r.resolved[id])
    {
      if r.resolved[id] != d {
        HeldStays(w, t.pins, r.pins, r.resolved[id]);
      }
    }
  }

  lemma {:induction false} RemoteLeaves(w: World, s: Progress, busy: set<Dir>, id: RemoteId)
    requires Fine(w, s, busy, busy)
    ensures var t := WalkRemote(w, s, busy, id);
      t.Some? ==>
        && Fine(w, t.value, busy, busy) && NoneNew(s, t.value, busy)
        && var d := RemoteTarget(w, s.pins, id); d.Some? && d.value in t.value.order && Held(w, t.value.pins, d.value)
    decreases |w.modules.Keys - busy|, 1, 0
  {
    if WalkRemote(w, s, busy, id).Some? {
      hide Fine, NoneNew, Held, WalkDir, Absorbed, RemoteTarget;
      if Remembered(s, id) {
        RememberedHeld(w, s, busy, id);
      } else {
        var d := RemoteTarget(w, s.pins, id).value;
        var noted := Noted(w, s, id, d);
        OwedMore(w, s, busy, d);
        NotedFine(w, s, busy, id, d);
        DirLeaves(w, noted, busy, d);
        DirFollows(w, noted, busy, d);
        var t := WalkDir(w, noted, busy, d).value;
        RemoteStays(w, s.pins, t.pins, id);
        NotedFine(w, t, busy, id, d);
        var r := t.(resolved := t.resolved[id := d]);
        AbsorbedFine(w, r, busy, d);
        AbsorbedHeld(w, r, d);
        AbsorbedAdds(w, r, d);
        NoneNewPast(w, s, t, Absorbed(w, r, d).value, busy, id, d);
      }
    }
  }

  lemma RememberedHeld(w: World, s: Progress, busy: set<Dir>, id: RemoteId)
    requires Fine(w, s, busy, busy) && Remembered(s, id)
    ensures RemoteTarget(w, s.pins, id) == Some(s.resolved[id]) && s.resolved[id] in s.order && Held(w, s.pins, s.resolved[id])
    ensures NoneNew(s, s, busy)
  {
    hide PostOrder, NoDuplicates, OrderDone, Held, RemoteTarget;
  }

  lemma NoneNewPast(w: World, s: Progress, t: Progress, r: Progress, busy: set<Dir>, id: RemoteId, d: Dir)
    requires NoneNew(Noted(w, s, id, d), t, busy + {d}) && d !in busy && r.resolved == t.resolved[id := d]
    ensures NoneNew(s, r, busy)
  {
    hide FindReplace;
  }

  lemma AbsorbedAdds(w: World, t: Progress, d: Dir)
    requires Absorbed(w, t, d).Some?
    ensures var r := Absorbed(w, t, d).value; r.order == t.order && r.resolved == t.resolved
  {
    hide Merge;
  }

  /** Everything that can be reached from the listed imports of the root is listed. */
  lemma ReachableListed(w: World, pins: Pins, order: seq<Dir>, d: Dir)
    requires PostOrder(w, pins, order) && Reachable(w, pins, w.root, w.uses, d)
    requires forall u :: u in w.uses && Target(w, pins, w.root, u).Some? ==> Target(w, pins, w.root, u).value in order
    ensures d in order
  {
    var u :| u in w.uses && Target(w, pins, w.root, u).Some? && Leads(w, pins, Target(w, pins, w.root, u).value, d);
    var p :| Path(w, pins, p) && p[0] == Target(w, pins, w.root, u).value && Last(p) == d;
    var dirs := set x | x in order;
    forall a, b | a in dirs && Edge(w, pins, a, b)
      ensures b in dirs
    {
      var k :| 0 <= k < |order| && order[k] == a;
      PostOrderAt(w, pins, order, k);
    }
    hide Edge, PostOrder, Target;
    PathStaysIn(w, pins, dirs, p);
  }

  lemma {:induction false} PathStaysIn(w: World, pins: Pins, dirs: set<Dir>, p: seq<Dir>)
    requires Path(w, pins, p) && p[0] in dirs && forall a, b :: a in dirs && Edge(w, pins, a, b) ==> b in dirs
    ensures Last(p) in dirs
  {
    if |p| > 1 {
      PathTail(w, pins, p);
      PathStaysIn(w, pins, dirs, p[1..]);
    }
  }

  /** When the load has succeeded every table that is read is held. */
  lemma RemotesHeld(w: World, pins: Pins, t: Progress, d: Dir)
    requires Loaded(w, t) && UsesDone(w, t, w.root, w.uses) && Extends(pins, t.pins) && ReachedRemotely(w, pins, d)
    ensures Held(w, t.pins, d)
  {
    hide Held, PostOrder, Target;
    if RemoteImport(w, pins, w.root, w.uses, d) {
      ImportHeld(w, pins, t, w.root, w.uses, d);
    } else {
      var x :| Reachable(w, pins, w.root, w.uses, x) && x in w.modules && RemoteImport(w, pins, x, w.modules[x].uses, d);
      ReachableStays(w, pins, t.pins, w.root, w.uses, x);
      ReachableListed(w, t.pins, t.order, x);
      ImportHeld(w, pins, t, x, w.modules[x].uses, d);
    }
  }

  lemma ImportHeld(w: World, pins: Pins, t: Progress, base: Dir, uses: seq<Use>, d: Dir)
    requires UsesDone(w, t, base, uses) && Extends(pins, t.pins) && RemoteImport(w, pins, base, uses, d)
    ensures Held(w, t.pins, d)
  {
    hide Held, Target;
    var u :| u in uses && RemoteOf(w, u).Some? && Target(w, pins, base, u) == Some(d);
    TargetMonotone(w, pins, t.pins, base, u);
    assert UseDone(w, t, base, u);
  }

  lemma HeldFit(w: World, pins: Pins, more: Pins)
    requires Extends(pins, more) && forall d :: ReachedRemotely(w, pins, d) ==> Held(w, more, d)
    ensures TablesFit(w, pins)
  {
    hide ReachedRemotely;
  }

  // --- When a project loads ----------------------------------------------------------------------

  /** Where pins are settled, what the load depends on can be told before it: that the graph
      is sound, has no cycle, and that the tables that are read fit. */
  lemma SettledLoadsExactly(w: World, pins: Pins)
    requires Settled(w, pins)
    ensures WalkUses(w, Start(pins), {}, w.root, w.uses).Some? <==> SoundAndAcyclic(w, pins) && TablesFit(w, pins)
  {
    hide Settled, SoundAndAcyclic, TablesFit, WalkUses, Target;
    if SoundAndAcyclic(w, pins) && TablesFit(w, pins) {
      RootClear(w, pins);
      UsesSucceed(w, pins, Start(pins), {}, w.root, w.uses);
    } else if WalkUses(w, Start(pins), {}, w.root, w.uses).Some? {
      LoadedFits(w, pins);
    }
  }

  lemma LoadedFits(w: World, pins: Pins)
    requires Settled(w, pins) && WalkUses(w, Start(pins), {}, w.root, w.uses).Some?
    ensures SoundAndAcyclic(w, pins) && TablesFit(w, pins)
  {
    var t := WalkUses(w, Start(pins), {}, w.root, w.uses).value;
    UsesLeave(w, Start(pins), {}, w.root, w.uses);
    UsesFollow(w, Start(pins), {}, w.root, w.uses);
    hide WalkUses, Settled, SoundAndAcyclic, TablesFit, ReachedRemotely, Held;
    forall d | ReachedRemotely(w, pins, d)
      ensures Held(w, t.pins, d)
    {
      RemotesHeld(w, pins, t, d);
    }
    HeldFit(w, pins, t.pins);
    DoneIsSound(w, t);
    SoundnessStays(w, pins, t.pins);
  }

  lemma DoneIsSound(w: World, t: Progress)
    requires Loaded(w, t) && UsesDone(w, t, w.root, w.uses)
    ensures SoundAndAcyclic(w, t.pins)
  {
    hide PostOrder, NoDuplicates, OrderDone, Held, Blocked, Target;
    forall u | u in w.uses
      ensures Target(w, t.pins, w.root, u).Some? && !Blocked(w, t.pins, {}, Target(w, t.pins, w.root, u).value)
    {
      assert UseDone(w, t, w.root, u);
      PostOrderNotBlocked(w, t.pins, t.order, {}, Target(w, t.pins, w.root, u).value);
    }
  }

  /** There the pins merged on the way change nothing about soundness or cycles. */
  lemma SoundnessStays(w: World, pins: Pins, more: Pins)
    requires Settled(w, pins) && Extends(pins, more)
    ensures SoundAndAcyclic(w, pins) <==> SoundAndAcyclic(w, more)
  {
    hide Blocked, Target;
    forall u | u in w.uses
      ensures Target(w, pins, w.root, u).Some? && Target(w, more, w.root, u) == Target(w, pins, w.root, u)
      ensures var t := Target(w, pins, w.root, u).value; Blocked(w, pins, {}, t) <==> Blocked(w, more, {}, t)
    {
      TargetMonotone(w, pins, more, w.root, u);
      LeadsHere(w, pins, Target(w, pins, w.root, u).value);
      BlockedAlike(w, pins, more, Target(w, pins, w.root, u).value);
    }
  }

  lemma BlockedAlike(w: World, pins: Pins, more: Pins, d: Dir)
    requires Settled(w, pins) && Extends(pins, more) && Reachable(w, pins, w.root, w.uses, d)
    ensures Blocked(w, pins, {}, d) <==> Blocked(w, more, {}, d)
  {
    hide Settled, Reachable, Edge, Unresolved, Broken;
    if Blocked(w, pins, {}, d) {
      var p :| Dead(w, pins, {}, p) && p[0] == d;
      DeadStays(w, pins, more, p);
    }
    if Blocked(w, more, {}, d) {
      var p :| Dead(w, more, {}, p) && p[0] == d;
      DeadWasDead(w, pins, more, p);
    }
  }

  lemma DeadStays(w: World, pins: Pins, more: Pins, p: seq<Dir>)
    requires Settled(w, pins) && Extends(pins, more) && Dead(w, pins, {}, p) && Reachable(w, pins, w.root, w.uses, p[0])
    ensures Dead(w, more, {}, p)
  {
    forall i | 0 <= i < |p| - 1
      ensures Edge(w, more, p[i], p[i + 1])
    {
      EdgeStays(w, pins, more, p[i], p[i + 1]);
    }
    LeadsFurther(w, pins, p);
  }

  lemma LeadsFurther(w: World, pins: Pins, p: seq<Dir>)
    requires Path(w, pins, p) && Reachable(w, pins, w.root, w.uses, p[0])
    ensures Reachable(w, pins, w.root, w.uses, Last(p))
    decreases |p|
  {
    if |p| > 1 {
      PathFront(w, pins, p);
      LeadsFurther(w, pins, p[..|p| - 1]);
      ReachableEdge(w, pins, p[|p| - 2], Last(p));
    }
  }

  lemma ReachableEdge(w: World, pins: Pins, a: Dir, b: Dir)
    requires Reachable(w, pins, w.root, w.uses, a) && Edge(w, pins, a, b)
    ensures Reachable(w, pins, w.root, w.uses, b)
  {
    var u :| u in w.modules[a].uses && Target(w, pins, a, u) == Some(b);
    ReachableOn(w, pins, a, u);
  }

  lemma {:induction false} PathWasPath(w: World, pins: Pins, more: Pins, p: seq<Dir>)
    requires Settled(w, pins) && Extends(pins, more) && Path(w, more, p) && Reachable(w, pins, w.root, w.uses, p[0])
    ensures Path(w, pins, p)
    decreases |p|
  {
    if |p| > 1 {
      PathFront(w, more, p);
      var front := p[..|p| - 1];
      PathWasPath(w, pins, more, front);
      LeadsFurther(w, pins, front);
      var a, b := Last(front), Last(p);
      hide Reachable, Path;
      var u :| u in w.modules[a].uses && Target(w, more, a, u) == Some(b);
      assert !Unresolved(w, pins, a);
      TargetMonotone(w, pins, more, a, u);
      assert Edge(w, pins, a, b);
      PathSnoc(w, pins, front, b);
      assert front + [b] == p;
    }
  }

  lemma DeadWasDead(w: World, pins: Pins, more: Pins, p: seq<Dir>)
    requires Settled(w, pins) && Extends(pins, more) && Dead(w, more, {}, p) && Reachable(w, pins, w.root, w.uses, p[0])
    ensures Dead(w, pins, {}, p)
  {
    PathWasPath(w, pins, more, p);
    LeadsFurther(w, pins, p);
    var d := Last(p);
    hide Reachable, Path;
    if d in w.modules {
      forall u | u in w.modules[d].uses
        ensures Target(w, more, d, u).Some?
      {
        TargetMonotone(w, pins, more, d, u);
      }
    }
  }

  // --- A pin that comes too late -------------------------------------------------------------------

  const PROJECT: Dir := ["r"]
  const PARSER: Dir := ["p"]
  const TOKENIZER: Dir := ["t"]

  /** The project imports a parser, and the parser a tokenizer, which its own table pins. */
  function LateWorld(normalize: string -> string, parser: string, tokenizer: string, top: set<string>): World {
    var parserId, tokenizerId := RemoteId(normalize(parser), ""), RemoteId(normalize(tokenizer), "");
    World(PROJECT, [Sourced(parser)], top, [], map[], map[],
          map[(parserId, "1") := PARSER, (tokenizerId, "1") := TOKENIZER],
          map[PARSER := Module(true, [Sourced(tokenizer)], true, [Entry(tokenizer, "1")]),
              TOKENIZER := Module(true, [], true, [])],
          normalize)
  }

  /** Names of remotes that normalise to themselves, as "host/name" does. */
  predicate PlainName(normalize: string -> string, name: string) {
    !IsLocalPath(name) && normalize(name) == name
  }

  lemma LateTargets(normalize: string -> string, parser: string, tokenizer: string, top: set<string>, pins: Pins, base: Dir)
    requires PlainName(normalize, parser) && PlainName(normalize, tokenizer) && parser != tokenizer
    requires forall k :: k in pins ==> pins[k] == "1"
    ensures var w := LateWorld(normalize, parser, tokenizer, top);
      && Target(w, pins, base, Sourced(parser)) == (if RemoteId(parser, "") in pins then Some(PARSER) else None)
      && Target(w, pins, base, Sourced(tokenizer)) == (if RemoteId(tokenizer, "") in pins then Some(TOKENIZER) else None)
      && RemoteOf(w, Sourced(parser)) == Some(RemoteId(parser, ""))
      && RemoteOf(w, Sourced(tokenizer)) == Some(RemoteId(tokenizer, ""))
      && RemoteTarget(w, pins, RemoteId(parser, "")) == Target(w, pins, base, Sourced(parser))
      && RemoteTarget(w, pins, RemoteId(tokenizer, "")) == Target(w, pins, base, Sourced(tokenizer))
  {
  }

  lemma LateWorldProper(normalize: string -> string, parser: string, tokenizer: string, top: set<string>)
    requires PlainName(normalize, parser) && PlainName(normalize, tokenizer)
    ensures var w := LateWorld(normalize, parser, tokenizer, top); CleanWorld(w) && WellNamed(w)
    ensures PARSER != TOKENIZER
  {
    assert PARSER[0] == "p" && TOKENIZER[0] == "t" && "p"[0] != "t"[0];
    var w := LateWorld(normalize, parser, tokenizer, top);
    forall u | Known(w, u)
      ensures u == Sourced(parser) || u == Sourced(tokenizer)
    {
    }
  }

  /** With the parser pinned by the root, and the tokenizer by the parser's table alone, the
      load fails: the table is read after the import it was for. */
  lemma LatePinFails(normalize: string -> string, parser: string, tokenizer: string)
    requires PlainName(normalize, parser) && PlainName(normalize, tokenizer) && parser != tokenizer
    ensures var w := LateWorld(normalize, parser, tokenizer, {parser});
      var pins := map[RemoteId(parser, "") := "1"];
      && CleanWorld(w) && WellNamed(w)
      && Merge(w.normalize, w.topLevel, pins, w.modules[PARSER].require) == Merged(pins[RemoteId(tokenizer, "") := "1"])
      && WalkUses(w, Start(pins), {}, w.root, w.uses) == None
  {
    var w := LateWorld(normalize, parser, tokenizer, {parser});
    var pins := map[RemoteId(parser, "") := "1"];
    LateWorldProper(normalize, parser, tokenizer, {parser});
    LateTargets(normalize, parser, tokenizer, {parser}, pins, w.root);
    LateTargets(normalize, parser, tokenizer, {parser}, pins, PARSER);
    var s := Noted(w, Start(pins), RemoteId(parser, ""), PARSER);
    assert w.modules[PARSER].require[1..] == [];
    hide Target, RemoteTarget, RemoteOf;
    SingleUse(w, s, {} + {PARSER}, PARSER, Sourced(tokenizer));
    assert WalkDir(w, s, {}, PARSER) == None;
    SingleUse(w, Start(pins), {}, w.root, Sourced(parser));
  }

  /** With both pinned by the root everything is settled, sound and without cycles, and it
      loads: in particular there are such worlds. */
  lemma PinnedInTimeLoads(normalize: string -> string, parser: string, tokenizer: string)
    requires PlainName(normalize, parser) && PlainName(normalize, tokenizer) && parser != tokenizer
    ensures var w := LateWorld(normalize, parser, tokenizer, {parser, tokenizer});
      var pins := map[RemoteId(parser, "") := "1", RemoteId(tokenizer, "") := "1"];
      && CleanWorld(w) && WellNamed(w) && Settled(w, pins) && SoundAndAcyclic(w, pins) && TablesFit(w, pins)
      && WalkUses(w, Start(pins), {}, w.root, w.uses).Some?
  {
    var top := {parser, tokenizer};
    var w := LateWorld(normalize, parser, tokenizer, top);
    var pins := map[RemoteId(parser, "") := "1", RemoteId(tokenizer, "") := "1"];
    LateWorldProper(normalize, parser, tokenizer, top);
    LateTargets(normalize, parser, tokenizer, top, pins, w.root);
    LateTargets(normalize, parser, tokenizer, top, pins, PARSER);
    LateOrder(normalize, parser, tokenizer);
    PostOrderNotBlocked(w, pins, [TOKENIZER, PARSER], {}, PARSER);
    LateReachable(normalize, parser, tokenizer);
    assert forall d, e :: e in RequireOf(w, d) ==> !Counts(normalize, top, e);
    hide Reachable, ReachedRemotely, Blocked, PostOrder, WalkUses, Target;
    SettledLoadsExactly(w, pins);
  }

  lemma LateOrder(normalize: string -> string, parser: string, tokenizer: string)
    requires PlainName(normalize, parser) && PlainName(normalize, tokenizer) && parser != tokenizer
    ensures var w := LateWorld(normalize, parser, tokenizer, {parser, tokenizer});
      var pins := map[RemoteId(parser, "") := "1", RemoteId(tokenizer, "") := "1"];
      PostOrder(w, pins, [TOKENIZER, PARSER]) && NoDuplicates([TOKENIZER, PARSER])
  {
    var w := LateWorld(normalize, parser, tokenizer, {parser, tokenizer});
    var pins := map[RemoteId(parser, "") := "1", RemoteId(tokenizer, "") := "1"];
    LateWorldProper(normalize, parser, tokenizer, {parser, tokenizer});
    LateTargets(normalize, parser, tokenizer, {parser, tokenizer}, pins, PARSER);
    hide Target;
    PostOrderAppend(w, pins, [], TOKENIZER);
    PostOrderAppend(w, pins, [TOKENIZER], PARSER);
    assert [] + [TOKENIZER] == [TOKENIZER] && [TOKENIZER] + [PARSER] == [TOKENIZER, PARSER];
  }

  lemma LateReachable(normalize: string -> string, parser: string, tokenizer: string)
    requires PlainName(normalize, parser) && PlainName(normalize, tokenizer) && parser != tokenizer
    ensures var w := LateWorld(normalize, parser, tokenizer, {parser, tokenizer});
      var pins := map[RemoteId(parser, "") := "1", RemoteId(tokenizer, "") := "1"];
      forall d :: Reachable(w, pins, w.root, w.uses, d) ==> (d == PARSER || d == TOKENIZER) && !Unresolved(w, pins, d)
  {
    var w := LateWorld(normalize, parser, tokenizer, {parser, tokenizer});
    var pins := map[RemoteId(parser, "") := "1", RemoteId(tokenizer, "") := "1"];
    LateTargets(normalize, parser, tokenizer, {parser, tokenizer}, pins, w.root);
    LateTargets(normalize, parser, tokenizer, {parser, tokenizer}, pins, PARSER);
    hide Target;
    forall d | Reachable(w, pins, w.root, w.uses, d)
      ensures d in {PARSER, TOKENIZER}
    {
      var p :| Path(w, pins, p) && p[0] == PARSER && Last(p) == d;
      PathStaysIn(w, pins, {PARSER, TOKENIZER}, p);
    }
  }

  function AsGiven(url: string): string {
    url
  }

  /** The normaliser need not refuse anything for that: one that leaves "" and "./x" as they
      are will do. */
  lemma SettledWorldExists()
    ensures AsGiven("") == "" && AsGiven("./x") == "./x"
    ensures var w := LateWorld(AsGiven, "h/p", "h/t", {"h/p", "h/t"});
      var pins := map[RemoteId("h/p", "") := "1", RemoteId("h/t", "") := "1"];
      |w.modules| == 2 && CleanWorld(w) && WellNamed(w) && Settled(w, pins) && SoundAndAcyclic(w, pins) && TablesFit(w, pins)
  {
    assert "h/p"[2] != "h/t"[2] && "h/p"[0] == "h/t"[0] == 'h';
    assert "./"[0] == "../"[0] == '.' && "/"[0] == '/';
    LateWorldProper(AsGiven, "h/p", "h/t", {"h/p", "h/t"});
    PinnedInTimeLoads(AsGiven, "h/p", "h/t");
  }
}
