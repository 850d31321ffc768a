/**
 Epoch compatibility: a recursive verdict over the graph of pinned modules, answered from
 and saved to a verdict cache, and the walk back through a module's epoch tags.

 Everything below is for one project epoch and one compiler build, the ones a verdict
 is recorded under.
 */
module EpochCompat {
  import opened Wrappers

  /** A module at a commit: normalised URL with subdirectory, and commit. */
  datatype Key = Key(identity: string, commit: string)

  /** A pinned dependency as written in a manifest; url or commit may be empty. */
  datatype Pin = Pin(url: string, subdir: string, commit: string)

  /** What fetching a module at a commit yields. */
  datatype Checkout =
    | FetchError
    | NoManifest
    | BadManifest
    | Manifest(require: seq<Pin>, named: seq<Pin>)

  /** What compiling and testing a module alone yields; an error is one of running the gate. */
  datatype Gate = Passes | Fails | GateError

  datatype World = World(
    keys: set<Key>,                    // the finitely many modules the pins can name
    checkout: Key -> Checkout,
    gate: Key -> Gate,
    identify: (string, string) -> string)

  datatype Verdict = Compatible | Incompatible | Aborted

  function KeyOf(w: World, p: Pin): Key {
    Key(w.identify(p.url, p.subdir), p.commit)
  }

  /** The pins verification follows: a [require] entry without a commit is not a git pin,
      and a named one needs both fields. */
  function Followed(w: World, k: Key): seq<Pin> {
    match w.checkout(k)
    case Manifest(require, named) => GitPins(require) + FullPins(named)
    case _ => []
  }

  function GitPins(ps: seq<Pin>): seq<Pin> {
    if ps == [] then []
    else (if ps[0].commit == "" then [] else [ps[0].(subdir := "")]) + GitPins(ps[1..])
  }

  function FullPins(ps: seq<Pin>): seq<Pin> {
    if ps == [] then []
    else (if ps[0].url == "" || ps[0].commit == "" then [] else [ps[0]]) + FullPins(ps[1..])
  }

  lemma {:induction false} InGitPins(ps: seq<Pin>, p: Pin)
    ensures p in GitPins(ps) <==> exists e :: e in ps && e.commit != "" && p == Pin(e.url, "", e.commit)
  {
    if ps != [] {
      InGitPins(ps[1..], p);
      assert ps[0] in ps && forall e :: e in ps <==> e == ps[0] || e in ps[1..];
    }
  }

  lemma {:induction false} InFullPins(ps: seq<Pin>, p: Pin)
    ensures p in FullPins(ps) <==> p in ps && p.url != "" && p.commit != ""
  {
    if ps != [] {
      InFullPins(ps[1..], p);
    }
  }

  /** Which pins are followed: every [require] entry with a commit, at the root of its
      repository, and every named one with url and commit, at its subdirectory. */
  lemma FollowedExactly(w: World, k: Key, require: seq<Pin>, named: seq<Pin>, p: Pin)
    requires w.checkout(k) == Manifest(require, named)
    ensures p in Followed(w, k)
       <==> (exists e :: e in require && e.commit != "" && p == Pin(e.url, "", e.commit))
            || (p in named && p.url != "" && p.commit != "")
  {
    InGitPins(require, p);
    InFullPins(named, p);
    hide GitPins, FullPins;
  }

  ghost predicate Dep(w: World, a: Key, b: Key) {
    exists p :: p in Followed(w, a) && KeyOf(w, p) == b
  }

  /** Pins lead only to known modules. */
  ghost predicate Closed(w: World) {
    forall a, b :: a in w.keys && Dep(w, a, b) ==> b in w.keys
  }

  /** The module's own gate, its manifest included. */
  predicate OwnGate(w: World, k: Key) {
    w.checkout(k).Manifest? && w.gate(k) == Passes
  }

  /** Running the gate on the module itself cannot come to a verdict. */
  predicate Unanswerable(w: World, k: Key) {
    w.checkout(k).FetchError? || (w.checkout(k).Manifest? && w.gate(k) == GateError)
  }

  // --- Reachability -----------------------------------------------------------------

  ghost predicate Chain(w: World, c: seq<Key>) {
    c != [] && forall i :: 0 <= i < |c| - 1 ==> Dep(w, c[i], c[i + 1])
  }

  ghost predicate Reaches(w: World, a: Key, b: Key) {
    exists c :: Chain(w, c) && c[0] == a && c[|c| - 1] == b
  }

  /** The module and everything it pins, transitively, passes. */
  ghost predicate AllPass(w: World, k: Key) {
    forall r :: Reaches(w, k, r) ==> OwnGate(w, r)
  }

  lemma ReachesItself(w: World, k: Key)
    ensures Reaches(w, k, k)
  {
    assert Chain(w, [k]);
  }

  lemma ReachesThrough(w: World, a: Key, b: Key, r: Key)
    requires Dep(w, a, b) && Reaches(w, b, r)
    ensures Reaches(w, a, r)
  {
    var c :| Chain(w, c) && c[0] == b && c[|c| - 1] == r;
    var d := [a] + c;
    assert forall i :: 0 < i < |d| ==> d[i] == c[i - 1];
    assert Chain(w, d);
    assert d[|d| - 1] == r;
  }

  lemma OwnGateDecides(w: World, k: Key)
    ensures AllPass(w, k) ==> OwnGate(w, k)
    ensures Unanswerable(w, k) ==> exists r :: Reaches(w, k, r) && Unanswerable(w, r)
  {
    ReachesItself(w, k);
  }

  lemma FailureSpreads(w: World, a: Key, b: Key)
    requires Dep(w, a, b) && !AllPass(w, b)
    ensures !AllPass(w, a)
  {
    var r :| Reaches(w, b, r) && !OwnGate(w, r);
    ReachesThrough(w, a, b, r);
  }

  /** A set of passing modules closed under pins passes as a whole. */
  lemma {:induction false} ClosedSetPasses(w: World, s: set<Key>, c: seq<Key>)
    requires forall a :: a in s ==> OwnGate(w, a) && forall b :: Dep(w, a, b) ==> b in s
    requires Chain(w, c) && c[0] in s
    ensures c[|c| - 1] in s
    decreases |c|
  {
    if |c| > 1 {
      assert Dep(w, c[0], c[1]);
      var rest := c[1..];
      forall i | 0 <= i < |rest| - 1 ensures Dep(w, rest[i], rest[i + 1]) {
        assert Dep(w, c[i + 1], c[i + 2]);
      }
      ClosedSetPasses(w, s, rest);
    }
  }

  // --- The verdict, as a function of the cache ---------------------------------------

  type Cache = map<Key, bool>

  /** The verdict on one module and the cache afterwards, `visiting` being the modules
      whose verification is under way. */
  function Verify(w: World, visiting: set<Key>, cache: Cache, k: Key): (Verdict, Cache)
    requires Closed(w) && k in w.keys
    decreases |w.keys - visiting|, 0
  {
    if k in cache then (if cache[k] then Compatible else Incompatible, cache)
    else if k in visiting then (Compatible, cache)
    else
      match w.checkout(k)
      case FetchError => (Aborted, cache)
      case NoManifest => (Incompatible, cache[k := false])
      case BadManifest => (Incompatible, cache[k := false])
      case Manifest(_, _) =>
        BudgetDrops(w.keys, visiting, k);
        PinsKnown(w, k);
        var (deps, after) := VerifyPins(w, visiting + {k}, cache, Followed(w, k));
        if deps.Aborted? || (deps.Compatible? && w.gate(k).GateError?) then (Aborted, after)
        else
          var ok := deps.Compatible? && w.gate(k).Passes?;
          (if ok then Compatible else Incompatible, after[k := ok])
  }

  /** The verdict on a list of pins: the first failure decides. */
  function VerifyPins(w: World, visiting: set<Key>, cache: Cache, pins: seq<Pin>): (Verdict, Cache)
    requires Closed(w) && forall p :: p in pins ==> KeyOf(w, p) in w.keys
    decreases |w.keys - visiting|, 1, |pins|
  {
    if pins == [] then (Compatible, cache)
    else
      var (v, after) := Verify(w, visiting, cache, KeyOf(w, pins[0]));
      if v.Compatible? then VerifyPins(w, visiting, after, pins[1..]) else (v, after)
  }

  lemma PinsKnown(w: World, k: Key)
    requires Closed(w) && k in w.keys
    ensures forall p :: p in Followed(w, k) ==> KeyOf(w, p) in w.keys && Dep(w, k, KeyOf(w, p))
  {
  }

  lemma VerifyFresh(w: World, visiting: set<Key>, cache: Cache, k: Key)
    requires Closed(w) && k in w.keys && k !in cache && k !in visiting && w.checkout(k).Manifest?
    ensures forall p :: p in Followed(w, k) ==> KeyOf(w, p) in w.keys && Dep(w, k, KeyOf(w, p))
    ensures |w.keys - (visiting + {k})| < |w.keys - visiting|
    ensures var (deps, after) := VerifyPins(w, visiting + {k}, cache, Followed(w, k));
      Verify(w, visiting, cache, k) ==
        if deps.Aborted? || (deps.Compatible? && w.gate(k).GateError?) then (Aborted, after)
        else
          var ok := deps.Compatible? && w.gate(k).Passes?;
          (if ok then Compatible else Incompatible, after[k := ok])
  {
    hide Followed, Dep, VerifyPins, Closed;
    BudgetDrops(w.keys, visiting, k);
    PinsKnown(w, k);
  }

  lemma VerifyNextPin(w: World, visiting: set<Key>, cache: Cache, pins: seq<Pin>)
    requires Closed(w) && (forall p :: p in pins ==> KeyOf(w, p) in w.keys) && pins != []
    ensures var (v, after) := Verify(w, visiting, cache, KeyOf(w, pins[0]));
      VerifyPins(w, visiting, cache, pins) == if v.Compatible? then VerifyPins(w, visiting, after, pins[1..]) else (v, after)
  {
    hide Verify, Closed, KeyOf;
  }

  lemma {:induction false} VerifyPinsConcat(w: World, visiting: set<Key>, cache: Cache, a: seq<Pin>, b: seq<Pin>)
    requires Closed(w) && (forall p :: p in a ==> KeyOf(w, p) in w.keys) && (forall p :: p in b ==> KeyOf(w, p) in w.keys)
    ensures var (v, after) := VerifyPins(w, visiting, cache, a);
      VerifyPins(w, visiting, cache, a + b) == if v.Compatible? then VerifyPins(w, visiting, after, b) else (v, after)
    decreases |a|
  {
    if a == [] {
      assert a + b == b;
    } else {
      assert (a + b)[1..] == a[1..] + b;
      VerifyPinsConcat(w, visiting, Verify(w, visiting, cache, KeyOf(w, a[0])).1, a[1..], b);
    }
  }

  // --- What verdicts mean ----------------------------------------------------------------

  predicate Accepted(cache: Cache, k: Key) {
    k in cache && cache[k]
  }

  ghost predicate Accurate(w: World, cache: Cache) {
    forall k :: k in cache ==> cache[k] == AllPass(w, k)
  }

  /** No rejection is unjustified. */
  ghost predicate RejectsRightly(w: World, cache: Cache) {
    forall k :: k in cache && !cache[k] ==> !AllPass(w, k)
  }

  /** An accepted module is fine altogether, or it passes its own gate and each of its pins
      is accepted or still being verified further up. */
  ghost predicate JustifiedUpTo(w: World, cache: Cache, visiting: set<Key>, k: Key) {
    || AllPass(w, k)
    || (OwnGate(w, k) && forall d :: Dep(w, k, d) ==> Accepted(cache, d) || d in visiting)
  }

  ghost predicate AcceptsUpTo(w: World, cache: Cache, visiting: set<Key>) {
    forall k :: Accepted(cache, k) ==> JustifiedUpTo(w, cache, visiting, k)
  }

  ghost predicate Extends(old_: Cache, new_: Cache) {
    forall k :: k in old_ ==> k in new_ && new_[k] == old_[k]
  }

  lemma {:induction false} AcceptedChain(w: World, cache: Cache, c: seq<Key>)
    requires AcceptsUpTo(w, cache, {}) && Chain(w, c) && Accepted(cache, c[0])
    ensures OwnGate(w, c[|c| - 1])
    decreases |c|
  {
    if AllPass(w, c[0]) {
      assert Reaches(w, c[0], c[|c| - 1]);
    } else if |c| > 1 {
      assert Dep(w, c[0], c[1]);
      var rest := c[1..];
      forall i | 0 <= i < |rest| - 1 ensures Dep(w, rest[i], rest[i + 1]) {
        assert Dep(w, c[i + 1], c[i + 2]);
      }
      AcceptedChain(w, cache, rest);
    }
  }

  lemma AcceptedPasses(w: World, cache: Cache, k: Key)
    requires AcceptsUpTo(w, cache, {}) && Accepted(cache, k)
    ensures AllPass(w, k)
  {
    forall r | Reaches(w, k, r)
      ensures OwnGate(w, r)
    {
      var c :| Chain(w, c) && c[0] == k && c[|c| - 1] == r;
      AcceptedChain(w, cache, c);
    }
  }

  lemma AccurateExactly(w: World, cache: Cache)
    ensures Accurate(w, cache) <==> RejectsRightly(w, cache) && AcceptsUpTo(w, cache, {})
  {
    if RejectsRightly(w, cache) && AcceptsUpTo(w, cache, {}) {
      forall k | k in cache ensures cache[k] == AllPass(w, k) {
        if cache[k] { AcceptedPasses(w, cache, k); }
      }
    }
  }

  lemma JustifiedStays(w: World, cache: Cache, after: Cache, visiting: set<Key>, k: Key)
    requires JustifiedUpTo(w, cache, visiting, k) && Extends(cache, after)
    ensures JustifiedUpTo(w, after, visiting, k)
  {
  }

  // --- Rejections ---------------------------------------------------------------------

  lemma RecordRejectsRightly(w: World, cache: Cache, k: Key, ok: bool)
    requires RejectsRightly(w, cache)
    ensures ok || !AllPass(w, k) ==> RejectsRightly(w, cache[k := ok])
  {
  }

  /** On every graph, cyclic ones included: recorded verdicts stay, a rejection is
      justified, and verification aborts only over a module that cannot be fetched or run. */
  lemma {:induction false} RejectionJustified(w: World, visiting: set<Key>, cache: Cache, k: Key)
    requires Closed(w) && k in w.keys && RejectsRightly(w, cache)
    ensures var (v, after) := Verify(w, visiting, cache, k);
      && Extends(cache, after) && RejectsRightly(w, after)
      && (v.Incompatible? ==> !AllPass(w, k))
      && (v.Aborted? ==> exists r :: Reaches(w, k, r) && Unanswerable(w, r))
    decreases |w.keys - visiting|, 0
  {
    hide AllPass, Reaches, Closed, Dep, Followed;
    OwnGateDecides(w, k);
    if k !in cache && k !in visiting && w.checkout(k).Manifest? {
      BudgetDrops(w.keys, visiting, k);
      PinsKnown(w, k);
      var pins := Followed(w, k);
      PinsRejectionJustified(w, visiting + {k}, cache, k, pins);
      var (deps, mid) := VerifyPins(w, visiting + {k}, cache, pins);
      RecordRejectsRightly(w, mid, k, deps.Compatible? && w.gate(k).Passes?);
    }
  }

  lemma {:induction false} PinsRejectionJustified(w: World, visiting: set<Key>, cache: Cache, k: Key, pins: seq<Pin>)
    requires Closed(w) && RejectsRightly(w, cache)
    requires forall p :: p in pins ==> KeyOf(w, p) in w.keys && Dep(w, k, KeyOf(w, p))
    ensures var (v, after) := VerifyPins(w, visiting, cache, pins);
      && Extends(cache, after) && RejectsRightly(w, after)
      && (v.Incompatible? ==> !AllPass(w, k))
      && (v.Aborted? ==> exists r :: Reaches(w, k, r) && Unanswerable(w, r))
    decreases |w.keys - visiting|, 1, |pins|
  {
    if pins != [] {
      var d := KeyOf(w, pins[0]);
      RejectionJustified(w, visiting, cache, d);
      var (v, after) := Verify(w, visiting, cache, d);
      if v.Incompatible? {
        FailureSpreads(w, k, d);
      } else if v.Aborted? {
        var r :| Reaches(w, d, r) && Unanswerable(w, r);
        ReachesThrough(w, k, d, r);
      } else {
        PinsRejectionJustified(w, visiting, after, k, pins[1..]);
      }
    }
  }

  // --- Acceptances ---------------------------------------------------------------------

  ghost predicate PinsAccepted(w: World, cache: Cache, visiting: set<Key>, pins: seq<Pin>) {
    forall p :: p in pins ==> Accepted(cache, KeyOf(w, p)) || KeyOf(w, p) in visiting
  }

  /** On every graph: acceptances stay justified, up to the modules further up, as long as
      the verdict is acceptance. */
  lemma {:induction false} AcceptanceJustified(w: World, visiting: set<Key>, cache: Cache, k: Key)
    requires Closed(w) && k in w.keys && AcceptsUpTo(w, cache, visiting)
    ensures var (v, after) := Verify(w, visiting, cache, k);
      v.Compatible? ==>
        && Extends(cache, after) && AcceptsUpTo(w, after, visiting)
        && (Accepted(after, k) || k in visiting)
    decreases |w.keys - visiting|, 0
  {
    if k !in cache && k !in visiting && w.checkout(k).Manifest? {
      BudgetDrops(w.keys, visiting, k);
      PinsKnown(w, k);
      var pins := Followed(w, k);
      PinsAcceptanceJustified(w, visiting + {k}, cache, pins);
      var (deps, mid) := VerifyPins(w, visiting + {k}, cache, pins);
      if deps.Compatible? && w.gate(k).Passes? {
        var after := mid[k := true];
        forall x | Accepted(after, x)
          ensures JustifiedUpTo(w, after, visiting, x)
        {
          if x == k {
            forall d | Dep(w, k, d) ensures Accepted(after, d) || d in visiting {
              var p :| p in pins && KeyOf(w, p) == d;
            }
          } else {
            assert JustifiedUpTo(w, mid, visiting + {k}, x);
          }
        }
      }
    }
  }

  lemma {:induction false} PinsAcceptanceJustified(w: World, visiting: set<Key>, cache: Cache, pins: seq<Pin>)
    requires Closed(w) && (forall p :: p in pins ==> KeyOf(w, p) in w.keys) && AcceptsUpTo(w, cache, visiting)
    ensures var (v, after) := VerifyPins(w, visiting, cache, pins);
      v.Compatible? ==> Extends(cache, after) && AcceptsUpTo(w, after, visiting) && PinsAccepted(w, after, visiting, pins)
    decreases |w.keys - visiting|, 1, |pins|
  {
    if pins != [] {
      AcceptanceJustified(w, visiting, cache, KeyOf(w, pins[0]));
      var (v, after) := Verify(w, visiting, cache, KeyOf(w, pins[0]));
      if v.Compatible? {
        PinsAcceptanceJustified(w, visiting, after, pins[1..]);
      }
    }
  }

  // --- Where no two modules reach each other -------------------------------------------------

  /** Of what k reaches no two different modules reach each other; a module may pin itself. */
  ghost predicate OneWay(w: World, k: Key) {
    forall a, b :: Reaches(w, k, a) && Reaches(w, a, b) && Reaches(w, b, a) ==> a == b
  }

  lemma ReachesOn(w: World, a: Key, b: Key, c: Key)
    requires Reaches(w, a, b) && Reaches(w, b, c)
    ensures Reaches(w, a, c)
  {
    var p :| Chain(w, p) && p[0] == a && p[|p| - 1] == b;
    ReachesAlong(w, p, c);
  }

  lemma {:induction false} ReachesAlong(w: World, p: seq<Key>, c: Key)
    requires Chain(w, p) && Reaches(w, p[|p| - 1], c)
    ensures Reaches(w, p[0], c)
    decreases |p|
  {
    if |p| > 1 {
      assert Dep(w, p[0], p[1]);
      ChainRest(w, p);
      ReachesAlong(w, p[1..], c);
      ReachesThrough(w, p[0], p[1], c);
    }
  }

  lemma ChainRest(w: World, c: seq<Key>)
    requires Chain(w, c) && |c| > 1
    ensures Chain(w, c[1..]) && Dep(w, c[0], c[1])
  {
    hide Dep;
    var rest := c[1..];
    forall i | 0 <= i < |rest| - 1 ensures Dep(w, rest[i], rest[i + 1]) {
      assert Dep(w, c[i + 1], c[i + 2]);
    }
  }

  lemma DepReaches(w: World, k: Key, d: Key)
    requires Dep(w, k, d)
    ensures Reaches(w, k, d)
  {
    ReachesItself(w, d);
    ReachesThrough(w, k, d, d);
  }

  lemma OneWayBelow(w: World, k: Key, d: Key)
    requires OneWay(w, k) && Dep(w, k, d)
    ensures OneWay(w, d)
  {
    forall a, b | Reaches(w, d, a) && Reaches(w, a, b) && Reaches(w, b, a)
      ensures a == b
    {
      ReachesThrough(w, k, d, a);
    }
  }

  ghost predicate Above(w: World, visiting: set<Key>, k: Key) {
    forall a :: a in visiting ==> Reaches(w, a, k)
  }

  /** A pin that is being verified further up can only be the module itself. */
  lemma PinsBelow(w: World, visiting: set<Key>, k: Key, d: Key)
    requires OneWay(w, k) && Above(w, visiting, k) && Dep(w, k, d)
    ensures Above(w, visiting, d) && (d in visiting ==> d == k)
  {
    DepReaches(w, k, d);
    ReachesItself(w, k);
    forall a | a in visiting ensures Reaches(w, a, d) {
      ReachesOn(w, a, k, d);
    }
    hide Reaches, Dep;
  }

  /** What k reaches beyond itself it reaches through a pin other than itself. */
  lemma {:induction false} ChainLeaves(w: World, c: seq<Key>)
    requires Chain(w, c) && c[|c| - 1] != c[0]
    ensures exists b :: b != c[0] && Dep(w, c[0], b) && Reaches(w, b, c[|c| - 1])
    decreases |c|
  {
    ChainRest(w, c);
    if c[1] == c[0] {
      ChainLeaves(w, c[1..]);
    } else {
      assert Chain(w, c[1..]);
      assert Reaches(w, c[1], c[|c| - 1]);
    }
  }

  lemma AllPassFromOthers(w: World, k: Key)
    requires OwnGate(w, k) && forall d :: Dep(w, k, d) && d != k ==> AllPass(w, d)
    ensures AllPass(w, k)
  {
    forall r | Reaches(w, k, r) ensures OwnGate(w, r) {
      if r != k {
        var c :| Chain(w, c) && c[0] == k && c[|c| - 1] == r;
        ChainLeaves(w, c);
        var b :| b != k && Dep(w, k, b) && Reaches(w, b, r);
        assert AllPass(w, b);
      }
    }
  }

  lemma DepIsPin(w: World, k: Key)
    ensures forall d :: Dep(w, k, d) ==> exists p :: p in Followed(w, k) && KeyOf(w, p) == d
  {
    hide Followed;
  }

  /** Then the cache stays accurate whatever the outcome. */
  lemma {:induction false} OneWayKeepsAccurate(w: World, visiting: set<Key>, cache: Cache, k: Key)
    requires Closed(w) && k in w.keys && OneWay(w, k) && Accurate(w, cache) && Above(w, visiting, k) && k !in visiting
    ensures var (v, after) := Verify(w, visiting, cache, k);
      && Accurate(w, after)
      && (v.Compatible? ==> AllPass(w, k))
    decreases |w.keys - visiting|, 0
  {
    AccurateExactly(w, cache);
    RejectionJustified(w, visiting, cache, k);
    hide AllPass, Reaches, Closed, RejectsRightly, AcceptsUpTo, Extends, OneWay, VerifyPins, Dep, Followed;
    if k !in cache && w.checkout(k).Manifest? {
      VerifyFresh(w, visiting, cache, k);
      var pins := Followed(w, k);
      DepIsPin(w, k);
      ReachesItself(w, k);
      OneWayPins(w, visiting + {k}, cache, k, pins);
      var (deps, mid) := VerifyPins(w, visiting + {k}, cache, pins);
      if deps.Compatible? && w.gate(k).Passes? {
        AllPassFromOthers(w, k);
      }
    }
  }

  lemma {:induction false} OneWayPins(w: World, visiting: set<Key>, cache: Cache, k: Key, pins: seq<Pin>)
    requires Closed(w) && OneWay(w, k) && Accurate(w, cache) && Above(w, visiting, k) && k in visiting
    requires forall p :: p in pins ==> KeyOf(w, p) in w.keys && Dep(w, k, KeyOf(w, p))
    ensures var (v, after) := VerifyPins(w, visiting, cache, pins);
      && Accurate(w, after)
      && (v.Compatible? ==> forall p :: p in pins && KeyOf(w, p) != k ==> AllPass(w, KeyOf(w, p)))
    decreases |w.keys - visiting|, 1, |pins|
  {
    hide Closed, AllPass, Reaches, OneWay, Dep;
    if pins != [] {
      var d := KeyOf(w, pins[0]);
      PinsBelow(w, visiting, k, d);
      OneWayBelow(w, k, d);
      if d != k {
        OneWayKeepsAccurate(w, visiting, cache, d);
      }
      var (v, after) := Verify(w, visiting, cache, d);
      if v.Compatible? {
        OneWayPins(w, visiting, after, k, pins[1..]);
      }
    }
  }

  // --- ... and where two do --------------------------------------------------------------------

  function WithGate(w: World, gate: Key -> Gate): World {
    w.(gate := gate)
  }

  lemma SamePins(w: World, gate: Key -> Gate)
    ensures var w' := WithGate(w, gate);
      && (forall k :: Followed(w', k) == Followed(w, k))
      && (forall a, b :: Dep(w', a, b) <==> Dep(w, a, b))
      && (Closed(w) ==> Closed(w'))
  {
  }

  lemma SameReaches(w: World, gate: Key -> Gate)
    ensures forall a, b :: Reaches(WithGate(w, gate), a, b) <==> Reaches(w, a, b)
  {
    var w' := WithGate(w, gate);
    SamePins(w, gate);
    hide Dep, Followed, WithGate;
    assert forall c :: Chain(w', c) <==> Chain(w, c);
    hide Chain;
    forall a, b ensures Reaches(w', a, b) <==> Reaches(w, a, b) {
    }
  }

  ghost predicate Manifested(w: World, k: Key) {
    forall r :: Reaches(w, k, r) ==> w.checkout(r).Manifest?
  }

  /** Every verdict recorded is acceptance, and its pins are recorded too or under way. */
  ghost predicate AllTrue(w: World, visiting: set<Key>, cache: Cache) {
    forall k :: k in cache ==> cache[k] && forall d :: Dep(w, k, d) ==> d in cache || d in visiting
  }

  ghost predicate GatesPass(w: World, visiting: set<Key>, k: Key) {
    forall r :: Reaches(w, k, r) && r !in visiting ==> w.gate(r) == Passes
  }

  lemma Below(w: World, visiting: set<Key>, k: Key, d: Key)
    requires Dep(w, k, d)
    ensures Manifested(w, k) ==> Manifested(w, d)
    ensures GatesPass(w, visiting, k) ==> GatesPass(w, visiting, d)
  {
    forall r | Reaches(w, d, r) ensures Reaches(w, k, r) {
      ReachesThrough(w, k, d, r);
    }
  }

  /** If every gate passes but those under way, everything is accepted and recorded. */
  lemma {:induction false} AllAccepted(w: World, visiting: set<Key>, cache: Cache, k: Key)
    requires Closed(w) && k in w.keys && Manifested(w, k) && GatesPass(w, visiting, k) && AllTrue(w, visiting, cache)
    ensures var (v, after) := Verify(w, visiting, cache, k);
      v.Compatible? && Extends(cache, after) && AllTrue(w, visiting, after) && (k in after || k in visiting)
    decreases |w.keys - visiting|, 0
  {
    ReachesItself(w, k);
    if k !in cache && k !in visiting {
      BudgetDrops(w.keys, visiting, k);
      PinsKnown(w, k);
      var pins := Followed(w, k);
      assert GatesPass(w, visiting + {k}, k);
      AllPinsAccepted(w, visiting + {k}, cache, k, pins);
      var (deps, mid) := VerifyPins(w, visiting + {k}, cache, pins);
      AllTrueRecorded(w, visiting, mid, k);
    }
  }

  lemma AllTrueRecorded(w: World, visiting: set<Key>, mid: Cache, k: Key)
    requires AllTrue(w, visiting + {k}, mid)
    requires forall p :: p in Followed(w, k) ==> KeyOf(w, p) in mid || KeyOf(w, p) in visiting + {k}
    ensures AllTrue(w, visiting, mid[k := true])
  {
    hide Followed, KeyOf;
  }

  lemma {:induction false} AllPinsAccepted(w: World, visiting: set<Key>, cache: Cache, k: Key, pins: seq<Pin>)
    requires Closed(w) && Manifested(w, k) && GatesPass(w, visiting, k) && AllTrue(w, visiting, cache)
    requires forall p :: p in pins ==> KeyOf(w, p) in w.keys && Dep(w, k, KeyOf(w, p))
    ensures var (v, after) := VerifyPins(w, visiting, cache, pins);
      && v.Compatible? && Extends(cache, after) && AllTrue(w, visiting, after)
      && forall p :: p in pins ==> KeyOf(w, p) in after || KeyOf(w, p) in visiting
    decreases |w.keys - visiting|, 1, |pins|
  {
    hide Closed, Manifested, GatesPass, AllTrue, Dep;
    if pins != [] {
      var d := KeyOf(w, pins[0]);
      Below(w, visiting, k, d);
      AllAccepted(w, visiting, cache, d);
      AllPinsAccepted(w, visiting, Verify(w, visiting, cache, d).1, k, pins[1..]);
    }
  }

  function AllGatesPass(w: World): World {
    WithGate(w, _ => Passes)
  }

  function FailAt(x: Key): Key -> Gate {
    k => if k == x then Fails else Passes
  }

  /** Modules that all reach each other, with everything on the way between them. */
  ghost predicate IsRing(w: World, ring: set<Key>) {
    && (forall a, b :: a in ring && b in ring ==> Reaches(w, a, b))
    && (forall a, b, d :: a in ring && b in ring && Dep(w, a, d) && Reaches(w, d, b) ==> d in ring)
  }

  ghost predicate Untouched(ring: set<Key>, visiting: set<Key>, cache: Cache) {
    ring !! visiting && ring !! cache.Keys
  }

  lemma RingNext(w: World, ring: set<Key>, a: Key, d: Key, b: Key)
    requires IsRing(w, ring) && a in ring && b in ring && Dep(w, a, d) && Reaches(w, d, b)
    ensures d in ring
  {
    hide Dep, Reaches;
  }

  lemma TrueNext(w: World, visiting: set<Key>, mid: Cache, k: Key, a: Key, d: Key)
    requires AllTrue(w, visiting, mid) && (forall d :: Dep(w, k, d) ==> d in mid || d in visiting)
    requires (a == k || a in mid) && Dep(w, a, d)
    ensures d in mid || d in visiting
  {
    hide Dep;
  }

  lemma {:induction false} AlongRing(w: World, ring: set<Key>, visiting: set<Key>, mid: Cache, k: Key, c: seq<Key>)
    requires IsRing(w, ring) && ring !! visiting && Chain(w, c) && c[0] in ring && c[|c| - 1] in ring
    requires AllTrue(w, visiting + {k}, mid) && forall d :: Dep(w, k, d) ==> d in mid || d in visiting + {k}
    requires c[0] == k || c[0] in mid
    ensures c[|c| - 1] == k || c[|c| - 1] in mid
    decreases |c|
  {
    hide Dep, IsRing, AllTrue;
    if |c| > 1 {
      ChainRest(w, c);
      assert Reaches(w, c[1], c[|c| - 1]);
      hide Reaches, Chain;
      RingNext(w, ring, c[0], c[1], c[|c| - 1]);
      TrueNext(w, visiting + {k}, mid, k, c[0], c[1]);
      AlongRing(w, ring, visiting, mid, k, c[1..]);
    }
  }

  /** The first of a ring to be verified finds all the others recorded by the time its own
      gate is run. */
  lemma RingRecorded(w: World, ring: set<Key>, visiting: set<Key>, mid: Cache, k: Key, y: Key)
    requires IsRing(w, ring) && ring !! visiting && k in ring && y in ring && y != k
    requires AllTrue(w, visiting + {k}, mid) && forall d :: Dep(w, k, d) ==> d in mid || d in visiting + {k}
    ensures Accepted(mid, y)
  {
    hide Dep;
    assert Reaches(w, k, y);
    var c :| Chain(w, c) && c[0] == k && c[|c| - 1] == y;
    hide Chain, Reaches, IsRing;
    AlongRing(w, ring, visiting, mid, k, c);
  }

  /** What the gates say has no part in what is reached, has a manifest or is recorded. */
  lemma SameShape(w: World, gate: Key -> Gate, visiting: set<Key>, cache: Cache, k: Key)
    requires Closed(w) && Manifested(w, k) && AllTrue(w, visiting, cache)
    ensures var w' := WithGate(w, gate); Closed(w') && Manifested(w', k) && AllTrue(w', visiting, cache)
  {
    SamePins(w, gate);
    SameReaches(w, gate);
    hide Closed, Dep, Reaches, Followed;
  }

  lemma FailingPasses(w: World, x: Key, visiting: set<Key>, k: Key)
    requires x in visiting
    ensures GatesPass(WithGate(w, FailAt(x)), visiting, k)
  {
    hide Reaches;
  }

  lemma EntersRing(w: World, ring: set<Key>, visiting: set<Key>, cache: Cache, k: Key, y: Key)
    requires Closed(w) && k in w.keys && Manifested(w, k) && IsRing(w, ring) && Untouched(ring, visiting, cache)
    requires AllTrue(w, visiting, cache) && k in ring && y in ring && y != k
    ensures Closed(WithGate(w, FailAt(k))) && Accepted(Verify(WithGate(w, FailAt(k)), visiting, cache, k).1, y)
  {
    hide Reaches, Dep, Followed, IsRing, Verify, VerifyPins, Chain;
    var w' := WithGate(w, FailAt(k));
    HasManifest(w, k);
    SameShape(w, FailAt(k), visiting, cache, k);
    WiderAllTrue(w', visiting, cache, k);
    hide Closed, Manifested, AllTrue;
    VerifyFresh(w', visiting, cache, k);
    FailingPasses(w, k, visiting + {k}, k);
    var pins := Followed(w', k);
    AllPinsAccepted(w', visiting + {k}, cache, k, pins);
    var mid := VerifyPins(w', visiting + {k}, cache, pins).1;
    ManifestedDeps(w, FailAt(k), visiting, mid, k);
    RingRecorded(w, ring, visiting, mid, k, y);
  }

  lemma HasManifest(w: World, k: Key)
    requires Manifested(w, k)
    ensures w.checkout(k).Manifest?
  {
    ReachesItself(w, k);
  }

  lemma WiderAllTrue(w: World, visiting: set<Key>, cache: Cache, k: Key)
    requires AllTrue(w, visiting, cache)
    ensures AllTrue(w, visiting + {k}, cache)
  {
    hide Dep;
  }

  lemma ManifestedDeps(w: World, gate: Key -> Gate, visiting: set<Key>, mid: Cache, k: Key)
    requires var w' := WithGate(w, gate);
      && AllTrue(w', visiting + {k}, mid)
      && forall p :: p in Followed(w', k) ==> KeyOf(w', p) in mid || KeyOf(w', p) in visiting + {k}
    ensures AllTrue(w, visiting + {k}, mid) && forall d :: Dep(w, k, d) ==> d in mid || d in visiting + {k}
  {
    SamePins(w, gate);
    hide Followed;
  }

  /** A failing gate makes no difference to a run that does not come to it. */
  lemma {:induction false} SameRun(w: World, x: Key, visiting: set<Key>, cache: Cache, k: Key)
    requires Closed(w) && k in w.keys && Manifested(w, k) && w == AllGatesPass(w) && AllTrue(w, visiting, cache)
    requires x !in Verify(w, visiting, cache, k).1 && x !in visiting
    ensures Closed(WithGate(w, FailAt(x))) && Verify(WithGate(w, FailAt(x)), visiting, cache, k) == Verify(w, visiting, cache, k)
    decreases |w.keys - visiting|, 0
  {
    SamePins(w, FailAt(x));
    HasManifest(w, k);
    if k !in cache && k !in visiting {
      hide Followed, Dep, Closed, Manifested, VerifyPins, Verify;
      VerifyFresh(w, visiting, cache, k);
      VerifyFresh(WithGate(w, FailAt(x)), visiting, cache, k);
      WiderAllTrue(w, visiting, cache, k);
      hide AllTrue;
      var pins := Followed(w, k);
      GatesAllPass(w, visiting + {k}, k);
      AllPinsAccepted(w, visiting + {k}, cache, k, pins);
      assert x != k;
      SameRunPins(w, x, visiting + {k}, cache, k, pins);
    }
  }

  lemma GatesAllPass(w: World, visiting: set<Key>, k: Key)
    requires w == AllGatesPass(w)
    ensures GatesPass(w, visiting, k) && w.gate(k) == Passes
  {
    hide Reaches;
  }

  lemma {:induction false} SameRunPins(w: World, x: Key, visiting: set<Key>, cache: Cache, k: Key, pins: seq<Pin>)
    requires Closed(w) && Manifested(w, k) && w == AllGatesPass(w) && AllTrue(w, visiting, cache)
    requires forall p :: p in pins ==> KeyOf(w, p) in w.keys && Dep(w, k, KeyOf(w, p))
    requires x !in VerifyPins(w, visiting, cache, pins).1 && x !in visiting
    ensures var w' := WithGate(w, FailAt(x));
      && Closed(w') && (forall p :: p in pins ==> KeyOf(w', p) in w'.keys)
      && VerifyPins(w', visiting, cache, pins) == VerifyPins(w, visiting, cache, pins)
    decreases |w.keys - visiting|, 1, |pins|
  {
    SamePins(w, FailAt(x));
    if pins != [] {
      hide Followed, Dep, Closed, Manifested, VerifyPins, Verify, AllTrue;
      var d := KeyOf(w, pins[0]);
      Below(w, visiting, k, d);
      GatesAllPass(w, visiting, k);
      GatesAllPass(w, visiting, d);
      AllAccepted(w, visiting, cache, d);
      VerifyNextPin(w, visiting, cache, pins);
      VerifyNextPin(WithGate(w, FailAt(x)), visiting, cache, pins);
      var after := Verify(w, visiting, cache, d).1;
      AllPinsAccepted(w, visiting, after, k, pins[1..]);
      SameRun(w, x, visiting, cache, d);
      SameRunPins(w, x, visiting, after, k, pins[1..]);
    }
  }

  lemma RecordsNew(w: World, visiting: set<Key>, cache: Cache, k: Key, some: Key)
    requires Closed(w) && k in w.keys && some in Verify(w, visiting, cache, k).1 && some !in cache
    ensures k !in visiting && k !in cache
  {
    hide VerifyPins;
  }

  lemma FreshKeepsOthers(w: World, visiting: set<Key>, cache: Cache, k: Key, y: Key)
    requires Closed(w) && k in w.keys && k !in cache && k !in visiting && w.checkout(k).Manifest? && y != k
    ensures forall p :: p in Followed(w, k) ==> KeyOf(w, p) in w.keys
    ensures var after, all := VerifyPins(w, visiting + {k}, cache, Followed(w, k)).1, Verify(w, visiting, cache, k).1;
      (y in after <==> y in all) && (Accepted(after, y) <==> Accepted(all, y))
  {
    hide Verify, VerifyPins, Followed, Dep, KeyOf;
    VerifyFresh(w, visiting, cache, k);
  }

  /** If a run over passing gates comes to a ring, then with the failing gate at the right
      module of the ring it leaves another one wrongly accepted. */
  lemma {:induction false} FirstEntered(w: World, ring: set<Key>, visiting: set<Key>, cache: Cache, k: Key, some: Key)
    returns (x: Key, y: Key)
    requires Closed(w) && k in w.keys && Manifested(w, k) && w == AllGatesPass(w) && AllTrue(w, visiting, cache)
    requires IsRing(w, ring) && |ring| > 1 && Untouched(ring, visiting, cache)
    requires some in ring && some in Verify(w, visiting, cache, k).1
    ensures x in ring && y in ring && x != y && Closed(WithGate(w, FailAt(x)))
    ensures Accepted(Verify(WithGate(w, FailAt(x)), visiting, cache, k).1, y)
    decreases |w.keys - visiting|, 0
  {
    hide Followed, Dep, Closed, Manifested, VerifyPins, Verify, IsRing, AllTrue, AllGatesPass, Accepted;
    HasManifest(w, k);
    RecordsNew(w, visiting, cache, k, some);
    if k in ring {
      x := k;
      y := Another(ring, k);
      EntersRing(w, ring, visiting, cache, k, y);
    } else {
      VerifyFresh(w, visiting, cache, k);
      FreshKeepsOthers(w, visiting, cache, k, some);
      WiderAllTrue(w, visiting, cache, k);
      var pins := Followed(w, k);
      x, y := FirstEnteredPins(w, ring, visiting + {k}, cache, k, pins, some);
      SamePins(w, FailAt(x));
      FreshKeepsOthers(WithGate(w, FailAt(x)), visiting, cache, k, y);
    }
  }

  lemma Another(ring: set<Key>, k: Key) returns (y: Key)
    requires k in ring && |ring| > 1
    ensures y in ring && y != k
  {
    var others := ring - {k};
    assert ring == others + {k};
    y :| y in others;
  }

  lemma {:induction false} FirstEnteredPins(w: World, ring: set<Key>, visiting: set<Key>, cache: Cache, k: Key,
                                            pins: seq<Pin>, some: Key)
    returns (x: Key, y: Key)
    requires Closed(w) && Manifested(w, k) && w == AllGatesPass(w) && AllTrue(w, visiting, cache)
    requires IsRing(w, ring) && |ring| > 1 && Untouched(ring, visiting, cache)
    requires forall p :: p in pins ==> KeyOf(w, p) in w.keys && Dep(w, k, KeyOf(w, p))
    requires some in ring && some in VerifyPins(w, visiting, cache, pins).1
    ensures x in ring && y in ring && x != y
    ensures var w' := WithGate(w, FailAt(x));
      && Closed(w') && (forall p :: p in pins ==> KeyOf(w', p) in w'.keys)
      && Accepted(VerifyPins(w', visiting, cache, pins).1, y)
    decreases |w.keys - visiting|, 1, |pins|
  {
    assert pins != [];
    hide Followed, Dep, Closed, Manifested, VerifyPins, Verify, IsRing, AllTrue;
    var d := KeyOf(w, pins[0]);
    Below(w, visiting, k, d);
    GatesAllPass(w, visiting, d);
    AllAccepted(w, visiting, cache, d);
    VerifyNextPin(w, visiting, cache, pins);
    var after := Verify(w, visiting, cache, d).1;
    if r :| r in ring && r in after {
      x, y := FirstEntered(w, ring, visiting, cache, d, r);
      StaysAccepted(w, x, visiting, cache, k, pins, y);
    } else {
      x, y := FirstEnteredPins(w, ring, visiting, after, k, pins[1..], some);
      SamePins(w, FailAt(x));
      SameRun(w, x, visiting, cache, d);
      VerifyNextPin(WithGate(w, FailAt(x)), visiting, cache, pins);
    }
  }

  lemma AllTrueRejectsRightly(w: World, w': World, visiting: set<Key>, cache: Cache)
    requires AllTrue(w, visiting, cache)
    ensures RejectsRightly(w', cache)
  {
  }

  lemma StaysAccepted(w: World, x: Key, visiting: set<Key>, cache: Cache, k: Key, pins: seq<Pin>, y: Key)
    requires Closed(w) && AllTrue(w, visiting, cache) && pins != []
    requires forall p :: p in pins ==> KeyOf(w, p) in w.keys && Dep(w, k, KeyOf(w, p))
    requires var w' := WithGate(w, FailAt(x));
      Closed(w') && KeyOf(w', pins[0]) in w'.keys && Accepted(Verify(w', visiting, cache, KeyOf(w', pins[0])).1, y)
    ensures var w' := WithGate(w, FailAt(x));
      (forall p :: p in pins ==> KeyOf(w', p) in w'.keys) && Accepted(VerifyPins(w', visiting, cache, pins).1, y)
  {
    hide Followed, Dep, Closed, VerifyPins, Verify;
    var w' := WithGate(w, FailAt(x));
    SamePins(w, FailAt(x));
    var after := Verify(w', visiting, cache, KeyOf(w', pins[0])).1;
    AllTrueRejectsRightly(w, w', visiting, cache);
    forall p | p in pins
      ensures KeyOf(w', p) in w'.keys && Dep(w', k, KeyOf(w', p))
    {
      assert KeyOf(w', p) == KeyOf(w, p) && Dep(w, k, KeyOf(w, p));
    }
    assert forall p :: p in pins[1..] ==> p in pins;
    hide AllTrue, RejectsRightly;
    RejectionJustified(w', visiting, cache, KeyOf(w', pins[0]));
    PinsRejectionJustified(w', visiting, after, k, pins[1..]);
    VerifyNextPin(w', visiting, cache, pins);
  }

  lemma {:induction false} AllTrueChain(w: World, cache: Cache, c: seq<Key>)
    requires AllTrue(w, {}, cache) && Chain(w, c) && c[0] in cache
    ensures c[|c| - 1] in cache
    decreases |c|
  {
    if |c| > 1 {
      ChainRest(w, c);
      AllTrueChain(w, cache, c[1..]);
    }
  }

  ghost function Ring(w: World, a: Key): set<Key> {
    set x | x in w.keys && Reaches(w, a, x) && Reaches(w, x, a)
  }

  lemma RingIsRing(w: World, a: Key)
    requires Closed(w)
    ensures IsRing(w, Ring(w, a))
  {
    var ring := Ring(w, a);
    forall x, y | x in ring && y in ring ensures Reaches(w, x, y) {
      ReachesOn(w, x, a, y);
    }
    forall x, y, d | x in ring && y in ring && Dep(w, x, d) && Reaches(w, d, y)
      ensures d in ring
    {
      ReachesOneMore(w, a, x, d);
      ReachesOn(w, d, y, a);
    }
  }

  lemma ReachesOneMore(w: World, a: Key, k: Key, d: Key)
    requires Reaches(w, a, k) && Dep(w, k, d)
    ensures Reaches(w, a, d)
  {
    DepReaches(w, k, d);
    ReachesOn(w, a, k, d);
  }

  lemma {:induction false} ReachesKnown(w: World, c: seq<Key>)
    requires Closed(w) && Chain(w, c) && c[0] in w.keys
    ensures c[|c| - 1] in w.keys
    decreases |c|
  {
    if |c| > 1 {
      ChainRest(w, c);
      ReachesKnown(w, c[1..]);
    }
  }

  /** Gates under which a run from nothing leaves a wrong acceptance. */
  lemma WrongAcceptance(w: World, k: Key, a: Key, b: Key) returns (gate: Key -> Gate)
    requires Closed(w) && k in w.keys && Manifested(w, k)
    requires Reaches(w, k, a) && Reaches(w, a, b) && Reaches(w, b, a) && a != b
    ensures var w' := WithGate(w, gate);
      Closed(w') && !Accurate(w', Verify(w', {}, map[], k).1)
  {
    var w1, ring := AllGatesPass(w), Ring(w, a);
    SamePins(w, _ => Passes);
    SameReaches(w, _ => Passes);
    ReachesItself(w, a);
    RingIsRing(w, a);
    var c :| Chain(w, c) && c[0] == k && c[|c| - 1] == a;
    var c' :| Chain(w, c') && c'[0] == a && c'[|c'| - 1] == b;
    ReachesKnown(w, c);
    ReachesKnown(w, c');
    assert {a, b} <= ring;
    MoreThanOne(ring, a, b);
    assert Manifested(w1, k) && GatesPass(w1, {}, k) && IsRing(w1, ring);
    AllAccepted(w1, {}, map[], k);
    assert Chain(w1, c);
    AllTrueChain(w1, Verify(w1, {}, map[], k).1, c);
    var x, y := FirstEntered(w1, ring, {}, map[], k, a);
    gate := FailAt(x);
    SamePins(w, gate);
    SameReaches(w, gate);
    var w' := WithGate(w, gate);
    assert w' == WithGate(w1, gate);
    assert Reaches(w', y, x) && !OwnGate(w', x);
  }

  lemma MoreThanOne(ring: set<Key>, a: Key, b: Key)
    requires {a, b} <= ring && a != b
    ensures |ring| > 1
  {
    var rest := ring - {a};
    assert b in rest;
    assert ring == rest + {a};
  }

  // --- The main results --------------------------------------------------------------------

  ghost predicate KeepsAccurate(w: World, k: Key)
    requires Closed(w) && k in w.keys
  {
    forall cache :: Accurate(w, cache) ==> Accurate(w, Verify(w, {}, cache, k).1)
  }

  /** When verifying k is sure to leave an accurate cache accurate, whatever the gates will
      say: exactly when no two different modules that k reaches reach each other. */
  lemma CacheStaysAccurateExactly(w: World, k: Key)
    requires Closed(w) && k in w.keys && Manifested(w, k)
    ensures OneWay(w, k) <==> forall gate :: Closed(WithGate(w, gate)) && KeepsAccurate(WithGate(w, gate), k)
  {
    if OneWay(w, k) {
      forall gate: Key -> Gate
        ensures Closed(WithGate(w, gate)) && KeepsAccurate(WithGate(w, gate), k)
      {
        var w' := WithGate(w, gate);
        SamePins(w, gate);
        SameReaches(w, gate);
        assert OneWay(w', k);
        forall cache | Accurate(w', cache)
          ensures Accurate(w', Verify(w', {}, cache, k).1)
        {
          OneWayKeepsAccurate(w', {}, cache, k);
        }
      }
    } else {
      var a, b :| Reaches(w, k, a) && Reaches(w, a, b) && Reaches(w, b, a) && a != b;
      var gate := WrongAcceptance(w, k, a, b);
      var w' := WithGate(w, gate);
      assert Accurate(w', map[]);
      assert !KeepsAccurate(w', k);
    }
  }

  /** From an accurate cache, the empty one included, a verdict is right on every graph:
      acceptance means the module and everything it pins pass, rejection that something
      does not. The cache is accurate afterwards if the verdict was acceptance, or if no
      pins form a cycle. */
  lemma VerdictExact(w: World, cache: Cache, k: Key)
    requires Closed(w) && k in w.keys && Accurate(w, cache)
    ensures var (v, after) := Verify(w, {}, cache, k);
      && (v.Compatible? <==> AllPass(w, k))
      && (v.Aborted? ==> exists r :: Reaches(w, k, r) && Unanswerable(w, r))
      && (v.Compatible? || OneWay(w, k) ==> Accurate(w, after))
  {
    AccurateExactly(w, cache);
    RejectionJustified(w, {}, cache, k);
    AcceptanceJustified(w, {}, cache, k);
    var (v, after) := Verify(w, {}, cache, k);
    AccurateExactly(w, after);
    if v.Compatible? {
      AcceptedPasses(w, after, k);
    }
    if OneWay(w, k) {
      OneWayKeepsAccurate(w, {}, cache, k);
    }
  }

  /** Answering from the cache is answering as if nothing had been recorded. */
  lemma CachedVerdictSame(w: World, cache: Cache, k: Key)
    requires Closed(w) && k in w.keys && Accurate(w, cache) && k in cache
    requires !Verify(w, {}, map[], k).0.Aborted?
    ensures Verify(w, {}, cache, k).0 == Verify(w, {}, map[], k).0
  {
    VerdictExact(w, map[], k);
    VerdictExact(w, cache, k);
  }

  /** What an answer from an accurate cache says of the manifest: acceptance means that the
      module's gate passes and every entry that pins something passes, transitively; a
      failing entry means that it is not accepted. */
  lemma AnswerCoversManifest(w: World, cache: Cache, k: Key, require: seq<Pin>, named: seq<Pin>)
    requires Closed(w) && k in w.keys && Accurate(w, cache) && w.checkout(k) == Manifest(require, named)
    ensures Verify(w, {}, cache, k).0.Compatible? <==>
      && w.gate(k) == Passes
      && (forall e :: e in require && e.commit != "" ==> AllPass(w, Key(w.identify(e.url, ""), e.commit)))
      && (forall e :: e in named && e.url != "" && e.commit != "" ==> AllPass(w, Key(w.identify(e.url, e.subdir), e.commit)))
  {
    VerdictExact(w, cache, k);
    OwnGateDecides(w, k);
    hide Verify, AllPass, Reaches, Accurate, Closed, Followed;
    forall e | e in require && e.commit != ""
      ensures Dep(w, k, Key(w.identify(e.url, ""), e.commit))
    {
      FollowedExactly(w, k, require, named, Pin(e.url, "", e.commit));
      assert KeyOf(w, Pin(e.url, "", e.commit)) == Key(w.identify(e.url, ""), e.commit);
    }
    forall e | e in named && e.url != "" && e.commit != ""
      ensures Dep(w, k, Key(w.identify(e.url, e.subdir), e.commit))
    {
      FollowedExactly(w, k, require, named, e);
      assert KeyOf(w, e) == Key(w.identify(e.url, e.subdir), e.commit);
    }
    forall d | Dep(w, k, d) && AllPass(w, k)
      ensures AllPass(w, d)
    {
      if !AllPass(w, d) {
        FailureSpreads(w, k, d);
      }
    }
    if w.gate(k) == Passes && forall d :: Dep(w, k, d) ==> AllPass(w, d) {
      AllPassFromOthers(w, k);
    }
    forall d | Dep(w, k, d)
      ensures (exists e :: e in require && e.commit != "" && d == Key(w.identify(e.url, ""), e.commit))
           || (exists e :: e in named && e.url != "" && e.commit != "" && d == Key(w.identify(e.url, e.subdir), e.commit))
    {
      var p :| p in Followed(w, k) && KeyOf(w, p) == d;
      FollowedExactly(w, k, require, named, p);
    }
  }

  /** The module is refused: it has no usable manifest, or its gate fails. */
  predicate Refused(w: World, k: Key) {
    match w.checkout(k)
    case FetchError => false
    case NoManifest => true
    case BadManifest => true
    case Manifest(_, _) => w.gate(k) == Fails
  }

  ghost predicate ReachesRefusal(w: World, k: Key) {
    exists r :: Reaches(w, k, r) && Refused(w, r)
  }

  ghost predicate RefusesOnly(w: World, cache: Cache) {
    forall k :: k in cache && !cache[k] ==> ReachesRefusal(w, k)
  }

  predicate NoFetchErrors(w: World, before: Cache, after: Cache) {
    forall k :: k in after && k !in before ==> !w.checkout(k).FetchError?
  }

  lemma RefusedHere(w: World, k: Key)
    requires Refused(w, k)
    ensures ReachesRefusal(w, k)
  {
    ReachesItself(w, k);
  }

  lemma RefusedBelow(w: World, k: Key, d: Key)
    requires Dep(w, k, d) && ReachesRefusal(w, d)
    ensures ReachesRefusal(w, k)
  {
    var r :| Reaches(w, d, r) && Refused(w, r);
    ReachesThrough(w, k, d, r);
  }

  /** A module is rejected for something that has been refused, never for what could not be
      fetched or run; and what could not be fetched is never recorded. */
  lemma {:induction false} RejectedForRefusal(w: World, visiting: set<Key>, cache: Cache, k: Key)
    requires Closed(w) && k in w.keys && RefusesOnly(w, cache)
    ensures var (v, after) := Verify(w, visiting, cache, k);
      && RefusesOnly(w, after) && NoFetchErrors(w, cache, after)
      && (v.Incompatible? ==> ReachesRefusal(w, k))
    decreases |w.keys - visiting|, 0
  {
    hide ReachesRefusal, Closed, Followed;
    if k !in cache && k !in visiting {
      if Refused(w, k) {
        RefusedHere(w, k);
        RecordRefusal(w, cache, k, false);
      }
      if w.checkout(k).Manifest? {
        VerifyFresh(w, visiting, cache, k);
        PinsRejectedForRefusal(w, visiting + {k}, cache, k, Followed(w, k));
        var (deps, mid) := VerifyPins(w, visiting + {k}, cache, Followed(w, k));
        if !deps.Aborted? && !(deps.Compatible? && w.gate(k).GateError?) {
          RecordRefusal(w, mid, k, deps.Compatible? && w.gate(k).Passes?);
        }
      }
    }
  }

  lemma RecordRefusal(w: World, cache: Cache, k: Key, ok: bool)
    requires RefusesOnly(w, cache) && (ok || ReachesRefusal(w, k))
    ensures RefusesOnly(w, cache[k := ok])
  {
    hide ReachesRefusal;
  }

  lemma {:induction false} PinsRejectedForRefusal(w: World, visiting: set<Key>, cache: Cache, k: Key, pins: seq<Pin>)
    requires Closed(w) && RefusesOnly(w, cache)
    requires forall p :: p in pins ==> KeyOf(w, p) in w.keys && Dep(w, k, KeyOf(w, p))
    ensures var (v, after) := VerifyPins(w, visiting, cache, pins);
      && RefusesOnly(w, after) && NoFetchErrors(w, cache, after)
      && (v.Incompatible? ==> ReachesRefusal(w, k))
    decreases |w.keys - visiting|, 1, |pins|
  {
    hide ReachesRefusal, RefusesOnly, Closed, Dep;
    if pins != [] {
      var d := KeyOf(w, pins[0]);
      RejectedForRefusal(w, visiting, cache, d);
      var (v, after) := Verify(w, visiting, cache, d);
      VerifyNextPin(w, visiting, cache, pins);
      hide Verify, VerifyPins;
      if v.Incompatible? {
        RefusedBelow(w, k, d);
      } else if v.Compatible? {
        PinsRejectedForRefusal(w, visiting, after, k, pins[1..]);
      }
    }
  }

  /** With a pin cycle a rejected run can leave a wrong acceptance behind: a and b pin each
      other and a's gate fails. Verifying a rejects a and records b as compatible, which a
      fresh verification of b denies. */
  lemma CycleLeavesWrongAcceptance(w: World, a: Key, b: Key, pa: Pin, pb: Pin)
    requires Closed(w) && w.keys == {a, b} && a != b
    requires pa.commit != "" && pa.subdir == "" && KeyOf(w, pa) == a
    requires pb.commit != "" && pb.subdir == "" && KeyOf(w, pb) == b
    requires w.checkout(a) == Manifest([pb], []) && w.checkout(b) == Manifest([pa], [])
    requires w.gate(a) == Fails && w.gate(b) == Passes
    ensures Verify(w, {}, map[], a) == (Incompatible, map[b := true, a := false])
    ensures Verify(w, {}, map[b := true, a := false], b).0 == Compatible
    ensures Verify(w, {}, map[], b).0 == Incompatible
  {
    assert GitPins([pb]) == [pb] + GitPins([pb][1..]);
    assert GitPins([pa]) == [pa] + GitPins([pa][1..]);
    assert Followed(w, a) == [pb] && Followed(w, b) == [pa];
    PinsKnown(w, a);
    PinsKnown(w, b);
    FromOne(w, {}, map[], a, pb);
    FromOne(w, {a}, map[], b, pa);
    assert Verify(w, {a} + {b}, map[], a) == (Compatible, map[]);
    FromOne(w, {}, map[], b, pa);
    FromOne(w, {b}, map[], a, pb);
    assert Verify(w, {b} + {a}, map[], b) == (Compatible, map[]);
    assert {} + {a} == {a} && {} + {b} == {b};
  }

  /** A module with a single pin takes its pin's verdict and then its own gate's. */
  lemma FromOne(w: World, visiting: set<Key>, cache: Cache, k: Key, p: Pin)
    requires Closed(w) && k in w.keys && k !in cache && k !in visiting
    requires w.checkout(k).Manifest? && Followed(w, k) == [p] && KeyOf(w, p) in w.keys && !w.gate(k).GateError?
    ensures var (v, after) := Verify(w, visiting + {k}, cache, KeyOf(w, p));
      Verify(w, visiting, cache, k) ==
        if v.Aborted? then (Aborted, after)
        else
          var ok := v.Compatible? && w.gate(k).Passes?;
          (if ok then Compatible else Incompatible, after[k := ok])
  {
    BudgetDrops(w.keys, visiting, k);
    var (v, after) := Verify(w, visiting + {k}, cache, KeyOf(w, p));
    assert [p][1..] == [];
    assert VerifyPins(w, visiting + {k}, after, []) == (Compatible, after);
    assert VerifyPins(w, visiting + {k}, cache, [p]) == (v, after);
  }

  // --- Walking back through epoch tags -----------------------------------------------------

  /** A tag of the module's repository; epochs are ordered as numbers. */
  datatype Tag = Tag(epoch: int, commit: string)

  datatype Choice =
    | Pick(commit: string)
    | NoVersion(onlyNewer: bool)
    | Rejected(commit: string)   // the user's explicit reference does not verify
    | Stuck                      // an error on the way, passed on

  /** The usable tags, newest first. */
  ghost predicate IsCandidates(tags: seq<Tag>, epoch: int, candidates: seq<Tag>) {
    (forall t :: t in candidates <==> t in tags && t.epoch <= epoch) && NewestFirst(candidates)
  }

  predicate NewestFirst(tags: seq<Tag>) {
    forall i, j :: 0 <= i < j < |tags| ==> tags[i].epoch >= tags[j].epoch
  }

  function WalkBack(w: World, identity: string, cache: Cache, candidates: seq<Tag>): (Choice, Cache)
    requires Closed(w) && forall t :: t in candidates ==> Key(identity, t.commit) in w.keys
    decreases |candidates|
  {
    if candidates == [] then (NoVersion(false), cache)
    else
      var (v, after) := Verify(w, {}, cache, Key(identity, candidates[0].commit));
      match v
      case Compatible => (Pick(candidates[0].commit), after)
      case Incompatible => WalkBack(w, identity, after, candidates[1..])
      case Aborted => (Stuck, after)
  }

  /** The candidate at i is the one picked, and every earlier one fails. */
  ghost predicate PickedAt(w: World, identity: string, candidates: seq<Tag>, i: nat, commit: string)
    requires i < |candidates|
  {
    candidates[i].commit == commit && forall j :: 0 <= j < i ==> !AllPass(w, Key(identity, candidates[j].commit))
  }

  /** Of what each of the first n candidates reaches no two modules reach each other. */
  ghost predicate OneWayFirst(w: World, identity: string, candidates: seq<Tag>, n: nat)
    requires n <= |candidates|
  {
    forall j :: 0 <= j < n ==> OneWay(w, Key(identity, candidates[j].commit))
  }

  /** On every graph the candidates passed over fail, and the walk gives up only when they all
      do. The one picked passes if no two modules reach each other in what was passed over. */
  lemma {:induction false} WalkBackExact(w: World, identity: string, cache: Cache, candidates: seq<Tag>)
    requires Closed(w) && forall t :: t in candidates ==> Key(identity, t.commit) in w.keys
    requires RejectsRightly(w, cache)
    ensures var (choice, after) := WalkBack(w, identity, cache, candidates);
      && RejectsRightly(w, after)
      && (Accurate(w, cache) && OneWayFirst(w, identity, candidates, |candidates|) ==> Accurate(w, after))
      && match choice
         case Pick(c) => exists i :: 0 <= i < |candidates| && PickedAt(w, identity, candidates, i, c)
                                     && (Accurate(w, cache) && OneWayFirst(w, identity, candidates, i) ==> FirstToPass(w, identity, candidates, i))
         case NoVersion(_) => forall t :: t in candidates ==> !AllPass(w, Key(identity, t.commit))
         case Rejected(_) => false
         case Stuck => exists t, r :: t in candidates && Reaches(w, Key(identity, t.commit), r) && Unanswerable(w, r)
    decreases |candidates|
  {
    hide AllPass, Reaches, Accurate, RejectsRightly, OneWay, Closed, Verify;
    if candidates != [] {
      var first := Key(identity, candidates[0].commit);
      assert candidates[0] in candidates;
      RejectionJustified(w, {}, cache, first);
      if Accurate(w, cache) {
        VerdictExact(w, cache, first);
      }
      var (v, after) := Verify(w, {}, cache, first);
      if v.Compatible? {
        assert PickedAt(w, identity, candidates, 0, candidates[0].commit);
      } else if v.Incompatible? {
        var rest := candidates[1..];
        WalkBackExact(w, identity, after, rest);
        var choice := WalkBack(w, identity, after, rest).0;
        assert forall t :: t in candidates <==> t == candidates[0] || t in rest;
        if choice.Pick? {
          var i :| 0 <= i < |rest| && PickedAt(w, identity, rest, i, choice.commit)
                   && (Accurate(w, after) && OneWayFirst(w, identity, rest, i) ==> FirstToPass(w, identity, rest, i));
          PickedNext(w, identity, candidates, i, choice.commit);
        }
      }
    }
  }

  lemma PickedNext(w: World, identity: string, candidates: seq<Tag>, i: nat, commit: string)
    requires candidates != [] && i < |candidates[1..]| && PickedAt(w, identity, candidates[1..], i, commit)
    requires !AllPass(w, Key(identity, candidates[0].commit))
    ensures PickedAt(w, identity, candidates, i + 1, commit)
    ensures FirstToPass(w, identity, candidates[1..], i) ==> FirstToPass(w, identity, candidates, i + 1)
  {
    hide AllPass;
    var rest := candidates[1..];
    assert forall j :: 0 < j <= i + 1 ==> candidates[j] == rest[j - 1];
  }

  /** Two versions of a module pin a helper by the name of a branch, whose head pins the older
      of them. */
  function BranchWorld(identity: string, newer: Tag, older: Tag, helper: string, branch: string): World {
    var a, b, c := Key(identity, newer.commit), Key(identity, older.commit), Key(helper, branch);
    World({a, b, c},
          k => Manifest([if k == c then Pin(identity, "", older.commit) else Pin(helper, "", branch)], []),
          k => if k == c then Fails else Passes,
          (url, _) => url)
  }

  /** If the helper fails, verifying the newer version records a wrong acceptance of the older
      one, which the walk then picks. */
  lemma WalkBackMayPickWrong(identity: string, newer: Tag, older: Tag, helper: string, branch: string)
    requires newer.commit != "" && older.commit != "" && branch != "" && newer.commit != older.commit && helper != identity
    ensures var w := BranchWorld(identity, newer, older, helper, branch);
      && Closed(w)
      && WalkBack(w, identity, map[], [newer, older]).0 == Pick(older.commit)
      && !AllPass(w, Key(identity, older.commit))
  {
    var w := BranchWorld(identity, newer, older, helper, branch);
    var a, b, c := Key(identity, newer.commit), Key(identity, older.commit), Key(helper, branch);
    var toHelper, toOlder := Pin(helper, "", branch), Pin(identity, "", older.commit);
    assert GitPins([toHelper]) == [toHelper] + GitPins([toHelper][1..]);
    assert GitPins([toOlder]) == [toOlder] + GitPins([toOlder][1..]);
    assert Followed(w, a) == [toHelper] && Followed(w, b) == [toHelper] && Followed(w, c) == [toOlder];
    assert Closed(w);
    FromOne(w, {}, map[], a, toHelper);
    FromOne(w, {a}, map[], c, toOlder);
    FromOne(w, {a} + {c}, map[], b, toHelper);
    assert Verify(w, {a} + {c} + {b}, map[], c) == (Compatible, map[]);
    assert {} + {a} == {a};
    var after := map[b := true, c := false, a := false];
    assert Verify(w, {}, map[], a) == (Incompatible, after);
    assert Verify(w, {}, after, b) == (Compatible, after);
    var candidates := [newer, older];
    assert candidates[1..] == [older];
    assert toHelper in Followed(w, b);
    DepReaches(w, b, c);
    assert !OwnGate(w, c);
    hide Verify;
  }

  ghost predicate FirstToPass(w: World, identity: string, candidates: seq<Tag>, i: nat)
    requires i < |candidates|
  {
    && AllPass(w, Key(identity, candidates[i].commit))
    && forall j :: 0 <= j < i ==> !AllPass(w, Key(identity, candidates[j].commit))
  }

  /** In terms of the tags: what is picked is for no newer epoch than the project's, and no
      tag that is newer than it and usable passes. */
  lemma PickIsNewestPassing(w: World, identity: string, tags: seq<Tag>, epoch: int, candidates: seq<Tag>, i: nat, t: Tag)
    requires IsCandidates(tags, epoch, candidates) && i < |candidates| && FirstToPass(w, identity, candidates, i)
    requires t in tags && candidates[i].epoch < t.epoch <= epoch
    ensures !AllPass(w, Key(identity, t.commit))
    ensures candidates[i] in tags && candidates[i].epoch <= epoch
  {
  }

  // ---------------------------------------------------------------------------
  // The code.
  // ---------------------------------------------------------------------------

  /** The usable tags, each as often as it is there. */
  ghost predicate AllUsable(tags: seq<Tag>, epoch: int, candidates: seq<Tag>) {
    forall t: Tag :: multiset(candidates)[t] == if t.epoch <= epoch then multiset(tags)[t] else 0
  }

  /** The tags for no newer epoch than the project's, newest first. Sorting is by insertion;
      the order among equals is not relied on. */
  method Candidates(tags: seq<Tag>, epoch: int) returns (candidates: seq<Tag>)
    ensures IsCandidates(tags, epoch, candidates) && AllUsable(tags, epoch, candidates)
  {
    candidates := [];
    assert AllUsable([], epoch, []);
    hide AllUsable, IsCandidates;
    for i := 0 to |tags|
      invariant NewestFirst(candidates) && AllUsable(tags[..i], epoch, candidates)
    {
      assert tags[..i + 1] == tags[..i] + [tags[i]];
      OneMoreTag(tags[..i], epoch, candidates, tags[i]);
      if tags[i].epoch <= epoch {
        candidates := Insert(candidates, tags[i]);
      }
    }
    assert tags[..|tags|] == tags;
    UsableAre(tags, epoch, candidates);
  }

  method Insert(sorted: seq<Tag>, t: Tag) returns (longer: seq<Tag>)
    requires NewestFirst(sorted)
    ensures NewestFirst(longer) && multiset(longer) == multiset(sorted) + multiset{t}
  {
    var k := 0;
    while k < |sorted| && sorted[k].epoch >= t.epoch
      invariant k <= |sorted| && forall j :: 0 <= j < k ==> sorted[j].epoch >= t.epoch
    {
      k := k + 1;
    }
    longer := sorted[..k] + [t] + sorted[k..];
    Spliced(sorted, k, t);
    InsertedOrder(sorted, longer, k, t);
  }

  lemma OneMoreTag(tags: seq<Tag>, epoch: int, candidates: seq<Tag>, t: Tag)
    requires AllUsable(tags, epoch, candidates)
    ensures if t.epoch <= epoch
            then forall c :: multiset(c) == multiset(candidates) + multiset{t} ==> AllUsable(tags + [t], epoch, c)
            else AllUsable(tags + [t], epoch, candidates)
  {
    assert multiset(tags + [t]) == multiset(tags) + multiset{t};
  }

  lemma UsableAre(tags: seq<Tag>, epoch: int, candidates: seq<Tag>)
    requires AllUsable(tags, epoch, candidates) && NewestFirst(candidates)
    ensures IsCandidates(tags, epoch, candidates)
  {
    forall t
      ensures t in candidates <==> t in tags && t.epoch <= epoch
    {
      assert t in candidates <==> multiset(candidates)[t] > 0;
      assert t in tags <==> multiset(tags)[t] > 0;
    }
  }

  lemma Spliced(c: seq<Tag>, k: nat, t: Tag)
    requires k <= |c|
    ensures var longer := c[..k] + [t] + c[k..];
      && |longer| == |c| + 1 && longer[k] == t && multiset(longer) == multiset(c) + multiset{t}
      && (forall i :: 0 <= i < k ==> longer[i] == c[i]) && (forall i :: k < i < |longer| ==> longer[i] == c[i - 1])
  {
    assert c == c[..k] + c[k..];
  }

  lemma InsertedOrder(c: seq<Tag>, longer: seq<Tag>, k: nat, t: Tag)
    requires k <= |c| && |longer| == |c| + 1 && longer[k] == t
    requires (forall i :: 0 <= i < k ==> longer[i] == c[i]) && (forall i :: k < i < |longer| ==> longer[i] == c[i - 1])
    requires NewestFirst(c) && (forall j :: 0 <= j < k ==> c[j].epoch >= t.epoch) && (k < |c| ==> c[k].epoch < t.epoch)
    ensures NewestFirst(longer)
  {
    forall i, j | 0 <= i < j < |longer|
      ensures longer[i].epoch >= longer[j].epoch
    {
      if j > k {
        assert longer[j] == c[j - 1] && (k < |c| ==> c[k].epoch >= c[j - 1].epoch);
      }
    }
  }

  lemma CandidatesAreTags(tags: seq<Tag>, epoch: int, candidates: seq<Tag>)
    requires IsCandidates(tags, epoch, candidates)
    ensures (forall t :: t in candidates ==> t in tags) && (tags == [] ==> candidates == [])
  {
    if candidates != [] {
      assert candidates[0] in candidates;
    }
  }

  lemma WalkBackStep(w: World, identity: string, cache: Cache, candidates: seq<Tag>)
    requires Closed(w) && candidates != [] && forall t :: t in candidates ==> Key(identity, t.commit) in w.keys
    ensures var (v, after) := Verify(w, {}, cache, Key(identity, candidates[0].commit));
      WalkBack(w, identity, cache, candidates)
      == match v
         case Compatible => (Pick(candidates[0].commit), after)
         case Incompatible => WalkBack(w, identity, after, candidates[1..])
         case Aborted => (Stuck, after)
  {
    hide Verify, Closed;
  }

  lemma WalkBackEnd(w: World, identity: string, cache: Cache)
    requires Closed(w)
    ensures WalkBack(w, identity, cache, []) == (NoVersion(false), cache)
  {
  }

  class Verifier {
    const w: World
    var visiting: set<Key>
    var cache: Cache

    constructor (w: World, cache: Cache)
      ensures this.w == w && this.cache == cache && visiting == {}
    {
      this.w := w;
      this.cache := cache;
      visiting := {};
    }

    ghost function Budget(): nat
      reads this
    {
      |w.keys - visiting|
    }

    method VerifyModule(k: Key) returns (v: Verdict)
      requires Closed(w) && k in w.keys
      modifies this`visiting, this`cache
      ensures visiting == old(visiting)
      ensures (v, cache) == Verify(w, visiting, old(cache), k)
      decreases Budget(), 0
    {
      if k in cache {
        return if cache[k] then Compatible else Incompatible;
      }
      if k in visiting {
        return Compatible;
      }
      ghost var busy := visiting;
      BudgetDrops(w.keys, visiting, k);
      visiting := visiting + {k};
      v := Recorded(k);
      visiting := visiting - {k};
      assert visiting == busy;
    }

    /** Verification proper, between marking the module and unmarking it. */
    method Recorded(k: Key) returns (v: Verdict)
      requires Closed(w) && k in w.keys && k in visiting && k !in cache
      modifies this`visiting, this`cache
      ensures visiting == old(visiting)
      ensures forall busy :: k !in busy && visiting == busy + {k} ==> (v, cache) == Verify(w, busy, old(cache), k)
      decreases Budget(), 3
    {
      var checkout := w.checkout(k);
      if checkout.FetchError? {
        return Aborted;
      }
      if checkout.NoManifest? || checkout.BadManifest? {
        cache := cache[k := false];
        return Incompatible;
      }
      PinsKnown(w, k);
      v := VerifyDeps(checkout.require, checkout.named);
      if v.Aborted? {
        return;
      }
      if v.Incompatible? {
        cache := cache[k := false];
        return;
      }
      var gate := w.gate(k);
      if gate.GateError? {
        return Aborted;
      }
      cache := cache[k := gate.Passes?];
      return if gate.Passes? then Compatible else Incompatible;
    }

    /** The [require] pins, then the named ones. */
    method VerifyDeps(require: seq<Pin>, named: seq<Pin>) returns (v: Verdict)
      requires Closed(w) && forall p :: p in GitPins(require) + FullPins(named) ==> KeyOf(w, p) in w.keys
      modifies this`visiting, this`cache
      ensures visiting == old(visiting)
      ensures (v, cache) == VerifyPins(w, visiting, old(cache), GitPins(require) + FullPins(named))
      decreases Budget(), 2
    {
      assert forall p :: p in GitPins(require) ==> p in GitPins(require) + FullPins(named);
      assert forall p :: p in FullPins(named) ==> p in GitPins(require) + FullPins(named);
      VerifyPinsConcat(w, visiting, cache, GitPins(require), FullPins(named));
      v := VerifyRequire(require);
      if v.Compatible? {
        v := VerifyNamed(named);
      }
    }

    method VerifyRequire(require: seq<Pin>) returns (v: Verdict)
      requires Closed(w) && forall p :: p in GitPins(require) ==> KeyOf(w, p) in w.keys
      modifies this`visiting, this`cache
      ensures visiting == old(visiting)
      ensures (v, cache) == VerifyPins(w, visiting, old(cache), GitPins(require))
      decreases Budget(), 1
    {
      for i := 0 to |require|
        invariant visiting == old(visiting)
        invariant forall p :: p in GitPins(require[i..]) ==> KeyOf(w, p) in w.keys
        invariant VerifyPins(w, visiting, cache, GitPins(require[i..])) == VerifyPins(w, visiting, old(cache), GitPins(require))
      {
        var p := require[i].(subdir := "");
        assert require[i..][1..] == require[i + 1..];
        if p.commit == "" {
          assert GitPins(require[i..]) == GitPins(require[i + 1..]);
          continue;
        }
        assert GitPins(require[i..]) == [p] + GitPins(require[i + 1..]);
        v := VerifyModule(KeyOf(w, p));
        if !v.Compatible? {
          return;
        }
      }
      return Compatible;
    }

    method VerifyNamed(named: seq<Pin>) returns (v: Verdict)
      requires Closed(w) && forall p :: p in FullPins(named) ==> KeyOf(w, p) in w.keys
      modifies this`visiting, this`cache
      ensures visiting == old(visiting)
      ensures (v, cache) == VerifyPins(w, visiting, old(cache), FullPins(named))
      decreases Budget(), 1
    {
      for i := 0 to |named|
        invariant visiting == old(visiting)
        invariant forall p :: p in FullPins(named[i..]) ==> KeyOf(w, p) in w.keys
        invariant VerifyPins(w, visiting, cache, FullPins(named[i..])) == VerifyPins(w, visiting, old(cache), FullPins(named))
      {
        var p := named[i];
        assert named[i..][1..] == named[i + 1..];
        if p.url == "" || p.commit == "" {
          assert FullPins(named[i..]) == FullPins(named[i + 1..]);
          continue;
        }
        assert FullPins(named[i..]) == [p] + FullPins(named[i + 1..]);
        v := VerifyModule(KeyOf(w, p));
        if !v.Compatible? {
          return;
        }
      }
      return Compatible;
    }

    /** Picks the commit to pin. `explicitRef` is what the user's reference resolved to, if
        one was given; `fallback` is the stable tag or the default branch's head. */
    method ResolveEpochAware(identity: string, epoch: int, explicitRef: Option<string>, tags: seq<Tag>, fallback: Option<string>)
        returns (choice: Choice, candidates: seq<Tag>)
      requires Closed(w) && visiting == {}
      requires forall c :: explicitRef == Some(c) || fallback == Some(c) ==> Key(identity, c) in w.keys
      requires forall t :: t in tags ==> Key(identity, t.commit) in w.keys
      modifies this`visiting, this`cache
      ensures visiting == {} && IsCandidates(tags, epoch, candidates) && forall t :: t in candidates ==> t in tags
      ensures explicitRef.None? && candidates != [] ==> (choice, cache) == WalkBack(w, identity, old(cache), candidates)
      ensures explicitRef.None? && candidates == [] && tags != [] ==> choice == NoVersion(true) && cache == old(cache)
      ensures explicitRef.None? && candidates == [] && tags == [] && fallback.None? ==> choice == Stuck && cache == old(cache)
      ensures explicitRef.None? && candidates == [] && tags == [] && fallback.Some? ==>
        var (v, after) := Verify(w, {}, old(cache), Key(identity, fallback.value));
        cache == after
        && choice == match v { case Compatible => Pick(fallback.value) case Incompatible => NoVersion(false) case Aborted => Stuck }
      ensures explicitRef.Some? ==>
        var (v, after) := Verify(w, {}, old(cache), Key(identity, explicitRef.value));
        cache == after
        && choice == match v { case Compatible => Pick(explicitRef.value) case Incompatible => Rejected(explicitRef.value) case Aborted => Stuck }
      // What the user asked for is picked exactly if it passes, and so is the fallback.
      ensures Accurate(w, old(cache)) && explicitRef.Some? ==>
        (choice == Pick(explicitRef.value) <==> AllPass(w, Key(identity, explicitRef.value)))
      ensures Accurate(w, old(cache)) && explicitRef.None? && tags == [] && fallback.Some? ==>
        (choice == Pick(fallback.value) <==> AllPass(w, Key(identity, fallback.value)))
    {
      ghost var before := cache;
      hide Accurate, AllPass, Closed, Verify, WalkBack, IsCandidates;
      if Accurate(w, before) {
        if explicitRef.Some? {
          VerdictExact(w, before, Key(identity, explicitRef.value));
        }
        if fallback.Some? {
          VerdictExact(w, before, Key(identity, fallback.value));
        }
      }
      candidates := Candidates(tags, epoch);
      CandidatesAreTags(tags, epoch, candidates);
      var v: Verdict;
      if explicitRef.Some? {
        v := VerifyModule(Key(identity, explicitRef.value));
        choice := match v { case Compatible => Pick(explicitRef.value) case Incompatible => Rejected(explicitRef.value) case Aborted => Stuck };
        return;
      }
      if candidates == [] && tags != [] {
        return NoVersion(true), candidates;
      }
      if candidates == [] {
        if fallback.None? {
          return Stuck, candidates;
        }
        v := VerifyModule(Key(identity, fallback.value));
        choice := match v { case Compatible => Pick(fallback.value) case Incompatible => NoVersion(false) case Aborted => Stuck };
        return;
      }
      for i := 0 to |candidates|
        invariant visiting == {}
        invariant WalkBack(w, identity, cache, candidates[i..]) == WalkBack(w, identity, old(cache), candidates)
      {
        assert candidates[i..][1..] == candidates[i + 1..];
        WalkBackStep(w, identity, cache, candidates[i..]);
        v := VerifyModule(Key(identity, candidates[i].commit));
        match v {
          case Compatible => return Pick(candidates[i].commit), candidates;
          case Aborted => return Stuck, candidates;
          case Incompatible =>
        }
      }
      WalkBackEnd(w, identity, cache);
      return NoVersion(false), candidates;
    }
  }
}
