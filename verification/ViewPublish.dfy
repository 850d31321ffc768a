/**
 Publishing a toolchain view: a lock-free, file-by-file completeness check, and population
 under a cross-process lock with a staging directory and one rename.

 Any number of processes take steps in any order and may die between any two of them; the
 operating system then releases the lock. Cleaning sweeps of published views are excluded.
 */
module ViewPublish {
  import opened Wrappers

  type File = string
  type Pid = nat
  type TempId = nat

  /** A directory's entries; true marks a file whose content is all there. */
  type Folder = map<File, bool>

  datatype Pc =
    | Start
    | Checking(seen: set<File>, locked: bool)  // the files found so far
    | Waiting                                  // for the lock
    | Staging                                  // holds the lock, found the view incomplete
    | Populating(temp: TempId)
    | Removing(temp: TempId)                   // removing the incomplete leftover
    | Renaming(temp: TempId)
    | Discarding(temp: TempId)                 // removing its staging directory
    | Leaving(ok: bool)                        // about to release the lock
    | Done(ok: bool)
    | Dead

  datatype State = State(
    view: Option<Folder>,
    temps: map<TempId, Folder>,  // the `.tmp-` siblings
    lock: Option<Pid>,
    pcs: map<Pid, Pc>)

  datatype Action =
    | BeginCheck
    | FindFile(f: File)
    | MissFile(f: File)
    | AllFound
    | Acquire
    | LockFails
    | GiveUp
    | Sweep(temp: TempId)
    | MakeTemp(temp: TempId)
    | StartFile(f: File)
    | FinishFile(f: File)
    | PopulateFails
    | PopulateDone
    | RemoveFile(f: File)
    | RemoveFolder
    | RemoveStops
    | RenameWorks
    | RenameFails
    | DiscardFile(f: File)
    | DiscardFolder
    | DiscardStops
    | Unlock
    | Crash

  predicate HasAll(required: set<File>, d: Folder) {
    forall f :: f in required ==> f in d
  }

  /** Every required file is there with its content. */
  predicate Whole(required: set<File>, d: Folder) {
    forall f :: f in required ==> f in d && d[f]
  }

  predicate Complete(required: set<File>, view: Option<Folder>) {
    view.Some? && Whole(required, view.value)
  }

  predicate InView(view: Option<Folder>, f: File) {
    view.Some? && f in view.value
  }

  predicate HoldsLock(pc: Pc) {
    match pc
    case Checking(_, locked) => locked
    case Staging | Populating(_) | Removing(_) | Renaming(_) | Discarding(_) | Leaving(_) => true
    case _ => false
  }

  predicate UsesTemp(pc: Pc, t: TempId) {
    (pc.Populating? || pc.Removing? || pc.Renaming? || pc.Discarding?) && pc.temp == t
  }

  /** Process p performs one action. */
  predicate Step(required: set<File>, s: State, p: Pid, a: Action, s': State) {
    && p in s.pcs
    && var pc := s.pcs[p];
    match a
    case BeginCheck =>
      pc.Start? && s' == s.(pcs := s.pcs[p := Checking({}, false)])
    case FindFile(f) =>
      pc.Checking? && f in required && InView(s.view, f)
      && s' == s.(pcs := s.pcs[p := Checking(pc.seen + {f}, pc.locked)])
    case MissFile(f) =>
      pc.Checking? && f in required && !InView(s.view, f)
      && s' == s.(pcs := s.pcs[p := if pc.locked then Staging else Waiting])
    case AllFound =>
      pc.Checking? && required <= pc.seen
      && s' == s.(pcs := s.pcs[p := if pc.locked then Leaving(true) else Done(true)])
    case Acquire =>
      pc.Waiting? && s.lock.None? && s' == s.(lock := Some(p), pcs := s.pcs[p := Checking({}, true)])
    case LockFails =>
      pc.Waiting? && s' == s.(pcs := s.pcs[p := Done(false)])
    case GiveUp =>
      pc.Staging? && s' == s.(pcs := s.pcs[p := Leaving(false)])
    case Sweep(t) =>
      // Only staging directories past the age limit, which no live populator's is.
      && pc.Staging? && t in s.temps && (forall q :: q in s.pcs ==> !UsesTemp(s.pcs[q], t))
      && s' == s.(temps := s.temps - {t})
    case MakeTemp(t) =>
      pc.Staging? && t !in s.temps
      && s' == s.(temps := s.temps[t := map[]], pcs := s.pcs[p := Populating(t)])
    case StartFile(f) =>
      pc.Populating? && pc.temp in s.temps
      && s' == s.(temps := s.temps[pc.temp := s.temps[pc.temp][f := false]])
    case FinishFile(f) =>
      pc.Populating? && pc.temp in s.temps && f in s.temps[pc.temp]
      && s' == s.(temps := s.temps[pc.temp := s.temps[pc.temp][f := true]])
    case PopulateFails =>
      pc.Populating? && s' == s.(pcs := s.pcs[p := Discarding(pc.temp)])
    case PopulateDone =>
      pc.Populating? && pc.temp in s.temps && Whole(required, s.temps[pc.temp])
      && s' == s.(pcs := s.pcs[p := Removing(pc.temp)])
    case RemoveFile(f) =>
      pc.Removing? && InView(s.view, f) && s' == s.(view := Some(s.view.value - {f}))
    case RemoveFolder =>
      pc.Removing? && s.view == Some(map[]) && s' == s.(view := None)
    case RemoveStops =>
      // Finished, or failed part-way; the source ignores the error.
      pc.Removing? && s' == s.(pcs := s.pcs[p := Renaming(pc.temp)])
    case RenameWorks =>
      pc.Renaming? && pc.temp in s.temps && (s.view.None? || s.view == Some(map[]))
      && s' == s.(view := Some(s.temps[pc.temp]), temps := s.temps - {pc.temp}, pcs := s.pcs[p := Leaving(true)])
    case RenameFails =>
      pc.Renaming? && s' == s.(pcs := s.pcs[p := Discarding(pc.temp)])
    case DiscardFile(f) =>
      pc.Discarding? && pc.temp in s.temps
      && s' == s.(temps := s.temps[pc.temp := s.temps[pc.temp] - {f}])
    case DiscardFolder =>
      pc.Discarding? && pc.temp in s.temps && s.temps[pc.temp] == map[]
      && s' == s.(temps := s.temps - {pc.temp}, pcs := s.pcs[p := Leaving(false)])
    case DiscardStops =>
      pc.Discarding? && s' == s.(pcs := s.pcs[p := Leaving(false)])
    case Unlock =>
      pc.Leaving? && s' == s.(lock := None, pcs := s.pcs[p := Done(pc.ok)])
    case Crash =>
      !pc.Done? && !pc.Dead? && s' == s.(lock := if s.lock == Some(p) then None else s.lock, pcs := s.pcs[p := Dead])
  }

  ghost predicate Next(required: set<File>, s: State, s': State) {
    exists p, a :: Step(required, s, p, a, s')
  }

  /** Any number of processes and any debris. A view without files is never asked for. */
  predicate Idle(required: set<File>, s: State) {
    required != {} && s.lock.None? && forall p :: p in s.pcs ==> s.pcs[p].Start?
  }

  /** And a view that is absent, complete, or a leftover that lacks a file. */
  predicate Init(required: set<File>, s: State) {
    Idle(required, s) && (Complete(required, s.view) || s.view.None? || !HasAll(required, s.view.value))
  }

  ghost predicate Steps(required: set<File>, trace: seq<State>) {
    trace != [] && forall i :: 0 <= i < |trace| - 1 ==> Next(required, trace[i], trace[i + 1])
  }

  ghost predicate Run(required: set<File>, trace: seq<State>) {
    Steps(required, trace) && Init(required, trace[0])
  }

  // ---------------------------------------------------------------------------

  /** A required file that is missing and that no check under way has found. */
  ghost predicate Missing(required: set<File>, s: State, f: File) {
    && f in required && !InView(s.view, f)
    && (forall p :: p in s.pcs && s.pcs[p].Checking? ==> f !in s.pcs[p].seen)
  }

  predicate PcRight(required: set<File>, s: State, p: Pid, pc: Pc) {
    && (HoldsLock(pc) ==> s.lock == Some(p))
    && (pc.Staging? || pc.Populating? || pc.Removing? || pc.Renaming? ==> !Complete(required, s.view))
    && (pc.Populating? ==> pc.temp in s.temps)
    && (pc.Removing? || pc.Renaming? ==> pc.temp in s.temps && Whole(required, s.temps[pc.temp]))
    && ((pc.Leaving? || pc.Done?) && pc.ok ==> Complete(required, s.view))
  }

  ghost predicate Inv(required: set<File>, s: State) {
    && (forall p :: p in s.pcs ==> PcRight(required, s, p, s.pcs[p]))
    && (Complete(required, s.view) || exists f :: Missing(required, s, f))
  }

  lemma InitInv(required: set<File>, s: State)
    requires Init(required, s)
    ensures Inv(required, s)
  {
    if !Complete(required, s.view) {
      var g :| g in required;
      var f :| f in required && !InView(s.view, f);
      assert Missing(required, s, f);
    }
  }

  /** At most one process is past the lock. */
  lemma MutualExclusion(required: set<File>, s: State, p: Pid, q: Pid)
    requires Inv(required, s) && p in s.pcs && q in s.pcs
    requires HoldsLock(s.pcs[p]) && HoldsLock(s.pcs[q])
    ensures p == q
  {
  }

  /** A complete view is left alone by every step. */
  lemma CompleteViewUntouched(required: set<File>, s: State, p: Pid, a: Action, s': State)
    requires Inv(required, s) && Step(required, s, p, a, s') && Complete(required, s.view)
    ensures s'.view == s.view
  {
  }

  /** Only the lock holder changes the view. */
  lemma OthersKeepTheView(required: set<File>, s: State, p: Pid, a: Action, s': State, q: Pid)
    requires Inv(required, s) && Step(required, s, p, a, s') && q in s.pcs && q != p
    requires HoldsLock(s.pcs[q])
    ensures s'.view == s.view && s'.pcs[q] == s.pcs[q]
    ensures s'.lock == s.lock
    ensures forall t :: UsesTemp(s.pcs[q], t) && t in s.temps ==> t in s'.temps && s'.temps[t] == s.temps[t]
  {
  }

  lemma {:induction false} StepInv(required: set<File>, s: State, p: Pid, a: Action, s': State)
    requires Inv(required, s) && Step(required, s, p, a, s')
    ensures Inv(required, s')
  {
    assert PcRight(required, s, p, s.pcs[p]);
    MissingStays(required, s, p, a, s');
    forall q | q in s'.pcs
      ensures PcRight(required, s', q, s'.pcs[q])
    {
      assert PcRight(required, s, q, s.pcs[q]);
      if q != p && HoldsLock(s.pcs[q]) {
        OthersKeepTheView(required, s, p, a, s', q);
      }
    }
  }

  lemma MissingStays(required: set<File>, s: State, p: Pid, a: Action, s': State)
    requires Inv(required, s) && Step(required, s, p, a, s')
    ensures Complete(required, s'.view) || exists f :: Missing(required, s', f)
    ensures a.AllFound? ==> Complete(required, s.view)
    ensures a.MissFile? ==> !Complete(required, s.view)
  {
    assert PcRight(required, s, p, s.pcs[p]);
    if !Complete(required, s.view) {
      var f :| Missing(required, s, f);
      if !a.RenameWorks? {
        assert Missing(required, s', f);
      }
    }
  }

  lemma {:induction false} RunInv(required: set<File>, trace: seq<State>, i: nat)
    requires Run(required, trace) && i < |trace|
    ensures Inv(required, trace[i])
  {
    if i == 0 {
      InitInv(required, trace[0]);
    } else {
      RunInv(required, trace, i - 1);
      assert Next(required, trace[i - 1], trace[i - 1 + 1]);
      var p, a :| Step(required, trace[i - 1], p, a, trace[i]);
      StepInv(required, trace[i - 1], p, a, trace[i]);
    }
  }

  // --- Main results ------------------------------------------------------------------

  lemma {:induction false} CompleteStays(required: set<File>, trace: seq<State>, i: nat, j: nat)
    requires Run(required, trace) && i <= j < |trace| && Complete(required, trace[i].view)
    ensures trace[j].view == trace[i].view
    decreases j
  {
    if i < j {
      CompleteStays(required, trace, i, j - 1);
      RunInv(required, trace, j - 1);
      assert Next(required, trace[j - 1], trace[j - 1 + 1]);
      var p, a :| Step(required, trace[j - 1], p, a, trace[j]);
      CompleteViewUntouched(required, trace[j - 1], p, a, trace[j]);
    }
  }

  /** In every run: once a process has answered with the view, lock-free or not, the view
      holds every required file with its content, and it never changes again. */
  lemma AnswerIsSound(required: set<File>, trace: seq<State>, i: nat, j: nat, p: Pid)
    requires Run(required, trace) && i <= j < |trace|
    requires p in trace[i].pcs && trace[i].pcs[p] == Done(true)
    ensures Complete(required, trace[j].view) && trace[j].view == trace[i].view
  {
    RunInv(required, trace, i);
    assert PcRight(required, trace[i], p, trace[i].pcs[p]);
    CompleteStays(required, trace, i, j);
  }

  ghost predicate AnswersSound(required: set<File>, trace: seq<State>) {
    forall i, p :: 0 <= i < |trace| && p in trace[i].pcs && trace[i].pcs[p] == Done(true) ==> Complete(required, trace[i].view)
  }

  /** Which views that can be found at the start are safe: all but a leftover that has every
      file, some not whole. The check asks for names only and takes it for complete. */
  lemma SafeStartsExactly(required: set<File>, s: State)
    requires Idle(required, s) && s.pcs != map[]
    ensures Init(required, s) <==> forall trace :: Steps(required, trace) && trace[0] == s ==> AnswersSound(required, trace)
  {
    if Init(required, s) {
      forall trace: seq<State>, i: nat, p: Pid | Steps(required, trace) && trace[0] == s && i < |trace| && p in trace[i].pcs
        ensures trace[i].pcs[p] == Done(true) ==> Complete(required, trace[i].view)
      {
        if trace[i].pcs[p] == Done(true) {
          AnswerIsSound(required, trace, i, i, p);
        }
      }
    } else {
      var p :| p in s.pcs;
      var first := s.(pcs := s.pcs[p := Checking({}, false)]);
      assert Step(required, s, p, BeginCheck, first);
      var rest := FindsAll(required, first, p);
      var trace := [s] + rest;
      forall i | 0 <= i < |trace| - 1 ensures Next(required, trace[i], trace[i + 1]) {
        assert i > 0 ==> trace[i] == rest[i - 1] && trace[i + 1] == rest[i];
      }
      var n := |trace| - 1;
      assert trace[n] == rest[|rest| - 1];
      assert Steps(required, trace) && !AnswersSound(required, trace);
    }
  }

  /** A check under way finds the files left to find, one by one. */
  lemma {:induction false} FindsAll(required: set<File>, s: State, p: Pid) returns (trace: seq<State>)
    requires s.view.Some? && HasAll(required, s.view.value)
    requires p in s.pcs && s.pcs[p].Checking? && !s.pcs[p].locked && s.pcs[p].seen <= required
    ensures Steps(required, trace) && trace[0] == s
    ensures var last := trace[|trace| - 1]; last.view == s.view && p in last.pcs && last.pcs[p] == Done(true)
    decreases required - s.pcs[p].seen
  {
    var pc := s.pcs[p];
    if f :| f in required - pc.seen {
      var next := s.(pcs := s.pcs[p := Checking(pc.seen + {f}, false)]);
      assert Step(required, s, p, FindFile(f), next);
      var rest := FindsAll(required, next, p);
      trace := [s] + rest;
      forall i | 0 <= i < |trace| - 1 ensures Next(required, trace[i], trace[i + 1]) {
        assert i > 0 ==> trace[i] == rest[i - 1] && trace[i + 1] == rest[i];
      }
    } else {
      var next := s.(pcs := s.pcs[p := Done(true)]);
      assert forall f :: f in required ==> f in pc.seen || f in required - pc.seen;
      assert Step(required, s, p, AllFound, next);
      trace := [s, next];
    }
  }

  /** A folder holding no more than another, with the same files. */
  predicate Within(a: Folder, b: Folder) {
    forall f :: f in a ==> f in b && a[f] == b[f]
  }

  /** In every run, crashes included: what is visible under the view's name is the leftover
      found at the start, in full or partly removed, or a complete view. A half-populated
      one exists only as a staging sibling. */
  lemma {:induction false} NeverHalfBuilt(required: set<File>, trace: seq<State>, i: nat)
    requires Run(required, trace) && i < |trace|
    ensures var v := trace[i].view;
      v.None? || Complete(required, v) || (trace[0].view.Some? && Within(v.value, trace[0].view.value))
  {
    if i > 0 {
      NeverHalfBuilt(required, trace, i - 1);
      RunInv(required, trace, i - 1);
      var s, s' := trace[i - 1], trace[i];
      assert Next(required, s, trace[i - 1 + 1]);
      var p, a :| Step(required, s, p, a, s');
      StepShrinksOrCompletes(required, s, p, a, s');
    }
  }

  /** One step leaves the view alone, makes it complete, or takes away from an incomplete one. */
  lemma StepShrinksOrCompletes(required: set<File>, s: State, p: Pid, a: Action, s': State)
    requires Inv(required, s) && Step(required, s, p, a, s')
    ensures || s'.view == s.view
            || (!Complete(required, s.view) && Complete(required, s'.view))
            || (!Complete(required, s.view) && s.view.Some? && (s'.view.None? || Within(s'.view.value, s.view.value)))
  {
  }

  /** A death changes neither the view nor the staging directories, and frees the lock. */
  lemma CrashLeavesDebrisOnly(required: set<File>, s: State, p: Pid, s': State)
    requires Inv(required, s) && Step(required, s, p, Crash, s')
    ensures s'.view == s.view && s'.temps == s.temps
    ensures HoldsLock(s.pcs[p]) ==> s'.lock.None?
    ensures Inv(required, s')
  {
    assert PcRight(required, s, p, s.pcs[p]);
    StepInv(required, s, p, Crash, s');
  }

  // --- When a process answers failure ---------------------------------------------------

  /** An action that is a failure, of the lock, of populating or of the last rename. */
  predicate Fails(a: Action) {
    a.LockFails? || a.GiveUp? || a.PopulateFails? || a.RenameFails?
  }

  /** On the way to a failure, or there. */
  predicate GivenUp(pc: Pc) {
    pc.Discarding? || ((pc.Leaving? || pc.Done?) && !pc.ok)
  }

  /** A process answers failure only after a step of its own that failed. */
  lemma {:induction false} FailureHasCause(required: set<File>, trace: seq<State>, i: nat, p: Pid) returns (j: nat, a: Action)
    requires Run(required, trace) && i < |trace| && p in trace[i].pcs && GivenUp(trace[i].pcs[p])
    ensures j < i && Fails(a) && Step(required, trace[j], p, a, trace[j + 1])
    decreases i
  {
    assert i > 0;
    j := i - 1;
    assert Next(required, trace[j], trace[j + 1]);
    var q, b :| Step(required, trace[j], q, b, trace[j + 1]);
    if p in trace[j].pcs && GivenUp(trace[j].pcs[p]) {
      j, a := FailureHasCause(required, trace, j, p);
    } else {
      hide Run, Next;
      GivesUp(required, trace[j], q, b, trace[i], p);
      a := b;
    }
  }

  lemma GivesUp(required: set<File>, s: State, q: Pid, a: Action, s': State, p: Pid)
    requires Step(required, s, q, a, s') && p in s'.pcs && GivenUp(s'.pcs[p]) && !(p in s.pcs && GivenUp(s.pcs[p]))
    ensures p == q && Fails(a)
  {
  }

  /** So one that returns without such a step answers with a complete view. */
  lemma WithoutFailureComplete(required: set<File>, trace: seq<State>, i: nat, p: Pid)
    requires Run(required, trace) && i < |trace| && p in trace[i].pcs && trace[i].pcs[p].Done?
    requires forall j, a :: 0 <= j < i && Step(required, trace[j], p, a, trace[j + 1]) ==> !Fails(a)
    ensures trace[i].pcs[p] == Done(true) && Complete(required, trace[i].view)
  {
    if !trace[i].pcs[p].ok {
      var j, a := FailureHasCause(required, trace, i, p);
    } else {
      AnswerIsSound(required, trace, i, i, p);
    }
  }

  /** A staging directory is left behind only by a process that died or whose removal of it
      stopped part-way. */
  lemma {:induction false} StagingCleared(required: set<File>, trace: seq<State>, i: nat, t: TempId)
      returns (j: nat, p: Pid, a: Action)
    requires Run(required, trace) && i < |trace| && t in trace[i].temps && t !in trace[0].temps
    requires forall q :: q in trace[i].pcs ==> !UsesTemp(trace[i].pcs[q], t)
    ensures j < i && Step(required, trace[j], p, a, trace[j + 1]) && (a.Crash? || a.DiscardStops?)
    ensures UsesTemp(trace[j].pcs[p], t)
    decreases i
  {
    j := i - 1;
    assert Next(required, trace[j], trace[j + 1]);
    p, a :| Step(required, trace[j], p, a, trace[j + 1]);
    if t in trace[j].temps && forall q :: q in trace[j].pcs ==> !UsesTemp(trace[j].pcs[q], t) {
      j, p, a := StagingCleared(required, trace, j, t);
    } else {
      hide Run, Next;
      LetsGo(required, trace[j], p, a, trace[i], t);
    }
  }

  lemma LetsGo(required: set<File>, s: State, p: Pid, a: Action, s': State, t: TempId)
    requires Step(required, s, p, a, s') && t in s'.temps && forall q :: q in s'.pcs ==> !UsesTemp(s'.pcs[q], t)
    requires t !in s.temps || exists q :: q in s.pcs && UsesTemp(s.pcs[q], t)
    ensures (a.Crash? || a.DiscardStops?) && UsesTemp(s.pcs[p], t)
  {
    assert p in s'.pcs;
    forall q | q in s.pcs && q != p
      ensures q in s'.pcs && s'.pcs[q] == s.pcs[q]
    {
    }
  }

  // --- And that it need not ---------------------------------------------------------------

  /** The process is alive, has not failed, and does not wait for a lock that is taken or
      rename onto a leftover that could not be removed. */
  predicate Able(s: State, p: Pid) {
    && p in s.pcs && !s.pcs[p].Dead? && !GivenUp(s.pcs[p])
    && (s.pcs[p].Waiting? ==> s.lock.None?)
    && (s.pcs[p].Renaming? ==> s.view.None? || s.view == Some(map[]))
  }

  /** And the lock is its own or nobody's. */
  predicate Free(s: State, p: Pid) {
    Able(s, p) && (s.lock.None? || (s.lock == Some(p) && HoldsLock(s.pcs[p])))
  }

  function Stage(pc: Pc): nat {
    match pc
    case Start => 9
    case Checking(_, locked) => if locked then 6 else 8
    case Waiting => 7
    case Staging => 5
    case Populating(_) => 4
    case Removing(_) => 3
    case Renaming(_) => 2
    case Leaving(_) => 1
    case _ => 0
  }

  /** What is left to do within a stage. */
  function ToDo(required: set<File>, s: State, p: Pid): set<(File, bool)>
    requires p in s.pcs
  {
    match s.pcs[p]
    case Checking(seen, _) => set f | f in required - seen :: (f, true)
    case Populating(t) =>
      if t in s.temps then
        (set f | f in required && f !in s.temps[t] :: (f, false))
        + (set f | f in required && !(f in s.temps[t] && s.temps[t][f]) :: (f, true))
      else {}
    case Removing(_) => if s.view.Some? then (set f | f in s.view.value :: (f, true)) else {}
    case _ => {}
  }

  lemma {:induction false} FreshTemp(temps: map<TempId, Folder>) returns (t: TempId)
    ensures forall u :: u in temps ==> u < t
    decreases |temps|
  {
    t := 0;
    if temps != map[] {
      var u :| u in temps;
      var rest := temps - {u};
      assert rest.Keys == temps.Keys - {u};
      var v := FreshTemp(rest);
      t := if u < v then v else u + 1;
      forall x | x in temps ensures x < t {
        assert x != u ==> x in rest;
      }
    }
  }

  predicate Nearer(required: set<File>, s: State, s': State, p: Pid) {
    && p in s.pcs && p in s'.pcs
    && (|| Stage(s'.pcs[p]) < Stage(s.pcs[p])
        || (Stage(s'.pcs[p]) == Stage(s.pcs[p]) && ToDo(required, s', p) < ToDo(required, s, p)
            && (s'.view.Some? ==> s.view.Some?))
        || (s.pcs[p].Removing? && s'.pcs[p] == s.pcs[p] && s.view.Some? && s'.view.None?))
  }

  /** A live process that is not kept waiting always has a step that is no failure and brings
      it nearer to its answer. */
  lemma NeverStuck(required: set<File>, s: State, p: Pid) returns (a: Action, s': State)
    requires Inv(required, s) && Able(s, p) && !s.pcs[p].Done?
    ensures Step(required, s, p, a, s') && !Fails(a) && !a.Crash? && Nearer(required, s, s', p)
    ensures Free(s, p) ==> Free(s', p)
  {
    assert PcRight(required, s, p, s.pcs[p]);
    match s.pcs[p] {
      case Start =>
        a, s' := BeginCheck, s.(pcs := s.pcs[p := Checking({}, false)]);
      case Checking(_, _) =>
        a, s' := Checks(required, s, p);
      case Waiting =>
        a, s' := Acquire, s.(lock := Some(p), pcs := s.pcs[p := Checking({}, true)]);
      case Staging =>
        var t := FreshTemp(s.temps);
        a, s' := MakeTemp(t), s.(temps := s.temps[t := map[]], pcs := s.pcs[p := Populating(t)]);
      case Populating(_) =>
        a, s' := Populates(required, s, p);
      case Removing(_) =>
        a, s' := Removes(required, s, p);
      case Renaming(t) =>
        a, s' := RenameWorks, s.(view := Some(s.temps[t]), temps := s.temps - {t}, pcs := s.pcs[p := Leaving(true)]);
      case Leaving(ok) =>
        a, s' := Unlock, s.(lock := None, pcs := s.pcs[p := Done(ok)]);
    }
    hide Inv, PcRight, ToDo;
  }

  lemma Checks(required: set<File>, s: State, p: Pid) returns (a: Action, s': State)
    requires Able(s, p) && s.pcs[p].Checking?
    ensures Step(required, s, p, a, s') && !Fails(a) && !a.Crash? && Nearer(required, s, s', p)
    ensures Free(s, p) ==> Free(s', p)
  {
    var seen, locked := s.pcs[p].seen, s.pcs[p].locked;
    if f :| f in required - seen {
      if InView(s.view, f) {
        a, s' := FindFile(f), s.(pcs := s.pcs[p := Checking(seen + {f}, locked)]);
        Fewer(required, s, s', p, (f, true));
      } else {
        a, s' := MissFile(f), s.(pcs := s.pcs[p := if locked then Staging else Waiting]);
      }
    } else {
      assert forall f :: f in required ==> f in seen || f in required - seen;
      a, s' := AllFound, s.(pcs := s.pcs[p := if locked then Leaving(true) else Done(true)]);
    }
    hide ToDo;
  }

  lemma Removes(required: set<File>, s: State, p: Pid) returns (a: Action, s': State)
    requires Able(s, p) && s.pcs[p].Removing?
    ensures Step(required, s, p, a, s') && !Fails(a) && !a.Crash? && Nearer(required, s, s', p)
    ensures Free(s, p) ==> Free(s', p)
  {
    if s.view.None? {
      a, s' := RemoveStops, s.(pcs := s.pcs[p := Renaming(s.pcs[p].temp)]);
    } else if f :| f in s.view.value {
      a, s' := RemoveFile(f), s.(view := Some(s.view.value - {f}));
      Fewer(required, s, s', p, (f, true));
    } else {
      assert s.view.value == map[];
      a, s' := RemoveFolder, s.(view := None);
    }
    hide ToDo;
  }

  lemma Fewer(required: set<File>, s: State, s': State, p: Pid, x: (File, bool))
    requires p in s.pcs && p in s'.pcs && ToDo(required, s', p) <= ToDo(required, s, p)
    requires x in ToDo(required, s, p) && x !in ToDo(required, s', p)
    ensures ToDo(required, s', p) < ToDo(required, s, p)
  {
  }

  lemma Populates(required: set<File>, s: State, p: Pid) returns (a: Action, s': State)
    requires Able(s, p) && s.pcs[p].Populating? && s.pcs[p].temp in s.temps
    ensures Step(required, s, p, a, s') && !Fails(a) && !a.Crash? && Nearer(required, s, s', p)
    ensures Free(s, p) ==> Free(s', p)
  {
    var t := s.pcs[p].temp;
    var d := s.temps[t];
    if f :| f in required && f !in d {
      a, s' := StartFile(f), s.(temps := s.temps[t := d[f := false]]);
      assert (f, false) in ToDo(required, s, p) && (f, false) !in ToDo(required, s', p);
    } else if f :| f in required && !d[f] {
      a, s' := FinishFile(f), s.(temps := s.temps[t := d[f := true]]);
      assert (f, true) in ToDo(required, s, p) && (f, true) !in ToDo(required, s', p);
    } else {
      a, s' := PopulateDone, s.(pcs := s.pcs[p := Removing(t)]);
    }
  }

  /** Left alone, such a process comes to its answer, with the view complete. */
  lemma {:induction false} SucceedsAlone(required: set<File>, s: State, p: Pid) returns (trace: seq<State>)
    requires Inv(required, s) && Free(s, p)
    ensures Steps(required, trace) && trace[0] == s
    ensures var last := trace[|trace| - 1];
      p in last.pcs && last.pcs[p] == Done(true) && Complete(required, last.view)
    decreases Stage(s.pcs[p]), s.pcs[p].Removing? && s.view.Some?, ToDo(required, s, p)
  {
    if s.pcs[p].Done? {
      assert PcRight(required, s, p, s.pcs[p]);
      trace := [s];
    } else {
      var a, next := NeverStuck(required, s, p);
      StepInv(required, s, p, a, next);
      var rest := SucceedsAlone(required, next, p);
      trace := [s] + rest;
      hide Inv, Step, Complete, Free;
      assert Next(required, s, next);
      forall i | 0 <= i < |trace| - 1 ensures Next(required, trace[i], trace[i + 1]) {
        assert i > 0 ==> trace[i] == rest[i - 1] && trace[i + 1] == rest[i];
      }
      assert trace[|trace| - 1] == rest[|rest| - 1];
    }
  }
}
