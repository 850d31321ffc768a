/**
 Replacing a file or a symbolic link atomically: build it under a fresh sibling name,
 rename it on with a bounded retry, and accept a peer's identical result.
 */
module AtomicReplace {
  import opened Wrappers

  const RENAME_ATTEMPTS: nat := 10
  const NAME_ATTEMPTS: nat := 8

  // ---------------------------------------------------------------------------
  // The retry loop on its own.
  // ---------------------------------------------------------------------------

  /** What one rename attempt meets: success, or an error with its kind and whether the
      destination turns out to hold what was wanted. */
  datatype Attempt = Renamed | Failed(code: int, retryable: bool, settled: bool)

  /** An attempt that ends the loop. */
  predicate Decides(a: Attempt, hasCheck: bool) {
    a.Renamed? || !a.retryable || (hasCheck && a.settled)
  }

  /** `hasCheck` is whether the caller can tell a settled destination. */
  method RenameRetrying(attempts: seq<Attempt>, hasCheck: bool) returns (failure: Option<int>, made: nat)
    requires |attempts| == RENAME_ATTEMPTS
    ensures 0 < made <= RENAME_ATTEMPTS
    ensures forall i :: 0 <= i < made - 1 ==> !Decides(attempts[i], hasCheck)
    ensures made < RENAME_ATTEMPTS ==> Decides(attempts[made - 1], hasCheck)
    // The last attempt made is the whole answer; an error that is not retryable is
    // returned whatever the destination holds.
    ensures var last := attempts[made - 1];
      failure == if last.Renamed? || (last.retryable && hasCheck && last.settled) then None else Some(last.code)
  {
    var code := 0;
    for i := 0 to RENAME_ATTEMPTS
      invariant forall j :: 0 <= j < i ==> !Decides(attempts[j], hasCheck)
      invariant i > 0 ==> code == attempts[i - 1].code
    {
      if attempts[i].Renamed? {
        return None, i + 1;
      }
      code := attempts[i].code;
      if !attempts[i].retryable {
        return Some(code), i + 1;
      }
      if hasCheck && attempts[i].settled {
        return None, i + 1;
      }
    }
    return Some(code), RENAME_ATTEMPTS;
  }

  // ---------------------------------------------------------------------------
  // Any number of processes at one destination.
  // ---------------------------------------------------------------------------

  type Pid = nat
  type Name = nat

  /** A directory entry: a link, or a file and whether its bytes are all there. */
  datatype Entry = Link(target: string) | File(bytes: string, whole: bool)

  /** What a process was called for. */
  datatype Request = EnsureSymlink(target: string) | WriteFile(bytes: string)

  function Wanted(r: Request): Entry {
    match r
    case EnsureSymlink(t) => Link(t)
    case WriteFile(b) => File(b, true)
  }

  datatype Pc =
    | Start
    | Linking                          // about to create the link at the destination
    | Relooking                        // the destination exists
    | Drawing(draws: nat)              // looking for an unused sibling name
    | Filling(temp: Name, sofar: nat)  // writing the temporary file
    | Trying(temp: Name, attempt: nat)
    | Checking(temp: Name, attempt: nat)
    | Removing(temp: Name, ok: bool)   // about to remove the temporary name
    | Done(ok: bool)
    | Dead(left: Option<Name>)

  datatype State = State(dest: Option<Entry>, temps: map<Name, Entry>, want: map<Pid, Request>, pcs: map<Pid, Pc>)

  datatype Action =
    | Look
    | LinkWorks
    | LinkExists
    | LinkFails
    | Relook
    | DrawTaken
    | DrawWorks(temp: Name)
    | DrawFails
    | CreateTemp(temp: Name)
    | WriteSome(part: string)
    | WriteDone
    | WriteFails
    | RenameWorks
    | RenameFails(retryable: bool)
    | Check
    | Remove
    | Crash

  predicate HasTemp(pc: Pc) {
    pc.Filling? || pc.Trying? || pc.Checking? || pc.Removing?
  }

  /** A name no entry has and no call under way has drawn. */
  predicate Unused(s: State, t: Name) {
    t !in s.temps && forall p :: p in s.pcs && HasTemp(s.pcs[p]) ==> s.pcs[p].temp != t
  }

  predicate Step(s: State, p: Pid, a: Action, s': State) {
    && p in s.pcs && p in s.want
    && var pc, want := s.pcs[p], Wanted(s.want[p]);
    match a
    case Look =>
      pc.Start? && s.want[p].EnsureSymlink?
      && s' == s.(pcs := s.pcs[p := if s.dest == Some(want) then Done(true) else Linking])
    case LinkWorks =>
      pc.Linking? && s.dest.None? && s' == s.(dest := Some(want), pcs := s.pcs[p := Done(true)])
    case LinkExists =>
      pc.Linking? && s.dest.Some? && s' == s.(pcs := s.pcs[p := Relooking])
    case LinkFails =>
      pc.Linking? && s' == s.(pcs := s.pcs[p := Done(false)])
    case Relook =>
      pc.Relooking?
      && s' == s.(pcs := s.pcs[p := if s.dest == Some(want) then Done(true) else Drawing(0)])
    case DrawTaken =>
      pc.Drawing? && s.temps != map[]
      && s' == s.(pcs := s.pcs[p := if pc.draws + 1 < NAME_ATTEMPTS then Drawing(pc.draws + 1) else Done(false)])
    case DrawWorks(t) =>
      pc.Drawing? && Unused(s, t) && s' == s.(temps := s.temps[t := want], pcs := s.pcs[p := Trying(t, 0)])
    case DrawFails =>
      pc.Drawing? && s' == s.(pcs := s.pcs[p := Done(false)])
    case CreateTemp(t) =>
      pc.Start? && s.want[p].WriteFile? && Unused(s, t)
      && s' == s.(temps := s.temps[t := File("", false)], pcs := s.pcs[p := Filling(t, 0)])
    case WriteSome(part) =>
      // The bytes arrive in any number of pieces.
      && pc.Filling? && want.File? && part <= want.bytes && pc.sofar < |part|
      && s' == s.(temps := s.temps[pc.temp := File(part, false)], pcs := s.pcs[p := Filling(pc.temp, |part|)])
    case WriteDone =>
      pc.Filling? && s' == s.(temps := s.temps[pc.temp := want], pcs := s.pcs[p := Trying(pc.temp, 0)])
    case WriteFails =>
      (pc.Filling? && s' == s.(pcs := s.pcs[p := Removing(pc.temp, false)]))
      || (pc.Start? && s.want[p].WriteFile? && s' == s.(pcs := s.pcs[p := Done(false)]))
    case RenameWorks =>
      pc.Trying? && pc.temp in s.temps
      && s' == s.(dest := Some(s.temps[pc.temp]), temps := s.temps - {pc.temp}, pcs := s.pcs[p := Removing(pc.temp, true)])
    case RenameFails(retryable) =>
      pc.Trying?
      && s' == s.(pcs := s.pcs[p := if retryable then Checking(pc.temp, pc.attempt) else Removing(pc.temp, false)])
    case Check =>
      pc.Checking?
      && s' == s.(pcs := s.pcs[p :=
           if s.dest == Some(want) then Removing(pc.temp, true)
           else if pc.attempt + 1 < RENAME_ATTEMPTS then Trying(pc.temp, pc.attempt + 1)
           else Removing(pc.temp, false)])
    case Remove =>
      pc.Removing? && s' == s.(temps := s.temps - {pc.temp}, pcs := s.pcs[p := Done(pc.ok)])
    case Crash =>
      !pc.Done? && !pc.Dead? && s' == s.(pcs := s.pcs[p := Dead(if HasTemp(pc) then Some(pc.temp) else None)])
  }

  predicate Init(s: State) {
    && (forall p :: p in s.pcs ==> p in s.want && s.pcs[p].Start?)
    && s.temps == map[]
  }

  /** A run with the steps that made it. */
  ghost predicate Run(trace: seq<State>, steps: seq<(Pid, Action)>) {
    && |trace| == |steps| + 1 && Init(trace[0])
    && forall i :: 0 <= i < |steps| ==> Step(trace[i], steps[i].0, steps[i].1, trace[i + 1])
  }

  // --- Temporary names -----------------------------------------------------------

  ghost predicate TempsApart(s: State) {
    forall p, q :: p in s.pcs && q in s.pcs && p != q && HasTemp(s.pcs[p]) && HasTemp(s.pcs[q]) ==>
      s.pcs[p].temp != s.pcs[q].temp
  }

  predicate Accounts(pc: Pc, t: Name) {
    (HasTemp(pc) && pc.temp == t) || pc == Dead(Some(t))
  }

  predicate PcRight(s: State, p: Pid, pc: Pc) {
    && p in s.want
    && (pc.Filling? || pc.Trying? || pc.Checking? ==> pc.temp in s.temps)
    && (pc.Trying? || pc.Checking? ==> s.temps[pc.temp] == Wanted(s.want[p]) && pc.attempt < RENAME_ATTEMPTS)
    && (pc.Drawing? ==> pc.draws < NAME_ATTEMPTS)
    && (pc.Filling? ==> s.want[p].WriteFile? && pc.sofar <= |s.want[p].bytes|)
  }

  ghost predicate Inv(s: State) {
    && (forall p :: p in s.pcs ==> PcRight(s, p, s.pcs[p]))
    && TempsApart(s)
    && (forall t :: t in s.temps ==> exists p :: p in s.pcs && Accounts(s.pcs[p], t))
  }

  lemma StepTempsApart(s: State, p: Pid, a: Action, s': State)
    requires TempsApart(s) && Step(s, p, a, s')
    ensures TempsApart(s')
  {
  }

  lemma StepOwnTemp(s: State, p: Pid, a: Action, s': State)
    requires Step(s, p, a, s')
    ensures HasTemp(s.pcs[p]) && s.pcs[p].temp in s'.temps ==> Accounts(s'.pcs[p], s.pcs[p].temp)
    ensures !s.pcs[p].Dead?
  {
  }

  lemma StepAccounted(s: State, p: Pid, a: Action, s': State, t: Name)
    requires Inv(s) && Step(s, p, a, s') && t in s'.temps
    ensures exists q :: q in s'.pcs && Accounts(s'.pcs[q], t)
  {
    if t in s.temps {
      var q :| q in s.pcs && Accounts(s.pcs[q], t);
      if q == p {
        StepOwnTemp(s, p, a, s');
      } else {
        assert q in s'.pcs && s'.pcs[q] == s.pcs[q];
      }
      assert q in s'.pcs && Accounts(s'.pcs[q], t);
    } else {
      assert p in s'.pcs && Accounts(s'.pcs[p], t);
    }
  }

  lemma StepInv(s: State, p: Pid, a: Action, s': State)
    requires Inv(s) && Step(s, p, a, s')
    ensures Inv(s')
  {
    StepTempsApart(s, p, a, s');
    forall t | t in s'.temps
      ensures exists q :: q in s'.pcs && Accounts(s'.pcs[q], t)
    {
      StepAccounted(s, p, a, s', t);
    }
    StepPcs(s, p, a, s');
  }

  lemma StepPcs(s: State, p: Pid, a: Action, s': State)
    requires Inv(s) && Step(s, p, a, s')
    ensures forall q :: q in s'.pcs ==> PcRight(s', q, s'.pcs[q])
  {
    hide PcRight;
    forall q | q in s'.pcs
      ensures PcRight(s', q, s'.pcs[q])
    {
      assert PcRight(s, p, s.pcs[p]) && PcRight(s, q, s.pcs[q]);
      assert q != p && HasTemp(s.pcs[q]) && HasTemp(s.pcs[p]) ==> s.pcs[q].temp != s.pcs[p].temp;
      if q == p {
        OwnPcRight(s, p, a, s');
      } else {
        OtherPcRight(s, p, a, s', q);
      }
    }
  }

  lemma OwnPcRight(s: State, p: Pid, a: Action, s': State)
    requires Step(s, p, a, s') && PcRight(s, p, s.pcs[p])
    ensures PcRight(s', p, s'.pcs[p])
  {
  }

  lemma OtherPcRight(s: State, p: Pid, a: Action, s': State, q: Pid)
    requires Step(s, p, a, s') && q in s.pcs && q != p && PcRight(s, q, s.pcs[q])
    requires HasTemp(s.pcs[q]) && HasTemp(s.pcs[p]) ==> s.pcs[q].temp != s.pcs[p].temp
    ensures q in s'.pcs && PcRight(s', q, s'.pcs[q])
  {
  }

  lemma {:induction false} RunInv(trace: seq<State>, steps: seq<(Pid, Action)>, i: nat)
    requires Run(trace, steps) && i < |trace|
    ensures Inv(trace[i])
  {
    if i > 0 {
      RunInv(trace, steps, i - 1);
      StepInv(trace[i - 1], steps[i - 1].0, steps[i - 1].1, trace[i - 1 + 1]);
    }
  }

  /** No temporary name survives a call: what is left when no call is under way belongs to
      processes that died in one. */
  lemma NoDebris(trace: seq<State>, steps: seq<(Pid, Action)>, i: nat)
    requires Run(trace, steps) && i < |trace|
    requires forall p :: p in trace[i].pcs ==> !HasTemp(trace[i].pcs[p])
    ensures forall t :: t in trace[i].temps ==> exists p :: p in trace[i].pcs && trace[i].pcs[p] == Dead(Some(t))
    ensures (forall p :: p in trace[i].pcs ==> !trace[i].pcs[p].Dead?) ==> trace[i].temps == map[]
  {
    RunInv(trace, steps, i);
    var s := trace[i];
    forall t | t in s.temps
      ensures exists p :: p in s.pcs && s.pcs[p] == Dead(Some(t))
    {
      var p :| p in s.pcs && Accounts(s.pcs[p], t);
    }
    if forall p :: p in s.pcs ==> !s.pcs[p].Dead? {
      assert forall t :: t !in s.temps;
    }
  }

  // --- The destination ---------------------------------------------------------------

  predicate Succeeded(pc: Pc) {
    (pc.Removing? || pc.Done?) && pc.ok
  }

  /** One step leaves the destination alone or puts at it, in one go, what its process was
      called for; and a call comes to success only at a moment the destination holds it. */
  lemma StepDest(s: State, p: Pid, a: Action, s': State)
    requires Inv(s) && Step(s, p, a, s')
    ensures s'.dest == s.dest || s'.dest == Some(Wanted(s.want[p]))
    ensures Succeeded(s'.pcs[p]) && !Succeeded(s.pcs[p]) ==> s'.dest == Some(Wanted(s.want[p]))
    ensures s'.want == s.want && s'.pcs.Keys == s.pcs.Keys
    ensures forall q :: q in s.pcs && q != p ==> s'.pcs[q] == s.pcs[q]
  {
    assert PcRight(s, p, s.pcs[p]);
    hide Inv, Unused;
  }

  /** In every run: present stays present, and what is there is the original entry or some
      request in full, never part of one. */
  lemma {:induction false} NeverAbsentNeverPartial(trace: seq<State>, steps: seq<(Pid, Action)>, i: nat, j: nat)
    requires Run(trace, steps) && i <= j < |trace|
    ensures trace[j].want == trace[0].want
    ensures trace[i].dest.Some? ==> trace[j].dest.Some?
    ensures trace[j].dest == trace[i].dest
         || exists p :: p in trace[0].want && trace[j].dest == Some(Wanted(trace[0].want[p]))
    decreases j
  {
    if i < j {
      NeverAbsentNeverPartial(trace, steps, i, j - 1);
      RunInv(trace, steps, j - 1);
      StepDest(trace[j - 1], steps[j - 1].0, steps[j - 1].1, trace[j - 1 + 1]);
    } else if j > 0 {
      NeverAbsentNeverPartial(trace, steps, j - 1, j - 1);
      RunInv(trace, steps, j - 1);
      StepDest(trace[j - 1], steps[j - 1].0, steps[j - 1].1, trace[j - 1 + 1]);
    }
  }

  /** A nil return means the destination held what was asked for at the very step by which
      the call came to its success. */
  lemma {:induction false} NilMeansHeld(trace: seq<State>, steps: seq<(Pid, Action)>, i: nat, p: Pid) returns (j: nat)
    requires Run(trace, steps) && i < |trace| && p in trace[i].pcs && Succeeded(trace[i].pcs[p])
    ensures j < i && steps[j].0 == p && p in trace[0].want
    ensures p in trace[j].pcs && !Succeeded(trace[j].pcs[p]) && p in trace[j + 1].pcs && Succeeded(trace[j + 1].pcs[p])
    ensures trace[j + 1].dest == Some(Wanted(trace[0].want[p]))
  {
    RunInv(trace, steps, i);
    assert PcRight(trace[i], p, trace[i].pcs[p]);
    NeverAbsentNeverPartial(trace, steps, i, i);
    j := i - 1;
    assert Step(trace[j], steps[j].0, steps[j].1, trace[j + 1]);
    RunInv(trace, steps, j);
    NeverAbsentNeverPartial(trace, steps, j, j);
    StepDest(trace[j], steps[j].0, steps[j].1, trace[j + 1]);
    if Succeeded(trace[j].pcs[p]) {
      j := NilMeansHeld(trace, steps, j, p);
    }
  }

  /** An error that is not retryable fails the call even where the destination is right. */
  lemma HardErrorNotMasked(s: State, p: Pid, s': State)
    requires Step(s, p, RenameFails(false), s')
    ensures s'.pcs[p] == Removing(s.pcs[p].temp, false)
    ensures forall a, s'' :: Step(s', p, a, s'') && a != Crash ==> s''.pcs[p] == Done(false)
  {
  }

  // --- Peers with one request -----------------------------------------------------------

  /** The step is not an error of its own, a rename that fails has lost a race to a peer that
      already settled the destination, and a drawn name that is taken is not the last try. */
  predicate LostRacesOnly(s: State, p: Pid, a: Action, want: Entry) {
    match a
    case LinkFails | DrawFails | WriteFails | Crash => false
    case DrawTaken => p in s.pcs && s.pcs[p].Drawing? && s.pcs[p].draws + 1 < NAME_ATTEMPTS
    case RenameFails(retryable) => retryable && s.dest == Some(want)
    case _ => true
  }

  predicate GoingWell(s: State, want: Entry) {
    forall p :: p in s.pcs ==>
      && p in s.want && Wanted(s.want[p]) == want
      && !((s.pcs[p].Removing? || s.pcs[p].Done?) && !s.pcs[p].ok)
      && (s.pcs[p].Checking? ==> s.dest == Some(want))
  }

  /** Concurrent calls with one request all succeed in every schedule whose failed renames are
      lost races: no call ever fails, and once one has succeeded the destination keeps what
      they all asked for. */
  lemma {:induction false} PeersAllSucceed(trace: seq<State>, steps: seq<(Pid, Action)>, want: Entry, i: nat)
    requires Run(trace, steps) && i < |trace|
    requires forall p :: p in trace[0].pcs ==> Wanted(trace[0].want[p]) == want
    requires forall k :: 0 <= k < |steps| ==> LostRacesOnly(trace[k], steps[k].0, steps[k].1, want)
    ensures GoingWell(trace[i], want)
    ensures forall p :: p in trace[i].pcs && Succeeded(trace[i].pcs[p]) ==> trace[i].dest == Some(want)
    ensures forall p :: p in trace[i].pcs && trace[i].pcs[p].Done? ==> trace[i].pcs[p].ok
  {
    if i > 0 {
      PeersAllSucceed(trace, steps, want, i - 1);
      RunInv(trace, steps, i - 1);
      StepDest(trace[i - 1], steps[i - 1].0, steps[i - 1].1, trace[i - 1 + 1]);
      assert LostRacesOnly(trace[i - 1], steps[i - 1].0, steps[i - 1].1, want);
    }
  }

  /** Where the destination is as wanted all along, a call for a link that is about to look,
      or to look again, does no more than that, and succeeds. */
  lemma {:induction false} RightIsLeftAlone(trace: seq<State>, steps: seq<(Pid, Action)>, k: nat, i: nat, p: Pid)
    requires Run(trace, steps) && k <= i < |trace| && p in trace[k].pcs && p in trace[0].want
    requires trace[0].want[p].EnsureSymlink? && (trace[k].pcs[p].Start? || trace[k].pcs[p].Relooking?)
    requires forall j :: k <= j < i ==> trace[j].dest == Some(Wanted(trace[0].want[p]))
    ensures p in trace[i].pcs && trace[i].want == trace[0].want
    ensures trace[i].pcs[p] == trace[k].pcs[p] || trace[i].pcs[p] == Done(true) || trace[i].pcs[p] == Dead(None)
    decreases i
  {
    NeverAbsentNeverPartial(trace, steps, i, i);
    if k < i {
      RightIsLeftAlone(trace, steps, k, i - 1, p);
      assert Step(trace[i - 1], steps[i - 1].0, steps[i - 1].1, trace[i - 1 + 1]);
      hide Run;
      LooksOnly(trace[i - 1], steps[i - 1].0, steps[i - 1].1, trace[i], p);
    }
  }

  lemma LooksOnly(s: State, q: Pid, a: Action, s': State, p: Pid)
    requires Step(s, q, a, s') && p in s.pcs && p in s.want && s.want[p].EnsureSymlink? && s.dest == Some(Wanted(s.want[p]))
    requires s.pcs[p].Start? || s.pcs[p].Relooking? || s.pcs[p].Done? || s.pcs[p].Dead?
    ensures p in s'.pcs
    ensures s'.pcs[p] == s.pcs[p]
         || ((s.pcs[p].Start? || s.pcs[p].Relooking?) && (s'.pcs[p] == Done(true) || s'.pcs[p] == Dead(None)))
  {
    hide Unused;
  }

  // --- When a call fails --------------------------------------------------------------------

  /** The steps that are a failure: an error of the call's own, the eighth name that is taken,
      a rename error that is not retryable, and the tenth that is when the destination is not
      as wanted. */
  predicate Fails(s: State, p: Pid, a: Action)
    requires p in s.pcs && p in s.want
  {
    match a
    case LinkFails | DrawFails | WriteFails => true
    case DrawTaken => s.pcs[p].Drawing? && s.pcs[p].draws + 1 == NAME_ATTEMPTS
    case RenameFails(retryable) => !retryable
    case Check => s.pcs[p].Checking? && s.pcs[p].attempt + 1 == RENAME_ATTEMPTS && s.dest != Some(Wanted(s.want[p]))
    case _ => false
  }

  predicate GivenUp(pc: Pc) {
    (pc.Removing? || pc.Done?) && !pc.ok
  }

  /** Whatever the others ask for, a call fails only after such a step of its own. */
  lemma {:induction false} FailureHasCause(trace: seq<State>, steps: seq<(Pid, Action)>, i: nat, p: Pid) returns (j: nat)
    requires Run(trace, steps) && i < |trace| && p in trace[i].pcs && GivenUp(trace[i].pcs[p])
    ensures j < i && steps[j].0 == p && p in trace[j].pcs && p in trace[j].want && Fails(trace[j], p, steps[j].1)
    decreases i
  {
    assert i > 0;
    j := i - 1;
    assert Step(trace[j], steps[j].0, steps[j].1, trace[j + 1]);
    RunInv(trace, steps, j);
    if p in trace[j].pcs && GivenUp(trace[j].pcs[p]) {
      j := FailureHasCause(trace, steps, j, p);
    } else {
      hide Run;
      GivesUp(trace[j], steps[j].0, steps[j].1, trace[i], p);
    }
  }

  lemma GivesUp(s: State, q: Pid, a: Action, s': State, p: Pid)
    requires Inv(s) && Step(s, q, a, s') && p in s'.pcs && GivenUp(s'.pcs[p]) && !(p in s.pcs && GivenUp(s.pcs[p]))
    ensures p == q && p in s.pcs && p in s.want && Fails(s, p, a)
  {
    assert PcRight(s, q, s.pcs[q]);
    hide Inv, Unused;
  }

  // --- Calls end ----------------------------------------------------------------------------

  /** How much a call has left to do. */
  function Left(s: State, p: Pid): nat
    requires p in s.pcs && PcRight(s, p, s.pcs[p])
  {
    var bytes := if s.want[p].WriteFile? then |s.want[p].bytes| else 0;
    match s.pcs[p]
    case Start => 2 * RENAME_ATTEMPTS + NAME_ATTEMPTS + 5 + bytes
    case Linking => 2 * RENAME_ATTEMPTS + NAME_ATTEMPTS + 4
    case Relooking => 2 * RENAME_ATTEMPTS + NAME_ATTEMPTS + 3
    case Drawing(n) => 2 * RENAME_ATTEMPTS + 2 + NAME_ATTEMPTS - n
    case Filling(_, sofar) => 2 * RENAME_ATTEMPTS + 2 + bytes - sofar
    case Trying(_, n) => 2 * (RENAME_ATTEMPTS - n) + 1
    case Checking(_, n) => 2 * (RENAME_ATTEMPTS - n)
    case Removing(_, _) => 1
    case Done(_) => 0
    case Dead(_) => 0
  }

  /** Every step a call takes leaves it less to do, and the others' steps leave it as it is:
      in no run does a call take steps for ever. */
  lemma StepsRunOut(s: State, p: Pid, a: Action, s': State, q: Pid)
    requires Inv(s) && Step(s, p, a, s') && q in s.pcs
    ensures q in s'.pcs && PcRight(s', q, s'.pcs[q])
    ensures if q == p then Left(s', q) < Left(s, q) else Left(s', q) == Left(s, q)
  {
    StepPcs(s, p, a, s');
    assert PcRight(s, q, s.pcs[q]);
    if q == p {
      OwnStepsRunOut(s, p, a, s');
    } else {
      assert s'.pcs[q] == s.pcs[q] && s'.want == s.want;
      hide Step, PcRight;
    }
  }

  lemma OwnStepsRunOut(s: State, p: Pid, a: Action, s': State)
    requires Step(s, p, a, s') && PcRight(s, p, s.pcs[p]) && PcRight(s', p, s'.pcs[p])
    ensures Left(s', p) < Left(s, p)
  {
  }

  lemma {:induction false} FreshAmong(s: State, names: set<Name>, pids: set<Pid>) returns (t: Name)
    requires pids <= s.pcs.Keys
    ensures forall n :: n in names ==> n < t
    ensures forall q :: q in pids && HasTemp(s.pcs[q]) ==> s.pcs[q].temp < t
    decreases |names| + |pids|
  {
    t := 0;
    if n :| n in names {
      var u := FreshAmong(s, names - {n}, pids);
      t := if n < u then u else n + 1;
      assert forall m :: m in names ==> m == n || m in names - {n};
    } else if q :| q in pids {
      var u := FreshAmong(s, names, pids - {q});
      t := if HasTemp(s.pcs[q]) && s.pcs[q].temp >= u then s.pcs[q].temp + 1 else u;
      assert forall r :: r in pids ==> r == q || r in pids - {q};
    }
  }

  /** Until it returns a call has a step to take that is no error, crash or lost race. */
  lemma NeverStuck(s: State, p: Pid) returns (a: Action, s': State)
    requires Inv(s) && p in s.pcs && !s.pcs[p].Done? && !s.pcs[p].Dead?
    ensures Step(s, p, a, s') && !a.RenameFails? && forall want :: LostRacesOnly(s, p, a, want)
  {
    assert PcRight(s, p, s.pcs[p]);
    var want := Wanted(s.want[p]);
    match s.pcs[p] {
      case Start =>
        if s.want[p].EnsureSymlink? {
          a, s' := Look, s.(pcs := s.pcs[p := if s.dest == Some(want) then Done(true) else Linking]);
        } else {
          var t := FreshAmong(s, s.temps.Keys, s.pcs.Keys);
          a, s' := CreateTemp(t), s.(temps := s.temps[t := File("", false)], pcs := s.pcs[p := Filling(t, 0)]);
        }
      case Linking =>
        if s.dest.None? {
          a, s' := LinkWorks, s.(dest := Some(want), pcs := s.pcs[p := Done(true)]);
        } else {
          a, s' := LinkExists, s.(pcs := s.pcs[p := Relooking]);
        }
      case Relooking =>
        a, s' := Relook, s.(pcs := s.pcs[p := if s.dest == Some(want) then Done(true) else Drawing(0)]);
      case Drawing(_) =>
        var t := FreshAmong(s, s.temps.Keys, s.pcs.Keys);
        a, s' := DrawWorks(t), s.(temps := s.temps[t := want], pcs := s.pcs[p := Trying(t, 0)]);
      case Filling(t, _) =>
        a, s' := WriteDone, s.(temps := s.temps[t := want], pcs := s.pcs[p := Trying(t, 0)]);
      case Trying(t, _) =>
        a, s' := RenameWorks, s.(dest := Some(s.temps[t]), temps := s.temps - {t}, pcs := s.pcs[p := Removing(t, true)]);
      case Checking(t, n) =>
        a := Check;
        s' := s.(pcs := s.pcs[p :=
          if s.dest == Some(want) then Removing(t, true)
          else if n + 1 < RENAME_ATTEMPTS then Trying(t, n + 1) else Removing(t, false)]);
      case Removing(t, ok) =>
        a, s' := Remove, s.(temps := s.temps - {t}, pcs := s.pcs[p := Done(ok)]);
    }
  }
}
