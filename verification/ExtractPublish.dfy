/**
 Publishing an embedded module without a lock: extract into a private staging directory,
 rename it into place, and treat a populated destination as a peer's success.

 Any number of processes take steps in any order and may die between any two of them.
 Renames may fail at any time, and an empty directory may appear or go at the destination.
 */
module ExtractPublish {
  import opened Wrappers

  type File = string
  type Pid = nat
  type TempId = nat
  type Folder = map<File, string>

  /** The length of the retry loop. */
  const ATTEMPTS: nat := 24

  datatype Pc =
    | Start
    | Extracting                           // no staging directory yet
    | Writing(temp: TempId)
    | Trying(temp: TempId, attempt: nat)   // about to rename
    | Looking(temp: TempId, attempt: nat)  // the rename failed
    | Reaping(temp: TempId, attempt: nat)  // saw an empty destination
    | Discarding(temp: TempId, ok: bool)
    | Done(ok: bool)
    | Dead

  datatype State = State(dest: Option<Folder>, temps: map<TempId, Folder>, pcs: map<Pid, Pc>)

  datatype Action =
    | Reuse
    | Extract
    | MakeTemp(temp: TempId)
    | WriteSome(f: File, part: string)
    | WriteAll(f: File)
    | ExtractFails
    | ExtractDone
    | RenameWorks
    | RenameFails
    | SeePeer
    | SeeEmpty
    | SeeNothing
    | Reap
    | ReapFails
    | Discard
    | Crash

  predicate HasTemp(pc: Pc) {
    pc.Writing? || pc.Trying? || pc.Looking? || pc.Reaping? || pc.Discarding?
  }

  predicate Publishing(pc: Pc) {
    pc.Trying? || pc.Looking? || pc.Reaping?
  }

  function NextAttempt(temp: TempId, attempt: nat): Pc {
    if attempt + 1 < ATTEMPTS then Trying(temp, attempt + 1) else Discarding(temp, false)
  }

  function Unwritten(files: Folder, d: Folder): set<File> {
    set f | f in files && !(f in d && d[f] == files[f])
  }

  function Absent(files: Folder, d: Folder): set<File> {
    set f | f in files && f !in d
  }

  /** Process p performs one action; `files` is the embedded module. */
  predicate Step(files: Folder, s: State, p: Pid, a: Action, s': State) {
    && p in s.pcs
    && var pc := s.pcs[p];
    match a
    case Reuse =>
      pc.Start? && s.dest.Some? && s.dest.value != map[] && s' == s.(pcs := s.pcs[p := Done(true)])
    case Extract =>
      pc.Start? && !(s.dest.Some? && s.dest.value != map[]) && s' == s.(pcs := s.pcs[p := Extracting])
    case MakeTemp(t) =>
      // The name carries the process id and a counter; a dead process's debris is cleared.
      && pc.Extracting? && (forall q :: q in s.pcs && HasTemp(s.pcs[q]) ==> s.pcs[q].temp != t)
      && s' == s.(temps := s.temps[t := map[]], pcs := s.pcs[p := Writing(t)])
    case WriteSome(f, part) =>
      // A file is there before all of its content is.
      pc.Writing? && pc.temp in s.temps && f in files && f !in s.temps[pc.temp] && part != files[f]
      && s' == s.(temps := s.temps[pc.temp := s.temps[pc.temp][f := part]])
    case WriteAll(f) =>
      pc.Writing? && pc.temp in s.temps && f in Unwritten(files, s.temps[pc.temp])
      && s' == s.(temps := s.temps[pc.temp := s.temps[pc.temp][f := files[f]]])
    case ExtractFails =>
      (pc.Writing? && s' == s.(pcs := s.pcs[p := Discarding(pc.temp, false)]))
      || (pc.Extracting? && s' == s.(pcs := s.pcs[p := Done(false)]))
    case ExtractDone =>
      pc.Writing? && pc.temp in s.temps && s.temps[pc.temp] == files
      && s' == s.(pcs := s.pcs[p := Trying(pc.temp, 0)])
    case RenameWorks =>
      pc.Trying? && pc.temp in s.temps && (s.dest.None? || s.dest == Some(map[]))
      && s' == s.(dest := Some(s.temps[pc.temp]), temps := s.temps - {pc.temp}, pcs := s.pcs[p := Done(true)])
    case RenameFails =>
      pc.Trying? && s' == s.(pcs := s.pcs[p := Looking(pc.temp, pc.attempt)])
    case SeePeer =>
      pc.Looking? && s.dest.Some? && s.dest.value != map[]
      && s' == s.(pcs := s.pcs[p := Discarding(pc.temp, true)])
    case SeeEmpty =>
      pc.Looking? && s.dest == Some(map[]) && s' == s.(pcs := s.pcs[p := Reaping(pc.temp, pc.attempt)])
    case SeeNothing =>
      // Absent, or not readable.
      pc.Looking? && s' == s.(pcs := s.pcs[p := NextAttempt(pc.temp, pc.attempt)])
    case Reap =>
      // Removing a directory works only while it is empty.
      pc.Reaping? && s.dest == Some(map[])
      && s' == s.(dest := None, pcs := s.pcs[p := NextAttempt(pc.temp, pc.attempt)])
    case ReapFails =>
      pc.Reaping? && s' == s.(pcs := s.pcs[p := NextAttempt(pc.temp, pc.attempt)])
    case Discard =>
      pc.Discarding? && s' == s.(temps := s.temps - {pc.temp}, pcs := s.pcs[p := Done(pc.ok)])
    case Crash =>
      !pc.Done? && !pc.Dead? && s' == s.(pcs := s.pcs[p := Dead])
  }

  /** A cleaner leaves an empty directory behind, or takes one away. */
  predicate Environment(s: State, s': State) {
    || (s.dest.None? && s' == s.(dest := Some(map[])))
    || (s.dest == Some(map[]) && s' == s.(dest := None))
  }

  ghost predicate Next(files: Folder, s: State, s': State) {
    Environment(s, s') || exists p, a :: Step(files, s, p, a, s')
  }

  predicate Init(files: Folder, s: State) {
    && files != map[]
    && (s.dest.None? || s.dest == Some(map[]) || s.dest == Some(files))
    && forall p :: p in s.pcs ==> s.pcs[p].Start?
  }

  ghost predicate Run(files: Folder, trace: seq<State>) {
    && trace != [] && Init(files, trace[0])
    && forall i :: 0 <= i < |trace| - 1 ==> Next(files, trace[i], trace[i + 1])
  }

  // ---------------------------------------------------------------------------

  predicate PcRight(files: Folder, s: State, pc: Pc) {
    && (HasTemp(pc) ==> pc.temp in s.temps)
    && (pc.Writing? ==> s.temps[pc.temp].Keys <= files.Keys)
    && (Publishing(pc) ==> s.temps[pc.temp] == files && pc.attempt < ATTEMPTS)
    && ((pc.Done? || pc.Discarding?) && pc.ok ==> s.dest == Some(files))
  }

  ghost predicate Inv(files: Folder, s: State) {
    && files != map[]
    && (s.dest.None? || s.dest == Some(map[]) || s.dest == Some(files))
    && (forall p :: p in s.pcs ==> PcRight(files, s, s.pcs[p]))
    && TempsApart(s)
  }

  ghost predicate TempsApart(s: State) {
    forall p, q :: p in s.pcs && q in s.pcs && p != q && HasTemp(s.pcs[p]) && HasTemp(s.pcs[q]) ==>
      s.pcs[p].temp != s.pcs[q].temp
  }

  lemma StepKeepsTempsApart(files: Folder, s: State, p: Pid, a: Action, s': State)
    requires TempsApart(s) && Step(files, s, p, a, s')
    ensures TempsApart(s')
  {
  }

  lemma StepInv(files: Folder, s: State, p: Pid, a: Action, s': State)
    requires Inv(files, s) && Step(files, s, p, a, s')
    ensures Inv(files, s')
    ensures s.dest == Some(files) ==> s'.dest == s.dest
  {
    assert PcRight(files, s, s.pcs[p]);
    StepKeepsTempsApart(files, s, p, a, s');
    forall q | q in s'.pcs
      ensures PcRight(files, s', s'.pcs[q])
    {
      assert PcRight(files, s, s.pcs[q]);
      assert q != p && HasTemp(s.pcs[q]) && HasTemp(s.pcs[p]) ==> s.pcs[q].temp != s.pcs[p].temp;
    }
  }

  lemma NextInv(files: Folder, s: State, s': State)
    requires Inv(files, s) && Next(files, s, s')
    ensures Inv(files, s')
    ensures s.dest == Some(files) ==> s'.dest == s.dest
  {
    if Environment(s, s') {
      forall q | q in s'.pcs
        ensures PcRight(files, s', s'.pcs[q])
      {
        assert PcRight(files, s, s.pcs[q]);
      }
    } else {
      var p, a :| Step(files, s, p, a, s');
      StepInv(files, s, p, a, s');
    }
  }

  /** In every run the cache directory is absent, empty, or holds exactly the embedded files;
      and once it holds them it keeps them. */
  lemma {:induction false} NeverPartial(files: Folder, trace: seq<State>, i: nat, j: nat)
    requires Run(files, trace) && i <= j < |trace|
    ensures Inv(files, trace[j])
    ensures trace[j].dest.None? || trace[j].dest == Some(map[]) || trace[j].dest == Some(files)
    ensures trace[i].dest == Some(files) ==> trace[j].dest == Some(files)
    decreases j
  {
    if j > 0 {
      NeverPartial(files, trace, if i < j then i else j - 1, j - 1);
      assert Next(files, trace[j - 1], trace[j - 1 + 1]);
      NextInv(files, trace[j - 1], trace[j]);
    }
  }

  /** A nil return means the whole module is in place, from then on. */
  lemma NilMeansComplete(files: Folder, trace: seq<State>, i: nat, j: nat, p: Pid)
    requires Run(files, trace) && i <= j < |trace|
    requires p in trace[i].pcs && trace[i].pcs[p] == Done(true)
    ensures trace[j].dest == Some(files)
  {
    NeverPartial(files, trace, i, i);
    assert PcRight(files, trace[i], trace[i].pcs[p]);
    NeverPartial(files, trace, i, j);
  }

  /** Reaping never takes a populated directory, though a peer may publish between the look
      and the removal. */
  lemma ReapSparesPopulated(files: Folder, s: State, p: Pid, a: Action, s': State)
    requires Inv(files, s) && Step(files, s, p, a, s') && p in s.pcs && s.pcs[p].Reaping?
    requires s.dest.Some? && s.dest.value != map[]
    ensures s'.dest == s.dest
  {
  }

  /** How much an extractor has left to do, the files to write included. */
  function Left(files: Folder, s: State, p: Pid): nat
    requires p in s.pcs && PcRight(files, s, s.pcs[p])
  {
    match s.pcs[p]
    case Start => 3 * ATTEMPTS + 4 + 2 * |files.Keys|
    case Extracting => 3 * ATTEMPTS + 3 + 2 * |files.Keys|
    case Writing(t) => 3 * ATTEMPTS + 2 + |Unwritten(files, s.temps[t])| + |Absent(files, s.temps[t])|
    case Trying(_, n) => 3 * (ATTEMPTS - n) + 1
    case Looking(_, n) => 3 * (ATTEMPTS - n)
    case Reaping(_, n) => 3 * (ATTEMPTS - n) - 1
    case Discarding(_, _) => 1
    case Done(_) => 0
    case Dead => 0
  }

  /** An extraction ends: every step an extractor takes leaves it strictly less to do ... */
  lemma OwnStepsRunOut(files: Folder, s: State, p: Pid, a: Action, s': State)
    requires Inv(files, s) && Step(files, s, p, a, s')
    ensures PcRight(files, s', s'.pcs[p]) && Left(files, s', p) < Left(files, s, p)
  {
    assert PcRight(files, s, s.pcs[p]);
    var pc := s.pcs[p];
    if pc.Writing? && s'.pcs[p].Writing? {
      WrittenRunsOut(files, s.temps[pc.temp], a.f, if a.WriteSome? then a.part else files[a.f]);
    } else if a.MakeTemp? {
      assert Unwritten(files, map[]) == files.Keys && Absent(files, map[]) == files.Keys;
    }
  }

  lemma WrittenRunsOut(files: Folder, d: Folder, f: File, part: string)
    requires f in files && (f !in d || (d[f] != files[f] && part == files[f]))
    ensures var d' := d[f := part];
      |Unwritten(files, d')| + |Absent(files, d')| < |Unwritten(files, d)| + |Absent(files, d)|
  {
    var d' := d[f := part];
    assert Absent(files, d') == Absent(files, d) - {f};
    assert Unwritten(files, d') == if part == files[f] then Unwritten(files, d) - {f} else Unwritten(files, d);
  }

  /** ... no one else's step adds any ... */
  lemma OthersAddNone(files: Folder, s: State, p: Pid, s': State)
    requires Inv(files, s) && p in s.pcs
    requires Environment(s, s') || exists q, a :: q != p && Step(files, s, q, a, s')
    ensures p in s'.pcs && PcRight(files, s', s'.pcs[p]) && Left(files, s', p) == Left(files, s, p)
  {
    NextInv(files, s, s');
    assert PcRight(files, s, s.pcs[p]);
    assert p in s'.pcs && PcRight(files, s', s'.pcs[p]);
    if !Environment(s, s') {
      var q, a :| q != p && Step(files, s, q, a, s');
      assert PcRight(files, s, s.pcs[q]);
      OthersTouchNone(files, s, p, q, a, s');
    }
    hide Inv;
  }

  lemma OthersTouchNone(files: Folder, s: State, p: Pid, q: Pid, a: Action, s': State)
    requires TempsApart(s) && p in s.pcs && q != p && Step(files, s, q, a, s')
    requires PcRight(files, s, s.pcs[p]) && PcRight(files, s, s.pcs[q])
    ensures s'.pcs[p] == s.pcs[p]
    ensures HasTemp(s.pcs[p]) ==> s.pcs[p].temp in s'.temps && s'.temps[s.pcs[p].temp] == s.temps[s.pcs[p].temp]
  {
  }

  lemma {:induction false} FreshTemp(pcs: map<Pid, Pc>) returns (t: TempId)
    ensures forall q :: q in pcs && HasTemp(pcs[q]) ==> pcs[q].temp < t
    decreases |pcs|
  {
    t := 0;
    if pcs != map[] {
      var q :| q in pcs;
      var rest := pcs - {q};
      assert rest.Keys == pcs.Keys - {q};
      t := FreshTemp(rest);
      if HasTemp(pcs[q]) && pcs[q].temp >= t {
        t := pcs[q].temp + 1;
      }
      forall r | r in pcs && HasTemp(pcs[r])
        ensures pcs[r].temp < t
      {
        assert r != q ==> r in rest;
      }
    }
  }

  lemma AllWritten(files: Folder, d: Folder)
    requires d.Keys <= files.Keys && forall f :: f !in Unwritten(files, d)
    ensures d == files
  {
    forall f | f in files
      ensures f in d && d[f] == files[f]
    {
      assert f !in Unwritten(files, d);
    }
  }

  /** ... and until it returns it can take one that is neither a crash nor a failed extraction. */
  lemma NeverStuck(files: Folder, s: State, p: Pid) returns (a: Action, s': State)
    requires Inv(files, s) && p in s.pcs && !s.pcs[p].Done? && !s.pcs[p].Dead?
    ensures Step(files, s, p, a, s') && !a.Crash? && !a.ExtractFails?
  {
    assert PcRight(files, s, s.pcs[p]);
    match s.pcs[p] {
      case Start =>
        if s.dest.Some? && s.dest.value != map[] {
          a, s' := Reuse, s.(pcs := s.pcs[p := Done(true)]);
        } else {
          a, s' := Extract, s.(pcs := s.pcs[p := Extracting]);
        }
      case Extracting =>
        var t := FreshTemp(s.pcs);
        a, s' := MakeTemp(t), s.(temps := s.temps[t := map[]], pcs := s.pcs[p := Writing(t)]);
      case Writing(t) =>
        if f :| f in Unwritten(files, s.temps[t]) {
          a, s' := WriteAll(f), s.(temps := s.temps[t := s.temps[t][f := files[f]]]);
        } else {
          AllWritten(files, s.temps[t]);
          a, s' := ExtractDone, s.(pcs := s.pcs[p := Trying(t, 0)]);
        }
      case Trying(t, n) =>
        a, s' := RenameFails, s.(pcs := s.pcs[p := Looking(t, n)]);
      case Looking(t, n) =>
        a, s' := SeeNothing, s.(pcs := s.pcs[p := NextAttempt(t, n)]);
      case Reaping(t, n) =>
        a, s' := ReapFails, s.(pcs := s.pcs[p := NextAttempt(t, n)]);
      case Discarding(t, ok) =>
        a, s' := Discard, s.(temps := s.temps - {t}, pcs := s.pcs[p := Done(ok)]);
    }
  }

  // --- When an extractor fails ------------------------------------------------------------

  /** On the way to a failure, or there. */
  predicate GivenUp(pc: Pc) {
    (pc.Discarding? || pc.Done?) && !pc.ok
  }

  /** The n-th rename has been tried and has failed. */
  predicate PastAttempt(pc: Pc, n: nat) {
    || (pc.Trying? && n < pc.attempt)
    || ((pc.Looking? || pc.Reaping?) && n <= pc.attempt)
  }

  /** An extractor fails only if its extraction did, or after all twenty-four renames have. */
  lemma {:induction false} FailureHasCause(files: Folder, trace: seq<State>, i: nat, p: Pid, n: nat) returns (j: nat)
    requires Run(files, trace) && i < |trace| && p in trace[i].pcs && n < ATTEMPTS
    requires GivenUp(trace[i].pcs[p]) || PastAttempt(trace[i].pcs[p], n)
    ensures j < i && p in trace[j].pcs
    ensures || (GivenUp(trace[i].pcs[p]) && Step(files, trace[j], p, ExtractFails, trace[j + 1]))
            || (Step(files, trace[j], p, RenameFails, trace[j + 1]) && trace[j].pcs[p].attempt == n)
    decreases i
  {
    assert i > 0;
    j := i - 1;
    assert Next(files, trace[j], trace[j + 1]);
    NeverPartial(files, trace, j, j);
    if p in trace[j].pcs && (GivenUp(trace[j].pcs[p]) || PastAttempt(trace[j].pcs[p], n)) {
      j := FailureHasCause(files, trace, j, p, n);
      hide Run, Next, Inv;
      StaysGivenUp(files, trace[i - 1], trace[i], p);
    } else {
      hide Run, Inv;
      GivesUp(files, trace[j], trace[i], p, n);
    }
  }

  lemma StaysGivenUp(files: Folder, s: State, s': State, p: Pid)
    requires Next(files, s, s') && p in s.pcs && p in s'.pcs
    ensures GivenUp(s.pcs[p]) ==> GivenUp(s'.pcs[p]) || s'.pcs[p].Dead?
  {
  }

  lemma GivesUp(files: Folder, s: State, s': State, p: Pid, n: nat)
    requires Next(files, s, s') && p in s'.pcs && n < ATTEMPTS && (GivenUp(s'.pcs[p]) || PastAttempt(s'.pcs[p], n))
    requires p in s.pcs ==> !GivenUp(s.pcs[p]) && !PastAttempt(s.pcs[p], n) && PcRight(files, s, s.pcs[p])
    ensures p in s.pcs
    ensures || (GivenUp(s'.pcs[p]) && Step(files, s, p, ExtractFails, s'))
            || (Step(files, s, p, RenameFails, s') && s.pcs[p].attempt == n)
  {
    if !Environment(s, s') {
      var q, a :| Step(files, s, q, a, s');
      if q == p && (a.ExtractFails? || a.RenameFails?) {
        assert Step(files, s, p, a, s');
      }
    }
  }

  /** An extractor that can still succeed: alive, not failed, and if the destination is not
      there with an attempt left. */
  predicate Able(files: Folder, s: State, p: Pid) {
    && p in s.pcs && !s.pcs[p].Dead? && !GivenUp(s.pcs[p])
    && (s.pcs[p].Looking? || s.pcs[p].Reaping? ==> s.pcs[p].attempt + 1 < ATTEMPTS || (s.dest == Some(files) && s.pcs[p].Looking?))
  }

  lemma Advances(files: Folder, s: State, p: Pid) returns (a: Action, s': State)
    requires Inv(files, s) && Able(files, s, p) && !s.pcs[p].Done?
    ensures Step(files, s, p, a, s') && Able(files, s', p)
  {
    assert PcRight(files, s, s.pcs[p]);
    match s.pcs[p] {
      case Start =>
        if s.dest.Some? && s.dest.value != map[] {
          a, s' := Reuse, s.(pcs := s.pcs[p := Done(true)]);
        } else {
          a, s' := Extract, s.(pcs := s.pcs[p := Extracting]);
        }
      case Extracting =>
        var t := FreshTemp(s.pcs);
        a, s' := MakeTemp(t), s.(temps := s.temps[t := map[]], pcs := s.pcs[p := Writing(t)]);
      case Writing(t) =>
        if f :| f in Unwritten(files, s.temps[t]) {
          a, s' := WriteAll(f), s.(temps := s.temps[t := s.temps[t][f := files[f]]]);
        } else {
          AllWritten(files, s.temps[t]);
          a, s' := ExtractDone, s.(pcs := s.pcs[p := Trying(t, 0)]);
        }
      case Discarding(t, ok) =>
        a, s' := Discard, s.(temps := s.temps - {t}, pcs := s.pcs[p := Done(ok)]);
      case _ =>
        a, s' := Publishes(files, s, p);
    }
    hide Inv, PcRight;
  }

  lemma Publishes(files: Folder, s: State, p: Pid) returns (a: Action, s': State)
    requires s.dest.None? || s.dest == Some(map[]) || s.dest == Some(files)
    requires files != map[] && Able(files, s, p) && Publishing(s.pcs[p]) && s.pcs[p].temp in s.temps
    ensures Step(files, s, p, a, s') && Able(files, s', p)
  {
    match s.pcs[p] {
      case Trying(t, n) =>
        if s.dest == Some(files) {
          a, s' := RenameFails, s.(pcs := s.pcs[p := Looking(t, n)]);
        } else {
          a, s' := RenameWorks, s.(dest := Some(s.temps[t]), temps := s.temps - {t}, pcs := s.pcs[p := Done(true)]);
        }
      case Looking(t, n) =>
        if s.dest == Some(files) {
          a, s' := SeePeer, s.(pcs := s.pcs[p := Discarding(t, true)]);
        } else {
          a, s' := SeeNothing, s.(pcs := s.pcs[p := NextAttempt(t, n)]);
        }
      case Reaping(t, n) =>
        a, s' := ReapFails, s.(pcs := s.pcs[p := NextAttempt(t, n)]);
    }
  }

  /** Left alone, such an extractor succeeds, with every file at the destination. */
  lemma {:induction false} SucceedsAlone(files: Folder, s: State, p: Pid) returns (trace: seq<State>)
    requires Inv(files, s) && Able(files, s, p) && PcRight(files, s, s.pcs[p])
    ensures trace != [] && trace[0] == s && forall i :: 0 <= i < |trace| - 1 ==> Next(files, trace[i], trace[i + 1])
    ensures var last := trace[|trace| - 1];
      p in last.pcs && last.pcs[p] == Done(true) && last.dest == Some(files)
    decreases Left(files, s, p)
  {
    if s.pcs[p].Done? {
      trace := [s];
    } else {
      var a, next := Advances(files, s, p);
      OwnStepsRunOut(files, s, p, a, next);
      StepInv(files, s, p, a, next);
      hide Inv, Step, Left, Able, PcRight;
      var rest := SucceedsAlone(files, next, p);
      trace := [s] + rest;
      assert Next(files, s, next);
      forall i | 0 <= i < |trace| - 1 ensures Next(files, trace[i], trace[i + 1]) {
        assert i > 0 ==> trace[i] == rest[i - 1] && trace[i + 1] == rest[i];
      }
      assert trace[|trace| - 1] == rest[|rest| - 1];
    }
  }

  /** A staging directory is left behind only by an extractor that died. */
  lemma {:induction false} StagingCleared(files: Folder, trace: seq<State>, i: nat, t: TempId) returns (j: nat, p: Pid)
    requires Run(files, trace) && i < |trace| && t in trace[i].temps && t !in trace[0].temps
    requires forall q :: q in trace[i].pcs && HasTemp(trace[i].pcs[q]) ==> trace[i].pcs[q].temp != t
    ensures j < i && Step(files, trace[j], p, Crash, trace[j + 1])
    ensures HasTemp(trace[j].pcs[p]) && trace[j].pcs[p].temp == t
    decreases i
  {
    j := i - 1;
    assert Next(files, trace[j], trace[j + 1]);
    if t in trace[j].temps && forall q :: q in trace[j].pcs && HasTemp(trace[j].pcs[q]) ==> trace[j].pcs[q].temp != t {
      j, p := StagingCleared(files, trace, j, t);
    } else {
      hide Run;
      p := LetsGo(files, trace[j], trace[i], t);
    }
  }

  lemma LetsGo(files: Folder, s: State, s': State, t: TempId) returns (p: Pid)
    requires Next(files, s, s') && t in s'.temps
    requires forall q :: q in s'.pcs && HasTemp(s'.pcs[q]) ==> s'.pcs[q].temp != t
    requires t !in s.temps || exists q :: q in s.pcs && HasTemp(s.pcs[q]) && s.pcs[q].temp == t
    ensures Step(files, s, p, Crash, s') && HasTemp(s.pcs[p]) && s.pcs[p].temp == t
  {
    hide Step;
    assert !Environment(s, s');
    var a: Action;
    p, a :| Step(files, s, p, a, s');
    OneLetsGo(files, s, p, a, s', t);
  }

  lemma OneLetsGo(files: Folder, s: State, p: Pid, a: Action, s': State, t: TempId)
    requires Step(files, s, p, a, s') && t in s'.temps
    requires forall q :: q in s'.pcs && HasTemp(s'.pcs[q]) ==> s'.pcs[q].temp != t
    requires t !in s.temps || exists q :: q in s.pcs && HasTemp(s.pcs[q]) && s.pcs[q].temp == t
    ensures a.Crash? && HasTemp(s.pcs[p]) && s.pcs[p].temp == t
  {
    OthersStay(files, s, p, a, s');
    hide Absent, Unwritten;
  }

  lemma OthersStay(files: Folder, s: State, p: Pid, a: Action, s': State)
    requires Step(files, s, p, a, s')
    ensures p in s'.pcs && forall q :: q in s.pcs && q != p ==> q in s'.pcs && s'.pcs[q] == s.pcs[q]
  {
    hide Absent, Unwritten;
  }

  // ---------------------------------------------------------------------------
  // One process's loop.
  // ---------------------------------------------------------------------------

  datatype Look = Unreadable | Empty | Populated

  /** What one attempt meets: whether the rename works and, if not, what is at the
      destination. */
  datatype Attempt = Attempt(renamed: bool, look: Look)

  predicate Settles(a: Attempt) {
    a.renamed || a.look == Populated
  }

  const BACKOFF: nat := 5
  const MAX_SLEEP: nat := 100

  /** Milliseconds slept before attempt n, for n > 0. */
  function Sleep(n: nat): nat {
    if n <= 1 then BACKOFF
    else if Sleep(n - 1) < MAX_SLEEP then 2 * Sleep(n - 1) else Sleep(n - 1)
  }

  function SleptBefore(n: nat): nat {
    if n == 0 then 0 else SleptBefore(n - 1) + Sleep(n)
  }

  /** The empty destinations met in the first n attempts. */
  function EmptiesMet(attempts: seq<Attempt>, n: nat): nat
    requires n <= |attempts|
  {
    if n == 0 then 0
    else EmptiesMet(attempts, n - 1) + if !attempts[n - 1].renamed && attempts[n - 1].look == Empty then 1 else 0
  }

  /** Succeeds at the first attempt that settles and reports failure when none of the 24
      does; `reaps` counts the removals asked for, one for each empty destination met. */
  method PublishExtractedModule(attempts: seq<Attempt>) returns (ok: bool, made: nat, slept: nat, reaps: nat)
    requires |attempts| == ATTEMPTS
    ensures ok <==> exists i :: 0 <= i < ATTEMPTS && Settles(attempts[i])
    ensures ok ==> 0 < made <= ATTEMPTS && Settles(attempts[made - 1]) && forall j :: 0 <= j < made - 1 ==> !Settles(attempts[j])
    ensures !ok ==> made == ATTEMPTS
    ensures slept == SleptBefore(made - 1) && reaps == EmptiesMet(attempts, made)
  {
    var sleep := BACKOFF;
    slept, reaps := 0, 0;
    for n := 0 to ATTEMPTS
      invariant forall j :: 0 <= j < n ==> !Settles(attempts[j])
      invariant n == 0 ==> slept == 0 && sleep == BACKOFF
      invariant n > 0 ==> slept == SleptBefore(n - 1) && sleep == Sleep(n)
      invariant reaps == EmptiesMet(attempts, n)
    {
      if n > 0 {
        slept := slept + sleep;
        if sleep < MAX_SLEEP {
          sleep := sleep * 2;
        }
      }
      if attempts[n].renamed || attempts[n].look == Populated {
        return true, n + 1, slept, reaps;
      }
      if attempts[n].look == Empty {
        reaps := reaps + 1;
      }
    }
    return false, ATTEMPTS, slept, reaps;
  }

  /** The delay doubles past the configured ceiling once, to 160 ms, and a run that gives up
      has slept 3035 ms. */
  lemma SleepSchedule()
    ensures Sleep(5) == 80 && Sleep(6) == 160
    ensures forall n: nat :: Sleep(n) <= 160
    ensures forall n: nat :: n >= 6 ==> Sleep(n) == 160
    ensures SleptBefore(ATTEMPTS - 1) == 3035
  {
    assert Sleep(2) == 10 && Sleep(3) == 20 && Sleep(4) == 40 && Sleep(5) == 80 && Sleep(6) == 160;
    forall n: nat ensures Sleep(n) <= 160 && (n >= 6 ==> Sleep(n) == 160) {
      SleepSettles(n);
    }
    assert SleptBefore(5) == 155;
    SleptLinear(23);
  }

  lemma {:induction false} SleepSettles(n: nat)
    ensures n >= 6 ==> Sleep(n) == 160
    ensures Sleep(n) <= 160
  {
    assert Sleep(2) == 10 && Sleep(3) == 20 && Sleep(4) == 40 && Sleep(5) == 80 && Sleep(6) == 160;
    if n > 6 {
      SleepSettles(n - 1);
    }
  }

  lemma {:induction false} SleptLinear(n: nat)
    requires n >= 5
    ensures SleptBefore(n) == SleptBefore(5) + 160 * (n - 5)
  {
    if n > 5 {
      SleptLinear(n - 1);
      SleepSettles(n);
    }
  }
}
