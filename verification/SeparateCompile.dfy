/**
 Separate compilation of one program: the main IR, then all module IRs concurrently, then
 all instance IRs concurrently, then one link; a build cache beside, a bounded number of
 backend slots, and temporary files that must all be gone at the end.

 Goroutines are interleaved step by step; every cache outcome, compile failure and link
 failure can happen. Another process may add cache entries, never remove them.
 */
module SeparateCompile {
  import opened Wrappers

  datatype Task = ModuleIR(name: string) | InstanceIR(name: string)

  datatype File = Temp(id: nat) | Cached(key: string)

  datatype Plan = Plan(
    modules: set<string>,
    instances: set<string>,         // instances with a generated body
    precached: set<string>,         // instances whose bodies were not generated
    key: Task -> Option<string>,    // None: not cacheable
    output: Task -> string,         // what compiling a task's IR yields
    mainOutput: string,
    stages: nat,                    // temporary files per compilation, the object last
    limit: nat)                     // backend slots

  /** One object for the linker; a loose one is a temporary file. */
  datatype Obj = Obj(name: string, file: File)

  datatype Pc =
    | NotStarted
    | Looking                                            // in the cache
    | Waiting                                            // for a backend slot
    | Compiling(made: seq<File>)
    | Unwinding(left: set<File>, obj: Option<File>)      // removing all but the object
    | Compiled(file: File)
    | Saved(file: File)
    | Releasing(ok: bool, obj: Option<File>)             // reported; still holds the slot
    | Finished(ok: bool, obj: Option<File>)              // no object of its own after a hit

  datatype Outcome = Success | MainFailed | CompileFailed(task: Task) | LinkFailed

  datatype Phase =
    | MainCompiling(made: seq<File>)
    | MainUnwinding(left: set<File>, obj: Option<File>)
    | Modules
    | Preloading(todo: set<string>)                      // precached instances not yet looked up
    | Instances
    | Linking
    | Cleaning(rest: set<File>, outcome: Outcome)        // the deferred removals
    | Returned(outcome: Outcome)

  datatype State = State(
    files: map<File, string>,
    phase: Phase,
    mainObj: Option<File>,
    pcs: map<Task, Pc>,
    slots: nat,                       // backend slots taken
    moduleObjs: seq<Obj>,
    instanceObjs: seq<Obj>,
    moduleErr: Option<Task>,          // the first failure reported
    instanceErr: Option<Task>,
    hits: set<string>)                // precached instances found in the cache

  function AsSet(files: seq<File>): set<File> {
    set f | f in files
  }

  function OptSet(f: Option<File>): set<File> {
    if f.Some? then {f.value} else {}
  }

  // --- Steps of one goroutine -----------------------------------------------------

  datatype Action =
    | Hit
    | Miss
    | Acquire
    | Create(file: File, content: string)
    | Fail
    | Succeed
    | RemoveOne(file: File)
    | Unwound
    | Save
    | SkipSave
    | Report
    | Release

  function Objs(s: State, t: Task): seq<Obj> {
    if t.ModuleIR? then s.moduleObjs else s.instanceObjs
  }

  function Err(s: State, t: Task): Option<Task> {
    if t.ModuleIR? then s.moduleErr else s.instanceErr
  }

  function AddObj(s: State, t: Task, f: File): State {
    if t.ModuleIR? then s.(moduleObjs := s.moduleObjs + [Obj(t.name, f)])
    else s.(instanceObjs := s.instanceObjs + [Obj(t.name, f)])
  }

  function AddErr(s: State, t: Task): State {
    if t.ModuleIR? then s.(moduleErr := if s.moduleErr.None? then Some(t) else s.moduleErr)
    else s.(instanceErr := if s.instanceErr.None? then Some(t) else s.instanceErr)
  }

  predicate Active(s: State, t: Task) {
    if t.ModuleIR? then s.phase.Modules? else s.phase.Instances?
  }

  function Moved(s: State, t: Task, pc: Pc): State {
    s.(pcs := s.pcs[t := pc])
  }

  predicate InCache(plan: Plan, s: State, t: Task) {
    plan.key(t).Some? && Cached(plan.key(t).value) in s.files
  }

  predicate TaskStep(plan: Plan, s: State, t: Task, a: Action, s': State) {
    && t in s.pcs && Active(s, t)
    && var pc := s.pcs[t];
    match a
    case Hit =>
      && pc.Looking? && InCache(plan, s, t)
      && s' == Moved(AddObj(s, t, Cached(plan.key(t).value)), t, Finished(true, None))
    case Miss =>
      pc.Looking? && !InCache(plan, s, t) && s' == Moved(s, t, Waiting)
    case Acquire =>
      pc.Waiting? && s.slots < plan.limit && s' == Moved(s.(slots := s.slots + 1), t, Compiling([]))
    case Create(f, content) =>
      && pc.Compiling? && |pc.made| < plan.stages && f.Temp? && f !in s.files
      && s' == Moved(s.(files := s.files[f := content]), t, Compiling(pc.made + [f]))
    case Fail =>
      // A file that cannot be created or written, or a tool that fails.
      pc.Compiling? && s' == Moved(s, t, Unwinding(AsSet(pc.made), None))
    case Succeed =>
      && pc.Compiling? && |pc.made| == plan.stages && plan.stages > 0
      && var obj := pc.made[|pc.made| - 1];
         s' == Moved(s.(files := s.files[obj := plan.output(t)]), t, Unwinding(AsSet(pc.made) - {obj}, Some(obj)))
    case RemoveOne(f) =>
      && pc.Unwinding? && f in pc.left
      && s' == Moved(s.(files := s.files - {f}), t, Unwinding(pc.left - {f}, pc.obj))
    case Unwound =>
      && pc.Unwinding? && pc.left == {}
      && s' == (if pc.obj.Some? then Moved(s, t, Compiled(pc.obj.value)) else Moved(AddErr(s, t), t, Releasing(false, None)))
    case Save =>
      && pc.Compiled? && plan.key(t).Some? && pc.file in s.files
      && s' == Moved(s.(files := s.files[Cached(plan.key(t).value) := s.files[pc.file]]), t, Saved(pc.file))
    case SkipSave =>
      // Nothing to save under, or the save failed, which is ignored.
      pc.Compiled? && s' == Moved(s, t, Saved(pc.file))
    case Report =>
      pc.Saved? && s' == Moved(AddObj(s, t, pc.file), t, Releasing(true, Some(pc.file)))
    case Release =>
      pc.Releasing? && s.slots > 0 && s' == Moved(s.(slots := s.slots - 1), t, Finished(pc.ok, pc.obj))
  }

  // --- Steps of the main thread ------------------------------------------------------

  predicate AllFinished(s: State, modules: bool) {
    forall t :: t in s.pcs && t.ModuleIR? == modules ==> s.pcs[t].Finished?
  }

  /** The files the deferred removals are for: cached objects are not among them. */
  function Deferred(s: State, objs: seq<Obj>): set<File> {
    OptSet(s.mainObj) + set o | o in objs && o.file.Temp? :: o.file
  }

  function StartTasks(s: State, modules: bool): map<Task, Pc> {
    map t | t in s.pcs :: if t.ModuleIR? == modules then Looking else s.pcs[t]
  }

  datatype MainAction =
    | MainCreate(file: File, content: string)
    | MainFail
    | MainSucceed
    | MainRemove(file: File)
    | MainUnwound
    | ModulesDone
    | Preload(name: string)
    | Preloaded
    | InstancesDone
    | Link(ok: bool)
    | Clean(file: File)
    | Return

  /** Looking one precached instance up. */
  function Looked(plan: Plan, s: State, n: string): State
    requires s.phase.Preloading?
  {
    var rest := s.(phase := Preloading(s.phase.todo - {n}));
    if InCache(plan, s, InstanceIR(n)) then
      rest.(instanceObjs := s.instanceObjs + [Obj(n, Cached(plan.key(InstanceIR(n)).value))], hits := s.hits + {n})
    else rest
  }

  predicate MainStep(plan: Plan, s: State, a: MainAction, s': State) {
    match a
    case MainCreate(f, content) =>
      && s.phase.MainCompiling? && |s.phase.made| < plan.stages && f.Temp? && f !in s.files
      && s' == s.(files := s.files[f := content], phase := MainCompiling(s.phase.made + [f]))
    case MainFail =>
      s.phase.MainCompiling? && s' == s.(phase := MainUnwinding(AsSet(s.phase.made), None))
    case MainSucceed =>
      && s.phase.MainCompiling? && |s.phase.made| == plan.stages && plan.stages > 0
      && var obj := s.phase.made[|s.phase.made| - 1];
         s' == s.(files := s.files[obj := plan.mainOutput],
                  phase := MainUnwinding(AsSet(s.phase.made) - {obj}, Some(obj)))
    case MainRemove(f) =>
      && s.phase.MainUnwinding? && f in s.phase.left
      && s' == s.(files := s.files - {f}, phase := MainUnwinding(s.phase.left - {f}, s.phase.obj))
    case MainUnwound =>
      && s.phase.MainUnwinding? && s.phase.left == {}
      && s' == if s.phase.obj.None? then s.(phase := Returned(MainFailed))
               else s.(phase := Modules, mainObj := s.phase.obj, pcs := StartTasks(s, true))
    case ModulesDone =>
      && s.phase.Modules? && AllFinished(s, true)
      && s' == s.(phase := if s.moduleErr.Some?
                           then Cleaning(Deferred(s, s.moduleObjs), CompileFailed(s.moduleErr.value))
                           else Preloading(plan.precached))
    case Preload(n) =>
      s.phase.Preloading? && n in s.phase.todo && s' == Looked(plan, s, n)
    case Preloaded =>
      && s.phase.Preloading? && s.phase.todo == {}
      && s' == s.(phase := Instances, pcs := StartTasks(s, false))
    case InstancesDone =>
      && s.phase.Instances? && AllFinished(s, false)
      && s' == s.(phase := if s.instanceErr.Some?
                           then Cleaning(Deferred(s, s.moduleObjs + s.instanceObjs), CompileFailed(s.instanceErr.value))
                           else Linking)
    case Link(ok) =>
      && s.phase.Linking?
      && s' == s.(phase := Cleaning(Deferred(s, s.moduleObjs + s.instanceObjs), if ok then Success else LinkFailed))
    case Clean(f) =>
      && s.phase.Cleaning? && f in s.phase.rest
      && s' == s.(files := s.files - {f}, phase := Cleaning(s.phase.rest - {f}, s.phase.outcome))
    case Return =>
      s.phase.Cleaning? && s.phase.rest == {} && s' == s.(phase := Returned(s.phase.outcome))
  }

  /** What is cached under a task's key is what compiling it yields. */
  ghost predicate CacheSound(plan: Plan, files: map<File, string>) {
    forall t: Task :: plan.key(t).Some? && Cached(plan.key(t).value) in files ==>
      files[Cached(plan.key(t).value)] == plan.output(t)
  }

  /** Of others: another process saves to the cache. */
  datatype Step = Of(task: Task, action: Action) | OfMain(main: MainAction) | OfOthers(key: string, content: string)

  ghost predicate Next(plan: Plan, s: State, step: Step, s': State) {
    match step
    case Of(t, a) => TaskStep(plan, s, t, a, s')
    case OfMain(a) => MainStep(plan, s, a, s')
    case OfOthers(k, content) =>
      var files := s.files[Cached(k) := content];
      CacheSound(plan, files) && s' == s.(files := files)
  }

  /** Equal keys mean equal objects; an instance is generated or precached, not both. */
  ghost predicate GoodPlan(plan: Plan) {
    && (forall t: Task, u: Task :: plan.key(t).Some? && plan.key(t) == plan.key(u) ==> plan.output(t) == plan.output(u))
    && plan.instances !! plan.precached
  }

  predicate IsTask(plan: Plan, t: Task) {
    match t
    case ModuleIR(n) => n in plan.modules
    case InstanceIR(n) => n in plan.instances
  }

  ghost predicate Init(plan: Plan, s: State) {
    && GoodPlan(plan) && CacheSound(plan, s.files)
    && s.phase == MainCompiling([]) && s.mainObj.None?
    && (forall t :: t in s.pcs <==> IsTask(plan, t))
    && (forall t :: t in s.pcs ==> s.pcs[t].NotStarted?)
    && s.slots == 0 && s.moduleObjs == [] && s.instanceObjs == []
    && s.moduleErr.None? && s.instanceErr.None? && s.hits == {}
  }

  ghost predicate Run(plan: Plan, trace: seq<State>, steps: seq<Step>) {
    && |trace| == |steps| + 1 && Init(plan, trace[0])
    && forall i :: 0 <= i < |steps| ==> Next(plan, trace[i], steps[i], trace[i + 1])
  }

  // --- Who holds which temporary file ---------------------------------------------

  function PcFiles(pc: Pc): set<File> {
    match pc
    case Compiling(files) => AsSet(files)
    case Unwinding(files, obj) => files + OptSet(obj)
    case Compiled(obj) => {obj}
    case Saved(obj) => {obj}
    case Releasing(_, obj) => OptSet(obj)
    case Finished(_, obj) => OptSet(obj)
    case _ => {}
  }

  predicate Closing(s: State) {
    s.phase.Cleaning? || s.phase.Returned?
  }

  function MainFiles(s: State): set<File> {
    match s.phase
    case MainCompiling(files) => AsSet(files)
    case MainUnwinding(files, obj) => files + OptSet(obj)
    case Cleaning(rest, _) => rest
    case Returned(_) => {}
    case _ => OptSet(s.mainObj)
  }

  /** Once the deferred removals start, the main thread holds everything. */
  function TaskFiles(s: State, t: Task): set<File> {
    if Closing(s) || t !in s.pcs then {} else PcFiles(s.pcs[t])
  }

  ghost predicate Held(s: State, f: File) {
    f in MainFiles(s) || exists t :: t in s.pcs && f in TaskFiles(s, t)
  }

  /** Beyond the temporary files that were there at the start, exactly the held ones exist,
      and each is held by one party. */
  ghost predicate Owned(base: set<File>, s: State) {
    && (forall f: File :: f.Temp? ==> (f in s.files <==> f in base || Held(s, f)))
    && (forall f :: Held(s, f) ==> f.Temp? && f !in base)
    && (forall t :: t in s.pcs ==> MainFiles(s) !! TaskFiles(s, t))
    && (forall t, u :: t in s.pcs && u in s.pcs && t != u ==> TaskFiles(s, t) !! TaskFiles(s, u))
  }

  /** The object is not among the files being unwound. */
  predicate ObjectApart(pc: Pc) {
    pc.Unwinding? && pc.obj.Some? ==> pc.obj.value !in pc.left
  }

  predicate AllApart(s: State) {
    && (forall t :: t in s.pcs ==> ObjectApart(s.pcs[t]))
    && (s.phase.MainUnwinding? && s.phase.obj.Some? ==> s.phase.obj.value !in s.phase.left)
  }

  ghost predicate HeldElsewhere(s: State, t: Task, f: File) {
    exists u :: u in s.pcs && u != t && f in TaskFiles(s, u)
  }

  lemma HeldSplit(s: State, t: Task, f: File)
    requires t in s.pcs
    ensures Held(s, f) <==> f in MainFiles(s) || f in TaskFiles(s, t) || HeldElsewhere(s, t, f)
  {
  }

  /** What one goroutine's step does to files. */
  lemma TaskFrame(plan: Plan, s: State, t: Task, a: Action, s': State)
    requires TaskStep(plan, s, t, a, s')
    requires PcFiles(s.pcs[t]) <= s.files.Keys && ObjectApart(s.pcs[t])
    ensures ObjectApart(s'.pcs[t])
    ensures s'.phase == s.phase && s'.mainObj == s.mainObj && s'.hits == s.hits
    ensures t in s'.pcs && s'.pcs == s.pcs[t := s'.pcs[t]]
    ensures PcFiles(s'.pcs[t]) <= s'.files.Keys
    ensures forall f: File :: f.Temp? && f in s'.files && f !in s.files ==> f in PcFiles(s'.pcs[t])
    ensures forall f :: f in s.files && f !in s'.files ==> f in PcFiles(s.pcs[t])
    ensures forall f: File :: f in PcFiles(s'.pcs[t]) && f !in PcFiles(s.pcs[t]) ==> f.Temp? && f !in s.files
    ensures forall f: File :: f in PcFiles(s.pcs[t]) && f !in PcFiles(s'.pcs[t]) ==> f !in s'.files
  {
    TaskTouches(plan, s, t, a, s');
    hide TaskStep;
  }

  lemma TaskTouches(plan: Plan, s: State, t: Task, a: Action, s': State)
    requires TaskStep(plan, s, t, a, s')
    requires PcFiles(s.pcs[t]) <= s.files.Keys && ObjectApart(s.pcs[t])
    ensures ObjectApart(s'.pcs[t])
    ensures s'.phase == s.phase && s'.mainObj == s.mainObj && s'.hits == s.hits
    ensures t in s'.pcs && s'.pcs == s.pcs[t := s'.pcs[t]]
    ensures match a
            case Create(f, _) => s'.files.Keys == s.files.Keys + {f} && PcFiles(s'.pcs[t]) == PcFiles(s.pcs[t]) + {f} && f !in s.files && f.Temp?
            case RemoveOne(f) => s'.files.Keys == s.files.Keys - {f} && PcFiles(s'.pcs[t]) == PcFiles(s.pcs[t]) - {f} && f in PcFiles(s.pcs[t])
            case Save => s.files.Keys <= s'.files.Keys && (forall f: File :: f.Temp? && f in s'.files ==> f in s.files)
                         && PcFiles(s'.pcs[t]) == PcFiles(s.pcs[t])
            case _ => s'.files.Keys == s.files.Keys && PcFiles(s'.pcs[t]) == PcFiles(s.pcs[t])
  {
    hide InCache;
    match a
    case Create(f, _) => assert AsSet(s.pcs[t].made + [f]) == AsSet(s.pcs[t].made) + {f};
    case Succeed =>
      var made := s.pcs[t].made;
      assert made[|made| - 1] in AsSet(made);
    case _ =>
  }

  lemma ElsewhereSame(s: State, t: Task, s': State, f: File)
    requires t in s.pcs && t in s'.pcs && s'.phase == s.phase && s'.pcs == s.pcs[t := s'.pcs[t]]
    ensures HeldElsewhere(s, t, f) <==> HeldElsewhere(s', t, f)
  {
    hide PcFiles;
    if u :| u in s.pcs && u != t && f in TaskFiles(s, u) {
      assert u in s'.pcs && f in TaskFiles(s', u);
    }
    if u :| u in s'.pcs && u != t && f in TaskFiles(s', u) {
      assert u in s.pcs && f in TaskFiles(s, u);
    }
  }

  /** What ownership says of one file and one task. */
  lemma OwnedAt(base: set<File>, s: State, t: Task, f: File)
    requires Owned(base, s) && t in s.pcs && f.Temp?
    ensures f in s.files <==> f in base || Held(s, f)
    ensures Held(s, f) ==> f !in base
    ensures f in MainFiles(s) || HeldElsewhere(s, t, f) ==> f !in TaskFiles(s, t)
  {
  }

  lemma TaskHeld(plan: Plan, base: set<File>, s: State, t: Task, a: Action, s': State, f: File)
    requires Owned(base, s) && AllApart(s) && TaskStep(plan, s, t, a, s') && f.Temp?
    ensures f in s'.files <==> f in base || Held(s', f)
    ensures Held(s', f) ==> f !in base
  {
    HeldExist(base, s, t);
    assert TaskFiles(s, t) == PcFiles(s.pcs[t]);
    TaskFrame(plan, s, t, a, s');
    assert TaskFiles(s', t) == PcFiles(s'.pcs[t]) && MainFiles(s') == MainFiles(s);
    hide *;
    HeldSplit(s, t, f);
    HeldSplit(s', t, f);
    ElsewhereSame(s, t, s', f);
    OwnedAt(base, s, t, f);
  }

  lemma HeldExist(base: set<File>, s: State, t: Task)
    requires Owned(base, s) && t in s.pcs
    ensures TaskFiles(s, t) <= s.files.Keys
    ensures MainFiles(s) <= s.files.Keys
  {
  }

  lemma OthersHold(s: State, t: Task, s': State)
    requires t in s.pcs && t in s'.pcs && s'.pcs == s.pcs[t := s'.pcs[t]]
    requires s'.phase == s.phase && s'.mainObj == s.mainObj
    ensures MainFiles(s') == MainFiles(s)
    ensures forall u :: u in s.pcs && u != t ==> TaskFiles(s', u) == TaskFiles(s, u)
  {
  }

  /** What was not held before is new, so nobody else holds it. */
  lemma TaskApart(plan: Plan, base: set<File>, s: State, t: Task, a: Action, s': State)
    requires Owned(base, s) && AllApart(s) && TaskStep(plan, s, t, a, s')
    ensures t in s'.pcs && s'.pcs == s.pcs[t := s'.pcs[t]] && s'.phase == s.phase
    ensures MainFiles(s') == MainFiles(s)
    ensures forall u :: u in s.pcs && u != t ==> TaskFiles(s', u) == TaskFiles(s, u)
    ensures MainFiles(s') !! TaskFiles(s', t)
    ensures forall u :: u in s.pcs && u != t ==> TaskFiles(s, u) !! TaskFiles(s', t)
    ensures forall f :: f in TaskFiles(s', t) ==> f.Temp?
  {
    HeldExist(base, s, t);
    assert TaskFiles(s, t) == PcFiles(s.pcs[t]);
    TaskFrame(plan, s, t, a, s');
    assert TaskFiles(s', t) == PcFiles(s'.pcs[t]);
    hide TaskStep, PcFiles, MainFiles, TaskFiles, AllApart;
    OthersHold(s, t, s');
    forall u | u in s.pcs && u != t
      ensures TaskFiles(s, u) !! TaskFiles(s', t)
    {
      HeldExist(base, s, u);
    }
    assert forall f :: f in TaskFiles(s, t) ==> Held(s, f);
  }

  lemma TaskOwned(plan: Plan, base: set<File>, s: State, t: Task, a: Action, s': State)
    requires Owned(base, s) && AllApart(s) && TaskStep(plan, s, t, a, s')
    ensures Owned(base, s')
  {
    TaskApart(plan, base, s, t, a, s');
    forall f: File | f.Temp?
      ensures f in s'.files <==> f in base || Held(s', f)
      ensures Held(s', f) ==> f !in base
    {
      TaskHeld(plan, base, s, t, a, s', f);
    }
    forall f | Held(s', f)
      ensures f.Temp?
    {
      hide TaskStep, PcFiles;
      assert f in MainFiles(s) ==> Held(s, f);
      assert forall u :: u in s.pcs && f in TaskFiles(s, u) ==> Held(s, f);
    }
    hide TaskStep, PcFiles, MainFiles, TaskFiles, Held;
  }

  // --- What has been reported --------------------------------------------------------

  predicate Reported(pc: Pc) {
    pc.Releasing? || pc.Finished?
  }

  /** The object a task reported: its own temporary file, or the cached one it found. */
  predicate ReportedAs(plan: Plan, s: State, t: Task, o: Obj) {
    && t in s.pcs && Reported(s.pcs[t]) && s.pcs[t].ok && o.name == t.name
    && match s.pcs[t].obj
       case Some(f) => o.file == f
       case None => plan.key(t).Some? && o.file == Cached(plan.key(t).value)
  }

  predicate FoundAs(plan: Plan, s: State, o: Obj) {
    o.name in s.hits && plan.key(InstanceIR(o.name)).Some? && o.file == Cached(plan.key(InstanceIR(o.name)).value)
  }

  predicate Mentions(objs: seq<Obj>, n: string) {
    exists o :: o in objs && o.name == n
  }

  ghost predicate Distinct(objs: seq<Obj>) {
    forall i, j :: 0 <= i < j < |objs| ==> objs[i].name != objs[j].name
  }

  /** The object lists hold the successes so far, each once. */
  ghost predicate Logged(plan: Plan, s: State) {
    && (forall o :: o in s.moduleObjs ==> ReportedAs(plan, s, ModuleIR(o.name), o))
    && (forall o :: o in s.instanceObjs ==> ReportedAs(plan, s, InstanceIR(o.name), o) || FoundAs(plan, s, o))
    && (forall t :: t in s.pcs && Reported(s.pcs[t]) && s.pcs[t].ok ==> Mentions(Objs(s, t), t.name))
    && (forall n :: n in s.hits ==> Mentions(s.instanceObjs, n))
    && Distinct(s.moduleObjs) && Distinct(s.instanceObjs)
  }

  /** An error is kept exactly when a task failed, and it is a failed task's. */
  ghost predicate ErrorsRight(s: State) {
    && (forall t :: t in s.pcs && Reported(s.pcs[t]) && !s.pcs[t].ok ==> Err(s, t).Some? && s.pcs[t].obj.None?)
    && (s.moduleErr.Some? ==> s.moduleErr.value.ModuleIR? && Failed(s, s.moduleErr.value))
    && (s.instanceErr.Some? ==> s.instanceErr.value.InstanceIR? && Failed(s, s.instanceErr.value))
  }

  predicate Failed(s: State, t: Task) {
    t in s.pcs && Reported(s.pcs[t]) && !s.pcs[t].ok
  }

  predicate AllIdle(s: State, modules: bool) {
    forall t :: t in s.pcs && t.ModuleIR? == modules ==> s.pcs[t].NotStarted?
  }

  predicate AllStarted(s: State, modules: bool) {
    forall t :: t in s.pcs && t.ModuleIR? == modules ==> !s.pcs[t].NotStarted?
  }

  predicate AllSucceeded(s: State) {
    forall t :: t in s.pcs ==> s.pcs[t].Finished? && s.pcs[t].ok
  }

  /** What an outcome says about tasks. */
  predicate OutcomeRight(s: State, outcome: Outcome) {
    match outcome
    case Success => AllSucceeded(s)
    case LinkFailed => AllSucceeded(s)
    case CompileFailed(t) => Failed(s, t)
    case MainFailed => AllIdle(s, true) && AllIdle(s, false)
  }

  predicate PhaseRight(plan: Plan, s: State) {
    match s.phase
    case MainCompiling(made) =>
      |made| <= plan.stages && AllIdle(s, true) && AllIdle(s, false) && s.mainObj.None? && s.slots == 0 && s.hits == {}
    case MainUnwinding(_, _) =>
      AllIdle(s, true) && AllIdle(s, false) && s.mainObj.None? && s.slots == 0 && s.hits == {}
    case Modules =>
      AllStarted(s, true) && AllIdle(s, false) && s.mainObj.Some? && s.hits == {}
    case Preloading(todo) =>
      && AllFinished(s, true) && AllIdle(s, false) && s.mainObj.Some? && s.moduleErr.None?
      && s.hits <= plan.precached && s.hits !! todo && todo <= plan.precached
    case Instances =>
      && AllFinished(s, true) && AllStarted(s, false) && s.mainObj.Some? && s.moduleErr.None? && s.hits <= plan.precached
    case Linking =>
      && AllFinished(s, true) && AllFinished(s, false) && s.mainObj.Some? && s.hits <= plan.precached
      && s.moduleErr.None? && s.instanceErr.None?
    case Cleaning(_, outcome) => OutcomeRight(s, outcome)
    case Returned(outcome) => OutcomeRight(s, outcome)
  }

  ghost predicate Tasks(plan: Plan, s: State) {
    && plan.instances !! plan.precached
    && forall t :: t in s.pcs <==> IsTask(plan, t)
  }

  lemma TaskPhase(plan: Plan, s: State, t: Task, a: Action, s': State)
    requires TaskStep(plan, s, t, a, s') && PhaseRight(plan, s) && Tasks(plan, s)
    ensures PhaseRight(plan, s') && Tasks(plan, s')
  {
    assert !s.pcs[t].Finished? && !s.pcs[t].NotStarted? && !s'.pcs[t].NotStarted?;
    assert s'.phase == s.phase && s'.pcs == s.pcs[t := s'.pcs[t]];
    hide AllSucceeded, Failed;
  }

  lemma TaskReportsError(plan: Plan, s: State, t: Task, a: Action, s': State)
    requires TaskStep(plan, s, t, a, s')
    ensures s'.pcs == s.pcs[t := s'.pcs[t]]
    ensures Failed(s, t) ==> Failed(s', t) && s'.pcs[t].obj == s.pcs[t].obj
    ensures if !Failed(s, t) && Failed(s', t) then
              s'.pcs[t].obj.None? && s'.moduleErr == AddErr(s, t).moduleErr && s'.instanceErr == AddErr(s, t).instanceErr
            else s'.moduleErr == s.moduleErr && s'.instanceErr == s.instanceErr
  {
  }

  lemma TaskErrors(plan: Plan, s: State, t: Task, a: Action, s': State)
    requires TaskStep(plan, s, t, a, s') && ErrorsRight(s)
    ensures ErrorsRight(s')
  {
    TaskReportsError(plan, s, t, a, s');
    hide TaskStep;
    forall u | u in s'.pcs && Reported(s'.pcs[u]) && !s'.pcs[u].ok
      ensures Err(s', u).Some? && s'.pcs[u].obj.None?
    {
      assert u != t ==> s.pcs[u] == s'.pcs[u];
      assert Failed(s, u) ==> Err(s, u).Some?;
      assert u == t || Failed(s, u);
    }
    forall u | Failed(s, u)
      ensures Failed(s', u)
    {
    }
  }

  /** A name whose task has not reported is not listed. */
  lemma Unlisted(plan: Plan, s: State, t: Task)
    requires Logged(plan, s) && PhaseRight(plan, s) && Tasks(plan, s) && t in s.pcs && Active(s, t) && !Reported(s.pcs[t])
    ensures !Mentions(Objs(s, t), t.name)
  {
  }

  /** The one object a step may add. */
  lemma TaskReports(plan: Plan, s: State, t: Task, a: Action, s': State)
    requires TaskStep(plan, s, t, a, s')
    ensures !Reported(s.pcs[t]) || (s'.pcs[t].Finished? && s.pcs[t].Releasing? && s'.pcs[t].ok == s.pcs[t].ok && s'.pcs[t].obj == s.pcs[t].obj)
    ensures s'.hits == s.hits && s'.pcs == s.pcs[t := s'.pcs[t]] && s'.phase == s.phase
    ensures !Reported(s.pcs[t]) && Reported(s'.pcs[t]) && s'.pcs[t].ok ==>
      exists f :: ReportedAs(plan, s', t, Obj(t.name, f)) && Objs(s', t) == Objs(s, t) + [Obj(t.name, f)]
    ensures Reported(s.pcs[t]) || !Reported(s'.pcs[t]) || !s'.pcs[t].ok ==> Objs(s', t) == Objs(s, t)
    ensures if t.ModuleIR? then s'.instanceObjs == s.instanceObjs else s'.moduleObjs == s.moduleObjs
  {
    match a
    case Hit => assert ReportedAs(plan, s', t, Obj(t.name, Cached(plan.key(t).value)));
    case Report => assert ReportedAs(plan, s', t, Obj(t.name, s.pcs[t].file));
    case _ =>
  }

  lemma StillReported(plan: Plan, s: State, t: Task, a: Action, s': State, u: Task, o: Obj)
    requires TaskStep(plan, s, t, a, s') && ReportedAs(plan, s, u, o)
    ensures ReportedAs(plan, s', u, o)
  {
  }

  lemma TaskMentions(plan: Plan, s: State, t: Task, a: Action, s': State, u: Task)
    requires TaskStep(plan, s, t, a, s') && Logged(plan, s)
    requires u in s'.pcs && Reported(s'.pcs[u]) && s'.pcs[u].ok
    ensures Mentions(Objs(s', u), u.name)
  {
  }

  lemma TaskDistinct(plan: Plan, s: State, t: Task, a: Action, s': State)
    requires TaskStep(plan, s, t, a, s') && Logged(plan, s) && PhaseRight(plan, s) && Tasks(plan, s)
    ensures Distinct(s'.moduleObjs) && Distinct(s'.instanceObjs)
    ensures forall n :: n in s'.hits ==> Mentions(s'.instanceObjs, n)
  {
    TaskReports(plan, s, t, a, s');
    if !Reported(s.pcs[t]) {
      Unlisted(plan, s, t);
    }
    hide TaskStep, PhaseRight, Tasks, Active, ReportedAs, FoundAs;
    forall n | n in s'.hits
      ensures Mentions(s'.instanceObjs, n)
    {
      assert Mentions(s.instanceObjs, n);
    }
  }

  lemma TaskLogged(plan: Plan, s: State, t: Task, a: Action, s': State)
    requires TaskStep(plan, s, t, a, s') && Logged(plan, s) && PhaseRight(plan, s) && Tasks(plan, s)
    ensures Logged(plan, s')
  {
    TaskDistinct(plan, s, t, a, s');
    TaskReports(plan, s, t, a, s');
    hide TaskStep, PhaseRight, Tasks, Distinct, Mentions;
    forall o | o in s'.moduleObjs
      ensures ReportedAs(plan, s', ModuleIR(o.name), o)
    {
      if o in s.moduleObjs {
        StillReported(plan, s, t, a, s', ModuleIR(o.name), o);
      }
    }
    forall o | o in s'.instanceObjs
      ensures ReportedAs(plan, s', InstanceIR(o.name), o) || FoundAs(plan, s', o)
    {
      if o in s.instanceObjs && !FoundAs(plan, s, o) {
        StillReported(plan, s, t, a, s', InstanceIR(o.name), o);
      }
    }
    forall u | u in s'.pcs && Reported(s'.pcs[u]) && s'.pcs[u].ok
      ensures Mentions(Objs(s', u), u.name)
    {
      TaskMentions(plan, s, t, a, s', u);
    }
  }

  // --- Contents --------------------------------------------------------------------

  function PcObj(pc: Pc): Option<File> {
    match pc
    case Unwinding(_, obj) => obj
    case Compiled(f) => Some(f)
    case Saved(f) => Some(f)
    case Releasing(_, obj) => obj
    case Finished(_, obj) => obj
    case _ => None
  }

  function MainObj(s: State): Option<File> {
    match s.phase
    case MainCompiling(_) => None
    case MainUnwinding(_, obj) => obj
    case Cleaning(_, _) => None
    case Returned(_) => None
    case _ => s.mainObj
  }

  predicate HasContent(s: State, f: Option<File>, content: string) {
    f.Some? ==> f.value in s.files && s.files[f.value] == content
  }

  /** Every object there is, loose or cached, is what compiling its IR yields. */
  ghost predicate OutputsRight(plan: Plan, s: State) {
    && CacheSound(plan, s.files)
    && HasContent(s, MainObj(s), plan.mainOutput)
    && (Closing(s) || forall t :: t in s.pcs ==> HasContent(s, PcObj(s.pcs[t]), plan.output(t)))
  }

  lemma SavedSound(plan: Plan, files: map<File, string>, t: Task)
    requires GoodPlan(plan) && CacheSound(plan, files) && plan.key(t).Some?
    ensures CacheSound(plan, files[Cached(plan.key(t).value) := plan.output(t)])
  {
  }

  lemma TaskContents(plan: Plan, s: State, t: Task, a: Action, s': State)
    requires GoodPlan(plan) && TaskStep(plan, s, t, a, s')
    requires CacheSound(plan, s.files) && HasContent(s, PcObj(s.pcs[t]), plan.output(t)) && ObjectApart(s.pcs[t])
    requires forall f :: f in PcFiles(s.pcs[t]) ==> f.Temp?
    ensures CacheSound(plan, s'.files) && HasContent(s', PcObj(s'.pcs[t]), plan.output(t))
    ensures forall f :: f in s.files && f.Temp? && f !in PcFiles(s.pcs[t]) ==> f in s'.files && s'.files[f] == s.files[f]
    ensures s'.pcs == s.pcs[t := s'.pcs[t]] && s'.phase == s.phase && s'.mainObj == s.mainObj
  {
    if a.Save? {
      SavedSound(plan, s.files, t);
    } else if a.Succeed? {
      var made := s.pcs[t].made;
      assert made[|made| - 1] in PcFiles(s.pcs[t]);
    }
  }

  lemma PcObjHeld(pc: Pc)
    ensures PcObj(pc).Some? ==> PcObj(pc).value in PcFiles(pc)
  {
  }

  lemma TaskOutputs(plan: Plan, base: set<File>, s: State, t: Task, a: Action, s': State)
    requires GoodPlan(plan) && TaskStep(plan, s, t, a, s') && OutputsRight(plan, s) && Owned(base, s) && AllApart(s)
    ensures OutputsRight(plan, s')
  {
    assert !Closing(s);
    assert forall f :: f in TaskFiles(s, t) ==> Held(s, f);
    TaskContents(plan, s, t, a, s');
    hide TaskStep, PcFiles, PcObj, GoodPlan, CacheSound;
    forall u | u in s.pcs && u != t
      ensures HasContent(s', PcObj(s.pcs[u]), plan.output(u))
    {
      PcObjHeld(s.pcs[u]);
      assert forall f :: f in TaskFiles(s, u) ==> Held(s, f);
      assert TaskFiles(s, u) !! TaskFiles(s, t);
    }
    assert MainObj(s).Some? ==> MainObj(s).value in MainFiles(s) && Held(s, MainObj(s).value);
  }

  // --- Backend slots -------------------------------------------------------------------

  /** One backend process at a time, from taking the slot to giving it back. */
  predicate HoldsSlot(pc: Pc) {
    pc.Compiling? || pc.Unwinding? || pc.Compiled? || pc.Saved? || pc.Releasing?
  }

  function Holders(s: State): set<Task> {
    set t | t in s.pcs && HoldsSlot(s.pcs[t])
  }

  predicate SlotsRight(plan: Plan, s: State) {
    s.slots == |Holders(s)| && s.slots <= plan.limit
  }

  lemma TaskTakes(plan: Plan, s: State, t: Task, a: Action, s': State)
    requires TaskStep(plan, s, t, a, s') && s.slots <= plan.limit
    ensures s'.pcs == s.pcs[t := s'.pcs[t]] && s'.slots <= plan.limit
    ensures s'.slots == s.slots + (if HoldsSlot(s'.pcs[t]) then 1 else 0) - (if HoldsSlot(s.pcs[t]) then 1 else 0)
  {
  }

  lemma TaskSlots(plan: Plan, s: State, t: Task, a: Action, s': State)
    requires TaskStep(plan, s, t, a, s') && SlotsRight(plan, s)
    ensures SlotsRight(plan, s')
  {
    TaskTakes(plan, s, t, a, s');
    hide TaskStep, HoldsSlot;
    if HoldsSlot(s'.pcs[t]) {
      assert Holders(s') == Holders(s) + {t};
    } else {
      assert Holders(s') == Holders(s) - {t};
    }
  }

  // --- Steps of the main thread keep the same --------------------------------------------

  lemma MainPhase(plan: Plan, s: State, a: MainAction, s': State)
    requires MainStep(plan, s, a, s') && PhaseRight(plan, s) && Tasks(plan, s) && ErrorsRight(s)
    ensures PhaseRight(plan, s') && Tasks(plan, s')
  {
  }

  lemma MainErrors(plan: Plan, s: State, a: MainAction, s': State)
    requires MainStep(plan, s, a, s') && PhaseRight(plan, s) && ErrorsRight(s)
    ensures ErrorsRight(s')
  {
  }

  lemma MainSlots(plan: Plan, s: State, a: MainAction, s': State)
    requires MainStep(plan, s, a, s') && PhaseRight(plan, s) && SlotsRight(plan, s)
    ensures SlotsRight(plan, s')
  {
  }

  lemma MainApart(plan: Plan, s: State, a: MainAction, s': State)
    requires MainStep(plan, s, a, s') && AllApart(s)
    ensures AllApart(s')
  {
  }

  lemma PreloadLogged(plan: Plan, s: State, n: string, s': State)
    requires s.phase.Preloading? && n in s.phase.todo && s' == Looked(plan, s, n) && InCache(plan, s, InstanceIR(n))
    requires Logged(plan, s) && PhaseRight(plan, s) && Tasks(plan, s)
    ensures Logged(plan, s')
  {
  }

  /** A report depends on its task's own state alone. */
  lemma ReportsOnly(plan: Plan, s: State, s': State, t: Task, o: Obj)
    requires ReportedAs(plan, s, t, o) && t in s'.pcs && s'.pcs[t] == s.pcs[t]
    ensures ReportedAs(plan, s', t, o)
  {
  }

  /** Starting tasks and changing phase leave the lists as they are. */
  lemma SameLogged(plan: Plan, s: State, s': State)
    requires Logged(plan, s)
    requires s'.moduleObjs == s.moduleObjs && s'.instanceObjs == s.instanceObjs && s'.hits == s.hits
    requires s'.pcs.Keys == s.pcs.Keys
    requires forall t :: t in s.pcs ==> s'.pcs[t] == s.pcs[t] || (s.pcs[t].NotStarted? && s'.pcs[t].Looking?)
    ensures Logged(plan, s')
  {
  }

  lemma MainLogged(plan: Plan, s: State, a: MainAction, s': State)
    requires MainStep(plan, s, a, s') && Logged(plan, s) && PhaseRight(plan, s) && Tasks(plan, s)
    ensures Logged(plan, s')
  {
    hide Logged;
    if a.Preload? && InCache(plan, s, InstanceIR(a.name)) {
      PreloadLogged(plan, s, a.name, s');
    } else {
      SameLogged(plan, s, s');
    }
  }

  /** Everything has finished, and `objs` is all there is to remove. */
  predicate AtEnd(s: State, objs: seq<Obj>) {
    || (s.phase.Modules? && AllFinished(s, true) && objs == s.moduleObjs)
    || ((s.phase.Instances? || s.phase.Linking?) && AllFinished(s, false) && objs == s.moduleObjs + s.instanceObjs)
  }

  lemma DeferredIsHeld(plan: Plan, s: State, objs: seq<Obj>, o: Obj)
    requires Logged(plan, s) && AtEnd(s, objs) && o in objs && o.file.Temp?
    ensures Held(s, o.file)
  {
  }

  lemma HeldIsDeferred(plan: Plan, s: State, objs: seq<Obj>, t: Task, f: File)
    requires Logged(plan, s) && PhaseRight(plan, s) && Tasks(plan, s) && ErrorsRight(s) && AtEnd(s, objs)
    requires t in s.pcs && f in TaskFiles(s, t)
    ensures exists o :: o in objs && o.file == f
  {
  }

  /** When everything has finished, the deferred removals are for exactly the files held. */
  lemma DeferredHeld(plan: Plan, base: set<File>, s: State, objs: seq<Obj>, f: File)
    requires Owned(base, s) && Logged(plan, s) && PhaseRight(plan, s) && Tasks(plan, s) && ErrorsRight(s) && AtEnd(s, objs)
    ensures f in Deferred(s, objs) <==> Held(s, f)
  {
    assert MainFiles(s) == OptSet(s.mainObj);
    assert Held(s, f) ==> f.Temp?;
    if o :| o in objs && o.file.Temp? && o.file == f {
      DeferredIsHeld(plan, s, objs, o);
    } else if t :| t in s.pcs && f in TaskFiles(s, t) {
      HeldIsDeferred(plan, s, objs, t, f);
    }
    hide PhaseRight, ErrorsRight, Logged, Owned, Tasks, AllFinished, TaskFiles, MainFiles;
  }

  lemma Handover(plan: Plan, base: set<File>, s: State, objs: seq<Obj>, outcome: Outcome, s': State)
    requires Owned(base, s) && Logged(plan, s) && PhaseRight(plan, s) && Tasks(plan, s) && ErrorsRight(s)
    requires AtEnd(s, objs)
    requires s' == s.(phase := Cleaning(Deferred(s, objs), outcome))
    ensures Owned(base, s')
  {
    forall f
      ensures Held(s', f) <==> Held(s, f)
    {
      DeferredHeld(plan, base, s, objs, f);
      hide PhaseRight, ErrorsRight, Logged, Owned, Deferred, Tasks, AllFinished;
    }
    hide PhaseRight, ErrorsRight, Logged, Deferred, Tasks, AllFinished, PcFiles;
  }

  /** A step of the main thread on its own files: tasks keep theirs. */
  lemma MainOwnFiles(base: set<File>, s: State, s': State)
    requires Owned(base, s) && s'.pcs.Keys == s.pcs.Keys
    requires forall t :: t in s.pcs ==> TaskFiles(s', t) == TaskFiles(s, t)
    requires forall f: File :: f.Temp? && f in s'.files && f !in s.files ==> f in MainFiles(s')
    requires forall f :: f in s.files && f !in s'.files ==> f in MainFiles(s) && f !in MainFiles(s')
    requires forall f: File :: f in MainFiles(s') && f !in MainFiles(s) ==> f.Temp? && f !in s.files && f in s'.files
    requires forall f: File :: f in MainFiles(s) && f !in MainFiles(s') ==> f !in s'.files
    ensures Owned(base, s')
  {
  }

  lemma MainTasksHold(plan: Plan, s: State, a: MainAction, s': State)
    requires MainStep(plan, s, a, s') && PhaseRight(plan, s)
    requires !(s'.phase.Cleaning? && !s.phase.Cleaning?)
    ensures s'.pcs.Keys == s.pcs.Keys
    ensures forall t :: t in s.pcs ==> TaskFiles(s', t) == TaskFiles(s, t)
  {
  }

  lemma MainFrame(plan: Plan, s: State, a: MainAction, s': State)
    requires MainStep(plan, s, a, s') && PhaseRight(plan, s) && AllApart(s)
    requires MainFiles(s) <= s.files.Keys
    requires !(s'.phase.Cleaning? && !s.phase.Cleaning?)
    ensures s'.pcs.Keys == s.pcs.Keys
    ensures forall t :: t in s.pcs ==> TaskFiles(s', t) == TaskFiles(s, t)
    ensures forall f: File :: f.Temp? && f in s'.files && f !in s.files ==> f in MainFiles(s')
    ensures forall f :: f in s.files && f !in s'.files ==> f in MainFiles(s) && f !in MainFiles(s')
    ensures forall f: File :: f in MainFiles(s') && f !in MainFiles(s) ==> f.Temp? && f !in s.files && f in s'.files
    ensures forall f: File :: f in MainFiles(s) && f !in MainFiles(s') ==> f !in s'.files
  {
    MainTasksHold(plan, s, a, s');
    hide TaskFiles, AllFinished, AllIdle, AllStarted, OutcomeRight, Deferred;
  }

  lemma MainEnds(plan: Plan, s: State, a: MainAction, s': State) returns (objs: seq<Obj>)
    requires MainStep(plan, s, a, s') && PhaseRight(plan, s)
    requires s'.phase.Cleaning? && !s.phase.Cleaning?
    ensures AtEnd(s, objs)
    ensures s' == s.(phase := Cleaning(Deferred(s, objs), s'.phase.outcome))
  {
    objs := if s.phase.Modules? then s.moduleObjs else s.moduleObjs + s.instanceObjs;
  }

  lemma MainOwned(plan: Plan, base: set<File>, s: State, a: MainAction, s': State)
    requires MainStep(plan, s, a, s') && Owned(base, s) && AllApart(s)
    requires Logged(plan, s) && PhaseRight(plan, s) && Tasks(plan, s) && ErrorsRight(s)
    ensures Owned(base, s')
  {
    hide *;
    if s'.phase.Cleaning? && !s.phase.Cleaning? {
      var objs := MainEnds(plan, s, a, s');
      Handover(plan, base, s, objs, s'.phase.outcome, s');
    } else {
      MainExist(base, s);
      MainFrame(plan, s, a, s');
      MainOwnFiles(base, s, s');
    }
  }

  lemma MainExist(base: set<File>, s: State)
    requires Owned(base, s)
    ensures MainFiles(s) <= s.files.Keys
  {
  }

  lemma MainContents(plan: Plan, s: State, a: MainAction, s': State)
    requires MainStep(plan, s, a, s') && AllApart(s) && PhaseRight(plan, s)
    requires CacheSound(plan, s.files) && HasContent(s, MainObj(s), plan.mainOutput)
    requires forall f :: f in MainFiles(s) ==> f.Temp?
    ensures CacheSound(plan, s'.files) && HasContent(s', MainObj(s'), plan.mainOutput)
    ensures forall f :: f in s.files && f !in MainFiles(s) ==> f in s'.files && s'.files[f] == s.files[f]
  {
    hide AllFinished, AllIdle, AllStarted, AllSucceeded, Deferred, OutcomeRight, AddErr;
    if a.MainSucceed? {
      var made := s.phase.made;
      assert made[|made| - 1] in MainFiles(s);
    }
  }

  lemma MainOutputs(plan: Plan, base: set<File>, s: State, a: MainAction, s': State)
    requires MainStep(plan, s, a, s') && OutputsRight(plan, s) && Owned(base, s) && AllApart(s)
    requires PhaseRight(plan, s)
    ensures OutputsRight(plan, s')
  {
    assert forall f :: f in MainFiles(s) ==> Held(s, f);
    MainContents(plan, s, a, s');
    assert s'.pcs.Keys == s.pcs.Keys && (Closing(s) ==> Closing(s'));
    assert forall t :: t in s.pcs ==> s'.pcs[t] == s.pcs[t] || PcObj(s'.pcs[t]).None?;
    hide MainStep, PhaseRight, CacheSound, PcObj, MainObj, MainFiles;
    if !Closing(s') {
      forall t | t in s.pcs && PcObj(s'.pcs[t]).Some?
        ensures HasContent(s', PcObj(s'.pcs[t]), plan.output(t))
      {
        PcObjHeld(s.pcs[t]);
        assert PcObj(s.pcs[t]).value in TaskFiles(s, t);
      }
    }
  }

  // --- Every run ---------------------------------------------------------------------------

  /** The cached objects listed are in the cache. */
  predicate CacheKept(s: State) {
    && (forall o :: o in s.moduleObjs && o.file.Cached? ==> o.file in s.files)
    && (forall o :: o in s.instanceObjs && o.file.Cached? ==> o.file in s.files)
  }

  /** No step removes a file from the cache. */
  lemma CachedStay(plan: Plan, base: set<File>, s: State, step: Step, s': State, k: string)
    requires Owned(base, s) && Next(plan, s, step, s') && Cached(k) in s.files
    ensures Cached(k) in s'.files
  {
    hide OutputsRight;
    match step
    case Of(t, RemoveOne(f)) => assert f in TaskFiles(s, t) && Held(s, f);
    case OfMain(MainRemove(f)) => assert Held(s, f);
    case OfMain(Clean(f)) => assert Held(s, f);
    case _ =>
  }

  lemma TaskAddsCached(plan: Plan, base: set<File>, s: State, t: Task, a: Action, s': State, o: Obj)
    requires Owned(base, s) && TaskStep(plan, s, t, a, s') && o.file.Cached?
    requires o in s'.moduleObjs + s'.instanceObjs && o !in s.moduleObjs + s.instanceObjs
    ensures o.file in s'.files
  {
  }

  lemma StepAddsCached(plan: Plan, base: set<File>, s: State, step: Step, s': State, o: Obj)
    requires Owned(base, s) && Next(plan, s, step, s') && o.file.Cached?
    requires o in s'.moduleObjs + s'.instanceObjs && o !in s.moduleObjs + s.instanceObjs
    ensures o.file in s'.files
  {
    hide TaskStep, Owned;
    if step.Of? {
      TaskAddsCached(plan, base, s, step.task, step.action, s', o);
    }
  }

  lemma StepCacheKept(plan: Plan, base: set<File>, s: State, step: Step, s': State)
    requires Owned(base, s) && Next(plan, s, step, s') && CacheKept(s)
    ensures CacheKept(s')
  {
    hide Owned, Next;
    forall o | o in s'.moduleObjs + s'.instanceObjs && o.file.Cached?
      ensures o.file in s'.files
    {
      if o in s.moduleObjs + s.instanceObjs {
        CachedStay(plan, base, s, step, s', o.file.key);
      } else {
        StepAddsCached(plan, base, s, step, s', o);
      }
    }
  }

  /** `base` is the temporary files that were there before. */
  ghost predicate Inv(plan: Plan, base: set<File>, s: State) {
    && Owned(base, s) && AllApart(s) && Tasks(plan, s) && PhaseRight(plan, s)
    && Logged(plan, s) && ErrorsRight(s) && OutputsRight(plan, s) && SlotsRight(plan, s) && CacheKept(s)
  }

  lemma OthersOwned(base: set<File>, s: State, k: string, content: string, s': State)
    requires Owned(base, s) && s' == s.(files := s.files[Cached(k) := content])
    ensures Owned(base, s')
  {
  }

  lemma OthersOutputs(plan: Plan, base: set<File>, s: State, k: string, content: string, s': State)
    requires Owned(base, s) && OutputsRight(plan, s)
    requires s' == s.(files := s.files[Cached(k) := content]) && CacheSound(plan, s'.files)
    ensures OutputsRight(plan, s')
  {
  }

  lemma OthersInv(plan: Plan, base: set<File>, s: State, k: string, content: string, s': State)
    requires Inv(plan, base, s) && Next(plan, s, OfOthers(k, content), s')
    ensures Inv(plan, base, s')
  {
    assert s' == s.(files := s.files[Cached(k) := content]) && CacheSound(plan, s'.files);
    assert Tasks(plan, s') && PhaseRight(plan, s') && AllApart(s');
    assert SlotsRight(plan, s') by {
      assert Holders(s') == Holders(s);
    }
    hide *;
    InvFacts(plan, base, s);
    StepCacheKept(plan, base, s, OfOthers(k, content), s');
    OthersOwned(base, s, k, content, s');
    OthersOutputs(plan, base, s, k, content, s');
    SameLogged(plan, s, s');
    SameErrors(s, s');
    FactsMakeInv(plan, base, s');
  }

  lemma SameErrors(s: State, s': State)
    requires ErrorsRight(s) && s'.pcs == s.pcs && s'.moduleErr == s.moduleErr && s'.instanceErr == s.instanceErr
    ensures ErrorsRight(s')
  {
  }

  lemma TaskInv(plan: Plan, base: set<File>, s: State, t: Task, a: Action, s': State)
    requires GoodPlan(plan) && Inv(plan, base, s) && TaskStep(plan, s, t, a, s')
    ensures Inv(plan, base, s')
  {
    assert Next(plan, s, Of(t, a), s');
    HeldExist(base, s, t);
    assert TaskFiles(s, t) == PcFiles(s.pcs[t]);
    TaskStaysApart(plan, s, t, a, s');
    hide *;
    InvFacts(plan, base, s);
    TaskOwned(plan, base, s, t, a, s');
    TaskPhase(plan, s, t, a, s');
    TaskErrors(plan, s, t, a, s');
    TaskLogged(plan, s, t, a, s');
    TaskOutputs(plan, base, s, t, a, s');
    TaskSlots(plan, s, t, a, s');
    StepCacheKept(plan, base, s, Of(t, a), s');
    FactsMakeInv(plan, base, s');
  }

  lemma TaskStaysApart(plan: Plan, s: State, t: Task, a: Action, s': State)
    requires TaskStep(plan, s, t, a, s') && PcFiles(s.pcs[t]) <= s.files.Keys && AllApart(s)
    ensures AllApart(s')
  {
  }

  lemma InvFacts(plan: Plan, base: set<File>, s: State)
    requires Inv(plan, base, s)
    ensures Owned(base, s) && AllApart(s) && Tasks(plan, s) && PhaseRight(plan, s)
    ensures Logged(plan, s) && ErrorsRight(s) && OutputsRight(plan, s) && SlotsRight(plan, s) && CacheKept(s)
  {
  }

  lemma FactsMakeInv(plan: Plan, base: set<File>, s: State)
    requires Owned(base, s) && AllApart(s) && Tasks(plan, s) && PhaseRight(plan, s)
    requires Logged(plan, s) && ErrorsRight(s) && OutputsRight(plan, s) && SlotsRight(plan, s) && CacheKept(s)
    ensures Inv(plan, base, s)
  {
  }

  lemma MainInv(plan: Plan, base: set<File>, s: State, a: MainAction, s': State)
    requires Inv(plan, base, s) && MainStep(plan, s, a, s')
    ensures Inv(plan, base, s')
  {
    assert Next(plan, s, OfMain(a), s');
    hide *;
    InvFacts(plan, base, s);
    MainOwned(plan, base, s, a, s');
    MainPhase(plan, s, a, s');
    MainErrors(plan, s, a, s');
    MainLogged(plan, s, a, s');
    MainOutputs(plan, base, s, a, s');
    MainSlots(plan, s, a, s');
    MainApart(plan, s, a, s');
    StepCacheKept(plan, base, s, OfMain(a), s');
    FactsMakeInv(plan, base, s');
  }

  function TempsOf(s: State): set<File> {
    set f | f in s.files && f.Temp?
  }

  lemma InitInv(plan: Plan, s: State)
    requires Init(plan, s)
    ensures Inv(plan, TempsOf(s), s)
  {
  }

  lemma StepInv(plan: Plan, base: set<File>, s: State, step: Step, s': State)
    requires GoodPlan(plan) && Inv(plan, base, s) && Next(plan, s, step, s')
    ensures Inv(plan, base, s')
  {
    match step
    case Of(t, a) => TaskInv(plan, base, s, t, a, s');
    case OfMain(a) => MainInv(plan, base, s, a, s');
    case OfOthers(k, content) => OthersInv(plan, base, s, k, content, s');
  }

  lemma {:induction false} RunInv(plan: Plan, trace: seq<State>, steps: seq<Step>, i: nat)
    requires Run(plan, trace, steps) && i < |trace|
    ensures Inv(plan, TempsOf(trace[0]), trace[i])
    decreases i
  {
    hide Inv, Next;
    if i == 0 {
      InitInv(plan, trace[0]);
    } else {
      RunInv(plan, trace, steps, i - 1);
      assert Next(plan, trace[i - 1], steps[i - 1], trace[i]);
      StepInv(plan, TempsOf(trace[0]), trace[i - 1], steps[i - 1], trace[i]);
    }
  }

  // --- What holds of every run -----------------------------------------------------------

  /** Every temporary file the call made is gone when it returns, whatever the outcome. */
  lemma NothingLeftBehind(plan: Plan, trace: seq<State>, steps: seq<Step>, i: nat)
    requires Run(plan, trace, steps) && i < |trace| && trace[i].phase.Returned?
    ensures TempsOf(trace[i]) == TempsOf(trace[0])
  {
    RunInv(plan, trace, steps, i);
    assert forall f :: !Held(trace[i], f);
    hide Run, Held, PhaseRight, Logged, ErrorsRight, OutputsRight, SlotsRight, CacheKept;
  }

  lemma RunStep(plan: Plan, trace: seq<State>, steps: seq<Step>, i: nat)
    requires Run(plan, trace, steps) && i < |steps|
    ensures |trace| == |steps| + 1 && Next(plan, trace[i], steps[i], trace[i + 1])
  {
  }

  lemma RunLength(plan: Plan, trace: seq<State>, steps: seq<Step>)
    requires Run(plan, trace, steps)
    ensures |trace| == |steps| + 1
  {
  }

  lemma {:induction false} CachedNeverRemoved(plan: Plan, trace: seq<State>, steps: seq<Step>, i: nat, j: nat, k: string)
    requires Run(plan, trace, steps) && i <= j < |trace| && Cached(k) in trace[i].files
    ensures Cached(k) in trace[j].files
    decreases j
  {
    hide *;
    if i < j {
      CachedNeverRemoved(plan, trace, steps, i, j - 1, k);
      RunLength(plan, trace, steps);
      RunStep(plan, trace, steps, j - 1);
      RunInv(plan, trace, steps, j - 1);
      InvFacts(plan, TempsOf(trace[0]), trace[j - 1]);
      CachedStay(plan, TempsOf(trace[0]), trace[j - 1], steps[j - 1], trace[j], k);
    }
  }

  /** At most `limit` backend processes of the guarded phases at a time, and none of them
      while the unguarded main compile runs. */
  lemma WithinSlots(plan: Plan, trace: seq<State>, steps: seq<Step>, i: nat)
    requires Run(plan, trace, steps) && i < |trace|
    ensures |Holders(trace[i])| <= plan.limit
    ensures trace[i].phase.MainCompiling? || trace[i].phase.MainUnwinding? ==> Holders(trace[i]) == {}
  {
    RunInv(plan, trace, steps, i);
  }

  /** What a return says: a compile error names a task that failed, and any failure is
      reported. */
  lemma OutcomeExact(plan: Plan, trace: seq<State>, steps: seq<Step>, i: nat)
    requires Run(plan, trace, steps) && i < |trace| && trace[i].phase.Returned?
    ensures var s := trace[i];
      && (s.phase.outcome.CompileFailed? <==> exists t :: Failed(s, t))
      && (s.phase.outcome.CompileFailed? ==> Failed(s, s.phase.outcome.task))
      && (s.phase.outcome.Success? || s.phase.outcome.LinkFailed? ==> AllSucceeded(s))
      && (s.phase.outcome.MainFailed? ==> forall t :: t in s.pcs ==> s.pcs[t].NotStarted?)
  {
    RunInv(plan, trace, steps, i);
    hide Run, Owned, Logged, ErrorsRight, OutputsRight;
  }

  function OutcomeOf(s: State): Option<Outcome> {
    match s.phase
    case Cleaning(_, outcome) => Some(outcome)
    case Returned(outcome) => Some(outcome)
    case _ => None
  }

  /** Success and link failure are the linker's word: some earlier step ran it and it said so. */
  lemma {:induction false} LinkDecides(plan: Plan, trace: seq<State>, steps: seq<Step>, i: nat) returns (j: nat)
    requires Run(plan, trace, steps) && i < |trace|
    requires OutcomeOf(trace[i]) == Some(Success) || OutcomeOf(trace[i]) == Some(LinkFailed)
    ensures j < i && trace[j].phase.Linking? && steps[j] == OfMain(Link(OutcomeOf(trace[i]) == Some(Success)))
    decreases i
  {
    if i > 0 {
      assert Next(plan, trace[i - 1], steps[i - 1], trace[i]);
      if OutcomeOf(trace[i - 1]) == OutcomeOf(trace[i]) {
        j := LinkDecides(plan, trace, steps, i - 1);
      } else {
        j := i - 1;
      }
    }
  }

  /** The first failure reported is the one kept. */
  lemma {:induction false} FirstErrorStays(plan: Plan, trace: seq<State>, steps: seq<Step>, i: nat, j: nat, t: Task)
    requires Run(plan, trace, steps) && i <= j < |trace| && Err(trace[i], t).Some?
    ensures Err(trace[j], t) == Err(trace[i], t)
    decreases j
  {
    hide *;
    RunLength(plan, trace, steps);
    if i < j {
      FirstErrorStays(plan, trace, steps, i, j - 1, t);
      RunStep(plan, trace, steps, j - 1);
      ErrorStays(plan, trace[j - 1], steps[j - 1], trace[j], t);
    }
  }

  lemma ErrorStays(plan: Plan, s: State, step: Step, s': State, t: Task)
    requires Next(plan, s, step, s') && Err(s, t).Some?
    ensures Err(s', t) == Err(s, t)
  {
  }

  // --- What is linked -------------------------------------------------------------------

  /** Every module, every instance and every precached instance found is linked once, as
      what its IR compiles to. */
  lemma LinkedObjects(plan: Plan, trace: seq<State>, steps: seq<Step>, i: nat)
    requires Run(plan, trace, steps) && i < |trace| && trace[i].phase.Linking?
    ensures var s := trace[i];
      && (forall n :: Mentions(s.moduleObjs, n) <==> n in plan.modules)
      && (forall n :: Mentions(s.instanceObjs, n) <==> n in plan.instances + s.hits)
      && Distinct(s.moduleObjs) && Distinct(s.instanceObjs) && s.hits <= plan.precached
      && (forall o :: o in s.moduleObjs ==> HasFile(s, o, plan.output(ModuleIR(o.name))))
      && (forall o :: o in s.instanceObjs ==> HasFile(s, o, plan.output(InstanceIR(o.name))))
      && s.mainObj.Some? && HasContent(s, s.mainObj, plan.mainOutput)
  {
    var base, s := TempsOf(trace[0]), trace[i];
    RunInv(plan, trace, steps, i);
    hide Run;
    forall n
      ensures Mentions(s.moduleObjs, n) <==> n in plan.modules
      ensures Mentions(s.instanceObjs, n) <==> n in plan.instances + s.hits
    {
      LinkedNames(plan, base, s, n);
    }
    forall o | o in s.moduleObjs
      ensures HasFile(s, o, plan.output(ModuleIR(o.name)))
    {
      LinkedContent(plan, base, s, ModuleIR(o.name), o);
    }
    forall o | o in s.instanceObjs
      ensures HasFile(s, o, plan.output(InstanceIR(o.name)))
    {
      LinkedContent(plan, base, s, InstanceIR(o.name), o);
    }
  }

  predicate HasFile(s: State, o: Obj, content: string) {
    o.file in s.files && s.files[o.file] == content
  }

  lemma LinkedNames(plan: Plan, base: set<File>, s: State, n: string)
    requires Inv(plan, base, s) && s.phase.Linking?
    ensures Mentions(s.moduleObjs, n) <==> n in plan.modules
    ensures Mentions(s.instanceObjs, n) <==> n in plan.instances + s.hits
  {
    hide Owned, OutputsRight, CacheKept, SlotsRight;
    assert n in plan.modules <==> ModuleIR(n) in s.pcs;
    assert n in plan.instances <==> InstanceIR(n) in s.pcs;
    assert forall t :: t in s.pcs ==> Reported(s.pcs[t]) && (s.pcs[t].ok || Failed(s, t));
    assert n in plan.modules ==> Mentions(Objs(s, ModuleIR(n)), ModuleIR(n).name);
    assert n in plan.instances ==> Mentions(Objs(s, InstanceIR(n)), InstanceIR(n).name);
  }

  lemma LinkedContent(plan: Plan, base: set<File>, s: State, t: Task, o: Obj)
    requires Inv(plan, base, s) && s.phase.Linking? && o in Objs(s, t) && o.name == t.name
    ensures HasFile(s, o, plan.output(t))
  {
    hide Owned, SlotsRight, ErrorsRight, Tasks, AllApart;
    assert ReportedAs(plan, s, t, o) || FoundAs(plan, s, o);
    if ReportedAs(plan, s, t, o) {
      assert HasContent(s, PcObj(s.pcs[t]), plan.output(t));
    }
  }

  function Names(objs: seq<Obj>): (names: seq<string>)
    ensures |names| == |objs|
    ensures forall i :: 0 <= i < |objs| ==> names[i] == objs[i].name
  {
    seq(|objs|, i requires 0 <= i < |objs| => objs[i].name)
  }

  lemma {:induction false} OnceEach(names: seq<string>, all: set<string>)
    requires forall i, j :: 0 <= i < j < |names| ==> names[i] != names[j]
    requires forall n :: n in names <==> n in all
    ensures multiset(names) == multiset(all)
  {
    if names == [] {
      assert all == {};
    } else {
      var last := |names| - 1;
      assert names == names[..last] + [names[last]];
      OnceEach(names[..last], all - {names[last]});
      assert all == (all - {names[last]}) + {names[last]};
    }
  }

  /** The names linked are the same whatever the interleaving: they are given by the plan and
      by which precached instances were found. */
  lemma LinkedWhateverTheSchedule(plan: Plan, trace: seq<State>, steps: seq<Step>, i: nat)
    requires Run(plan, trace, steps) && i < |trace| && trace[i].phase.Linking?
    ensures multiset(Names(trace[i].moduleObjs)) == multiset(plan.modules)
    ensures multiset(Names(trace[i].instanceObjs)) == multiset(plan.instances + trace[i].hits)
  {
    LinkedObjects(plan, trace, steps, i);
    hide Run;
    NamedExactly(trace[i].moduleObjs, plan.modules);
    NamedExactly(trace[i].instanceObjs, plan.instances + trace[i].hits);
  }

  lemma NamedExactly(objs: seq<Obj>, all: set<string>)
    requires Distinct(objs) && forall n :: Mentions(objs, n) <==> n in all
    ensures multiset(Names(objs)) == multiset(all)
  {
    forall n
      ensures n in Names(objs) <==> n in all
    {
      if n in all {
        assert Mentions(objs, n);
        var o :| o in objs && o.name == n;
        var i :| 0 <= i < |objs| && objs[i] == o;
        assert Names(objs)[i] == n;
      }
      if n in Names(objs) {
        var i :| 0 <= i < |objs| && Names(objs)[i] == n;
        assert objs[i] in objs && Mentions(objs, n);
      }
    }
    OnceEach(Names(objs), all);
  }

  // --- What the cache is used for -----------------------------------------------------------

  /** The precached instance has been looked up, and nothing has been cleaned up yet. */
  predicate Past(s: State, n: string) {
    (s.phase.Preloading? && n !in s.phase.todo) || s.phase.Instances? || s.phase.Linking?
  }

  /** A goroutine's step moves that goroutine. */
  lemma TaskMoves(plan: Plan, s: State, t: Task, a: Action, s': State)
    requires TaskStep(plan, s, t, a, s')
    ensures t in s.pcs && s'.pcs == s.pcs[t := s'.pcs[t]] && s'.phase == s.phase && s'.hits == s.hits
  {
    hide InCache, AsSet;
  }

  /** The main thread only starts tasks. */
  lemma MainStarts(plan: Plan, s: State, a: MainAction, s': State)
    requires MainStep(plan, s, a, s')
    ensures s'.pcs.Keys == s.pcs.Keys
    ensures forall t :: t in s.pcs && t in s'.pcs && s'.pcs[t] != s.pcs[t] ==> s'.pcs[t].Looking?
  {
    hide InCache, Deferred, AllFinished, AsSet;
  }

  lemma MainPast(plan: Plan, s: State, a: MainAction, s': State, n: string)
    requires MainStep(plan, s, a, s') && Past(s', n) && n in plan.precached
    ensures Past(s, n) ==> (n in s'.hits <==> n in s.hits)
    ensures !Past(s, n) ==> a == Preload(n)
    ensures !Past(s, n) && n !in s.hits ==>
      var t := InstanceIR(n);
      n in s'.hits <==> plan.key(t).Some? && Cached(plan.key(t).value) in s.files
  {
    hide Deferred, AllFinished, AsSet;
  }

  lemma PastStep(plan: Plan, s: State, step: Step, s': State, n: string)
    requires Next(plan, s, step, s') && Past(s', n) && n in plan.precached
    ensures Past(s, n) ==> (n in s'.hits <==> n in s.hits)
    ensures !Past(s, n) ==> step == OfMain(Preload(n))
    ensures !Past(s, n) && n !in s.hits ==>
      var t := InstanceIR(n);
      n in s'.hits <==> plan.key(t).Some? && Cached(plan.key(t).value) in s.files
  {
    hide TaskStep, MainStep, CacheSound;
    match step
    case Of(t, a) => TaskMoves(plan, s, t, a, s');
    case OfMain(a) => MainPast(plan, s, a, s', n);
    case OfOthers(_, _) =>
  }

  lemma NoHitsYet(plan: Plan, base: set<File>, s: State, n: string)
    requires Inv(plan, base, s) && !Past(s, n) && !Closing(s)
    ensures n !in s.hits
  {
    hide Owned, Logged, ErrorsRight, OutputsRight, SlotsRight, CacheKept;
  }

  /** Whether a precached instance is taken from the cache is decided by one lookup: it is
      exactly when it is there then. */
  lemma {:induction false} PreloadDecides(plan: Plan, trace: seq<State>, steps: seq<Step>, i: nat, n: string) returns (j: nat)
    requires Run(plan, trace, steps) && i < |trace| && Past(trace[i], n) && n in plan.precached
    ensures j < i && steps[j] == OfMain(Preload(n))
    ensures n in trace[i].hits <==>
      plan.key(InstanceIR(n)).Some? && Cached(plan.key(InstanceIR(n)).value) in trace[j].files
    decreases i
  {
    assert i > 0 by {
      hide Next;
    }
    j := i - 1;
    RunLength(plan, trace, steps);
    RunStep(plan, trace, steps, j);
    RunInv(plan, trace, steps, j);
    hide Run, Inv;
    PastStep(plan, trace[j], steps[j], trace[i], n);
    if Past(trace[j], n) {
      j := PreloadDecides(plan, trace, steps, j, n);
    } else {
      assert !Closing(trace[j]);
      NoHitsYet(plan, TempsOf(trace[0]), trace[j], n);
    }
  }

  /** So a precached instance whose object was cached when the call began is linked, and one
      that is linked is in the cache. */
  lemma CachedIsLinked(plan: Plan, trace: seq<State>, steps: seq<Step>, i: nat, n: string)
    requires Run(plan, trace, steps) && i < |trace| && trace[i].phase.Linking? && n in plan.precached
    ensures var t := InstanceIR(n);
      && (plan.key(t).Some? && Cached(plan.key(t).value) in trace[0].files ==> Mentions(trace[i].instanceObjs, n))
      && (Mentions(trace[i].instanceObjs, n) ==> plan.key(t).Some? && Cached(plan.key(t).value) in trace[i].files)
  {
    var t := InstanceIR(n);
    LinkedObjects(plan, trace, steps, i);
    RunPlan(plan, trace, steps);
    var j := PreloadDecides(plan, trace, steps, i, n);
    hide Run;
    if plan.key(t).Some? && Cached(plan.key(t).value) in trace[0].files {
      CachedNeverRemoved(plan, trace, steps, 0, j, plan.key(t).value);
    }
    if plan.key(t).Some? && Cached(plan.key(t).value) in trace[j].files {
      CachedNeverRemoved(plan, trace, steps, j, i, plan.key(t).value);
    }
  }

  lemma RunPlan(plan: Plan, trace: seq<State>, steps: seq<Step>)
    requires Run(plan, trace, steps)
    ensures GoodPlan(plan) && Init(plan, trace[0])
  {
  }

  predicate NotCompiled(pc: Pc) {
    pc.NotStarted? || pc.Looking? || pc == Finished(true, None)
  }

  /** What was in the cache when the call began is not compiled again: no slot is taken, no
      file made for it. */
  lemma {:induction false} CachedIsNotCompiled(plan: Plan, trace: seq<State>, steps: seq<Step>, i: nat, t: Task)
    requires Run(plan, trace, steps) && i < |trace| && t in trace[i].pcs
    requires plan.key(t).Some? && Cached(plan.key(t).value) in trace[0].files
    ensures NotCompiled(trace[i].pcs[t])
    decreases i
  {
    RunPlan(plan, trace, steps);
    if i > 0 {
      RunLength(plan, trace, steps);
      RunStep(plan, trace, steps, i - 1);
      CachedNeverRemoved(plan, trace, steps, 0, i - 1, plan.key(t).value);
      SameTasks(plan, trace[i - 1], steps[i - 1], trace[i]);
      CachedIsNotCompiled(plan, trace, steps, i - 1, t);
      hide *;
      StillNotCompiled(plan, trace[i - 1], steps[i - 1], trace[i], t);
    }
  }

  lemma StillNotCompiled(plan: Plan, s: State, step: Step, s': State, t: Task)
    requires Next(plan, s, step, s') && t in s.pcs && t in s'.pcs && NotCompiled(s.pcs[t])
    requires plan.key(t).Some? && Cached(plan.key(t).value) in s.files
    ensures NotCompiled(s'.pcs[t])
  {
    hide TaskStep, MainStep, CacheSound;
    match step
    case Of(u, a) =>
      TaskMoves(plan, s, u, a, s');
      if u == t {
        FoundInCache(plan, s, t, a, s');
      }
    case OfMain(a) => MainStarts(plan, s, a, s');
    case OfOthers(_, _) =>
  }

  lemma FoundInCache(plan: Plan, s: State, t: Task, a: Action, s': State)
    requires TaskStep(plan, s, t, a, s') && NotCompiled(s.pcs[t])
    requires plan.key(t).Some? && Cached(plan.key(t).value) in s.files
    ensures t in s'.pcs && NotCompiled(s'.pcs[t])
  {
    hide AsSet;
  }

  lemma SameTasks(plan: Plan, s: State, step: Step, s': State)
    requires Next(plan, s, step, s')
    ensures s'.pcs.Keys == s.pcs.Keys
  {
    hide TaskStep, MainStep, CacheSound;
    match step
    case Of(u, a) => TaskMoves(plan, s, u, a, s');
    case OfMain(a) => MainStarts(plan, s, a, s');
    case OfOthers(_, _) =>
  }

  /** Past its save, with an object of its own. */
  predicate PastSave(pc: Pc) {
    pc.Saved? || (pc.Releasing? && pc.ok) || (pc.Finished? && pc.ok && pc.obj.Some?)
  }

  lemma SaveStep(plan: Plan, s: State, step: Step, s': State, t: Task)
    requires Next(plan, s, step, s') && t in s.pcs && t in s'.pcs && PastSave(s'.pcs[t]) && !PastSave(s.pcs[t])
    ensures step == Of(t, SkipSave)
         || (step == Of(t, Save) && plan.key(t).Some? && Cached(plan.key(t).value) in s'.files)
  {
    hide TaskStep, MainStep, CacheSound;
    match step
    case Of(u, a) =>
      TaskMoves(plan, s, u, a, s');
      if u == t {
        TaskSaves(plan, s, t, a, s');
      }
    case OfMain(a) => MainStarts(plan, s, a, s');
    case OfOthers(_, _) =>
  }

  lemma TaskSaves(plan: Plan, s: State, t: Task, a: Action, s': State)
    requires TaskStep(plan, s, t, a, s') && t in s'.pcs && PastSave(s'.pcs[t]) && !PastSave(s.pcs[t])
    ensures a == SkipSave || (a == Save && plan.key(t).Some? && Cached(plan.key(t).value) in s'.files)
  {
    hide InCache, AsSet;
  }

  /** A compiled object is in the cache afterwards, as what its IR compiles to, unless saving
      it was skipped. */
  lemma {:induction false} SavedForLater(plan: Plan, trace: seq<State>, steps: seq<Step>, i: nat, t: Task) returns (j: nat)
    requires Run(plan, trace, steps) && i < |trace| && t in trace[i].pcs && PastSave(trace[i].pcs[t])
    ensures j < i
    ensures steps[j] == Of(t, SkipSave)
         || (steps[j] == Of(t, Save) && plan.key(t).Some? && Cached(plan.key(t).value) in trace[i].files
             && trace[i].files[Cached(plan.key(t).value)] == plan.output(t))
    decreases i
  {
    RunPlan(plan, trace, steps);
    assert i > 0;
    j := i - 1;
    RunLength(plan, trace, steps);
    RunStep(plan, trace, steps, j);
    SameTasks(plan, trace[j], steps[j], trace[i]);
    if PastSave(trace[j].pcs[t]) {
      j := SavedForLater(plan, trace, steps, j, t);
      if steps[j] == Of(t, Save) {
        CachedNeverRemoved(plan, trace, steps, i - 1, i, plan.key(t).value);
      }
    } else {
      hide Run;
      SaveStep(plan, trace[j], steps[j], trace[i], t);
    }
    RunInv(plan, trace, steps, i);
    InvFacts(plan, TempsOf(trace[0]), trace[i]);
  }

  // --- It returns ------------------------------------------------------------------------

  /** What is left to do in one goroutine. */
  function Left(plan: Plan, pc: Pc): nat
    requires pc.Compiling? ==> |pc.made| <= plan.stages
  {
    match pc
    case NotStarted => 2 * plan.stages + 9
    case Looking => 2 * plan.stages + 8
    case Waiting => 2 * plan.stages + 7
    case Compiling(made) => 2 * plan.stages - |made| + 6
    case Unwinding(left, _) => |left| + 5
    case Compiled(_) => 4
    case Saved(_) => 3
    case Releasing(_, _) => 1
    case Finished(_, _) => 0
  }

  predicate Bounded(plan: Plan, s: State) {
    forall t :: t in s.pcs && s.pcs[t].Compiling? ==> |s.pcs[t].made| <= plan.stages
  }

  ghost function LeftOf(plan: Plan, s: State, ts: set<Task>): nat
    requires ts <= s.pcs.Keys && Bounded(plan, s)
  {
    if ts == {} then 0
    else
      var t :| t in ts;
      Left(plan, s.pcs[t]) + LeftOf(plan, s, ts - {t})
  }

  lemma {:induction false} LeftSplit(plan: Plan, s: State, ts: set<Task>, t: Task)
    requires ts <= s.pcs.Keys && Bounded(plan, s) && t in ts
    ensures LeftOf(plan, s, ts) == Left(plan, s.pcs[t]) + LeftOf(plan, s, ts - {t})
    decreases ts
  {
    var u :| u in ts && LeftOf(plan, s, ts) == Left(plan, s.pcs[u]) + LeftOf(plan, s, ts - {u});
    if u != t {
      LeftSplit(plan, s, ts - {u}, t);
      LeftSplit(plan, s, ts - {t}, u);
      assert ts - {u} - {t} == ts - {t} - {u};
    }
  }

  lemma {:induction false} LeftSame(plan: Plan, s: State, s': State, ts: set<Task>)
    requires ts <= s.pcs.Keys && ts <= s'.pcs.Keys && Bounded(plan, s) && Bounded(plan, s')
    requires forall t :: t in ts ==> s'.pcs[t] == s.pcs[t]
    ensures LeftOf(plan, s', ts) == LeftOf(plan, s, ts)
    decreases ts
  {
    if ts != {} {
      var t :| t in ts;
      LeftSplit(plan, s, ts, t);
      LeftSplit(plan, s', ts, t);
      LeftSame(plan, s, s', ts - {t});
    }
  }

  /** The phases in order, then what is left within the phase. */
  function Rank(s: State): nat {
    match s.phase
    case MainCompiling(_) => 7
    case MainUnwinding(_, _) => 6
    case Modules => 5
    case Preloading(_) => 4
    case Instances => 3
    case Linking => 2
    case Cleaning(_, _) => 1
    case Returned(_) => 0
  }

  ghost function Within(plan: Plan, s: State): int
    requires Bounded(plan, s)
  {
    match s.phase
    case MainCompiling(made) => plan.stages - |made|
    case MainUnwinding(left, _) => |left|
    case Modules => LeftOf(plan, s, s.pcs.Keys)
    case Preloading(todo) => |todo|
    case Instances => LeftOf(plan, s, s.pcs.Keys)
    case Linking => 0
    case Cleaning(rest, _) => |rest|
    case Returned(_) => 0
  }

  lemma {:induction false} AsSetSize(files: seq<File>)
    ensures |AsSet(files)| <= |files|
  {
    if files != [] {
      var last := |files| - 1;
      AsSetSize(files[..last]);
      assert AsSet(files) == AsSet(files[..last]) + {files[last]};
    }
  }

  /** How one goroutine's own state can change. */
  predicate PcStep(plan: Plan, pc: Pc, pc': Pc) {
    match pc
    case Looking => pc'.Waiting? || pc'.Finished?
    case Waiting => pc' == Compiling([])
    case Compiling(made) =>
      || (pc'.Compiling? && |made| < plan.stages && |pc'.made| == |made| + 1)
      || (pc'.Unwinding? && pc'.left <= AsSet(made))
    case Unwinding(left, _) =>
      (pc'.Unwinding? && pc'.left < left) || pc'.Compiled? || pc'.Releasing?
    case Compiled(_) => pc'.Saved?
    case Saved(_) => pc'.Releasing?
    case Releasing(_, _) => pc'.Finished?
    case _ => false
  }

  lemma TaskPcStep(plan: Plan, s: State, t: Task, a: Action, s': State)
    requires TaskStep(plan, s, t, a, s')
    ensures s'.pcs == s.pcs[t := s'.pcs[t]] && s'.phase == s.phase && PcStep(plan, s.pcs[t], s'.pcs[t])
    ensures !s'.pcs[t].NotStarted?
  {
  }

  lemma SmallerSet<T>(a: set<T>, b: set<T>)
    requires a <= b
    ensures |a| <= |b| && (a != b ==> |a| < |b|)
  {
    assert b == a + (b - a);
  }

  lemma PcGetsOn(plan: Plan, pc: Pc, pc': Pc)
    requires PcStep(plan, pc, pc') && (pc.Compiling? ==> |pc.made| <= plan.stages)
    ensures pc'.Compiling? ==> |pc'.made| <= plan.stages
    ensures Left(plan, pc') < Left(plan, pc)
  {
    if pc.Compiling? && pc'.Unwinding? {
      AsSetSize(pc.made);
      SmallerSet(pc'.left, AsSet(pc.made));
    } else if pc.Unwinding? && pc'.Unwinding? {
      SmallerSet(pc'.left, pc.left);
    }
  }

  /** No step of the compilation can be taken for ever: each one either moves to a later
      phase or leaves less to do in this one. */
  lemma StepGetsOn(plan: Plan, s: State, step: Step, s': State)
    requires Next(plan, s, step, s') && !step.OfOthers? && Bounded(plan, s)
    ensures Bounded(plan, s')
    ensures Rank(s') < Rank(s) || (Rank(s') == Rank(s) && 0 <= Within(plan, s') < Within(plan, s))
  {
    hide *;
    NextIs(plan, s, step, s');
    if step.Of? {
      TaskGetsOn(plan, s, step.task, step.action, s');
    } else {
      MainGetsOn(plan, s, step.main, s');
    }
  }

  lemma NextIs(plan: Plan, s: State, step: Step, s': State)
    requires Next(plan, s, step, s')
    ensures step.Of? ==> TaskStep(plan, s, step.task, step.action, s')
    ensures step.OfMain? ==> MainStep(plan, s, step.main, s')
  {
  }

  lemma TaskGetsOn(plan: Plan, s: State, t: Task, a: Action, s': State)
    requires TaskStep(plan, s, t, a, s') && Bounded(plan, s)
    ensures Bounded(plan, s')
    ensures Rank(s') == Rank(s) && 0 <= Within(plan, s') < Within(plan, s)
  {
    assert s.phase.Modules? || s.phase.Instances?;
    TaskPcStep(plan, s, t, a, s');
    hide TaskStep, PcStep, Left, LeftOf;
    PcGetsOn(plan, s.pcs[t], s'.pcs[t]);
    assert s'.pcs.Keys == s.pcs.Keys;
    LeftSplit(plan, s, s.pcs.Keys, t);
    LeftSplit(plan, s', s.pcs.Keys, t);
    LeftSame(plan, s, s', s.pcs.Keys - {t});
  }

  lemma MainGetsOn(plan: Plan, s: State, a: MainAction, s': State)
    requires MainStep(plan, s, a, s') && Bounded(plan, s)
    ensures Bounded(plan, s')
    ensures Rank(s') < Rank(s) || (Rank(s') == Rank(s) && 0 <= Within(plan, s') < Within(plan, s))
  {
    MainMoves(plan, s, a, s');
    hide MainStep, LeftOf, Left;
    match s.phase
    case MainUnwinding(left, _) =>
      if s'.phase.MainUnwinding? {
        SmallerSet(s'.phase.left, left);
      }
    case Preloading(todo) =>
      if s'.phase.Preloading? {
        SmallerSet(s'.phase.todo, todo);
      }
    case Cleaning(rest, _) =>
      if s'.phase.Cleaning? {
        SmallerSet(s'.phase.rest, rest);
      }
    case _ =>
  }

  /** How the phase can change. */
  predicate PhaseStep(plan: Plan, p: Phase, p': Phase) {
    match p
    case MainCompiling(made) =>
      (p'.MainCompiling? && |made| < plan.stages && |p'.made| == |made| + 1) || p'.MainUnwinding?
    case MainUnwinding(left, _) => (p'.MainUnwinding? && p'.left < left) || p'.Modules? || p'.Returned?
    case Modules => p'.Preloading? || p'.Cleaning?
    case Preloading(todo) => (p'.Preloading? && p'.todo < todo) || p'.Instances?
    case Instances => p'.Linking? || p'.Cleaning?
    case Linking => p'.Cleaning?
    case Cleaning(rest, _) => (p'.Cleaning? && p'.rest < rest) || p'.Returned?
    case Returned(_) => false
  }

  lemma MainMoves(plan: Plan, s: State, a: MainAction, s': State)
    requires MainStep(plan, s, a, s')
    ensures PhaseStep(plan, s.phase, s'.phase)
    ensures Bounded(plan, s) ==> Bounded(plan, s')
  {
  }

  lemma {:induction false} FreshTemp(files: set<File>) returns (bound: nat)
    ensures forall id: nat :: id >= bound ==> Temp(id) !in files
    decreases files
  {
    bound := 0;
    if files != {} {
      var f :| f in files;
      bound := FreshTemp(files - {f});
      if f.Temp? && bound <= f.id {
        bound := f.id + 1;
      }
    }
  }

  /** A goroutine can always move on without failing, unless it waits for a slot. */
  lemma TaskCanMove(plan: Plan, s: State, t: Task) returns (a: Action, s': State)
    requires t in s.pcs && Active(s, t) && !s.pcs[t].NotStarted? && !s.pcs[t].Finished?
    requires s.pcs[t].Waiting? ==> s.slots < plan.limit
    requires s.pcs[t].Releasing? ==> s.slots > 0
    requires s.pcs[t].Compiled? ==> s.pcs[t].file in s.files
    requires plan.stages > 0 && Bounded(plan, s)
    ensures TaskStep(plan, s, t, a, s') && !a.Fail? && (a.SkipSave? ==> plan.key(t).None?)
  {
    match s.pcs[t]
    case Looking =>
      if InCache(plan, s, t) {
        a, s' := Hit, Moved(AddObj(s, t, Cached(plan.key(t).value)), t, Finished(true, None));
      } else {
        a, s' := Miss, Moved(s, t, Waiting);
      }
    case Waiting =>
      a, s' := Acquire, Moved(s.(slots := s.slots + 1), t, Compiling([]));
    case Compiling(made) =>
      if |made| < plan.stages {
        var id := FreshTemp(s.files.Keys);
        a, s' := Create(Temp(id), ""), Moved(s.(files := s.files[Temp(id) := ""]), t, Compiling(made + [Temp(id)]));
      } else {
        var obj := made[|made| - 1];
        a := Succeed;
        s' := Moved(s.(files := s.files[obj := plan.output(t)]), t, Unwinding(AsSet(made) - {obj}, Some(obj)));
      }
    case Unwinding(left, obj) =>
      if left == {} {
        a := Unwound;
        s' := if obj.Some? then Moved(s, t, Compiled(obj.value)) else Moved(AddErr(s, t), t, Releasing(false, None));
      } else {
        var f :| f in left;
        a, s' := RemoveOne(f), Moved(s.(files := s.files - {f}), t, Unwinding(left - {f}, obj));
      }
    case Compiled(f) =>
      if plan.key(t).Some? {
        a, s' := Save, Moved(s.(files := s.files[Cached(plan.key(t).value) := s.files[f]]), t, Saved(f));
      } else {
        a, s' := SkipSave, Moved(s, t, Saved(f));
      }
    case Saved(f) =>
      a, s' := Report, Moved(AddObj(s, t, f), t, Releasing(true, Some(f)));
    case Releasing(ok, obj) =>
      a, s' := Release, Moved(s.(slots := s.slots - 1), t, Finished(ok, obj));
    case _ =>
  }

  /** While a goroutine is unfinished, some goroutine can move: a full house of slots is
      held by goroutines that can. */
  lemma SomeTaskCanMove(plan: Plan, s: State, t: Task) returns (u: Task, a: Action, s': State)
    requires plan.limit > 0 && plan.stages > 0 && PhaseRight(plan, s) && SlotsRight(plan, s) && Bounded(plan, s)
    requires t in s.pcs && Active(s, t) && !s.pcs[t].Finished?
    requires forall u :: u in s.pcs && s.pcs[u].Compiled? ==> s.pcs[u].file in s.files
    ensures TaskStep(plan, s, u, a, s') && !a.Fail? && (a.SkipSave? ==> plan.key(u).None?)
  {
    u := t;
    if s.pcs[t].Waiting? && s.slots == plan.limit {
      assert Holders(s) != {};
      u :| u in Holders(s);
    }
    if s.pcs[u].Releasing? {
      assert u in Holders(s);
    }
    hide TaskStep;
    a, s' := TaskCanMove(plan, s, u);
  }

  lemma MainCanMove(plan: Plan, s: State) returns (a: MainAction, s': State)
    requires !s.phase.Returned? && plan.stages > 0 && (s.phase.MainCompiling? ==> |s.phase.made| <= plan.stages)
    requires s.phase.Modules? ==> AllFinished(s, true)
    requires s.phase.Instances? ==> AllFinished(s, false)
    ensures MainStep(plan, s, a, s') && !a.MainFail? && a != Link(false)
  {
    match s.phase
    case MainCompiling(made) =>
      if |made| < plan.stages {
        var id := FreshTemp(s.files.Keys);
        a := MainCreate(Temp(id), "");
        s' := s.(files := s.files[Temp(id) := ""], phase := MainCompiling(made + [Temp(id)]));
      } else {
        var obj := made[|made| - 1];
        a := MainSucceed;
        s' := s.(files := s.files[obj := plan.mainOutput], phase := MainUnwinding(AsSet(made) - {obj}, Some(obj)));
      }
    case MainUnwinding(left, obj) =>
      if left == {} {
        a := MainUnwound;
        s' := if obj.None? then s.(phase := Returned(MainFailed))
              else s.(phase := Modules, mainObj := obj, pcs := StartTasks(s, true));
      } else {
        var f :| f in left;
        a, s' := MainRemove(f), s.(files := s.files - {f}, phase := MainUnwinding(left - {f}, obj));
      }
    case Modules =>
      a := ModulesDone;
      s' := s.(phase := if s.moduleErr.Some?
                        then Cleaning(Deferred(s, s.moduleObjs), CompileFailed(s.moduleErr.value))
                        else Preloading(plan.precached));
    case Preloading(todo) =>
      if todo == {} {
        a, s' := Preloaded, s.(phase := Instances, pcs := StartTasks(s, false));
      } else {
        var n :| n in todo;
        a, s' := Preload(n), Looked(plan, s, n);
      }
    case Instances =>
      a := InstancesDone;
      s' := s.(phase := if s.instanceErr.Some?
                        then Cleaning(Deferred(s, s.moduleObjs + s.instanceObjs), CompileFailed(s.instanceErr.value))
                        else Linking);
    case Linking =>
      a, s' := Link(true), s.(phase := Cleaning(Deferred(s, s.moduleObjs + s.instanceObjs), Success));
    case Cleaning(rest, outcome) =>
      if rest == {} {
        a, s' := Return, s.(phase := Returned(outcome));
      } else {
        var f :| f in rest;
        a, s' := Clean(f), s.(files := s.files - {f}, phase := Cleaning(rest - {f}, outcome));
      }
    case Returned(_) =>
  }

  lemma {:induction false} RunBounded(plan: Plan, trace: seq<State>, steps: seq<Step>, i: nat)
    requires Run(plan, trace, steps) && i < |trace|
    ensures Bounded(plan, trace[i])
    decreases i
  {
    if i == 0 {
      hide Next;
    } else {
      hide *;
      RunBounded(plan, trace, steps, i - 1);
      RunLength(plan, trace, steps);
      RunStep(plan, trace, steps, i - 1);
      StepBounded(plan, trace[i - 1], steps[i - 1], trace[i]);
    }
  }

  lemma StepBounded(plan: Plan, s: State, step: Step, s': State)
    requires Next(plan, s, step, s') && Bounded(plan, s)
    ensures Bounded(plan, s')
  {
    hide TaskStep, MainStep, Within, Rank;
    if !step.OfOthers? {
      StepGetsOn(plan, s, step, s');
    }
  }

  lemma CompiledExists(base: set<File>, s: State, u: Task)
    requires Owned(base, s) && !Closing(s) && u in s.pcs && s.pcs[u].Compiled?
    ensures s.pcs[u].file in s.files
  {
    HeldExist(base, s, u);
  }

  predicate PhaseOpen(s: State) {
    !Closing(s)
  }

  /** With at least one backend slot the call is never stuck: until it returns it has a step
      to take, and one that is not a failure: no tool fails, and what can be cached is. */
  lemma NeverStuck(plan: Plan, trace: seq<State>, steps: seq<Step>, i: nat) returns (step: Step, s': State)
    requires plan.limit > 0 && plan.stages > 0
    requires Run(plan, trace, steps) && i < |trace| && !trace[i].phase.Returned?
    ensures Next(plan, trace[i], step, s') && !step.OfOthers?
    ensures step != OfMain(MainFail) && step != OfMain(Link(false))
    ensures step.Of? ==> !step.action.Fail? && (step.action.SkipSave? ==> plan.key(step.task).None?)
  {
    var s := trace[i];
    RunInv(plan, trace, steps, i);
    RunBounded(plan, trace, steps, i);
    InvFacts(plan, TempsOf(trace[0]), s);
    hide Run, Inv, Owned, Logged, ErrorsRight, OutputsRight, TaskStep, MainStep;
    if t :| t in s.pcs && Active(s, t) && !s.pcs[t].Finished? {
      forall u | u in s.pcs && s.pcs[u].Compiled?
        ensures s.pcs[u].file in s.files
      {
        CompiledExists(TempsOf(trace[0]), s, u);
      }
      var u, a, s'' := SomeTaskCanMove(plan, s, t);
      step, s' := Of(u, a), s'';
    } else {
      var a, s'' := MainCanMove(plan, s);
      step, s' := OfMain(a), s'';
    }
  }
}
