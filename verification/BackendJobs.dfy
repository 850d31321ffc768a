/**
 The budget of LLVM backend processes: one limit per compile, divided among the children
 of a multi-file run through an environment variable.
 */
module BackendJobs {
  import opened Wrappers
  import opened Text
  import SeparateCompile

  function BackendJobLimit(env: string, cpus: nat): nat {
    match Atoi(env)
    case Some(n) => if n > 0 then n else cpus
    case None => cpus
  }

  /** Without a positive number in the variable the limit is the number of processors. */
  lemma LimitByDefault(cpus: nat, digits: string)
    requires digits != "" && AllDigits(digits)
    ensures BackendJobLimit("", cpus) == cpus && BackendJobLimit("-" + digits, cpus) == cpus
  {
    var env := "-" + digits;
    assert env[1..] == digits;
  }

  function ChildBackendJobs(limit: nat, children: int): nat {
    var among := if children < 1 then 1 else children;
    var n := limit / among;
    if n < 1 then 1 else n
  }

  /** The shares fit the budget as far as a budget can be shared at all, and a larger share
      would not have fitted. */
  lemma SharesFit(limit: nat, children: nat)
    requires children > 0
    ensures var share := ChildBackendJobs(limit, children);
      && share >= 1
      && children * share <= (if limit < children then children else limit)
      && children * (share + 1) > limit
  {
  }

  /** A child told its share in the environment takes exactly that share. */
  lemma ChildTakesItsShare(limit: nat, children: int, cpus: nat)
    requires limit <= INT_MAX
    ensures BackendJobLimit(Decimal(ChildBackendJobs(limit, children)), cpus) == ChildBackendJobs(limit, children)
  {
    var share := ChildBackendJobs(limit, children);
    assert share <= INT_MAX by {
      var among := if children < 1 then 1 else children;
      assert limit / among <= limit by {
        QuotientSmaller(limit, among);
      }
    }
    DecimalReadsBack(share);
    var s := Decimal(share);
    assert IsDigit(s[0]);
  }

  lemma MoreTimes(a: nat, b: nat, n: nat)
    requires a <= b
    ensures a * n <= b * n
  {
  }

  lemma QuotientSmaller(n: nat, d: nat)
    requires d > 0
    ensures n / d <= n
  {
    var q: nat, r: nat := n / d, n % d;
    assert n == d * q + r;
    MoreTimes(1, d, q);
  }

  // --- The whole tree ------------------------------------------------------------------

  /** The opt and llc processes of one compile: the main compile's, which takes no slot, and
      one for each slot taken. */
  function Running(s: SeparateCompile.State): nat {
    (if s.phase.MainCompiling? then 1 else 0) + |SeparateCompile.Holders(s)|
  }

  /** One compile at some moment of some run. */
  datatype Moment = Moment(plan: SeparateCompile.Plan, trace: seq<SeparateCompile.State>, steps: seq<SeparateCompile.Step>, i: nat)

  ghost predicate Happens(m: Moment) {
    SeparateCompile.Run(m.plan, m.trace, m.steps) && m.i < |m.trace|
  }

  function Total(ms: seq<Moment>): nat
    requires forall m :: m in ms ==> m.i < |m.trace|
  {
    if ms == [] then 0 else Running(ms[0].trace[ms[0].i]) + Total(ms[1..])
  }

  ghost predicate Children(ms: seq<Moment>, share: nat) {
    forall m :: m in ms ==> m.i < |m.trace| && Happens(m) && m.plan.limit == share
  }

  lemma OneCompile(m: Moment)
    requires Happens(m)
    ensures Running(m.trace[m.i]) <= (if m.plan.limit < 1 then 1 else m.plan.limit)
  {
    SeparateCompile.WithinSlots(m.plan, m.trace, m.steps, m.i);
  }

  lemma {:induction false} TotalBound(ms: seq<Moment>, share: nat)
    requires forall m :: m in ms ==> m.i < |m.trace| && Running(m.trace[m.i]) <= share
    ensures Total(ms) <= |ms| * share
  {
    if ms != [] {
      TotalBound(ms[1..], share);
      assert |ms| * share == share + |ms[1..]| * share;
    }
  }

  /** Whatever the children running at a time are doing, the tree below a multi-file run
      never has more backend processes than the budget, or than one for each child. */
  lemma TreeWithinBudget(limit: nat, parallel: nat, ms: seq<Moment>)
    requires parallel > 0 && |ms| <= parallel && Children(ms, ChildBackendJobs(limit, parallel))
    ensures Total(ms) <= (if limit < parallel then parallel else limit)
  {
    var share := ChildBackendJobs(limit, parallel);
    SharesFit(limit, parallel);
    hide ChildBackendJobs;
    forall m | m in ms
      ensures Running(m.trace[m.i]) <= share
    {
      OneCompile(m);
    }
    TotalBound(ms, share);
    MoreTimes(|ms|, parallel, share);
  }
}
