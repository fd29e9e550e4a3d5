/** When `ApplyTaskSync` returns.  Wait timeouts, closures that hang and any number of other calls
    from inside the pool are allowed for: a call that has not returned has a step to go on with
    unless a step has left the queue without a worker, and it never returns when closures hang on
    every thread that the pool may have. */
module ApplySyncProgress {
  import opened Collections
  import opened Tasks
  import P = ThreadPool
  import Q = ThreadPoolProgress
  import B = Barrier
  import opened ApplySync

  /** Steps that nobody has to make: pushes of others, spurious wakeups, timeouts, the
      destruction of the pool, and that a closure hangs. */
  predicate Optional(step: Step) {
    match step
    case PoolStep(p) => Q.Optional(p)
    case BarrierStep(b) => b.Unblock?
    case Hang(_) => true
    case _ => false
  }

  /** What a caller can check: closures hang on fewer threads than the pool may have. */
  ghost predicate MayWait(s: State) { |s.hung| < s.pool.maxThreads }

  /** From the push of the closure on, queued work has a worker that will take it. */
  ghost predicate Served(s: State) {
    s.posted ==> Q.Served(s.pool, s.hung)
  }

  ghost predicate Live(s: State) {
    Inv(s) && Served(s) && !s.pool.sh.shouldExit && s.posted
  }

  lemma PoolNotify(s: State, t: Tid) returns (step: Step)
    requires t in s.pool.owing
    ensures Enabled(s, step) && !Optional(step)
  {
    var wake := Q.SomeWake(s.pool);
    step := PoolStep(P.PushNotify(t, wake));
  }

  lemma BarrierNotify(s: State, t: Tid) returns (step: Step)
    requires t in s.barrier.pcs && s.barrier.pcs[t].Notifying?
    ensures Enabled(s, step) && !Optional(step)
  {
    var wake := B.SomeWake(s.barrier);
    step := BarrierStep(B.Notify(t, wake));
  }

  lemma LeavesBarrier(s: State, w: Tid) returns (step: Step)
    requires Places(s) && w in s.sub && s.sub[w].InBarrier? && w !in s.pool.owing
    ensures Enabled(s, step) && !Optional(step)
  {
    match s.barrier.pcs[w]
    case CountingDown => step := BarrierStep(B.CountDown(w));
    case Notifying(_) => step := BarrierNotify(s, w);
    case Counted => step := PoolStep(P.Finish(w));
  }

  /** A worker awake that does not hang can go on, in the pool, in the closure or in the barrier. */
  lemma WorkerMoves(s: State, w: Tid) returns (step: Step)
    requires Places(s) && w in s.pool.pcs && w !in s.hung && s.pool.pcs[w] != P.Asleep
    requires w in s.sub && s.sub[w].Fetched? ==> B.Enabled(s.barrier, B.Call(w, B.CountingDown))
    ensures Enabled(s, step) && !Optional(step)
  {
    if w in s.pool.owing && s.pool.pcs[w].Running? {
      step := PoolNotify(s, w);
    } else if s.pool.pcs[w] == P.Running(s.f) {
      if w !in s.sub {
        step := FetchAdd(w);
      } else if s.sub[w].Fetched? {
        step := RunTask(w);
      } else {
        step := LeavesBarrier(s, w);
      }
    } else {
      match s.pool.pcs[w]
      case Starting => step := PoolStep(P.Enter(w));
      case Woken => step := PoolStep(P.Resume(w, false));
      case Notifying(_) => var wake := Q.SomeWake(s.pool); step := PoolStep(P.TakeNotify(w, wake));
      case Running(_) => step := PoolStep(P.Finish(w));
      case Leaving => var wake := Q.SomeWake(s.pool); step := PoolStep(P.Erase(w, wake));
    }
  }

  lemma CanCountDown(s: State, w: Tid)
    requires Inv(s)
    ensures w in s.sub && s.sub[w].Fetched? ==> B.Enabled(s.barrier, B.Call(w, B.CountingDown))
  {
    if w in s.sub && s.sub[w].Fetched? { CountDownAllowed(s, w); }
  }

  /** While `f` is queued, the pool gets on with it. */
  lemma PoolMoves(s: State) returns (step: Step)
    requires Live(s) && s.pool.sh.tasks != []
    ensures Enabled(s, step) && !Optional(step)
  {
    hide Indices, Countdowns, RunsOnce;
    assert P.SleepersWillBeWoken(s.pool) && Q.Served(s.pool, s.hung);
    var w :| w in s.pool.pcs && w !in s.hung && s.pool.pcs[w] != P.Leaving;
    if s.pool.pcs[w] == P.Asleep {
      if t :| t in s.pool.owing {
        step := PoolNotify(s, t);
        return;
      }
      w :| w in s.pool.pcs && P.Committed(s.pool.pcs[w]);
    }
    CanCountDown(s, w);
    step := WorkerMoves(s, w);
  }

  /** When no invocation is in a worker's hands short of the barrier, the ones to come are
      still queued. */
  lemma StillQueued(s: State)
    requires Inv(s) && s.posted && s.barrier.credits > 0
    requires forall w | w in s.sub :: !s.sub[w].Fetched?
    requires forall w | w in s.pool.pcs && HoldsTask(s.f, s.pool.pcs[w]) :: w in s.sub
    ensures s.pool.sh.tasks != []
  {
    hide P.Inv, B.Inv, RunsOnce;
    CountZero(s.sub, (sub: Sub) => sub.Fetched?);
    Subset(In(s.pool.pcs, pc => HoldsTask(s.f, pc)), s.sub.Keys);
    assert |s.sub| == |s.sub.Keys|;
  }

  /** While the counter is positive, somebody can bring a countdown closer. */
  lemma CounterMoves(s: State) returns (step: Step)
    requires Live(s) && s.barrier.counter > 0
    ensures Enabled(s, step) && !Optional(step)
  {
    hide P.Inv, Served, Indices, Countdowns, RunsOnce;
    if t :| t in s.barrier.pcs && B.ToCount(s.barrier.pcs[t]) {
      step := BarrierStep(if s.barrier.pcs[t] == B.CountingDown then B.CountDown(t) else B.CountDownAndWait(t));
    } else if w :| w in s.pool.pcs && HoldsTask(s.f, s.pool.pcs[w]) && (w in s.sub ==> s.sub[w].Fetched?) {
      CanCountDown(s, w);
      step := WorkerMoves(s, w);
    } else {
      CountZero(s.barrier.pcs, B.ToCount);
      assert s.barrier.credits > 0;
      forall w | w in s.sub ensures !s.sub[w].Fetched? {
        assert P.At(s.pool, w, P.Running(s.f));
        assert HoldsTask(s.f, s.pool.pcs[w]);
      }
      StillQueued(s);
      step := PoolMoves(s);
    }
  }

  /** A call that has not returned yet is not stuck. */
  lemma CallMoves(s: State) returns (step: Step)
    requires Live(s) && !B.At(s.barrier, s.caller, B.Passed)
    ensures Enabled(s, step) && !Optional(step)
  {
    hide P.Inv, Served, Indices, Countdowns, RunsOnce;
    var c := s.caller;
    if s.barrier.counter > 0 {
      step := CounterMoves(s);
    } else if c in s.pool.owing {
      step := PoolNotify(s, c);
    } else if c !in s.barrier.pcs {
      step := CallWait;
    } else {
      assert B.Counts(s.barrier) && s.barrier.counter == 0;
      var b := B.ReleaseProgress(s.barrier, c);
      step := BarrierStep(b);
    }
  }

  /** The push of the closure itself is possible from the start. */
  lemma PostMoves(s: State) returns (created: set<Tid>)
    requires Inv(s) && !s.posted && !s.pool.sh.shouldExit
    ensures Enabled(s, Post(created))
  {
    hide Indices, Countdowns, RunsOnce, B.Inv, P.ThreadsToCreate, Count;
    var items := [IterationItem(s.f, s.n - 1)];
    P.PushNeverWraps(s.pool, items);
    created := NewThreads(s.pool.pcs.Keys + s.pool.owing + {s.caller},
                          P.ThreadsToCreate(s.pool.sh, items, s.pool.maxThreads));
  }

  // ----- which steps leave the queue without a worker -----

  /** A push to a pool whose limit is used up by workers that hang or leave, the timeout of the
      last other worker, or that the closure of the last other worker hangs. */
  ghost predicate Strands(s: State, step: Step) {
    match step
    case Post(created) => s.n > 0 && Q.Strands(s.pool, s.hung, Posting(s, created))
    case PoolStep(p) => s.posted && Q.Strands(s.pool, s.hung, p)
    case Hang(w) =>
      s.posted && !s.pool.sh.shouldExit && s.pool.sh.tasks != [] && Q.OthersLeaving(s.pool, s.hung, w)
    case _ => false
  }

  lemma ServedAfterHang(s: State, w: Tid)
    requires Served(s) && Enabled(s, Hang(w))
    ensures Served(Next(s, Hang(w))) <==> !Strands(s, Hang(w))
  {
  }

  lemma PartsOf(s: State)
    requires Inv(s)
    ensures P.Accounting(s.pool) && HungApart(s) && Q.Inside(s.pool, s.hung)
  {
  }

  /** Each step keeps a worker for queued work if and only if it is not one of those three. */
  lemma ServedKeptExactly(s: State, step: Step)
    requires Inv(s) && Served(s) && Enabled(s, step)
    ensures Served(Next(s, step)) <==> !Strands(s, step)
  {
    PartsOf(s);
    hide Inv, P.Next, B.Next, P.Enabled, Q.Strands, Q.Served, Q.Inside, P.Accounting;
    match step
    case Post(created) => Q.PushServesExactly(s.pool, s.hung, Posting(s, created));
    case PoolStep(p) => if s.posted { Q.ServedKeptExactly(s.pool, s.hung, p); }
    case Hang(w) => ServedAfterHang(s, w);
    case _ =>
  }

  ghost predicate NeverStrands(states: seq<State>, steps: seq<Step>) {
    |steps| < |states| && forall i | 0 <= i < |steps| :: !Strands(states[i], steps[i])
  }

  lemma {:induction false} ServedAlways(states: seq<State>, steps: seq<Step>, i: nat)
    requires IsRun(states, steps) && Init(states[0]) && NeverStrands(states, steps) && i < |states|
    ensures Inv(states[i]) && Served(states[i])
  {
    hide Inv, Next, Enabled, Strands;
    InvAlways(states, steps, i);
    if i > 0 {
      hide Init, Served;
      ServedAlways(states, steps, i - 1);
      ServedKeptExactly(states[i - 1], steps[i - 1]);
    }
  }

  // ----- the limit -----

  lemma SettingsStay(p: P.State, step: P.Step)
    requires P.Enabled(p, step)
    ensures P.Next(p, step).maxThreads == p.maxThreads
    ensures p.sh.shouldExit ==> P.Next(p, step).sh.shouldExit
  {
    hide AfterTake, P.ThreadsToCreate;
  }

  lemma HungCreates(p: P.State, hung: set<Tid>, items: seq<IterationItem>)
    requires P.Accounting(p) && Q.Inside(p, hung) && |hung| < p.maxThreads && items != [] && p.pcs.Keys <= hung
    ensures P.ThreadsToCreate(p.sh, items, p.maxThreads) > 0
  {
    CountZero(p.pcs, P.IsWaiting);
    Subset(p.pcs.Keys, hung);
    P.PushNeverWraps(p, items);
  }

  /** Below the limit, the push of the closure finds a worker that does not hang or creates one. */
  lemma HelperComes(s: State, created: set<Tid>)
    requires P.Accounting(s.pool) && HungApart(s) && MayWait(s) && Enabled(s, Post(created))
    ensures exists w | w in Next(s, Post(created)).pool.pcs :: w !in s.hung
  {
    var p, items := s.pool, [IterationItem(s.f, s.n - 1)];
    if w :| w in p.pcs && w !in s.hung {
      assert w in Next(s, Post(created)).pool.pcs;
    } else {
      HungCreates(p, s.hung, items);
      assert created != {};
      var w :| w in created;
      assert w in Next(s, Post(created)).pool.pcs && w !in s.hung;
    }
  }

  /** Closures hang on every thread, for good, and nothing has been run. */
  ghost predicate AllHung(s: State) {
    |s.hung| >= s.pool.maxThreads && s.sub == map[] && s.runs == []
  }

  lemma NobodyElse(p: P.State, hung: set<Tid>, w: Tid)
    requires P.Accounting(p) && Q.Inside(p, hung) && |hung| >= p.maxThreads && w in p.pcs
    ensures w in hung
  {
    if w !in hung {
      assert hung + {w} <= p.sh.threads;
      Subset(hung + {w}, p.sh.threads);
    }
  }

  lemma AllHungStep(s: State, step: Step)
    requires P.Accounting(s.pool) && HungApart(s) && AllHung(s) && Enabled(s, step)
    ensures AllHung(Next(s, step))
  {
    hide P.Next, P.Enabled, B.Next, B.Enabled;
    match step
    case Post(created) => SettingsStay(s.pool, Posting(s, created));
    case PoolStep(p) => SettingsStay(s.pool, p);
    case FetchAdd(w) => NobodyElse(s.pool, s.hung, w);
    case Hang(w) => NobodyElse(s.pool, s.hung, w);
    case _ =>
  }

  lemma AllHungNeverPasses(s: State)
    requires AllHung(s) && Inv(s)
    ensures !B.At(s.barrier, s.caller, B.Passed)
  {
    assert multiset(s.runs)[0] == 0 && s.n > 0;
    if B.At(s.barrier, s.caller, B.Passed) { AllRun(s); }
  }

  lemma StartsHung(s: State)
    requires Init(s) && !MayWait(s)
    ensures AllHung(s)
  {
  }

  /** A call on a pool with a closure that hangs on every thread it may have, the caller's own
      among them if it is a worker, never returns, whatever else happens. */
  lemma {:induction false} NeverReturns(states: seq<State>, steps: seq<Step>, i: nat)
    requires IsRun(states, steps) && Init(states[0]) && !MayWait(states[0]) && i < |states|
    ensures AllHung(states[i]) && !B.At(states[i].barrier, states[i].caller, B.Passed)
  {
    hide AllHung, Next, Enabled, Init, Inv, MayWait;
    if i == 0 {
      StartsHung(states[0]);
    } else {
      NeverReturns(states, steps, i - 1);
      InvAlways(states, steps, i - 1);
      PartsOf(states[i - 1]);
      AllHungStep(states[i - 1], steps[i - 1]);
    }
    InvAlways(states, steps, i);
    AllHungNeverPasses(states[i]);
  }

  // ----- the call returns -----

  /** A run on a living pool, timeouts included, that has only optional steps left and in which
      no step has stranded work, has returned, with every index run exactly once. */
  lemma ReturnsUnlessStranded(states: seq<State>, steps: seq<Step>)
    requires IsRun(states, steps) && Init(states[0]) && NeverStrands(states, steps)
    requires var s := states[|steps|];
             !s.pool.sh.shouldExit && forall step | Enabled(s, step) :: Optional(step)
    ensures var s := states[|steps|];
            && B.At(s.barrier, s.caller, B.Passed)
            && forall k: int :: multiset(s.runs)[k] == if 0 <= k < s.n then 1 else 0
  {
    hide Init, Inv, Enabled, Next, Served;
    var s := states[|steps|];
    ServedAlways(states, steps, |steps|);
    if !s.posted {
      var created := PostMoves(s);
    }
    if !B.At(s.barrier, s.caller, B.Passed) {
      var step := CallMoves(s);
    }
    AllRun(s);
  }

  predicate TimesOut(step: Step) {
    step.PoolStep? && Q.TimesOut(step.pool)
  }

  ghost predicate NoTimeouts(steps: seq<Step>) {
    forall i | 0 <= i < |steps| :: !TimesOut(steps[i])
  }

  ghost predicate NothingHangs(steps: seq<Step>) {
    forall i | 0 <= i < |steps| :: !steps[i].Hang?
  }

  lemma BelowLimitStep(s: State, step: Step)
    requires Inv(s) && MayWait(s) && Q.NobodyLeaves(s.pool)
    requires Enabled(s, step) && !TimesOut(step) && !step.Hang?
    ensures MayWait(Next(s, step)) && Q.NobodyLeaves(Next(s, step).pool) && !Strands(s, step)
  {
    PartsOf(s);
    hide Inv, P.Next, P.Enabled, B.Next, B.Enabled, Q.Strands, Q.NobodyLeaves, Q.Inside, P.Accounting;
    match step
    case Post(created) =>
      SettingsStay(s.pool, Posting(s, created));
      Q.NobodyLeavesStep(s.pool, Posting(s, created));
      Q.StrandsNothing(s.pool, s.hung, Posting(s, created));
    case PoolStep(p) =>
      SettingsStay(s.pool, p);
      Q.NobodyLeavesStep(s.pool, p);
      Q.StrandsNothing(s.pool, s.hung, p);
    case _ =>
  }

  /** Below the limit, runs without timeouts strand nothing unless another closure comes to hang. */
  lemma {:induction false} BelowLimitAlways(states: seq<State>, steps: seq<Step>, i: nat)
    requires IsRun(states, steps) && Init(states[0]) && MayWait(states[0]) && Q.NobodyLeaves(states[0].pool)
    requires NoTimeouts(steps) && NothingHangs(steps) && i < |states|
    ensures MayWait(states[i]) && Q.NobodyLeaves(states[i].pool)
    ensures i < |steps| ==> !Strands(states[i], steps[i])
  {
    hide Init, Inv, Enabled, Next, MayWait, Q.NobodyLeaves, Strands;
    if i > 0 {
      BelowLimitAlways(states, steps, i - 1);
      InvAlways(states, steps, i - 1);
      BelowLimitStep(states[i - 1], steps[i - 1]);
    }
    if i < |steps| {
      InvAlways(states, steps, i);
      BelowLimitStep(states[i], steps[i]);
    }
  }

  /** So when a run without timeouts on a living pool, in which no further closure comes to hang,
      has only optional steps left, the call has returned if and only if closures hang on fewer
      threads than the pool may have. */
  lemma ReturnsWhenNothingIsLeft(states: seq<State>, steps: seq<Step>)
    requires IsRun(states, steps) && Init(states[0]) && Q.NobodyLeaves(states[0].pool)
    requires NoTimeouts(steps) && NothingHangs(steps)
    requires var s := states[|steps|];
             !s.pool.sh.shouldExit && forall step | Enabled(s, step) :: Optional(step)
    ensures var s := states[|steps|];
            && (B.At(s.barrier, s.caller, B.Passed) <==> MayWait(states[0]))
            && (MayWait(states[0]) ==> forall k: int :: multiset(s.runs)[k] == if 0 <= k < s.n then 1 else 0)
  {
    hide Init, Inv, Enabled, Next, MayWait, Strands, Q.NobodyLeaves;
    if MayWait(states[0]) {
      forall i | 0 <= i < |steps| ensures !Strands(states[i], steps[i]) {
        BelowLimitAlways(states, steps, i);
      }
      ReturnsUnlessStranded(states, steps);
    } else {
      NeverReturns(states, steps, |steps|);
    }
  }
}
