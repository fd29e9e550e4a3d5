/** How long `ApplyTaskSync` can take: every run has boundedly many steps besides the pushes of
    others, spurious wakeups and timeouts. */
module ApplySyncBound {
  import opened Tasks
  import P = ThreadPool
  import Q = ThreadPoolProgress
  import W = ThreadPoolWork
  import B = Barrier
  import opened ApplySync
  import opened ApplySyncProgress

  function BarrierRank(pc: B.Pc): nat {
    match pc
    case Counted => 0
    case Passed => 0
    case Notifying(_) => 2
    case Asleep => 3
    case CountingDown => 3
    case _ => 4
  }

  ghost function BarrierWork(s: B.State): nat { Sum(s.pcs, BarrierRank) }

  /** Indices to fetch, tasks to run, and the caller's own steps. */
  function ClosureWork(s: State): nat {
    5 * (if s.next <= s.n then s.n - s.next else 0) + 4 * Count(s.sub, (sub: Sub) => sub.Fetched?) +
    (if s.caller in s.barrier.pcs then 0 else 5) +
    (if s.posted then 0 else 4 * s.n + 3 + if s.pool.maxThreads > 0 then 3 * s.pool.maxThreads else 0)
  }

  ghost function Work(s: State): nat {
    W.Total(s.pool) + BarrierWork(s.barrier) + ClosureWork(s)
  }

  function Added(step: Step): nat {
    match step
    case PoolStep(p) => W.Added(p)
    case BarrierStep(b) => if b.Unblock? then 1 else 0
    case _ => 0
  }

  lemma BarrierWorkStep(s: B.State, b: B.Step)
    requires B.Enabled(s, b) && !b.Call?
    ensures if b.Unblock? then BarrierWork(B.Next(s, b)) == BarrierWork(s) + 1
            else BarrierWork(B.Next(s, b)) < BarrierWork(s)
  {
    SumMove(s.pcs, b.t, B.Next(s, b).pcs[b.t], BarrierRank);
    if b.Notify? {
      var done := if s.pcs[b.t].passed then B.Passed else B.Counted;
      SumMove(s.pcs, b.t, done, BarrierRank);
      if b.wake.Waiter? { SumMove(s.pcs[b.t := done], b.wake.t, B.Woken, BarrierRank); }
    }
  }

  lemma BarrierCall(s: B.State, t: Tid, pc: B.Pc)
    requires B.Enabled(s, B.Call(t, pc))
    ensures BarrierWork(B.Next(s, B.Call(t, pc))) == BarrierWork(s) + BarrierRank(pc)
  {
    SumMove(s.pcs, t, pc, BarrierRank);
  }

  lemma PostWork(s: State, created: set<Tid>)
    requires P.Accounting(s.pool) && Enabled(s, Post(created))
    ensures Work(Next(s, Post(created))) < Work(s)
  {
    var p, item := Posting(s, created), IterationItem(s.f, s.n - 1);
    P.PushNeverWraps(s.pool, [item]);
    assert |created| == P.ThreadsToCreate(s.pool.sh, [item], s.pool.maxThreads);
    SettingsStay(s.pool, p);
    W.PushWork(s.pool, p);
    OneItem(item);
    hide P.Next, P.Enabled, BarrierWork, W.Total, Count, P.ThreadsToCreate;
  }

  lemma PoolWork(s: State, p: P.Step)
    requires P.Accounting(s.pool) && Enabled(s, PoolStep(p))
    ensures if Q.Optional(p) then Work(Next(s, PoolStep(p))) <= Work(s) + W.Added(p)
            else Work(Next(s, PoolStep(p))) < Work(s)
  {
    hide P.Next, W.Total, W.Added, BarrierWork;
    W.WorkStep(s.pool, p);
    SettingsStay(s.pool, p);
    if Finishes(s, p) { CountRemove(s.sub, p.w, (sub: Sub) => sub.Fetched?); }
  }

  lemma FetchWork(s: State, w: Tid)
    requires Inv(s) && Enabled(s, FetchAdd(w))
    ensures Work(Next(s, FetchAdd(w))) < Work(s)
  {
    hide BarrierWork, W.Total;
    IndexInRange(s, w);
    hide Inv;
    CountMove(s.sub, w, Fetched(s.next), (sub: Sub) => sub.Fetched?);
  }

  lemma RunWork(s: State, w: Tid)
    requires Enabled(s, RunTask(w))
    ensures Work(Next(s, RunTask(w))) < Work(s)
  {
    hide BarrierWork, W.Total;
    BarrierCall(s.barrier, w, B.CountingDown);
    CountMove(s.sub, w, InBarrier, (sub: Sub) => sub.Fetched?);
  }

  lemma HangWork(s: State, w: Tid)
    requires Enabled(s, Hang(w))
    ensures Work(Next(s, Hang(w))) == Work(s)
  {
  }

  lemma WaitWork(s: State)
    requires Enabled(s, CallWait)
    ensures Work(Next(s, CallWait)) < Work(s)
  {
    hide BarrierWork, W.Total;
    BarrierCall(s.barrier, s.caller, B.EnteringWait);
  }

  lemma BarrierStepWork(s: State, b: B.Step)
    requires Enabled(s, BarrierStep(b))
    ensures if b.Unblock? then Work(Next(s, BarrierStep(b))) <= Work(s) + 1
            else Work(Next(s, BarrierStep(b))) < Work(s)
  {
    hide BarrierWork, W.Total;
    BarrierWorkStep(s.barrier, b);
  }

  /** Every step that somebody has to make brings the return closer. */
  lemma WorkStep(s: State, step: Step)
    requires Inv(s) && Enabled(s, step)
    ensures if Optional(step) then Work(Next(s, step)) <= Work(s) + Added(step)
            else Work(Next(s, step)) < Work(s)
  {
    PartsOf(s);
    hide Inv, Work, P.Next, B.Next, W.Added;
    match step
    case Post(created) => PostWork(s, created);
    case CallWait => WaitWork(s);
    case FetchAdd(w) => FetchWork(s, w);
    case RunTask(w) => RunWork(s, w);
    case Hang(w) => HangWork(s, w);
    case PoolStep(p) => PoolWork(s, p);
    case BarrierStep(b) => BarrierStepWork(s, b);
  }

  /** One for each optional step of a run, and what it adds. */
  function Allowance(steps: seq<Step>): nat {
    if steps == [] then 0
    else
      var last := steps[|steps| - 1];
      Allowance(steps[..|steps| - 1]) + Added(last) + if Optional(last) then 1 else 0
  }

  /** From the call on, a run is at most as long as the work there was, and what optional steps
      have added to it: timeouts, hanging closures and a shutdown included. */
  lemma {:induction false} CallBounded(states: seq<State>, steps: seq<Step>)
    requires IsRun(states, steps) && Init(states[0])
    ensures |steps| + Work(states[|steps|]) <= Work(states[0]) + Allowance(steps)
  {
    hide Init, Inv, Work, Next, Enabled;
    var n := |steps|;
    if n > 0 {
      CallBounded(states[..n], steps[..n - 1]);
      InvAlways(states, steps, n - 1);
      WorkStep(states[n - 1], steps[n - 1]);
    }
  }
}
