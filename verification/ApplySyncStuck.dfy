/** Two runs without any timeout in which `ApplyTaskSync` does not return: calls from inside the
    pool on all its threads at once, and a call behind a closure that comes to hang. */
module ApplySyncStuck {
  import opened Tasks
  import P = ThreadPool
  import Q = ThreadPoolProgress
  import B = Barrier
  import opened ApplySync
  import opened ApplySyncProgress

  /** No timeouts, a living pool, the call made, and nothing left that anybody has to do; but the
      caller sleeps in the barrier. */
  ghost predicate EndsStuck(states: seq<State>, steps: seq<Step>) {
    && IsRun(states, steps) && Init(states[0]) && Q.NobodyLeaves(states[0].pool) && NoTimeouts(steps)
    && var s := states[|steps|];
       && s.posted && !s.pool.sh.shouldExit && s.barrier.pcs == map[s.caller := B.Asleep]
       && forall step | Enabled(s, step) :: Optional(step)
  }

  // ----- calls on every thread of the pool -----

  /** All threads allowed are inside closures, each waiting for a closure not taken yet. */
  ghost predicate AllWait(p: P.State, waits: map<Tid, Task>, log: seq<Task>) {
    && P.Accounting(p) && |p.sh.threads| == p.maxThreads && p.log == log
    && forall w | w in p.pcs :: p.pcs[w].Running? && w in waits && waits[w] !in log
  }

  lemma NoneCreated(p: P.State, step: P.Step)
    requires P.Accounting(p) && |p.sh.threads| == p.maxThreads && P.Enabled(p, step) && step.Push?
    ensures step.created == {} && P.Next(p, step).sh.threads == p.sh.threads && P.Next(p, step).pcs == p.pcs
  {
    P.PushNeverWraps(p, step.items);
    hide P.ThreadsToCreate, P.Accounting;
    assert p.pcs + P.Started({}) == p.pcs;
  }

  lemma AllWaitStep(p: P.State, step: P.Step, waits: map<Tid, Task>, log: seq<Task>)
    requires AllWait(p, waits, log) && P.Enabled(p, step)
    requires step.Finish? ==> step.w in waits && waits[step.w] in p.log
    ensures AllWait(P.Next(p, step), waits, log)
  {
    P.AccountingStep(p, step);
    hide P.Accounting, P.EnterRegion, P.ResumeRegion, TotalInvocations;
    if step.Push? {
      NoneCreated(p, step);
    }
  }

  /** A closure that calls ApplyTaskSync ends only after the closure that it posts has been taken.
      When every thread the pool may have is inside one that has not, in any run of the pool
      nothing is ever taken again, so none of them ends: the callers block one another. */
  lemma {:induction false} CallersBlockOneAnother(states: seq<P.State>, steps: seq<P.Step>,
                                                  waits: map<Tid, Task>, i: nat)
    requires P.IsRun(states, steps) && AllWait(states[0], waits, states[0].log) && i < |states|
    requires forall j | 0 <= j < |steps| ::
               steps[j].Finish? && steps[j].w in waits ==> waits[steps[j].w] in states[j].log
    ensures AllWait(states[i], waits, states[0].log)
  {
    if i > 0 {
      CallersBlockOneAnother(states, steps, waits, i - 1);
      hide P.Next;
      AllWaitStep(states[i - 1], steps[i - 1], waits, states[0].log);
    }
  }

  function Threads(m: nat): (r: set<Tid>)
    ensures |r| == m && forall t :: t in r <==> 1 <= t <= m
  {
    if m == 0 then {} else Threads(m - 1) + {m}
  }

  /** All `m` threads allowed run closure 7, which calls ApplyTaskSync; of thread 1's call
      closure 8 is posted `n` times. */
  function Inside(m: nat, n: nat, posted: bool, owing: set<Tid>, pcs: map<Tid, B.Pc>): State
    requires m > 0 && n > 0
  {
    var item := IterationItem(8, n - 1);
    var pushed := [IterationItem(7, m - 1)] + if posted then [item] else [];
    var workers := map t | t in Threads(m) :: P.Running(7);
    State(P.State(P.Shared(if posted then [item] else [], Threads(m), 0, false), m, workers, owing, P.NotCalled,
                  pushed, Repeat(7, m)),
          B.State(n, n, pcs), 8, n, 1, posted, 0, map[], [], Threads(m))
  }

  lemma InsideStarts(m: nat, n: nat)
    requires m > 0 && n > 0
    ensures var s := Inside(m, n, false, {}, map[]); Init(s) && Q.NobodyLeaves(s.pool) && |s.hung| == m
  {
    var s := Inside(m, n, false, {}, map[]);
    ExpandFirst(IterationItem(7, m - 1), []);
    assert [IterationItem(7, m - 1)] + [] == [IterationItem(7, m - 1)] == s.pool.pushed;
    assert Repeat(7, m) + [] == Repeat(7, m);
    CountZero(s.pool.pcs, P.IsWaiting);
    CountZero(s.pool.pcs, pc => HoldsTask(8, pc));
    assert s.pool.sh.threads == s.pool.pcs.Keys;
  }

  lemma LimitSaysNone(p: P.State, items: seq<IterationItem>)
    requires |p.sh.threads| == p.maxThreads && p.sh.waiting == 0
    ensures P.ThreadsToCreate(p.sh, items, p.maxThreads) == 0
  {
  }

  lemma InsidePushes(m: nat, n: nat)
    requires m > 0 && n > 0
    ensures var p, push := Inside(m, n, false, {}, map[]).pool, P.Push(1, [IterationItem(8, n - 1)], {});
            P.Enabled(p, push) && P.Next(p, push) == Inside(m, n, true, {1}, map[]).pool
  {
    var p := Inside(m, n, false, {}, map[]).pool;
    LimitSaysNone(p, [IterationItem(8, n - 1)]);
    hide P.ThreadsToCreate;
    assert p.pcs + P.Started({}) == p.pcs;
    assert p.sh.threads + {} == p.sh.threads;
    assert {} + {1} == {1};
    assert p.pushed == [IterationItem(7, m - 1)];
  }

  lemma InsidePosts(m: nat, n: nat)
    requires m > 0 && n > 0
    ensures var s := Inside(m, n, false, {}, map[]);
            Enabled(s, Post({})) && Next(s, Post({})) == Inside(m, n, true, {1}, map[])
  {
    hide P.Enabled, P.Next;
    InsidePushes(m, n);
  }

  lemma InsideWaits(m: nat, n: nat)
    requires m > 0 && n > 0
    ensures var s, step := Inside(m, n, true, {1}, map[]), PoolStep(P.PushNotify(1, P.Nobody));
            Enabled(s, step) && Next(s, step) == Inside(m, n, true, {}, map[])
    ensures var s := Inside(m, n, true, {}, map[]);
            Enabled(s, CallWait) && Next(s, CallWait) == Inside(m, n, true, {}, map[1 := B.EnteringWait])
    ensures var s, step := Inside(m, n, true, {}, map[1 := B.EnteringWait]), BarrierStep(B.Wait(1));
            Enabled(s, step) && Next(s, step) == Inside(m, n, true, {}, map[1 := B.Asleep])
  {
    assert {1} - {1} == {};
    assert map[1 := B.EnteringWait][1 := B.Asleep] == map[1 := B.Asleep];
  }

  lemma InsideIsStuck(m: nat, n: nat, step: Step)
    requires m > 0 && n > 0 && Enabled(Inside(m, n, true, {}, map[1 := B.Asleep]), step)
    ensures Optional(step)
  {
  }

  /** For every size of the pool and every repeat count: when all threads are inside calls of
      their own, each waits for closures that nobody is left to take. */
  lemma StuckCallers(m: nat, n: nat) returns (states: seq<State>, steps: seq<Step>)
    requires m > 0 && n > 0
    ensures EndsStuck(states, steps) && NothingHangs(steps)
    ensures var s := states[0];
            s.n == n && s.pool.maxThreads == m && s.caller in s.hung && s.hung == s.pool.pcs.Keys
  {
    hide Init, Enabled, Next, Q.NobodyLeaves;
    InsideStarts(m, n);
    InsidePosts(m, n);
    InsideWaits(m, n);
    states := [Inside(m, n, false, {}, map[]), Inside(m, n, true, {1}, map[]), Inside(m, n, true, {}, map[]),
               Inside(m, n, true, {}, map[1 := B.EnteringWait]), Inside(m, n, true, {}, map[1 := B.Asleep])];
    steps := [Post({}), PoolStep(P.PushNotify(1, P.Nobody)), CallWait, BarrierStep(B.Wait(1))];
    forall step | Enabled(states[4], step) ensures Optional(step) {
      InsideIsStuck(m, n, step);
    }
  }

  // ----- a call behind a closure that comes to hang -----

  const PAST := IterationItem(6, 0)
  const HANGS := IterationItem(7, 0)
  const OURS := IterationItem(8, 0)

  /** One worker, though the pool may have `m`: how far it is, what is queued, who owes a
      notification and what was pushed; thread 200 calls ApplyTaskSync once round. */
  function Behind(m: nat, pc: P.WorkerPc, tasks: seq<IterationItem>, owing: set<Tid>, pushed: seq<IterationItem>,
                  log: seq<Task>, hung: set<Tid>, pcs: map<Tid, B.Pc>): State
  {
    var waiting := if P.IsWaiting(pc) then 1 else 0;
    State(P.State(P.Shared(tasks, {1}, waiting, false), m, map[1 := pc], owing, P.NotCalled, pushed, log),
          B.State(1, 1, pcs), 8, 1, 200, OURS in pushed, 0, map[], [], hung)
  }

  lemma BehindStarts(m: nat)
    requires m >= 2
    ensures var s := Behind(m, P.Asleep, [], {}, [PAST], [6], {}, map[]); Init(s) && Q.NobodyLeaves(s.pool)
  {
    var s := Behind(m, P.Asleep, [], {}, [PAST], [6], {}, map[]);
    ExpandFirst(PAST, []);
    assert [PAST] + [] == [PAST] && Repeat(6, 1) == [6] && [6] + [] == [6];
    assert In(s.pool.pcs, P.IsWaiting) == {1};
    CountZero(s.pool.pcs, pc => HoldsTask(8, pc));
    assert s.pool.sh.threads == s.pool.pcs.Keys;
  }

  lemma WaiterSaysNone(sh: P.Shared, item: IterationItem, m: nat)
    requires m >= 2 && item.iterations == 0 && sh.threads == {1} && sh.waiting == 1
    ensures P.ThreadsToCreate(sh, [item], m) == 0
  {
    OneItem(item);
  }

  lemma BehindPushes(m: nat, pc: P.WorkerPc, p: Tid, item: IterationItem, tasks: seq<IterationItem>,
                     pushed: seq<IterationItem>, log: seq<Task>)
    requires m >= 2 && P.IsWaiting(pc) && p >= 100 && item.iterations == 0
    ensures var s, push := Behind(m, pc, tasks, {}, pushed, log, {}, map[]).pool, P.Push(p, [item], {});
            && P.Enabled(s, push)
            && P.Next(s, push) == Behind(m, pc, tasks + [item], {p}, pushed + [item], log, {}, map[]).pool
  {
    hide P.ThreadsToCreate;
    WaiterSaysNone(Behind(m, pc, tasks, {}, pushed, log, {}, map[]).pool.sh, item, m);
    assert map[1 := pc] + P.Started({}) == map[1 := pc];
    assert {1} + {} == {1} && {} + {p} == {p};
  }

  lemma BehindNotifies(m: nat, p: Tid, pc: P.WorkerPc, tasks: seq<IterationItem>, pushed: seq<IterationItem>)
    requires pc == P.Asleep || pc == P.Woken
    ensures var s := Behind(m, pc, tasks, {p}, pushed, [6], {}, map[]);
            var step := PoolStep(P.PushNotify(p, if pc == P.Asleep then P.Worker(1) else P.Nobody));
            Enabled(s, step) && Next(s, step) == Behind(m, P.Woken, tasks, {}, pushed, [6], {}, map[])
  {
    assert {p} - {p} == {};
    assert map[1 := pc][1 := P.Woken] == map[1 := P.Woken];
  }

  lemma BehindTakes(m: nat, pushed: seq<IterationItem>)
    ensures var s, step := Behind(m, P.Woken, [HANGS, OURS], {}, pushed, [6], {}, map[]), PoolStep(P.Resume(1, false));
            Enabled(s, step) && Next(s, step) == Behind(m, P.Notifying(7), [OURS], {}, pushed, [6, 7], {}, map[])
    ensures var s := Behind(m, P.Notifying(7), [OURS], {}, pushed, [6, 7], {}, map[]);
            var step := PoolStep(P.TakeNotify(1, P.Nobody));
            Enabled(s, step) && Next(s, step) == Behind(m, P.Running(7), [OURS], {}, pushed, [6, 7], {}, map[])
  {
    assert AfterTake([HANGS, OURS]) == [OURS];
    assert [6] + [7] == [6, 7];
    assert map[1 := P.Woken][1 := P.Notifying(7)] == map[1 := P.Notifying(7)];
    assert map[1 := P.Notifying(7)][1 := P.Running(7)] == map[1 := P.Running(7)];
  }

  lemma BehindWaits(m: nat, pushed: seq<IterationItem>, log: seq<Task>)
    requires OURS in pushed
    ensures var s := Behind(m, P.Running(7), [OURS], {}, pushed, log, {}, map[]);
            Enabled(s, Hang(1)) && Next(s, Hang(1)) == Behind(m, P.Running(7), [OURS], {}, pushed, log, {1}, map[])
    ensures var s := Behind(m, P.Running(7), [OURS], {}, pushed, log, {1}, map[]);
            && Enabled(s, CallWait)
            && Next(s, CallWait) == Behind(m, P.Running(7), [OURS], {}, pushed, log, {1}, map[200 := B.EnteringWait])
    ensures var s := Behind(m, P.Running(7), [OURS], {}, pushed, log, {1}, map[200 := B.EnteringWait]);
            var step := BarrierStep(B.Wait(200));
            && Enabled(s, step)
            && Next(s, step) == Behind(m, P.Running(7), [OURS], {}, pushed, log, {1}, map[200 := B.Asleep])
  {
    assert {} + {1} == {1};
    assert map[200 := B.EnteringWait][200 := B.Asleep] == map[200 := B.Asleep];
  }

  lemma BehindIsStuck(m: nat, pushed: seq<IterationItem>, log: seq<Task>, step: Step)
    requires OURS in pushed
    requires Enabled(Behind(m, P.Running(7), [OURS], {}, pushed, log, {1}, map[200 := B.Asleep]), step)
    ensures Optional(step)
  {
  }

  lemma HangsOnce()
    ensures Expand([HANGS]) == [7]
  {
    ExpandFirst(HANGS, []);
    assert [HANGS] + [] == [HANGS] && Repeat(7, 1) == [7];
  }

  lemma BehindPushOthers(m: nat)
    requires m >= 2
    ensures var s, step := Behind(m, P.Asleep, [], {}, [PAST], [6], {}, map[]), PoolStep(P.Push(100, [HANGS], {}));
            Enabled(s, step) && Next(s, step) == Behind(m, P.Asleep, [HANGS], {100}, [PAST] + [HANGS], [6], {}, map[])
  {
    hide P.Enabled, P.Next, Expand;
    BehindPushes(m, P.Asleep, 100, HANGS, [], [PAST], [6]);
    assert [] + [HANGS] == [HANGS];
    HangsOnce();
  }

  lemma BehindPosts(m: nat)
    requires m >= 2
    ensures var s := Behind(m, P.Woken, [HANGS], {}, [PAST] + [HANGS], [6], {}, map[]);
            && Enabled(s, Post({}))
            && Next(s, Post({})) == Behind(m, P.Woken, [HANGS, OURS], {200}, [PAST] + [HANGS] + [OURS], [6], {}, map[])
  {
    hide P.Enabled, P.Next;
    BehindPushes(m, P.Woken, 200, OURS, [HANGS], [PAST] + [HANGS], [6]);
    assert [HANGS] + [OURS] == [HANGS, OURS];
  }

  /** However many threads the pool may have: both pushes count on the same waiting worker and
      create none; the worker takes the first closure, which hangs, and nobody is left for the
      call's.  That one step strands it, and the caller is no worker of the pool. */
  lemma StuckBehindHang(m: nat) returns (states: seq<State>, steps: seq<Step>)
    requires m >= 2
    ensures EndsStuck(states, steps)
    ensures var s := states[0]; s.pool.maxThreads == m && s.hung == {} && s.caller !in s.pool.pcs
    ensures |states[|steps|].hung| == 1
  {
    hide Init, Enabled, Next, Q.NobodyLeaves, P.Enabled, P.Next;
    BehindStarts(m);
    var pushed := [PAST] + [HANGS] + [OURS];
    var s0 := Behind(m, P.Asleep, [], {}, [PAST], [6], {}, map[]);
    var s1 := Behind(m, P.Asleep, [HANGS], {100}, [PAST] + [HANGS], [6], {}, map[]);
    var s2 := Behind(m, P.Woken, [HANGS], {}, [PAST] + [HANGS], [6], {}, map[]);
    var s3 := Behind(m, P.Woken, [HANGS, OURS], {200}, pushed, [6], {}, map[]);
    var s4 := Behind(m, P.Woken, [HANGS, OURS], {}, pushed, [6], {}, map[]);
    var s5 := Behind(m, P.Notifying(7), [OURS], {}, pushed, [6, 7], {}, map[]);
    var s6 := Behind(m, P.Running(7), [OURS], {}, pushed, [6, 7], {}, map[]);
    var s7 := Behind(m, P.Running(7), [OURS], {}, pushed, [6, 7], {1}, map[]);
    var s8 := Behind(m, P.Running(7), [OURS], {}, pushed, [6, 7], {1}, map[200 := B.EnteringWait]);
    var s9 := Behind(m, P.Running(7), [OURS], {}, pushed, [6, 7], {1}, map[200 := B.Asleep]);
    BehindPushOthers(m);
    BehindNotifies(m, 100, P.Asleep, [HANGS], [PAST] + [HANGS]);
    BehindPosts(m);
    BehindNotifies(m, 200, P.Woken, [HANGS, OURS], pushed);
    BehindTakes(m, pushed);
    BehindWaits(m, pushed, [6, 7]);
    states := [s0, s1, s2, s3, s4, s5, s6, s7, s8, s9];
    steps := [PoolStep(P.Push(100, [HANGS], {})), PoolStep(P.PushNotify(100, P.Worker(1))), Post({}),
              PoolStep(P.PushNotify(200, P.Nobody)), PoolStep(P.Resume(1, false)), PoolStep(P.TakeNotify(1, P.Nobody)),
              Hang(1), CallWait, BarrierStep(B.Wait(200))];
    forall step | Enabled(s9, step) ensures Optional(step) {
      BehindIsStuck(m, pushed, [6, 7], step);
    }
  }
}
