/** `TaskRunner::ApplyTaskSync` on the thread pool: one closure posted with a repeat count, an
    atomic index and a barrier, run together with everything else the pool does. */
module ApplySync {
  import opened Collections
  import opened Tasks
  import P = ThreadPool
  import B = Barrier

  /** Where a worker is inside the posted closure: it has fetched an index, or it has run the
      task on its index and is in the barrier's CountDown. */
  datatype Sub = Fetched(i: int) | InBarrier

  /** `f` is the posted closure, `next` the atomic index and `runs` the indices on which the
      caller's task has been run to completion; `hung` are the workers inside other closures that
      do not end, because they wait for something: the caller itself if it is a worker, and
      whichever others. */
  datatype State = State(
    pool: P.State,
    barrier: B.State,
    f: Task,
    n: nat,
    caller: Tid,
    posted: bool,
    next: int,
    sub: map<Tid, Sub>,
    runs: seq<int>,
    hung: set<Tid>
  )

  datatype Step =
    | Post(created: set<Tid>)
    | CallWait
    | FetchAdd(w: Tid)
    | RunTask(w: Tid)
    | Hang(w: Tid)      // the closure that a worker runs turns out not to end
    | PoolStep(pool: P.Step)
    | BarrierStep(barrier: B.Step)

  function Posting(s: State, created: set<Tid>): P.Step
    requires s.n > 0
  {
    P.Push(s.caller, [IterationItem(s.f, s.n - 1)], created)
  }

  ghost predicate Finishes(s: State, p: P.Step) {
    p.Finish? && P.At(s.pool, p.w, P.Running(s.f))
  }

  /** Any step of the pool may happen in between, except that nobody else has the closure `f`,
      that a worker leaves `f` only after its CountDown has returned, and that closures which hang
      do not end. */
  ghost predicate Enabled(s: State, step: Step) {
    match step
    case Post(created) => s.n > 0 && !s.posted && s.caller !in created && P.Enabled(s.pool, Posting(s, created))
    case CallWait =>
      s.posted && s.caller !in s.pool.owing && s.caller !in s.barrier.pcs &&
      B.Enabled(s.barrier, B.Call(s.caller, B.EnteringWait))
    case FetchAdd(w) => P.At(s.pool, w, P.Running(s.f)) && w !in s.sub
    case RunTask(w) =>
      w in s.sub && s.sub[w].Fetched? && B.Enabled(s.barrier, B.Call(w, B.CountingDown))
    case Hang(w) => w in s.pool.pcs && s.pool.pcs[w].Running? && s.pool.pcs[w].task != s.f && w !in s.hung
    case PoolStep(p) =>
      && P.Enabled(s.pool, p)
      && (p.Push? ==> p.p != s.caller && s.caller !in p.created && s.f !in Expand(p.items))
      && (p.Finish? ==> p.w !in s.hung)
      && (Finishes(s, p) ==> p.w in s.sub && s.sub[p.w].InBarrier? && B.At(s.barrier, p.w, B.Counted))
    case BarrierStep(b) => B.Enabled(s.barrier, b) && !b.Call?
  }

  function Next(s: State, step: Step): State
    requires Enabled(s, step)
  {
    match step
    case Post(created) => s.(posted := true, pool := P.Next(s.pool, Posting(s, created)))
    case CallWait => s.(barrier := B.Next(s.barrier, B.Call(s.caller, B.EnteringWait)))
    case FetchAdd(w) => s.(next := s.next + 1, sub := s.sub[w := Fetched(s.next)])
    case RunTask(w) =>
      s.(runs := s.runs + [s.sub[w].i], sub := s.sub[w := InBarrier],
         barrier := B.Next(s.barrier, B.Call(w, B.CountingDown)))
    case Hang(w) => s.(hung := s.hung + {w})
    case PoolStep(p) =>
      s.(pool := P.Next(s.pool, p),
         sub := if p.Finish? && s.pool.pcs[p.w] == P.Running(s.f) then s.sub - {p.w} else s.sub)
    case BarrierStep(b) => s.(barrier := B.Next(s.barrier, b))
  }

  predicate HoldsTask(f: Task, pc: P.WorkerPc) {
    (pc.Notifying? || pc.Running?) && pc.task == f
  }

  function Holding(pcs: map<Tid, P.WorkerPc>, f: Task): nat {
    Count(pcs, pc => HoldsTask(f, pc))
  }

  /** Invocations of `f` still queued. */
  function Queued(p: P.State, f: Task): nat {
    multiset(Expand(p.sh.tasks))[f]
  }

  /** Workers that hang are inside other closures; so is the caller, if it is a worker. */
  ghost predicate HungApart(s: State) {
    && (s.caller in s.pool.pcs ==> s.caller in s.hung)
    && forall w | w in s.hung :: w in s.pool.pcs && s.pool.pcs[w].Running? && s.pool.pcs[w].task != s.f
  }

  ghost predicate Init(s: State) {
    && P.Inv(s.pool) && s.n > 0 && B.Init(s.barrier, s.n)
    && Queued(s.pool, s.f) == 0 && Holding(s.pool.pcs, s.f) == 0
    && HungApart(s) && s.caller !in s.pool.owing
    && !s.posted && s.next == 0 && s.sub == map[] && s.runs == []
  }

  /** The invocations of `f`: queued, held by a worker that has not fetched an index yet, or
      counted by the index. */
  ghost predicate Indices(s: State) {
    Queued(s.pool, s.f) + Holding(s.pool.pcs, s.f) + s.next == |s.sub| + if s.posted then s.n else 0
  }

  /** The countdowns to come: one for each invocation that has not reached the barrier. */
  ghost predicate Countdowns(s: State) {
    s.barrier.credits + s.next == s.n + Count(s.sub, (sub: Sub) => sub.Fetched?)
  }

  /** Each fetched index is in one worker's hands or has been run, once. */
  ghost predicate RunsOnce(s: State) {
    forall k: int :: multiset(s.runs)[k] + Count(s.sub, (sub: Sub) => sub == Fetched(k)) ==
                     if 0 <= k < s.next then 1 else 0
  }

  predicate Counting(pc: B.Pc) {
    pc == B.CountingDown || pc == B.Notifying(false) || pc == B.Counted
  }

  /** Which threads are where. */
  ghost predicate Places(s: State) {
    && s.n > 0 && s.next >= 0
    && HungApart(s)
    && (!s.posted ==> s.caller !in s.pool.owing)
    && (forall w | w in s.sub :: P.At(s.pool, w, P.Running(s.f)))
    && (forall w | w in s.sub && s.sub[w].InBarrier? :: w in s.barrier.pcs)
    && (forall w | w in s.barrier.pcs && w != s.caller && !(w in s.sub && s.sub[w].InBarrier?) ::
          s.barrier.pcs[w] == B.Counted)
    && (forall w | w in s.barrier.pcs && w != s.caller :: Counting(s.barrier.pcs[w]))
    && (s.caller in s.barrier.pcs ==> s.posted && !Counting(s.barrier.pcs[s.caller]))
  }

  ghost predicate Inv(s: State) {
    P.Inv(s.pool) && B.Inv(s.barrier) && Indices(s) && Countdowns(s) && RunsOnce(s) && Places(s)
  }

  // ----- the pool's share -----

  lemma PoolBalanceMove(pcs: map<Tid, P.WorkerPc>, w: Tid, pc: P.WorkerPc, f: Task)
    requires w in pcs
    ensures Holding(pcs[w := pc], f) ==
            Holding(pcs, f) + (if HoldsTask(f, pc) then 1 else 0) - (if HoldsTask(f, pcs[w]) then 1 else 0)
  {
    CountMove(pcs, w, pc, pc => HoldsTask(f, pc));
  }

  lemma QueuedAfterTake(tasks: seq<IterationItem>, f: Task)
    requires tasks != []
    ensures multiset(Expand(tasks))[f] ==
            multiset(Expand(AfterTake(tasks)))[f] + if tasks[0].task == f then 1 else 0
  {
    ExpandAfterTake(tasks);
  }

  /** A locked region moves an invocation from the queue into a worker's hands. */
  lemma LockedBalance(p: P.State, w: Tid, sh: P.Shared, f: Task)
    requires w in p.pcs && !HoldsTask(f, p.pcs[w])
    requires sh.tasks == p.sh.tasks
    ensures var p' := P.Locked(p, w, P.EnterRegion(sh));
            Queued(p', f) + Holding(p'.pcs, f) == Queued(p, f) + Holding(p.pcs, f)
  {
    hide Expand, AfterTake;
    PoolBalanceMove(p.pcs, w, P.EnterRegion(sh).1, f);
    if sh.tasks != [] {
      QueuedAfterTake(sh.tasks, f);
    }
  }

  lemma WakeBalance(p: P.State, wake: P.Wake, f: Task)
    requires P.CanWake(p, wake)
    ensures Holding(P.WakeUp(p, wake).pcs, f) == Holding(p.pcs, f)
  {
    if wake.Worker? {
      PoolBalanceMove(p.pcs, wake.w, P.Woken, f);
    }
  }

  lemma PushBalance(p: P.State, step: P.Step, f: Task)
    requires P.Enabled(p, step) && step.Push?
    ensures var p' := P.Next(p, step);
            Queued(p', f) + Holding(p'.pcs, f) == Queued(p, f) + Holding(p.pcs, f) + multiset(Expand(step.items))[f]
  {
    var p' := P.Next(p, step);
    ExpandConcat(p.sh.tasks, step.items);
    hide Expand, TotalInvocations;
    assert In(p'.pcs, pc => HoldsTask(f, pc)) == In(p.pcs, pc => HoldsTask(f, pc));
  }

  lemma EraseBalance(p: P.State, w: Tid, f: Task)
    requires P.At(p, w, P.Leaving)
    ensures Holding(p.pcs - {w}, f) == Holding(p.pcs, f)
  {
    CountRemove(p.pcs, w, pc => HoldsTask(f, pc));
  }

  lemma PoolBalance(p: P.State, step: P.Step, f: Task)
    requires P.Enabled(p, step) && !step.Push?
    ensures var p' := P.Next(p, step);
            Queued(p', f) + Holding(p'.pcs, f) ==
            Queued(p, f) + Holding(p.pcs, f) - if step.Finish? && HoldsTask(f, p.pcs[step.w]) then 1 else 0
  {
    hide Expand, AfterTake, Holding, P.EnterRegion;
    match step
    case PushNotify(t, wake) => WakeBalance(p.(owing := p.owing - {t}), wake, f);
    case Enter(w) => LockedBalance(p, w, p.sh, f);
    case Unblock(w) => PoolBalanceMove(p.pcs, w, P.Woken, f);
    case Resume(w, timedOut) =>
      if timedOut {
        PoolBalanceMove(p.pcs, w, P.Leaving, f);
      } else {
        LockedBalance(p, w, p.sh.(waiting := p.sh.waiting - 1), f);
      }
    case TakeNotify(w, wake) =>
      var pc := P.Running(p.pcs[w].task);
      PoolBalanceMove(p.pcs, w, pc, f);
      WakeBalance(p.(pcs := p.pcs[w := pc]), wake, f);
    case Finish(w) => PoolBalanceMove(p.pcs, w, P.Starting, f);
    case Erase(w, wake) =>
      EraseBalance(p, w, f);
      WakeBalance(p.(sh := P.EraseRegion(p.sh, w), pcs := p.pcs - {w}), wake, f);
    case Destroy(wake) =>
      if p.sh.threads != {} { WakeBalance(p, wake, f); }
    case UnblockDtor =>
  }

  /** A worker inside the closure stays there until it finishes. */
  lemma RunningStays(p: P.State, step: P.Step, w: Tid, f: Task)
    requires P.Enabled(p, step) && P.At(p, w, P.Running(f)) && !(step.Finish? && step.w == w)
    ensures P.At(P.Next(p, step), w, P.Running(f))
  {
    hide P.EnterRegion, P.ResumeRegion, P.ThreadsToCreate;
  }

  // ----- preservation -----

  lemma SubBound(s: State)
    requires Places(s)
    ensures |s.sub| <= Holding(s.pool.pcs, s.f)
    ensures forall w | P.At(s.pool, w, P.Running(s.f)) && w !in s.sub :: |s.sub| < Holding(s.pool.pcs, s.f)
  {
    var holding := In(s.pool.pcs, pc => HoldsTask(s.f, pc));
    assert |s.sub| == |s.sub.Keys|;
    Subset(s.sub.Keys, holding);
    forall w | P.At(s.pool, w, P.Running(s.f)) && w !in s.sub ensures |s.sub| < |holding| {
      Subset(s.sub.Keys, holding - {w});
    }
  }

  /** The first assertion of the closure: the index it fetches is below the repeat count. */
  lemma IndexInRange(s: State, w: Tid)
    requires Inv(s) && Enabled(s, FetchAdd(w))
    ensures 0 <= s.next < s.n
  {
    hide P.Inv, B.Inv, RunsOnce, Countdowns;
    SubBound(s);
  }

  /** The second: the CountDown it then makes finds the counter positive, since it is one of
      the countdowns the barrier was created for. */
  lemma CountDownAllowed(s: State, w: Tid)
    requires Inv(s) && w in s.sub && s.sub[w].Fetched?
    ensures B.Enabled(s.barrier, B.Call(w, B.CountingDown))
    ensures s.barrier.counter > 0
  {
    hide P.Inv, RunsOnce;
    SubBound(s);
    CountZero(s.sub, (sub: Sub) => sub.Fetched?);
  }

  /** Calls of every repeat count can start, on a new pool at least. */
  lemma StartExists(pool: P.State, f: Task, n: nat, caller: Tid) returns (s: State)
    requires P.Init(pool) && n > 0
    ensures Init(s) && s.pool == pool && s.f == f && s.n == n && s.caller == caller
  {
    P.InitInv(pool);
    s := State(pool, B.State(n, n, map[]), f, n, caller, false, 0, map[], [], {});
    CountZero(pool.pcs, pc => HoldsTask(f, pc));
  }

  lemma InitInv(s: State)
    requires Init(s)
    ensures Inv(s)
  {
    hide P.Inv;
    B.InitInv(s.barrier, s.n);
    assert In(s.sub, (sub: Sub) => sub.Fetched?) == {};
    forall k: int ensures Count(s.sub, (sub: Sub) => sub == Fetched(k)) == 0 {
      assert In(s.sub, (sub: Sub) => sub == Fetched(k)) == {};
    }
  }

  lemma FetchAddTallies(s: State, w: Tid)
    requires Indices(s) && Countdowns(s) && Enabled(s, FetchAdd(w))
    ensures Indices(Next(s, FetchAdd(w))) && Countdowns(Next(s, FetchAdd(w)))
  {
    hide Holding, Queued;
    var s' := Next(s, FetchAdd(w));
    assert s'.sub.Keys == s.sub.Keys + {w};
    assert |s'.sub| == |s'.sub.Keys| && |s.sub| == |s.sub.Keys|;
    CountMove(s.sub, w, Fetched(s.next), (sub: Sub) => sub.Fetched?);
  }

  lemma FetchAddRuns(s: State, w: Tid)
    requires RunsOnce(s) && s.next >= 0 && Enabled(s, FetchAdd(w))
    ensures RunsOnce(Next(s, FetchAdd(w)))
  {
    hide P.At;
    var s' := Next(s, FetchAdd(w));
    forall k: int ensures multiset(s'.runs)[k] + Count(s'.sub, (sub: Sub) => sub == Fetched(k)) ==
                          if 0 <= k < s'.next then 1 else 0 {
      CountMove(s.sub, w, Fetched(s.next), (sub: Sub) => sub == Fetched(k));
    }
  }

  lemma NextNonNegative(s: State)
    requires Places(s)
    ensures s.next >= 0
  {
  }

  lemma FetchAddPlaces(s: State, w: Tid)
    requires Places(s) && Enabled(s, FetchAdd(w))
    ensures Places(Next(s, FetchAdd(w)))
  {
  }

  lemma FetchAddStep(s: State, w: Tid)
    requires Inv(s) && Enabled(s, FetchAdd(w))
    ensures Inv(Next(s, FetchAdd(w)))
  {
    hide P.Inv, B.Inv, Indices, Countdowns, RunsOnce, Places, P.At;
    FetchAddTallies(s, w);
    FetchAddRuns(s, w) by { NextNonNegative(s); }
    FetchAddPlaces(s, w);
  }

  lemma RunTaskTallies(s: State, w: Tid)
    requires Indices(s) && Countdowns(s) && Enabled(s, RunTask(w))
    ensures Indices(Next(s, RunTask(w))) && Countdowns(Next(s, RunTask(w)))
  {
    hide Holding, Queued;
    var s' := Next(s, RunTask(w));
    assert s'.sub.Keys == s.sub.Keys;
    assert |s'.sub| == |s'.sub.Keys| && |s.sub| == |s.sub.Keys|;
    CountMove(s.sub, w, InBarrier, (sub: Sub) => sub.Fetched?);
  }

  lemma RunTaskRuns(s: State, w: Tid)
    requires RunsOnce(s) && Enabled(s, RunTask(w))
    ensures RunsOnce(Next(s, RunTask(w)))
  {
    hide B.Next, B.Enabled;
    var s' := Next(s, RunTask(w));
    assert multiset(s.runs + [s.sub[w].i]) == multiset(s.runs) + multiset{s.sub[w].i};
    forall k: int ensures multiset(s'.runs)[k] + Count(s'.sub, (sub: Sub) => sub == Fetched(k)) ==
                          if 0 <= k < s'.next then 1 else 0 {
      CountMove(s.sub, w, InBarrier, (sub: Sub) => sub == Fetched(k));
    }
  }

  lemma RunTaskPlaces(s: State, w: Tid)
    requires Places(s) && Enabled(s, RunTask(w))
    ensures Places(Next(s, RunTask(w)))
  {
  }

  lemma RunTaskStep(s: State, w: Tid)
    requires Inv(s) && Enabled(s, RunTask(w))
    ensures Inv(Next(s, RunTask(w)))
  {
    hide P.Inv, B.Inv, Indices, Countdowns, RunsOnce, Places, B.Next, B.Enabled;
    B.InvStep(s.barrier, B.Call(w, B.CountingDown));
    RunTaskTallies(s, w);
    RunTaskRuns(s, w);
    RunTaskPlaces(s, w);
  }

  lemma CallWaitPlaces(s: State)
    requires Places(s) && Enabled(s, CallWait)
    ensures Places(Next(s, CallWait))
  {
  }

  lemma CallWaitCredits(s: State)
    requires Enabled(s, CallWait)
    ensures Next(s, CallWait).barrier.credits == s.barrier.credits
  {
  }

  lemma SameRuns(s: State, s': State)
    requires RunsOnce(s) && s'.runs == s.runs && s'.next == s.next && s'.sub == s.sub
    ensures RunsOnce(s')
  {
  }

  lemma SameCredits(s: State, barrier: B.State)
    requires Indices(s) && Countdowns(s) && barrier.credits == s.barrier.credits
    ensures Indices(s.(barrier := barrier)) && Countdowns(s.(barrier := barrier))
  {
    hide Holding, Queued;
  }

  lemma CallWaitStep(s: State)
    requires Inv(s) && Enabled(s, CallWait)
    ensures Inv(Next(s, CallWait))
  {
    hide P.Inv, B.Inv, B.Next, B.Enabled, RunsOnce, Places, Indices, Countdowns;
    B.InvStep(s.barrier, B.Call(s.caller, B.EnteringWait));
    CallWaitPlaces(s);
    CallWaitCredits(s);
    SameCredits(s, Next(s, CallWait).barrier);
    SameRuns(s, Next(s, CallWait));
  }

  /** A step inside the barrier keeps waiters and counters apart. */
  lemma BarrierMove(s: B.State, b: B.Step, t: Tid)
    requires B.Enabled(s, b) && !b.Call? && t in s.pcs
    ensures var s' := B.Next(s, b);
            && t in s'.pcs
            && (Counting(s.pcs[t]) <==> Counting(s'.pcs[t]))
            && (s.pcs[t] == B.Counted ==> s'.pcs[t] == B.Counted)
  {
  }

  lemma BarrierKeys(s: B.State, b: B.Step)
    requires B.Enabled(s, b) && !b.Call?
    ensures B.Next(s, b).pcs.Keys == s.pcs.Keys
  {
  }

  lemma BarrierPlaces(s: State, b: B.Step)
    requires Places(s) && Enabled(s, BarrierStep(b))
    ensures Places(Next(s, BarrierStep(b)))
  {
    hide B.Next, B.Enabled, P.At;
    BarrierKeys(s.barrier, b);
    forall t | t in s.barrier.pcs
      ensures var pcs := B.Next(s.barrier, b).pcs;
              && t in pcs
              && (Counting(s.barrier.pcs[t]) <==> Counting(pcs[t]))
              && (s.barrier.pcs[t] == B.Counted ==> pcs[t] == B.Counted)
    {
      BarrierMove(s.barrier, b, t);
    }
    hide Counting;
  }

  lemma CreditsUnchanged(s: B.State, b: B.Step)
    requires B.Enabled(s, b) && !b.Call?
    ensures B.Next(s, b).credits == s.credits
  {
  }

  lemma BarrierStepInv(s: State, b: B.Step)
    requires Inv(s) && Enabled(s, BarrierStep(b))
    ensures Inv(Next(s, BarrierStep(b)))
  {
    hide P.Inv, B.Inv, B.Next, B.Enabled, RunsOnce, Places, Indices, Countdowns;
    var s' := Next(s, BarrierStep(b));
    BarrierPlaces(s, b);
    B.InvStep(s.barrier, b);
    CreditsUnchanged(s.barrier, b);
    SameCredits(s, s'.barrier);
    SameRuns(s, s');
  }

  lemma {:induction false} RepeatCount(f: Task, n: nat)
    ensures multiset(Repeat(f, n))[f] == n
  {
    if n > 0 {
      RepeatCount(f, n - 1);
    }
  }

  lemma PostInvocations(f: Task, n: nat)
    requires n > 0
    ensures multiset(Expand([IterationItem(f, n - 1)]))[f] == n
  {
    ExpandFirst(IterationItem(f, n - 1), []);
    assert [IterationItem(f, n - 1)] + [] == [IterationItem(f, n - 1)];
    assert Repeat(f, n) + [] == Repeat(f, n);
    RepeatCount(f, n);
  }

  lemma PoolKeys(p: P.State, step: P.Step, t: Tid)
    requires P.Enabled(p, step) && t !in p.pcs && (step.Push? ==> t !in step.created)
    ensures t !in P.Next(p, step).pcs
  {
    hide P.EnterRegion, P.ResumeRegion, P.ThreadsToCreate;
  }

  /** Workers that hang stay where they are, and a caller outside the pool stays outside. */
  lemma HungStays(s: State, p: P.Step)
    requires HungApart(s) && P.Enabled(s.pool, p) && (p.Push? ==> s.caller !in p.created)
    requires p.Finish? ==> p.w !in s.hung
    ensures HungApart(s.(pool := P.Next(s.pool, p)))
  {
    forall w | w in s.hung ensures P.At(P.Next(s.pool, p), w, s.pool.pcs[w]) {
      RunningStays(s.pool, p, w, s.pool.pcs[w].task);
    }
    if s.caller !in s.pool.pcs { PoolKeys(s.pool, p, s.caller); }
  }

  lemma CallerOwes(p: P.State, step: P.Step, t: Tid)
    requires P.Enabled(p, step) && t in P.Next(p, step).owing
    ensures t in p.owing || (step.Push? && step.p == t)
  {
    hide AfterTake, P.ThreadsToCreate;
  }

  /** How a pool step changes who is where. */
  lemma PoolPlaces(s: State, p: P.Step, sub: map<Tid, Sub>, posted: bool)
    requires Places(s) && P.Enabled(s.pool, p)
    requires p.Push? ==> s.caller !in p.created && (p.p == s.caller ==> posted)
    requires p.Finish? ==> p.w !in s.hung
    requires sub == if Finishes(s, p) then s.sub - {p.w} else s.sub
    requires Finishes(s, p) ==> B.At(s.barrier, p.w, B.Counted)
    requires s.posted ==> posted
    ensures Places(s.(pool := P.Next(s.pool, p), sub := sub, posted := posted))
  {
    HungStays(s, p);
    forall w | w in sub ensures P.At(P.Next(s.pool, p), w, P.Running(s.f)) {
      RunningStays(s.pool, p, w, s.f);
    }
    if s.caller in P.Next(s.pool, p).owing { CallerOwes(s.pool, p, s.caller); }
    hide P.Next, P.Enabled;
  }

  lemma PostTallies(s: State, created: set<Tid>)
    requires Indices(s) && Countdowns(s) && Enabled(s, Post(created))
    ensures Indices(Next(s, Post(created))) && Countdowns(Next(s, Post(created)))
  {
    hide P.Next, P.Enabled, Holding, Queued, Expand;
    PushBalance(s.pool, Posting(s, created), s.f);
    PostInvocations(s.f, s.n);
  }

  lemma PostPlaces(s: State, created: set<Tid>)
    requires Places(s) && Enabled(s, Post(created))
    ensures Places(Next(s, Post(created)))
  {
    hide P.Next, P.Enabled;
    PoolPlaces(s, Posting(s, created), s.sub, true);
  }

  lemma PostStep(s: State, created: set<Tid>)
    requires Inv(s) && Enabled(s, Post(created))
    ensures Inv(Next(s, Post(created)))
  {
    hide P.Inv, B.Inv, P.Next, P.Enabled, RunsOnce, Places, Indices, Countdowns;
    P.InvStep(s.pool, Posting(s, created));
    PostTallies(s, created);
    PostPlaces(s, created);
    SameRuns(s, Next(s, Post(created)));
  }

  lemma FinishTallies(s: State, p: P.Step)
    requires Indices(s) && Countdowns(s) && Enabled(s, PoolStep(p)) && Finishes(s, p)
    ensures Indices(Next(s, PoolStep(p))) && Countdowns(Next(s, PoolStep(p)))
  {
    hide P.Next, P.Enabled, Holding, Queued;
    var s' := Next(s, PoolStep(p));
    PoolBalance(s.pool, p, s.f);
    assert s'.sub.Keys == s.sub.Keys - {p.w};
    assert |s'.sub| == |s'.sub.Keys| && |s.sub| == |s.sub.Keys|;
    CountRemove(s.sub, p.w, (sub: Sub) => sub.Fetched?);
  }

  lemma FinishRuns(s: State, p: P.Step)
    requires RunsOnce(s) && Enabled(s, PoolStep(p)) && Finishes(s, p)
    ensures RunsOnce(Next(s, PoolStep(p)))
  {
    hide P.Next, P.Enabled;
    var s' := Next(s, PoolStep(p));
    forall k: int ensures multiset(s'.runs)[k] + Count(s'.sub, (sub: Sub) => sub == Fetched(k)) ==
                          if 0 <= k < s'.next then 1 else 0 {
      CountRemove(s.sub, p.w, (sub: Sub) => sub == Fetched(k));
    }
  }

  lemma FinishStep(s: State, p: P.Step)
    requires Inv(s) && Enabled(s, PoolStep(p)) && Finishes(s, p)
    ensures Inv(Next(s, PoolStep(p)))
  {
    hide P.Inv, B.Inv, P.Next, P.Enabled, Indices, Countdowns, RunsOnce, Places;
    P.InvStep(s.pool, p);
    FinishTallies(s, p);
    FinishRuns(s, p);
    PoolPlaces(s, p, Next(s, PoolStep(p)).sub, s.posted);
  }

  lemma OtherPoolTallies(s: State, p: P.Step)
    requires Places(s) && Enabled(s, PoolStep(p)) && !Finishes(s, p)
    ensures var s' := Next(s, PoolStep(p));
            && s'.sub == s.sub
            && Queued(s'.pool, s.f) + Holding(s'.pool.pcs, s.f) == Queued(s.pool, s.f) + Holding(s.pool.pcs, s.f)
  {
    hide P.Next, Holding, Queued, Expand;
    if p.Push? {
      PushBalance(s.pool, p, s.f);
      assert s.f !in multiset(Expand(p.items));
    } else {
      PoolBalance(s.pool, p, s.f);
    }
  }

  lemma SameTallies(s: State, pool: P.State)
    requires Indices(s) && Countdowns(s)
    requires Queued(pool, s.f) + Holding(pool.pcs, s.f) == Queued(s.pool, s.f) + Holding(s.pool.pcs, s.f)
    ensures Indices(s.(pool := pool)) && Countdowns(s.(pool := pool))
  {
    hide Holding, Queued;
  }

  lemma OtherPoolStep(s: State, p: P.Step)
    requires Inv(s) && Enabled(s, PoolStep(p)) && !Finishes(s, p)
    ensures Inv(Next(s, PoolStep(p)))
  {
    hide P.Inv, B.Inv, P.Next, P.Enabled, RunsOnce, Places, Indices, Countdowns, Holding, Queued, Expand;
    var s' := Next(s, PoolStep(p));
    OtherPoolTallies(s, p);
    SameTallies(s, s'.pool);
    P.InvStep(s.pool, p);
    PoolPlaces(s, p, s'.sub, s.posted);
    SameRuns(s, s');
  }

  lemma HangPlaces(s: State, w: Tid)
    requires Places(s) && Enabled(s, Hang(w))
    ensures Places(Next(s, Hang(w)))
  {
  }

  lemma HangStep(s: State, w: Tid)
    requires Inv(s) && Enabled(s, Hang(w))
    ensures Inv(Next(s, Hang(w)))
  {
    hide P.Inv, B.Inv, Places;
    HangPlaces(s, w);
  }

  lemma InvStep(s: State, step: Step)
    requires Inv(s) && Enabled(s, step)
    ensures Inv(Next(s, step))
  {
    hide Inv, Next;
    match step
    case Post(created) => PostStep(s, created);
    case CallWait => CallWaitStep(s);
    case FetchAdd(w) => FetchAddStep(s, w);
    case RunTask(w) => RunTaskStep(s, w);
    case Hang(w) => HangStep(s, w);
    case PoolStep(p) => if Finishes(s, p) { FinishStep(s, p); } else { OtherPoolStep(s, p); }
    case BarrierStep(b) => BarrierStepInv(s, b);
  }

  ghost predicate IsRun(states: seq<State>, steps: seq<Step>) {
    && |states| == |steps| + 1
    && forall i | 0 <= i < |steps| :: Enabled(states[i], steps[i]) && states[i + 1] == Next(states[i], steps[i])
  }

  lemma {:induction false} InvAlways(states: seq<State>, steps: seq<Step>, i: nat)
    requires IsRun(states, steps) && Init(states[0]) && i < |states|
    ensures Inv(states[i])
  {
    hide Inv, Init;
    if i == 0 {
      InitInv(states[0]);
    } else {
      InvAlways(states, steps, i - 1);
      InvStep(states[i - 1], steps[i - 1]);
    }
  }

  lemma AllRun(s: State)
    requires Inv(s) && B.At(s.barrier, s.caller, B.Passed)
    ensures forall k: int :: multiset(s.runs)[k] == if 0 <= k < s.n then 1 else 0
  {
    hide P.Inv;
    SubBound(s);
    CountZero(s.sub, (sub: Sub) => sub.Fetched?);
    forall k: int ensures Count(s.sub, (sub: Sub) => sub == Fetched(k)) == 0 {
      CountZero(s.sub, (sub: Sub) => sub == Fetched(k));
    }
  }

  /** ApplyTaskSync returns only after the task has been run on each of 0, ..., n - 1 exactly
      once, whatever the workers, the rest of the pool and the wakeups do. */
  lemma ReturnsAfterEveryIndex(states: seq<State>, steps: seq<Step>, i: nat)
    requires IsRun(states, steps) && Init(states[0]) && i < |states|
    requires B.At(states[i].barrier, states[i].caller, B.Passed)
    ensures forall k: int :: multiset(states[i].runs)[k] == if 0 <= k < states[i].n then 1 else 0
  {
    InvAlways(states, steps, i);
    AllRun(states[i]);
  }
}
