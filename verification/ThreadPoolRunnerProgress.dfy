/** `ThreadPoolTaskRunner` as a whole ends and gets its work done: a runner being destroyed that
    can go no further is gone, and a living one that can go no further has nothing left to do. */
module ThreadPoolRunnerProgress {
  import opened Tasks
  import opened TaskHeap
  import P = ThreadPool
  import Q = ThreadPoolProgress
  import W = ThreadPoolWork
  import S = ServiceThread
  import opened ThreadPoolRunner

  /** Steps that nobody has to make: posts, spurious wakeups and waits that time out, a deadline
      reached among them, and the call of the destructor. */
  predicate Optional(step: Step) {
    match step
    case PoolStep(p) => p.Push? || p.Unblock? || p.UnblockDtor? || Q.TimesOut(p)
    case ServiceStep(v) => v.Post? || v.Unblock? || v.DtorSet?
    case _ => false
  }

  ghost predicate OnlyOptional(s: State) {
    forall step | Enabled(s, step) :: Optional(step)
  }

  // ----- the service thread and its callers -----

  lemma {:induction false} EarlierThanAll(items: multiset<Item>) returns (t: int)
    ensures forall x | x in items :: t < x.timePoint
    decreases |items|
  {
    if x :| x in items {
      var others := items - multiset{x};
      t := EarlierThanAll(others);
      t := if t < x.timePoint then t else x.timePoint - 1;
      assert forall y | y in items :: y == x || y in others;
    } else {
      t := 0;
    }
  }

  /** At the top of its loop or after a wait the thread can lock, at some time or other. */
  lemma ServiceLocks(s: S.State) returns (step: S.Step)
    requires s.pc == S.Top || s.pc == S.Woken
    ensures S.Enabled(s, step) && (step.Lock? || step.Resume?)
  {
    var now := EarlierThanAll(s.delayed);
    assert IsDrain(s.delayed, now, [], s.delayed);
    step := if s.pc == S.Top then S.Lock(now, now, [], s.delayed) else S.Resume(now, [], s.delayed);
  }

  lemma Notifiable(p: P.State, t: Tid, wake: P.Wake)
    requires t in p.owing && P.CanWake(p, wake)
    ensures P.Enabled(p, P.PushNotify(t, wake))
  {
  }

  /** A service thread that does not wait and has not exited can go on. */
  lemma ServiceMoves(s: State) returns (step: Step)
    requires Inv(s) && !S.IsWaiting(s.svc.pc) && s.svc.pc != S.Exited
    ensures Enabled(s, step) && !Optional(step)
  {
    hide NothingLost, IsDrain, P.Enabled;
    if s.svc.pc.Scheduling? {
      var created := HandOverEnabled(s);
      step := HandOver(created);
    } else if s.svc.pc == S.Pushing {
      var wake := Q.SomeWake(s.pool);
      step := HandOverDone(wake);
      Notifiable(s.pool, s.service, wake);
    } else {
      var v := ServiceLocks(s.svc);
      step := ServiceStep(v);
    }
  }

  // ----- destruction -----

  lemma PoolDestructorMoves(s: State) returns (step: Step)
    requires P.Inv(s.pool) && Coupled(s) && S.Exiting(s.svc) && s.svc.dtor == S.Joined
    requires s.pool.dtor != P.Returned
    ensures Enabled(s, step) && !Optional(step)
  {
    if s.pool.dtor == P.NotCalled {
      var wake := Q.SomeWake(s.pool);
      step := PoolStep(P.Destroy(if s.pool.sh.threads == {} then P.Nobody else wake));
    } else {
      var p := Q.ShutdownProgress(s.pool);
      hide P.Enabled, P.Inv;
      step := PoolStep(p);
    }
  }

  /** Both destructors: the service thread is told, joined, and then the pool is emptied. */
  lemma DestructorMoves(s: State) returns (step: Step)
    requires Inv(s) && s.svc.dtor != S.NotCalled && s.pool.dtor != P.Returned
    ensures Enabled(s, step) && !Optional(step)
  {
    hide NothingLost, IsDrain, P.Enabled, S.Conservation;
    match s.svc.dtor
    case OwesNotify => step := ServiceStep(S.DtorNotify);
    case Joining =>
      if s.svc.pc == S.Exited {
        step := ServiceStep(S.DtorJoin);
      } else {
        step := ServiceMoves(s);
      }
    case Joined => step := PoolDestructorMoves(s);
  }

  lemma Gone(s: State)
    requires Inv(s) && s.pool.dtor == P.Returned
    ensures s.svc.dtor == S.Joined && s.svc.pc == S.Exited && s.pool.sh.threads == {} && s.pool.pcs == map[]
  {
    hide NothingLost, S.Conservation;
  }

  /** Once its destructor has begun, a run of the whole runner that can go no further has joined
      the service thread and returned with every worker gone from the map. */
  lemma DestructionCompletes(states: seq<State>, steps: seq<Step>)
    requires IsRun(states, steps) && Init(states[0])
    requires states[|steps|].svc.dtor != S.NotCalled && OnlyOptional(states[|steps|])
    ensures var s := states[|steps|];
            && s.svc.dtor == S.Joined && s.svc.pc == S.Exited
            && s.pool.dtor == P.Returned && s.pool.sh.threads == {} && s.pool.pcs == map[]
  {
    hide Init, Next, Enabled;
    var s := states[|steps|];
    InvAlways(states, steps, |steps|);
    if s.pool.dtor != P.Returned {
      var step := DestructorMoves(s);
    }
    Gone(s);
  }

  // ----- the work of a living runner -----

  /** The steps that can leave the pool's queue without a worker. */
  ghost predicate Strands(s: State, step: Step) {
    match step
    case PoolStep(p) => Q.Strands(s.pool, {}, p)
    case HandOver(created) =>
      s.svc.pc.Scheduling? && Q.Strands(s.pool, {}, P.Push(s.service, ToIterations(s.svc.pc.batch), created))
    case _ => false
  }

  ghost predicate NeverStrands(states: seq<State>, steps: seq<Step>) {
    |steps| < |states| && forall i | 0 <= i < |steps| :: !Strands(states[i], steps[i])
  }

  lemma NotifyServed(p: P.State, t: Tid, wake: P.Wake)
    requires P.Accounting(p) && Q.Served(p, {}) && P.Enabled(p, P.PushNotify(t, wake))
    ensures Q.Served(P.Next(p, P.PushNotify(t, wake)), {})
  {
    Q.ServedKeptExactly(p, {}, P.PushNotify(t, wake));
  }

  lemma ServedStep(s: State, step: Step, s': State)
    requires P.Accounting(s.pool) && Q.Served(s.pool, {}) && Enabled(s, step) && Next(s, step, s')
    requires !Strands(s, step)
    ensures Q.Served(s'.pool, {})
  {
    hide P.Next, P.Enabled, P.Accounting, Q.Served, Q.Strands, S.Next, ToIterations, IsDrain;
    match step
    case PoolStep(p) => Q.ServedKeptExactly(s.pool, {}, p);
    case ServiceStep(_) =>
    case HandOver(created) =>
      Q.ServedKeptExactly(s.pool, {}, P.Push(s.service, ToIterations(s.svc.pc.batch), created));
    case HandOverDone(wake) => NotifyServed(s.pool, s.service, wake);
  }

  lemma PoolAccounted(s: State)
    requires Inv(s)
    ensures P.Accounting(s.pool)
  {
    hide NothingLost, S.Inv, Coupled;
  }

  lemma {:induction false} ServedAlways(states: seq<State>, steps: seq<Step>, i: nat)
    requires IsRun(states, steps) && Init(states[0]) && NeverStrands(states, steps) && i < |states|
    ensures Inv(states[i]) && Q.Served(states[i].pool, {})
  {
    hide Inv, Next, Enabled, Strands;
    InvAlways(states, steps, i);
    if i > 0 {
      hide Init, Q.Served;
      ServedAlways(states, steps, i - 1);
      PoolAccounted(states[i - 1]);
      ServedStep(states[i - 1], steps[i - 1], states[i]);
    }
  }

  /** The pool by itself can do no more than the runner. */
  lemma PoolOnlyOptional(s: State)
    requires Coupled(s) && OnlyOptional(s) && s.svc.pc != S.Pushing
    ensures W.OnlyOptional(s.pool, {})
  {
    forall p | P.Enabled(s.pool, p) ensures Q.Optional(p) {
      assert !Q.Optional(p) ==> Enabled(s, PoolStep(p));
    }
    hide P.Enabled;
  }

  /** The service thread waits, nobody owes it a notification, and no task in the heap is due
      before the deadline it waits for; without a deadline the heap is empty. */
  ghost predicate WaitsForTheNext(s: S.State) {
    && s.owing == {}
    && match s.pc
       case WaitingForever => s.delayed == multiset{}
       case WaitingUntil(deadline) =>
         && (exists x | x in s.delayed :: x.timePoint == deadline)
         && (forall x | x in s.delayed :: deadline <= x.timePoint)
       case _ => false
  }

  lemma PosterNotifies(s: State, t: Tid)
    requires t in s.svc.owing
    ensures exists step :: Enabled(s, step) && !Optional(step)
  {
    assert Enabled(s, ServiceStep(S.PostNotify(t))) && !Optional(ServiceStep(S.PostNotify(t)));
  }

  lemma ServiceStopped(s: State)
    requires Inv(s) && s.svc.dtor == S.NotCalled && OnlyOptional(s)
    ensures WaitsForTheNext(s.svc)
  {
    if t :| t in s.svc.owing {
      PosterNotifies(s, t);
    }
    hide Enabled, NothingLost, S.Conservation;
    if !S.IsWaiting(s.svc.pc) {
      var step := ServiceMoves(s);
    }
  }

  lemma Settled(s: State)
    requires Inv(s) && s.svc.dtor == S.NotCalled && S.IsWaiting(s.svc.pc)
    ensures s.svc.handed == s.svc.h.released && NothingLost(s) && Coupled(s) && P.Inv(s.pool)
    ensures !s.pool.sh.shouldExit
  {
    hide Interleaves;
    assert s.svc.handed + [] == s.svc.handed;
  }

  /** A living runner that can go no further, timeouts included and unless a step has stranded
      work, waits for the next deadline: everything posted without a delay and everything due
      so far has been handed to the pool, and the pool has taken all of it, in order. */
  lemma RunsDry(states: seq<State>, steps: seq<Step>)
    requires IsRun(states, steps) && Init(states[0]) && NeverStrands(states, steps)
    requires states[|steps|].svc.dtor == S.NotCalled && OnlyOptional(states[|steps|])
    ensures var s := states[|steps|];
            && WaitsForTheNext(s.svc) && s.svc.handed == s.svc.h.released
            && Interleaves(s.pool.pushed, s.direct, ToIterations(s.svc.handed))
            && s.pool.sh.tasks == [] && s.pool.log == Expand(s.pool.pushed)
            && forall w | w in s.pool.pcs :: s.pool.pcs[w] == P.Asleep
  {
    hide Init, Next, Enabled;
    var s := states[|steps|];
    ServedAlways(states, steps, |steps|);
    ServiceStopped(s);
    Settled(s);
    PoolOnlyOptional(s);
    W.DryWhenStopped(s.pool, {});
  }
}
