/** `ThreadPoolTaskRunner` as a whole: the worker pool and the service thread run side by
    side, the service thread being one of the pool's pushers. */
module ThreadPoolRunner {
  import opened Tasks
  import opened TaskHeap
  import P = ThreadPool
  import R = ReleaseOrder
  import S = ServiceThread

  datatype State = State(
    pool: P.State,
    svc: S.State,
    service: Tid,                  // the id of the service thread
    direct: seq<IterationItem>     // what was posted without a delay, in push order
  )

  datatype Step =
    | PoolStep(pool: P.Step)
    | ServiceStep(svc: S.Step)
    | HandOver(created: set<Tid>)  // PushTasks called by the service thread
    | HandOverDone(wake: P.Wake)

  /** The members are destroyed in reverse order of declaration, so the pool's destructor
      starts only after the service thread has been joined. */
  ghost predicate Enabled(s: State, step: Step) {
    match step
    case PoolStep(p) =>
      && P.Enabled(s.pool, p)
      && (p.Push? ==> p.p != s.service && s.service !in p.created)
      && (p.PushNotify? ==> p.p != s.service)
      && (p.Destroy? && s.pool.dtor == P.NotCalled ==> s.svc.dtor == S.Joined)
    case ServiceStep(v) => S.Enabled(s.svc, v) && !v.HandOver? && !v.HandOverDone?
    case HandOver(created) =>
      && S.Enabled(s.svc, S.HandOver)
      && P.Enabled(s.pool, P.Push(s.service, ToIterations(s.svc.pc.batch), created))
    case HandOverDone(wake) =>
      && S.Enabled(s.svc, S.HandOverDone)
      && P.Enabled(s.pool, P.PushNotify(s.service, wake))
  }

  ghost predicate Next(s: State, step: Step, s': State)
    requires Enabled(s, step)
  {
    && s'.service == s.service
    && match step
       case PoolStep(p) =>
         && s'.pool == P.Next(s.pool, p) && s'.svc == s.svc
         && s'.direct == if p.Push? then s.direct + p.items else s.direct
       case ServiceStep(v) => S.Next(s.svc, v, s'.svc) && s'.pool == s.pool && s'.direct == s.direct
       case HandOver(created) =>
         && S.Next(s.svc, S.HandOver, s'.svc)
         && s'.pool == P.Next(s.pool, P.Push(s.service, ToIterations(s.svc.pc.batch), created))
         && s'.direct == s.direct
       case HandOverDone(wake) =>
         && S.Next(s.svc, S.HandOverDone, s'.svc)
         && s'.pool == P.Next(s.pool, P.PushNotify(s.service, wake))
         && s'.direct == s.direct
  }

  ghost predicate Init(s: State) {
    P.Init(s.pool) && S.Init(s.svc) && s.direct == []
  }

  /** `all` is made of `a` and of `b`, each in its own order. */
  ghost predicate Interleaves(all: seq<IterationItem>, a: seq<IterationItem>, b: seq<IterationItem>) {
    if all == [] then a == [] && b == []
    else
      var rest, last := all[..|all| - 1], all[|all| - 1];
      || (a != [] && a[|a| - 1] == last && Interleaves(rest, a[..|a| - 1], b))
      || (b != [] && b[|b| - 1] == last && Interleaves(rest, a, b[..|b| - 1]))
  }

  /** What the pool was given, in the order it was given, interleaves what was posted directly
      and what the service thread released: item for item, each in its own order. */
  ghost predicate NothingLost(s: State) {
    Interleaves(s.pool.pushed, s.direct, ToIterations(s.svc.handed))
  }

  ghost predicate Coupled(s: State) {
    && s.service !in s.pool.pcs
    && (s.service in s.pool.owing <==> s.svc.pc == S.Pushing)
    && (s.pool.dtor != P.NotCalled ==> s.svc.dtor == S.Joined)
  }

  ghost predicate Inv(s: State) {
    P.Inv(s.pool) && S.Inv(s.svc) && NothingLost(s) && Coupled(s)
  }

  lemma ToIterationsConcat(a: seq<Item>, b: seq<Item>)
    ensures ToIterations(a + b) == ToIterations(a) + ToIterations(b)
  {
  }

  /** The elements marked `m`, in order. */
  function Marked(all: seq<IterationItem>, marks: seq<bool>, m: bool): seq<IterationItem>
    requires |marks| == |all|
  {
    var n := |all| - 1;
    if all == [] then []
    else Marked(all[..n], marks[..n], m) + if marks[n] == m then [all[n]] else []
  }

  lemma {:induction false} MarksOf(all: seq<IterationItem>, a: seq<IterationItem>, b: seq<IterationItem>)
    returns (marks: seq<bool>)
    requires Interleaves(all, a, b)
    ensures |marks| == |all| && Marked(all, marks, true) == a && Marked(all, marks, false) == b
    decreases |all|
  {
    if all == [] {
      return [];
    }
    var n := |all| - 1;
    var first := a != [] && a[|a| - 1] == all[n] && Interleaves(all[..n], a[..|a| - 1], b);
    if first {
      marks := MarksOf(all[..n], a[..|a| - 1], b);
    } else {
      marks := MarksOf(all[..n], a, b[..|b| - 1]);
    }
    var rest := marks;
    marks := marks + [first];
    assert marks[..n] == rest;
  }

  lemma {:induction false} MarkedInterleave(all: seq<IterationItem>, marks: seq<bool>)
    requires |marks| == |all|
    ensures Interleaves(all, Marked(all, marks, true), Marked(all, marks, false))
    decreases |all|
  {
    if all != [] {
      var n := |all| - 1;
      MarkedInterleave(all[..n], marks[..n]);
      var a, b := Marked(all, marks, true), Marked(all, marks, false);
      if marks[n] {
        assert a[..|a| - 1] == Marked(all[..n], marks[..n], true) && b == Marked(all[..n], marks[..n], false);
      } else {
        assert b[..|b| - 1] == Marked(all[..n], marks[..n], false) && a == Marked(all[..n], marks[..n], true);
      }
    }
  }

  /** Interleaving is picking out two complementary subsequences. */
  lemma {:induction false} InterleavesExactly(all: seq<IterationItem>, a: seq<IterationItem>, b: seq<IterationItem>)
    ensures Interleaves(all, a, b) <==>
              exists marks :: |marks| == |all| && Marked(all, marks, true) == a && Marked(all, marks, false) == b
    decreases |all|
  {
    if all == [] {
      var none: seq<bool> := [];
      assert Marked(all, none, true) == [] && Marked(all, none, false) == [];
      assert Interleaves(all, a, b) ==>
          |none| == |all| && Marked(all, none, true) == a && Marked(all, none, false) == b;
    } else {
      if Interleaves(all, a, b) { var marks := MarksOf(all, a, b); }
      if marks :| |marks| == |all| && Marked(all, marks, true) == a && Marked(all, marks, false) == b {
        MarkedInterleave(all, marks);
      }
    }
  }

  lemma {:induction false} InterleavesMore(all: seq<IterationItem>, a: seq<IterationItem>, b: seq<IterationItem>,
                                           items: seq<IterationItem>)
    requires Interleaves(all, a, b)
    ensures Interleaves(all + items, a + items, b)
    ensures Interleaves(all + items, a, b + items)
    decreases |items|
  {
    var n := |items| - 1;
    if items == [] {
      assert all + [] == all && a + [] == a && b + [] == b;
    } else {
      InterleavesMore(all, a, b, items[..n]);
      assert (all + items)[..|all + items| - 1] == all + items[..n];
      assert (a + items)[..|a + items| - 1] == a + items[..n];
      assert (b + items)[..|b + items| - 1] == b + items[..n];
    }
  }

  lemma {:induction false} InterleavesItems(all: seq<IterationItem>, a: seq<IterationItem>, b: seq<IterationItem>)
    requires Interleaves(all, a, b)
    ensures multiset(all) == multiset(a) + multiset(b)
    decreases |all|
  {
    if all != [] {
      var rest, last := all[..|all| - 1], all[|all| - 1];
      assert all == rest + [last];
      if a != [] && a[|a| - 1] == last && Interleaves(rest, a[..|a| - 1], b) {
        InterleavesItems(rest, a[..|a| - 1], b);
        assert a == a[..|a| - 1] + [last];
      } else {
        InterleavesItems(rest, a, b[..|b| - 1]);
        assert b == b[..|b| - 1] + [last];
      }
    }
  }

  lemma HandedUnchanged(s: S.State, step: S.Step, s': S.State)
    requires S.Enabled(s, step) && S.Next(s, step, s') && !step.HandOver? && !step.HandOverDone?
    ensures s'.handed == s.handed
    ensures (s'.pc == S.Pushing) == (s.pc == S.Pushing)
    ensures s.dtor == S.Joined ==> s'.dtor == S.Joined
  {
  }

  lemma NothingLostStep(s: State, step: Step, s': State)
    requires NothingLost(s) && Enabled(s, step) && Next(s, step, s')
    ensures NothingLost(s')
  {
    hide P.Enabled, ToIterations, Interleaves;
    match step
    case PoolStep(p) =>
      if p.Push? { InterleavesMore(s.pool.pushed, s.direct, ToIterations(s.svc.handed), p.items); }
    case ServiceStep(v) => HandedUnchanged(s.svc, v, s'.svc);
    case HandOver(_) =>
      ToIterationsConcat(s.svc.handed, s.svc.pc.batch);
      InterleavesMore(s.pool.pushed, s.direct, ToIterations(s.svc.handed), ToIterations(s.svc.pc.batch));
    case HandOverDone(_) =>
  }

  lemma PoolCoupling(s: P.State, step: P.Step, t: Tid)
    requires P.Enabled(s, step) && t !in s.pcs
    requires step.Push? ==> t !in step.created
    ensures t !in P.Next(s, step).pcs
    ensures t in P.Next(s, step).owing <==>
              if step.Push? && step.p == t then true
              else if step.PushNotify? && step.p == t then false
              else t in s.owing
    ensures P.Next(s, step).dtor != P.NotCalled <==> s.dtor != P.NotCalled || step.Destroy?
  {
    hide P.EnterRegion, P.ResumeRegion, P.PushRegion;
  }

  lemma HandOverCoupling(s: State, created: set<Tid>, s': State)
    requires Coupled(s) && Enabled(s, HandOver(created)) && Next(s, HandOver(created), s')
    ensures Coupled(s')
  {
    PoolCoupling(s.pool, P.Push(s.service, ToIterations(s.svc.pc.batch), created), s.service);
    hide P.Next;
  }

  lemma HandOverDoneCoupling(s: State, wake: P.Wake, s': State)
    requires Coupled(s) && Enabled(s, HandOverDone(wake)) && Next(s, HandOverDone(wake), s')
    ensures Coupled(s')
  {
    PoolCoupling(s.pool, P.PushNotify(s.service, wake), s.service);
    hide P.Next;
  }

  lemma CoupledStep(s: State, step: Step, s': State)
    requires Coupled(s) && Enabled(s, step) && Next(s, step, s')
    ensures Coupled(s')
  {
    hide S.Next, P.Next, P.Enabled;
    match step
    case PoolStep(p) => PoolCoupling(s.pool, p, s.service);
    case ServiceStep(v) => HandedUnchanged(s.svc, v, s'.svc);
    case HandOver(created) => HandOverCoupling(s, created, s');
    case HandOverDone(wake) => HandOverDoneCoupling(s, wake, s');
  }

  lemma PoolInvStep(s: State, step: Step, s': State)
    requires P.Inv(s.pool) && Enabled(s, step) && Next(s, step, s')
    ensures P.Inv(s'.pool)
  {
    hide P.Inv, P.Enabled, P.Next, S.Next, TaskHeap.ToIterations, TaskHeap.IsDrain;
    match step
    case PoolStep(p) => P.InvStep(s.pool, p);
    case ServiceStep(_) =>
    case HandOver(created) => P.InvStep(s.pool, P.Push(s.service, ToIterations(s.svc.pc.batch), created));
    case HandOverDone(wake) => P.InvStep(s.pool, P.PushNotify(s.service, wake));
  }

  lemma ServiceInvStep(s: State, step: Step, s': State)
    requires S.Inv(s.svc) && Enabled(s, step) && Next(s, step, s')
    ensures S.Inv(s'.svc)
  {
    hide S.Inv, P.Enabled, S.Enabled, P.Next, S.Next, TaskHeap.ToIterations;
    match step
    case PoolStep(_) =>
    case ServiceStep(v) => S.InvStep(s.svc, v, s'.svc);
    case HandOver(_) => S.InvStep(s.svc, S.HandOver, s'.svc);
    case HandOverDone(_) => S.InvStep(s.svc, S.HandOverDone, s'.svc);
  }

  lemma InvStep(s: State, step: Step, s': State)
    requires Inv(s) && Enabled(s, step) && Next(s, step, s')
    ensures Inv(s')
  {
    hide P.Inv, S.Inv, Enabled, Next, NothingLost, Coupled;
    NothingLostStep(s, step, s');
    CoupledStep(s, step, s');
    PoolInvStep(s, step, s');
    ServiceInvStep(s, step, s');
  }

  lemma InitInv(s: State)
    requires Init(s)
    ensures Inv(s)
  {
    P.InitInv(s.pool);
    S.InitInv(s.svc);
    hide P.Inv, S.Inv;
  }

  ghost predicate IsRun(states: seq<State>, steps: seq<Step>) {
    && |states| == |steps| + 1
    && forall i | 0 <= i < |steps| :: Enabled(states[i], steps[i]) && Next(states[i], steps[i], states[i + 1])
  }

  lemma {:induction false} InvAlways(states: seq<State>, steps: seq<Step>, i: nat)
    requires IsRun(states, steps) && Init(states[0]) && i < |states|
    ensures Inv(states[i])
  {
    hide Inv, Init;
    if i == 0 {
      InitInv(states[0]);
    } else {
      InvAlways(states, steps, i - 1);
      InvStep(states[i - 1], steps[i - 1], states[i]);
    }
  }

  lemma PostedOnce(s: S.State, x: Item)
    requires S.Conservation(s)
    ensures multiset(s.h.posted)[x] <= 1
  {
    R.PostedOnce(s.h.posted, x);
  }

  /** Where everything posted is, in every reachable state, shutdown included: a delayed task
      is in exactly one of the heap, the service thread's batch and what the pool was given;
      the pool was given direct and delayed tasks each in their order, and has taken, or still
      queues, exactly the invocations it was given. */
  lemma EveryTaskIsSomewhere(states: seq<State>, steps: seq<Step>, i: nat)
    requires IsRun(states, steps) && Init(states[0]) && i < |states|
    ensures var s := states[i];
            && multiset(s.svc.h.posted) == s.svc.delayed + multiset(S.Batch(s.svc.pc)) + multiset(s.svc.handed)
            && (forall x | x in multiset(s.svc.h.posted) :: multiset(s.svc.h.posted)[x] == 1)
            && Interleaves(s.pool.pushed, s.direct, ToIterations(s.svc.handed))
            && multiset(s.pool.pushed) == multiset(s.direct) + multiset(ToIterations(s.svc.handed))
            && s.pool.log + Expand(s.pool.sh.tasks) == Expand(s.pool.pushed)
  {
    InvAlways(states, steps, i);
    InterleavesItems(states[i].pool.pushed, states[i].direct, ToIterations(states[i].svc.handed));
    var s := states[i].svc;
    forall x | x in multiset(s.h.posted) ensures multiset(s.h.posted)[x] == 1 {
      PostedOnce(s, x);
    }
    assert multiset(s.handed + S.Batch(s.pc)) == multiset(s.handed) + multiset(S.Batch(s.pc));
  }

  /** The pool's destructor runs alone: the service thread has exited, so it can neither push
      nor still owe a notification. */
  lemma PoolOutlivesService(states: seq<State>, steps: seq<Step>, i: nat)
    requires IsRun(states, steps) && Init(states[0]) && i < |states|
    requires states[i].pool.dtor != P.NotCalled
    ensures states[i].svc.pc == S.Exited && states[i].service !in states[i].pool.owing
  {
    InvAlways(states, steps, i);
  }

  lemma HandOverEnabled(s: State) returns (created: set<Tid>)
    requires P.Accounting(s.pool) && Coupled(s) && s.svc.pc.Scheduling? && s.svc.pc.batch != []
    requires s.pool.dtor == P.NotCalled
    ensures Enabled(s, HandOver(created))
  {
    hide P.Accounting, ToIterations, P.ThreadsToCreate;
    var items := ToIterations(s.svc.pc.batch);
    assert items != [];
    P.PushNeverWraps(s.pool, items);
    var n := P.ThreadsToCreate(s.pool.sh, items, s.pool.maxThreads);
    created := NewThreads(s.pool.pcs.Keys + s.pool.owing + {s.service}, n);
  }

  /** A due batch can always be handed over: the assertions at the start of PushTasks hold. */
  lemma HandOverNeverBlocked(states: seq<State>, steps: seq<Step>, i: nat) returns (created: set<Tid>)
    requires IsRun(states, steps) && Init(states[0]) && i < |states|
    requires states[i].svc.pc.Scheduling?
    ensures Enabled(states[i], HandOver(created))
  {
    hide Enabled, Next, Init;
    InvAlways(states, steps, i);
    created := HandOverEnabled(states[i]);
  }
}
