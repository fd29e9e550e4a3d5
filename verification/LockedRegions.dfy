/** The locked regions of the runners and of the barrier as code over their fields, each proved
    to compute the region or the step of the state machines. */
module LockedRegions {
  import opened Options
  import opened Tasks
  import opened TaskHeap
  import A = ApplySync
  import B = Barrier
  import P = ThreadPool
  import S = ServiceThread
  import R = ReleaseOrder

  lemma OneMore(items: seq<IterationItem>, i: nat)
    requires i < |items|
    ensures items[..i + 1] == items[..i] + [items[i]]
    ensures TotalInvocations(items[..i + 1]) == TotalInvocations(items[..i]) + items[i].iterations + 1
  {
    assert items[..i + 1] == items[..i] + [items[i]];
    OneItem(items[i]);
    TotalInvocationsConcat(items[..i], [items[i]]);
  }

  class DelayedTaskRunner {
    var tasks: seq<IterationItem>
    var threads: set<Tid>          // the keys of thread_id_to_thread_map_
    const maxThreadsNum: int
    var waitingThreadsNum: int
    var shouldExit: bool

    ghost function Fields(): P.Shared
      reads this
    {
      P.Shared(tasks, threads, waitingThreadsNum, shouldExit)
    }

    constructor (maxThreadsNum: int)
      requires maxThreadsNum > 0
      ensures Fields() == P.Shared([], {}, 0, false) && this.maxThreadsNum == maxThreadsNum
    {
      this.maxThreadsNum := maxThreadsNum;
      tasks, threads, waitingThreadsNum, shouldExit := [], {}, 0, false;
    }

    /** The ids the system gives to new threads: distinct and not in use. */
    ghost predicate Usable(ids: seq<Tid>)
      reads this
    {
      && (forall i | 0 <= i < |ids| :: ids[i] !in threads)
      && (forall i, j | 0 <= i < j < |ids| :: ids[i] != ids[j])
    }

    /** What both push functions do under the mutex once the tasks are queued. */
    method CreateThreads(tasksNum: int, ids: seq<Tid>) returns (created: set<Tid>)
      requires |threads| <= maxThreadsNum && 0 <= waitingThreadsNum && tasksNum > 0
      requires Usable(ids) && maxThreadsNum - |threads| <= |ids|
      modifies this`threads
      ensures threads == old(threads) + created && created !! old(threads)
      ensures |created| == P.Min(tasksNum, maxThreadsNum - |old(threads)|)
                         - P.Min(P.Min(tasksNum, maxThreadsNum - |old(threads)|), waitingThreadsNum)
    {
      var maxThreadsNumToCreate := maxThreadsNum - |threads|;
      var threadsNumToCreate := P.Min(tasksNum, maxThreadsNumToCreate);
      threadsNumToCreate := threadsNumToCreate - P.Min(threadsNumToCreate, waitingThreadsNum);
      created := {};
      for i := 0 to threadsNumToCreate
        invariant threads == old(threads) + created && created !! old(threads) && |created| == i
        invariant forall id | id in created :: id in ids[..i]
      {
        assert ids[i] !in ids[..i] && ids[..i + 1] == ids[..i] + [ids[i]];
        threads := threads + {ids[i]};
        created := created + {ids[i]};
      }
    }

    method PushTasks(items: seq<IterationItem>, ids: seq<Tid>) returns (created: set<Tid>)
      requires items != [] && |threads| <= maxThreadsNum && 0 <= waitingThreadsNum
      requires Usable(ids) && maxThreadsNum - |threads| <= |ids|
      modifies this
      ensures Fields() == P.PushRegion(old(Fields()), items, created) && created !! old(threads)
      ensures |created| == P.ThreadsToCreate(old(Fields()), items, maxThreadsNum)
    {
      var tasksNum := 0;
      for i := 0 to |items|
        invariant tasksNum == TotalInvocations(items[..i])
        invariant tasks == old(tasks) + items[..i]
        invariant threads == old(threads) && waitingThreadsNum == old(waitingThreadsNum)
        invariant shouldExit == old(shouldExit)
      {
        OneMore(items, i);
        tasksNum := tasksNum + items[i].iterations + 1;
        tasks := tasks + [items[i]];
      }
      assert items[..|items|] == items;
      created := CreateThreads(tasksNum, ids);
    }

    method PushTask(item: IterationItem, ids: seq<Tid>) returns (created: set<Tid>)
      requires |threads| <= maxThreadsNum && 0 <= waitingThreadsNum
      requires Usable(ids) && maxThreadsNum - |threads| <= |ids|
      modifies this
      ensures Fields() == P.PushRegion(old(Fields()), [item], created) && created !! old(threads)
      ensures |created| == P.ThreadsToCreate(old(Fields()), [item], maxThreadsNum)
    {
      var tasksNum := item.iterations + 1;
      tasks := tasks + [item];
      OneItem(item);
      created := CreateThreads(tasksNum, ids);
    }

    /** A worker at the top of its loop, up to where it sleeps or releases the mutex. */
    method Test() returns (pc: P.WorkerPc)
      modifies this
      ensures (Fields(), pc) == P.EnterRegion(old(Fields()))
    {
      if tasks == [] && !shouldExit {
        waitingThreadsNum := waitingThreadsNum + 1;
        return P.Asleep;
      }
      if shouldExit {
        return P.Leaving;
      }
      var front := tasks[0];
      if front.iterations == 0 {
        tasks := tasks[1..];
        assert [] + old(tasks)[1..] == tasks;
      } else {
        tasks := tasks[0 := front.(iterations := front.iterations - 1)];
        assert tasks == [tasks[0]] + old(tasks)[1..];
      }
      var hadItems := tasks != [];
      pc := if hadItems then P.Notifying(front.task) else P.Running(front.task);
    }

    /** The same worker once its wait is over. */
    method TestAgain(timedOut: bool) returns (pc: P.WorkerPc)
      modifies this
      ensures (Fields(), pc) == P.ResumeRegion(old(Fields()), timedOut)
    {
      waitingThreadsNum := waitingThreadsNum - 1;
      if timedOut {
        return P.Leaving;
      }
      pc := Test();
    }

    method EraseSelf(w: Tid)
      requires w in threads
      modifies this
      ensures Fields() == P.EraseRegion(old(Fields()), w)
    {
      threads := threads - {w};
    }
  }

  /** All fronts have the same deadline, so a thread that waits has not skipped a drain. */
  lemma FrontTime(delayed: multiset<Item>, front: Item)
    requires S.IsFront(delayed, front)
    ensures forall x | S.IsFront(delayed, x) :: x.timePoint == front.timePoint
  {
  }

  lemma FrontOfHeap(q: seq<Item>)
    requires IsHeap(q) && q != []
    ensures S.IsFront(multiset(q), q[0])
  {
    forall x | x in multiset(q) ensures !Less(x, q[0]) {
      var i :| 0 <= i < |q| && q[i] == x;
      FrontIsLeast(q, i);
    }
  }

  class ServiceTaskRunner {
    var delayedTasks: seq<Item>    // a heap
    var taskId: nat
    var shouldExit: bool

    /** The fields hold what the service thread's state `s` says. */
    ghost predicate Holds(s: S.State)
      reads this
    {
      IsHeap(delayedTasks) && multiset(delayedTasks) == s.delayed && taskId == s.taskId && shouldExit == s.shouldExit
    }

    constructor ()
      ensures forall s | S.Init(s) :: Holds(s)
    {
      delayedTasks, taskId, shouldExit := [], 0, false;
    }

    method PushTask(task: Task, now: int, delay: int, iterations: nat, ghost p: Tid, ghost s: S.State)
      returns (ghost s': S.State)
      requires Holds(s) && S.Enabled(s, S.Post(p, task, now, delay, iterations))
      modifies this
      ensures S.Next(s, S.Post(p, task, now, delay, iterations), s') && Holds(s')
    {
      var item := Item(Some(task), now + delay, taskId, iterations);
      delayedTasks := Enqueue(delayedTasks, item);
      taskId := taskId + 1;
      s' := s.(delayed := s.delayed + multiset{item}, taskId := s.taskId + 1,
               owing := s.owing + {p}, h := R.AfterPost(s.h, item));
    }

    method Drain(now: int, ghost s: S.State)
      returns (tasks: seq<IterationItem>, ghost batch: seq<Item>, ghost rest: multiset<Item>)
      requires Holds(s) && S.Conservation(s)
      modifies this
      ensures IsDrain(s.delayed, now, batch, rest) && tasks == ToIterations(batch)
      ensures Holds(s.(delayed := rest))
    {
      R.QueueIsDistinct(s.h, s.delayed);
      var later;
      tasks, later, batch := TakeReady(delayedTasks, now);
      delayedTasks := later;
      rest := multiset(later);
    }

    /** The region at the top of WaitAndScheduleTasks, up to where it sleeps or has moved the
        due tasks into `tasks`. */
    method Test(now: int, now2: int, ghost s: S.State)
      returns (tasks: seq<IterationItem>, exited: bool, ghost step: S.Step, ghost s': S.State)
      requires Holds(s) && s.pc == S.Top && S.Conservation(s)
      modifies this
      ensures step.Lock? && step.now == now && step.now2 == now2
      ensures S.Enabled(s, step) && S.Next(s, step, s') && Holds(s')
      ensures exited <==> s'.pc == S.Exited
      ensures tasks == ToIterations(S.Batch(s'.pc))
    {
      hide S.Conservation, IsHeap, IsDrain, S.IsFront;
      tasks, exited := [], false;
      step := S.Lock(now, now2, [], multiset{});
      if shouldExit {
        exited, s' := true, s.(pc := S.Exited);
        assert S.TopOutcome(s, now, S.Exit);
      } else if delayedTasks == [] {
        s' := s.(pc := S.WaitingForever);
        assert S.TopOutcome(s, now, S.Wait(S.WaitingForever));
      } else {
        ghost var front := delayedTasks[0];
        FrontOfHeap(delayedTasks);
        assert front in s.delayed;
        if now < delayedTasks[0].timePoint {
          s' := s.(pc := S.WaitingUntil(front.timePoint));
          assert S.TopOutcome(s, now, S.Wait(S.WaitingUntil(front.timePoint)));
          FrontTime(s.delayed, front);
        } else {
          assert S.TopOutcome(s, now, S.Drain);
          ghost var batch, rest;
          tasks, batch, rest := Drain(now2, s);
          step, s' := S.Lock(now, now2, batch, rest), S.Drained(s, batch, rest);
        }
      }
    }

    /** The same thread once its wait is over. */
    method TestAgain(now: int, ghost s: S.State)
      returns (tasks: seq<IterationItem>, exited: bool, ghost step: S.Step, ghost s': S.State)
      requires Holds(s) && s.pc == S.Woken && S.Conservation(s)
      modifies this
      ensures step.Resume? && step.now == now
      ensures S.Enabled(s, step) && S.Next(s, step, s') && Holds(s')
      ensures exited <==> s'.pc == S.Exited
      ensures tasks == ToIterations(S.Batch(s'.pc))
    {
      hide S.Conservation, IsHeap, IsDrain;
      tasks, exited := [], false;
      step := S.Resume(now, [], multiset{});
      if shouldExit {
        exited, s' := true, s.(pc := S.Exited);
      } else if delayedTasks == [] {
        s' := s.(pc := S.Top);
      } else {
        assert delayedTasks[0] in s.delayed;
        ghost var batch, rest;
        tasks, batch, rest := Drain(now, s);
        step, s' := S.Resume(now, batch, rest), S.Drained(s, batch, rest);
      }
    }
  }

  class ThreadPoolTaskRunner {
    const delayedTaskRunner: DelayedTaskRunner
    const serviceTaskRunner: ServiceTaskRunner

    constructor (maxThreadsNum: int)
      requires maxThreadsNum > 0
      ensures delayedTaskRunner.Fields() == P.Shared([], {}, 0, false)
      ensures forall s | S.Init(s) :: serviceTaskRunner.Holds(s)
    {
      delayedTaskRunner := new DelayedTaskRunner(maxThreadsNum);
      serviceTaskRunner := new ServiceTaskRunner();
    }

    /** Tasks without a delay go straight to the pool, all others to the service thread. */
    method PostDelayedTaskWithIterations(task: Task, now: int, delay: nat, iterations: nat, ids: seq<Tid>,
                                         ghost p: Tid, ghost s: S.State)
      returns (created: set<Tid>, ghost s': S.State)
      requires var d := delayedTaskRunner;
               |d.threads| <= d.maxThreadsNum && 0 <= d.waitingThreadsNum && d.Usable(ids)
               && d.maxThreadsNum - |d.threads| <= |ids|
      requires serviceTaskRunner.Holds(s) && s.dtor != S.Joined && p !in s.owing
      modifies delayedTaskRunner, serviceTaskRunner
      ensures serviceTaskRunner.Holds(s')
      ensures var d := delayedTaskRunner;
              if delay == 0 then
                && s' == s
                && d.Fields() == P.PushRegion(old(d.Fields()), [IterationItem(task, iterations)], created)
                && |created| == P.ThreadsToCreate(old(d.Fields()), [IterationItem(task, iterations)], d.maxThreadsNum)
              else
                && d.Fields() == old(d.Fields())
                && S.Next(s, S.Post(p, task, now, delay, iterations), s')
    {
      if delay == 0 {
        s' := s;
        created := delayedTaskRunner.PushTask(IterationItem(task, iterations), ids);
      } else {
        created := {};
        s' := serviceTaskRunner.PushTask(task, now, delay, iterations, p, s);
      }
    }
  }

  class Barrier {
    var counter: int

    ghost predicate Holds(s: B.State)
      reads this
    {
      counter == s.counter
    }

    constructor (counter: nat)
      requires counter > 0
      ensures Holds(B.State(counter, counter, map[]))
    {
      this.counter := counter;
    }

    method CountDown(ghost t: Tid, ghost s: B.State) returns (notifies: bool)
      requires Holds(s) && B.Counts(s) && B.Enabled(s, B.CountDown(t))
      modifies this
      ensures var s' := B.Next(s, B.CountDown(t));
              Holds(s') && s'.pcs[t] == if notifies then B.Notifying(false) else B.Counted
    {
      B.CounterPositive(s, t);
      assert counter > 0;
      counter := counter - 1;
      notifies := counter == 0;
    }

    /** Up to the first test of its wait loop. */
    method CountDownAndWait(ghost t: Tid, ghost s: B.State) returns (sleeps: bool)
      requires Holds(s) && B.Counts(s) && B.Enabled(s, B.CountDownAndWait(t))
      modifies this
      ensures var s' := B.Next(s, B.CountDownAndWait(t));
              Holds(s') && s'.pcs[t] == if sleeps then B.Asleep else B.Notifying(true)
    {
      B.CounterPositive(s, t);
      assert counter > 0;
      counter := counter - 1;
      sleeps := counter != 0;
    }

    /** The test of both wait loops, made on entering Wait and after every wakeup. */
    method Test(ghost t: Tid, ghost s: B.State, ghost step: B.Step) returns (sleeps: bool)
      requires Holds(s) && (step == B.Wait(t) || step == B.Resume(t)) && B.Enabled(s, step)
      ensures var s' := B.Next(s, step);
              Holds(s') && s'.pcs[t] == if sleeps then B.Asleep else B.Notifying(true)
    {
      sleeps := counter != 0;
    }
  }

  class AppliedItem {
    const iterations: nat
    var i: int

    /** The closure's fetch_add, with its assertion. */
    method FetchIndex(ghost w: Tid, ghost s: A.State) returns (index: int)
      requires i == s.next && iterations == s.n && A.Inv(s) && A.Enabled(s, A.FetchAdd(w))
      modifies this
      ensures var s' := A.Next(s, A.FetchAdd(w)); i == s'.next && s'.sub[w] == A.Fetched(index)
    {
      A.IndexInRange(s, w);
      index := i;
      i := i + 1;
      assert index < iterations;
    }
  }
}
