/** What the pool's invariants buy: shutdown always ends, and exactly which steps can leave
    queued work without a worker. */
module ThreadPoolProgress {
  import opened Collections
  import opened Tasks
  import opened ThreadPool

  // ----- shutdown -----

  function Rank(pc: WorkerPc): nat {
    match pc
    case Leaving => 2
    case Starting => 3
    case Woken => 3
    case Running(_) => 4
    case Asleep => 5
    case Notifying(_) => 6
  }

  /** An upper bound on the work left to do once the destructor has set the exit flag. */
  ghost function Measure(s: State): nat {
    Sum(s.pcs, Rank) + 2 * |s.owing| + if s.dtor == Awake then 1 else 0
  }

  lemma WakeDecreases(s: State, wake: Wake)
    requires CanWake(s, wake)
    ensures Measure(WakeUp(s, wake)) <= Measure(s) + 1
    ensures !wake.Destructor? ==> Measure(WakeUp(s, wake)) <= Measure(s)
    ensures wake.Worker? ==> Measure(WakeUp(s, wake)) < Measure(s)
  {
    if wake.Worker? {
      SumMove(s.pcs, wake.w, Woken, Rank);
    }
  }

  lemma WorkerShutdownStep(s: State, w: Tid, pc: WorkerPc, sh: Shared)
    requires w in s.pcs && Rank(pc) < Rank(s.pcs[w])
    ensures Measure(s.(pcs := s.pcs[w := pc])) < Measure(s)
    ensures Measure(s.(sh := sh, pcs := s.pcs[w := pc])) < Measure(s)
  {
    SumMove(s.pcs, w, pc, Rank);
  }

  lemma TakeNotifyShutdownStep(s: State, w: Tid, wake: Wake)
    requires Enabled(s, TakeNotify(w, wake))
    ensures Measure(Next(s, TakeNotify(w, wake))) < Measure(s)
  {
    var pc := Running(s.pcs[w].task);
    SumMove(s.pcs, w, pc, Rank);
    WakeDecreases(s.(pcs := s.pcs[w := pc]), wake);
  }

  lemma EraseShutdownStep(s: State, w: Tid, wake: Wake)
    requires Enabled(s, Erase(w, wake))
    ensures Measure(Next(s, Erase(w, wake))) < Measure(s)
  {
    SumRemove(s.pcs, w, Rank);
    WakeDecreases(s.(sh := EraseRegion(s.sh, w), pcs := s.pcs - {w}), wake);
  }

  lemma DestroyShutdownStep(s: State, wake: Wake)
    requires Enabled(s, Destroy(wake)) && s.dtor == Awake
    ensures Measure(Next(s, Destroy(wake))) < Measure(s)
  {
    if s.sh.threads != {} {
      WakeDecreases(s.(sh := s.sh.(shouldExit := true)), wake);
    }
  }

  /** During shutdown every step but a new push and a spurious wakeup of the destructor
      uses up some of the remaining work. */
  lemma ShutdownStep(s: State, step: Step)
    requires s.sh.shouldExit && s.dtor != NotCalled && Enabled(s, step) && !step.Push?
    ensures if step.UnblockDtor? then Measure(Next(s, step)) == Measure(s) + 1
            else Measure(Next(s, step)) < Measure(s)
  {
    match step
    case PushNotify(p, wake) => WakeDecreases(s.(owing := s.owing - {p}), wake);
    case Enter(w) => WorkerShutdownStep(s, w, Leaving, s.sh);
    case Unblock(w) => WorkerShutdownStep(s, w, Woken, s.sh);
    case Resume(w, timedOut) => WorkerShutdownStep(s, w, Leaving, ResumeRegion(s.sh, timedOut).0);
    case TakeNotify(w, wake) => TakeNotifyShutdownStep(s, w, wake);
    case Finish(w) => WorkerShutdownStep(s, w, Starting, s.sh);
    case Erase(w, wake) => EraseShutdownStep(s, w, wake);
    case Destroy(wake) => DestroyShutdownStep(s, wake);
    case UnblockDtor =>
  }

  lemma ShutdownStays(s: State, step: Step)
    requires s.sh.shouldExit && s.dtor != NotCalled && Enabled(s, step)
    ensures Next(s, step).sh.shouldExit && Next(s, step).dtor != NotCalled
  {
  }

  function SpuriousDtorWakeups(steps: seq<Step>): nat {
    if steps == [] then 0
    else SpuriousDtorWakeups(steps[..|steps| - 1]) + if steps[|steps| - 1].UnblockDtor? then 1 else 0
  }

  /** A shutdown with no further pushes has boundedly many steps, whatever sleeper each
      notify_one picks and however often waits time out. */
  lemma {:induction false} ShutdownBounded(states: seq<State>, steps: seq<Step>)
    requires IsRun(states, steps) && states[0].sh.shouldExit && states[0].dtor != NotCalled
    requires forall i | 0 <= i < |steps| :: !steps[i].Push?
    ensures states[|steps|].sh.shouldExit && states[|steps|].dtor != NotCalled
    ensures |steps| + Measure(states[|steps|]) <= Measure(states[0]) + 2 * SpuriousDtorWakeups(steps)
  {
    hide Measure, Next, Enabled;
    var n := |steps|;
    if n > 0 {
      ShutdownBounded(states[..n], steps[..n - 1]);
      ShutdownStep(states[n - 1], steps[n - 1]);
      ShutdownStays(states[n - 1], steps[n - 1]);
    }
  }

  lemma SomeWake(s: State) returns (wake: Wake)
    ensures CanWake(s, wake)
  {
    if s.dtor == Sleeping {
      return Destructor;
    } else if w :| w in s.pcs && s.pcs[w] == Asleep {
      return Worker(w);
    }
    return Nobody;
  }

  predicate TimesOut(step: Step) { step.Resume? && step.timedOut }

  /** Steps that nobody has to make: pushes, spurious wakeups, timeouts and the call of the
      destructor. */
  predicate Optional(step: Step) {
    step.Push? || step.Unblock? || step.UnblockDtor? || step.Destroy? || TimesOut(step)
  }

  /** A worker that is not asleep can move, once it has finished a push it may be making. */
  lemma OwnStep(s: State, w: Tid) returns (step: Step)
    requires w in s.pcs && s.pcs[w] != Asleep
    ensures Enabled(s, step) && !Optional(step) && (step.Finish? ==> step.w == w)
  {
    match s.pcs[w]
    case Starting => step := Enter(w);
    case Woken => step := Resume(w, false);
    case Notifying(_) => var wake := SomeWake(s); step := TakeNotify(w, wake);
    case Running(_) =>
      if w in s.owing {
        var wake := SomeWake(s);
        step := PushNotify(w, wake);
      } else {
        step := Finish(w);
      }
    case Leaving => var wake := SomeWake(s); step := Erase(w, wake);
  }

  /** Until the destructor has returned, some thread can still move by itself: the pool is
      never stuck in shutdown. */
  lemma ShutdownProgress(s: State) returns (step: Step)
    requires Inv(s) && s.sh.shouldExit && s.dtor != Returned
    ensures Enabled(s, step) && (step.Destroy? || !Optional(step))
  {
    if s.dtor == Awake {
      if s.sh.threads == {} {
        return Destroy(Nobody);
      }
      var wake := SomeWake(s);
      return Destroy(wake);
    }
    var w :| w in s.pcs && s.pcs[w] != Asleep;
    step := OwnStep(s, w);
  }

  /** A shutdown that can go no further has returned from the destructor with every thread
      gone from the map. */
  lemma ShutdownCompletes(states: seq<State>, steps: seq<Step>)
    requires IsRun(states, steps) && Init(states[0]) && states[|steps|].sh.shouldExit
    requires forall step | Enabled(states[|steps|], step) :: step.Push? || step.UnblockDtor?
    ensures states[|steps|].dtor == Returned
    ensures states[|steps|].sh.threads == {} && states[|steps|].pcs == map[]
  {
    InvAlways(states, steps, |steps|);
    if states[|steps|].dtor != Returned {
      var step := ShutdownProgress(states[|steps|]);
    }
  }

  // ----- which steps can leave queued work without a worker -----

  /** Workers inside closures that may never end, such as one that waits for something. */
  ghost predicate Inside(s: State, hung: set<Tid>) {
    forall w | w in hung :: w in s.pcs && s.pcs[w].Running?
  }

  ghost predicate Ends(step: Step, hung: set<Tid>) { step.Finish? && step.w in hung }

  lemma InsideStays(s: State, hung: set<Tid>, step: Step)
    requires Inside(s, hung) && Enabled(s, step) && !Ends(step, hung)
    ensures Inside(Next(s, step), hung)
  {
    hide AfterTake, ThreadsToCreate;
  }

  /** Queued work has a live worker outside `hung` that is not on its way out. */
  ghost predicate Served(s: State, hung: set<Tid>) {
    s.sh.tasks != [] && !s.sh.shouldExit ==> exists w | w in s.pcs :: w !in hung && s.pcs[w] != Leaving
  }

  ghost predicate OthersLeaving(s: State, hung: set<Tid>, w: Tid) {
    forall v | v in s.pcs && v != w && v !in hung :: s.pcs[v] == Leaving
  }

  /** No worker outside `hung` stays. */
  ghost predicate AllLeaving(s: State, hung: set<Tid>) {
    forall w | w in s.pcs && w !in hung :: s.pcs[w] == Leaving
  }

  /** The two steps that strand work: a wait that times out without looking at the queue
      again, and a push whose limit is used up by workers that hang or are on their way out. */
  ghost predicate Strands(s: State, hung: set<Tid>, step: Step) {
    && !s.sh.shouldExit
    && match step
       case Resume(w, timedOut) => timedOut && s.sh.tasks != [] && OthersLeaving(s, hung, w)
       case Push(_, _, _) => |s.sh.threads| == s.maxThreads && AllLeaving(s, hung)
       case _ => false
  }

  /** When no worker stays, a push creates none exactly when the limit is used up. */
  lemma PushToLeaving(s: State, hung: set<Tid>, items: seq<IterationItem>)
    requires Accounting(s) && Inside(s, hung) && items != [] && AllLeaving(s, hung)
    ensures ThreadsToCreate(s.sh, items, s.maxThreads) == 0 <==> |s.sh.threads| == s.maxThreads
  {
    CountZero(s.pcs, IsWaiting);
  }

  /** After a push queued work has a worker unless the push strands it, whatever was before. */
  lemma PushServesExactly(s: State, hung: set<Tid>, step: Step)
    requires Accounting(s) && Inside(s, hung) && Enabled(s, step) && step.Push?
    ensures Served(Next(s, step), hung) <==> !Strands(s, hung, step)
  {
    var s' := Next(s, step);
    if AllLeaving(s, hung) {
      PushToLeaving(s, hung, step.items);
      if w :| w in step.created {
        assert w in s'.pcs && s'.pcs[w] == Starting && w !in hung;
      }
    } else {
      var w :| w in s.pcs && w !in hung && s.pcs[w] != Leaving;
      assert w in s'.pcs && s'.pcs[w] != Leaving;
    }
  }

  lemma ServedAfterResume(s: State, hung: set<Tid>, step: Step)
    requires Served(s, hung) && Inside(s, hung) && Enabled(s, step) && step.Resume? && !Strands(s, hung, step)
    ensures Served(Next(s, step), hung)
  {
    var s', w := Next(s, step), step.w;
    if s.sh.tasks != [] && !s.sh.shouldExit {
      if step.timedOut {
        var v :| v in s.pcs && v != w && v !in hung && s.pcs[v] != Leaving;
        assert v in s'.pcs && s'.pcs[v] != Leaving;
      } else {
        assert w in s'.pcs && w !in hung && s'.pcs[w] != Leaving;
      }
    }
  }

  lemma ServedAfterOther(s: State, hung: set<Tid>, step: Step)
    requires Served(s, hung) && Enabled(s, step) && !step.Push? && !step.Resume?
    ensures Served(Next(s, step), hung)
  {
    var s' := Next(s, step);
    if s.sh.tasks != [] && !s'.sh.shouldExit {
      var w :| w in s.pcs && w !in hung && s.pcs[w] != Leaving;
      assert w in s'.pcs && s'.pcs[w] != Leaving;
    }
  }

  /** "Every queued task has a worker that will take it" is kept by a step if and only if
      the step is not one of those two. */
  lemma ServedKeptExactly(s: State, hung: set<Tid>, step: Step)
    requires Accounting(s) && Inside(s, hung) && Served(s, hung) && Enabled(s, step)
    ensures Served(Next(s, step), hung) <==> !Strands(s, hung, step)
  {
    if step.Push? {
      PushServesExactly(s, hung, step);
    } else if step.Resume? {
      if !Strands(s, hung, step) { ServedAfterResume(s, hung, step); }
    } else {
      ServedAfterOther(s, hung, step);
    }
  }

  ghost predicate NeverStrands(states: seq<State>, steps: seq<Step>, hung: set<Tid>) {
    |steps| < |states| && forall i | 0 <= i < |steps| :: !Strands(states[i], hung, steps[i]) && !Ends(steps[i], hung)
  }

  lemma Accounted(s: State)
    requires Inv(s)
    ensures Accounting(s)
  {
  }

  /** Over a run, timeouts included, without a stranding step. */
  lemma {:induction false} ServedAlways(states: seq<State>, steps: seq<Step>, hung: set<Tid>, i: nat)
    requires IsRun(states, steps) && Inv(states[0]) && Inside(states[0], hung) && Served(states[0], hung)
    requires NeverStrands(states, steps, hung) && i < |states|
    ensures Inv(states[i]) && Inside(states[i], hung) && Served(states[i], hung)
  {
    hide Strands, Served, Inside, Ends, Next, Enabled, Inv;
    if i > 0 {
      ServedAlways(states, steps, hung, i - 1);
      var s, step := states[i - 1], steps[i - 1];
      Accounted(s);
      InvStep(s, step);
      InsideStays(s, hung, step);
      ServedKeptExactly(s, hung, step);
    }
  }

  ghost predicate NoTimeouts(steps: seq<Step>) {
    forall i | 0 <= i < |steps| :: !TimesOut(steps[i])
  }

  ghost predicate NobodyLeaves(s: State) {
    !s.sh.shouldExit ==> forall w | w in s.pcs :: s.pcs[w] != Leaving
  }

  lemma NobodyLeavesAfterPush(s: State, step: Step)
    requires NobodyLeaves(s) && Enabled(s, step) && step.Push?
    ensures NobodyLeaves(Next(s, step))
  {
    hide ThreadsToCreate;
  }

  lemma NobodyLeavesAfterOther(s: State, step: Step)
    requires NobodyLeaves(s) && Enabled(s, step) && !step.Push?
    requires !TimesOut(step)
    ensures NobodyLeaves(Next(s, step))
  {
    hide AfterTake, CanWake;
    var s' := Next(s, step);
    if !s'.sh.shouldExit {
      assert !s.sh.shouldExit;
    }
  }

  lemma NobodyLeavesStep(s: State, step: Step)
    requires NobodyLeaves(s) && Enabled(s, step) && !TimesOut(step)
    ensures NobodyLeaves(Next(s, step))
  {
    hide NobodyLeaves, Enabled, Next;
    if step.Push? { NobodyLeavesAfterPush(s, step); } else { NobodyLeavesAfterOther(s, step); }
  }

  /** Without timeouts nothing is stranded, unless closures hang on every thread allowed. */
  lemma StrandsNothing(s: State, hung: set<Tid>, step: Step)
    requires Accounting(s) && Inside(s, hung) && |hung| < s.maxThreads
    requires NobodyLeaves(s) && Enabled(s, step) && !TimesOut(step)
    ensures !Strands(s, hung, step)
  {
    hide Count;
    if Strands(s, hung, step) {
      assert s.sh.threads <= hung;
      Subset(s.sh.threads, hung);
    }
  }

  ghost predicate NothingStranded(s: State) {
    Inv(s) && NobodyLeaves(s) && Served(s, {})
  }

  lemma NothingStrandedStep(s: State, step: Step)
    requires NothingStranded(s) && Enabled(s, step)
    requires !TimesOut(step)
    ensures NothingStranded(Next(s, step))
  {
    InvStep(s, step);
    NobodyLeavesStep(s, step);
    StrandsNothing(s, {}, step);
    ServedKeptExactly(s, {}, step);
  }

  /** Without timeouts no work wakeup is lost: queued work has a live worker, and (part of
      `Inv`) if any worker sleeps meanwhile, another one or a pusher is due to notify. */
  lemma {:induction false} NoLostWakeup(states: seq<State>, steps: seq<Step>, i: nat)
    requires IsRun(states, steps) && Init(states[0]) && i < |states| && NoTimeouts(steps)
    ensures NothingStranded(states[i])
  {
    if i == 0 {
      InitInv(states[0]);
    } else {
      NoLostWakeup(states, steps, i - 1);
      NothingStrandedStep(states[i - 1], steps[i - 1]);
    }
  }

  /** States of the run below: one thread allowed, at most one alive, pusher 100. */
  function Lone(tasks: seq<IterationItem>, worker: seq<WorkerPc>, owing: set<Tid>,
                pushed: seq<IterationItem>, log: seq<Task>): State {
    var waiting := if worker != [] && IsWaiting(worker[0]) then 1 else 0;
    State(Shared(tasks, if worker == [] then {} else {1}, waiting, false), 1,
          if worker == [] then map[] else map[1 := worker[0]], owing, NotCalled, pushed, log)
  }

  lemma LoneFirstPush(task: Task)
    ensures var s, step := Lone([], [], {}, [], []), Push(100, [IterationItem(task, 0)], {1});
            Enabled(s, step) &&
            Next(s, step) == Lone([IterationItem(task, 0)], [Starting], {100}, [IterationItem(task, 0)], [])
  {
    OneItem(IterationItem(task, 0));
    assert map[] + Started({1}) == map[1 := Starting];
    assert {} + {1} == {1};
    assert {} + {100} == {100};
  }

  lemma LoneLatePush(task: Task, pushed: seq<IterationItem>, log: seq<Task>)
    ensures var s, step := Lone([], [Woken], {}, pushed, log), Push(100, [IterationItem(task, 0)], {});
            Enabled(s, step) &&
            Next(s, step) == Lone([IterationItem(task, 0)], [Woken], {100}, pushed + [IterationItem(task, 0)], log)
  {
    OneItem(IterationItem(task, 0));
    var s := Lone([], [Woken], {}, pushed, log);
    assert |s.sh.threads| == 1;
    assert ThreadsToCreate(s.sh, [IterationItem(task, 0)], s.maxThreads) == 0;
    assert s.pcs + Started({}) == s.pcs;
    assert s.sh.threads + {} == s.sh.threads;
    assert {} + {100} == {100};
  }

  lemma LoneNotify(tasks: seq<IterationItem>, pc: WorkerPc, pushed: seq<IterationItem>, log: seq<Task>)
    requires pc != Asleep
    ensures var s, step := Lone(tasks, [pc], {100}, pushed, log), PushNotify(100, Nobody);
            Enabled(s, step) && Next(s, step) == Lone(tasks, [pc], {}, pushed, log)
  {
    assert {100} - {100} == {};
  }

  lemma LoneWorker(task: Task, pushed: seq<IterationItem>, log: seq<Task>)
    ensures var s := Lone([IterationItem(task, 0)], [Starting], {}, pushed, log);
            Enabled(s, Enter(1)) && Next(s, Enter(1)) == Lone([], [Running(task)], {}, pushed, log + [task])
    ensures var s := Lone([], [Running(task)], {}, pushed, log);
            Enabled(s, Finish(1)) && Next(s, Finish(1)) == Lone([], [Starting], {}, pushed, log)
    ensures var s := Lone([], [Starting], {}, pushed, log);
            Enabled(s, Enter(1)) && Next(s, Enter(1)) == Lone([], [Asleep], {}, pushed, log)
    ensures var s := Lone([], [Asleep], {}, pushed, log);
            Enabled(s, Unblock(1)) && Next(s, Unblock(1)) == Lone([], [Woken], {}, pushed, log)
  {
    assert forall a: WorkerPc, b: WorkerPc :: map[1 := a][1 := b] == map[1 := b];
  }

  lemma LoneLeaves(tasks: seq<IterationItem>, pushed: seq<IterationItem>, log: seq<Task>)
    ensures var s := Lone(tasks, [Woken], {}, pushed, log);
            Enabled(s, Resume(1, true)) && Next(s, Resume(1, true)) == Lone(tasks, [Leaving], {}, pushed, log)
    ensures var s := Lone(tasks, [Leaving], {}, pushed, log);
            Enabled(s, Erase(1, Nobody)) && Next(s, Erase(1, Nobody)) == Lone(tasks, [], {}, pushed, log)
  {
    assert map[1 := Woken][1 := Leaving] == map[1 := Leaving];
    assert map[1 := Leaving] - {1} == map[];
    assert {1} - {1} == {};
  }

  lemma Extend(states: seq<State>, steps: seq<Step>, step: Step) returns (states': seq<State>, steps': seq<Step>)
    requires IsRun(states, steps) && Enabled(states[|steps|], step)
    ensures steps' == steps + [step] && states' == states + [Next(states[|steps|], step)]
    ensures IsRun(states', steps') && states'[0] == states[0]
    ensures states'[|steps'|] == Next(states[|steps|], step)
  {
    states', steps' := states + [Next(states[|steps|], step)], steps + [step];
  }

  /** A run that strands a task: with one thread allowed, the only worker's wait times out
      just as the second task is pushed. */
  lemma StrandedTask() returns (states: seq<State>, steps: seq<Step>)
    ensures IsRun(states, steps) && Init(states[0])
    ensures states[|steps|].sh.tasks != [] && !states[|steps|].sh.shouldExit
    ensures states[|steps|].pcs == map[] && states[|steps|].owing == {}
  {
    var a, b := [IterationItem(7, 0)], [IterationItem(7, 0)] + [IterationItem(8, 0)];
    states, steps := [Lone([], [], {}, [], [])], [];
    LoneFirstPush(7);
    states, steps := Extend(states, steps, Push(100, [IterationItem(7, 0)], {1}));
    LoneNotify(a, Starting, a, []);
    states, steps := Extend(states, steps, PushNotify(100, Nobody));
    LoneWorker(7, a, []);
    states, steps := Extend(states, steps, Enter(1));
    LoneWorker(7, a, [] + [7]);
    states, steps := Extend(states, steps, Finish(1));
    states, steps := Extend(states, steps, Enter(1));
    states, steps := Extend(states, steps, Unblock(1));
    LoneLatePush(8, a, [] + [7]);
    states, steps := Extend(states, steps, Push(100, [IterationItem(8, 0)], {}));
    LoneNotify([IterationItem(8, 0)], Woken, b, [] + [7]);
    states, steps := Extend(states, steps, PushNotify(100, Nobody));
    LoneLeaves([IterationItem(8, 0)], b, [] + [7]);
    states, steps := Extend(states, steps, Resume(1, true));
    states, steps := Extend(states, steps, Erase(1, Nobody));
  }
}
