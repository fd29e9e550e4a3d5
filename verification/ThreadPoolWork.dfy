/** The pool gets its work done: in every run it makes only so many steps besides pushes, spurious
    wakeups and timeouts, and a living pool that can go no further has run everything pushed,
    unless a step has stranded it. */
module ThreadPoolWork {
  import opened Tasks
  import opened ThreadPool
  import opened ThreadPoolProgress

  function WorkRank(pc: WorkerPc): nat {
    match pc
    case Asleep => 0
    case Starting => 1
    case Woken => 1
    case Leaving => 2
    case Running(_) => 2
    case Notifying(_) => 4
  }

  /** What a living pool has to do: for what is queued, for the workers that are awake and for
      the notifications owed. */
  ghost function Work(s: State): nat {
    4 * TotalInvocations(s.sh.tasks) + Sum(s.pcs, WorkRank) + 2 * |s.owing|
  }

  /** An upper bound on the steps to come, a shutdown included. */
  ghost function Total(s: State): nat {
    if s.sh.shouldExit then Measure(s) else Work(s) + 6 * (if s.maxThreads > 0 then s.maxThreads else 0)
  }

  /** What a push, a spurious wakeup or a timeout adds to it. */
  function Added(step: Step): nat {
    match step
    case Push(_, items, created) => 4 * TotalInvocations(items) + 3 * |created| + 2
    case Unblock(_) => 1
    case UnblockDtor => 1
    case Resume(_, timedOut) => if timedOut then 1 else 0
    case _ => 0
  }

  lemma WakeAdds(s: State, wake: Wake)
    requires CanWake(s, wake)
    ensures Work(WakeUp(s, wake)) <= Work(s) + 1
  {
    if wake.Worker? { SumMove(s.pcs, wake.w, Woken, WorkRank); }
  }

  lemma OneFewer(tasks: seq<IterationItem>)
    requires tasks != []
    ensures TotalInvocations(AfterTake(tasks)) == TotalInvocations(tasks) - 1
  {
    ExpandAfterTake(tasks);
    ExpandLength(tasks);
    ExpandLength(AfterTake(tasks));
  }

  lemma StartedOneMore(pcs: map<Tid, WorkerPc>, others: set<Tid>, t: Tid)
    requires t !in others && t !in pcs
    ensures pcs + Started(others + {t}) == (pcs + Started(others))[t := Starting]
    ensures t !in pcs + Started(others)
  {
  }

  lemma Distribute(a: nat, k: nat)
    ensures (a + 1) * k == a * k + k
  {
  }

  lemma {:induction false} StartedSum(pcs: map<Tid, WorkerPc>, created: set<Tid>,
                                      rank: WorkerPc -> nat, k: nat)
    requires created !! pcs.Keys && rank(Starting) == k
    ensures Sum(pcs + Started(created), rank) == Sum(pcs, rank) + |created| * k
    decreases created
  {
    if t :| t in created {
      var others := created - {t};
      StartedSum(pcs, others, rank, k);
      hide Sum, Started;
      StartedOneMore(pcs, others, t);
      assert others + {t} == created;
      SumMove(pcs + Started(others), t, Starting, rank);
      Distribute(|others|, k);
    } else {
      assert pcs + Started(created) == pcs;
    }
  }

  lemma {:induction false} RanksAtMost(pcs: map<Tid, WorkerPc>)
    ensures Sum(pcs, Rank) <= 6 * |pcs|
    decreases |pcs|
  {
    if t :| t in pcs {
      SumRemove(pcs, t, Rank);
      RanksAtMost(pcs - {t});
    }
  }

  lemma PushEffect(s: State, step: Step)
    requires Enabled(s, step) && step.Push?
    ensures var s' := Next(s, step);
            && s'.sh.tasks == s.sh.tasks + step.items && s'.pcs == s.pcs + Started(step.created)
            && |s'.owing| == |s.owing| + 1 && s'.dtor == s.dtor
            && s'.sh.shouldExit == s.sh.shouldExit && s'.maxThreads == s.maxThreads
    ensures step.created !! s.pcs.Keys
  {
    hide ThreadsToCreate;
  }

  lemma PushAddsWork(s: State, step: Step)
    requires Enabled(s, step) && step.Push?
    ensures Work(Next(s, step)) == Work(s) + 4 * TotalInvocations(step.items) + |step.created| + 2
  {
    PushEffect(s, step);
    hide Next, Enabled, Sum, TotalInvocations, Started;
    StartedSum(s.pcs, step.created, WorkRank, 1);
    TotalInvocationsConcat(s.sh.tasks, step.items);
  }

  lemma PushAddsMeasure(s: State, step: Step)
    requires Enabled(s, step) && step.Push?
    ensures Measure(Next(s, step)) == Measure(s) + 3 * |step.created| + 2
  {
    PushEffect(s, step);
    hide Next, Enabled, Sum, Started;
    StartedSum(s.pcs, step.created, Rank, 3);
  }

  lemma PushWork(s: State, step: Step)
    requires Enabled(s, step) && step.Push?
    ensures Total(Next(s, step)) <= Total(s) + Added(step)
  {
    PushEffect(s, step);
    PushAddsWork(s, step);
    PushAddsMeasure(s, step);
    hide Next, Enabled, Work, Measure, TotalInvocations;
  }

  /** A locked region of a worker about to lock uses up work, unless the pool shuts down. */
  lemma RegionWork(s: State, w: Tid, sh: Shared)
    requires w in s.pcs && WorkRank(s.pcs[w]) == 1 && !sh.shouldExit && sh.tasks == s.sh.tasks
    ensures Work(Locked(s, w, EnterRegion(sh))) < Work(s)
  {
    SumMove(s.pcs, w, EnterRegion(sh).1, WorkRank);
    if sh.tasks != [] { OneFewer(sh.tasks); }
  }

  lemma EraseWork(s: State, w: Tid, wake: Wake)
    requires Enabled(s, Erase(w, wake))
    ensures Work(Next(s, Erase(w, wake))) < Work(s)
  {
    hide Sum, TotalInvocations;
    SumRemove(s.pcs, w, WorkRank);
    WakeAdds(s.(sh := EraseRegion(s.sh, w), pcs := s.pcs - {w}), wake);
  }

  lemma TakeNotifyWork(s: State, w: Tid, wake: Wake)
    requires Enabled(s, TakeNotify(w, wake))
    ensures Work(Next(s, TakeNotify(w, wake))) < Work(s)
  {
    hide Sum, TotalInvocations;
    var pc := Running(s.pcs[w].task);
    SumMove(s.pcs, w, pc, WorkRank);
    WakeAdds(s.(pcs := s.pcs[w := pc]), wake);
  }

  lemma LivingStep(s: State, step: Step)
    requires Accounting(s) && !s.sh.shouldExit && Enabled(s, step) && !step.Push? && !step.Destroy?
    ensures if Optional(step) then Work(Next(s, step)) <= Work(s) + Added(step)
            else Work(Next(s, step)) < Work(s)
  {
    hide TotalInvocations, AfterTake, EnterRegion, Sum, WakeUp, Count;
    match step
    case PushNotify(p, wake) => WakeAdds(s.(owing := s.owing - {p}), wake);
    case Enter(w) => RegionWork(s, w, s.sh);
    case Unblock(w) => SumMove(s.pcs, w, Woken, WorkRank);
    case Resume(w, timedOut) =>
      if timedOut {
        SumMove(s.pcs, w, Leaving, WorkRank);
      } else {
        RegionWork(s, w, s.sh.(waiting := s.sh.waiting - 1));
      }
    case TakeNotify(w, wake) => TakeNotifyWork(s, w, wake);
    case Finish(w) => SumMove(s.pcs, w, Starting, WorkRank);
    case Erase(w, wake) => EraseWork(s, w, wake);
    case _ =>
  }

  lemma LivingStays(s: State, step: Step)
    requires !s.sh.shouldExit && Enabled(s, step) && !step.Destroy?
    ensures !Next(s, step).sh.shouldExit && Next(s, step).maxThreads == s.maxThreads
  {
    hide AfterTake;
  }

  /** The call of the destructor. */
  lemma DestroyWork(s: State, wake: Wake)
    requires Accounting(s) && !s.sh.shouldExit && Enabled(s, Destroy(wake))
    ensures Total(Next(s, Destroy(wake))) <= Total(s)
  {
    RanksAtMost(s.pcs);
    assert |s.pcs| == |s.pcs.Keys|;
    if s.sh.threads != {} && wake.Worker? {
      SumMove(s.pcs, wake.w, Woken, Rank);
    }
  }

  /** Every step that somebody has to make uses up work. */
  lemma WorkStep(s: State, step: Step)
    requires Accounting(s) && Enabled(s, step)
    ensures if Optional(step) then Total(Next(s, step)) <= Total(s) + Added(step)
            else Total(Next(s, step)) < Total(s)
  {
    hide Work, Measure, Next, Enabled;
    if step.Push? {
      PushWork(s, step);
    } else if s.sh.shouldExit {
      ShutdownStep(s, step);
      ShutdownStays(s, step);
    } else if step.Destroy? {
      DestroyWork(s, step.wake);
    } else {
      LivingStep(s, step);
      LivingStays(s, step);
    }
  }

  /** One for each optional step of a run, and what it adds. */
  function Allowance(steps: seq<Step>): nat {
    if steps == [] then 0
    else
      var last := steps[|steps| - 1];
      Allowance(steps[..|steps| - 1]) + Added(last) + if Optional(last) then 1 else 0
  }

  /** Every run has boundedly many steps, but for optional ones and what they add. */
  lemma {:induction false} WorkBounded(states: seq<State>, steps: seq<Step>)
    requires IsRun(states, steps) && Inv(states[0])
    ensures Inv(states[|steps|])
    ensures |steps| + Total(states[|steps|]) <= Total(states[0]) + Allowance(steps)
  {
    hide Total, Next, Enabled;
    var n := |steps|;
    if n > 0 {
      WorkBounded(states[..n], steps[..n - 1]);
      InvStep(states[n - 1], steps[n - 1]);
      WorkStep(states[n - 1], steps[n - 1]);
    }
  }

  lemma OwedNotify(s: State, t: Tid)
    requires t in s.owing
    ensures exists step :: Enabled(s, step) && !Optional(step) && !step.Finish?
  {
    var wake := SomeWake(s);
    assert Enabled(s, PushNotify(t, wake)) && !Optional(PushNotify(t, wake));
  }

  /** Nothing is left that anybody has to do, except in closures that hang. */
  ghost predicate OnlyOptional(s: State, hung: set<Tid>) {
    forall step | Enabled(s, step) :: Optional(step) || Ends(step, hung)
  }

  /** When a living, served pool has only optional steps left, and closures that hang, the queue
      is empty, every other worker sleeps, and every invocation pushed has been taken, in push
      order. */
  lemma DryWhenStopped(s: State, hung: set<Tid>)
    requires Inv(s) && Inside(s, hung) && Served(s, hung) && !s.sh.shouldExit && OnlyOptional(s, hung)
    ensures s.sh.tasks == [] && s.owing == {} && s.log == Expand(s.pushed)
    ensures forall w | w in s.pcs && w !in hung :: s.pcs[w] == Asleep
  {
    hide Enabled, Next;
    if t :| t in s.owing {
      OwedNotify(s, t);
    }
    if w :| w in s.pcs && w !in hung && s.pcs[w] != Asleep {
      var step := OwnStep(s, w);
    }
    assert forall w | w in s.pcs && w !in hung :: s.pcs[w] == Asleep;
    assert Served(s, hung) && SleepersWillBeWoken(s);
    assert s.log + [] == s.log;
  }

  /** So it is over every run without a stranding step, timeouts included. */
  lemma RunsDry(states: seq<State>, steps: seq<Step>, hung: set<Tid>)
    requires IsRun(states, steps) && Inv(states[0]) && Inside(states[0], hung) && Served(states[0], hung)
    requires NeverStrands(states, steps, hung)
    requires !states[|steps|].sh.shouldExit && OnlyOptional(states[|steps|], hung)
    ensures var s := states[|steps|];
            && s.sh.tasks == [] && s.owing == {} && s.log == Expand(s.pushed)
            && forall w | w in s.pcs && w !in hung :: s.pcs[w] == Asleep
  {
    ServedAlways(states, steps, hung, |steps|);
    DryWhenStopped(states[|steps|], hung);
  }

  /** And over every run from a new pool without timeouts. */
  lemma RunsDryWithoutTimeouts(states: seq<State>, steps: seq<Step>)
    requires IsRun(states, steps) && Init(states[0]) && NoTimeouts(steps)
    requires !states[|steps|].sh.shouldExit && OnlyOptional(states[|steps|], {})
    ensures var s := states[|steps|];
            && s.sh.tasks == [] && s.owing == {} && s.log == Expand(s.pushed)
            && forall w | w in s.pcs :: s.pcs[w] == Asleep
  {
    NoLostWakeup(states, steps, |steps|);
    DryWhenStopped(states[|steps|], {});
  }
}
