/** The worker pool of `ThreadPoolTaskRunner::DelayedTaskRunner` as a state machine.

    Every region of code that holds `thread_mutex_` is one atomic step; so is each call
    of `notify_one` made without the mutex.  Which sleeper a `notify_one` wakes, when a
    sleeper wakes by itself, whether a wait reports a timeout and how the threads
    interleave are all left open, so a statement about every run covers every schedule. */
module ThreadPool {
  import opened Collections
  import opened Tasks

  /** The fields of the runner, all guarded by the mutex. */
  datatype Shared = Shared(
    tasks: seq<IterationItem>,
    threads: set<Tid>,
    waiting: int,
    shouldExit: bool
  )

  datatype WorkerPc =
    | Starting               // about to lock the mutex at the top of the loop
    | Asleep                 // blocked in wait_for
    | Woken                  // wait_for is over, the mutex is not yet locked again
    | Notifying(task: Task)  // took an invocation, saw more work, owes a notify_one
    | Running(task: Task)    // calls the closure
    | Leaving                // left the loop, about to lock the mutex to erase itself

  datatype DtorPc = NotCalled | Sleeping | Awake | Returned

  /** `pushed` and `log` are history: everything ever queued and every invocation taken. */
  datatype State = State(
    sh: Shared,
    maxThreads: int,
    pcs: map<Tid, WorkerPc>,
    owing: set<Tid>,         // pushers between releasing the mutex and notify_one
    dtor: DtorPc,
    pushed: seq<IterationItem>,
    log: seq<Task>
  )

  /** The thread a `notify_one` wakes. */
  datatype Wake = Nobody | Worker(w: Tid) | Destructor

  datatype Step =
    | Push(p: Tid, items: seq<IterationItem>, created: set<Tid>)
    | PushNotify(p: Tid, wake: Wake)
    | Enter(w: Tid)
    | Unblock(w: Tid)
    | Resume(w: Tid, timedOut: bool)
    | TakeNotify(w: Tid, wake: Wake)
    | Finish(w: Tid)
    | Erase(w: Tid, wake: Wake)
    | Destroy(wake: Wake)
    | UnblockDtor

  // ----- the regions under the mutex -----

  function Min(a: int, b: int): int { if a < b then a else b }

  /** How many threads a push of `items` creates. */
  function ThreadsToCreate(sh: Shared, items: seq<IterationItem>, maxThreads: int): int {
    var limit := Min(TotalInvocations(items), maxThreads - |sh.threads|);
    limit - Min(limit, sh.waiting)
  }

  function PushRegion(sh: Shared, items: seq<IterationItem>, created: set<Tid>): Shared {
    sh.(tasks := sh.tasks + items, threads := sh.threads + created)
  }

  /** From the loop test on: sleep, leave, or take one invocation of the front item. */
  function EnterRegion(sh: Shared): (Shared, WorkerPc) {
    if sh.tasks == [] && !sh.shouldExit then
      (sh.(waiting := sh.waiting + 1), Asleep)
    else if sh.shouldExit then
      (sh, Leaving)
    else
      var rest := AfterTake(sh.tasks);
      (sh.(tasks := rest), if rest != [] then Notifying(sh.tasks[0].task) else Running(sh.tasks[0].task))
  }

  function ResumeRegion(sh: Shared, timedOut: bool): (Shared, WorkerPc) {
    var awake := sh.(waiting := sh.waiting - 1);
    if timedOut then (awake, Leaving) else EnterRegion(awake)
  }

  function EraseRegion(sh: Shared, w: Tid): Shared {
    sh.(threads := sh.threads - {w})
  }

  // ----- steps -----

  ghost predicate CanWake(s: State, wake: Wake) {
    match wake
    case Nobody => s.dtor != Sleeping && forall w | w in s.pcs :: s.pcs[w] != Asleep
    case Worker(w) => w in s.pcs && s.pcs[w] == Asleep
    case Destructor => s.dtor == Sleeping
  }

  function WakeUp(s: State, wake: Wake): State {
    match wake
    case Nobody => s
    case Worker(w) => s.(pcs := s.pcs[w := Woken])
    case Destructor => s.(dtor := Awake)
  }

  ghost predicate At(s: State, w: Tid, pc: WorkerPc) {
    w in s.pcs && s.pcs[w] == pc
  }

  ghost predicate Enabled(s: State, step: Step) {
    match step
    case Push(p, items, created) =>
      && s.dtor != Returned
      && items != []
      && p !in s.owing
      && (p in s.pcs ==> s.pcs[p].Running?)
      && created !! s.pcs.Keys + s.owing + {p}
      && |created| == ThreadsToCreate(s.sh, items, s.maxThreads)
    case PushNotify(p, wake) => p in s.owing && CanWake(s, wake)
    case Enter(w) => At(s, w, Starting)
    case Unblock(w) => At(s, w, Asleep)
    case Resume(w, timedOut) => At(s, w, Woken)
    case TakeNotify(w, wake) => w in s.pcs && s.pcs[w].Notifying? && CanWake(s, wake)
    case Finish(w) => w in s.pcs && s.pcs[w].Running? && w !in s.owing
    case Erase(w, wake) => At(s, w, Leaving) && CanWake(s, wake)
    case Destroy(wake) =>
      && (s.dtor == NotCalled || s.dtor == Awake)
      && (if s.sh.threads == {} then wake == Nobody else CanWake(s, wake))
    case UnblockDtor => s.dtor == Sleeping
  }

  function Started(created: set<Tid>): map<Tid, WorkerPc> {
    map w | w in created :: Starting
  }

  /** Installs what a locked region of worker `w` computed, recording a taken invocation. */
  function Locked(s: State, w: Tid, r: (Shared, WorkerPc)): State {
    s.(sh := r.0, pcs := s.pcs[w := r.1],
    log := if r.1.Notifying? || r.1.Running? then s.log + [r.1.task] else s.log)
  }

  function Next(s: State, step: Step): State
    requires Enabled(s, step)
  {
    match step
    case Push(p, items, created) =>
      s.(sh := PushRegion(s.sh, items, created),
         pcs := s.pcs + Started(created),
         owing := s.owing + {p},
         pushed := s.pushed + items)
    case PushNotify(p, wake) => WakeUp(s.(owing := s.owing - {p}), wake)
    case Enter(w) => Locked(s, w, EnterRegion(s.sh))
    case Unblock(w) => s.(pcs := s.pcs[w := Woken])
    case Resume(w, timedOut) => Locked(s, w, ResumeRegion(s.sh, timedOut))
    case TakeNotify(w, wake) => WakeUp(s.(pcs := s.pcs[w := Running(s.pcs[w].task)]), wake)
    case Finish(w) => s.(pcs := s.pcs[w := Starting])
    case Erase(w, wake) => WakeUp(s.(sh := EraseRegion(s.sh, w), pcs := s.pcs - {w}), wake)
    case Destroy(wake) =>
      var exiting := s.(sh := s.sh.(shouldExit := true));
      if s.sh.threads == {} then exiting.(dtor := Returned)
      else WakeUp(exiting, wake).(dtor := Sleeping)
    case UnblockDtor => s.(dtor := Awake)
  }

  ghost predicate Init(s: State) {
    && s.sh == Shared([], {}, 0, false)
    && s.maxThreads > 0
    && s.pcs == map[] && s.owing == {} && s.dtor == NotCalled
    && s.pushed == [] && s.log == []
  }

  // ----- runs -----

  ghost predicate IsRun(states: seq<State>, steps: seq<Step>) {
    && |states| == |steps| + 1
    && forall i | 0 <= i < |steps| :: Enabled(states[i], steps[i]) && states[i + 1] == Next(states[i], steps[i])
  }

  // ----- what every reachable state satisfies -----

  predicate IsWaiting(pc: WorkerPc) { pc == Asleep || pc == Woken }

  /** Thread accounting. */
  ghost predicate Accounting(s: State) {
    && s.sh.threads == s.pcs.Keys
    && |s.sh.threads| <= s.maxThreads
    && s.maxThreads > 0
    && s.sh.waiting == Count(s.pcs, IsWaiting)
    && (s.sh.shouldExit <==> s.dtor != NotCalled)
    && (s.dtor == Returned ==> s.pcs == map[])
  }

  /** Exactly once, in order: what was taken and what is queued make up what was pushed. */
  ghost predicate Conservation(s: State) {
    s.log + Expand(s.sh.tasks) == Expand(s.pushed)
  }

  /** A sleeping destructor can count on some live worker that is not asleep. */
  ghost predicate DtorWillBeWoken(s: State) {
    s.dtor == Sleeping ==> exists w | w in s.pcs :: s.pcs[w] != Asleep
  }

  /** A worker that will look at the queue, or call notify_one, before it can sleep. */
  predicate Committed(pc: WorkerPc) {
    pc.Starting? || pc.Woken? || pc.Notifying? || pc.Leaving?
  }

  /** While work is queued, a worker sleeps only if somebody is still due to wake one. */
  ghost predicate SleepersWillBeWoken(s: State) {
    s.sh.tasks != [] && !s.sh.shouldExit && (exists w | w in s.pcs :: s.pcs[w] == Asleep) ==>
      s.owing != {} || exists w | w in s.pcs :: Committed(s.pcs[w])
  }

  ghost predicate Inv(s: State) {
    Accounting(s) && Conservation(s) && DtorWillBeWoken(s) && SleepersWillBeWoken(s)
  }

  lemma InitInv(s: State)
    requires Init(s)
    ensures Inv(s)
  {
    assert In(s.pcs, IsWaiting) == {};
  }

  /** The limit and the waiting count never make the unsigned arithmetic of a push wrap around. */
  lemma PushNeverWraps(s: State, items: seq<IterationItem>)
    requires Accounting(s) && items != []
    ensures 0 <= s.sh.waiting <= |s.sh.threads| <= s.maxThreads
    ensures 0 <= ThreadsToCreate(s.sh, items, s.maxThreads) <= s.maxThreads - |s.sh.threads|
    ensures s.sh.threads == {} ==> ThreadsToCreate(s.sh, items, s.maxThreads) > 0
  {
    Subset(In(s.pcs, IsWaiting), s.pcs.Keys);
  }

  /** What a push creates, with the workers in their wait: a worker for each invocation pushed,
      as far as the limit goes, and no thread beyond that. */
  lemma PushSize(s: State, step: Step)
    requires Accounting(s) && Enabled(s, step) && step.Push?
    ensures var n, free := |Expand(step.items)|, s.maxThreads - |s.sh.threads|;
            var wanted := if n <= free then n else free;
            && |step.created| + s.sh.waiting >= wanted
            && (step.created != {} ==> |step.created| + s.sh.waiting == wanted)
  {
    PushNeverWraps(s, step.items);
    ExpandLength(step.items);
  }

  lemma LockedAccounting(s: State, w: Tid, sh: Shared, pc: WorkerPc)
    requires Accounting(s) && w in s.pcs
    requires sh.threads == s.sh.threads && sh.shouldExit == s.sh.shouldExit
    requires sh.waiting == s.sh.waiting + (if IsWaiting(pc) then 1 else 0) - (if IsWaiting(s.pcs[w]) then 1 else 0)
    ensures Accounting(Locked(s, w, (sh, pc)))
  {
    CountMove(s.pcs, w, pc, IsWaiting);
    assert s.pcs[w := pc].Keys == s.pcs.Keys;
  }

  lemma MovedAccounting(s: State, w: Tid, pc: WorkerPc)
    requires Accounting(s) && w in s.pcs && IsWaiting(s.pcs[w]) == IsWaiting(pc)
    ensures Accounting(s.(pcs := s.pcs[w := pc]))
  {
    CountMove(s.pcs, w, pc, IsWaiting);
    assert s.pcs[w := pc].Keys == s.pcs.Keys;
  }

  lemma StartedAreNotWaiting(pcs: map<Tid, WorkerPc>, created: set<Tid>)
    requires created !! pcs.Keys
    ensures (pcs + Started(created)).Keys == pcs.Keys + created
    ensures Count(pcs + Started(created), IsWaiting) == Count(pcs, IsWaiting)
  {
    assert In(pcs + Started(created), IsWaiting) == In(pcs, IsWaiting);
  }

  lemma CreatedAccounting(s: State, items: seq<IterationItem>, created: set<Tid>)
    requires Accounting(s) && s.dtor != Returned
    requires created !! s.pcs.Keys && |created| <= s.maxThreads - |s.sh.threads|
    ensures Accounting(s.(sh := PushRegion(s.sh, items, created), pcs := s.pcs + Started(created)))
  {
    var pcs := s.pcs + Started(created);
    StartedAreNotWaiting(s.pcs, created);
    assert |s.sh.threads + created| == |s.sh.threads| + |created|;
  }

  /** An exiting worker finds itself in the map. */
  lemma EraseAccounting(s: State, w: Tid)
    requires Accounting(s) && At(s, w, Leaving)
    ensures w in s.sh.threads
    ensures Accounting(s.(sh := EraseRegion(s.sh, w), pcs := s.pcs - {w}))
  {
    CountRemove(s.pcs, w, IsWaiting);
    assert (s.pcs - {w}).Keys == s.pcs.Keys - {w};
    Subset(s.sh.threads - {w}, s.sh.threads);
  }

  lemma WakeAccounting(s: State, wake: Wake)
    requires Accounting(s) && CanWake(s, wake)
    ensures Accounting(WakeUp(s, wake))
  {
    if wake.Worker? {
      MovedAccounting(s, wake.w, Woken);
    }
  }

  lemma AccountingStep(s: State, step: Step)
    requires Accounting(s) && Enabled(s, step)
    ensures Accounting(Next(s, step))
  {
    match step
    case Push(_, items, created) =>
      PushNeverWraps(s, items);
      CreatedAccounting(s, items, created);
    case Enter(w) =>
      var r := EnterRegion(s.sh);
      LockedAccounting(s, w, r.0, r.1);
    case Resume(w, timedOut) =>
      var r := ResumeRegion(s.sh, timedOut);
      LockedAccounting(s, w, r.0, r.1);
    case PushNotify(p, wake) => WakeAccounting(s.(owing := s.owing - {p}), wake);
    case Unblock(w) => MovedAccounting(s, w, Woken);
    case TakeNotify(w, wake) =>
      var pc := Running(s.pcs[w].task);
      MovedAccounting(s, w, pc);
      WakeAccounting(s.(pcs := s.pcs[w := pc]), wake);
    case Finish(w) => MovedAccounting(s, w, Starting);
    case Erase(w, wake) =>
      EraseAccounting(s, w);
      WakeAccounting(s.(sh := EraseRegion(s.sh, w), pcs := s.pcs - {w}), wake);
    case Destroy(wake) =>
      if s.sh.threads != {} && wake.Worker? {
        MovedAccounting(s, wake.w, Woken);
      }
    case UnblockDtor =>
  }

  lemma TakeConserves(log: seq<Task>, tasks: seq<IterationItem>)
    requires tasks != []
    ensures log + Expand(tasks) == log + [tasks[0].task] + Expand(AfterTake(tasks))
  {
    ExpandAfterTake(tasks);
    Assoc(log, [tasks[0].task], Expand(AfterTake(tasks)));
  }

  lemma PushConserves(log: seq<Task>, tasks: seq<IterationItem>, pushed: seq<IterationItem>, items: seq<IterationItem>)
    requires log + Expand(tasks) == Expand(pushed)
    ensures log + Expand(tasks + items) == Expand(pushed + items)
  {
    ExpandConcat(tasks, items);
    ExpandConcat(pushed, items);
    Assoc(log, Expand(tasks), Expand(items));
  }

  lemma ConservationStep(s: State, step: Step)
    requires Conservation(s) && Enabled(s, step)
    ensures Conservation(Next(s, step))
  {
    hide Expand, AfterTake;
    if step.Push? {
      PushConserves(s.log, s.sh.tasks, s.pushed, step.items);
    } else if step.Enter? || step.Resume? {
      if s.sh.tasks != [] {
        TakeConserves(s.log, s.sh.tasks);
      }
    }
  }

  lemma DestroyLeavesOneAwake(s: State, wake: Wake)
    requires Accounting(s) && Enabled(s, Destroy(wake))
    ensures DtorWillBeWoken(Next(s, Destroy(wake)))
  {
    if t :| t in s.sh.threads {
      var w, s' := if wake.Worker? then wake.w else t, Next(s, Destroy(wake));
      assert w in s'.pcs && s'.pcs[w] != Asleep;
    }
  }

  lemma EraseWakesAnother(s: State, w: Tid, wake: Wake)
    requires Enabled(s, Erase(w, wake))
    ensures DtorWillBeWoken(Next(s, Erase(w, wake)))
  {
    var s' := Next(s, Erase(w, wake));
    if s'.dtor == Sleeping {
      assert wake.Worker? && s'.pcs[wake.w] == Woken;
    }
  }

  /** While the destructor sleeps the exit flag is set, so nobody goes to sleep. */
  lemma AwakeStays(s: State, step: Step, w: Tid)
    requires Accounting(s) && Enabled(s, step) && !step.Destroy? && !step.Erase?
    requires s.dtor == Sleeping && w in s.pcs && s.pcs[w] != Asleep
    ensures w in Next(s, step).pcs && Next(s, step).pcs[w] != Asleep
  {
    hide ThreadsToCreate, Count;
  }

  lemma DtorWillBeWokenStep(s: State, step: Step)
    requires Accounting(s) && DtorWillBeWoken(s) && Enabled(s, step)
    ensures DtorWillBeWoken(Next(s, step))
  {
    match step
    case Destroy(wake) => DestroyLeavesOneAwake(s, wake);
    case Erase(w, wake) => EraseWakesAnother(s, w, wake);
    case _ =>
      if s.dtor == Sleeping {
        var w :| w in s.pcs && s.pcs[w] != Asleep;
        AwakeStays(s, step, w);
      }
  }

  lemma SleepersWillBeWokenStep(s: State, step: Step)
    requires Accounting(s) && SleepersWillBeWoken(s) && Enabled(s, step)
    ensures SleepersWillBeWoken(Next(s, step))
  {
    var s' := Next(s, step);
    if s'.sh.tasks != [] && !s'.sh.shouldExit && exists w | w in s'.pcs :: s'.pcs[w] == Asleep {
      match step
      case Push(p, _, _) => assert p in s'.owing;
      case PushNotify(_, wake) => assert wake.Worker? && s'.pcs[wake.w] == Woken;
      case TakeNotify(_, wake) => assert wake.Worker? && s'.pcs[wake.w] == Woken;
      case Erase(_, wake) => assert wake.Worker? && s'.pcs[wake.w] == Woken;
      case Enter(w) => assert Committed(s'.pcs[w]);
      case Resume(w, _) => assert Committed(s'.pcs[w]);
      case Unblock(w) => assert Committed(s'.pcs[w]);
      case Finish(w) => assert Committed(s'.pcs[w]);
      case _ =>
    }
  }

  lemma InvStep(s: State, step: Step)
    requires Inv(s) && Enabled(s, step)
    ensures Inv(Next(s, step))
  {
    AccountingStep(s, step);
    ConservationStep(s, step);
    DtorWillBeWokenStep(s, step);
    SleepersWillBeWokenStep(s, step);
  }

  /** Every state of every run, whatever the schedule, timeouts and spurious wakeups. */
  lemma {:induction false} InvAlways(states: seq<State>, steps: seq<Step>, i: nat)
    requires IsRun(states, steps) && Init(states[0]) && i < |states|
    ensures Inv(states[i])
  {
    if i == 0 {
      InitInv(states[0]);
    } else {
      InvAlways(states, steps, i - 1);
      InvStep(states[i - 1], steps[i - 1]);
    }
  }

  // ----- who takes what -----

  /** A step takes the oldest invocation queued if and only if it is a worker's look at a queue
      that is not empty, its wait not having timed out, before the destructor has begun. */
  lemma TakesExactly(s: State, step: Step)
    requires Accounting(s) && Enabled(s, step)
    ensures var s' := Next(s, step);
            if (step.Enter? || (step.Resume? && !step.timedOut)) && s.sh.tasks != [] && s.dtor == NotCalled then
              Expand(s.sh.tasks) != [] && s'.log == s.log + [Expand(s.sh.tasks)[0]]
            else s'.log == s.log
  {
    hide CanWake, ThreadsToCreate, Expand, AfterTake;
    if s.sh.tasks != [] {
      ExpandAfterTake(s.sh.tasks);
    }
  }

  lemma ShutdownTakesNothing(s: State, step: Step)
    requires Accounting(s) && Enabled(s, step) && s.dtor != NotCalled
    ensures Next(s, step).dtor != NotCalled && Next(s, step).log == s.log
  {
    TakesExactly(s, step);
  }

  /** What is queued when the destructor begins is never taken. */
  lemma {:induction false} NothingTakenInShutdown(states: seq<State>, steps: seq<Step>, i: nat, j: nat)
    requires IsRun(states, steps) && Init(states[0]) && i <= j < |states| && states[i].dtor != NotCalled
    ensures states[j].dtor != NotCalled && states[j].log == states[i].log
  {
    hide Enabled, Next, Init, Accounting, Conservation, DtorWillBeWoken, SleepersWillBeWoken;
    if i < j {
      NothingTakenInShutdown(states, steps, i, j - 1);
      InvAlways(states, steps, j - 1);
      ShutdownTakesNothing(states[j - 1], steps[j - 1]);
    }
  }
}
