/** The service thread of `ThreadPoolTaskRunner::ServiceTaskRunner` as a state machine: it
    sleeps on a deadline heap and hands each due batch over to the worker pool.

    A region under the mutex is one atomic step and so is each `notify_one` made without it.
    The clock readings a region makes are arbitrary parameters of its step. */
module ServiceThread {
  import opened Options
  import opened Tasks
  import opened TaskHeap
  import opened ReleaseOrder

  datatype ServicePc =
    | Top                           // about to lock the mutex at the top of the loop
    | WaitingForever                // blocked in wait
    | WaitingUntil(deadline: int)   // blocked in wait_for
    | Woken                         // the wait is over, the mutex is not yet locked again
    | Scheduling(batch: seq<Item>)  // about to call PushTasks with a non-empty batch
    | Pushing                       // inside PushTasks, its notify_one still owed
    | Exited

  datatype DtorPc = NotCalled | OwesNotify | Joining | Joined

  datatype State = State(
    delayed: multiset<Item>,
    taskId: nat,
    shouldExit: bool,
    pc: ServicePc,
    owing: set<Tid>,      // pushers between releasing the mutex and notify_one
    dtor: DtorPc,
    h: History,           // every post, and every release from the heap in order
    handed: seq<Item>     // what has been handed to the pool
  )

  datatype Step =
    | Post(p: Tid, task: Task, now: int, delay: int, iterations: nat)
    | PostNotify(p: Tid)
    | Lock(now: int, now2: int, batch: seq<Item>, rest: multiset<Item>)
    | Unblock
    | Resume(now: int, batch: seq<Item>, rest: multiset<Item>)
    | HandOver
    | HandOverDone
    | DtorSet
    | DtorNotify
    | DtorJoin

  predicate IsWaiting(pc: ServicePc) { pc.WaitingForever? || pc.WaitingUntil? }

  ghost predicate IsFront(delayed: multiset<Item>, front: Item) {
    front in delayed && forall x | x in delayed :: !Less(x, front)
  }

  /** What the locked region at the top of the loop does. */
  datatype Outcome = Exit | Wait(pc: ServicePc) | Skip | Drain

  ghost predicate TopOutcome(s: State, now: int, o: Outcome) {
    if s.shouldExit then o == Exit
    else if s.delayed == multiset{} then o == Wait(WaitingForever)
    else exists front | IsFront(s.delayed, front) ::
           o == if now < front.timePoint then Wait(WaitingUntil(front.timePoint)) else Drain
  }

  /** What the locked region after a wait does. */
  function ResumeOutcome(s: State): Outcome {
    if s.shouldExit then Exit else if s.delayed == multiset{} then Skip else Drain
  }

  ghost predicate Enabled(s: State, step: Step) {
    match step
    case Post(p, _, _, delay, _) => s.dtor != Joined && p !in s.owing && delay > 0
    case PostNotify(p) => p in s.owing
    case Lock(now, now2, batch, rest) =>
      s.pc == Top && (TopOutcome(s, now, Drain) ==> IsDrain(s.delayed, now2, batch, rest))
    case Unblock => IsWaiting(s.pc)
    case Resume(now, batch, rest) =>
      s.pc == Woken && (ResumeOutcome(s) == Drain ==> IsDrain(s.delayed, now, batch, rest))
    case HandOver => s.pc.Scheduling?
    case HandOverDone => s.pc == Pushing
    case DtorSet => s.dtor == NotCalled
    case DtorNotify => s.dtor == OwesNotify
    case DtorJoin => s.dtor == Joining && s.pc == Exited
  }

  function Wake(s: State): State {
    if IsWaiting(s.pc) then s.(pc := Woken) else s
  }

  function Drained(s: State, batch: seq<Item>, rest: multiset<Item>): State {
    s.(delayed := rest, h := AfterDrain(s.h, batch), pc := if batch == [] then Top else Scheduling(batch))
  }

  function After(s: State, o: Outcome, batch: seq<Item>, rest: multiset<Item>): State {
    match o
    case Exit => s.(pc := Exited)
    case Wait(pc) => s.(pc := pc)
    case Skip => s.(pc := Top)
    case Drain => Drained(s, batch, rest)
  }

  ghost predicate Next(s: State, step: Step, s': State)
    requires Enabled(s, step)
  {
    match step
    case Post(p, task, now, delay, iterations) =>
      var item := Item(Some(task), now + delay, s.taskId, iterations);
      s' == s.(delayed := s.delayed + multiset{item}, taskId := s.taskId + 1,
               owing := s.owing + {p}, h := AfterPost(s.h, item))
    case PostNotify(p) => s' == Wake(s.(owing := s.owing - {p}))
    case Lock(now, now2, batch, rest) =>
      exists o | TopOutcome(s, now, o) ::
        s' == After(s, o, batch, rest)
    case Unblock => s' == s.(pc := Woken)
    case Resume(_, batch, rest) =>
      s' == After(s, ResumeOutcome(s), batch, rest)
    case HandOver => s' == s.(pc := Pushing, handed := s.handed + s.pc.batch)
    case HandOverDone => s' == s.(pc := Top)
    case DtorSet => s' == s.(shouldExit := true, dtor := OwesNotify)
    case DtorNotify => s' == Wake(s.(dtor := Joining))
    case DtorJoin => s' == s.(dtor := Joined)
  }

  ghost predicate Init(s: State) {
    s == State(multiset{}, 0, false, Top, {}, NotCalled, EMPTY, [])
  }

  function Batch(pc: ServicePc): seq<Item> {
    if pc.Scheduling? then pc.batch else []
  }

  /** Each posted item is in exactly one of the heap, the batch in hand and the pool, and the
      releases have followed the deadlines. */
  ghost predicate Conservation(s: State) {
    && Coherent(s.h, s.delayed)
    && s.taskId == |s.h.posted|
    && s.h.released == s.handed + Batch(s.pc)
    && (s.pc.Scheduling? ==> s.pc.batch != [])
  }

  /** The service thread never sleeps on a stale view of the heap or of the exit flag unless
      somebody is still due to notify it, and never up to a time that no task is due at. */
  ghost predicate WillBeWoken(s: State) {
    && (s.pc.WaitingForever? && s.delayed != multiset{} ==> s.owing != {} || s.dtor == OwesNotify)
    && (s.pc.WaitingUntil? && (exists x | x in s.delayed :: x.timePoint < s.pc.deadline) ==>
          s.owing != {} || s.dtor == OwesNotify)
    && (IsWaiting(s.pc) && s.shouldExit ==> s.dtor == OwesNotify)
    && (s.pc.WaitingUntil? ==> exists x | x in s.delayed :: x.timePoint == s.pc.deadline)
  }

  ghost predicate Exiting(s: State) {
    && (s.shouldExit <==> s.dtor != NotCalled)
    && (s.dtor == Joined ==> s.pc == Exited)
    && (s.pc == Exited ==> s.shouldExit)
  }

  ghost predicate Inv(s: State) {
    Conservation(s) && WillBeWoken(s) && Exiting(s)
  }

  lemma InitInv(s: State)
    requires Init(s)
    ensures Inv(s)
  {
  }

  lemma PostConserves(s: State, step: Step, s': State)
    requires Conservation(s) && Enabled(s, step) && Next(s, step, s') && step.Post?
    ensures Conservation(s')
  {
    hide Coherent;
    PostKeepsCoherent(s.h, s.delayed, Item(Some(step.task), step.now + step.delay, s.taskId, step.iterations));
  }

  lemma DrainKeepsConservation(s: State, now: int, batch: seq<Item>, rest: multiset<Item>)
    requires Conservation(s) && Batch(s.pc) == [] && IsDrain(s.delayed, now, batch, rest)
    ensures Conservation(Drained(s, batch, rest))
  {
    hide Coherent, IsDrain;
    DrainKeepsCoherent(s.h, s.delayed, now, batch, rest);
    assert s.handed + [] == s.handed;
  }

  lemma LockConserves(s: State, step: Step, s': State)
    requires Conservation(s) && Enabled(s, step) && Next(s, step, s') && step.Lock?
    ensures Conservation(s')
  {
    hide Coherent, IsDrain;
    if s'.pc != Exited && !IsWaiting(s'.pc) {
      DrainKeepsConservation(s, step.now2, step.batch, step.rest);
    }
  }

  lemma ConservationStep(s: State, step: Step, s': State)
    requires Conservation(s) && Enabled(s, step) && Next(s, step, s')
    ensures Conservation(s')
  {
    hide Coherent, IsDrain, IsFront, TopOutcome;
    match step
    case Post(_, _, _, _, _) => PostConserves(s, step, s');
    case Lock(_, _, _, _) => LockConserves(s, step, s');
    case Resume(now, batch, rest) =>
      if ResumeOutcome(s) == Drain {
        DrainKeepsConservation(s, now, batch, rest);
      }
    case _ =>
      assert s.handed + Batch(s.pc) + [] == s.handed + Batch(s.pc);
  }

  lemma ExitingStep(s: State, step: Step, s': State)
    requires Exiting(s) && Enabled(s, step) && Next(s, step, s')
    ensures Exiting(s')
  {
    hide IsDrain, IsFront;
  }

  lemma WaitBegins(s: State, step: Step, s': State)
    requires step.Lock? && Enabled(s, step) && Next(s, step, s')
    ensures WillBeWoken(s')
  {
    hide IsDrain;
    if s'.pc.WaitingUntil? {
      var front :| IsFront(s.delayed, front) && s'.pc.deadline == front.timePoint;
      assert forall x | x in s.delayed :: !(x.timePoint < front.timePoint);
    }
  }

  lemma WillBeWokenStep(s: State, step: Step, s': State)
    requires WillBeWoken(s) && Exiting(s) && Enabled(s, step) && Next(s, step, s')
    ensures WillBeWoken(s')
  {
    hide IsDrain, IsFront, TopOutcome;
    if step.Lock? {
      WaitBegins(s, step, s');
    } else if step.Post? {
      assert step.p in s'.owing;
    }
  }

  lemma InvStep(s: State, step: Step, s': State)
    requires Inv(s) && Enabled(s, step) && Next(s, step, s')
    ensures Inv(s')
  {
    ConservationStep(s, step, s');
    WillBeWokenStep(s, step, s');
    ExitingStep(s, step, s');
  }

  ghost predicate IsRun(states: seq<State>, steps: seq<Step>) {
    && |states| == |steps| + 1
    && forall i | 0 <= i < |steps| :: Enabled(states[i], steps[i]) && Next(states[i], steps[i], states[i + 1])
  }

  lemma {:induction false} InvAlways(states: seq<State>, steps: seq<Step>, i: nat)
    requires IsRun(states, steps) && Init(states[0]) && i < |states|
    ensures Inv(states[i])
  {
    if i == 0 {
      InitInv(states[0]);
    } else {
      InvAlways(states, steps, i - 1);
      InvStep(states[i - 1], steps[i - 1], states[i]);
    }
  }

  // ----- when a posted task is released -----

  lemma NotReleasedYet(s: State)
    requires Conservation(s)
    ensures forall x | x in s.h.released :: x.taskId < s.taskId
  {
    EveryItemKnown(s.h, s.delayed);
  }

  /** The first drain after a post takes the task posted exactly when its delay is over, with its
      closure and its repeat count. */
  lemma PostReleasedExactly(s: State, step: Step, s': State, now: int, batch: seq<Item>, rest: multiset<Item>)
    requires Conservation(s) && Enabled(s, step) && Next(s, step, s') && step.Post?
    requires IsDrain(s'.delayed, now, batch, rest)
    ensures (exists x | x in batch :: x.taskId == s.taskId) <==> step.now + step.delay <= now
    ensures forall x | x in batch && x.taskId == s.taskId ::
              x.task == Some(step.task) && x.iterations == step.iterations
  {
    PostConserves(s, step, s');
    NotReleasedYet(s);
    DrainedExactly(s'.h, s'.delayed, now, batch, rest, s.taskId);
    assert s'.h.posted[s.taskId].taskId == s.taskId;
  }

  /** What is posted stays on record as it was posted. */
  lemma PostedStays(s: State, step: Step, s': State, id: nat)
    requires Enabled(s, step) && Next(s, step, s') && id < |s.h.posted|
    ensures id < |s'.h.posted| && s'.h.posted[id] == s.h.posted[id]
  {
    hide IsDrain, IsFront;
  }

  lemma PostRecords(s: State, step: Step, s': State)
    requires Conservation(s) && Enabled(s, step) && Next(s, step, s') && step.Post?
    ensures |s'.h.posted| == s.taskId + 1
    ensures s'.h.posted[s.taskId] == Item(Some(step.task), step.now + step.delay, s.taskId, step.iterations)
    ensures step.p in s'.owing
  {
  }

  lemma Conserved(s: State)
    requires Inv(s)
    ensures Conservation(s)
  {
  }

  lemma {:induction false} PostOnRecord(states: seq<State>, steps: seq<Step>, i: nat, j: nat)
    requires IsRun(states, steps) && Init(states[0]) && i < |steps| && steps[i].Post? && i < j < |states|
    ensures var id := states[i].taskId;
            && id < |states[j].h.posted|
            && states[j].h.posted[id] ==
               Item(Some(steps[i].task), steps[i].now + steps[i].delay, id, steps[i].iterations)
  {
    hide Init, Enabled, Next, Inv;
    InvAlways(states, steps, i);
    Conserved(states[i]);
    if j == i + 1 {
      PostRecords(states[i], steps[i], states[j]);
    } else {
      PostOnRecord(states, steps, i, j - 1);
      PostedStays(states[j - 1], steps[j - 1], states[j], states[i].taskId);
    }
  }

  /** The time at which a region drains: of its second clock reading at the top of the loop. */
  function DrainTime(step: Step): int {
    match step
    case Lock(_, now2, _, _) => now2
    case Resume(now, _, _) => now
    case _ => 0
  }

  /** A locked region that drains releases a posted task exactly when it is due and has not
      been released; no other step releases anything. */
  lemma RegionReleases(s: State, step: Step, s': State, id: nat)
    requires Conservation(s) && Enabled(s, step) && Next(s, step, s') && id < |s.h.posted|
    ensures s'.h.released == s.h.released ||
              ((step.Lock? || step.Resume?) &&
               (s.h.posted[id] in s'.h.released <==>
                  s.h.posted[id] in s.h.released || s.h.posted[id].timePoint <= DrainTime(step)))
  {
    hide IsDrain, TopOutcome, Ordered;
    if step.Lock? || step.Resume? {
      if s'.h != s.h {
        DrainedExactly(s.h, s.delayed, DrainTime(step), step.batch, step.rest, id);
      }
    }
  }

  /** Over a whole run a task is never released before its delay is over. */
  lemma NeverEarly(states: seq<State>, steps: seq<Step>, i: nat, j: nat)
    requires IsRun(states, steps) && Init(states[0]) && i < |steps| && steps[i].Post? && i < j < |steps|
    requires var item := states[j].h.posted;
             states[i].taskId < |item| && item[states[i].taskId] !in states[j].h.released
             && item[states[i].taskId] in states[j + 1].h.released
    ensures (steps[j].Lock? || steps[j].Resume?) && steps[i].now + steps[i].delay <= DrainTime(steps[j])
  {
    hide Init, Enabled, Next, Inv;
    PostOnRecord(states, steps, i, j);
    InvAlways(states, steps, j);
    Conserved(states[j]);
    RegionReleases(states[j], steps[j], states[j + 1], states[i].taskId);
  }

  // ----- what the locked regions do, in terms of the tasks queued -----

  /** Exactly the tasks later than `now` stay queued; the thread goes on with the others if there
      are any. */
  ghost predicate Drains(s: State, now: int, s': State) {
    && (forall x :: s'.delayed[x] == if x.timePoint <= now then 0 else s.delayed[x])
    && (s'.pc.Scheduling? <==> exists x | x in s.delayed :: x.timePoint <= now)
    && (s'.pc.Scheduling? || s'.pc == Top)
  }

  lemma DrainLeaves(s: State, now: int, batch: seq<Item>, rest: multiset<Item>)
    requires IsDrain(s.delayed, now, batch, rest)
    ensures forall x :: rest[x] == if x.timePoint <= now then 0 else s.delayed[x]
    ensures batch == [] <==> forall x | x in s.delayed :: now < x.timePoint
  {
    forall x ensures rest[x] == if x.timePoint <= now then 0 else s.delayed[x] {
      assert (multiset(batch) + rest)[x] == s.delayed[x];
      if now < x.timePoint { assert x !in batch; }
    }
    if batch != [] {
      assert batch[0] in batch && batch[0] in multiset(batch) + rest;
    }
    assert forall x | x in s.delayed :: x in multiset(batch) + rest;
  }

  lemma DrainedRegion(s: State, now: int, batch: seq<Item>, rest: multiset<Item>)
    requires IsDrain(s.delayed, now, batch, rest)
    ensures Drains(s, now, Drained(s, batch, rest))
  {
    DrainLeaves(s, now, batch, rest);
  }

  /** At the top of the loop: told to, the thread exits; it waits without a deadline when nothing
      is queued, up to the earliest deadline when nothing is due, and drains otherwise. */
  lemma TopRegion(s: State, step: Step, s': State)
    requires Enabled(s, step) && Next(s, step, s') && step.Lock?
    ensures if s.shouldExit then s' == s.(pc := Exited)
            else if s.delayed == multiset{} then s' == s.(pc := WaitingForever)
            else if forall x | x in s.delayed :: step.now < x.timePoint then
              && s'.pc.WaitingUntil? && s' == s.(pc := s'.pc)
              && (exists x | x in s.delayed :: x.timePoint == s'.pc.deadline)
              && (forall x | x in s.delayed :: s'.pc.deadline <= x.timePoint)
            else Drains(s, step.now2, s')
  {
    hide IsDrain, Drains;
    if !s.shouldExit && s.delayed != multiset{} {
      var front :| IsFront(s.delayed, front) &&
        s' == After(s, if step.now < front.timePoint then Wait(WaitingUntil(front.timePoint)) else Drain,
                    step.batch, step.rest);
      if front.timePoint <= step.now {
        assert TopOutcome(s, step.now, Drain);
        DrainedRegion(s, step.now2, step.batch, step.rest);
      }
    }
  }

  /** After a wait it drains, unless it is told to exit or finds nothing queued. */
  lemma ResumedRegion(s: State, step: Step, s': State)
    requires Enabled(s, step) && Next(s, step, s') && step.Resume?
    ensures if s.shouldExit then s' == s.(pc := Exited)
            else if s.delayed == multiset{} then s' == s.(pc := Top)
            else Drains(s, step.now, s')
  {
    hide IsDrain, Drains;
    if ResumeOutcome(s) == Drain { DrainedRegion(s, step.now, step.batch, step.rest); }
  }

  /** The destructor's join ends: once it has notified, the thread is not asleep, and its
      every step brings it closer to its exit, which is at most three steps away. */
  function StepsToExit(pc: ServicePc): nat {
    match pc
    case Exited => 0
    case Top => 1
    case Woken => 1
    case Pushing => 2
    case Scheduling(_) => 3
    case WaitingForever => 2
    case WaitingUntil(_) => 2
  }

  predicate ServiceStep(step: Step) {
    step.Lock? || step.Unblock? || step.Resume? || step.HandOver? || step.HandOverDone?
  }

  lemma JoinEnds(s: State, step: Step, s': State)
    requires Inv(s) && s.dtor == Joining && Enabled(s, step) && Next(s, step, s')
    ensures !IsWaiting(s.pc)
    ensures ServiceStep(step) ==> StepsToExit(s'.pc) < StepsToExit(s.pc)
    ensures !ServiceStep(step) ==> s'.pc == s.pc
  {
    hide Conservation, IsDrain;
  }

  lemma JoinProgress(s: State) returns (step: Step, s': State)
    requires Inv(s) && s.dtor == Joining
    ensures Enabled(s, step) && Next(s, step, s')
    ensures if s.pc == Exited then s'.dtor == Joined else ServiceStep(step)
  {
    hide Conservation, IsDrain;
    match s.pc
    case Exited => step, s' := DtorJoin, s.(dtor := Joined);
    case Top =>
      step, s' := Lock(0, 0, [], multiset{}), s.(pc := Exited);
      assert TopOutcome(s, 0, Exit);
    case Woken => step, s' := Resume(0, [], multiset{}), s.(pc := Exited);
    case Pushing => step, s' := HandOverDone, s.(pc := Top);
    case Scheduling(batch) => step, s' := HandOver, s.(pc := Pushing, handed := s.handed + batch);
    case _ =>
  }
}
