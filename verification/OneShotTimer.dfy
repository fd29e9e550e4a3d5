/** `OneShotTimer` over all runs of starts, early firings, deliveries of the posted closures
    in any order, and destruction; callbacks may use the timer again while they run. */
module OneShotTimer {
  import opened Options
  import opened Tasks

  /** An activation of RunTask's callback that has not returned yet. */
  datatype Frame = Delivered | Fired

  /** `started[id - 1]` is the task of the start with that id, `pending` the closures posted
      to the task runner and not delivered yet, by id, and `ran` the calls made, as (id, task). */
  datatype State = State(
    alive: bool,
    task: Option<Task>,
    taskId: nat,
    isRunning: bool,
    pending: multiset<nat>,
    frames: seq<Frame>,
    started: seq<Task>,
    ran: seq<(nat, Task)>
  )

  datatype Step =
    | Start(task: Task)
    | FireNow
    | Deliver(id: nat)      // the task runner calls a posted closure
    | Return                // the innermost callback returns
    | Destroy

  const INIT := State(true, None, 0, false, multiset{}, [], [], [])

  /** FireNow asserts that the timer is running; the timer is not destroyed under FireNow. */
  ghost predicate Enabled(s: State, step: Step) {
    match step
    case Start(_) => s.alive
    case FireNow => s.alive && s.isRunning
    case Deliver(id) => id in s.pending
    case Return => s.frames != []
    case Destroy => s.alive && Fired !in s.frames
  }

  /** RunTask up to its call of the task, which opens a frame. */
  function RunTask(s: State, id: nat, frame: Frame): State {
    if !s.isRunning || id != s.taskId then
      s
    else
      s.(task := None, isRunning := false, frames := s.frames + [frame],
         ran := if s.task.Some? then s.ran + [(id, s.task.value)] else s.ran)
  }

  function Next(s: State, step: Step): State
    requires Enabled(s, step)
  {
    match step
    case Start(task) =>
      s.(task := Some(task), isRunning := true, taskId := s.taskId + 1,
         pending := s.pending + multiset{s.taskId + 1}, started := s.started + [task])
    case FireNow => RunTask(s, s.taskId, Fired)
    case Deliver(id) =>
      var delivered := s.(pending := s.pending - multiset{id});
      if s.alive then RunTask(delivered, id, Delivered) else delivered
    case Return =>
      var n := |s.frames| - 1;
      s.(frames := s.frames[..n], isRunning := if s.frames[n] == Fired then false else s.isRunning)
    case Destroy => s.(alive := false)
  }

  /** The running timer holds the task of its last start, which has not been called. */
  ghost predicate Ready(s: State) {
    && 0 < s.taskId == |s.started|
    && s.task == Some(s.started[s.taskId - 1])
    && forall i | 0 <= i < |s.ran| :: s.ran[i].0 < s.taskId
  }

  /** While the timer runs, exactly one undelivered closure carries the current id. */
  ghost predicate Armed(s: State) {
    s.alive && s.isRunning ==> Ready(s) && s.pending[s.taskId] == 1
  }

  /** Ids are start numbers, each posted once; calls go up in start order, each on the task of
      its start: nothing is called twice, and nothing after a later start has been called. */
  ghost predicate Orderly(s: State) {
    && s.taskId == |s.started|
    && (forall id | id in s.pending :: 0 < id <= s.taskId && s.pending[id] == 1)
    && (forall i | 0 <= i < |s.ran| :: 0 < s.ran[i].0 <= s.taskId && s.ran[i].1 == s.started[s.ran[i].0 - 1])
    && (forall i, j | 0 <= i < j < |s.ran| :: s.ran[i].0 < s.ran[j].0)
  }

  /** A closure that has been called is no longer held. */
  ghost predicate Emptied(s: State) {
    (exists i | 0 <= i < |s.ran| :: s.ran[i].0 == s.taskId) ==> s.task == None
  }

  ghost predicate Inv(s: State) {
    && Armed(s) && Orderly(s) && Emptied(s)
    && (!s.alive ==> Fired !in s.frames)
  }

  lemma RunTaskOrderly(s: State, id: nat, frame: Frame)
    requires Orderly(s) && (s.isRunning ==> Ready(s))
    ensures Orderly(RunTask(s, id, frame))
  {
    if s.isRunning && id == s.taskId {
      var ran := s.ran + [(id, s.task.value)];
      assert forall i | 0 <= i < |s.ran| :: ran[i] == s.ran[i];
    }
  }

  lemma StartStep(s: State, task: Task)
    requires Inv(s) && s.alive
    ensures Inv(Next(s, Start(task)))
  {
    assert s.taskId + 1 !in s.pending;
  }

  lemma DeliverStep(s: State, id: nat)
    requires Inv(s) && id in s.pending
    ensures Inv(Next(s, Deliver(id)))
  {
    var delivered := s.(pending := s.pending - multiset{id});
    assert forall x | x in delivered.pending :: x in s.pending && x != id;
    if s.alive {
      RunTaskOrderly(delivered, id, Delivered);
    }
  }

  lemma InvStep(s: State, step: Step)
    requires Inv(s) && Enabled(s, step)
    ensures Inv(Next(s, step))
  {
    match step
    case Start(task) => StartStep(s, task);
    case FireNow => RunTaskOrderly(s, s.taskId, Fired);
    case Deliver(id) => DeliverStep(s, id);
    case _ =>
  }

  ghost predicate IsRun(states: seq<State>, steps: seq<Step>) {
    && |states| == |steps| + 1
    && forall i | 0 <= i < |steps| :: Enabled(states[i], steps[i]) && states[i + 1] == Next(states[i], steps[i])
  }

  /** Over every run each started task is called at most once, in start order, on the closure
      it was started with, and the assertion that a running timer holds a task is met. */
  lemma {:induction false} InvAlways(states: seq<State>, steps: seq<Step>, i: nat)
    requires IsRun(states, steps) && states[0] == INIT && i < |states|
    ensures Inv(states[i])
    ensures states[i].alive && states[i].isRunning ==> states[i].task.Some?
  {
    if i > 0 {
      InvAlways(states, steps, i - 1);
      InvStep(states[i - 1], steps[i - 1]);
    }
  }

  /** A call happens only on a live, running timer and only for its latest start: a superseded
      task and a task of a destroyed timer are never called. */
  lemma OnlyTheLatestRuns(s: State, step: Step)
    requires Inv(s) && Enabled(s, step)
    ensures Next(s, step).ran != s.ran ==>
              && s.alive && s.isRunning
              && (step == FireNow || step == Deliver(s.taskId))
              && Next(s, step).ran == s.ran + [(s.taskId, s.started[s.taskId - 1])]
    ensures s.alive && s.isRunning && (step == FireNow || step == Deliver(s.taskId)) ==>
              Next(s, step).ran == s.ran + [(s.taskId, s.started[s.taskId - 1])]
  {
  }

  /** Exactly which steps stop a running timer: firing, delivery of its own closure, and the
      return of a callback that FireNow called, whatever was started inside that callback. */
  lemma StopsExactly(s: State, step: Step)
    requires Inv(s) && Enabled(s, step) && s.alive && s.isRunning
    ensures !Next(s, step).isRunning <==>
              || step == FireNow
              || step == Deliver(s.taskId)
              || (step == Return && s.frames[|s.frames| - 1] == Fired)
  {
  }

  lemma Extend(states: seq<State>, steps: seq<Step>, step: Step, s': State)
    returns (states': seq<State>, steps': seq<Step>)
    requires IsRun(states, steps) && Enabled(states[|steps|], step) && s' == Next(states[|steps|], step)
    ensures IsRun(states', steps') && states'[0] == states[0] && states'[|steps'|] == s'
  {
    states', steps' := states + [s'], steps + [step];
  }

  // ----- which starts are lost -----

  ghost predicate Called(s: State, id: nat) {
    exists i | 0 <= i < |s.ran| :: s.ran[i].0 == id
  }

  /** The start with this id has been called, or will be by the delivery of its closure: no
      callback of FireNow is left to stop the timer in between. */
  ghost predicate WillBeCalled(s: State, id: nat) {
    Called(s, id) || (s.isRunning && id in s.pending && Fired !in s.frames)
  }

  lemma WillBeCalledStep(s: State, step: Step, id: nat)
    requires Inv(s) && Enabled(s, step) && Next(s, step).alive && s.taskId == id && WillBeCalled(s, id)
    requires Next(s, step).taskId == id
    ensures WillBeCalled(Next(s, step), id)
  {
    var s' := Next(s, step);
    if i :| 0 <= i < |s.ran| && s.ran[i].0 == id {
      assert s'.ran[i] == s.ran[i];
    } else if step == FireNow || step == Deliver(id) {
      assert s'.ran[|s.ran|].0 == id;
    } else if step.Return? {
      assert s.frames[|s.frames| - 1] in s.frames;
    }
  }

  lemma {:induction false} StaysKept(states: seq<State>, steps: seq<Step>, id: nat, i: nat)
    requires IsRun(states, steps) && Inv(states[0]) && states[0].taskId == id && WillBeCalled(states[0], id)
    requires i < |states|
    ensures Inv(states[i]) && states[i].taskId >= id
    ensures states[i].alive && states[i].taskId == id ==> WillBeCalled(states[i], id)
  {
    if i > 0 {
      StaysKept(states, steps, id, i - 1);
      InvStep(states[i - 1], steps[i - 1]);
      if states[i].alive && states[i].taskId == id {
        WillBeCalledStep(states[i - 1], steps[i - 1], id);
      }
    }
  }

  /** All callbacks return, innermost first. */
  lemma {:induction false} ReturnAll(s: State) returns (states: seq<State>, steps: seq<Step>)
    ensures IsRun(states, steps) && states[0] == s
    ensures states[|steps|] == s.(frames := [], isRunning := s.isRunning && Fired !in s.frames)
    decreases |s.frames|
  {
    if s.frames == [] {
      return [s], [];
    }
    var n := |s.frames| - 1;
    assert s.frames == s.frames[..n] + [s.frames[n]];
    states, steps := ReturnAll(Next(s, Return));
    states, steps := [s] + states, [Return] + steps;
  }

  /** The timer lives, has not been started again, and the closure of the start is gone. */
  ghost predicate Over(s: State, id: nat) {
    s.alive && s.taskId == id && id !in s.pending
  }

  lemma LosingRun(s: State, task: Task) returns (states: seq<State>, steps: seq<Step>)
    requires Inv(s) && s.alive && Fired in s.frames
    ensures IsRun(states, steps) && states[0] == Next(s, Start(task))
    ensures var t := states[|steps|]; Over(t, s.taskId + 1) && !Called(t, s.taskId + 1)
  {
    var id := s.taskId + 1;
    StartStep(s, task);
    states, steps := ReturnAll(Next(s, Start(task)));
    var t := states[|steps|];
    states, steps := Extend(states, steps, Deliver(id), t.(pending := t.pending - multiset{id}));
  }

  ghost predicate IsRunFrom(s: State, states: seq<State>, steps: seq<Step>) {
    IsRun(states, steps) && states[0] == s
  }

  /** What is started gets called, however the run goes on, unless the timer is destroyed or
      started again first, if and only if the start is not made inside a callback that FireNow
      called. */
  lemma StartKeptExactly(s: State, task: Task)
    requires Inv(s) && s.alive
    ensures Fired !in s.frames <==>
              forall states, steps | IsRunFrom(Next(s, Start(task)), states, steps) ::
                Over(states[|steps|], s.taskId + 1) ==> Called(states[|steps|], s.taskId + 1)
  {
    var id := s.taskId + 1;
    if Fired in s.frames {
      var states, steps := LosingRun(s, task);
      assert IsRunFrom(Next(s, Start(task)), states, steps);
    } else {
      forall states, steps | IsRunFrom(Next(s, Start(task)), states, steps)
        ensures Over(states[|steps|], id) ==> Called(states[|steps|], id)
      {
        StartStep(s, task);
        StaysKept(states, steps, id, |steps|);
      }
    }
  }

  /** From a new timer: here the second task is never called, though it was started, by a
      callback of FireNow, and its closure delivered. */
  lemma RestartLost() returns (states: seq<State>, steps: seq<Step>)
    ensures IsRun(states, steps) && states[0] == INIT
    ensures var s := states[|steps|];
            && s.started == [7, 8] && s.ran == [(1, 7)]
            && !s.isRunning && s.frames == [] && s.pending == multiset{}
  {
    var s1 := State(true, Some(7), 1, true, multiset{1}, [], [7], []);
    var s2 := State(true, None, 1, false, multiset{1}, [Fired], [7], [(1, 7)]);
    var s3 := State(true, Some(8), 2, true, multiset{1, 2}, [Fired], [7, 8], [(1, 7)]);
    var s4 := State(true, Some(8), 2, false, multiset{1, 2}, [], [7, 8], [(1, 7)]);
    var s5 := State(true, Some(8), 2, false, multiset{2}, [], [7, 8], [(1, 7)]);
    var s6 := State(true, Some(8), 2, false, multiset{}, [], [7, 8], [(1, 7)]);
    states, steps := [INIT], [];
    states, steps := Extend(states, steps, Start(7), s1);
    states, steps := Extend(states, steps, FireNow, s2);
    states, steps := Extend(states, steps, Start(8), s3);
    states, steps := Extend(states, steps, Return, s4);
    states, steps := Extend(states, steps, Deliver(1), s5);
    states, steps := Extend(states, steps, Deliver(2), s6);
  }

  /** The timer's own code over its fields, in the pieces between its calls to the outside:
      the callback of RunTask runs between BeginRunTask and, under FireNow, EndFireNow. */
  class OneShotTimer {
    var task: Option<Task>
    var taskId: nat
    var isRunning: bool

    ghost predicate Holds(s: State)
      reads this
    {
      task == s.task && taskId == s.taskId && isRunning == s.isRunning
    }

    constructor ()
      ensures Holds(INIT)
    {
      task, taskId, isRunning := None, 0, false;
    }

    /** Returns the id bound into the closure it posts. */
    method Start(newTask: Task, ghost s: State) returns (id: nat)
      requires Holds(s) && s.alive
      modifies this
      ensures Holds(Next(s, Step.Start(newTask)))
      ensures Next(s, Step.Start(newTask)).pending == s.pending + multiset{id}
    {
      task := Some(newTask);
      isRunning := true;
      taskId := taskId + 1;
      id := taskId;
    }

    /** RunTask up to its call of the returned task, if any. */
    method BeginRunTask(id: nat, ghost s: State, ghost frame: Frame) returns (called: Option<Task>)
      requires Holds(s) && s.alive && Inv(s)
      modifies this
      ensures Holds(RunTask(s, id, frame))
      ensures RunTask(s, id, frame).ran == if called.Some? then s.ran + [(id, called.value)] else s.ran
    {
      if !isRunning || id != taskId {
        return None;
      }
      assert task.Some?;
      called := task;
      task := None;
      isRunning := false;
    }

    method EndFireNow(ghost s: State)
      requires Holds(s) && s.frames != [] && s.frames[|s.frames| - 1] == Fired
      modifies this
      ensures Holds(Next(s, Return))
    {
      isRunning := false;
    }
  }
}
