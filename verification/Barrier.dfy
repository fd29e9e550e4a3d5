/** `Barrier`: a countdown latch whose waiters wake one another, as a state machine.

    Every region under the mutex is one atomic step and so is each `notify_one` made after
    it; the sleeper a notification wakes is arbitrary and spurious wakeups may always occur. */
module Barrier {
  import opened Tasks

  datatype Pc =
    | CountingDown          // inside CountDown, about to lock
    | CountingDownAndWait   // inside CountDownAndWait, about to lock
    | EnteringWait          // inside Wait, about to lock
    | Asleep                // blocked in cv_.wait
    | Woken                 // the wait is over, the mutex is not yet locked again
    | Notifying(passed: bool)  // past the mutex, owes a notify_one; passed: came out of a wait
    | Counted               // CountDown has returned
    | Passed                // Wait or CountDownAndWait has returned

  /** `credits` is how many calls of CountDown or CountDownAndWait are still to come; the
      callers may make as many as the initial counter in all. */
  datatype State = State(counter: int, credits: nat, pcs: map<Tid, Pc>)

  datatype Wake = Nobody | Waiter(t: Tid)

  datatype Step =
    | Call(t: Tid, pc: Pc)
    | CountDown(t: Tid)
    | CountDownAndWait(t: Tid)
    | Wait(t: Tid)
    | Unblock(t: Tid)
    | Resume(t: Tid)
    | Notify(t: Tid, wake: Wake)

  ghost predicate At(s: State, t: Tid, pc: Pc) { t in s.pcs && s.pcs[t] == pc }

  ghost predicate CanWake(s: State, wake: Wake) {
    match wake
    case Nobody => forall t | t in s.pcs :: s.pcs[t] != Asleep
    case Waiter(t) => At(s, t, Asleep)
  }

  ghost predicate Enabled(s: State, step: Step) {
    match step
    case Call(t, pc) =>
      && (t in s.pcs ==> s.pcs[t].Counted? || s.pcs[t].Passed?)
      && (pc == EnteringWait || (s.credits > 0 && (pc == CountingDown || pc == CountingDownAndWait)))
    case CountDown(t) => At(s, t, CountingDown)
    case CountDownAndWait(t) => At(s, t, CountingDownAndWait)
    case Wait(t) => At(s, t, EnteringWait)
    case Unblock(t) => At(s, t, Asleep)
    case Resume(t) => At(s, t, Woken)
    case Notify(t, wake) => t in s.pcs && s.pcs[t].Notifying? && CanWake(s, wake)
  }

  /** The test of the wait loops. */
  function Test(counter: int): Pc {
    if counter != 0 then Asleep else Notifying(true)
  }

  function WakeUp(s: State, wake: Wake): State {
    if wake.Waiter? then s.(pcs := s.pcs[wake.t := Woken]) else s
  }

  function Next(s: State, step: Step): State
    requires Enabled(s, step)
  {
    match step
    case Call(t, pc) =>
      s.(pcs := s.pcs[t := pc], credits := if pc == EnteringWait then s.credits else s.credits - 1)
    case CountDown(t) =>
      s.(counter := s.counter - 1, pcs := s.pcs[t := if s.counter - 1 == 0 then Notifying(false) else Counted])
    case CountDownAndWait(t) => s.(counter := s.counter - 1, pcs := s.pcs[t := Test(s.counter - 1)])
    case Wait(t) => s.(pcs := s.pcs[t := Test(s.counter)])
    case Unblock(t) => s.(pcs := s.pcs[t := Woken])
    case Resume(t) => s.(pcs := s.pcs[t := Test(s.counter)])
    case Notify(t, wake) => WakeUp(s.(pcs := s.pcs[t := if s.pcs[t].passed then Passed else Counted]), wake)
  }

  ghost predicate Init(s: State, n: nat) {
    n > 0 && s == State(n, n, map[])
  }

  predicate ToCount(pc: Pc) { pc == CountingDown || pc == CountingDownAndWait }

  /** The counter is the number of countdowns still due, made or to be made. */
  ghost predicate Counts(s: State) {
    s.counter == s.credits + Count(s.pcs, ToCount)
  }

  /** Nobody gets past a wait, or notifies, before the counter is zero. */
  ghost predicate NoEarlyPass(s: State) {
    forall t | t in s.pcs && (s.pcs[t] == Passed || s.pcs[t].Notifying?) :: s.counter == 0
  }

  predicate Awake(pc: Pc) { pc == Woken || pc.Notifying? }

  /** The wake chain: once the counter is zero, a sleeper implies a thread that is woken or
      owes a notify_one. */
  ghost predicate Chain(s: State) {
    s.counter == 0 && (exists t | t in s.pcs :: s.pcs[t] == Asleep) ==>
      exists t | t in s.pcs :: Awake(s.pcs[t])
  }

  ghost predicate Inv(s: State) {
    Counts(s) && NoEarlyPass(s) && Chain(s)
  }

  lemma InitInv(s: State, n: nat)
    requires Init(s, n)
    ensures Inv(s)
  {
    assert In(s.pcs, ToCount) == {};
  }

  lemma CountsStep(s: State, step: Step)
    requires Counts(s) && Enabled(s, step)
    ensures Counts(Next(s, step))
  {
    var s' := Next(s, step);
    match step
    case Call(t, pc) => CountMove(s.pcs, t, pc, ToCount);
    case CountDown(t) => CountMove(s.pcs, t, s'.pcs[t], ToCount);
    case CountDownAndWait(t) => CountMove(s.pcs, t, s'.pcs[t], ToCount);
    case Wait(t) => CountMove(s.pcs, t, s'.pcs[t], ToCount);
    case Unblock(t) => CountMove(s.pcs, t, Woken, ToCount);
    case Resume(t) => CountMove(s.pcs, t, s'.pcs[t], ToCount);
    case Notify(t, wake) =>
      var notified := s.pcs[t := if s.pcs[t].passed then Passed else Counted];
      CountMove(s.pcs, t, notified[t], ToCount);
      if wake.Waiter? { CountMove(notified, wake.t, Woken, ToCount); }
  }

  /** The assertion `counter_ > 0` of both countdowns holds whenever it is reached. */
  lemma CounterPositive(s: State, t: Tid)
    requires Counts(s) && t in s.pcs && ToCount(s.pcs[t])
    ensures s.counter > 0
  {
    CountZero(s.pcs, ToCount);
  }

  lemma NoEarlyPassStep(s: State, step: Step)
    requires Counts(s) && NoEarlyPass(s) && Enabled(s, step)
    ensures NoEarlyPass(Next(s, step))
  {
    if step.CountDown? || step.CountDownAndWait? {
      CounterPositive(s, step.t);
    }
  }

  lemma ChainStep(s: State, step: Step)
    requires Inv(s) && Enabled(s, step)
    ensures Chain(Next(s, step))
  {
    var s' := Next(s, step);
    if s'.counter == 0 && exists t | t in s'.pcs :: s'.pcs[t] == Asleep {
      match step
      case CountDown(t) => assert Awake(s'.pcs[t]);
      case CountDownAndWait(t) => assert Awake(s'.pcs[t]);
      case Wait(t) => assert Awake(s'.pcs[t]);
      case Unblock(t) => assert Awake(s'.pcs[t]);
      case Resume(t) => assert Awake(s'.pcs[t]);
      case Notify(_, wake) => assert wake.Waiter? && Awake(s'.pcs[wake.t]);
      case Call(_, _) =>
        var t :| t in s.pcs && Awake(s.pcs[t]);
        assert Awake(s'.pcs[t]);
    }
  }

  lemma InvStep(s: State, step: Step)
    requires Inv(s) && Enabled(s, step)
    ensures Inv(Next(s, step))
  {
    CountsStep(s, step);
    NoEarlyPassStep(s, step);
    ChainStep(s, step);
  }

  ghost predicate IsRun(states: seq<State>, steps: seq<Step>) {
    && |states| == |steps| + 1
    && forall i | 0 <= i < |steps| :: Enabled(states[i], steps[i]) && states[i + 1] == Next(states[i], steps[i])
  }

  /** In every run: no wait returns early, the countdown assertions hold, the chain holds. */
  lemma {:induction false} InvAlways(states: seq<State>, steps: seq<Step>, n: nat, i: nat)
    requires IsRun(states, steps) && Init(states[0], n) && i < |states|
    ensures Inv(states[i])
  {
    if i == 0 {
      InitInv(states[0], n);
    } else {
      InvAlways(states, steps, n, i - 1);
      InvStep(states[i - 1], steps[i - 1]);
    }
  }

  // ----- everybody gets out -----

  /** Steps a thread has left once the counter is zero. */
  function Rank(pc: Pc): nat {
    match pc
    case Asleep => 3
    case EnteringWait => 2
    case Woken => 2
    case Notifying(_) => 1
    case _ => 0
  }

  ghost function Measure(s: State): nat { Sum(s.pcs, Rank) }

  lemma CannotCount(s: State, t: Tid)
    requires Counts(s) && s.counter == 0
    ensures s.credits == 0 && (t in s.pcs ==> !ToCount(s.pcs[t]))
  {
    CountZero(s.pcs, ToCount);
  }

  /** Once the counter is zero, every step but a new call of Wait brings the end closer,
      spurious wakeups included. */
  lemma ReleaseStep(s: State, step: Step)
    requires Inv(s) && s.counter == 0 && Enabled(s, step) && !step.Call?
    ensures Next(s, step).counter == 0 && Measure(Next(s, step)) < Measure(s)
  {
    CannotCount(s, step.t);
    match step
    case Wait(t) => SumMove(s.pcs, t, Notifying(true), Rank);
    case Unblock(t) => SumMove(s.pcs, t, Woken, Rank);
    case Resume(t) => SumMove(s.pcs, t, Notifying(true), Rank);
    case Notify(t, wake) =>
      var done := if s.pcs[t].passed then Passed else Counted;
      SumMove(s.pcs, t, done, Rank);
      if wake.Waiter? { SumMove(s.pcs[t := done], wake.t, Woken, Rank); }
    case _ =>
  }

  lemma {:induction false} ReleaseBounded(states: seq<State>, steps: seq<Step>)
    requires IsRun(states, steps) && Inv(states[0]) && states[0].counter == 0
    requires forall i | 0 <= i < |steps| :: !steps[i].Call?
    ensures Inv(states[|steps|]) && states[|steps|].counter == 0
    ensures |steps| + Measure(states[|steps|]) <= Measure(states[0])
  {
    var n := |steps|;
    if n > 0 {
      ReleaseBounded(states[..n], steps[..n - 1]);
      ReleaseStep(states[n - 1], steps[n - 1]);
      InvStep(states[n - 1], steps[n - 1]);
    }
  }

  lemma SomeWake(s: State) returns (wake: Wake)
    ensures CanWake(s, wake)
  {
    if v :| v in s.pcs && s.pcs[v] == Asleep {
      return Waiter(v);
    }
    return Nobody;
  }

  /** And it does end: while some thread is still inside a call, a step other than a spurious
      wakeup is possible, so a run that can go no further has let everybody out. */
  lemma ReleaseProgress(s: State, t: Tid) returns (step: Step)
    requires Inv(s) && s.counter == 0 && t in s.pcs && s.pcs[t] != Counted && s.pcs[t] != Passed
    ensures Enabled(s, step) && !step.Call? && !step.Unblock?
  {
    CannotCount(s, t);
    if s.pcs[t] == EnteringWait {
      return Wait(t);
    }
    var w :| w in s.pcs && Awake(s.pcs[w]);
    assert Awake(s.pcs[w]);
    if s.pcs[w] == Woken {
      return Resume(w);
    }
    var wake := SomeWake(s);
    step := Notify(w, wake);
  }
}
