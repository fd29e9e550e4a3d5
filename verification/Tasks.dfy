/** Vocabulary shared by the task runners: posted closures, repeat counts and the
    sequence of invocations a queue of repeated closures stands for. */
module Tasks {
  import opened Collections

  /** The identity of a posted closure. */
  type Task = nat

  type Tid = nat

  /** A closure to be called `iterations + 1` times. */
  datatype IterationItem = IterationItem(task: Task, iterations: nat)

  function Repeat(task: Task, n: nat): (r: seq<Task>)
    ensures |r| == n
  {
    if n == 0 then [] else [task] + Repeat(task, n - 1)
  }

  /** The invocations a queue stands for: each item repeated `iterations + 1` times, in order. */
  function Expand(items: seq<IterationItem>): seq<Task> {
    if items == [] then []
    else Repeat(items[0].task, items[0].iterations + 1) + Expand(items[1..])
  }

  function TotalInvocations(items: seq<IterationItem>): nat {
    if items == [] then 0 else items[0].iterations + 1 + TotalInvocations(items[1..])
  }

  lemma ExpandFirst(first: IterationItem, rest: seq<IterationItem>)
    ensures Expand([first] + rest) == Repeat(first.task, first.iterations + 1) + Expand(rest)
  {
    assert ([first] + rest)[1..] == rest;
  }

  lemma {:induction false} ExpandConcat(a: seq<IterationItem>, b: seq<IterationItem>)
    ensures Expand(a + b) == Expand(a) + Expand(b)
  {
    if a == [] {
      assert a + b == b;
    } else {
      hide Repeat;
      assert a + b == [a[0]] + (a[1..] + b);
      ExpandFirst(a[0], a[1..] + b);
      ExpandConcat(a[1..], b);
      Assoc(Repeat(a[0].task, a[0].iterations + 1), Expand(a[1..]), Expand(b));
    }
  }

  lemma OneItem(item: IterationItem)
    ensures TotalInvocations([item]) == item.iterations + 1
  {
    assert [item][1..] == [];
  }

  lemma {:induction false} ExpandLength(items: seq<IterationItem>)
    ensures |Expand(items)| == TotalInvocations(items)
  {
    if items != [] {
      ExpandLength(items[1..]);
    }
  }

  lemma {:induction false} TotalInvocationsConcat(a: seq<IterationItem>, b: seq<IterationItem>)
    ensures TotalInvocations(a + b) == TotalInvocations(a) + TotalInvocations(b)
  {
    ExpandConcat(a, b);
    ExpandLength(a);
    ExpandLength(b);
    ExpandLength(a + b);
  }

  function Decremented(item: IterationItem): seq<IterationItem> {
    if item.iterations == 0 then [] else [item.(iterations := item.iterations - 1)]
  }

  /** What remains of a queue once one invocation of its front item has been taken. */
  function AfterTake(items: seq<IterationItem>): seq<IterationItem>
    requires items != []
  {
    Decremented(items[0]) + items[1..]
  }

  lemma ExpandDecremented(item: IterationItem)
    ensures Repeat(item.task, item.iterations + 1) == [item.task] + Expand(Decremented(item))
  {
    if item.iterations > 0 {
      assert Expand(Decremented(item)[1..]) == [];
    }
  }

  /** Taking an invocation removes exactly the first element of the expansion. */
  lemma ExpandAfterTake(items: seq<IterationItem>)
    requires items != []
    ensures Expand(items) == [items[0].task] + Expand(AfterTake(items))
  {
    var front, rest := items[0], items[1..];
    ExpandDecremented(front);
    ExpandConcat(Decremented(front), rest);
    Assoc([front.task], Expand(Decremented(front)), Expand(rest));
  }

  lemma {:induction false} RepeatLast(task: Task, n: nat)
    ensures Repeat(task, n + 1) == Repeat(task, n) + [task]
  {
    if n > 0 {
      RepeatLast(task, n - 1);
    }
  }

  // ----- threads in a given program counter -----

  function In<Pc>(pcs: map<Tid, Pc>, p: Pc -> bool): set<Tid> {
    set t | t in pcs && p(pcs[t])
  }

  function Count<Pc>(pcs: map<Tid, Pc>, p: Pc -> bool): nat {
    |In(pcs, p)|
  }

  /** Moving one thread to another program counter changes a count by at most that thread. */
  lemma CountMove<Pc>(pcs: map<Tid, Pc>, t: Tid, pc: Pc, p: Pc -> bool)
    ensures Count(pcs[t := pc], p) ==
            Count(pcs, p) + (if p(pc) then 1 else 0) - (if t in pcs && p(pcs[t]) then 1 else 0)
  {
    var was, now := In(pcs, p), In(pcs[t := pc], p);
    if p(pc) {
      assert now == was + {t};
    } else {
      assert now == was - {t};
    }
  }

  lemma CountRemove<Pc>(pcs: map<Tid, Pc>, t: Tid, p: Pc -> bool)
    requires t in pcs
    ensures Count(pcs - {t}, p) == Count(pcs, p) - (if p(pcs[t]) then 1 else 0)
  {
    assert In(pcs - {t}, p) == In(pcs, p) - {t};
  }

  lemma CountZero<Pc>(pcs: map<Tid, Pc>, p: Pc -> bool)
    ensures Count(pcs, p) == 0 <==> forall t | t in pcs :: !p(pcs[t])
  {
    if t :| t in pcs && p(pcs[t]) {
      assert t in In(pcs, p);
    }
  }

  ghost function Pick<Pc>(pcs: map<Tid, Pc>): (t: Tid)
    requires pcs != map[]
    ensures t in pcs
  {
    var t :| t in pcs;
    t
  }

  /** The ranks of all threads, added up. */
  ghost function Sum<Pc>(pcs: map<Tid, Pc>, rank: Pc -> nat): nat
    decreases |pcs|
  {
    if pcs == map[] then 0
    else var t := Pick(pcs); rank(pcs[t]) + Sum(pcs - {t}, rank)
  }

  lemma {:induction false} SumRemove<Pc>(pcs: map<Tid, Pc>, t: Tid, rank: Pc -> nat)
    requires t in pcs
    ensures Sum(pcs, rank) == rank(pcs[t]) + Sum(pcs - {t}, rank)
    decreases |pcs|
  {
    var u := Pick(pcs);
    if u != t {
      SumRemove(pcs - {u}, t, rank);
      SumRemove(pcs - {t}, u, rank);
      assert pcs - {u} - {t} == pcs - {t} - {u};
    }
  }

  lemma SumMove<Pc>(pcs: map<Tid, Pc>, t: Tid, pc: Pc, rank: Pc -> nat)
    ensures Sum(pcs[t := pc], rank) ==
            Sum(pcs, rank) + rank(pc) - if t in pcs then rank(pcs[t]) else 0
  {
    SumRemove(pcs[t := pc], t, rank);
    if t in pcs {
      SumRemove(pcs, t, rank);
      assert pcs[t := pc] - {t} == pcs - {t};
    } else {
      assert pcs[t := pc] - {t} == pcs;
    }
  }

  // ----- ids of new threads -----

  lemma {:induction false} NewThread(used: set<Tid>) returns (t: Tid)
    ensures forall u | u in used :: u < t
    decreases used
  {
    if u :| u in used {
      var others := NewThread(used - {u});
      t := if u < others then others else u + 1;
      assert forall v | v in used :: v == u || v in used - {u};
    } else {
      t := 0;
    }
  }

  lemma {:induction false} NewThreads(used: set<Tid>, n: nat) returns (created: set<Tid>)
    ensures created !! used && |created| == n
    decreases n
  {
    if n == 0 {
      return {};
    }
    var others := NewThreads(used, n - 1);
    var t := NewThread(used + others);
    created := others + {t};
  }
}
