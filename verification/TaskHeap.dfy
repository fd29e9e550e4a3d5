/** The deadline queue shared by the polling runner and the service thread: a binary heap of
    (time point, task id) kept with `std::greater`, so that the earliest item is in front. */
module TaskHeap {
  import opened Collections
  import opened Options
  import opened Tasks

  /** A posted task.  `task` is None once the closure has been moved out of the item. */
  datatype Item = Item(task: Option<Task>, timePoint: int, taskId: nat, iterations: nat)

  /** `operator>` on items: lexicographic on (time_point, task_id). */
  predicate Greater(a: Item, b: Item) {
    b.timePoint < a.timePoint || (!(a.timePoint < b.timePoint) && b.taskId < a.taskId)
  }

  predicate Less(a: Item, b: Item) { Greater(b, a) }

  predicate ParentOf(p: int, c: int) { c == 2 * p + 1 || c == 2 * p + 2 }

  ghost predicate IsHeap(q: seq<Item>) {
    forall p, c | 0 <= p < c < |q| && ParentOf(p, c) :: !Greater(q[p], q[c])
  }

  /** The front of a heap is a least item. */
  lemma {:induction false} FrontIsLeast(q: seq<Item>, i: nat)
    requires IsHeap(q) && i < |q|
    ensures !Greater(q[0], q[i])
  {
    if i > 0 {
      var p := (i - 1) / 2;
      FrontIsLeast(q, p);
      assert ParentOf(p, i);
    }
  }

  lemma SwapKeepsItems(q: seq<Item>, i: nat, j: nat)
    requires i < |q| && j < |q|
    ensures multiset(q[i := q[j]][j := q[i]]) == multiset(q)
  {
  }

  /** The heap order everywhere except between `i` and its parent. */
  ghost predicate HeapAbove(q: seq<Item>, i: nat) {
    && (forall p, c | 0 <= p < c < |q| && ParentOf(p, c) && c != i :: !Greater(q[p], q[c]))
    && (forall p, c | 0 <= p < i < c < |q| && ParentOf(p, i) && ParentOf(i, c) :: !Greater(q[p], q[c]))
  }

  lemma RaiseKeepsOrder(q: seq<Item>, p: nat, i: nat)
    requires p < i < |q| && ParentOf(p, i) && HeapAbove(q, i) && Greater(q[p], q[i])
    ensures HeapAbove(q[i := q[p]][p := q[i]], p)
  {
  }

  /** `std::push_heap`: the last item joins the heap before it. */
  method PushHeap(q: seq<Item>) returns (r: seq<Item>)
    requires |q| > 0 && IsHeap(q[..|q| - 1])
    ensures IsHeap(r) && multiset(r) == multiset(q)
  {
    r := q;
    var i := |q| - 1;
    assert forall j | 0 <= j < i :: r[j] == q[..|q| - 1][j];
    while i > 0 && Greater(r[(i - 1) / 2], r[i])
      invariant 0 <= i < |r| == |q|
      invariant multiset(r) == multiset(q)
      invariant HeapAbove(r, i)
    {
      var parent := (i - 1) / 2;
      SwapKeepsItems(r, i, parent);
      RaiseKeepsOrder(r, parent, i);
      r := r[i := r[parent]][parent := r[i]];
      i := parent;
    }
    if i > 0 {
      assert ParentOf((i - 1) / 2, i);
    }
  }

  /** The heap order everywhere except between `i` and its children. */
  ghost predicate HeapBelow(q: seq<Item>, i: nat) {
    && (forall p, c | 0 <= p < c < |q| && ParentOf(p, c) && p != i :: !Greater(q[p], q[c]))
    && (forall p, c | 0 <= p < i < c < |q| && ParentOf(p, i) && ParentOf(i, c) :: !Greater(q[p], q[c]))
  }

  lemma LowerKeepsOrder(q: seq<Item>, i: nat, c: nat)
    requires i < c < |q| && ParentOf(i, c) && HeapBelow(q, i) && Greater(q[i], q[c])
    requires forall d | i < d < |q| && ParentOf(i, d) :: !Greater(q[c], q[d])
    ensures HeapBelow(q[i := q[c]][c := q[i]], c)
  {
  }

  function LesserChild(q: seq<Item>, i: nat): (c: nat)
    requires 2 * i + 1 < |q|
    ensures i < c < |q| && ParentOf(i, c)
    ensures forall d | i < d < |q| && ParentOf(i, d) :: !Greater(q[c], q[d])
  {
    if 2 * i + 2 < |q| && Greater(q[2 * i + 1], q[2 * i + 2]) then 2 * i + 2 else 2 * i + 1
  }

  lemma NoChildrenLeft(q: seq<Item>, i: nat)
    requires HeapBelow(q, i) && (2 * i + 1 >= |q| || !Greater(q[i], q[LesserChild(q, i)]))
    ensures IsHeap(q)
  {
  }

  /** Restores the heap order of `q` when only its front may be out of place. */
  method SiftDown(q: seq<Item>) returns (r: seq<Item>)
    requires HeapBelow(q, 0)
    ensures IsHeap(r) && multiset(r) == multiset(q) && |r| == |q|
  {
    hide HeapBelow, IsHeap;
    r := q;
    var i := 0;
    while 2 * i + 1 < |r|
      invariant 0 <= i && |r| == |q|
      invariant multiset(r) == multiset(q)
      invariant HeapBelow(r, i)
      decreases |r| - i
    {
      var child := LesserChild(r, i);
      if !Greater(r[i], r[child]) {
        break;
      }
      SwapKeepsItems(r, i, child);
      LowerKeepsOrder(r, i, child);
      r := r[i := r[child]][child := r[i]];
      i := child;
    }
    NoChildrenLeft(r, i);
  }

  /** `std::pop_heap`: the front goes to the back, the rest is a heap again. */
  method PopHeap(q: seq<Item>) returns (r: seq<Item>)
    requires |q| > 0 && IsHeap(q)
    ensures |r| == |q| && IsHeap(r[..|r| - 1])
    ensures r[|r| - 1] == q[0] && multiset(r) == multiset(q)
  {
    var last := |q| - 1;
    var swapped := q[0 := q[last]][last := q[0]];
    SwapKeepsItems(q, 0, last);
    var sifted := SiftDown(swapped[..last]);
    r := sifted + [q[0]];
    assert swapped == swapped[..last] + [q[0]];
    assert r[..|r| - 1] == sifted;
  }

  /** emplace_back followed by push_heap. */
  method Enqueue(q: seq<Item>, item: Item) returns (r: seq<Item>)
    requires IsHeap(q)
    ensures IsHeap(r) && multiset(r) == multiset(q) + multiset{item}
  {
    var extended := q + [item];
    assert extended[..|extended| - 1] == q;
    r := PushHeap(extended);
  }

  // ----- draining -----

  /** No two items share an id, and no item occurs twice. */
  ghost predicate Distinct(items: multiset<Item>) {
    && (forall x | x in items :: items[x] == 1)
    && (forall x, y | x in items && y in items && x.taskId == y.taskId :: x == y)
  }

  ghost predicate Sorted(s: seq<Item>) {
    forall i, j | 0 <= i < j < |s| :: Less(s[i], s[j])
  }

  /** `batch` is what a drain at time `now` takes from `items`, in the order it takes it. */
  ghost predicate IsDrain(items: multiset<Item>, now: int, batch: seq<Item>, rest: multiset<Item>) {
    && multiset(batch) + rest == items
    && (forall x | x in batch :: x.timePoint <= now)
    && (forall x | x in rest :: now < x.timePoint)
    && Sorted(batch)
  }

  lemma OrderedPair(s: seq<Item>, i: nat, j: nat)
    requires Sorted(s) && i < j < |s|
    ensures Less(s[i], s[j])
  {
  }

  lemma SortedHead(a: seq<Item>, b: seq<Item>)
    requires Sorted(a) && Sorted(b) && multiset(a) == multiset(b) && a != []
    ensures b != [] && a[0] == b[0]
  {
    hide Sorted;
    assert a[0] in multiset(b);
    var j :| 0 <= j < |b| && b[j] == a[0];
    assert b[0] in multiset(a);
    var i :| 0 <= i < |a| && a[i] == b[0];
    if i > 0 && j > 0 {
      OrderedPair(a, 0, i);
      OrderedPair(b, 0, j);
    }
  }

  lemma SortedTail(s: seq<Item>)
    requires Sorted(s) && s != []
    ensures Sorted(s[1..]) && multiset(s[1..]) == multiset(s) - multiset{s[0]}
  {
    assert s == [s[0]] + s[1..];
  }

  lemma {:induction false} SortedIsUnique(a: seq<Item>, b: seq<Item>)
    requires Sorted(a) && Sorted(b) && multiset(a) == multiset(b)
    ensures a == b
  {
    if a == [] {
      assert |multiset(b)| == 0;
    } else {
      SortedHead(a, b);
      SortedTail(a);
      SortedTail(b);
      hide Sorted;
      assert a == [a[0]] + a[1..] && b == [a[0]] + b[1..];
      SortedIsUnique(a[1..], b[1..]);
    }
  }

  /** The batch and the rest are determined by the items and the time. */
  lemma DrainIsUnique(items: multiset<Item>, now: int, a: seq<Item>, restA: multiset<Item>,
                      b: seq<Item>, restB: multiset<Item>)
    requires IsDrain(items, now, a, restA) && IsDrain(items, now, b, restB)
    ensures a == b && restA == restB
  {
    forall x ensures multiset(a)[x] == multiset(b)[x] {
      assert (multiset(a) + restA)[x] == (multiset(b) + restB)[x];
      if x.timePoint <= now {
        assert x !in restA && x !in restB;
      } else {
        assert x !in multiset(a) && x !in multiset(b);
      }
    }
    assert multiset(a) == multiset(b);
    SortedIsUnique(a, b);
    assert restA == items - multiset(a);
    assert restB == items - multiset(b);
  }

  function ToIteration(item: Item): IterationItem {
    IterationItem(if item.task.Some? then item.task.value else 0, item.iterations)
  }

  function ToIterations(items: seq<Item>): (r: seq<IterationItem>)
    ensures |r| == |items|
  {
    seq(|items|, i requires 0 <= i < |items| => ToIteration(items[i]))
  }

  /** What a released item stands for in a queue: its own closure, called `iterations + 1` times
      between the calls of the items before and after it. */
  lemma ReleasedInvocations(a: seq<Item>, x: Item, b: seq<Item>)
    requires x.task.Some?
    ensures Expand(ToIterations(a + [x] + b)) ==
            Expand(ToIterations(a)) + Repeat(x.task.value, x.iterations + 1) + Expand(ToIterations(b))
  {
    var item := IterationItem(x.task.value, x.iterations);
    assert ToIterations(a + [x] + b) == ToIterations(a) + ([item] + ToIterations(b));
    ExpandConcat(ToIterations(a), [item] + ToIterations(b));
    ExpandFirst(item, ToIterations(b));
    Assoc(Expand(ToIterations(a)), Repeat(item.task, item.iterations + 1), Expand(ToIterations(b)));
  }

  ghost predicate HaveClosures(items: multiset<Item>) {
    forall x | x in items :: x.task.Some?
  }

  /** What a queue of posted, undrained items satisfies. */
  ghost predicate IsQueue(q: seq<Item>) {
    IsHeap(q) && Distinct(multiset(q)) && HaveClosures(multiset(q))
  }

  lemma SameKeysHeap(q: seq<Item>, r: seq<Item>)
    requires IsHeap(q) && |r| == |q|
    requires forall i | 0 <= i < |q| :: r[i].timePoint == q[i].timePoint && r[i].taskId == q[i].taskId
    ensures IsHeap(r)
  {
  }

  lemma RestIsLater(q: seq<Item>)
    requires q != [] && IsQueue(q)
    ensures Distinct(multiset(q) - multiset{q[0]}) && HaveClosures(multiset(q) - multiset{q[0]})
    ensures forall y | y in multiset(q) - multiset{q[0]} :: Less(q[0], y)
  {
    var others := multiset(q) - multiset{q[0]};
    forall y | y in others ensures Less(q[0], y) {
      assert y in multiset(q) && multiset(q)[y] == 1;
      assert y != q[0];
      var i :| 0 <= i < |q| && q[i] == y;
      FrontIsLeast(q, i);
    }
  }

  /** Removing the emptied front leaves exactly the other items, all of them later. */
  lemma PoppedRest(before: seq<Item>, rest: seq<Item>)
    requires before != [] && IsQueue(before)
    requires multiset(rest) + multiset{before[0].(task := None)} == multiset(before[0 := before[0].(task := None)])
    ensures multiset(rest) + multiset{before[0]} == multiset(before)
    ensures Distinct(multiset(rest)) && HaveClosures(multiset(rest))
    ensures forall y | y in multiset(rest) :: Less(before[0], y)
  {
    var front, emptied := before[0], before[0].(task := None);
    assert multiset(before[0 := emptied]) == multiset(before) - multiset{front} + multiset{emptied};
    forall x ensures multiset(rest)[x] == (multiset(before) - multiset{front})[x] {
      assert (multiset(rest) + multiset{emptied})[x] == (multiset(before) - multiset{front} + multiset{emptied})[x];
    }
    assert multiset(rest) == multiset(before) - multiset{front};
    RestIsLater(before);
  }

  /** Moves the closure out of the front item and only then pops the emptied item. */
  method TakeFront(q: seq<Item>) returns (task: IterationItem, rest: seq<Item>)
    requires q != [] && IsQueue(q)
    ensures task == ToIteration(q[0])
    ensures IsQueue(rest) && |rest| == |q| - 1
    ensures multiset(rest) + multiset{q[0]} == multiset(q)
    ensures forall y | y in multiset(rest) :: Less(q[0], y)
  {
    assert q[0] in multiset(q);
    task := IterationItem(q[0].task.value, q[0].iterations);
    var emptied := q[0 := q[0].(task := None)];
    SameKeysHeap(q, emptied);
    var popped := PopHeap(emptied);
    rest := popped[..|popped| - 1];
    assert popped == rest + [emptied[0]];
    assert |multiset(popped)| == |multiset(emptied)|;
    PoppedRest(q, rest);
  }

  /** A drain that may not be over: everything left is later than everything taken. */
  ghost predicate Draining(items: multiset<Item>, now: int, batch: seq<Item>, rest: multiset<Item>) {
    && multiset(batch) + rest == items
    && (forall x | x in batch :: x.timePoint <= now)
    && Sorted(batch)
    && (forall x, y | x in batch && y in rest :: Less(x, y))
  }

  lemma DrainOne(items: multiset<Item>, now: int, batch: seq<Item>, before: multiset<Item>, front: Item,
                 rest: multiset<Item>)
    requires Draining(items, now, batch, before) && front.timePoint <= now
    requires rest + multiset{front} == before && forall y | y in rest :: Less(front, y)
    ensures Draining(items, now, batch + [front], rest)
  {
    assert multiset(batch + [front]) == multiset(batch) + multiset{front};
    assert front in before;
  }

  lemma LaterThanFront(q: seq<Item>, now: int)
    requires q != [] && IsHeap(q) && now < q[0].timePoint
    ensures forall x | x in multiset(q) :: now < x.timePoint
  {
    forall x | x in multiset(q) ensures now < x.timePoint {
      var i :| 0 <= i < |q| && q[i] == x;
      FrontIsLeast(q, i);
    }
  }

  /** The drain loop of both runners, taking the front as long as it is due. */
  method TakeReady(q: seq<Item>, now: int) returns (tasks: seq<IterationItem>, rest: seq<Item>, ghost batch: seq<Item>)
    requires IsQueue(q)
    ensures IsDrain(multiset(q), now, batch, multiset(rest))
    ensures tasks == ToIterations(batch)
    ensures IsQueue(rest)
  {
    tasks, rest, batch := [], q, [];
    while rest != []
      invariant Draining(multiset(q), now, batch, multiset(rest))
      invariant IsQueue(rest)
      invariant tasks == ToIterations(batch)
      decreases |rest|
    {
      if now < rest[0].timePoint {
        LaterThanFront(rest, now);
        return;
      }
      ghost var before := rest;
      var task;
      task, rest := TakeFront(rest);
      tasks := tasks + [task];
      DrainOne(multiset(q), now, batch, multiset(before), before[0], multiset(rest));
      batch := batch + [before[0]];
    }
  }
}
