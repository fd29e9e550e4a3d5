/** `PollingTaskRunner`: tasks are queued by deadline and run, a batch at a time, by whoever
    polls.  The clock readings are parameters, and so is what each task posts while it runs. */
module PollingTaskRunner {
  import opened Collections
  import opened Options
  import opened Tasks
  import opened TaskHeap
  import opened ReleaseOrder

  /** A call of PostDelayedTaskWithIterations: `now` is the clock reading it takes. */
  datatype Request = Request(task: Task, now: int, delay: nat, iterations: nat)

  function ItemOf(r: Request, id: nat): Item {
    Item(Some(r.task), r.now + r.delay, id, r.iterations)
  }

  function ItemsOf(rs: seq<Request>, firstId: nat): (items: seq<Item>)
    ensures |items| == |rs|
  {
    seq(|rs|, i requires 0 <= i < |rs| => ItemOf(rs[i], firstId + i))
  }

  /** What the first `calls` invocations post, in order. */
  function Requests(posts: nat -> seq<Request>, calls: nat): seq<Request> {
    if calls == 0 then [] else Requests(posts, calls - 1) + posts(calls - 1)
  }

  lemma ItemsOfAppend(rs: seq<Request>, r: Request, firstId: nat)
    ensures ItemsOf(rs + [r], firstId) == ItemsOf(rs, firstId) + [ItemOf(r, firstId + |rs|)]
  {
  }

  lemma CoherentQueue(h: History, queue: multiset<Item>)
    requires Coherent(h, queue)
    ensures Distinct(queue) && HaveClosures(queue)
  {
    QueueIsDistinct(h, queue);
  }

  lemma CoherentAccounts(h: History, queue: multiset<Item>)
    requires Coherent(h, queue)
    ensures Accounts(h, queue)
  {
  }

  lemma NoRequests(posts: nat -> seq<Request>, requests: seq<Request>, rest: multiset<Item>)
    ensures requests == requests + Requests(posts, 0)
    ensures rest == rest + multiset(ItemsOf(Requests(posts, 0), |requests|))
  {
  }

  lemma ItemsOfConcat(a: seq<Request>, b: seq<Request>, firstId: nat)
    ensures ItemsOf(a + b, firstId) == ItemsOf(a, firstId) + ItemsOf(b, firstId + |a|)
  {
  }

  lemma RequestsMore(posts: nat -> seq<Request>, calls: nat, requests0: seq<Request>, rest: multiset<Item>)
    ensures var known, more := Requests(posts, calls), posts(calls);
            && requests0 + Requests(posts, calls + 1) == requests0 + known + more
            && rest + multiset(ItemsOf(Requests(posts, calls + 1), |requests0|))
               == rest + multiset(ItemsOf(known, |requests0|)) + multiset(ItemsOf(more, |requests0 + known|))
  {
    var known := Requests(posts, calls);
    ItemsOfConcat(known, posts(calls), |requests0|);
    Assoc(requests0, known, posts(calls));
  }

  lemma ExpandNone(tasks: seq<IterationItem>, ran: seq<Task>)
    ensures TotalInvocations(tasks[..0]) == 0 && ran == ran + Expand(tasks[..0])
  {
  }

  lemma ExpandMore(tasks: seq<IterationItem>, t: nat, ran: seq<Task>)
    requires t < |tasks|
    ensures TotalInvocations(tasks[..t + 1]) == TotalInvocations(tasks[..t]) + tasks[t].iterations + 1
    ensures ran + Expand(tasks[..t + 1]) == ran + Expand(tasks[..t]) + Repeat(tasks[t].task, tasks[t].iterations + 1)
  {
    var calls := Repeat(tasks[t].task, tasks[t].iterations + 1);
    assert tasks[..t + 1] == tasks[..t] + [tasks[t]];
    assert [tasks[t]] + [] == [tasks[t]];
    ExpandFirst(tasks[t], []);
    assert calls + [] == calls;
    ExpandConcat(tasks[..t], [tasks[t]]);
    TotalInvocationsConcat(tasks[..t], [tasks[t]]);
    Assoc(ran, Expand(tasks[..t]), calls);
  }

  // ----- what is due, in terms of what was posted -----

  predicate Numbers(ids: seq<nat>, n: nat) {
    forall i | 0 <= i < |ids| :: ids[i] < n
  }

  /** `ids` are the requests, by number, that were not released before and whose delay is over
      at `now`: all of them, by deadline, and those of one deadline as they were posted. */
  ghost predicate RunsDue(rs: seq<Request>, done: set<nat>, now: int, ids: seq<nat>) {
    && Numbers(ids, |rs|)
    && (forall id: nat | id < |rs| :: id in ids <==> id !in done && rs[id].now + rs[id].delay <= now)
    && (forall i, j | 0 <= i < j < |ids| ::
          var d, e := rs[ids[i]].now + rs[ids[i]].delay, rs[ids[j]].now + rs[ids[j]].delay;
          d < e || (d == e && ids[i] < ids[j]))
  }

  /** Their calls: each request's closure, `iterations + 1` times in a row. */
  function Calls(rs: seq<Request>, ids: seq<nat>): seq<Task>
    requires Numbers(ids, |rs|)
  {
    if ids == [] then [] else Repeat(rs[ids[0]].task, rs[ids[0]].iterations + 1) + Calls(rs, ids[1..])
  }

  function Ids(items: seq<Item>): (ids: seq<nat>)
    ensures |ids| == |items|
  {
    seq(|items|, i requires 0 <= i < |items| => items[i].taskId)
  }

  function Done(h: History): set<nat> { set x | x in h.released :: x.taskId }

  ghost predicate ArePosts(items: seq<Item>, rs: seq<Request>) {
    forall x | x in items :: x.taskId < |rs| && x == ItemOf(rs[x.taskId], x.taskId)
  }

  lemma DrainIsKnown(h: History, queue: multiset<Item>, now: int, batch: seq<Item>, rest: multiset<Item>)
    requires Accounts(h, queue) && IsDrain(queue, now, batch, rest)
    ensures forall x | x in batch :: Known(h, x)
  {
    EveryItemKnown(h, queue);
    assert forall x | x in batch :: x in multiset(batch) + rest;
  }

  lemma DueExactly(rs: seq<Request>, h: History, queue: multiset<Item>, now: int, batch: seq<Item>,
                   rest: multiset<Item>)
    requires Accounts(h, queue) && h.posted == ItemsOf(rs, 0) && IsDrain(queue, now, batch, rest)
    ensures RunsDue(rs, Done(h), now, Ids(batch))
    ensures ArePosts(batch, rs)
  {
    forall id: nat | id < |rs|
      ensures h.posted[id] in batch <==> id !in Done(h) && rs[id].now + rs[id].delay <= now
    {
      DrainedExactly(h, queue, now, batch, rest, id);
      if id in Done(h) {
        var x :| x in h.released && x.taskId == id;
        assert Known(h, x);
      }
    }
    DrainIsKnown(h, queue, now, batch, rest);
    forall id: nat ensures id in Ids(batch) <==> id < |rs| && h.posted[id] in batch {
      if id in Ids(batch) {
        var i :| 0 <= i < |batch| && Ids(batch)[i] == id;
        assert batch[i] in batch && Known(h, batch[i]);
      }
      if id < |rs| && h.posted[id] in batch {
        var i :| 0 <= i < |batch| && batch[i] == h.posted[id];
        assert Ids(batch)[i] == id;
      }
    }
    forall x | x in batch ensures x.taskId < |rs| && x == ItemOf(rs[x.taskId], x.taskId) {
      assert Known(h, x);
    }
    forall i, j | 0 <= i < j < |batch| ensures Less(batch[i], batch[j]) && batch[i] in batch && batch[j] in batch {
      OrderedPair(batch, i, j);
    }
  }

  lemma {:induction false} CallsOfBatch(rs: seq<Request>, batch: seq<Item>)
    requires ArePosts(batch, rs)
    ensures Numbers(Ids(batch), |rs|)
    ensures Expand(ToIterations(batch)) == Calls(rs, Ids(batch))
  {
    if batch != [] {
      assert batch[0] in batch && forall x | x in batch[1..] :: x in batch;
      CallsOfBatch(rs, batch[1..]);
      assert Ids(batch)[1..] == Ids(batch[1..]);
      assert batch == [] + [batch[0]] + batch[1..];
      ReleasedInvocations([], batch[0], batch[1..]);
    }
  }

  class PollingTaskRunner {
    var pendingTasks: seq<IterationItem>
    var queue: seq<Item>
    var taskId: nat

    ghost var h: History
    /** Every post made so far. */
    ghost var requests: seq<Request>
    /** Every invocation made so far. */
    ghost var ran: seq<Task>

    ghost predicate Consistent()
      reads this
    {
      && IsHeap(queue) && Coherent(h, multiset(queue)) && taskId == |h.posted|
      && h.posted == ItemsOf(requests, 0)
    }

    ghost predicate Valid()
      reads this
    {
      Consistent() && pendingTasks == []
    }

    constructor ()
      ensures Valid() && h == EMPTY && requests == [] && ran == []
    {
      pendingTasks, queue, taskId := [], [], 0;
      h, requests, ran := EMPTY, [], [];
    }

    method PostDelayedTaskWithIterations(r: Request)
      requires Consistent()
      modifies this
      ensures Consistent()
      ensures requests == old(requests) + [r] && h == AfterPost(old(h), ItemOf(r, old(taskId)))
      ensures multiset(queue) == old(multiset(queue)) + multiset{ItemOf(r, old(taskId))}
      ensures pendingTasks == old(pendingTasks) && ran == old(ran)
    {
      hide Coherent, IsHeap;
      var item := Item(Some(r.task), r.now + r.delay, taskId, r.iterations);
      PostKeepsCoherent(h, multiset(queue), item);
      queue := Enqueue(queue, item);
      taskId := taskId + 1;
      h := AfterPost(h, item);
      ItemsOfAppend(requests, r, 0);
      requests := requests + [r];
    }

    /** One call of a task, during which it posts `posts`. */
    method Invoke(task: Task, posts: seq<Request>)
      requires Consistent()
      modifies this
      ensures Consistent()
      ensures ran == old(ran) + [task]
      ensures pendingTasks == old(pendingTasks) && h.released == old(h.released)
      ensures requests == old(requests) + posts
      ensures multiset(queue) == old(multiset(queue)) + multiset(ItemsOf(posts, |old(requests)|))
    {
      hide Coherent, IsHeap;
      ran := ran + [task];
      for i := 0 to |posts|
        invariant Consistent() && ran == old(ran) + [task]
        invariant pendingTasks == old(pendingTasks) && h.released == old(h.released)
        invariant requests == old(requests) + posts[..i]
        invariant multiset(queue) == old(multiset(queue)) + multiset(ItemsOf(posts[..i], |old(requests)|))
      {
        ItemsOfAppend(posts[..i], posts[i], |old(requests)|);
        assert posts[..i + 1] == posts[..i] + [posts[i]];
        PostDelayedTaskWithIterations(posts[i]);
      }
      assert posts[..|posts|] == posts;
    }

    /** What a round of calls has posted since `requests0` and a queue that then held `rest`. */
    ghost predicate Round(posts: nat -> seq<Request>, calls: nat, requests0: seq<Request>, rest: multiset<Item>)
      reads this
    {
      && requests == requests0 + Requests(posts, calls)
      && multiset(queue) == rest + multiset(ItemsOf(Requests(posts, calls), |requests0|))
    }

    /** One released task: `iterations + 1` calls in a row, the first of them being call
        number `calls` of the round. */
    method RunTask(task: IterationItem, calls: nat, posts: nat -> seq<Request>,
                   ghost requests0: seq<Request>, ghost rest: multiset<Item>)
      requires Consistent() && Round(posts, calls, requests0, rest)
      modifies this
      ensures Consistent() && Round(posts, calls + task.iterations + 1, requests0, rest)
      ensures pendingTasks == old(pendingTasks) && h.released == old(h.released)
      ensures ran == old(ran) + Repeat(task.task, task.iterations + 1)
    {
      hide Coherent, IsHeap, ItemsOf, Requests;
      assert Repeat(task.task, 0) == [];
      for i := 0 to task.iterations + 1
        invariant Consistent() && Round(posts, calls + i, requests0, rest)
        invariant pendingTasks == old(pendingTasks) && h.released == old(h.released)
        invariant ran == old(ran) + Repeat(task.task, i)
      {
        RequestsMore(posts, calls + i, requests0, rest);
        RepeatLast(task.task, i);
        Assoc(old(ran), Repeat(task.task, i), [task.task]);
        Invoke(task.task, posts(calls + i));
      }
    }

    /** Runs what is due at `now`, and only that: each request whose delay is over is called
        `iterations + 1` times in a row, in the order of the deadlines.  What the k-th call posts
        (`posts(k)`) is queued and not run here. */
    method RunPendingTasks(now: int, posts: nat -> seq<Request>)
      returns (ghost batch: seq<Item>, ghost rest: multiset<Item>)
      requires Valid()
      modifies this
      ensures Valid()
      ensures IsDrain(old(multiset(queue)), now, batch, rest)
      ensures h.released == old(h.released) + batch
      ensures RunsDue(old(requests), Done(old(h)), now, Ids(batch))
      ensures ran == old(ran) + Calls(old(requests), Ids(batch))
      ensures Round(posts, |Calls(old(requests), Ids(batch))|, old(requests), rest)
    {
      hide Coherent, IsHeap, IsDrain, Distinct, HaveClosures, ToIterations, Requests, Expand, TotalInvocations;
      hide RunsDue, Calls, Ids, ItemsOf;
      CoherentAccounts(h, multiset(queue));
      CoherentQueue(h, multiset(queue));
      var later := [];
      pendingTasks, later, batch := TakeReady(queue, now);
      rest := multiset(later);
      DrainKeepsCoherent(h, multiset(queue), now, batch, rest);
      queue := later;
      h := AfterDrain(h, batch);
      NoRequests(posts, requests, rest);
      DueExactly(requests, old(h), old(multiset(queue)), now, batch, rest);
      CallsOfBatch(requests, batch);
      ExpandLength(ToIterations(batch));

      var calls: nat := 0;
      ghost var tasks := pendingTasks;
      ExpandNone(tasks, ran);
      for t := 0 to |pendingTasks|
        invariant Consistent() && pendingTasks == tasks
        invariant calls == TotalInvocations(tasks[..t])
        invariant Round(posts, calls, old(requests), rest)
        invariant h.released == old(h.released) + batch
        invariant ran == old(ran) + Expand(tasks[..t])
      {
        ExpandMore(tasks, t, old(ran));
        var task := pendingTasks[t];
        RunTask(task, calls, posts, old(requests), rest);
        calls := calls + task.iterations + 1;
      }
      assert tasks[..|tasks|] == tasks;
      pendingTasks := [];
    }
  }
}
