/** The order in which a deadline queue releases what was posted to it, over a whole run of
    posts and drains. */
module ReleaseOrder {
  import opened Tasks
  import opened TaskHeap

  /** `bornAt[id]` is how many items had been released when item `id` was posted. */
  datatype History = History(posted: seq<Item>, bornAt: seq<nat>, released: seq<Item>)

  const EMPTY := History([], [], [])

  function AfterPost(h: History, item: Item): History {
    h.(posted := h.posted + [item], bornAt := h.bornAt + [|h.released|])
  }

  function AfterDrain(h: History, batch: seq<Item>): History {
    h.(released := h.released + batch)
  }

  /** Ids number the posts; every post is released or still queued, exactly once. */
  ghost predicate Accounts(h: History, queue: multiset<Item>) {
    && |h.bornAt| == |h.posted|
    && (forall i | 0 <= i < |h.posted| :: h.posted[i].taskId == i && h.posted[i].task.Some?)
    && multiset(h.posted) == queue + multiset(h.released)
  }

  ghost predicate Known(h: History, x: Item) {
    x.taskId < |h.posted| && h.posted[x.taskId] == x
  }

  lemma EveryItemKnown(h: History, queue: multiset<Item>)
    requires Accounts(h, queue)
    ensures forall x | x in queue :: Known(h, x)
    ensures forall x | x in h.released :: Known(h, x)
    ensures forall x | x in multiset(h.posted) :: Known(h, x)
  {
    forall x | x in multiset(h.posted) ensures Known(h, x) {
      var i :| 0 <= i < |h.posted| && h.posted[i] == x;
    }
    assert forall x | x in queue || x in h.released :: x in multiset(h.posted);
  }

  lemma {:induction false} PostedOnce(posted: seq<Item>, x: Item)
    requires forall i | 0 <= i < |posted| :: posted[i].taskId == i
    ensures multiset(posted)[x] <= 1
  {
    if posted != [] {
      var n := |posted| - 1;
      PostedOnce(posted[..n], x);
      assert posted == posted[..n] + [posted[n]];
      if x == posted[n] {
        assert forall i | 0 <= i < n :: posted[..n][i] != x;
        assert x !in posted[..n];
      }
    }
  }

  /** So the queue never holds two items with one id. */
  lemma QueueIsDistinct(h: History, queue: multiset<Item>)
    requires Accounts(h, queue)
    ensures Distinct(queue) && HaveClosures(queue)
  {
    EveryItemKnown(h, queue);
    forall x | x in queue ensures queue[x] == 1 {
      PostedOnce(h.posted, x);
      assert multiset(h.posted)[x] == queue[x] + multiset(h.released)[x];
    }
  }

  /** A drain releases a posted item exactly when it is due and has not been released before. */
  lemma DrainedExactly(h: History, queue: multiset<Item>, now: int, batch: seq<Item>, rest: multiset<Item>, id: nat)
    requires Accounts(h, queue) && IsDrain(queue, now, batch, rest) && id < |h.posted|
    ensures h.posted[id] in batch <==> h.posted[id] !in h.released && h.posted[id].timePoint <= now
    ensures forall x | x in batch || x in rest || x in h.released :: Known(h, x)
  {
    var item := h.posted[id];
    EveryItemKnown(h, queue);
    PostedOnce(h.posted, item);
    assert item in multiset(h.posted);
    assert multiset(h.posted)[item] == queue[item] + multiset(h.released)[item];
    assert queue[item] == multiset(batch)[item] + rest[item];
    assert forall x | x in batch || x in rest :: x in multiset(batch) + rest;
  }

  ghost predicate BornBefore(h: History, x: Item, i: int)
    requires |h.bornAt| == |h.posted|
  {
    x.taskId < |h.posted| && h.bornAt[x.taskId] <= i
  }

  /** Whatever was already posted when the i-th release happened and is released later, or not
      released yet, has a larger key than that release. */
  ghost predicate Ordered(h: History, queue: multiset<Item>)
    requires Accounts(h, queue)
  {
    && (forall i, j | 0 <= i < j < |h.bornAt| :: h.bornAt[i] <= h.bornAt[j])
    && (forall i | 0 <= i < |h.bornAt| :: h.bornAt[i] <= |h.released|)
    && (forall j | 0 <= j < |h.released| :: BornBefore(h, h.released[j], j))
    && (forall i, j | 0 <= i < j < |h.released| && BornBefore(h, h.released[j], i) ::
          Less(h.released[i], h.released[j]))
    && (forall i, x | 0 <= i < |h.released| && x in queue && BornBefore(h, x, i) :: Less(h.released[i], x))
  }

  ghost predicate Coherent(h: History, queue: multiset<Item>) {
    Accounts(h, queue) && Ordered(h, queue)
  }

  lemma PostKeepsAccounts(h: History, queue: multiset<Item>, item: Item)
    requires Accounts(h, queue) && item.taskId == |h.posted| && item.task.Some?
    ensures Accounts(AfterPost(h, item), queue + multiset{item})
  {
  }

  lemma PostKeepsCoherent(h: History, queue: multiset<Item>, item: Item)
    requires Coherent(h, queue) && item.taskId == |h.posted| && item.task.Some?
    ensures Coherent(AfterPost(h, item), queue + multiset{item})
  {
    var h', queue' := AfterPost(h, item), queue + multiset{item};
    PostKeepsAccounts(h, queue, item);
    EveryItemKnown(h, queue);
    forall i, x | 0 <= i < |h'.released| && x in queue' && BornBefore(h', x, i)
      ensures Less(h'.released[i], x)
    {
      assert x in queue || x == item;
      assert BornBefore(h, x, i);
    }
    forall i, j | 0 <= i < j < |h'.released| && BornBefore(h', h'.released[j], i)
      ensures Less(h'.released[i], h'.released[j])
    {
      assert Known(h, h.released[j]);
      assert BornBefore(h, h.released[j], i);
    }
    forall j | 0 <= j < |h'.released| ensures BornBefore(h', h'.released[j], j) {
      assert BornBefore(h, h.released[j], j);
    }
  }

  lemma DrainKeepsAccounts(h: History, queue: multiset<Item>, now: int, batch: seq<Item>, rest: multiset<Item>)
    requires Accounts(h, queue) && IsDrain(queue, now, batch, rest)
    ensures Accounts(AfterDrain(h, batch), rest)
    ensures forall x | x in batch || x in rest :: x in queue
    ensures forall x | x in batch || x in rest || x in h.released :: Known(h, x)
  {
    assert multiset(h.released + batch) == multiset(h.released) + multiset(batch);
    EveryItemKnown(h, queue);
    assert forall x | x in batch || x in rest :: x in multiset(batch) + rest;
  }

  /** Each release of the new history is an old one or a member of the batch. */
  lemma DrainKeepsOrder(h: History, queue: multiset<Item>, now: int, batch: seq<Item>, rest: multiset<Item>,
                         i: nat, j: nat)
    requires Coherent(h, queue) && IsDrain(queue, now, batch, rest)
    requires i < j < |h.released + batch| && BornBefore(h, (h.released + batch)[j], i)
    ensures Less((h.released + batch)[i], (h.released + batch)[j])
  {
    var n := |h.released|;
    DrainKeepsAccounts(h, queue, now, batch, rest);
    if i < n <= j {
      assert batch[j - n] in batch;
      assert batch[j - n] in queue;
    }
  }

  lemma DrainKeepsRestLater(h: History, queue: multiset<Item>, now: int, batch: seq<Item>, rest: multiset<Item>,
                             i: nat, x: Item)
    requires Coherent(h, queue) && IsDrain(queue, now, batch, rest)
    requires i < |h.released + batch| && x in rest && BornBefore(h, x, i)
    ensures Less((h.released + batch)[i], x)
  {
    var n := |h.released|;
    DrainKeepsAccounts(h, queue, now, batch, rest);
    if i < n {
      assert x in queue;
    } else {
      assert batch[i - n] in batch;
    }
  }

  lemma DrainKeepsCoherent(h: History, queue: multiset<Item>, now: int, batch: seq<Item>, rest: multiset<Item>)
    requires Coherent(h, queue) && IsDrain(queue, now, batch, rest)
    ensures Coherent(AfterDrain(h, batch), rest)
  {
    var h', n := AfterDrain(h, batch), |h.released|;
    DrainKeepsAccounts(h, queue, now, batch, rest);
    forall j | 0 <= j < |h'.released| ensures BornBefore(h', h'.released[j], j) {
      if j >= n {
        assert batch[j - n] in batch;
        assert Known(h, batch[j - n]);
      }
    }
    hide IsDrain;
    forall i, j | 0 <= i < j < |h'.released| && BornBefore(h', h'.released[j], i)
      ensures Less(h'.released[i], h'.released[j])
    {
      DrainKeepsOrder(h, queue, now, batch, rest, i, j);
    }
    forall i, x | 0 <= i < |h'.released| && x in rest && BornBefore(h', x, i)
      ensures Less(h'.released[i], x)
    {
      DrainKeepsRestLater(h, queue, now, batch, rest, i, x);
    }
  }

  /** An item with a smaller key that was already posted when the j-th item was released
      has been released before it. */
  lemma NeverOvertaken(h: History, queue: multiset<Item>, x: nat, j: nat)
    requires Coherent(h, queue) && x < |h.posted| && j < |h.released|
    requires h.bornAt[x] <= j && Less(h.posted[x], h.released[j])
    ensures exists i | 0 <= i < j :: h.released[i] == h.posted[x]
  {
    var first := h.posted[x];
    EveryItemKnown(h, queue);
    assert BornBefore(h, first, j);
    assert first in multiset(h.posted);
    if first !in queue {
      var i :| 0 <= i < |h.released| && h.released[i] == first;
    }
  }

  /** Tasks posted in the order of their time points come out in posting order: with a clock
      that does not go back, tasks of equal delay are released in the order posted. */
  lemma EqualDelaysAreFifo(h: History, queue: multiset<Item>, x: nat, y: nat, j: nat)
    requires Coherent(h, queue) && x < y < |h.posted|
    requires h.posted[x].timePoint <= h.posted[y].timePoint
    requires j < |h.released| && h.released[j] == h.posted[y]
    ensures exists i | 0 <= i < j :: h.released[i] == h.posted[x]
  {
    assert BornBefore(h, h.released[j], j);
    NeverOvertaken(h, queue, x, j);
  }
}
