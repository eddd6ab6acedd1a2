/** Where the tasks sent to a core are: conservation, step by step. */
module CoreCounts {
  import opened Sequences
  import opened CoreModel

  /** How many messages carry a task named `id`. */
  function Sent(ms: seq<Message>, id: TaskId): (k: nat) {
    if ms == [] then 0
    else (if ms[0].TaskMsg? && ms[0].task.id == id then 1 else 0) + Sent(ms[1..], id)
  }

  function Queued(ts: seq<Task>, id: TaskId): (k: nat) {
    if ts == [] then 0 else (if ts[0].id == id then 1 else 0) + Queued(ts[1..], id)
  }

  function Logged(log: seq<TaskId>, id: TaskId): (k: nat) {
    multiset(log)[id]
  }

  /** How often `id` is queued, finished or cancelled. */
  function Handled(c: Core, id: TaskId): (k: nat) {
    Queued(c.queue, id) + Logged(c.completed, id) + Logged(c.cancelled, id)
  }

  /** How often `id` is anywhere on the core. */
  function Places(c: Core, id: TaskId): (k: nat) {
    Sent(c.inbox, id) + Handled(c, id)
  }

  lemma {:induction false} SentAppend(a: seq<Message>, b: seq<Message>, id: TaskId)
    ensures Sent(a + b, id) == Sent(a, id) + Sent(b, id)
  {
    if a == [] {
      assert a + b == b;
    } else {
      SentAppend(a[1..], b, id);
      assert (a + b)[1..] == a[1..] + b;
    }
  }

  lemma {:induction false} QueuedAppend(a: seq<Task>, b: seq<Task>, id: TaskId)
    ensures Queued(a + b, id) == Queued(a, id) + Queued(b, id)
  {
    if a == [] {
      assert a + b == b;
    } else {
      QueuedAppend(a[1..], b, id);
      assert (a + b)[1..] == a[1..] + b;
    }
  }

  lemma {:induction false} QueuedIds(ts: seq<Task>, id: TaskId)
    ensures Logged(Ids(ts), id) == Queued(ts, id)
  {
    if ts == [] {
      assert Ids(ts) == [];
    } else {
      QueuedIds(ts[1..], id);
      assert Ids(ts) == [ts[0].id] + Ids(ts[1..]);
    }
  }

  lemma {:induction false} QueuedSplit(ts: seq<Task>, x: TaskId, id: TaskId)
    ensures Queued(Filter(NotNamed(x), ts), id) + Queued(Filter(Named(x), ts), id) == Queued(ts, id)
  {
    if ts != [] {
      QueuedSplit(ts[1..], x, id);
      assert ts == [ts[0]] + ts[1..];
      FilterCons(Named(x), ts[0], ts[1..]);
      FilterCons(NotNamed(x), ts[0], ts[1..]);
      QueuedAppend([ts[0]], Filter(Named(x), ts[1..]), id);
      QueuedAppend([ts[0]], Filter(NotNamed(x), ts[1..]), id);
    }
  }

  /** Handling a message moves its task, if it carries one, from the inbox to the queue. */
  lemma PopConserves(c: Core, id: TaskId)
    requires c.inbox != []
    ensures Places(PopMessage(c), id) == Places(c, id)
    ensures Handled(PopMessage(c), id) == Handled(c, id) + Sent([c.inbox[0]], id)
  {
    match c.inbox[0]
    case TaskMsg(t) => QueuedAppend(c.queue, [t], id);
    case CancelTask(x) =>
      QueuedSplit(c.queue, x, id);
      QueuedIds(Filter(Named(x), c.queue), id);
    case _ =>
  }

  lemma PollConserves(c: Core, id: TaskId)
    requires c.queue != []
    ensures Places(PollOne(c), id) == Places(c, id)
    ensures Handled(PollOne(c), id) == Handled(c, id)
  {
    var t := c.queue[0];
    assert c.queue == [t] + c.queue[1..];
    if t.life != Ends(0) {
      var back := if t.life.Forever? then t else t.(life := Ends(t.life.polls - 1));
      QueuedAppend(c.queue[1..], [back], id);
    }
  }

  lemma RemovedSize(ts: seq<Task>, id: TaskId)
    ensures |Filter(NotNamed(id), ts)| + |Filter(Named(id), ts)| == |ts|
  {
    FilterSplits(Named(id), NotNamed(id), ts);
    assert |multiset(ts)| == |ts|;
  }
}
