/** One core and the history of its inbox: what every message and every poll keeps, and what became of each
    task that was sent. */
module CoreHistory {
  import opened Sequences
  import opened CoreModel
  import opened CoreCounts
  import opened CoreStop

  // ----- The inbox -----

  function Shutdowns(ms: seq<Message>): (k: nat) {
    if ms == [] then 0 else (if ms[0].Shutdown? then 1 else 0) + Shutdowns(ms[1..])
  }

  lemma {:induction false} ShutdownsAppend(a: seq<Message>, b: seq<Message>)
    ensures Shutdowns(a + b) == Shutdowns(a) + Shutdowns(b)
  {
    if a == [] {
      assert a + b == b;
    } else {
      ShutdownsAppend(a[1..], b);
      assert (a + b)[1..] == a[1..] + b;
    }
  }

  /** The messages a core has taken out of its inbox, given all that were pushed. */
  function Popped(c: Core, pushed: seq<Message>): (r: seq<Message>) {
    if |c.inbox| <= |pushed| then pushed[..|pushed| - |c.inbox|] else []
  }

  /** The inbox is the end of what was pushed; the tasks in front of it are queued, finished or
      cancelled; only they were polled; and the flag is up exactly when the last message taken was
      the shutdown; and every task has been polled as often as its life allows. */
  ghost predicate CoreInv(c: Core, pushed: seq<Message>) {
    var popped := Popped(c, pushed);
    && pushed == popped + c.inbox
    && (forall id :: Handled(c, id) == Sent(popped, id))
    && (forall id :: id in c.polled ==> Sent(popped, id) > 0)
    && Shutdowns(popped) == (if c.shutdown then 1 else 0)
    && (c.shutdown ==> popped != [] && popped[|popped| - 1].Shutdown?)
    && c.count == |c.queue| + |c.cancelled| && (c.cancelled != [] ==> Cancels(popped))
    && LivesKept(c, popped)
  }

  /** Some message among `ms` is a cancellation. */
  ghost predicate Cancels(ms: seq<Message>) {
    exists i :: 0 <= i < |ms| && ms[i].CancelTask?
  }

  /** Handling a message keeps the counter at the queue and the cancelled tasks together. */
  lemma PopCounts(c: Core)
    requires c.inbox != [] && c.count == |c.queue| + |c.cancelled|
    ensures var r := PopMessage(c);
            r.count == |r.queue| + |r.cancelled| && (r.cancelled != c.cancelled ==> c.inbox[0].CancelTask?)
  {
    if c.inbox[0].CancelTask? { RemovedSize(c.queue, c.inbox[0].id); }
  }

  lemma CancelsAppend(ms: seq<Message>, m: Message)
    ensures Cancels(ms + [m]) <==> Cancels(ms) || m.CancelTask?
  {
    var all := ms + [m];
    if Cancels(ms) {
      var i :| 0 <= i < |ms| && ms[i].CancelTask?;
      assert all[i].CancelTask?;
    }
    if m.CancelTask? { assert all[|ms|].CancelTask?; }
  }

  // ----- The lives of the tasks -----

  /** How a life goes on: of a finite one, one poll is gone for each of `n`. */
  predicate Aged(was: Life, n: nat, now: Life) {
    if was.Forever? then now.Forever? else now.Ends? && n + now.polls == was.polls
  }

  /** A task sent with this life: while it is queued it has been polled at most as often as it answers
      Pending; it is finished exactly when it was polled once more than that, and never if it does so for
      ever. */
  ghost predicate LifeKept(c: Core, t: Task) {
    var n := Logged(c.polled, t.id);
    && (forall x :: x in c.queue && x.id == t.id ==> Aged(t.life, n, x.life))
    && (t.id in c.completed <==> t.life.Ends? && n == t.life.polls + 1)
    && (t.life.Ends? ==> n <= t.life.polls + 1)
  }

  /** So it is with every task sent once. */
  ghost predicate LivesKept(c: Core, ms: seq<Message>) {
    forall t :: TaskMsg(t) in ms && Sent(ms, t.id) == 1 ==> LifeKept(c, t)
  }

  lemma {:induction false} SentMember(ms: seq<Message>, t: Task)
    requires TaskMsg(t) in ms
    ensures Sent(ms, t.id) > 0
  {
    if ms[0] != TaskMsg(t) { SentMember(ms[1..], t); }
  }

  lemma {:induction false} QueuedMember(ts: seq<Task>, t: Task)
    requires t in ts
    ensures Queued(ts, t.id) > 0
  {
    if ts[0] != t { QueuedMember(ts[1..], t); }
  }

  /** A task that is nowhere on the core. */
  lemma Unseen(c: Core, t: Task)
    requires Handled(c, t.id) == 0 && t.id !in c.polled
    ensures LifeKept(c, t) && LifeKept(c.(queue := c.queue + [t]), t)
  {
    forall x | x in c.queue ensures x.id != t.id { QueuedMember(c.queue, x); }
  }

  /** The task at the front is the only one of its name. */
  lemma FrontAlone(c: Core)
    requires c.queue != [] && Handled(c, c.queue[0].id) == 1
    ensures var id := c.queue[0].id; id !in c.completed && forall x :: x in c.queue[1..] ==> x.id != id
  {
    forall x | x in c.queue[1..] ensures x.id != c.queue[0].id { QueuedMember(c.queue[1..], x); }
  }

  lemma PolledOnce(c: Core, id: TaskId)
    requires c.queue != []
    ensures Logged(PollOne(c).polled, id) == Logged(c.polled, id) + if c.queue[0].id == id then 1 else 0
  {
  }

  lemma PollKeepsLife(c: Core, t: Task)
    requires c.queue != [] && LifeKept(c, t) && Handled(c, t.id) == 1
    ensures LifeKept(PollOne(c), t)
  {
    var x, r := c.queue[0], PollOne(c);
    PolledOnce(c, t.id);
    assert c.queue == [x] + c.queue[1..];
    if x.id == t.id { FrontAlone(c); }
  }

  lemma PopKeepsLife(c: Core, t: Task)
    requires c.inbox != [] && LifeKept(c, t) && (c.inbox[0].TaskMsg? ==> c.inbox[0].task.id != t.id)
    ensures LifeKept(PopMessage(c), t)
  {
    if c.inbox[0].CancelTask? { FilterMembers(NotNamed(c.inbox[0].id), c.queue); }
  }

  lemma PopKeepsLives(c: Core, popped: seq<Message>)
    requires c.inbox != [] && LivesKept(c, popped)
    requires forall id :: Handled(c, id) == Sent(popped, id) && (id in c.polled ==> Sent(popped, id) > 0)
    ensures LivesKept(PopMessage(c), popped + [c.inbox[0]])
  {
    var m, all := c.inbox[0], popped + [c.inbox[0]];
    forall t | TaskMsg(t) in all && Sent(all, t.id) == 1 ensures LifeKept(PopMessage(c), t) {
      SentAppend(popped, [m], t.id);
      if m.TaskMsg? && m.task.id == t.id {
        if TaskMsg(t) in popped { SentMember(popped, t); }
        Unseen(c, t);
      } else {
        PopKeepsLife(c, t);
      }
    }
  }

  // ----- Each step keeps all this -----

  lemma PushKeepsCore(c: Core, pushed: seq<Message>, m: Message)
    requires CoreInv(c, pushed)
    ensures CoreInv(c.(inbox := c.inbox + [m]), pushed + [m])
  {
    var c1 := c.(inbox := c.inbox + [m]);
    assert Popped(c1, pushed + [m]) == Popped(c, pushed);
    assert pushed + [m] == Popped(c, pushed) + (c.inbox + [m]);
    assert forall id :: Handled(c1, id) == Handled(c, id);
    assert forall t :: LifeKept(c, t) ==> LifeKept(c1, t);
  }

  lemma PopKeepsCore(c: Core, pushed: seq<Message>)
    requires CoreInv(c, pushed) && c.inbox != [] && !c.shutdown
    ensures CoreInv(PopMessage(c), pushed)
  {
    var r, popped, m := PopMessage(c), Popped(c, pushed), c.inbox[0];
    PoppedNext(c, pushed);
    assert c.inbox == [m] + c.inbox[1..];
    ShutdownsAppend(popped, [m]);
    PopCounts(c);
    CancelsAppend(popped, m);
    PopKeepsLives(c, popped);
    forall id ensures Handled(r, id) == Sent(popped + [m], id) && (id in r.polled ==> Sent(popped + [m], id) > 0) {
      PopConserves(c, id);
      SentAppend(popped, [m], id);
    }
  }

  lemma PoppedNext(c: Core, pushed: seq<Message>)
    requires c.inbox != [] && pushed == Popped(c, pushed) + c.inbox
    ensures Popped(PopMessage(c), pushed) == Popped(c, pushed) + [c.inbox[0]]
  {
  }

  lemma PollKeepsCore(c: Core, pushed: seq<Message>)
    requires CoreInv(c, pushed) && c.queue != []
    ensures CoreInv(PollOne(c), pushed)
  {
    var r := PollOne(c);
    assert Popped(r, pushed) == Popped(c, pushed);
    forall id ensures Handled(r, id) == Sent(Popped(c, pushed), id) {
      PollConserves(c, id);
    }
    assert Handled(c, c.queue[0].id) > 0;
    forall t | TaskMsg(t) in Popped(c, pushed) && Sent(Popped(c, pushed), t.id) == 1 ensures LifeKept(r, t) {
      PollKeepsLife(c, t);
    }
  }

  lemma FreshHandled(id: TaskId)
    ensures Handled(NEW_CORE, id) == 0
  {
  }

  lemma FreshCore()
    ensures CoreInv(NEW_CORE, [])
  {
    assert Popped(NEW_CORE, []) == [] && Shutdowns([]) == 0;
    forall id ensures Handled(NEW_CORE, id) == Sent([], id) {
      FreshHandled(id);
    }
  }

  // ----- Cancellation -----

  /** A cancellation takes every task of that name out of the queue, and leaves the others. */
  lemma CancelRemoves(c: Core, id: TaskId)
    requires c.inbox != [] && c.inbox[0].CancelTask?
    ensures var x, r := c.inbox[0].id, PopMessage(c);
            && Queued(r.queue, id) == (if id == x then 0 else Queued(c.queue, id))
            && Logged(r.cancelled, id) == Logged(c.cancelled, id) + if id == x then Queued(c.queue, id) else 0
  {
    var x := c.inbox[0].id;
    QueuedSplit(c.queue, x, id);
    QueuedIds(Filter(Named(x), c.queue), id);
    FilterMembers(NotNamed(x), c.queue);
    FilterMembers(Named(x), c.queue);
    if id == x { NoneQueued(Filter(NotNamed(x), c.queue), id); } else { NoneQueued(Filter(Named(x), c.queue), id); }
  }

  lemma {:induction false} NoneQueued(ts: seq<Task>, id: TaskId)
    requires forall t :: t in ts ==> t.id != id
    ensures Queued(ts, id) == 0
  {
    if ts != [] { NoneQueued(ts[1..], id); }
  }

  /** The core neither holds the task nor will find it in its inbox. */
  predicate Absent(c: Core, id: TaskId) {
    Queued(c.queue, id) == 0 && Sent(c.inbox, id) == 0
  }

  lemma PopKeepsAbsent(c: Core, id: TaskId)
    requires c.inbox != [] && Absent(c, id)
    ensures Absent(PopMessage(c), id) && PopMessage(c).polled == c.polled
  {
    match c.inbox[0]
    case TaskMsg(t) => QueuedAppend(c.queue, [t], id);
    case CancelTask(_) => CancelRemoves(c, id);
    case _ =>
  }

  lemma PollKeepsAbsent(c: Core, id: TaskId)
    requires c.queue != [] && Absent(c, id)
    ensures Absent(PollOne(c), id) && Logged(PollOne(c).polled, id) == Logged(c.polled, id)
  {
    var t := c.queue[0];
    PolledOnce(c, id);
    if t.life != Ends(0) {
      var back := if t.life.Forever? then t else t.(life := Ends(t.life.polls - 1));
      QueuedAppend(c.queue[1..], [back], id);
    }
  }

  // ----- Every run of a core -----

  lemma {:induction false} PushAllKeeps(c: Core, pushed: seq<Message>, ms: seq<Message>)
    requires CoreInv(c, pushed)
    ensures CoreInv(c.(inbox := c.inbox + ms), pushed + ms)
    decreases ms
  {
    hide CoreInv;
    if ms == [] {
      assert c.inbox + ms == c.inbox && pushed + ms == pushed;
    } else {
      PushKeepsCore(c, pushed, ms[0]);
      PushAllKeeps(c.(inbox := c.inbox + [ms[0]]), pushed + [ms[0]], ms[1..]);
      assert ms == [ms[0]] + ms[1..];
      Associate(c.inbox, [ms[0]], ms[1..]);
      Associate(pushed, [ms[0]], ms[1..]);
    }
  }

  lemma {:induction false} ProcessKeeps(c: Core, pushed: seq<Message>, budget: nat)
    requires CoreInv(c, pushed) && !c.shutdown
    ensures CoreInv(ProcessMessages(c, budget), pushed)
    decreases budget
  {
    if budget > 0 && c.inbox != [] {
      PopKeepsCore(c, pushed);
      if !c.inbox[0].Shutdown? { ProcessKeeps(PopMessage(c), pushed, budget - 1); }
    }
  }

  lemma {:induction false} ExecuteKeeps(c: Core, pushed: seq<Message>, budget: nat)
    requires CoreInv(c, pushed)
    ensures CoreInv(ExecuteTasks(c, budget), pushed)
    decreases budget
  {
    if budget > 0 && c.queue != [] {
      PollKeepsCore(c, pushed);
      ExecuteKeeps(PollOne(c), pushed, budget - 1);
    }
  }

  /** A task of which no other message on the core bears the name. */
  lemma SentOnceKept(c: Core, pushed: seq<Message>, others: seq<Message>, t: Task)
    requires CoreInv(c, pushed) && TaskMsg(t) in pushed + others && Sent(pushed + others, t.id) == 1
    ensures LifeKept(c, t)
  {
    var popped := Popped(c, pushed);
    SentAppend(popped, c.inbox, t.id);
    SentAppend(pushed, others, t.id);
    if Sent(popped, t.id) == 0 {
      Unseen(c, t);
    } else {
      if TaskMsg(t) in c.inbox { SentMember(c.inbox, t); }
      if TaskMsg(t) in others { SentMember(others, t); }
      assert TaskMsg(t) in popped;
    }
  }

  lemma {:induction false} LoopKeepsLife(c: Core, pushed: seq<Message>, arrivals: seq<seq<Message>>, t: Task)
    requires CoreInv(c, pushed)
    requires TaskMsg(t) in pushed + Flat(arrivals) && Sent(pushed + Flat(arrivals), t.id) == 1
    ensures LifeKept(Loop(c, arrivals), t)
    decreases arrivals
  {
    if arrivals == [] || c.shutdown {
      SentOnceKept(c, pushed, Flat(arrivals), t);
    } else {
      var c1, all := c.(inbox := c.inbox + arrivals[0]), pushed + arrivals[0];
      PushAllKeeps(c, pushed, arrivals[0]);
      ProcessKeeps(c1, all, MESSAGES_PER_TURN);
      ExecuteKeeps(CoreModel.ProcessMessages(c1, MESSAGES_PER_TURN), all, POLLS_PER_TURN);
      Associate(pushed, arrivals[0], Flat(arrivals[1..]));
      LoopKeepsLife(Turn(c1), all, arrivals[1..], t);
    }
  }

  /** Over every run of the event loop of a new core, a task sent once is finished if and only if it was
      polled once more than it answers Pending; until then it is queued with its life aged by its polls,
      unless it is still in the inbox or was cancelled. */
  lemma FinishedIff(arrivals: seq<seq<Message>>, t: Task)
    requires TaskMsg(t) in Flat(arrivals) && Sent(Flat(arrivals), t.id) == 1
    ensures var c := Loop(NEW_CORE, arrivals);
            var n := Logged(c.polled, t.id);
            && (t.id in c.completed <==> t.life.Ends? && n == t.life.polls + 1)
            && (forall x :: x in c.queue && x.id == t.id ==>
                  if t.life.Forever? then x.life.Forever? else x.life.Ends? && n + x.life.polls == t.life.polls)
  {
    FreshCore();
    assert [] + Flat(arrivals) == Flat(arrivals);
    LoopKeepsLife(NEW_CORE, [], arrivals, t);
  }
}
