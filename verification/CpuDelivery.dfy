/** A delivered result reaches its task: the task is polled and receives the result before the event
    loop blocks. */
module CpuDelivery {
  import opened Io
  import opened CpuModel
  import opened CpuProofs
  import opened CpuTheorems

  /** The poll asks `f` for its result and has not dropped it by then. */
  predicate AsksFirst(acts: seq<Act>, f: Token)
    decreases acts
  {
    acts != [] && acts[0] != DropIo(f) && (acts[0] == PollIo(f) || AsksFirst(acts[1..], f))
  }

  /** The next poll of the task asks `f` for its result. */
  predicate Asks(t: Task, f: Token) {
    t.polls != [] && AsksFirst(t.polls[0].acts, f)
  }

  predicate ActLeaves(act: Act, f: Token) {
    act != PollIo(f) && act != DropIo(f)
  }

  /** The task neither holds `f` nor ever polls or drops it. */
  predicate Leaves(t: Task, f: Token) {
    && f !in t.holds
    && forall i, j :: 0 <= i < |t.polls| && 0 <= j < |t.polls[i].acts| ==> ActLeaves(t.polls[i].acts[j], f)
  }

  /** The result `r` of the live future `f` is stored, and the task that waits for it was told so. */
  predicate Stored(io: IoState, f: Token, id: TaskId, r: IoResult) {
    && f in io.live && f in io.completed && io.completed[f] == r
    && f in io.signalled && io.signalled[f] == id
  }

  /** It is there for `id` to fetch: `id` will ask for it, and nobody else has to do with it. */
  ghost predicate Awaits(s: Cpu, f: Token, id: TaskId, r: IoResult) {
    && Stored(s.io, f, id, r)
    && id in s.tasks && id !in s.cancelled && Asks(s.tasks[id], f)
    && forall other :: other in s.tasks && other != id ==> Leaves(s.tasks[other], f)
  }

  predicate Fetched(io: IoState, f: Token, r: IoResult) {
    f in io.returned && io.returned[f] == r
  }

  /** Messages and spawns that neither cancel or replace `id` nor bring a task that touches `f`. */
  predicate Harmless(e: Event, f: Token, id: TaskId) {
    match e
    case Spawned(x, t) => x != id && Leaves(t, f)
    case Delivered(SubmitTask(x, t)) => x != id && Leaves(t, f)
    case Delivered(CancelTask(x)) => x != id
    case _ => true
  }

  // ----- The poll that asks -----

  predicate Present(io: IoState, f: Token, r: IoResult) {
    f in io.live && f in io.completed && io.completed[f] == r
  }

  lemma ActKeepsPresent(s: Cpu, id: TaskId, act: Act, f: Token, r: IoResult)
    requires Present(s.io, f, r) && ActLeaves(act, f)
    ensures Present(RunAct(s, id, act).io, f, r)
  {
  }

  /** Up to the act that asks, the result stays stored; that act takes it, and it is never taken back. */
  lemma {:induction false} ActsFetch(s: Cpu, id: TaskId, acts: seq<Act>, f: Token, r: IoResult)
    requires Inv(s) && Present(s.io, f, r) && AsksFirst(acts, f)
    ensures Fetched(RunActs(s, id, acts).io, f, r)
    decreases acts
  {
    var s1 := RunAct(s, id, acts[0]);
    ActKeeps(s, id, acts[0]);
    if acts[0] == PollIo(f) {
      assert Fetched(s1.io, f, r);
      ActsExtend(s1, id, acts[1..]);
    } else {
      ActKeepsPresent(s, id, acts[0], f, r);
      ActsFetch(s1, id, acts[1..], f, r);
    }
  }

  lemma PollFetches(s: Cpu, id: TaskId, f: Token)
    requires Inv(s) && id in s.tasks && Asks(s.tasks[id], f) && f in s.io.live && f in s.io.completed
    ensures Fetched(PollTask(s, id).io, f, s.io.completed[f])
  {
    var acts, s1 := s.tasks[id].polls[0].acts, s.(polled := s.polled + [id]);
    ActsFetch(s1, id, acts, f, s.io.completed[f]);
    DropExtends(RunActs(s1, id, acts).io, RunActs(s1, id, acts).io, s.tasks[id].holds);
  }

  // ----- The polls of others -----

  lemma ActLeavesStored(s: Cpu, id: TaskId, act: Act, f: Token, owner: TaskId, r: IoResult)
    requires Stored(s.io, f, owner, r) && ActLeaves(act, f)
    ensures Stored(RunAct(s, id, act).io, f, owner, r)
  {
  }

  lemma {:induction false} ActsLeaveStored(s: Cpu, id: TaskId, acts: seq<Act>, f: Token, owner: TaskId, r: IoResult)
    requires Stored(s.io, f, owner, r) && forall j :: 0 <= j < |acts| ==> ActLeaves(acts[j], f)
    ensures Stored(RunActs(s, id, acts).io, f, owner, r)
    decreases acts
  {
    if acts != [] {
      ActLeavesStored(s, id, acts[0], f, owner, r);
      ActsLeaveStored(RunAct(s, id, acts[0]), id, acts[1..], f, owner, r);
    }
  }

  lemma DropLeavesStored(s: Cpu, id: TaskId, f: Token, owner: TaskId, r: IoResult)
    requires Stored(s.io, f, owner, r) && (id in s.tasks ==> f !in s.tasks[id].holds)
    ensures Stored(DropTask(s, id).io, f, owner, r)
  {
  }

  lemma PollLeavesStored(s: Cpu, id: TaskId, f: Token, owner: TaskId, r: IoResult)
    requires Stored(s.io, f, owner, r) && id in s.tasks && Leaves(s.tasks[id], f)
    ensures Stored(PollTask(s, id).io, f, owner, r)
  {
    var t, s1 := s.tasks[id], s.(polled := s.polled + [id]);
    if t.polls == [] {
      DropLeavesStored(s1, id, f, owner, r);
    } else {
      ActsLeaveStored(s1, id, t.polls[0].acts, f, owner, r);
      DropLeavesStored(RunActs(s1, id, t.polls[0].acts), id, f, owner, r);
    }
  }

  /** A poll changes no other task, and only shortens the script of its own. */
  lemma PopKeepsTasks(s: Cpu, f: Token, id: TaskId)
    requires s.ready != [] && s.ready[0] != id && id in s.tasks
    requires forall other :: other in s.tasks && other != id ==> Leaves(s.tasks[other], f)
    ensures var r := Pop(s);
            && id in r.tasks && r.tasks[id] == s.tasks[id]
            && forall other :: other in r.tasks && other != id ==> Leaves(r.tasks[other], f)
  {
    var x := s.ready[0];
    if x in s.tasks && s.tasks[x].polls != [] {
      assert Leaves(s.tasks[x].(polls := s.tasks[x].polls[1..]), f);
    }
  }

  lemma PopAwaits(s: Cpu, f: Token, id: TaskId, r: IoResult)
    requires Inv(s) && Awaits(s, f, id, r) && s.ready != [] && s.ready[0] != id
    ensures Awaits(Pop(s), f, id, r)
  {
    var x := s.ready[0];
    var s1 := Serve(s.(ready := s.ready[1..]), x);
    assert Stored(s1.io, f, id, r);
    PopKeepsTasks(s, f, id);
    PopPolls(s);
    if x in s.cancelled {
      DropLeavesStored(s1.(cancelled := s.cancelled - {x}), x, f, id, r);
    } else if x in s.tasks {
      PollLeavesStored(s1, x, f, id, r);
    }
  }

  lemma PopFetches(s: Cpu, f: Token, id: TaskId, r: IoResult)
    requires Inv(s) && Awaits(s, f, id, r) && s.ready != [] && s.ready[0] == id
    ensures Fetched(Pop(s).io, f, r)
  {
    ServeKeeps(s);
    PollFetches(Serve(s.(ready := s.ready[1..]), id), id, f);
  }

  lemma AddAwaits(s: Cpu, f: Token, id: TaskId, r: IoResult, x: TaskId, t: Task)
    requires Awaits(s, f, id, r) && x != id && Leaves(t, f)
    ensures Awaits(AddTask(s, x, t), f, id, r)
  {
    DropLeavesStored(s, x, f, id, r);
  }

  lemma CompleteAwaits(s: Cpu, f: Token, id: TaskId, r: IoResult, c: Cqe)
    requires Inv(s) && Awaits(s, f, id, r)
    ensures Awaits(Complete(s, c), f, id, r)
  {
    assert f !in s.io.pending;
  }

  /** No event in between takes the result away. */
  lemma StepDelivers(s: Cpu, e: Event, f: Token, id: TaskId, r: IoResult)
    requires Inv(s) && Awaits(s, f, id, r) && Harmless(e, f, id)
    ensures Awaits(Step(s, e), f, id, r) || Fetched(Step(s, e).io, f, r)
  {
    match e
    case Popped =>
      if s.ready != [] {
        if s.ready[0] == id { PopFetches(s, f, id, r); } else { PopAwaits(s, f, id, r); }
      }
    case Spawned(x, t) => AddAwaits(s, f, id, r, x, t);
    case Delivered(SubmitTask(x, t)) => AddAwaits(s, f, id, r, x, t);
    case Delivered(CancelTask(x)) => DropLeavesStored(s.(cancelled := s.cancelled + {x}), x, f, id, r);
    case Completion(c) => CompleteAwaits(s, f, id, r, c);
    case _ =>
  }

  /** So after any harmless events it was fetched, or still waits for its task. */
  lemma {:induction false} RunDelivers(s: Cpu, es: seq<Event>, f: Token, id: TaskId, r: IoResult)
    requires Inv(s) && Awaits(s, f, id, r) && forall e :: e in es ==> Harmless(e, f, id)
    ensures Awaits(Run(s, es), f, id, r) || Fetched(Run(s, es).io, f, r)
    decreases es
  {
    if es != [] {
      var s1 := Step(s, es[0]);
      StepDelivers(s, es[0], f, id, r);
      StepKeeps(s, es[0]);
      if Fetched(s1.io, f, r) {
        RunExtends(s1, es[1..]);
      } else {
        RunDelivers(s1, es[1..], f, id, r);
      }
    }
  }

  /** And once the queue is empty it was fetched. */
  lemma DeliveredWhenEmpty(s: Cpu, es: seq<Event>, f: Token, id: TaskId, r: IoResult)
    requires Inv(s) && Awaits(s, f, id, r) && forall e :: e in es ==> Harmless(e, f, id)
    requires Run(s, es).ready == []
    ensures Fetched(Run(s, es).io, f, r)
  {
    RunDelivers(s, es, f, id, r);
    RunKeeps(s, es);
    EmptyQueueServed(Run(s, es));
  }

  // ----- End to end -----

  /** The task that a signalled future waits for, if it will ask for the result and is left alone. */
  ghost predicate WillFetch(s: Cpu, f: Token) {
    && f in s.io.signalled
    && var id := s.io.signalled[f];
       && id in s.tasks && id !in s.cancelled && Asks(s.tasks[id], f)
       && forall other :: other in s.tasks && other != id ==> Leaves(s.tasks[other], f)
  }

  lemma SignalledAwaits(s: Cpu, f: Token)
    requires Inv(s) && WillFetch(s, f)
    ensures f in s.io.completed && Awaits(s, f, s.io.signalled[f], s.io.completed[f])
  {
  }

  /** End to end: after any run, if a live future last returned Pending to a task and its result has
      since arrived unserved, the next drain polls that task, whatever wakes arrive; and if that poll
      asks the future before dropping it and no other task has to do with it, it returns the result. */
  lemma CompletionReachesTask(es: seq<Event>, f: Token, wakes: seq<seq<TaskId>>)
    requires f in Run(EMPTY_CPU, es).io.signalled
    requires var s := Run(EMPTY_CPU, es);
             s.io.signalled[f] in s.tasks && s.io.signalled[f] !in s.cancelled
    ensures var s := Run(EMPTY_CPU, es);
            && f in s.io.live && f in s.io.completed
            && f in s.io.waiting && s.io.waiting[f] == s.io.signalled[f]
            && PolledSince(s, Drain(s, wakes), s.io.signalled[f])
            && (WillFetch(s, f) ==> Fetched(Drain(s, wakes).io, f, s.io.completed[f]))
  {
    Reachable(es);
    var s := Run(EMPTY_CPU, es);
    var id := s.io.signalled[f];
    DrainPollsQueued(s, wakes, id);
    if WillFetch(s, f) {
      SignalledAwaits(s, f);
      var turns := DrainIsRun(s, wakes);
      DeliveredWhenEmpty(s, turns, f, id, s.io.completed[f]);
    }
  }

  ghost predicate HarmlessMail(ms: seq<Message>, f: Token, id: TaskId) {
    forall m :: m in ms ==> Harmless(Delivered(m), f, id)
  }

  /** Before the event loop blocks: from any reachable state, in every state in which `run` ever waits
      on its channel the task has received the result, unless a message cancelled or replaced the task
      or brought another one that interferes with its future. */
  lemma ResultBeforeBlocking(es: seq<Event>, inbox: seq<Message>, rounds: seq<Round>, b: Cpu, f: Token)
    requires var s := Run(EMPTY_CPU, es);
             && WillFetch(s, f) && b in Blocked(s, inbox, rounds)
             && HarmlessMail(inbox + Mail(rounds), f, s.io.signalled[f])
    ensures var s := Run(EMPTY_CPU, es); f in s.io.completed && Fetched(b.io, f, s.io.completed[f])
  {
    var s := Run(EMPTY_CPU, es);
    Reachable(es);
    SignalledAwaits(s, f);
    var id := s.io.signalled[f];
    var inside := BlockedIsRun(s, inbox, rounds, b);
    forall e | e in inside ensures Harmless(e, f, id) {
      assert Inside(e, inbox + Mail(rounds));
    }
    DeliveredWhenEmpty(s, inside, f, id, s.io.completed[f]);
  }
}
