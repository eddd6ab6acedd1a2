/** What the ready queue holds and which waker a future keeps, over every run: the queue hands out every wake
    once, in order; a completion wakes the task that asked last; and a task takes its futures along. */
module CpuQueue {
  import opened Sequences
  import opened Io
  import opened CpuModel
  import opened CpuProofs
  import opened CpuTheorems

  // ----- First in, first out -----

  /** The ids that the acts of a poll wake, in order. */
  function WokenIn(acts: seq<Act>): (ids: seq<TaskId>)
    decreases acts
  {
    if acts == [] then [] else (if acts[0].Wake? then [acts[0].id] else []) + WokenIn(acts[1..])
  }

  /** The poll that the event makes: that of the task at the front of the queue, if it is there and unmarked. */
  predicate Polling(s: Cpu, e: Event) {
    && e.Popped? && s.ready != [] && s.ready[0] in s.tasks && s.ready[0] !in s.cancelled
    && s.tasks[s.ready[0]].polls != []
  }

  /** What the task at the front does in that poll. */
  function ActsOf(s: Cpu): (acts: seq<Act>)
    requires Polling(s, Popped)
  {
    s.tasks[s.ready[0]].polls[0].acts
  }

  /** The wakes of an event: of the task it brings, of the id it names, of those its poll wakes, or of the
      waker registered for the operation it completes. */
  function Wakes(s: Cpu, e: Event): (ids: seq<TaskId>) {
    match e
    case Spawned(id, _) => [id]
    case Delivered(SubmitTask(id, _)) => [id]
    case Delivered(_) => []
    case Woken(id) => [id]
    case Popped => if Polling(s, e) then WokenIn(ActsOf(s)) else []
    case Completion(c) =>
      if c.userData in s.io.pending && c.userData in s.io.wakers then [s.io.wakers[c.userData]] else []
  }

  /** What the event takes off the queue. */
  function Takeoff(s: Cpu, e: Event): (ids: seq<TaskId>) {
    if e.Popped? && s.ready != [] then [s.ready[0]] else []
  }

  function AllWakes(s: Cpu, es: seq<Event>): (ids: seq<TaskId>)
    decreases es
  {
    if es == [] then [] else Wakes(s, es[0]) + AllWakes(Step(s, es[0]), es[1..])
  }

  function AllTaken(s: Cpu, es: seq<Event>): (ids: seq<TaskId>)
    decreases es
  {
    if es == [] then [] else Takeoff(s, es[0]) + AllTaken(Step(s, es[0]), es[1..])
  }

  lemma {:induction false} ActsQueue(s: Cpu, id: TaskId, acts: seq<Act>)
    ensures RunActs(s, id, acts).ready == s.ready + WokenIn(acts)
    decreases acts
  {
    if acts != [] {
      var one := if acts[0].Wake? then [acts[0].id] else [];
      ActsQueue(RunAct(s, id, acts[0]), id, acts[1..]);
      assert RunAct(s, id, acts[0]).ready == s.ready + one;
      Associate(s.ready, one, WokenIn(acts[1..]));
    }
  }

  lemma PopQueue(s: Cpu)
    requires s.ready != []
    ensures Pop(s).ready == s.ready[1..] + Wakes(s, Popped)
  {
    if Polling(s, Popped) {
      var id := s.ready[0];
      ActsQueue(Serve(s.(ready := s.ready[1..]), id).(polled := s.polled + [id]), id, ActsOf(s));
    }
  }

  lemma StepQueue(s: Cpu, e: Event)
    ensures s.ready + Wakes(s, e) == Takeoff(s, e) + Step(s, e).ready
  {
    if e.Popped? && s.ready != [] {
      PopQueue(s);
      assert s.ready == [s.ready[0]] + s.ready[1..];
    }
  }

  /** Over every run the queue is first in, first out, and loses and invents nothing: what was queued at the
      start followed by all wakes is all that was taken off followed by what is still queued. */
  lemma {:induction false} QueueIsFifo(s: Cpu, es: seq<Event>)
    ensures s.ready + AllWakes(s, es) == AllTaken(s, es) + Run(s, es).ready
    decreases es
  {
    if es != [] {
      var s1, rest := Step(s, es[0]), es[1..];
      StepQueue(s, es[0]);
      QueueIsFifo(s1, rest);
      Associate(s.ready, Wakes(s, es[0]), AllWakes(s1, rest));
      Associate(Takeoff(s, es[0]), s1.ready, AllWakes(s1, rest));
      Associate(Takeoff(s, es[0]), AllTaken(s1, rest), Run(s1, rest).ready);
    }
  }

  // ----- Whom a completion wakes -----

  lemma AskRegisters(io: IoState, id: TaskId, g: Token, f: Token)
    requires f in io.wakers ==> f in io.live && f !in io.completed
    ensures var a, b := io.wakers, PollFuture(io, id, g).wakers;
            f in b ==> if g == f then b[f] == id else f in a && b[f] == a[f]
  {
  }

  lemma ActRegisters(s: Cpu, id: TaskId, act: Act, f: Token)
    requires f in s.io.wakers ==> f in s.io.live && f !in s.io.completed
    ensures var a, b := s.io.wakers, RunAct(s, id, act).io.wakers;
            f in b ==> if act == PollIo(f) then b[f] == id else f in a && b[f] == a[f]
  {
    hide PollFuture;
    if act.PollIo? { AskRegisters(s.io, id, act.token, f); }
  }

  /** After a poll by `id` that asks `f`, only `id` can be registered for `f`; one that does not ask it
      registers nobody. */
  lemma {:induction false} ActsRegister(s: Cpu, id: TaskId, acts: seq<Act>, f: Token)
    requires Inv(s)
    ensures var a, b := s.io.wakers, RunActs(s, id, acts).io.wakers;
            f in b ==> if PollIo(f) in acts then b[f] == id else f in a && b[f] == a[f]
    decreases acts
  {
    if acts != [] {
      ActRegisters(s, id, acts[0], f);
      ActKeeps(s, id, acts[0]);
      ActsRegister(RunAct(s, id, acts[0]), id, acts[1..], f);
    }
  }

  /** The event is a poll by `id` that asks `f`. */
  predicate AskedBy(s: Cpu, e: Event, id: TaskId, f: Token) {
    Polling(s, e) && s.ready[0] == id && PollIo(f) in ActsOf(s)
  }

  lemma PopRegisters(s: Cpu, f: Token)
    requires Inv(s) && s.ready != []
    ensures var a, b := s.io.wakers, Pop(s).io.wakers;
            f in b ==> if Polling(s, Popped) && PollIo(f) in ActsOf(s) then b[f] == s.ready[0]
                       else f in a && b[f] == a[f]
  {
    var id := s.ready[0];
    var s1 := Serve(s.(ready := s.ready[1..]), id);
    ServeKeeps(s);
    if Polling(s, Popped) {
      ActsRegister(s1.(polled := s.polled + [id]), id, ActsOf(s), f);
    }
  }

  lemma OtherRegisters(s: Cpu, e: Event, f: Token)
    requires !e.Popped?
    ensures var a, b := s.io.wakers, Step(s, e).io.wakers; f in b ==> f in a && b[f] == a[f]
  {
    match e
    case Spawned(id, _) => assert f in DropTask(s, id).io.wakers ==> f in s.io.wakers;
    case Delivered(SubmitTask(id, _)) => assert f in DropTask(s, id).io.wakers ==> f in s.io.wakers;
    case _ =>
  }

  lemma StepRegisters(s: Cpu, e: Event, f: Token)
    requires Inv(s)
    ensures var a, b := s.io.wakers, Step(s, e).io.wakers;
            f in b ==> if Polling(s, e) && PollIo(f) in ActsOf(s) then b[f] == s.ready[0]
                       else f in a && b[f] == a[f]
  {
    hide Pop, Inv;
    if !e.Popped? {
      OtherRegisters(s, e, f);
    } else if s.ready != [] {
      PopRegisters(s, f);
    }
  }

  /** Event `j` of a run is such a poll, and no later one is, by any task. */
  ghost predicate LastAsked(es: seq<Event>, j: nat, id: TaskId, f: Token) {
    && j < |es| && AskedBy(Run(EMPTY_CPU, es[..j]), es[j], id, f)
    && forall k, other {:trigger AskedBy(Run(EMPTY_CPU, es[..k]), es[k], other, f)} :: j < k < |es| ==>
         !AskedBy(Run(EMPTY_CPU, es[..k]), es[k], other, f)
  }

  lemma LastAskedLonger(es: seq<Event>, e: Event, j: nat, id: TaskId, f: Token)
    requires LastAsked(es, j, id, f)
    requires forall other :: !AskedBy(Run(EMPTY_CPU, es), e, other, f)
    ensures LastAsked(es + [e], j, id, f)
  {
    var all := es + [e];
    assert all[..|es|] == es;
    forall k | 0 <= k < |es| ensures all[..k] == es[..k] && all[k] == es[k] {}
  }

  /** Over every run, the waker a future keeps is that of the task whose poll asked it last. */
  lemma {:induction false} WakerAskedLast(es: seq<Event>, f: Token) returns (j: nat)
    requires f in Run(EMPTY_CPU, es).io.wakers
    ensures LastAsked(es, j, Run(EMPTY_CPU, es).io.wakers[f], f)
    decreases |es|
  {
    var k := |es| - 1;
    var before, e := es[..k], es[k];
    assert es == before + [e];
    var s := Run(EMPTY_CPU, before);
    RunLast(EMPTY_CPU, before, e);
    Reachable(before);
    StepRegisters(s, e, f);
    if Polling(s, e) && PollIo(f) in ActsOf(s) {
      j := k;
    } else {
      j := WakerAskedLast(before, f);
      LastAskedLonger(before, e, j, s.io.wakers[f], f);
    }
  }

  /** The future is there and waits for the kernel. */
  predicate Unanswered(io: IoState, f: Token) {
    f in io.live && f in io.pending && f !in io.completed
  }

  /** It does, with the waker of `id` registered. */
  predicate WaitedFor(io: IoState, f: Token, id: TaskId) {
    Unanswered(io, f) && f in io.wakers && io.wakers[f] == id
  }

  lemma ActKeepsUnanswered(s: Cpu, id: TaskId, act: Act, f: Token)
    requires Unanswered(s.io, f) && act != DropIo(f)
    ensures Unanswered(RunAct(s, id, act).io, f)
  {
  }

  lemma ActKeepsWaitedFor(s: Cpu, id: TaskId, act: Act, f: Token)
    requires WaitedFor(s.io, f, id) && act != DropIo(f)
    ensures WaitedFor(RunAct(s, id, act).io, f, id)
  {
    ActKeepsUnanswered(s, id, act, f);
  }

  lemma {:induction false} ActsKeepWaitedFor(s: Cpu, id: TaskId, acts: seq<Act>, f: Token)
    requires WaitedFor(s.io, f, id) && DropIo(f) !in acts
    ensures WaitedFor(RunActs(s, id, acts).io, f, id)
    decreases acts
  {
    if acts != [] {
      ActKeepsWaitedFor(s, id, acts[0], f);
      ActsKeepWaitedFor(RunAct(s, id, acts[0]), id, acts[1..], f);
    }
  }

  lemma {:induction false} ActsWait(s: Cpu, id: TaskId, acts: seq<Act>, f: Token)
    requires Unanswered(s.io, f) && DropIo(f) !in acts && PollIo(f) in acts
    ensures WaitedFor(RunActs(s, id, acts).io, f, id)
    decreases acts
  {
    var s1 := RunAct(s, id, acts[0]);
    if acts[0] == PollIo(f) {
      assert WaitedFor(s1.io, f, id);
      ActsKeepWaitedFor(s1, id, acts[1..], f);
    } else {
      ActKeepsUnanswered(s, id, acts[0], f);
      ActsWait(s1, id, acts[1..], f);
    }
  }

  /** A poll of `id` that asks an unanswered future, keeps it and returns Pending leaves the waker of `id`
      with it, so that the completion of its operation queues `id` and tells it. */
  lemma CompletionWakesAsker(s: Cpu, id: TaskId, f: Token, c: Cqe)
    requires Inv(s) && AskedBy(s, Popped, id, f) && DropIo(f) !in ActsOf(s) && Unanswered(s.io, f)
    requires s.tasks[id].polls[0].outcome.Pending? && c.userData == f
    ensures var r := Pop(s);
            && WaitedFor(r.io, f, id)
            && Complete(r, c).ready == r.ready + [id]
            && f in Complete(r, c).io.signalled && Complete(r, c).io.signalled[f] == id
  {
    ServeKeeps(s);
    var s1 := Serve(s.(ready := s.ready[1..]), id).(polled := s.polled + [id]);
    ActsWait(s1, id, ActsOf(s), f);
    PopKeeps(s);
    assert Registered(Pop(s).io);
  }

  // ----- What the accepted operations are -----

  /** Among these acts the operation is submitted and taken by the ring. */
  ghost predicate SubmittedIn(acts: seq<Act>, op: Op) {
    exists i :: 0 <= i < |acts| && acts[i].Submit? && acts[i].accepted && acts[i].op == op
  }

  lemma SubmittedLater(acts: seq<Act>, op: Op)
    requires acts != [] && (SubmittedIn(acts[..1], op) || SubmittedIn(acts[1..], op))
    ensures SubmittedIn(acts, op)
  {
    assert acts == acts[..1] + acts[1..];
    if SubmittedIn(acts[1..], op) {
      var i :| 0 <= i < |acts[1..]| && acts[1..][i].Submit? && acts[1..][i].accepted && acts[1..][i].op == op;
      assert acts[i + 1] == acts[1..][i];
    }
  }

  lemma ActAccepts(s: Cpu, id: TaskId, act: Act, f: Token)
    ensures var a, b := s.io.accepted, RunAct(s, id, act).io.accepted;
            f in b ==> (f in a && b[f] == a[f]) || (act.Submit? && act.accepted && b[f] == act.op)
  {
  }

  lemma {:induction false} ActsAccept(s: Cpu, id: TaskId, acts: seq<Act>, f: Token)
    ensures var a, b := s.io.accepted, RunActs(s, id, acts).io.accepted;
            f in b ==> (f in a && b[f] == a[f]) || SubmittedIn(acts, b[f])
    decreases acts
  {
    if acts != [] {
      var s1, r := RunAct(s, id, acts[0]), RunActs(s, id, acts).io.accepted;
      ActAccepts(s, id, acts[0], f);
      ActsAccept(s1, id, acts[1..], f);
      if f in r && !(f in s.io.accepted && r[f] == s.io.accepted[f]) {
        assert acts[..1][0] == acts[0];
        SubmittedLater(acts, r[f]);
      }
    }
  }

  lemma PopAccepts(s: Cpu, f: Token)
    requires s.ready != []
    ensures var a, b := s.io.accepted, Pop(s).io.accepted;
            f in b ==> (f in a && b[f] == a[f]) || (Polling(s, Popped) && SubmittedIn(ActsOf(s), b[f]))
  {
    hide SubmittedIn;
    if Polling(s, Popped) {
      var id := s.ready[0];
      ActsAccept(Serve(s.(ready := s.ready[1..]), id).(polled := s.polled + [id]), id, ActsOf(s), f);
    }
  }

  lemma DropAccepts(s: Cpu, id: TaskId)
    ensures DropTask(s, id).io.accepted == s.io.accepted
  {
  }

  lemma OtherAccepts(s: Cpu, e: Event)
    requires !e.Popped?
    ensures Step(s, e).io.accepted == s.io.accepted
  {
    hide DropTask, ResultOf;
    match e
    case Spawned(id, _) => DropAccepts(s, id);
    case Delivered(SubmitTask(id, _)) => DropAccepts(s, id);
    case Delivered(CancelTask(id)) => DropAccepts(s.(cancelled := s.cancelled + {id}), id);
    case _ =>
  }

  lemma StepAccepts(s: Cpu, e: Event, f: Token)
    ensures var a, b := s.io.accepted, Step(s, e).io.accepted;
            f in b ==> (f in a && b[f] == a[f]) || (Polling(s, e) && SubmittedIn(ActsOf(s), b[f]))
  {
    hide Pop, SubmittedIn, Handle, AddTask, Complete;
    if !e.Popped? {
      OtherAccepts(s, e);
    } else if s.ready != [] {
      PopAccepts(s, f);
    }
  }

  /** Event `j` of a run is a poll that submits the operation to a ring with room. */
  ghost predicate SubmittedAt(es: seq<Event>, j: nat, op: Op) {
    j < |es| && Polling(Run(EMPTY_CPU, es[..j]), es[j]) && SubmittedIn(ActsOf(Run(EMPTY_CPU, es[..j])), op)
  }

  /** Over every run, the operation accepted under a token is one that some poll submitted. */
  lemma {:induction false} AcceptedWasSubmitted(es: seq<Event>, f: Token) returns (j: nat)
    requires f in Run(EMPTY_CPU, es).io.accepted
    ensures SubmittedAt(es, j, Run(EMPTY_CPU, es).io.accepted[f])
    decreases |es|
  {
    var k := |es| - 1;
    var before, e := es[..k], es[k];
    assert es == before + [e];
    var s := Run(EMPTY_CPU, before);
    RunLast(EMPTY_CPU, before, e);
    StepAccepts(s, e, f);
    if f in s.io.accepted && s.io.accepted[f] == Step(s, e).io.accepted[f] {
      j := AcceptedWasSubmitted(before, f);
      assert es[..j] == before[..j];
    } else {
      j := k;
    }
  }

  /** And every such submission gets a token that was never used before. */
  lemma {:induction false} SubmittedIsAccepted(s: Cpu, id: TaskId, acts: seq<Act>, i: nat) returns (f: Token)
    requires Inv(s) && i < |acts| && acts[i].Submit? && acts[i].accepted
    ensures var r := RunActs(s, id, acts).io;
            s.io.nextToken <= f && f in r.accepted && r.accepted[f] == acts[i].op
    decreases acts
  {
    var s1 := RunAct(s, id, acts[0]);
    ActKeeps(s, id, acts[0]);
    if i == 0 {
      f := s.io.nextToken + acts[0].skip;
      ActsExtend(s1, id, acts[1..]);
    } else {
      f := SubmittedIsAccepted(s1, id, acts[1..], i - 1);
      ActExtends(s, id, acts[0]);
    }
  }

  // ----- A task takes its futures along -----

  /** When a task leaves the table, or another takes its place, the futures it holds are dropped. */
  lemma FuturesGoWithTask(s: Cpu, e: Event, id: TaskId)
    requires id in s.tasks && (Introduces(e, id) || id !in Step(s, e).tasks)
    ensures s.tasks[id].holds !! Step(s, e).io.live
  {
    match e
    case Popped => if s.ready != [] { PopPolls(s); }
    case _ =>
  }
}
