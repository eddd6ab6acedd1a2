/** What every run of the scheduler keeps: no wakeup is lost, and every accepted I/O operation is
    accounted for and answered in kind. */
module CpuProofs {
  import opened Io
  import opened CpuModel

  // ----- Invariants -----

  /** Each accepted token is in exactly one place. */
  ghost predicate Accounted(io: IoState) {
    && io.pending.Keys + io.completed.Keys + io.returned.Keys + io.discarded == io.accepted.Keys
    && io.pending.Keys !! io.completed.Keys !! io.returned.Keys !! io.discarded
  }

  /** Results and operations belong together. */
  ghost predicate InKind(io: IoState) {
    && (forall f :: f in io.pending && f in io.accepted ==> io.pending[f] == io.accepted[f])
    && (forall f :: f in io.completed && f in io.accepted ==> Expected(io.accepted[f], io.completed[f]))
    && (forall f :: f in io.returned && f in io.accepted ==> Expected(io.accepted[f], io.returned[f]))
  }

  /** The registered wakers are exactly those of the live futures that were last told to wait and
      whose result has not arrived. */
  ghost predicate Registered(io: IoState) {
    && (forall f :: f in io.wakers <==> f in io.waiting && f !in io.completed)
    && (forall f :: f in io.wakers ==> io.wakers[f] == io.waiting[f])
    && io.waiting.Keys <= io.live
    && (forall f :: f in io.signalled ==>
          f in io.completed && f in io.waiting && io.waiting[f] == io.signalled[f])
  }

  ghost predicate TokensBelow(io: IoState) {
    forall f :: f in io.accepted || f in io.live ==> f < io.nextToken
  }

  /** A future whose result was dropped is gone. */
  ghost predicate DroppedForGood(io: IoState) {
    io.discarded !! io.live
  }

  ghost predicate IoInv(io: IoState) {
    Accounted(io) && InKind(io) && Registered(io) && TokensBelow(io) && DroppedForGood(io)
  }

  /** No lost wakeup: whoever has an unserved wake or an unserved completion is in the queue. */
  ghost predicate NoLostWakeup(s: Cpu) {
    && (forall id :: id in s.due ==> id in s.ready)
    && (forall f :: f in s.io.signalled ==> s.io.signalled[f] in s.ready)
  }

  ghost predicate Inv(s: Cpu) {
    IoInv(s.io) && NoLostWakeup(s)
  }

  // ----- Each step keeps them -----

  lemma SubmitAccounted(io: IoState, op: Op, accepted: bool, skip: nat)
    requires Accounted(io) && TokensBelow(io)
    ensures Accounted(SubmitOp(io, op, accepted, skip))
  {
    var r, f := SubmitOp(io, op, accepted, skip), io.nextToken + skip;
    assert f !in io.accepted.Keys;
    if accepted {
      assert r.accepted.Keys == io.accepted.Keys + {f} && r.pending.Keys == io.pending.Keys + {f};
    }
  }

  lemma SubmitKeeps(io: IoState, op: Op, accepted: bool, skip: nat)
    requires IoInv(io)
    ensures IoInv(SubmitOp(io, op, accepted, skip))
  {
    SubmitAccounted(io, op, accepted, skip);
    assert DroppedForGood(SubmitOp(io, op, accepted, skip)) by {
      assert io.discarded <= io.accepted.Keys;
    }
  }

  lemma PollFutureAccounted(io: IoState, id: TaskId, f: Token)
    requires Accounted(io)
    ensures Accounted(PollFuture(io, id, f))
  {
    var r := PollFuture(io, id, f);
    if f in io.live && f in io.completed {
      assert r.returned.Keys == io.returned.Keys + {f} && r.completed.Keys == io.completed.Keys - {f};
    }
  }

  lemma PollFutureInKind(io: IoState, id: TaskId, f: Token)
    requires InKind(io)
    ensures InKind(PollFuture(io, id, f))
  {
  }

  lemma TakenRegistered(io: IoState, id: TaskId, f: Token)
    requires Registered(io) && f in io.live && f in io.completed
    ensures Registered(PollFuture(io, id, f))
  {
  }

  lemma WaitingRegistered(io: IoState, id: TaskId, f: Token)
    requires Registered(io) && f in io.live && f !in io.completed
    ensures Registered(PollFuture(io, id, f))
  {
  }

  lemma PollFutureRegistered(io: IoState, id: TaskId, f: Token)
    requires Registered(io)
    ensures Registered(PollFuture(io, id, f))
  {
    if f in io.live {
      if f in io.completed { TakenRegistered(io, id, f); } else { WaitingRegistered(io, id, f); }
    }
  }

  lemma PollFutureKeeps(io: IoState, id: TaskId, f: Token)
    requires IoInv(io)
    ensures IoInv(PollFuture(io, id, f))
  {
    PollFutureAccounted(io, id, f);
    PollFutureInKind(io, id, f);
    PollFutureRegistered(io, id, f);
  }

  lemma DropFuturesAccounted(io: IoState, fs: set<Token>)
    requires Accounted(io)
    ensures Accounted(DropFutures(io, fs))
  {
    assert DropFutures(io, fs).completed.Keys == io.completed.Keys - fs * io.live;
  }

  lemma DropFuturesKeeps(io: IoState, fs: set<Token>)
    requires IoInv(io)
    ensures IoInv(DropFutures(io, fs))
  {
    DropFuturesAccounted(io, fs);
  }

  lemma CompleteAccounted(s: Cpu, c: Cqe)
    requires Accounted(s.io)
    ensures Accounted(Complete(s, c).io)
  {
    var f, r := c.userData, Complete(s, c).io;
    if f in s.io.pending {
      assert r.pending.Keys == s.io.pending.Keys - {f} && r.completed.Keys == s.io.completed.Keys + {f};
    }
  }

  lemma CompleteInKind(s: Cpu, c: Cqe)
    requires InKind(s.io)
    ensures InKind(Complete(s, c).io)
  {
  }

  lemma CompleteRegistered(s: Cpu, c: Cqe)
    requires Registered(s.io) && (c.userData in s.io.pending ==> c.userData !in s.io.completed)
    ensures Registered(Complete(s, c).io)
  {
  }

  /** The waker the code fires is the task the future told to wait. */
  lemma CompleteWakes(s: Cpu, c: Cqe)
    requires Registered(s.io) && NoLostWakeup(s)
    requires c.userData in s.io.pending ==> c.userData !in s.io.completed
    ensures NoLostWakeup(Complete(s, c))
  {
  }

  lemma CompleteKeeps(s: Cpu, c: Cqe)
    requires Inv(s)
    ensures Inv(Complete(s, c))
  {
    assert c.userData in s.io.pending ==> c.userData !in s.io.completed;
    CompleteAccounted(s, c);
    CompleteInKind(s, c);
    CompleteRegistered(s, c);
    CompleteWakes(s, c);
  }

  /** A step of the I/O state alone can only take signals away. */
  lemma IoStepKeeps(s: Cpu, io: IoState)
    requires Inv(s) && IoInv(io)
    requires forall f :: f in io.signalled ==> f in s.io.signalled && io.signalled[f] == s.io.signalled[f]
    ensures Inv(s.(io := io))
  {
  }

  lemma ActKeeps(s: Cpu, id: TaskId, act: Act)
    requires Inv(s)
    ensures Inv(RunAct(s, id, act))
  {
    match act
    case Wake(_) =>
    case Submit(op, accepted, skip) =>
      SubmitKeeps(s.io, op, accepted, skip);
      IoStepKeeps(s, SubmitOp(s.io, op, accepted, skip));
    case PollIo(f) =>
      PollFutureKeeps(s.io, id, f);
      IoStepKeeps(s, PollFuture(s.io, id, f));
    case DropIo(f) =>
      DropFuturesKeeps(s.io, {f});
      IoStepKeeps(s, DropFutures(s.io, {f}));
  }

  lemma {:induction false} ActsKeep(s: Cpu, id: TaskId, acts: seq<Act>)
    requires Inv(s)
    ensures Inv(RunActs(s, id, acts))
    decreases acts
  {
    if acts != [] {
      ActKeeps(s, id, acts[0]);
      ActsKeep(RunAct(s, id, acts[0]), id, acts[1..]);
    }
  }

  lemma DropTaskKeeps(s: Cpu, id: TaskId)
    requires Inv(s)
    ensures Inv(DropTask(s, id))
  {
    if id in s.tasks { DropFuturesKeeps(s.io, s.tasks[id].holds); }
  }

  /** Taking `id` off the queue serves exactly the wakes of `id`. */
  lemma ServeKeeps(s: Cpu)
    requires Inv(s) && s.ready != []
    ensures Inv(Serve(s.(ready := s.ready[1..]), s.ready[0]))
  {
    assert s.ready == [s.ready[0]] + s.ready[1..];
  }

  lemma PopKeeps(s: Cpu)
    requires Inv(s) && s.ready != []
    ensures Inv(Pop(s))
  {
    var id := s.ready[0];
    var s1 := Serve(s.(ready := s.ready[1..]), id);
    ServeKeeps(s);
    if id in s.cancelled {
      DropTaskKeeps(s1.(cancelled := s.cancelled - {id}), id);
    } else if id in s.tasks {
      var t, s2 := s.tasks[id], s1.(polled := s1.polled + [id]);
      if t.polls == [] {
        DropTaskKeeps(s2, id);
      } else {
        ActsKeep(s2, id, t.polls[0].acts);
        DropTaskKeeps(RunActs(s2, id, t.polls[0].acts), id);
      }
    }
  }

  lemma StepKeeps(s: Cpu, e: Event)
    requires Inv(s)
    ensures Inv(Step(s, e))
  {
    match e
    case Spawned(id, _) => DropTaskKeeps(s, id);
    case Delivered(m) =>
      match m {
        case SubmitTask(id, _) => DropTaskKeeps(s, id);
        case CancelTask(id) => DropTaskKeeps(s.(cancelled := s.cancelled + {id}), id);
        case _ =>
      }
    case Woken(_) =>
    case Popped => if s.ready != [] { PopKeeps(s); }
    case Completion(c) => CompleteKeeps(s, c);
  }

  lemma {:induction false} RunKeeps(s: Cpu, es: seq<Event>)
    requires Inv(s)
    ensures Inv(Run(s, es))
    decreases es
  {
    if es != [] {
      StepKeeps(s, es[0]);
      RunKeeps(Step(s, es[0]), es[1..]);
    }
  }

  /** In every state any interleaving of steps can reach. */
  lemma Reachable(es: seq<Event>)
    ensures Inv(Run(EMPTY_CPU, es))
  {
    RunKeeps(EMPTY_CPU, es);
  }
}
