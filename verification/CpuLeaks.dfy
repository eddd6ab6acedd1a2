/** The fate of a late completion: a result that arrives after its future was dropped stays stored for ever. */
module CpuLeaks {
  import opened Io
  import Options
  import opened CpuModel
  import opened CpuProofs
  import opened CpuTheorems
  import opened CpuResults

  /** A stored result that no future will ever fetch. */
  predicate Leaked(io: IoState, f: Token) {
    f in io.completed && f !in io.live
  }

  /** The same in detail. */
  predicate Kept(io: IoState, f: Token, r: IoResult) {
    f in io.completed && io.completed[f] == r && f !in io.live && f < io.nextToken
  }

  // ----- It stays -----

  lemma ActKept(s: Cpu, id: TaskId, act: Act, f: Token, r: IoResult)
    requires Kept(s.io, f, r)
    ensures Kept(RunAct(s, id, act).io, f, r)
  {
  }

  lemma {:induction false} ActsKept(s: Cpu, id: TaskId, acts: seq<Act>, f: Token, r: IoResult)
    requires Kept(s.io, f, r)
    ensures Kept(RunActs(s, id, acts).io, f, r)
    decreases acts
  {
    if acts != [] {
      ActKept(s, id, acts[0], f, r);
      ActsKept(RunAct(s, id, acts[0]), id, acts[1..], f, r);
    }
  }

  lemma DropKept(s: Cpu, id: TaskId, f: Token, r: IoResult)
    requires Kept(s.io, f, r)
    ensures Kept(DropTask(s, id).io, f, r)
  {
  }

  lemma PopKept(s: Cpu, f: Token, r: IoResult)
    requires s.ready != [] && Kept(s.io, f, r)
    ensures Kept(Pop(s).io, f, r)
  {
    var id := s.ready[0];
    var s1 := Serve(s.(ready := s.ready[1..]), id);
    DropKept(s1.(cancelled := s.cancelled - {id}), id, f, r);
    if id in s.tasks {
      var t, s2 := s.tasks[id], s1.(polled := s1.polled + [id]);
      DropKept(s2, id, f, r);
      if t.polls != [] {
        ActsKept(s2, id, t.polls[0].acts, f, r);
        DropKept(RunActs(s2, id, t.polls[0].acts), id, f, r);
      }
    }
  }

  lemma StepKept(s: Cpu, e: Event, f: Token, r: IoResult)
    requires Inv(s) && Kept(s.io, f, r)
    ensures Kept(Step(s, e).io, f, r)
  {
    match e
    case Popped => if s.ready != [] { PopKept(s, f, r); }
    case Spawned(id, _) => DropKept(s, id, f, r);
    case Delivered(SubmitTask(id, _)) => DropKept(s, id, f, r);
    case Delivered(CancelTask(id)) => DropKept(s.(cancelled := s.cancelled + {id}), id, f, r);
    case Completion(c) => assert f !in s.io.pending;
    case _ =>
  }

  lemma {:induction false} RunKept(s: Cpu, es: seq<Event>, f: Token, r: IoResult)
    requires Inv(s) && Kept(s.io, f, r)
    ensures Kept(Run(s, es).io, f, r)
    decreases es
  {
    if es != [] {
      StepKept(s, es[0], f, r);
      StepKeeps(s, es[0]);
      RunKept(Step(s, es[0]), es[1..], f, r);
    }
  }

  lemma LeakedKept(s: Cpu, f: Token)
    requires Inv(s) && Leaked(s.io, f)
    ensures Kept(s.io, f, s.io.completed[f])
  {
    assert f in s.io.completed.Keys && f in s.io.accepted.Keys;
  }

  /** A leaked result stays as it is in every continuation, and is never returned. */
  lemma LeakedForEver(es: seq<Event>, more: seq<Event>, f: Token)
    requires Leaked(Run(EMPTY_CPU, es).io, f)
    ensures var a, b := Run(EMPTY_CPU, es).io, Run(Run(EMPTY_CPU, es), more).io;
            Leaked(b, f) && b.completed[f] == a.completed[f] && f !in b.returned
  {
    var s := Run(EMPTY_CPU, es);
    Reachable(es);
    LeakedKept(s, f);
    RunKept(s, more, f, s.io.completed[f]);
    RunKeeps(s, more);
  }

  // ----- How it comes about -----

  /** A future that is dropped takes its stored result along. */
  ghost predicate CleanDrops(a: IoState, b: IoState) {
    forall f :: f in a.live && f !in b.live ==> f !in b.completed
  }

  lemma CleanTwice(a: IoState, b: IoState, c: IoState)
    requires CleanDrops(a, b) && CleanDrops(b, c) && NoNewResult(b, c)
    ensures CleanDrops(a, c)
  {
  }

  lemma ActClean(s: Cpu, id: TaskId, act: Act)
    ensures CleanDrops(s.io, RunAct(s, id, act).io)
  {
  }

  lemma {:induction false} ActsClean(s: Cpu, id: TaskId, acts: seq<Act>)
    ensures CleanDrops(s.io, RunActs(s, id, acts).io)
    decreases acts
  {
    if acts != [] {
      var r := RunAct(s, id, acts[0]);
      ActClean(s, id, acts[0]);
      ActsClean(r, id, acts[1..]);
      ActsMove(r, id, acts[1..]);
      CleanTwice(s.io, r.io, RunActs(r, id, acts[1..]).io);
    }
  }

  lemma DropClean(s: Cpu, id: TaskId)
    ensures CleanDrops(s.io, DropTask(s, id).io) && NoNewResult(s.io, DropTask(s, id).io)
  {
  }

  lemma PollClean(s: Cpu, id: TaskId)
    requires id in s.tasks
    ensures CleanDrops(s.io, PollTask(s, id).io)
  {
    var t, s1 := s.tasks[id], s.(polled := s.polled + [id]);
    if t.polls == [] {
      DropClean(s1, id);
    } else {
      var s2 := RunActs(s1, id, t.polls[0].acts);
      ActsClean(s1, id, t.polls[0].acts);
      DropClean(s2, id);
      CleanTwice(s.io, s2.io, DropTask(s2, id).io);
    }
  }

  lemma StepClean(s: Cpu, e: Event)
    ensures CleanDrops(s.io, Step(s, e).io)
  {
    match e
    case Popped =>
      if s.ready != [] {
        var id := s.ready[0];
        var s1 := Serve(s.(ready := s.ready[1..]), id);
        DropClean(s1.(cancelled := s.cancelled - {id}), id);
        if id in s.tasks { PollClean(s1, id); }
      }
    case Spawned(id, _) => DropClean(s, id);
    case Delivered(SubmitTask(id, _)) => DropClean(s, id);
    case Delivered(CancelTask(id)) => DropClean(s.(cancelled := s.cancelled + {id}), id);
    case _ =>
  }

  /** The kernel answers an operation whose future is gone. */
  predicate Orphan(s: Cpu, e: Event, f: Token) {
    e.Completion? && e.cqe.userData == f && f in s.io.pending && f !in s.io.live
  }

  /** A result leaks in such an answer, and in no other event. */
  lemma StepLeaks(s: Cpu, e: Event, f: Token)
    requires Inv(s)
    ensures Leaked(Step(s, e).io, f) <==> Leaked(s.io, f) || Orphan(s, e, f)
  {
    StepClean(s, e);
    if Leaked(s.io, f) {
      LeakedKept(s, f);
      StepKept(s, e, f, s.io.completed[f]);
    } else if !e.Completion? {
      StepMoves(s, e);
    }
  }

  /** Event `i` of a run is such an answer to `f`. */
  predicate OrphanedAt(es: seq<Event>, i: nat, f: Token) {
    i < |es| && Orphan(Run(EMPTY_CPU, es[..i]), es[i], f)
  }

  /** Over every run, the stored results without a future are exactly those that were answered after their
      future had been dropped. */
  lemma {:induction false} LeakedIff(es: seq<Event>, f: Token)
    ensures Leaked(Run(EMPTY_CPU, es).io, f) <==> exists i :: OrphanedAt(es, i, f)
    decreases |es|
  {
    if es != [] {
      var k := |es| - 1;
      var before := es[..k];
      LeakedIff(before, f);
      Reachable(before);
      RunLast(EMPTY_CPU, before, es[k]);
      assert before + [es[k]] == es;
      StepLeaks(Run(EMPTY_CPU, before), es[k], f);
      forall i | 0 <= i < k ensures OrphanedAt(es, i, f) == OrphanedAt(before, i, f) {
        assert es[..i] == before[..i];
      }
      assert OrphanedAt(es, k, f) == Orphan(Run(EMPTY_CPU, before), es[k], f);
    }
  }

  /** Such answers do occur: a task submits an operation and drops its future before the kernel answers. */
  lemma LeakHappens(id: TaskId, op: Op, skip: nat, result: int, memory: Bytes)
    ensures var t := Task([PollScript([Submit(op, true, skip), DropIo(1 + skip)], Pending)], {});
            var late := Completion(Cqe(1 + skip, result, memory, Options.None));
            Leaked(Run(EMPTY_CPU, [Spawned(id, t), Popped, late]).io, 1 + skip)
  {
    var submit, drop := Submit(op, true, skip), DropIo(1 + skip);
    var t := Task([PollScript([submit, drop], Pending)], {});
    var late := Completion(Cqe(1 + skip, result, memory, Options.None));
    var s := Step(EMPTY_CPU, Spawned(id, t));
    assert [Spawned(id, t), Popped, late][1..] == [Popped, late] && [Popped, late][1..] == [late];
    var s1 := Serve(s.(ready := s.ready[1..]), id).(polled := s.polled + [id]);
    TwoActs(s1, id, submit, drop);
    var r := Pop(s);
    assert s.ready == [id] && s.tasks[id] == t;
    assert r.io == DropFutures(SubmitOp(s1.io, op, true, skip), {1 + skip});
    assert Run(r, [late]) == Run(Step(r, late), []);
  }

  lemma TwoActs(s: Cpu, id: TaskId, a: Act, b: Act)
    ensures RunActs(s, id, [a, b]) == RunAct(RunAct(s, id, a), id, b)
  {
    assert [a, b][1..] == [b] && [b][1..] == [];
    assert RunActs(RunAct(s, id, a), id, [b]) == RunActs(RunAct(RunAct(s, id, a), id, b), id, []);
  }
}
