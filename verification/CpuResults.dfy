/** Where results come from: whatever a future returns is what the kernel answered to its operation. */
module CpuResults {
  import opened Io
  import opened Options
  import opened CpuModel
  import opened CpuProofs
  import opened CpuTheorems

  /** No result appears and none changes: results are at most taken or dropped. */
  ghost predicate NoNewResult(a: IoState, b: IoState) {
    && (forall f :: f in b.completed ==> f in a.completed && b.completed[f] == a.completed[f])
    && (forall f :: f in b.returned ==>
          || (f in a.returned && b.returned[f] == a.returned[f])
          || (f in a.completed && b.returned[f] == a.completed[f]))
  }

  lemma ActMoves(s: Cpu, id: TaskId, act: Act)
    ensures NoNewResult(s.io, RunAct(s, id, act).io)
  {
    match act
    case PollIo(f) => assert NoNewResult(s.io, PollFuture(s.io, id, f));
    case DropIo(f) => assert NoNewResult(s.io, DropFutures(s.io, {f}));
    case _ =>
  }

  lemma NoNewTwice(a: IoState, b: IoState, c: IoState)
    requires NoNewResult(a, b) && NoNewResult(b, c)
    ensures NoNewResult(a, c)
  {
  }

  lemma {:induction false} ActsMove(s: Cpu, id: TaskId, acts: seq<Act>)
    ensures NoNewResult(s.io, RunActs(s, id, acts).io)
    decreases acts
  {
    if acts != [] {
      var r := RunAct(s, id, acts[0]);
      ActMoves(s, id, acts[0]);
      ActsMove(r, id, acts[1..]);
      NoNewTwice(s.io, r.io, RunActs(r, id, acts[1..]).io);
    }
  }

  lemma PollMoves(s: Cpu, id: TaskId)
    requires id in s.tasks
    ensures NoNewResult(s.io, PollTask(s, id).io)
  {
    var t, s1 := s.tasks[id], s.(polled := s.polled + [id]);
    if t.polls != [] {
      ActsMove(s1, id, t.polls[0].acts);
    }
  }

  lemma PopMoves(s: Cpu)
    requires s.ready != []
    ensures NoNewResult(s.io, Pop(s).io)
  {
    var id := s.ready[0];
    var s1 := Serve(s.(ready := s.ready[1..]), id);
    if id in s.tasks && id !in s.cancelled { PollMoves(s1, id); }
  }

  /** Only completions bring results. */
  lemma StepMoves(s: Cpu, e: Event)
    requires !e.Completion?
    ensures NoNewResult(s.io, Step(s, e).io)
  {
    if e.Popped? && s.ready != [] { PopMoves(s); }
  }

  /** Event `i` is the kernel's answer to token `f`, and `r` is the result it stands for. */
  predicate Answers(es: seq<Event>, i: nat, io: IoState, f: Token, r: IoResult) {
    && i < |es| && es[i].Completion? && es[i].cqe.userData == f
    && f in io.accepted && r == ResultOf(io.accepted[f], es[i].cqe)
  }

  ghost predicate Answered(es: seq<Event>, io: IoState, f: Token, r: IoResult) {
    exists i :: Answers(es, i, io, f, r)
  }

  ghost predicate AllAnswered(es: seq<Event>, io: IoState) {
    && (forall f :: f in io.completed ==> Answered(es, io, f, io.completed[f]))
    && (forall f :: f in io.returned ==> Answered(es, io, f, io.returned[f]))
  }

  /** An answer stays one as the run goes on. */
  lemma AnsweredLater(es: seq<Event>, e: Event, a: IoState, b: IoState, f: Token, r: IoResult)
    requires Answered(es, a, f, r) && Extends(a, b)
    ensures Answered(es + [e], b, f, r)
  {
    var i :| Answers(es, i, a, f, r);
    assert Answers(es + [e], i, b, f, r);
  }

  lemma CompletionAnswers(es: seq<Event>, s: Cpu, c: Cqe, f: Token)
    requires Inv(s) && AllAnswered(es, s.io) && f in Complete(s, c).io.completed
    ensures Answered(es + [Completion(c)], Complete(s, c).io, f, Complete(s, c).io.completed[f])
  {
    var r := Complete(s, c).io;
    if f == c.userData && f in s.io.pending {
      assert f in s.io.accepted && s.io.pending[f] == s.io.accepted[f] by {
        assert f in s.io.pending.Keys;
        assert f in s.io.accepted.Keys;
      }
      assert Answers(es + [Completion(c)], |es|, r, f, r.completed[f]);
    } else {
      StepExtends(s, Completion(c));
      AnsweredLater(es, Completion(c), s.io, r, f, r.completed[f]);
    }
  }

  lemma StepAnswered(es: seq<Event>, s: Cpu, e: Event)
    requires Inv(s) && AllAnswered(es, s.io)
    ensures AllAnswered(es + [e], Step(s, e).io)
  {
    var a, b := s.io, Step(s, e).io;
    StepExtends(s, e);
    if !e.Completion? { StepMoves(s, e); }
    forall f | f in b.completed ensures Answered(es + [e], b, f, b.completed[f]) {
      if e.Completion? {
        CompletionAnswers(es, s, e.cqe, f);
      } else {
        AnsweredLater(es, e, a, b, f, b.completed[f]);
      }
    }
    forall f | f in b.returned ensures Answered(es + [e], b, f, b.returned[f]) {
      AnsweredLater(es, e, a, b, f, b.returned[f]);
    }
  }

  lemma {:induction false} RunAnswered(es: seq<Event>)
    ensures AllAnswered(es, Run(EMPTY_CPU, es).io)
    decreases |es|
  {
    if es != [] {
      var k := |es| - 1;
      RunAnswered(es[..k]);
      Reachable(es[..k]);
      StepAnswered(es[..k], Run(EMPTY_CPU, es[..k]), es[k]);
      RunLast(EMPTY_CPU, es[..k], es[k]);
      assert es[..k] + [es[k]] == es;
    }
  }

  /** Over every run, a result that was returned to a future is what one of the kernel's answers to its
      own token means for the operation that was submitted. */
  lemma ResultIsTheKernels(es: seq<Event>, f: Token)
    requires f in Run(EMPTY_CPU, es).io.returned
    ensures var io := Run(EMPTY_CPU, es).io; exists i :: Answers(es, i, io, f, io.returned[f])
  {
    RunAnswered(es);
  }

  // ----- Field by field -----

  /** Event `i` is the kernel's answer to token `f`, and it tells every field of the result. */
  predicate ToldBy(es: seq<Event>, i: nat, op: Op, f: Token, r: IoResult) {
    i < |es| && es[i].Completion? && es[i].cqe.userData == f && Tells(op, es[i].cqe, r)
  }

  /** Over every run, every field of a returned result is told by one of the kernel's answers to the token
      under which the operation was submitted. */
  lemma ReturnedAsTold(es: seq<Event>, f: Token)
    requires f in Run(EMPTY_CPU, es).io.returned
    ensures var io := Run(EMPTY_CPU, es).io;
            f in io.accepted && exists i :: ToldBy(es, i, io.accepted[f], f, io.returned[f])
  {
    var io := Run(EMPTY_CPU, es).io;
    ResultIsTheKernels(es, f);
    var i: nat :| Answers(es, i, io, f, io.returned[f]);
    ResultTells(io.accepted[f], es[i].cqe);
    assert ToldBy(es, i, io.accepted[f], f, io.returned[f]);
  }

  // ----- Reads -----

  /** How many bytes an operation asks the kernel to fill in. */
  function Requested(op: Op): (n: nat) {
    match op
    case Read(_, _, len) => len
    case ReadFile(_, _, len) => len
    case UdpRecv(_, buffer) => |buffer|
    case _ => 0
  }

  /** The memory an operation lends the kernel is as long as it asks for, and is not exceeded. */
  predicate Honest(op: Op, c: Cqe) {
    |c.memory| == Requested(op) && (op.Read? || op.ReadFile? || op.UdpRecv? ==> c.result <= Requested(op))
  }

  /** The length and the data of a read that succeeded. */
  function ReadPart(r: IoResult): (p: Option<(nat, Bytes)>) {
    if r.Err? then None
    else
      match r.kind
      case HasRead(n, data) => Some((n, data))
      case HasReadFile(n, data) => Some((n, data))
      case Received(n, data, _) => Some((n, data))
      case _ => None
  }

  lemma HonestRead(op: Op, c: Cqe)
    requires Honest(op, c) && ReadPart(ResultOf(op, c)).Some?
    ensures var (n, data) := ReadPart(ResultOf(op, c)).value;
            n == |data| <= Requested(op) && n <= |c.memory| && n == c.result && data == c.memory[..n]
  {
  }

  ghost predicate AllHonest(es: seq<Event>, op: Op, f: Token) {
    forall i :: 0 <= i < |es| && es[i].Completion? && es[i].cqe.userData == f ==> Honest(op, es[i].cqe)
  }

  /** With a kernel that writes no more than it is asked for, the length reported with every returned read
      is the length of its data and at most what was requested, so the clients' slices are in bounds, and
      the data is the part of its memory that the kernel reported as written. */
  lemma ReadsInBounds(es: seq<Event>, f: Token) returns (i: nat)
    requires f in Run(EMPTY_CPU, es).io.returned && ReadPart(Run(EMPTY_CPU, es).io.returned[f]).Some?
    requires f in Run(EMPTY_CPU, es).io.accepted && AllHonest(es, Run(EMPTY_CPU, es).io.accepted[f], f)
    ensures var io := Run(EMPTY_CPU, es).io;
            var (n, data) := ReadPart(io.returned[f]).value;
            && n == |data| <= Requested(io.accepted[f])
            && i < |es| && es[i].Completion? && es[i].cqe.userData == f
            && n <= |es[i].cqe.memory| && n == es[i].cqe.result && data == es[i].cqe.memory[..n]
  {
    var io := Run(EMPTY_CPU, es).io;
    ResultIsTheKernels(es, f);
    i :| Answers(es, i, io, f, io.returned[f]);
    HonestRead(io.accepted[f], es[i].cqe);
  }
}
