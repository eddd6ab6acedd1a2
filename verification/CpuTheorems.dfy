/** The main results about the scheduler: wakes are served before it blocks, results are returned once
    and in kind, and cancelled tasks stay unpolled. */
module CpuTheorems {
  import opened Io
  import opened Options
  import opened Measures
  import opened CpuModel
  import opened CpuProofs

  // ----- The loops are runs -----

  lemma {:induction false} RunLast(s: Cpu, es: seq<Event>, e: Event)
    ensures Run(s, es + [e]) == Step(Run(s, es), e)
    decreases es
  {
    if es == [] {
      assert [e][1..] == [];
    } else {
      RunLast(Step(s, es[0]), es[1..], e);
      assert (es + [e])[1..] == es[1..] + [e];
    }
  }

  lemma {:induction false} RunAppend(s: Cpu, es: seq<Event>, fs: seq<Event>)
    ensures Run(s, es + fs) == Run(Run(s, es), fs)
    decreases es
  {
    if es == [] {
      assert es + fs == fs;
    } else {
      RunAppend(Step(s, es[0]), es[1..], fs);
      assert (es + fs)[1..] == es[1..] + fs;
    }
  }

  /** An event inside the event loop, with messages from `mail`. */
  predicate Inside(e: Event, mail: seq<Message>) {
    !e.Spawned? && (e.Delivered? ==> e.message in mail)
  }

  /** The events of a drain loop. */
  predicate Draining(es: seq<Event>) {
    forall e :: e in es ==> e.Popped? || e.Woken?
  }

  ghost predicate AllInside(es: seq<Event>, mail: seq<Message>) {
    forall e :: e in es ==> Inside(e, mail)
  }

  lemma {:induction false} WakesAreRun(s: Cpu, ids: seq<TaskId>) returns (es: seq<Event>)
    ensures Run(s, es) == WakeAll(s, ids) && forall e :: e in es ==> e.Woken?
    decreases ids
  {
    if ids == [] {
      es := [];
    } else {
      var rest := WakesAreRun(WakeTask(s, ids[0]), ids[1..]);
      es := [Woken(ids[0])] + rest;
      assert es[1..] == rest;
    }
  }

  lemma {:induction false} MessagesAreRun(s: Cpu, ms: seq<Message>) returns (es: seq<Event>)
    ensures Run(s, es) == HandleAll(s, ms) && AllInside(es, ms) && forall e :: e in es ==> e.Delivered?
    decreases ms
  {
    if ms == [] {
      es := [];
    } else {
      var rest := MessagesAreRun(Handle(s, ms[0]), ms[1..]);
      es := [Delivered(ms[0])] + rest;
      assert es[1..] == rest;
    }
  }

  lemma {:induction false} CompletionsAreRun(s: Cpu, cs: seq<Cqe>) returns (es: seq<Event>)
    ensures Run(s, es) == CompleteAll(s, cs) && forall e :: e in es ==> e.Completion?
    decreases cs
  {
    if cs == [] {
      es := [];
    } else {
      var rest := CompletionsAreRun(Complete(s, cs[0]), cs[1..]);
      es := [Completion(cs[0])] + rest;
      assert es[1..] == rest;
    }
  }

  lemma {:induction false} DrainIsRun(s: Cpu, wakes: seq<seq<TaskId>>) returns (es: seq<Event>)
    ensures Run(s, es) == Drain(s, wakes) && Draining(es)
    decreases |wakes|, Total(s.tasks, PollsLeft()), |s.ready|
  {
    var s1 := Arrived(s, wakes);
    es := [];
    if wakes != [] { es := WakesAreRun(s, wakes[0]); }
    if s1.ready != [] {
      PopDecreases(s1);
      var rest := DrainIsRun(Pop(s1), Later(wakes));
      RunAppend(s, es, [Popped] + rest);
      assert ([Popped] + rest)[1..] == rest;
      es := es + ([Popped] + rest);
    }
  }

  lemma InsideBoth(es: seq<Event>, fs: seq<Event>, mail: seq<Message>)
    requires AllInside(es, mail) && AllInside(fs, mail)
    ensures AllInside(es + fs, mail)
  {
  }

  lemma EnteringIsRun(s: Cpu, x: Input) returns (es: seq<Event>)
    ensures Run(s, es) == Entering(s, x) && AllInside(es, x.messages)
  {
    var a := MessagesAreRun(s, x.messages);
    var b := WakesAreRun(HandleAll(s, x.messages), x.expired);
    RunAppend(s, a, b);
    es := a + b;
  }

  lemma TickIsRun(s: Cpu, x: Input) returns (es: seq<Event>)
    ensures Run(s, es) == Tick(s, x) && AllInside(es, x.messages)
  {
    var a := EnteringIsRun(s, x);
    var b := DrainIsRun(Entering(s, x), x.wakes);
    var c := CompletionsAreRun(Drain(Entering(s, x), x.wakes), x.cqes);
    RunAppend(s, a, b);
    RunAppend(s, a + b, c);
    InsideBoth(a, b, x.messages);
    InsideBoth(a + b, c, x.messages);
    es := a + b + c;
  }

  lemma DrainKeeps(s: Cpu, wakes: seq<seq<TaskId>>)
    requires Inv(s)
    ensures Inv(Drain(s, wakes))
  {
    var es := DrainIsRun(s, wakes);
    RunKeeps(s, es);
  }

  // ----- Nobody waits when the queue is empty -----

  lemma EmptyQueueServed(s: Cpu)
    requires NoLostWakeup(s) && s.ready == []
    ensures s.due == {} && s.io.signalled == map[]
  {
    assert s.io.signalled.Keys == {};
  }

  /** When the drain loop ends, after any run and whatever wakes arrive meanwhile, every wake and every
      completion has been served. */
  lemma DrainServesAll(es: seq<Event>, wakes: seq<seq<TaskId>>)
    ensures var r := Drain(Run(EMPTY_CPU, es), wakes); r.due == {} && r.io.signalled == map[]
  {
    Reachable(es);
    DrainKeeps(Run(EMPTY_CPU, es), wakes);
    EmptyQueueServed(Drain(Run(EMPTY_CPU, es), wakes));
  }

  lemma PopPolls(s: Cpu)
    requires s.ready != []
    ensures var id, r := s.ready[0], Pop(s);
            && r.polled == s.polled + (if id in s.tasks && id !in s.cancelled then [id] else [])
            && r.cancelled == s.cancelled - {id} && (id in s.cancelled ==> id !in r.tasks)
            && (forall other :: other != id ==> (other in r.tasks <==> other in s.tasks))
  {
  }

  lemma {:induction false} ActsKeepQueue(s: Cpu, id: TaskId, acts: seq<Act>)
    ensures s.ready <= RunActs(s, id, acts).ready
    decreases acts
  {
    if acts != [] { ActsKeepQueue(RunAct(s, id, acts[0]), id, acts[1..]); }
  }

  lemma PopKeepsQueue(s: Cpu)
    requires s.ready != []
    ensures s.ready[1..] <= Pop(s).ready
  {
    var id := s.ready[0];
    if id in s.tasks && s.tasks[id].polls != [] {
      var s1 := Serve(s.(ready := s.ready[1..]), id);
      ActsKeepQueue(s1.(polled := s.polled + [id]), id, s.tasks[id].polls[0].acts);
    }
  }

  /** From `a` to `b`, task `id` was polled. */
  predicate PolledSince(a: Cpu, b: Cpu, id: TaskId) {
    a.polled <= b.polled && id in b.polled[|a.polled|..]
  }

  /** From `a` to `b`, it was not. */
  predicate UnpolledSince(a: Cpu, b: Cpu, id: TaskId) {
    a.polled <= b.polled && id !in b.polled[|a.polled|..]
  }

  lemma PolledThrough(a: Cpu, b: Cpu, c: Cpu, id: TaskId)
    requires a.polled <= b.polled <= c.polled
    ensures PolledSince(a, c, id) <==> PolledSince(a, b, id) || PolledSince(b, c, id)
  {
    assert c.polled[|a.polled|..] == b.polled[|a.polled|..] + c.polled[|b.polled|..];
  }

  lemma {:induction false} PolledGrows(s: Cpu, es: seq<Event>)
    ensures s.polled <= Run(s, es).polled
    decreases es
  {
    if es != [] {
      if es[0].Popped? && s.ready != [] { PopPolls(s); }
      PolledGrows(Step(s, es[0]), es[1..]);
    }
  }

  predicate Front(s: Cpu, e: Event, id: TaskId) {
    e.Popped? && s.ready != [] && s.ready[0] == id
  }

  /** Until a queued id is taken off the queue, it stays queued and nothing happens to its task. */
  lemma StaysQueued(s: Cpu, e: Event, id: TaskId)
    requires id in s.ready && (e.Popped? || e.Woken?) && !Front(s, e, id)
    ensures var r := Step(s, e);
            && id in r.ready && (id in r.tasks <==> id in s.tasks) && (id in r.cancelled <==> id in s.cancelled)
            && UnpolledSince(s, r, id)
  {
    if e.Popped? {
      PopPolls(s);
      PopKeepsQueue(s);
      assert s.ready == [s.ready[0]] + s.ready[1..];
    }
  }

  /** A queued task that exists and is not marked is polled by the time the queue is empty. */
  lemma {:induction false} QueuedIsPolled(s: Cpu, es: seq<Event>, id: TaskId)
    requires id in s.ready && id in s.tasks && id !in s.cancelled && Draining(es) && Run(s, es).ready == []
    ensures PolledSince(s, Run(s, es), id)
    decreases es
  {
    var r := Step(s, es[0]);
    PolledGrows(r, es[1..]);
    if Front(s, es[0], id) {
      PopPolls(s);
      assert r.polled[|s.polled|] == id;
    } else {
      StaysQueued(s, es[0], id);
      QueuedIsPolled(r, es[1..], id);
    }
    PolledThrough(s, r, Run(s, es), id);
  }

  /** Every queued task that exists and is not marked cancelled is polled by the drain loop. */
  lemma DrainPollsQueued(s: Cpu, wakes: seq<seq<TaskId>>, id: TaskId)
    requires id in s.ready && id in s.tasks && id !in s.cancelled
    ensures PolledSince(s, Drain(s, wakes), id)
  {
    var es := DrainIsRun(s, wakes);
    QueuedIsPolled(s, es, id);
  }

  // ----- The fate of an accepted operation -----

  /** What later states may not take back. */
  ghost predicate Extends(a: IoState, b: IoState) {
    && a.nextToken <= b.nextToken
    && (forall f :: f in a.accepted ==> f in b.accepted && b.accepted[f] == a.accepted[f])
    && (forall f :: f in b.accepted && f < a.nextToken ==> f in a.accepted)
    && (forall f :: f in a.returned ==> f in b.returned && b.returned[f] == a.returned[f])
    && a.discarded <= b.discarded
  }

  lemma ActExtends(s: Cpu, id: TaskId, act: Act)
    requires Inv(s)
    ensures Extends(s.io, RunAct(s, id, act).io)
  {
    match act
    case DropIo(f) => DropExtends(s.io, s.io, {f});
    case PollIo(f) => assert f in s.io.completed ==> f !in s.io.returned;
    case _ =>
  }

  lemma {:induction false} ActsExtend(s: Cpu, id: TaskId, acts: seq<Act>)
    requires Inv(s)
    ensures Extends(s.io, RunActs(s, id, acts).io)
    decreases acts
  {
    if acts != [] {
      ActExtends(s, id, acts[0]);
      ActKeeps(s, id, acts[0]);
      ActsExtend(RunAct(s, id, acts[0]), id, acts[1..]);
    }
  }

  lemma DropExtends(io: IoState, later: IoState, fs: set<Token>)
    requires Extends(io, later)
    ensures Extends(io, DropFutures(later, fs))
  {
  }

  lemma PollExtends(s: Cpu, id: TaskId)
    requires Inv(s) && id in s.tasks
    ensures Extends(s.io, PollTask(s, id).io)
  {
    var t, s1 := s.tasks[id], s.(polled := s.polled + [id]);
    if t.polls == [] {
      DropExtends(s.io, s.io, t.holds);
    } else {
      var s2 := RunActs(s1, id, t.polls[0].acts);
      ActsExtend(s1, id, t.polls[0].acts);
      DropExtends(s.io, s2.io, t.holds);
    }
  }

  lemma PopExtends(s: Cpu)
    requires Inv(s) && s.ready != []
    ensures Extends(s.io, Pop(s).io)
  {
    var id := s.ready[0];
    var s1 := Serve(s.(ready := s.ready[1..]), id);
    ServeKeeps(s);
    if id in s.tasks {
      PollExtends(s1, id);
      DropExtends(s.io, s1.io, s.tasks[id].holds);
    }
  }

  lemma StepExtends(s: Cpu, e: Event)
    requires Inv(s)
    ensures Extends(s.io, Step(s, e).io)
  {
    match e
    case Popped => if s.ready != [] { PopExtends(s); }
    case Spawned(id, _) => if id in s.tasks { DropExtends(s.io, s.io, s.tasks[id].holds); }
    case Delivered(SubmitTask(id, _)) =>
      if id in s.tasks { DropExtends(s.io, s.io, s.tasks[id].holds); }
    case Delivered(CancelTask(id)) =>
      if id in s.tasks { DropExtends(s.io, s.io, s.tasks[id].holds); }
    case _ =>
  }

  lemma {:induction false} RunExtends(s: Cpu, es: seq<Event>)
    requires Inv(s)
    ensures Extends(s.io, Run(s, es).io)
    decreases es
  {
    if es != [] {
      StepExtends(s, es[0]);
      StepKeeps(s, es[0]);
      RunExtends(Step(s, es[0]), es[1..]);
    }
  }

  /** A result that was returned is of the kind its operation asked for, is never returned again and
      never replaced, and its token has left every table. */
  lemma ReturnedOnceInKind(es: seq<Event>, more: seq<Event>, f: Token)
    requires f in Run(EMPTY_CPU, es).io.returned
    ensures var a, b := Run(EMPTY_CPU, es).io, Run(Run(EMPTY_CPU, es), more).io;
            && f in b.accepted && f in b.returned && Expected(b.accepted[f], b.returned[f])
            && b.returned[f] == a.returned[f]
            && f !in b.pending && f !in b.completed && f !in b.discarded
  {
    Reachable(es);
    RunExtends(Run(EMPTY_CPU, es), more);
    RunKeeps(Run(EMPTY_CPU, es), more);
  }

  /** For a live future: its operation was accepted by the ring exactly if some continuation answers
      it. A refused one waits for ever. */
  lemma AnsweredIffAccepted(es: seq<Event>, f: Token)
    requires f in Run(EMPTY_CPU, es).io.live
    ensures var s := Run(EMPTY_CPU, es);
            f in s.io.accepted <==> exists more :: AnsweredBy(s, more, f)
  {
    var s := Run(EMPTY_CPU, es);
    Reachable(es);
    if f in s.io.accepted {
      var more := CanAnswer(s, f);
    } else {
      forall more ensures !AnsweredBy(s, more, f) {
        RunExtends(s, more);
        RunKeeps(s, more);
      }
    }
  }

  /** The result is stored or was returned. */
  predicate HasAnswer(io: IoState, f: Token) {
    f in io.completed || f in io.returned
  }

  predicate AnsweredBy(s: Cpu, more: seq<Event>, f: Token) {
    HasAnswer(Run(s, more).io, f)
  }

  lemma CanAnswer(s: Cpu, f: Token) returns (more: seq<Event>)
    requires Inv(s) && f in s.io.live && f in s.io.accepted
    ensures AnsweredBy(s, more, f)
  {
    assert f in s.io.accepted.Keys;
    if HasAnswer(s.io, f) {
      more := [];
    } else {
      assert f in s.io.pending;
      more := [Completion(Cqe(f, 0, [], None))];
      assert Run(s, more) == Run(Complete(s, more[0].cqe), []);
    }
  }

  /** Refused operations do occur: a task whose first poll submits while the ring is full holds such a
      future. */
  lemma RefusedHappens(id: TaskId, op: Op, skip: nat, rest: seq<PollScript>)
    ensures var t := Task([PollScript([Submit(op, false, skip)], Pending)] + rest, {});
            var io := Run(EMPTY_CPU, [Spawned(id, t), Popped]).io;
            1 + skip in io.live && 1 + skip !in io.accepted
  {
    var act := Submit(op, false, skip);
    var t := Task([PollScript([act], Pending)] + rest, {});
    var s := Step(EMPTY_CPU, Spawned(id, t));
    assert [Spawned(id, t), Popped][1..] == [Popped];
    assert Run(s, [Popped]) == Run(Pop(s), []);
    assert s.ready == [id] && s.tasks[id] == t && t.polls[0] == PollScript([act], Pending);
    var s1 := Serve(s.(ready := s.ready[1..]), id).(polled := s.polled + [id]);
    assert [act][1..] == [] && RunActs(s1, id, [act]) == RunActs(RunAct(s1, id, act), id, []);
    assert Pop(s).io == SubmitOp(s1.io, op, false, skip);
  }

  // ----- Cancellation -----

  predicate Introduces(e: Event, id: TaskId) {
    match e
    case Spawned(x, _) => x == id
    case Delivered(SubmitTask(x, _)) => x == id
    case _ => false
  }

  lemma StepPolls(s: Cpu, e: Event, id: TaskId)
    requires id !in s.tasks && !Introduces(e, id)
    ensures id !in Step(s, e).tasks
    ensures s.polled <= Step(s, e).polled && id !in Step(s, e).polled[|s.polled|..]
  {
    if e.Popped? && s.ready != [] { PopPolls(s); }
  }

  /** Once `CancelTask(id)` has been handled, no run that does not reuse the id polls it again,
      whatever wakes for it are queued or arrive. */
  lemma CancelledNeverPolled(s: Cpu, id: TaskId, es: seq<Event>)
    requires forall e :: e in es ==> !Introduces(e, id)
    ensures var r := Run(Handle(s, CancelTask(id)), es);
            s.polled <= r.polled && id !in r.polled[|s.polled|..]
  {
    AbsentNeverPolled(Handle(s, CancelTask(id)), id, es);
  }

  lemma {:induction false} AbsentNeverPolled(s: Cpu, id: TaskId, es: seq<Event>)
    requires id !in s.tasks && forall e :: e in es ==> !Introduces(e, id)
    ensures s.polled <= Run(s, es).polled && id !in Run(s, es).polled[|s.polled|..]
    decreases es
  {
    if es != [] {
      var s1 := Step(s, es[0]);
      StepPolls(s, es[0], id);
      AbsentNeverPolled(s1, id, es[1..]);
      var a, b := s1.polled[|s.polled|..], Run(s, es).polled[|s1.polled|..];
      assert Run(s, es).polled[|s.polled|..] == a + b;
    }
  }

  /** Event `j` of a run takes `id` off the queue. */
  predicate Takes(es: seq<Event>, j: nat, id: TaskId)
    requires j < |es|
  {
    var s := Run(EMPTY_CPU, es[..j]);
    es[j].Popped? && s.ready != [] && s.ready[0] == id
  }

  /** Event `i` cancels `id`, and `id` has not been taken off the queue since. */
  ghost predicate MarkedAt(es: seq<Event>, i: nat, id: TaskId) {
    && i < |es| && es[i] == Delivered(CancelTask(id))
    && forall j {:trigger Takes(es, j, id)} :: i < j < |es| ==> !Takes(es, j, id)
  }

  lemma StepMarks(s: Cpu, e: Event, id: TaskId)
    ensures id in Step(s, e).cancelled <==>
            || e == Delivered(CancelTask(id))
            || (id in s.cancelled && !(e.Popped? && s.ready != [] && s.ready[0] == id))
  {
    if e.Popped? && s.ready != [] { PopPolls(s); }
  }

  lemma MarkedEarlier(es: seq<Event>, e: Event, i: nat, id: TaskId)
    requires i < |es|
    ensures MarkedAt(es + [e], i, id) <==> MarkedAt(es, i, id) && !Takes(es + [e], |es|, id)
  {
    var all := es + [e];
    assert all[..|es|] == es;
    forall j | 0 <= j < |es| ensures Takes(all, j, id) == Takes(es, j, id) {
      assert all[..j] == es[..j];
    }
  }

  /** The cancellation marks are exactly the ids whose `CancelTask` was handled and which have not
      been taken off the queue since. */
  lemma {:induction false} MarkedExactly(es: seq<Event>, id: TaskId)
    ensures id in Run(EMPTY_CPU, es).cancelled <==> exists i :: MarkedAt(es, i, id)
    decreases |es|
  {
    if es != [] {
      var k := |es| - 1;
      var before, e := es[..k], es[k];
      assert es == before + [e];
      RunLast(EMPTY_CPU, before, e);
      StepMarks(Run(EMPTY_CPU, before), e, id);
      MarkedExactly(before, id);
      forall i | 0 <= i < k
        ensures MarkedAt(es, i, id) <==> MarkedAt(before, i, id) && !Takes(es, k, id)
      {
        MarkedEarlier(before, e, i, id);
      }
      assert MarkedAt(es, k, id) <==> e == Delivered(CancelTask(id));
    }
  }

  lemma DrainIntroduces(es: seq<Event>, id: TaskId)
    requires Draining(es)
    ensures forall e :: e in es ==> !Introduces(e, id)
  {
  }

  /** Until it is taken off the queue, a marked task is not polled; then it is gone. */
  lemma {:induction false} MarkedIsNotPolled(s: Cpu, es: seq<Event>, id: TaskId)
    requires id in s.ready && id in s.cancelled && Draining(es)
    ensures UnpolledSince(s, Run(s, es), id)
    decreases es
  {
    if es != [] {
      var r := Step(s, es[0]);
      if Front(s, es[0], id) {
        PopPolls(s);
        DrainIntroduces(es[1..], id);
        AbsentNeverPolled(r, id, es[1..]);
      } else {
        StaysQueued(s, es[0], id);
        MarkedIsNotPolled(r, es[1..], id);
      }
      PolledThrough(s, r, Run(s, es), id);
    }
  }

  /** A submitted task is polled by the next drain, from any state and whatever wakes arrive, if and only
      if no mark is left under its id: a stale mark takes the new task down unpolled. */
  lemma SubmittedIsPolledIff(s: Cpu, id: TaskId, t: Task, wakes: seq<seq<TaskId>>)
    ensures PolledSince(s, Drain(Handle(s, SubmitTask(id, t)), wakes), id) <==> id !in s.cancelled
  {
    var s1 := Handle(s, SubmitTask(id, t));
    assert s1.ready[|s1.ready| - 1] == id;
    if id in s.cancelled {
      var es := DrainIsRun(s1, wakes);
      MarkedIsNotPolled(s1, es, id);
    } else {
      DrainPollsQueued(s1, wakes, id);
    }
  }

  /** Such a mark is left by every cancellation, even of an id without a task: from any state, cancelling
      an id and submitting a task under it leaves the task unpolled. */
  lemma StaleMarkKillsReusedId(s: Cpu, id: TaskId, t: Task, wakes: seq<seq<TaskId>>)
    ensures var marked := Handle(s, CancelTask(id));
            !PolledSince(s, Drain(Handle(marked, SubmitTask(id, t)), wakes), id)
  {
    SubmittedIsPolledIff(Handle(s, CancelTask(id)), id, t, wakes);
  }

  // ----- The outer loop -----

  /** One round of `run`: what its tick finds; the wakes that arrive between the drain and the look at
      the queue; what the channel holds by then; and whether all senders are gone. */
  datatype Round = Round(arrived: seq<Message>, expired: seq<TaskId>, wakes: seq<seq<TaskId>>, cqes: seq<Cqe>,
                         late: seq<TaskId>, later: seq<Message>, closed: bool)

  function InputOf(inbox: seq<Message>, x: Round): (r: Input) {
    Input(inbox + x.arrived, x.expired, x.wakes, x.cqes)
  }

  /** The state in which `run` looks at the queue. */
  function Ticked(s: Cpu, inbox: seq<Message>, x: Round): (r: Cpu) {
    WakeAll(Tick(s, InputOf(inbox, x)), x.late)
  }

  /** With an empty queue the loop waits for one message; otherwise it reads all there are. */
  function AfterTick(s: Cpu, inbox: seq<Message>, closed: bool): (r: (Cpu, seq<Message>)) {
    if s.ready != [] then (HandleAll(s, inbox), [])
    else if inbox != [] then (Handle(s, inbox[0]), inbox[1..])
    else if closed then (s.(running := false), [])
    else (s, [])
  }

  /** The state in which the loop waits in a round, if it does. */
  function Stop(s: Cpu, inbox: seq<Message>, x: Round): (b: seq<Cpu>) {
    if Ticked(s, inbox, x).ready == [] then [Ticked(s, inbox, x)] else []
  }

  /** The state after a round, and what is left in the channel. */
  function AfterRound(s: Cpu, inbox: seq<Message>, x: Round): (r: (Cpu, seq<Message>)) {
    AfterTick(Ticked(s, inbox, x), x.later, x.closed)
  }

  /** The states in which `run`, given these rounds, waits on the channel with an empty queue. */
  function Blocked(s: Cpu, inbox: seq<Message>, rounds: seq<Round>): (b: seq<Cpu>)
    decreases rounds
  {
    if rounds == [] || !s.running then []
    else
      var (next, left) := AfterRound(s, inbox, rounds[0]);
      Stop(s, inbox, rounds[0]) + Blocked(next, left, rounds[1..])
  }

  /** All messages these rounds bring. */
  function Mail(rounds: seq<Round>): (ms: seq<Message>) {
    if rounds == [] then [] else rounds[0].arrived + rounds[0].later + Mail(rounds[1..])
  }

  lemma InsideMore(es: seq<Event>, mail: seq<Message>, more: seq<Message>)
    requires AllInside(es, mail) && forall m :: m in mail ==> m in more
    ensures AllInside(es, more)
  {
  }

  lemma TickedIsRun(s: Cpu, inbox: seq<Message>, x: Round) returns (es: seq<Event>)
    ensures Run(s, es) == Ticked(s, inbox, x) && AllInside(es, inbox + x.arrived)
  {
    var a := TickIsRun(s, InputOf(inbox, x));
    var b := WakesAreRun(Tick(s, InputOf(inbox, x)), x.late);
    RunAppend(s, a, b);
    es := a + b;
  }

  /** What happens between two ticks, unless the channel is closed and the loop ends. */
  lemma AfterTickIsRun(s: Cpu, inbox: seq<Message>, closed: bool) returns (es: seq<Event>)
    ensures AfterTick(s, inbox, closed).0.running ==> Run(s, es) == AfterTick(s, inbox, closed).0
    ensures AllInside(es, inbox) && forall m :: m in AfterTick(s, inbox, closed).1 ==> m in inbox
  {
    if s.ready != [] {
      es := MessagesAreRun(s, inbox);
    } else if inbox != [] {
      es := [Delivered(inbox[0])];
      assert Run(s, es) == Run(Handle(s, inbox[0]), []);
    } else {
      es := [];
    }
  }

  /** Every state in which the event loop waits is reached from its start by events of the rounds. */
  lemma {:induction false} BlockedIsRun(s: Cpu, inbox: seq<Message>, rounds: seq<Round>, b: Cpu)
    returns (es: seq<Event>)
    requires b in Blocked(s, inbox, rounds)
    ensures Run(s, es) == b && b.ready == [] && AllInside(es, inbox + Mail(rounds))
    decreases rounds
  {
    var x, all := rounds[0], inbox + Mail(rounds);
    var s1 := Ticked(s, inbox, x);
    es := TickedIsRun(s, inbox, x);
    InsideMore(es, inbox + x.arrived, all);
    if !(s1.ready == [] && b == s1) {
      var (s2, left) := AfterTick(s1, x.later, x.closed);
      var mid := AfterTickIsRun(s1, x.later, x.closed);
      var rest := BlockedIsRun(s2, left, rounds[1..], b);
      InsideMore(mid, x.later, all);
      InsideMore(rest, left + Mail(rounds[1..]), all);
      RunAppend(s, es, mid);
      RunAppend(s, es + mid, rest);
      es := es + mid + rest;
    }
  }

  /** Whenever the event loop blocks, whatever other threads sent and woke meanwhile, no task has an
      unserved wake and no delivered result waits unserved. */
  lemma BlockedMeansServed(s: Cpu, inbox: seq<Message>, rounds: seq<Round>, b: Cpu)
    requires Inv(s) && b in Blocked(s, inbox, rounds)
    ensures Inv(b) && b.due == {} && b.io.signalled == map[]
  {
    var es := BlockedIsRun(s, inbox, rounds, b);
    RunKeeps(s, es);
    EmptyQueueServed(b);
  }
}
