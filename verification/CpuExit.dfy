/** What `run` leaves behind when it returns: a shutdown read while tasks are woken ends the loop with their
    wakes and results unserved. */
module CpuExit {
  import opened Io
  import opened Options
  import opened CpuModel
  import opened CpuProofs
  import opened CpuTheorems

  // ----- After the drain, the queue is just the unserved wakes -----

  /** The queue holds exactly the tasks with an unserved wake. */
  ghost predicate Exact(s: Cpu) {
    forall id :: id in s.due <==> id in s.ready
  }

  lemma CompleteExact(s: Cpu, c: Cqe)
    requires Inv(s) && Exact(s)
    ensures Exact(Complete(s, c))
  {
    assert c.userData in s.io.pending ==> c.userData !in s.io.completed;
  }

  /** Only taking an id off the queue can break that, if the id is queued twice. */
  lemma StepExact(s: Cpu, e: Event)
    requires Inv(s) && Exact(s) && !e.Popped?
    ensures Exact(Step(s, e))
  {
    if e.Completion? { CompleteExact(s, e.cqe); }
  }

  lemma {:induction false} RunExact(s: Cpu, es: seq<Event>)
    requires Inv(s) && Exact(s) && forall e :: e in es ==> !e.Popped?
    ensures Exact(Run(s, es)) && Inv(Run(s, es))
    decreases es
  {
    if es != [] {
      StepExact(s, es[0]);
      StepKeeps(s, es[0]);
      RunExact(Step(s, es[0]), es[1..]);
    }
  }

  lemma DrainedExact(s: Cpu, wakes: seq<seq<TaskId>>)
    requires Inv(s)
    ensures Inv(Drain(s, wakes)) && Exact(Drain(s, wakes))
  {
    DrainKeeps(s, wakes);
    EmptyQueueServed(Drain(s, wakes));
  }

  /** The state in which the drain loop of a round ends. */
  function DrainedOf(s: Cpu, inbox: seq<Message>, x: Round): (d: Cpu) {
    Drain(Entering(s, InputOf(inbox, x)), x.wakes)
  }

  lemma TickedExact(s: Cpu, inbox: seq<Message>, x: Round)
    requires Inv(s)
    ensures Inv(DrainedOf(s, inbox, x)) && Inv(Ticked(s, inbox, x)) && Exact(Ticked(s, inbox, x))
  {
    var entering := Entering(s, InputOf(inbox, x));
    var a := EnteringIsRun(s, InputOf(inbox, x));
    RunKeeps(s, a);
    DrainedExact(entering, x.wakes);
    var d := DrainedOf(s, inbox, x);
    var b := CompletionsAreRun(d, x.cqes);
    RunExact(d, b);
    var c := WakesAreRun(CompleteAll(d, x.cqes), x.late);
    RunExact(CompleteAll(d, x.cqes), c);
  }

  // ----- Who is woken between the drain and the look at the queue -----

  /** Some completion answers an operation whose future has a waker registered. */
  ghost predicate Signals(io: IoState, cs: seq<Cqe>) {
    exists i :: 0 <= i < |cs| && cs[i].userData in io.pending && cs[i].userData in io.wakers
  }

  lemma {:induction false} CompleteGrows(s: Cpu, cs: seq<Cqe>)
    ensures s.ready <= CompleteAll(s, cs).ready
    decreases cs
  {
    if cs != [] { CompleteGrows(Complete(s, cs[0]), cs[1..]); }
  }

  lemma {:induction false} WakesGrow(s: Cpu, ids: seq<TaskId>)
    ensures s.ready <= WakeAll(s, ids).ready && (ids != [] ==> s.ready < WakeAll(s, ids).ready)
    decreases ids
  {
    if ids != [] { WakesGrow(WakeTask(s, ids[0]), ids[1..]); }
  }

  lemma SignalsLater(s: Cpu, cs: seq<Cqe>)
    requires cs != [] && !Signals(s.io, cs[..1])
    ensures Signals(s.io, cs) <==> Signals(Complete(s, cs[0]).io, cs[1..])
    ensures Complete(s, cs[0]).ready == s.ready
  {
    var c, io, rest := cs[0], Complete(s, cs[0]).io, cs[1..];
    assert cs[..1][0] == c;
    assert forall i :: 0 <= i < |rest| ==> rest[i] == cs[i + 1];
    if Signals(s.io, cs) {
      var i :| 0 <= i < |cs| && cs[i].userData in s.io.pending && cs[i].userData in s.io.wakers;
      assert i > 0 && rest[i - 1].userData in io.pending && rest[i - 1].userData in io.wakers;
    }
    if Signals(io, rest) {
      var i :| 0 <= i < |rest| && rest[i].userData in io.pending && rest[i].userData in io.wakers;
      assert cs[i + 1].userData in s.io.pending && cs[i + 1].userData in s.io.wakers;
    }
  }

  lemma {:induction false} QuietCompletions(s: Cpu, cs: seq<Cqe>)
    requires s.ready == []
    ensures CompleteAll(s, cs).ready == [] <==> !Signals(s.io, cs)
    decreases cs
  {
    if cs != [] {
      if Signals(s.io, cs[..1]) {
        CompleteGrows(Complete(s, cs[0]), cs[1..]);
        assert cs[..1][0] == cs[0];
      } else {
        SignalsLater(s, cs);
        QuietCompletions(Complete(s, cs[0]), cs[1..]);
      }
    }
  }

  /** The queue is empty when `run` looks at it exactly if since the drain no wake arrived and no completion
      fired a waker. */
  lemma LooksEmptyIff(s: Cpu, inbox: seq<Message>, x: Round)
    ensures Ticked(s, inbox, x).ready == [] <==>
            x.late == [] && !Signals(DrainedOf(s, inbox, x).io, x.cqes)
  {
    var d := DrainedOf(s, inbox, x);
    QuietCompletions(d, x.cqes);
    WakesGrow(CompleteAll(d, x.cqes), x.late);
  }

  // ----- The end of the loop -----

  lemma {:induction false} MessagesGrow(s: Cpu, ms: seq<Message>)
    ensures s.ready <= HandleAll(s, ms).ready
    decreases ms
  {
    if ms != [] { MessagesGrow(Handle(s, ms[0]), ms[1..]); }
  }

  lemma AfterTickExact(s: Cpu, inbox: seq<Message>, closed: bool)
    requires Inv(s) && Exact(s)
    ensures var r := AfterTick(s, inbox, closed).0; Inv(r) && Exact(r)
  {
    if s.ready != [] {
      var es := MessagesAreRun(s, inbox);
      RunExact(s, es);
    } else if inbox != [] {
      StepExact(s, Delivered(inbox[0]));
      StepKeeps(s, Delivered(inbox[0]));
    }
  }

  /** The end of a round leaves the queue empty exactly if it was, and no task was submitted last. */
  lemma EndsEmptyIff(s: Cpu, inbox: seq<Message>, closed: bool)
    ensures AfterTick(s, inbox, closed).0.ready == [] <==>
            s.ready == [] && (inbox == [] || !inbox[0].SubmitTask?)
  {
    if s.ready != [] { MessagesGrow(s, inbox); }
  }

  /** How `run` returns: the last round, its drained state, and the state it leaves. */
  datatype Exit = Exit(drained: Cpu, round: Round, final: Cpu)

  function ExitOf(s: Cpu, inbox: seq<Message>, rounds: seq<Round>): (x: Option<Exit>)
    decreases rounds
  {
    if rounds == [] || !s.running then None
    else
      var (next, left) := AfterRound(s, inbox, rounds[0]);
      if !next.running then Some(Exit(DrainedOf(s, inbox, rounds[0]), rounds[0], next))
      else ExitOf(next, left, rounds[1..])
  }

  // ----- What ends it -----

  /** What the end of a round handles of the channel: all of it if tasks are queued, otherwise at most one. */
  function Last(s: Cpu, inbox: seq<Message>): (ms: seq<Message>) {
    if s.ready != [] then inbox else if inbox == [] then [] else inbox[..1]
  }

  /** The messages a round handles. */
  function HandledIn(s: Cpu, inbox: seq<Message>, x: Round): (ms: seq<Message>) {
    inbox + x.arrived + Last(Ticked(s, inbox, x), x.later)
  }

  lemma {:induction false} MessagesStop(s: Cpu, ms: seq<Message>)
    ensures HandleAll(s, ms).running <==> s.running && Shutdown !in ms
    decreases ms
  {
    if ms != [] { MessagesStop(Handle(s, ms[0]), ms[1..]); }
  }

  lemma {:induction false} ActsGoOn(s: Cpu, id: TaskId, acts: seq<Act>)
    ensures RunActs(s, id, acts).running == s.running
    decreases acts
  {
    if acts != [] { ActsGoOn(RunAct(s, id, acts[0]), id, acts[1..]); }
  }

  lemma StepGoesOn(s: Cpu, e: Event)
    requires !e.Delivered?
    ensures Step(s, e).running == s.running
  {
    if e.Popped? && s.ready != [] {
      var id := s.ready[0];
      if id in s.tasks && s.tasks[id].polls != [] {
        ActsGoOn(Serve(s.(ready := s.ready[1..]), id).(polled := s.polled + [id]), id, s.tasks[id].polls[0].acts);
      }
    }
  }

  lemma {:induction false} RunGoesOn(s: Cpu, es: seq<Event>)
    requires forall e :: e in es ==> !e.Delivered?
    ensures Run(s, es).running == s.running
    decreases es
  {
    if es != [] {
      StepGoesOn(s, es[0]);
      RunGoesOn(Step(s, es[0]), es[1..]);
    }
  }

  lemma TickedRunning(s: Cpu, inbox: seq<Message>, x: Round)
    ensures Ticked(s, inbox, x).running <==> s.running && Shutdown !in inbox + x.arrived
  {
    var handled := HandleAll(s, inbox + x.arrived);
    MessagesStop(s, inbox + x.arrived);
    var a := WakesAreRun(handled, x.expired);
    RunGoesOn(handled, a);
    var b := DrainIsRun(Entering(s, InputOf(inbox, x)), x.wakes);
    RunGoesOn(Entering(s, InputOf(inbox, x)), b);
    var d := DrainedOf(s, inbox, x);
    var c := CompletionsAreRun(d, x.cqes);
    RunGoesOn(d, c);
    var late := WakesAreRun(CompleteAll(d, x.cqes), x.late);
    RunGoesOn(CompleteAll(d, x.cqes), late);
  }

  /** The loop goes on after a round exactly if none of the messages it handled was a shutdown, and it did
      not find the queue and the channel empty with all senders gone. */
  lemma GoesOnIff(s: Cpu, inbox: seq<Message>, x: Round)
    requires s.running
    ensures AfterRound(s, inbox, x).0.running <==>
            && Shutdown !in HandledIn(s, inbox, x)
            && !(Ticked(s, inbox, x).ready == [] && x.later == [] && x.closed)
  {
    var t := Ticked(s, inbox, x);
    TickedRunning(s, inbox, x);
    if t.ready != [] { MessagesStop(t, x.later); }
  }

  // ----- What it leaves -----

  /** Nothing happened in a round after its drain that wakes a task or submits one. */
  ghost predicate EndsQuietly(x: Exit) {
    && x.round.late == [] && !Signals(x.drained.io, x.round.cqes)
    && (x.round.later == [] || !x.round.later[0].SubmitTask?)
  }

  lemma RoundExit(s: Cpu, inbox: seq<Message>, x: Round)
    requires Inv(s)
    ensures var r := AfterRound(s, inbox, x).0;
            && Inv(r) && Exact(r)
            && (r.ready == [] <==> EndsQuietly(Exit(DrainedOf(s, inbox, x), x, r)))
  {
    TickedExact(s, inbox, x);
    LooksEmptyIff(s, inbox, x);
    AfterTickExact(Ticked(s, inbox, x), x.later, x.closed);
    EndsEmptyIff(Ticked(s, inbox, x), x.later, x.closed);
  }

  /** When `run` returns, no wake and no delivered result is left unserved if and only if its last round ends
      quietly; otherwise the tasks left unserved are exactly those in the queue. */
  lemma {:induction false} ExitServedIff(s: Cpu, inbox: seq<Message>, rounds: seq<Round>)
    requires Inv(s) && ExitOf(s, inbox, rounds).Some?
    ensures var x := ExitOf(s, inbox, rounds).value;
            && !x.final.running && Exact(x.final)
            && (x.final.due == {} <==> EndsQuietly(x)) && (x.final.due == {} ==> x.final.io.signalled == map[])
    decreases rounds
  {
    var (next, left) := AfterRound(s, inbox, rounds[0]);
    RoundExit(s, inbox, rounds[0]);
    if !next.running {
      if next.ready == [] {
        EmptyQueueServed(next);
      } else {
        assert next.ready[0] in next.due;
      }
    } else {
      ExitServedIff(next, left, rounds[1..]);
    }
  }
}
