/** What a join handle delivers, in terms of the task as it was spawned: over every run, the value of its first
    poll that is not pending. And the queue hands out every wake once, in order. */
module ExecutorValues {
  import opened Sequences
  import opened ExecutorModel
  import opened ExecutorProofs

  // ----- Histories -----

  /** The tasks a run spawns, in order; the first gets id 1. */
  function SpawnsOf(es: seq<Event>): (ts: seq<Task>)
    decreases es
  {
    if es == [] then [] else (if es[0].Spawned? then [es[0].task] else []) + SpawnsOf(es[1..])
  }

  /** How the polls of `id` ended, in order. */
  function OutcomesOf(log: seq<Entry>, id: TaskId): (os: seq<Outcome>)
    decreases |log|
  {
    if log == [] then []
    else
      var k := |log| - 1;
      OutcomesOf(log[..k], id) + if log[k].id == id then [log[k].outcome] else []
  }

  /** How poll number `i` of a task ends, counted from 0. */
  function OutcomeAt(t: Task, i: nat): (o: Outcome) {
    if i < |t.polls| then t.polls[i].outcome else Ready(t.value)
  }

  /** Poll number `n` is the first that is not pending, and ends with `o`. */
  predicate EndsAt(t: Task, n: nat, o: Outcome) {
    !o.Pending? && OutcomeAt(t, n) == o && forall i: nat :: i < n ==> OutcomeAt(t, i).Pending?
  }

  ghost predicate EndsAs(t: Task, o: Outcome) {
    exists n :: EndsAt(t, n, o)
  }

  /** These polls ended as the task has it, and all but the last are pending. */
  ghost predicate Played(os: seq<Outcome>, t: Task) {
    forall i :: 0 <= i < |os| ==> os[i] == OutcomeAt(t, i) && (i < |os| - 1 ==> os[i].Pending?)
  }

  predicate AllPending(os: seq<Outcome>) {
    forall i :: 0 <= i < |os| ==> os[i].Pending?
  }

  /** What is left of a task after `n` polls. */
  function After(t: Task, n: nat): (r: Task) {
    if n <= |t.polls| then t.(polls := t.polls[n..]) else t.(polls := [])
  }

  /** The polls of `id` ended as the task `t` has it, and it is in the table, with the rest of its script,
      exactly as long as all are pending. */
  ghost predicate Scripted(s: Exec, id: TaskId, t: Task) {
    var os := OutcomesOf(s.log, id);
    && Played(os, t) && (id in s.tasks <==> AllPending(os))
    && (id in s.tasks ==> s.tasks[id] == After(t, |os|))
  }

  /** Ids are given out in order, and `id` goes by the script of the task spawned under it. */
  ghost predicate ScriptedIn(s: Exec, ts: seq<Task>, id: TaskId) {
    && s.nextId == |ts| + 1 && (id in s.channels <==> 1 <= id <= |ts|)
    && (1 <= id <= |ts| ==> Scripted(s, id, ts[id - 1]))
  }

  // ----- Each step keeps them -----

  lemma {:induction false} NoOutcomes(log: seq<Entry>, id: TaskId)
    requires forall e :: e in log ==> e.id != id
    ensures OutcomesOf(log, id) == []
    decreases |log|
  {
    if log != [] { NoOutcomes(log[..|log| - 1], id); }
  }

  lemma OutcomesNext(log: seq<Entry>, e: Entry, id: TaskId)
    ensures OutcomesOf(log + [e], id) == OutcomesOf(log, id) + if e.id == id then [e.outcome] else []
  {
    assert (log + [e])[..|log|] == log;
  }

  lemma PlayedNext(os: seq<Outcome>, t: Task)
    requires Played(os, t) && AllPending(os)
    ensures var o := OutcomeAt(t, |os|);
            |os| <= |t.polls| && Played(os + [o], t) && (AllPending(os + [o]) <==> o.Pending?)
  {
    var more := os + [OutcomeAt(t, |os|)];
    if |os| > 0 { assert os[|os| - 1] == OutcomeAt(t, |os| - 1) && os[|os| - 1].Pending?; }
    assert more[|os|] == OutcomeAt(t, |os|);
  }

  lemma AfterNext(t: Task, n: nat)
    requires n <= |t.polls|
    ensures After(t, n).Next().outcome == OutcomeAt(t, n)
    ensures OutcomeAt(t, n).Pending? ==> After(t, n).Rest() == After(t, n + 1)
  {
    if n < |t.polls| { assert t.polls[n..][1..] == t.polls[n + 1..]; }
  }

  lemma SpawnScripted(s: Exec, ts: seq<Task>, t: Task, id: TaskId)
    requires Inv(s) && ScriptedIn(s, ts, id)
    ensures ScriptedIn(Spawn(s, t), ts + [t], id)
  {
    if id == s.nextId {
      NoOutcomes(s.log, id);
      assert t.polls[0..] == t.polls;
    }
  }

  lemma PopFront(s: Exec, t: Task)
    requires s.ready != [] && s.ready[0] in s.tasks && Scripted(s, s.ready[0], t)
    ensures Scripted(Pop(s), s.ready[0], t)
  {
    hide Played, AllPending, After, OutcomeAt;
    var id := s.ready[0];
    var os, o := OutcomesOf(s.log, id), s.tasks[id].Next().outcome;
    PlayedNext(os, t);
    AfterNext(t, |os|);
    OutcomesNext(s.log, Entry(id, o), id);
    assert Pop(s).log == s.log + [Entry(id, o)];
  }

  lemma PopOther(s: Exec, id: TaskId, t: Task)
    requires s.ready != [] && Scripted(s, id, t) && (s.ready[0] in s.tasks ==> s.ready[0] != id)
    ensures Scripted(Pop(s), id, t)
  {
    hide Played, AllPending, After, OutcomesOf;
    var x := s.ready[0];
    if x in s.tasks {
      OutcomesNext(s.log, Entry(x, s.tasks[x].Next().outcome), id);
      assert Pop(s).log == s.log + [Entry(x, s.tasks[x].Next().outcome)];
      assert OutcomesOf(s.log, id) + [] == OutcomesOf(s.log, id);
    }
  }

  lemma PopScripted(s: Exec, ts: seq<Task>, id: TaskId)
    requires Inv(s) && ScriptedIn(s, ts, id) && s.ready != []
    ensures ScriptedIn(Pop(s), ts, id)
  {
    hide Scripted;
    if 1 <= id <= |ts| {
      if s.ready[0] in s.tasks && s.ready[0] == id {
        PopFront(s, ts[id - 1]);
      } else {
        PopOther(s, id, ts[id - 1]);
      }
    }
  }

  lemma RecvScripted(s: Exec, ts: seq<Task>, x: TaskId, id: TaskId)
    requires ScriptedIn(s, ts, id)
    ensures ScriptedIn(AfterRecv(s, x), ts, id)
  {
    hide Played, AllPending, After, OutcomesOf;
  }

  lemma StepScripted(s: Exec, ts: seq<Task>, e: Event, id: TaskId)
    requires Inv(s) && ScriptedIn(s, ts, id)
    ensures ScriptedIn(Step(s, e), ts + if e.Spawned? then [e.task] else [], id)
  {
    hide Played, AllPending, After, OutcomesOf;
    assert ts + [] == ts;
    match e
    case Spawned(t) => SpawnScripted(s, ts, t, id);
    case Woken(_) =>
    case Popped => if s.ready != [] { PopScripted(s, ts, id); }
    case Asked(x) => RecvScripted(s, ts, x, id);
  }

  lemma {:induction false} RunScripted(s: Exec, ts: seq<Task>, es: seq<Event>, id: TaskId)
    requires Inv(s) && ScriptedIn(s, ts, id)
    ensures ScriptedIn(Run(s, es), ts + SpawnsOf(es), id)
    decreases es
  {
    if es == [] {
      assert ts + [] == ts;
    } else {
      var one := if es[0].Spawned? then [es[0].task] else [];
      StepScripted(s, ts, es[0], id);
      StepKeeps(s, es[0]);
      RunScripted(Step(s, es[0]), ts + one, es[1..], id);
      Associate(ts, one, SpawnsOf(es[1..]));
    }
  }

  // ----- What the handle delivers -----

  lemma {:induction false} LoggedOutcome(log: seq<Entry>, id: TaskId, o: Outcome)
    requires Entry(id, o) in log
    ensures o in OutcomesOf(log, id)
    decreases |log|
  {
    var k := |log| - 1;
    if log[k] != Entry(id, o) { LoggedOutcome(log[..k], id, o); }
  }

  lemma EndedAsScripted(s: Exec, id: TaskId, t: Task, o: Outcome)
    requires Scripted(s, id, t) && EndedWith(s.log, id, o)
    ensures EndsAs(t, o)
  {
    LoggedOutcome(s.log, id, o);
    var os := OutcomesOf(s.log, id);
    var n: nat :| n < |os| && os[n] == o;
    forall i: nat | i < n ensures OutcomeAt(t, i).Pending? { assert os[i] == OutcomeAt(t, i); }
    assert EndsAt(t, n, o);
  }

  lemma PendingAsScripted(s: Exec, id: TaskId, t: Task)
    requires Scripted(s, id, t) && id in s.tasks
    ensures forall i: nat :: i < |OutcomesOf(s.log, id)| ==> OutcomeAt(t, i).Pending?
  {
    var os := OutcomesOf(s.log, id);
    forall i: nat | i < |os| ensures OutcomeAt(t, i).Pending? { assert os[i] == OutcomeAt(t, i); }
  }

  lemma TakenAsScripted(s: Exec, id: TaskId, t: Task)
    requires TakenInv(s) && Scripted(s, id, t) && id in s.taken
    ensures exists v :: EndsAs(t, Ready(v))
  {
    var v :| EndedWith(s.log, id, Ready(v));
    EndedAsScripted(s, id, t, Ready(v));
  }

  /** Over every run, for the task spawned as number `id`: its handle delivers only the value of the first of
      its polls that is not pending, and says Cancelled only if that one panics or the value was received; it
      is pending exactly as long as all polls so far are. */
  lemma HandleDelivers(es: seq<Event>, id: TaskId)
    requires 1 <= id <= |SpawnsOf(es)|
    ensures var s, t := Run(NEW_EXEC, es), SpawnsOf(es)[id - 1];
            match PollHandle(s, id)
            case StillPending =>
              forall i: nat :: i < |OutcomesOf(s.log, id)| ==> OutcomeAt(t, i).Pending?
            case Finished(v) => EndsAs(t, Ready(v)) && id !in s.taken
            case Cancelled => EndsAs(t, Panic) || (id in s.taken && exists v :: EndsAs(t, Ready(v)))
  {
    hide Scripted, EndsAs, Inv;
    var s, t := Run(NEW_EXEC, es), SpawnsOf(es)[id - 1];
    RunScripted(NEW_EXEC, [], es, id);
    assert [] + SpawnsOf(es) == SpawnsOf(es);
    assert id in s.channels && Scripted(s, id, t);
    HandleAnswers(es, id);
    RunKeeps(NEW_EXEC, es);
    match PollHandle(s, id)
    case StillPending => PendingAsScripted(s, id, t);
    case Finished(v) => EndedAsScripted(s, id, t, Ready(v));
    case Cancelled => if id in s.taken { TakenAsScripted(s, id, t); } else { EndedAsScripted(s, id, t, Panic); }
  }

  // ----- First in, first out -----

  /** The wakes of an event: of the task it spawns, of the id it names, or those of its poll. */
  function Wakes(s: Exec, e: Event): (ids: seq<TaskId>) {
    match e
    case Spawned(_) => [s.nextId]
    case Woken(id) => [id]
    case Asked(_) => []
    case Popped =>
      if s.ready != [] && s.ready[0] in s.tasks && s.tasks[s.ready[0]].polls != []
      then s.tasks[s.ready[0]].polls[0].wakes else []
  }

  function AllWakes(s: Exec, es: seq<Event>): (ids: seq<TaskId>)
    decreases es
  {
    if es == [] then [] else Wakes(s, es[0]) + AllWakes(Step(s, es[0]), es[1..])
  }

  function Takeoff(s: Exec, e: Event): (ids: seq<TaskId>) {
    if e.Popped? && s.ready != [] then [s.ready[0]] else []
  }

  function AllTaken(s: Exec, es: seq<Event>): (ids: seq<TaskId>)
    decreases es
  {
    if es == [] then [] else Takeoff(s, es[0]) + AllTaken(Step(s, es[0]), es[1..])
  }

  lemma StepQueue(s: Exec, e: Event)
    ensures s.ready + Wakes(s, e) == Takeoff(s, e) + Step(s, e).ready
  {
    if e.Popped? && s.ready != [] {
      assert s.ready == [s.ready[0]] + s.ready[1..];
    }
  }

  /** Over every run the queue is first in, first out, and loses and invents nothing. */
  lemma {:induction false} QueueIsFifo(s: Exec, es: seq<Event>)
    ensures s.ready + AllWakes(s, es) == AllTaken(s, es) + Run(s, es).ready
    decreases es
  {
    if es != [] {
      var s1, rest := Step(s, es[0]), es[1..];
      StepQueue(s, es[0]);
      QueueIsFifo(s1, rest);
      Associate(s.ready, Wakes(s, es[0]), AllWakes(s1, rest));
      Associate(Takeoff(s, es[0]), s1.ready, AllWakes(s1, rest));
      Associate(Takeoff(s, es[0]), AllTaken(s1, rest), Run(s1, rest).ready);
    }
  }
}
