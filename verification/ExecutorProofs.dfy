/** What every run of the executor keeps: tasks are isolated from each other's panics, end once, and
    deliver their result at most once. */
module ExecutorProofs {
  import opened Measures
  import opened ExecutorModel

  // ----- Single completion and single delivery -----

  predicate Final(e: Entry) {
    !e.outcome.Pending?
  }

  /** How the poll that ended `id` ended, if it has ended. */
  predicate EndedWith(log: seq<Entry>, id: TaskId, o: Outcome) {
    !o.Pending? && Entry(id, o) in log
  }

  /** Nothing follows the final poll of a task. */
  ghost predicate FinalIsLast(log: seq<Entry>) {
    forall i, j :: 0 <= i < j < |log| && Final(log[i]) ==> log[j].id != log[i].id
  }

  /** A task in the table has not ended. Its channel is open exactly as long as it is there; then the
      channel holds the result until it is taken, and stays empty for a task that panicked. */
  ghost predicate ChannelsMatch(s: Exec) {
    && (forall id :: id in s.tasks ==> id in s.channels)
    && (forall id :: id in s.channels ==> id < s.nextId)
    && (forall id :: id in s.channels ==>
          match s.channels[id]
          case Open => id in s.tasks && id !in s.taken
          case Full(v) => id !in s.tasks && EndedWith(s.log, id, Ready(v)) && id !in s.taken
          case Closed => id !in s.tasks && (EndedWith(s.log, id, Panic) || id in s.taken))
  }

  ghost predicate LogInv(s: Exec) {
    && FinalIsLast(s.log)
    && (forall e :: e in s.log ==> e.id in s.channels)
    && (forall e :: e in s.log && Final(e) ==> e.id !in s.tasks)
    && (forall id :: id in s.channels && id !in s.tasks ==> exists e :: e in s.log && Final(e) && e.id == id)
  }

  /** No result is received twice, and only results of tasks that ended with one. */
  ghost predicate TakenInv(s: Exec) {
    && (forall i, j :: 0 <= i < j < |s.taken| ==> s.taken[i] != s.taken[j])
    && (forall id :: id in s.taken ==> id in s.channels && exists v :: EndedWith(s.log, id, Ready(v)))
  }

  ghost predicate Inv(s: Exec) {
    ChannelsMatch(s) && LogInv(s) && TakenInv(s)
  }

  lemma SpawnKeeps(s: Exec, t: Task)
    requires Inv(s)
    ensures Inv(Spawn(s, t))
  {
  }

  lemma RecvKeeps(s: Exec, id: TaskId)
    requires Inv(s)
    ensures Inv(AfterRecv(s, id))
  {
  }

  lemma PopKeepsChannels(s: Exec)
    requires Inv(s) && s.ready != []
    ensures ChannelsMatch(Pop(s))
  {
    var id, r := s.ready[0], Pop(s);
    if id in s.tasks {
      assert r.log[|s.log|] == Entry(id, s.tasks[id].Next().outcome);
      assert forall e :: e in s.log ==> e in r.log;
    }
  }

  lemma PopKeepsLog(s: Exec)
    requires Inv(s) && s.ready != []
    ensures LogInv(Pop(s))
  {
    var id, r := s.ready[0], Pop(s);
    if id in s.tasks {
      assert r.log[|s.log|] == Entry(id, s.tasks[id].Next().outcome);
      assert forall e :: e in s.log ==> e in r.log;
    }
  }

  lemma PopKeepsTaken(s: Exec)
    requires ChannelsMatch(s) && TakenInv(s) && s.ready != []
    ensures TakenInv(Pop(s))
  {
    var r := Pop(s);
    assert forall e :: e in s.log ==> e in r.log;
    forall id | id in r.taken ensures exists v :: EndedWith(r.log, id, Ready(v)) {
      var v :| EndedWith(s.log, id, Ready(v));
      assert EndedWith(r.log, id, Ready(v));
    }
  }

  lemma PopKeeps(s: Exec)
    requires Inv(s) && s.ready != []
    ensures Inv(Pop(s))
  {
    PopKeepsChannels(s);
    PopKeepsLog(s);
    PopKeepsTaken(s);
  }

  lemma StepKeeps(s: Exec, e: Event)
    requires Inv(s)
    ensures Inv(Step(s, e))
  {
    match e
    case Spawned(t) => SpawnKeeps(s, t);
    case Woken(_) =>
    case Popped => if s.ready != [] { PopKeeps(s); }
    case Asked(id) => RecvKeeps(s, id);
  }

  lemma {:induction false} RunKeeps(s: Exec, es: seq<Event>)
    requires Inv(s)
    ensures Inv(Run(s, es))
    decreases es
  {
    if es != [] {
      StepKeeps(s, es[0]);
      RunKeeps(Step(s, es[0]), es[1..]);
    }
  }

  lemma {:induction false} TickKeeps(s: Exec)
    requires Inv(s)
    ensures Inv(Tick(s))
    decreases Total(s.tasks, PollsLeft()), |s.ready|
  {
    if s.ready != [] {
      PopKeeps(s);
      PopDecreases(s);
      TickKeeps(Pop(s));
    }
  }

  /** Over every run of spawns, wakes, polls and handle calls: no task is polled after it ended,
      whatever stale or duplicate ids are queued, and no result is received twice. */
  lemma SingleCompletion(es: seq<Event>, i: nat, j: nat)
    ensures var s := Run(NEW_EXEC, es);
            && (i < j < |s.log| && Final(s.log[i]) ==> s.log[j].id != s.log[i].id)
            && (i < j < |s.taken| ==> s.taken[i] != s.taken[j])
  {
    RunKeeps(NEW_EXEC, es);
  }

  lemma OneEnding(s: Exec, id: TaskId, o: Outcome, p: Outcome)
    requires Inv(s) && EndedWith(s.log, id, o) && EndedWith(s.log, id, p)
    ensures o == p
  {
    var i :| 0 <= i < |s.log| && s.log[i] == Entry(id, o);
    var j :| 0 <= j < |s.log| && s.log[j] == Entry(id, p);
    assert Final(s.log[i]) && Final(s.log[j]);
  }

  /** What a handle answers, in terms of how its task ended: the value until someone has received it,
      Cancelled from then on and for a task that panicked. */
  lemma HandleAnswers(es: seq<Event>, id: TaskId)
    requires id in Run(NEW_EXEC, es).channels
    ensures var s := Run(NEW_EXEC, es);
            match PollHandle(s, id)
            case StillPending => id in s.tasks
            case Finished(v) => EndedWith(s.log, id, Ready(v)) && id !in s.taken
            case Cancelled => EndedWith(s.log, id, Panic) || id in s.taken
    ensures var s := Run(NEW_EXEC, es);
            EndedWith(s.log, id, Panic) ==> PollHandle(s, id) == Cancelled && IsFinished(s, id)
  {
    RunKeeps(NEW_EXEC, es);
    var s := Run(NEW_EXEC, es);
    if EndedWith(s.log, id, Panic) {
      assert Final(Entry(id, Panic));
      match s.channels[id]
      case Full(v) => OneEnding(s, id, Panic, Ready(v));
      case _ =>
    }
  }

  /** A channel holds a result exactly if its task has ended with one that nobody has received. */
  lemma HoldsResultIff(s: Exec, id: TaskId)
    requires Inv(s)
    ensures TryRecv(s, id).Got? <==> (exists v :: EndedWith(s.log, id, Ready(v))) && id !in s.taken
  {
    if v :| EndedWith(s.log, id, Ready(v)) && id !in s.taken {
      assert Final(Entry(id, Ready(v))) && id in s.channels;
      if s.channels[id].Closed? { OneEnding(s, id, Panic, Ready(v)); }
    }
  }

  /** `is_finished` is not a pure question: over every run, asking changes the handle's next answer if and
      only if the task has ended with a result that nobody has received. The result is then lost. */
  lemma AskingLosesResultIff(es: seq<Event>, id: TaskId)
    ensures var s := Run(NEW_EXEC, es);
            var r := Step(s, Asked(id));
            && (PollHandle(r, id) != PollHandle(s, id) <==>
                (exists v :: EndedWith(s.log, id, Ready(v))) && id !in s.taken)
            && (PollHandle(r, id) != PollHandle(s, id) ==> IsFinished(s, id) && PollHandle(r, id) == Cancelled)
  {
    RunKeeps(NEW_EXEC, es);
    HoldsResultIff(Run(NEW_EXEC, es), id);
  }

  // ----- Panic isolation -----

  predicate SamePoll(p: Poll, q: Poll) {
    p.wakes == q.wakes && (p.outcome.Pending? <==> q.outcome.Pending?)
  }

  /** Two tasks that differ at most in the values and panics they end with. */
  predicate SameTask(t: Task, u: Task) {
    |t.polls| == |u.polls| && forall k :: 0 <= k < |t.polls| ==> SamePoll(t.polls[k], u.polls[k])
  }

  predicate SameEvent(e: Event, f: Event) {
    e == f || (e.Spawned? && f.Spawned? && SameTask(e.task, f.task))
  }

  function PolledIds(log: seq<Entry>): (r: seq<TaskId>) {
    seq(|log|, i requires 0 <= i < |log| => log[i].id)
  }

  /** Everything the scheduler sees is the same. */
  ghost predicate SameSchedule(a: Exec, b: Exec) {
    && a.ready == b.ready && a.nextId == b.nextId
    && a.tasks.Keys == b.tasks.Keys
    && (forall id :: id in a.tasks ==> SameTask(a.tasks[id], b.tasks[id]))
    && PolledIds(a.log) == PolledIds(b.log)
  }

  lemma SameNext(t: Task, u: Task)
    requires SameTask(t, u)
    ensures SamePoll(t.Next(), u.Next()) && SameTask(t.Rest(), u.Rest())
  {
  }

  lemma PolledIdsAppend(log: seq<Entry>, e: Entry)
    ensures PolledIds(log + [e]) == PolledIds(log) + [e.id]
  {
  }

  lemma PopSame(a: Exec, b: Exec)
    requires SameSchedule(a, b) && a.ready != []
    ensures SameSchedule(Pop(a), Pop(b))
  {
    var id := a.ready[0];
    if id in a.tasks {
      var t, u := a.tasks[id], b.tasks[id];
      SameNext(t, u);
      PolledIdsAppend(a.log, Entry(id, t.Next().outcome));
      PolledIdsAppend(b.log, Entry(id, u.Next().outcome));
      assert Pop(a).tasks.Keys == Pop(b).tasks.Keys;
    }
  }

  lemma StepSame(a: Exec, b: Exec, e: Event, f: Event)
    requires SameSchedule(a, b) && SameEvent(e, f)
    ensures SameSchedule(Step(a, e), Step(b, f))
  {
    match e
    case Popped => if a.ready != [] { PopSame(a, b); }
    case Spawned(_) => assert Step(a, e).tasks.Keys == Step(b, f).tasks.Keys;
    case _ =>
  }

  /** Panic isolation: turning any panics of any tasks into results, or back, changes nothing that
      any other task or the scheduler sees, over every run: the same ids are polled in the same
      order, and the same tasks remain. */
  lemma {:induction false} PanicIsolation(a: Exec, b: Exec, es: seq<Event>, fs: seq<Event>)
    requires SameSchedule(a, b) && |es| == |fs|
    requires forall i :: 0 <= i < |es| ==> SameEvent(es[i], fs[i])
    ensures SameSchedule(Run(a, es), Run(b, fs))
    decreases es
  {
    if es != [] {
      StepSame(a, b, es[0], fs[0]);
      PanicIsolation(Step(a, es[0]), Step(b, fs[0]), es[1..], fs[1..]);
    }
  }

  // ----- Termination -----

  /** Every pending poll of a task wakes the task itself. */
  predicate WakesItself(id: TaskId, t: Task) {
    forall k :: 0 <= k < |t.polls| && t.polls[k].outcome.Pending? ==> id in t.polls[k].wakes
  }

  ghost predicate SelfWaking(s: Exec) {
    forall id :: id in s.tasks ==> id in s.ready && WakesItself(id, s.tasks[id])
  }

  lemma PopSelfWaking(s: Exec)
    requires SelfWaking(s) && s.ready != []
    ensures SelfWaking(Pop(s))
  {
    var id, r := s.ready[0], Pop(s);
    assert s.ready == [id] + s.ready[1..];
    forall x | x in r.tasks ensures x in r.ready && WakesItself(x, r.tasks[x]) {
      if x == id {
        assert id in s.tasks[id].Next().wakes;
      }
    }
  }

  /** If every task of the table is queued and wakes itself while pending, one tick runs them all to
      their end. */
  lemma {:induction false} TickFinishes(s: Exec)
    requires SelfWaking(s)
    ensures Tick(s).tasks == map[]
    decreases Total(s.tasks, PollsLeft()), |s.ready|
  {
    if s.ready == [] {
      assert s.tasks.Keys == {};
    } else {
      PopSelfWaking(s);
      PopDecreases(s);
      TickFinishes(Pop(s));
    }
  }
}
