/** Runs in which the runtime does not do what one would expect: a task that is pushed ahead of the shutdown
    and never polled, and a task counter that drifts from the queue. */
module RuntimeExamples {
  import opened Sequences
  import opened CoreModel
  import opened CoreFairness
  import opened CoreStop
  import opened Options
  import opened RuntimeModel

  lemma {:induction false} RunAppend(s: Runtime, n: nat, x: seq<Action>, y: seq<Action>)
    requires Sized(s, n)
    ensures Run(s, n, x + y) == Run(Run(s, n, x), n, y)
    decreases x
  {
    if x == [] {
      assert x + y == y;
    } else {
      RunAppend(Act(s, n, x[0]), n, x[1..], y);
      assert (x + y)[1..] == x[1..] + y;
    }
  }

  /** One whole call of `spawn` on a runtime with one core, undisturbed. */
  function SpawnActs(s: Runtime): (acts: seq<Action>) {
    [Call(SpawnLoad(None, Forever))] + ([Step(|s.callers|)] + LastSteps(|s.callers|))
  }

  function LastSteps(i: nat): (acts: seq<Action>) {
    [Step(i)] + ([Step(i)] + ([Step(i)] + []))
  }

  /** What it leaves. */
  function AfterSpawn(s: Runtime): (r: Runtime)
    requires Sized(s, 1)
  {
    Pushed(Ticketed(s.(nextTask := s.nextTask + 1)), s.nextTask)
  }

  lemma FirstAct(s: Runtime, a: Action, acts: seq<Action>, r: Runtime)
    requires Sized(s, 1) && Sized(r, 1) && Act(s, 1, a) == r
    ensures Run(s, 1, [a] + acts) == Run(r, 1, acts)
  {
    assert ([a] + acts)[1..] == acts;
  }

  /** The caller of the spawn stands at `c`. */
  function Standing(s: Runtime, c: Caller): (r: Runtime) {
    s.(callers := s.callers + [c])
  }

  lemma MoveOn(s: Runtime, c: Caller, d: Caller)
    ensures Put(Standing(s, c), |s.callers|, d) == Standing(s, d)
  {
    assert (s.callers + [c])[|s.callers| := d] == s.callers + [d];
  }

  function Pushed(s: Runtime, id: TaskId): (r: Runtime)
    requires Sized(s, 1)
  {
    Standing(Push(s, 0, TaskMsg(Task(id, Forever))).(home := s.home[id := 0]), SpawnDone(Some(id)))
  }

  function Ticketed(s: Runtime): (r: Runtime) {
    s.(nextCore := (s.nextCore + 1) % WORD)
  }

  /** The steps of the call, last one first: what the rest of them leaves, from where the caller stands. */
  lemma FromPush(s: Runtime, id: TaskId)
    requires Sized(s, 1)
    ensures Run(Standing(s, SpawnPush(0, id, Forever)), 1, [Step(|s.callers|)] + []) == Pushed(s, id)
  {
    MoveOn(s, SpawnPush(0, id, Forever), SpawnDone(Some(id)));
    FirstAct(Standing(s, SpawnPush(0, id, Forever)), Step(|s.callers|), [], Pushed(s, id));
  }

  lemma FromTicket(s: Runtime, id: TaskId)
    requires Sized(s, 1)
    ensures Run(Standing(s, SpawnTicket(id, Forever)), 1, [Step(|s.callers|)] + ([Step(|s.callers|)] + []))
         == Pushed(Ticketed(s), id)
  {
    MoveOn(s, SpawnTicket(id, Forever), SpawnPush(0, id, Forever));
    FirstAct(Standing(s, SpawnTicket(id, Forever)), Step(|s.callers|), [Step(|s.callers|)] + [],
             Standing(Ticketed(s), SpawnPush(0, id, Forever)));
    FromPush(Ticketed(s), id);
  }

  lemma FromId(s: Runtime, acts: seq<Action>, r: Runtime)
    requires Sized(s, 1) && Sized(r, 1)
    requires Run(Standing(s.(nextTask := s.nextTask + 1), SpawnTicket(s.nextTask, Forever)), 1, acts) == r
    ensures Run(Standing(s, SpawnId(None, Forever)), 1, [Step(|s.callers|)] + acts) == r
  {
    MoveOn(s, SpawnId(None, Forever), SpawnTicket(s.nextTask, Forever));
    FirstAct(Standing(s, SpawnId(None, Forever)), Step(|s.callers|), acts,
             Standing(s.(nextTask := s.nextTask + 1), SpawnTicket(s.nextTask, Forever)));
  }

  lemma FromCall(s: Runtime, acts: seq<Action>, r: Runtime)
    requires Sized(s, 1) && Sized(r, 1) && s.phase.Running?
    requires Run(Standing(s, SpawnId(None, Forever)), 1, acts) == r
    ensures Run(s, 1, [Call(SpawnLoad(None, Forever))] + ([Step(|s.callers|)] + acts)) == r
  {
    var at := Standing(s, SpawnLoad(None, Forever));
    MoveOn(s, SpawnLoad(None, Forever), SpawnId(None, Forever));
    FirstAct(s, Call(SpawnLoad(None, Forever)), [Step(|s.callers|)] + acts, at);
    FirstAct(at, Step(|s.callers|), acts, Standing(s, SpawnId(None, Forever)));
  }

  lemma AllFromId(s: Runtime)
    requires Sized(s, 1)
    ensures Run(Standing(s, SpawnId(None, Forever)), 1, LastSteps(|s.callers|)) == AfterSpawn(s)
  {
    FromTicket(s.(nextTask := s.nextTask + 1), s.nextTask);
    FromId(s, [Step(|s.callers|)] + ([Step(|s.callers|)] + []), AfterSpawn(s));
  }

  lemma SpawnReturns(s: Runtime)
    requires Sized(s, 1) && s.phase.Running?
    ensures Run(s, 1, SpawnActs(s)) == AfterSpawn(s)
  {
    AllFromId(s);
    FromCall(s, LastSteps(|s.callers|), AfterSpawn(s));
  }

  function Tasks(k: nat): (r: seq<Message>) {
    seq(k, (i: nat) => TaskMsg(Task(i + 1, Forever)))
  }

  /** `k` spawns have returned Ok, and the core has not had a turn yet. */
  predicate Loaded(s: Runtime, k: nat) {
    && Sized(s, 1) && s.phase.Running? && s.nextTask == k + 1 && |s.callers| == k
    && s.cores[0] == NEW_CORE.(inbox := Tasks(k))
    && (forall i :: 0 <= i < k ==> s.callers[i] == SpawnDone(Some(i + 1)))
  }

  lemma {:induction false} ReachLoaded(k: nat) returns (acts: seq<Action>)
    ensures Loaded(Run(New(1), 1, acts), k)
  {
    if k == 0 {
      acts := [];
      assert Tasks(0) == [];
    } else {
      acts := ReachLoaded(k - 1);
      var s := Run(New(1), 1, acts);
      SpawnReturns(s);
      RunAppend(New(1), 1, acts, SpawnActs(s));
      assert Tasks(k) == Tasks(k - 1) + [TaskMsg(Task(k, Forever))];
      acts := acts + SpawnActs(s);
    }
  }

  /** Then a shutdown has told the core. */
  predicate Told(s: Runtime, k: nat) {
    && |s.cores| == 1 && s.cores[0] == NEW_CORE.(inbox := Tasks(k) + [Shutdown]) && |s.callers| == k + 1
    && (forall i :: 0 <= i < k ==> s.callers[i] == SpawnDone(Some(i + 1))) && s.callers[k] == ShutdownDone(true)
  }

  function ShutdownActs(k: nat): (acts: seq<Action>) {
    [Call(ShutdownLoad)] + ([Step(k)] + ([Step(k)] + ([Step(k)] + ([Step(k)] + []))))
  }

  lemma ShutdownWins(s: Runtime, k: nat, acts: seq<Action>) returns (won: Runtime)
    requires Loaded(s, k)
    ensures won == Standing(s, ShutdownPush(0)).(phase := ShuttingDown, winner := Some(k), sent := 0)
    ensures Run(s, 1, [Call(ShutdownLoad)] + ([Step(k)] + ([Step(k)] + acts))) == Run(won, 1, acts)
  {
    won := Standing(s, ShutdownPush(0)).(phase := ShuttingDown, winner := Some(k), sent := 0);
    MoveOn(s, ShutdownLoad, ShutdownCas);
    MoveOn(s, ShutdownCas, ShutdownPush(0));
    FirstAct(s, Call(ShutdownLoad), [Step(k)] + ([Step(k)] + acts), Standing(s, ShutdownLoad));
    FirstAct(Standing(s, ShutdownLoad), Step(k), [Step(k)] + acts, Standing(s, ShutdownCas));
    FirstAct(Standing(s, ShutdownCas), Step(k), acts, won);
  }

  lemma ShutdownReturns(s: Runtime, k: nat)
    requires Loaded(s, k)
    ensures Told(Run(s, 1, ShutdownActs(k)), k)
  {
    var won := ShutdownWins(s, k, [Step(k)] + ([Step(k)] + []));
    var told := Act(won, 1, Step(k));
    FirstAct(won, Step(k), [Step(k)] + [], told);
    FirstAct(told, Step(k), [], Act(told, 1, Step(k)));
    assert told.callers[k] == ShutdownPush(1);
  }

  lemma ToldJams(k: nat)
    requires k > 0
    ensures Jam(NEW_CORE.(inbox := Tasks(k) + [Shutdown]), Task(k, Forever), k - 1, k)
  {
  }

  /** A run in which `k` spawns return Ok before a shutdown is called, and from which on the core, whatever
      arrives, stops without ever polling the last of these tasks: for instance with `k == 17`. */
  lemma AheadButStranded(k: nat) returns (acts: seq<Action>)
    requires k > 0 && TooLate(0, k - 1, k)
    ensures var s := Run(New(1), 1, acts);
            && Told(s, k)
            && forall arrivals :: k / MESSAGES_PER_TURN < |arrivals| ==>
                 Loop(s.cores[0], arrivals).shutdown && !Ran(Loop(s.cores[0], arrivals), Task(k, Forever))
  {
    acts := ReachLoaded(k);
    var stop := ShutdownActs(k);
    ShutdownReturns(Run(New(1), 1, acts), k);
    RunAppend(New(1), 1, acts, stop);
    acts := acts + stop;
    var c := NEW_CORE.(inbox := Tasks(k) + [Shutdown]);
    ToldJams(k);
    forall arrivals | k / MESSAGES_PER_TURN < |arrivals|
      ensures Loop(c, arrivals).shutdown && !Ran(Loop(c, arrivals), Task(k, Forever))
    {
      StopsWithin(c, k, arrivals);
      JamStrands(c, Task(k, Forever), k - 1, k, arrivals);
    }
  }

  /** Seventeen spawns are the fewest for which this happens. */
  lemma SeventeenStrand(k: nat)
    requires k > 0
    ensures TooLate(0, k - 1, k) ==> k >= 17
    ensures TooLate(0, 16, 17)
  {
  }

  /** What the core of a runtime with one core is after an action on it. */
  lemma ReadsTask(s: Runtime, t: Task)
    requires Sized(s, 1) && s.cores[0] == NEW_CORE.(inbox := [TaskMsg(t)])
    ensures Act(s, 1, Receive(0)).cores[0] == NEW_CORE.(queue := [t], count := 1)
  {
  }

  lemma ReadsCancel(s: Runtime, t: Task)
    requires Sized(s, 1) && s.cores[0] == NEW_CORE.(queue := [t], count := 1)
    ensures var c := Act(Act(s, 1, Send(0, CancelTask(t.id))), 1, Receive(0)).cores[0];
            c.queue == [] && c.count == 1 && c.cancelled == [t.id]
  {
    CancelOne(t);
    assert Act(s, 1, Send(0, CancelTask(t.id))).cores[0].inbox == [CancelTask(t.id)];
  }

  lemma CancelOne(t: Task)
    ensures Filter(NotNamed(t.id), [t]) == [] && Ids(Filter(Named(t.id), [t])) == [t.id]
  {
    assert [t][1..] == [];
  }

  lemma ThreeActs(s: Runtime, a: Action, b: Action, c: Action)
    requires Sized(s, 1)
    ensures Run(s, 1, [a] + ([b] + ([c] + []))) == Act(Act(Act(s, 1, a), 1, b), 1, c)
  {
    var s1 := Act(s, 1, a);
    var s2 := Act(s1, 1, b);
    FirstAct(s, a, [b] + ([c] + []), s1);
    FirstAct(s1, b, [c] + [], s2);
    FirstAct(s2, c, [], Act(s2, 1, c));
  }

  /** Cancelling a queued task leaves it counted: one spawn, its message read, the cancellation sent and read. */
  lemma CounterDrifts() returns (acts: seq<Action>)
    ensures var c := Run(New(1), 1, acts).cores[0]; c.queue == [] && c.count == 1 && c.cancelled == [1]
  {
    acts := ReachLoaded(1);
    var s := Run(New(1), 1, acts);
    var rest := [Receive(0)] + ([Send(0, CancelTask(1))] + ([Receive(0)] + []));
    assert Tasks(1) == [TaskMsg(Task(1, Forever))];
    ReadsTask(s, Task(1, Forever));
    ReadsCancel(Act(s, 1, Receive(0)), Task(1, Forever));
    ThreeActs(s, Receive(0), Send(0, CancelTask(1)), Receive(0));
    RunAppend(New(1), 1, acts, rest);
    acts := acts + rest;
  }
}
