/** Main results about the runtime, over every interleaving of callers and cores. */
module RuntimeTheorems {
  import opened CoreModel
  import opened Options
  import opened CoreCounts
  import opened CoreHistory
  import opened RuntimeModel
  import opened RuntimeProofs

  // ----- Shutdown -----

  /** An action in which the compare-and-exchange of `shutdown` succeeds. */
  predicate Winning(s: Runtime, a: Action) {
    a.Step? && a.index < |s.callers| && s.callers[a.index].ShutdownCas? && s.phase.Running?
  }

  /** The runtime stops running in the winning action, and in no other. */
  lemma WinningStops(s: Runtime, n: nat, a: Action)
    requires Inv(s, n)
    ensures Winning(s, a) <==> s.phase.Running? && !Act(s, n, a).phase.Running?
    ensures !s.phase.Running? ==> !Act(s, n, a).phase.Running?
  {
    if a.Join? && forall j :: 0 <= j < n ==> s.cores[j].shutdown { JoinKeeps(s, n); }
  }

  /** How often the compare-and-exchange of `shutdown` succeeds in a run. */
  function Wins(s: Runtime, n: nat, acts: seq<Action>): (k: nat)
    requires Sized(s, n)
    decreases acts
  {
    if acts == [] then 0
    else (if Winning(s, acts[0]) then 1 else 0) + Wins(Act(s, n, acts[0]), n, acts[1..])
  }

  lemma {:induction false} WinsFrom(s: Runtime, n: nat, acts: seq<Action>)
    requires Inv(s, n)
    ensures Wins(s, n, acts) ==
            if s.phase.Running? && !Run(s, n, acts).phase.Running? then 1 else 0
    ensures !s.phase.Running? ==> !Run(s, n, acts).phase.Running?
    decreases acts
  {
    if acts != [] {
      ActKeeps(s, n, acts[0]);
      WinningStops(s, n, acts[0]);
      WinsFrom(Act(s, n, acts[0]), n, acts[1..]);
    }
  }

  /** Exactly one caller wins, and exactly if the runtime has left the running state; the state never
      returns to running; no inbox ever receives two shutdowns; no `shutdown` call fails. */
  lemma ShutdownProtocol(n: nat, acts: seq<Action>, more: seq<Action>)
    requires n > 0
    ensures var s := Run(New(n), n, acts);
            && Wins(New(n), n, acts) == (if s.phase.Running? then 0 else 1)
            && (!s.phase.Running? ==> !Run(s, n, more).phase.Running?)
            && (forall j :: 0 <= j < n ==> Shutdowns(s.pushed[j]) <= 1)
            && (forall i :: 0 <= i < |s.callers| && s.callers[i].ShutdownDone? ==> s.callers[i].ok)
  {
    NewInv(n);
    WinsFrom(New(n), n, acts);
    Reachable(n, acts);
    WinsFrom(Run(New(n), n, acts), n, more);
  }

  /** When the winning call has returned, every inbox has received its shutdown. */
  lemma WinnerTellsAll(n: nat, acts: seq<Action>)
    requires n > 0
    ensures var s := Run(New(n), n, acts);
            s.winner.Some? ==>
              && s.winner.value < |s.callers|
              && (s.callers[s.winner.value].ShutdownDone? ==>
                    forall j :: 0 <= j < n ==> Shutdowns(s.pushed[j]) == 1)
  {
    Reachable(n, acts);
  }

  predicate PushesNothing(c: Caller) {
    c.SpawnLoad? || c == SpawnDone(None)
  }

  lemma OthersStay(s: Runtime, n: nat, a: Action, i: nat)
    requires Sized(s, n) && i < |s.callers| && a != Step(i)
    ensures var r := Act(s, n, a); i < |r.callers| && r.callers[i] == s.callers[i]
  {
    match a
    case Step(k) =>
      if k < |s.callers| { assert Advance(s, n, k).callers[i] == s.callers[i]; }
    case _ =>
  }

  lemma StaysStopped(s: Runtime, n: nat, a: Action)
    requires Inv(s, n) && !s.phase.Running?
    ensures !Act(s, n, a).phase.Running?
  {
    WinningStops(s, n, a);
  }

  /** A spawn that has not read the state when the runtime stops running never pushes. */
  lemma {:induction false} LateSpawnPushesNothing(s: Runtime, n: nat, acts: seq<Action>, i: nat)
    requires Inv(s, n) && !s.phase.Running? && i < |s.callers| && PushesNothing(s.callers[i])
    ensures var r := Run(s, n, acts); i < |r.callers| && PushesNothing(r.callers[i])
    decreases acts
  {
    if acts != [] {
      ActKeeps(s, n, acts[0]);
      StaysStopped(s, n, acts[0]);
      if acts[0] != Step(i) { OthersStay(s, n, acts[0], i); }
      LateSpawnPushesNothing(Act(s, n, acts[0]), n, acts[1..], i);
    }
  }

  // ----- Conservation -----

  /** A task whose spawn returned Ok is at every moment in exactly one place, on one core, and is
      polled only there. */
  lemma AcceptedInOnePlace(n: nat, acts: seq<Action>, i: nat, j: nat)
    requires n > 0 && j < n
    requires var s := Run(New(n), n, acts);
             i < |s.callers| && s.callers[i].SpawnDone? && s.callers[i].result.Some?
    ensures var s := Run(New(n), n, acts);
            var id := s.callers[i].result.value;
            && id in s.home
            && Places(s.cores[j], id) == (if s.home[id] == j then 1 else 0)
            && (id in s.cores[j].polled ==> s.home[id] == j)
  {
    Reachable(n, acts);
    var s := Run(New(n), n, acts);
    var id, c := s.callers[i].result.value, s.cores[j];
    assert CoreInv(c, s.pushed[j]);
    SentAppend(Popped(c, s.pushed[j]), c.inbox, id);
  }

  /** Over every interleaving the counter of a core is the length of its queue plus the number of tasks removed
      by cancellations: it is that length if and only if none was removed, as when no cancellation was ever
      sent to the core. */
  lemma CountIsQueueIff(n: nat, acts: seq<Action>, j: nat)
    requires n > 0 && j < n
    ensures var s := Run(New(n), n, acts);
            var c := s.cores[j];
            && c.count == |c.queue| + |c.cancelled|
            && (c.count == |c.queue| <==> c.cancelled == [])
            && (!Cancels(s.pushed[j]) ==> c.count == |c.queue|)
  {
    Reachable(n, acts);
    var s := Run(New(n), n, acts);
    var c := s.cores[j];
    if c.cancelled != [] {
      var popped := Popped(c, s.pushed[j]);
      var i :| 0 <= i < |popped| && popped[i].CancelTask?;
      assert s.pushed[j][i] == popped[i];
    }
  }

  lemma {:induction false} SentAt(ms: seq<Message>, a: nat)
    requires a < |ms| && ms[a].TaskMsg?
    ensures Sent(ms, ms[a].task.id) > 0
  {
    if a > 0 { SentAt(ms[1..], a - 1); }
  }

  lemma {:induction false} ShutdownsAt(ms: seq<Message>, b: nat)
    requires b < |ms| && ms[b].Shutdown?
    ensures Shutdowns(ms) > 0
  {
    if b > 0 { ShutdownsAt(ms[1..], b - 1); }
  }

  lemma SentOnce(s: Runtime, n: nat, j: nat, id: TaskId)
    requires Inv(s, n) && j < n
    ensures Sent(s.pushed[j], id) <= 1
  {
    assert id in s.home || id !in s.home;
  }

  /** On a core that has seen its shutdown, exactly the tasks pushed ahead of the shutdown reached
      the queue; those behind it are left in the inbox. */
  lemma HandledIffAhead(n: nat, acts: seq<Action>, j: nat, a: nat, b: nat)
    requires n > 0 && j < n
    requires var s := Run(New(n), n, acts);
             && s.cores[j].shutdown && a < |s.pushed[j]| && b < |s.pushed[j]|
             && s.pushed[j][a].TaskMsg? && s.pushed[j][b].Shutdown?
    ensures var s := Run(New(n), n, acts);
            var id := s.pushed[j][a].task.id;
            && Handled(s.cores[j], id) == (if a < b then 1 else 0)
            && Sent(s.cores[j].inbox, id) == (if a < b then 0 else 1)
  {
    Reachable(n, acts);
    var s := Run(New(n), n, acts);
    var c, p, id := s.cores[j], s.pushed[j], s.pushed[j][a].task.id;
    var popped := Popped(c, p);
    assert CoreInv(c, p);
    ShutdownIsLast(popped, c.inbox, b);
    SentAppend(popped, c.inbox, id);
    SentOnce(s, n, j, id);
    if a < |popped| {
      SentAt(popped, a);
    } else {
      SentAt(c.inbox, a - |popped|);
    }
  }

  /** The only shutdown among all messages is the last one taken. */
  lemma ShutdownIsLast(popped: seq<Message>, inbox: seq<Message>, b: nat)
    requires Shutdowns(popped + inbox) <= 1 && popped != [] && popped[|popped| - 1].Shutdown?
    requires b < |popped + inbox| && (popped + inbox)[b].Shutdown?
    ensures b == |popped| - 1
  {
    var k := |popped| - 1;
    var front := popped[..k];
    assert popped + inbox == front + ([Shutdown] + inbox);
    ShutdownsAppend(front, [Shutdown] + inbox);
    ShutdownsAppend([Shutdown], inbox);
    if b < k {
      ShutdownsAt(front, b);
    } else if b > k {
      ShutdownsAt(inbox, b - k - 1);
    }
  }

  /** What one action can do to one core. */
  lemma CoreSees(s: Runtime, n: nat, a: Action, j: nat)
    requires Sized(s, n) && j < n
    ensures var c, p, r := s.cores[j], s.pushed[j], Act(s, n, a);
            || (r.cores[j] == c && r.pushed[j] == p)
            || (exists m :: r.cores[j] == c.(inbox := c.inbox + [m]) && r.pushed[j] == p + [m])
            || (!c.shutdown && c.inbox != [] && r.cores[j] == PopMessage(c) && r.pushed[j] == p)
            || (c.queue != [] && r.cores[j] == PollOne(c) && r.pushed[j] == p)
  {
    match a
    case Step(i) =>
      if i < |s.callers| {
        match s.callers[i]
        case ShutdownPush(k) => assert k == j ==> Push(s, k, Shutdown).pushed[j] == s.pushed[j] + [Shutdown];
        case SpawnPush(core, id, life) =>
          var m := TaskMsg(Task(id, life));
          assert core == j ==> Push(s, core, m).pushed[j] == s.pushed[j] + [m];
        case _ =>
      }
    case _ =>
  }

  lemma StoppedStep(s: Runtime, n: nat, a: Action, j: nat)
    requires Inv(s, n) && j < n && s.cores[j].shutdown
    ensures var r := Act(s, n, a);
            r.cores[j].shutdown && Popped(r.cores[j], r.pushed[j]) == Popped(s.cores[j], s.pushed[j])
  {
    CoreSees(s, n, a, j);
    assert CoreInv(s.cores[j], s.pushed[j]);
  }

  /** Once a core has seen its shutdown it takes no more messages. */
  lemma {:induction false} StoppedTakesNoMore(s: Runtime, n: nat, acts: seq<Action>, j: nat)
    requires Inv(s, n) && j < n && s.cores[j].shutdown
    ensures var r := Run(s, n, acts);
            r.cores[j].shutdown && Popped(r.cores[j], r.pushed[j]) == Popped(s.cores[j], s.pushed[j])
    decreases acts
  {
    if acts != [] {
      ActKeeps(s, n, acts[0]);
      StoppedStep(s, n, acts[0], j);
      StoppedTakesNoMore(Act(s, n, acts[0]), n, acts[1..], j);
    }
  }

  /** So a task stranded behind the shutdown is never polled, although its spawn may have returned
      Ok. */
  lemma StrandedForever(n: nat, acts: seq<Action>, more: seq<Action>, j: nat, a: nat, b: nat)
    requires n > 0 && j < n
    requires var s := Run(New(n), n, acts);
             && s.cores[j].shutdown && b < a < |s.pushed[j]|
             && s.pushed[j][a].TaskMsg? && s.pushed[j][b].Shutdown?
    ensures var s := Run(New(n), n, acts);
            s.pushed[j][a].task.id !in Run(s, n, more).cores[j].polled
  {
    Reachable(n, acts);
    var s := Run(New(n), n, acts);
    HandledIffAhead(n, acts, j, a, b);
    StoppedTakesNoMore(s, n, more, j);
    RunKeeps(s, n, more);
    var r := Run(s, n, more);
    assert CoreInv(s.cores[j], s.pushed[j]) && CoreInv(r.cores[j], r.pushed[j]);
  }

  lemma {:induction false} RunLast(s: Runtime, n: nat, acts: seq<Action>, a: Action)
    requires Sized(s, n)
    ensures Run(s, n, acts + [a]) == Act(Run(s, n, acts), n, a)
    decreases acts
  {
    if acts == [] {
      assert [a][1..] == [];
    } else {
      RunLast(Act(s, n, acts[0]), n, acts[1..], a);
      assert (acts + [a])[1..] == acts[1..] + [a];
    }
  }

  /** One more action at the end of a run. */
  lemma Then(s0: Runtime, acts: seq<Action>, a: Action, s: Runtime)
    requires Sized(s0, 1) && s == Act(Run(s0, 1, acts), 1, a)
    ensures Run(s0, 1, acts + [a]) == s
  {
    RunLast(s0, 1, acts, a);
  }

  /** A runtime with one core, one caller that has read the state and holds a task for core 0. */
  function Halfway(life: Life): (s: Runtime) {
    New(1).(callers := [SpawnPush(0, 1, life)], nextTask := 2, nextCore := 1)
  }

  lemma ReachHalfway(life: Life) returns (acts: seq<Action>)
    ensures Run(New(1), 1, acts) == Halfway(life)
  {
    var s := New(1);
    acts := [Call(SpawnLoad(None, life))];
    Then(s, [], acts[0], s.(callers := [SpawnLoad(None, life)]));
    Then(s, acts, Step(0), s.(callers := [SpawnId(None, life)]));
    acts := acts + [Step(0)];
    Then(s, acts, Step(0), s.(callers := [SpawnTicket(1, life)], nextTask := 2));
    acts := acts + [Step(0)];
    Then(s, acts, Step(0), Halfway(life));
    acts := acts + [Step(0)];
  }

  /** Then a shutdown call wins, and its message is in the inbox. */
  function Told(life: Life): (s: Runtime) {
    var won := Halfway(life).(callers := [SpawnPush(0, 1, life), ShutdownPush(0)],
                              phase := ShuttingDown, winner := Some(1), sent := 0);
    Put(Push(won, 0, Shutdown), 1, ShutdownPush(1)).(sent := 1)
  }

  lemma ToldIs(life: Life)
    ensures Told(life).pushed == [[Shutdown]] && Told(life).cores == [NEW_CORE.(inbox := [Shutdown])]
  {
    assert New(1).pushed == [[]] && New(1).cores == [NEW_CORE];
    assert [] + [Shutdown] == [Shutdown];
  }

  lemma ReachTold(life: Life) returns (acts: seq<Action>)
    ensures Run(New(1), 1, acts) == Told(life)
  {
    acts := ReachHalfway(life);
    var s0, s, p := New(1), Halfway(life), SpawnPush(0, 1, life);
    s := s.(callers := [p, ShutdownLoad]);
    Then(s0, acts, Call(ShutdownLoad), s);
    acts := acts + [Call(ShutdownLoad)];
    s := s.(callers := [p, ShutdownCas]);
    Then(s0, acts, Step(1), s);
    acts := acts + [Step(1)];
    s := s.(callers := [p, ShutdownPush(0)], phase := ShuttingDown, winner := Some(1), sent := 0);
    Then(s0, acts, Step(1), s);
    acts := acts + [Step(1)];
    Then(s0, acts, Step(1), Told(life));
    acts := acts + [Step(1)];
  }

  /** A run in which that happens: the spawn reads the state, then the shutdown wins and sends its
      message, then the spawn pushes its task and returns Ok. */
  lemma SpawnOkButStranded(life: Life) returns (acts: seq<Action>)
    ensures var s := Run(New(1), 1, acts);
            && |s.callers| == 2 && s.callers[0] == SpawnDone(Some(1))
            && s.cores[0].shutdown && s.pushed[0] == [Shutdown, TaskMsg(Task(1, life))]
            && s.cores[0].queue == [] && s.cores[0].polled == []
  {
    acts := ReachTold(life);
    var s0, s, m := New(1), Told(life), TaskMsg(Task(1, life));
    ToldIs(life);
    s := Put(Push(s, 0, m), 0, SpawnDone(Some(1))).(home := map[1 := 0]);
    Then(s0, acts, Step(0), s);
    acts := acts + [Step(0)];
    Then(s0, acts, Receive(0), Act(s, 1, Receive(0)));
    acts := acts + [Receive(0)];
  }
}
