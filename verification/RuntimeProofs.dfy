/** What every interleaving of callers and cores keeps. */
module RuntimeProofs {
  import opened CoreModel
  import opened Options
  import opened CoreCounts
  import opened CoreHistory
  import opened RuntimeModel

  // ----- The callers -----

  /** At most one caller ever wins; it alone sends shutdowns; every shutdown call that returned
      returned Ok. */
  ghost predicate CallersInv(callers: seq<Caller>, phase: Phase, winner: Option<nat>, sent: nat, n: nat) {
    && !phase.Initializing? && sent <= n
    && (winner.None? <==> phase.Running?) && (winner.None? ==> sent == 0)
    && (forall i :: 0 <= i < |callers| ==>
          && (callers[i].ShutdownReload? ==> !phase.Running?)
          && (callers[i].ShutdownDone? ==> callers[i].ok)
          && (callers[i].ShutdownPush? ==> winner == Some(i)))
    && (winner.Some? ==>
          && winner.value < |callers|
          && (|| callers[winner.value] == ShutdownPush(sent)
              || (callers[winner.value] == ShutdownDone(true) && sent == n)))
  }

  /** The inboxes the winner has reached hold one shutdown each, the others none. */
  ghost predicate TellsEachOnce(pushed: seq<seq<Message>>, sent: nat) {
    forall j :: 0 <= j < |pushed| ==> Shutdowns(pushed[j]) == if j < sent then 1 else 0
  }

  function Holding(c: Caller): (r: Option<TaskId>) {
    match c
    case SpawnTicket(id, _) => Some(id)
    case SpawnPush(_, id, _) => Some(id)
    case _ => None
  }

  /** No two callers hold the same task id, and none holds one that was pushed. */
  ghost predicate HoldersInv(callers: seq<Caller>, nextTask: TaskId, home: map<TaskId, nat>) {
    && (forall i :: 0 <= i < |callers| && Holding(callers[i]).Some? ==>
          Holding(callers[i]).value < nextTask && Holding(callers[i]).value !in home)
    && (forall i, k :: 0 <= i < k < |callers| && Holding(callers[i]).Some? ==>
          Holding(callers[k]) != Holding(callers[i]))
    && (forall id :: id in home ==> id < nextTask)
    && (forall i :: 0 <= i < |callers| && callers[i].SpawnDone? && callers[i].result.Some? ==>
          callers[i].result.value in home)
  }

  /** Each task was pushed once, to its home. */
  ghost predicate PushedOnce(pushed: seq<seq<Message>>, home: map<TaskId, nat>) {
    && (forall id :: id in home ==> home[id] < |pushed|)
    && forall j, id :: 0 <= j < |pushed| ==>
         Sent(pushed[j], id) == if id in home && home[id] == j then 1 else 0
  }

  ghost predicate CoresInv(cores: seq<Core>, pushed: seq<seq<Message>>) {
    |cores| == |pushed| && forall j :: 0 <= j < |cores| ==> CoreInv(cores[j], pushed[j])
  }

  ghost predicate Inv(s: Runtime, n: nat) {
    && Sized(s, n)
    && CallersInv(s.callers, s.phase, s.winner, s.sent, n)
    && TellsEachOnce(s.pushed, s.sent)
    && HoldersInv(s.callers, s.nextTask, s.home)
    && PushedOnce(s.pushed, s.home)
    && CoresInv(s.cores, s.pushed)
  }

  // ----- What a push does -----

  lemma PushKeepsCores(s: Runtime, j: nat, m: Message)
    requires CoresInv(s.cores, s.pushed) && j < |s.cores|
    ensures CoresInv(Push(s, j, m).cores, Push(s, j, m).pushed)
  {
    PushKeepsCore(s.cores[j], s.pushed[j], m);
  }

  lemma PushTells(pushed: seq<seq<Message>>, sent: nat, j: nat, m: Message)
    requires TellsEachOnce(pushed, sent) && j < |pushed| && (m.Shutdown? ==> j == sent)
    ensures TellsEachOnce(pushed[j := pushed[j] + [m]], if m.Shutdown? then sent + 1 else sent)
  {
    ShutdownsAppend(pushed[j], [m]);
  }

  lemma PushOther(pushed: seq<seq<Message>>, home: map<TaskId, nat>, j: nat, m: Message)
    requires PushedOnce(pushed, home) && j < |pushed| && !m.TaskMsg?
    ensures PushedOnce(pushed[j := pushed[j] + [m]], home)
  {
    forall id ensures Sent(pushed[j] + [m], id) == Sent(pushed[j], id) {
      SentAppend(pushed[j], [m], id);
    }
  }

  lemma PushTask(pushed: seq<seq<Message>>, home: map<TaskId, nat>, j: nat, t: Task)
    requires PushedOnce(pushed, home) && j < |pushed| && t.id !in home
    ensures PushedOnce(pushed[j := pushed[j] + [TaskMsg(t)]], home[t.id := j])
  {
    forall id ensures Sent(pushed[j] + [TaskMsg(t)], id)
                   == Sent(pushed[j], id) + if id == t.id then 1 else 0 {
      SentAppend(pushed[j], [TaskMsg(t)], id);
    }
  }

  // ----- Each action keeps the invariant -----

  predicate Quiet(c: Caller) {
    !c.ShutdownReload? && !c.ShutdownPush? && (c.ShutdownDone? ==> c.ok)
  }

  /** A caller other than the winner moves on to a place that needs nothing. */
  lemma PutQuiet(callers: seq<Caller>, i: nat, c: Caller,
                 phase: Phase, winner: Option<nat>, sent: nat, n: nat)
    requires CallersInv(callers, phase, winner, sent, n) && i < |callers| && Quiet(c)
    requires !callers[i].ShutdownPush? && !callers[i].ShutdownDone?
    ensures CallersInv(callers[i := c], phase, winner, sent, n)
  {
  }

  lemma AdvanceKeepsCallers(s: Runtime, n: nat, i: nat)
    requires Sized(s, n) && i < |s.callers| && CallersInv(s.callers, s.phase, s.winner, s.sent, n)
    ensures var r := Advance(s, n, i); CallersInv(r.callers, r.phase, r.winner, r.sent, n)
  {
    var r := Advance(s, n, i);
    match s.callers[i]
    case ShutdownCas =>
    case ShutdownPush(_) =>
    case ShutdownDone(_) =>
    case _ => PutQuiet(s.callers, i, r.callers[i], s.phase, s.winner, s.sent, n);
  }

  /** A caller that keeps the id it holds, or holds none any more. */
  lemma PutKeepsHolders(callers: seq<Caller>, i: nat, c: Caller, nextTask: TaskId, home: map<TaskId, nat>)
    requires HoldersInv(callers, nextTask, home) && i < |callers|
    requires Holding(c).None? || Holding(c) == Holding(callers[i])
    requires c.SpawnDone? && c.result.Some? ==> c.result.value in home
    ensures HoldersInv(callers[i := c], nextTask, home)
  {
  }

  lemma TakeKeepsHolders(callers: seq<Caller>, i: nat, c: Caller, nextTask: TaskId, home: map<TaskId, nat>)
    requires HoldersInv(callers, nextTask, home) && i < |callers| && Holding(c) == Some(nextTask)
    ensures HoldersInv(callers[i := c], nextTask + 1, home)
  {
  }

  lemma GiveKeepsHolders(callers: seq<Caller>, i: nat, j: nat, nextTask: TaskId, home: map<TaskId, nat>)
    requires HoldersInv(callers, nextTask, home) && i < |callers| && Holding(callers[i]).Some?
    ensures var id := Holding(callers[i]);
            HoldersInv(callers[i := SpawnDone(id)], nextTask, home[id.value := j])
  {
  }

  lemma AdvanceKeepsHolders(s: Runtime, n: nat, i: nat)
    requires Sized(s, n) && i < |s.callers| && HoldersInv(s.callers, s.nextTask, s.home)
    ensures var r := Advance(s, n, i); HoldersInv(r.callers, r.nextTask, r.home)
  {
    var r := Advance(s, n, i);
    match s.callers[i]
    case SpawnId(_, _) => TakeKeepsHolders(s.callers, i, r.callers[i], s.nextTask, s.home);
    case SpawnPush(core, _, _) =>
      if core < n { GiveKeepsHolders(s.callers, i, core, s.nextTask, s.home); }
    case SpawnDone(_) =>
    case _ => PutKeepsHolders(s.callers, i, r.callers[i], s.nextTask, s.home);
  }

  lemma AdvanceKeepsPushed(s: Runtime, n: nat, i: nat)
    requires Inv(s, n) && i < |s.callers|
    ensures var r := Advance(s, n, i);
            && TellsEachOnce(r.pushed, r.sent) && PushedOnce(r.pushed, r.home)
            && CoresInv(r.cores, r.pushed)
  {
    match s.callers[i]
    case ShutdownPush(k) => if k < n { StopKeepsPushed(s, n, k); }
    case SpawnPush(core, id, life) =>
      if core < n {
        assert Holding(s.callers[i]) == Some(id);
        TaskKeepsPushed(s, n, core, Task(id, life));
      }
    case _ =>
  }

  lemma StopKeepsPushed(s: Runtime, n: nat, k: nat)
    requires Inv(s, n) && k < n && k == s.sent
    ensures var r := Push(s, k, Shutdown);
            TellsEachOnce(r.pushed, k + 1) && PushedOnce(r.pushed, s.home) && CoresInv(r.cores, r.pushed)
  {
    PushKeepsCores(s, k, Shutdown);
    PushTells(s.pushed, s.sent, k, Shutdown);
    PushOther(s.pushed, s.home, k, Shutdown);
  }

  lemma TaskKeepsPushed(s: Runtime, n: nat, j: nat, t: Task)
    requires Inv(s, n) && j < n && t.id !in s.home
    ensures var r := Push(s, j, TaskMsg(t));
            TellsEachOnce(r.pushed, s.sent) && PushedOnce(r.pushed, s.home[t.id := j]) && CoresInv(r.cores, r.pushed)
  {
    PushKeepsCores(s, j, TaskMsg(t));
    PushTells(s.pushed, s.sent, j, TaskMsg(t));
    PushTask(s.pushed, s.home, j, t);
  }

  lemma CoreActKeeps(s: Runtime, n: nat, a: Action)
    requires Sized(s, n) && CoresInv(s.cores, s.pushed) && (a.Receive? || a.Poll?)
    ensures CoresInv(Act(s, n, a).cores, s.pushed)
  {
    if a.core < n {
      var c := s.cores[a.core];
      if a.Receive? && !c.shutdown && c.inbox != [] {
        PopKeepsCore(c, s.pushed[a.core]);
      } else if a.Poll? && c.queue != [] {
        PollKeepsCore(c, s.pushed[a.core]);
      }
    }
  }

  lemma SendKeeps(s: Runtime, n: nat, j: nat, m: Message)
    requires Inv(s, n) && j < n && (m.Ping? || m.CancelTask?)
    ensures Inv(Push(s, j, m), n)
  {
    PushKeepsCores(s, j, m);
    PushTells(s.pushed, s.sent, j, m);
    PushOther(s.pushed, s.home, j, m);
  }

  /** Every core can have stopped only if somebody won, so `join` never runs ahead of `shutdown`. */
  lemma JoinKeeps(s: Runtime, n: nat)
    requires Inv(s, n) && forall j :: 0 <= j < n ==> s.cores[j].shutdown
    ensures Inv(s.(phase := Terminated), n)
  {
    var c, p := s.cores[0], s.pushed[0];
    assert CoreInv(c, p);
    ShutdownsAppend(Popped(c, p), c.inbox);
    assert s.sent > 0;
  }

  lemma CallKeeps(s: Runtime, n: nat, c: Caller)
    requires Inv(s, n) && (c.ShutdownLoad? || c.SpawnLoad?)
    ensures Inv(s.(callers := s.callers + [c]), n)
  {
  }

  lemma StepKeeps(s: Runtime, n: nat, i: nat)
    requires Inv(s, n) && i < |s.callers|
    ensures Inv(Advance(s, n, i), n)
  {
    AdvanceKeepsCallers(s, n, i);
    AdvanceKeepsHolders(s, n, i);
    AdvanceKeepsPushed(s, n, i);
  }

  lemma ActKeeps(s: Runtime, n: nat, a: Action)
    requires Inv(s, n)
    ensures Inv(Act(s, n, a), n)
  {
    match a
    case Call(c) => if c.ShutdownLoad? || c.SpawnLoad? { CallKeeps(s, n, c); }
    case Step(i) => if i < |s.callers| { StepKeeps(s, n, i); }
    case Receive(_) => CoreActKeeps(s, n, a);
    case Poll(_) => CoreActKeeps(s, n, a);
    case Send(j, m) => if j < n && (m.Ping? || m.CancelTask?) { SendKeeps(s, n, j, m); }
    case Join => if forall j :: 0 <= j < n ==> s.cores[j].shutdown { JoinKeeps(s, n); }
  }

  lemma {:induction false} RunKeeps(s: Runtime, n: nat, acts: seq<Action>)
    requires Inv(s, n)
    ensures Inv(Run(s, n, acts), n)
    decreases acts
  {
    if acts != [] {
      ActKeeps(s, n, acts[0]);
      RunKeeps(Act(s, n, acts[0]), n, acts[1..]);
    }
  }

  lemma FreshInboxes(n: nat, pushed: seq<seq<Message>>)
    requires |pushed| == n && forall j :: 0 <= j < n ==> pushed[j] == []
    ensures TellsEachOnce(pushed, 0) && PushedOnce(pushed, map[])
  {
  }

  lemma NewInv(n: nat)
    requires n > 0
    ensures Inv(New(n), n)
  {
    FreshCore();
    FreshInboxes(n, New(n).pushed);
  }

  /** In every state any interleaving can reach. */
  lemma Reachable(n: nat, acts: seq<Action>)
    requires n > 0
    ensures Inv(Run(New(n), n, acts), n)
  {
    NewInv(n);
    RunKeeps(New(n), n, acts);
  }
}
