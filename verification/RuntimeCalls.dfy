/** What a call returns, and what becomes of the task it spawns: every call returns within a bounded number of
    its own steps, whatever the other threads do, and a task runs as long as it was given. */
module RuntimeCalls {
  import opened CoreModel
  import opened Options
  import opened CoreCounts
  import opened CoreHistory
  import opened RuntimeModel
  import opened RuntimeProofs
  import opened RuntimeTheorems
  import RuntimeTickets

  /** How many of its own steps caller `i` takes. */
  function StepsOf(acts: seq<Action>, i: nat): (k: nat) {
    if acts == [] then 0 else (if acts[0] == Step(i) then 1 else 0) + StepsOf(acts[1..], i)
  }

  // ----- Every call returns -----

  /** How many steps a call has before it at most. */
  function StepsLeft(c: Caller, n: nat): (k: nat) {
    match c
    case ShutdownLoad => n + 3
    case ShutdownCas => n + 2
    case ShutdownReload => 1
    case ShutdownPush(k) => if k < n then n - k + 1 else 1
    case SpawnLoad(_, _) => 4
    case SpawnId(_, _) => 3
    case SpawnTicket(_, _) => 2
    case SpawnPush(_, _, _) => 1
    case _ => 0
  }

  /** The call can go on: a spawn is on its way to one of the cores. */
  predicate OnItsWay(c: Caller, n: nat) {
    match c
    case SpawnId(on, _) => on.Some? ==> on.value < n
    case SpawnPush(core, _, _) => core < n
    case _ => true
  }

  lemma CallGoesOn(s: Runtime, n: nat, i: nat)
    requires Sized(s, n) && i < |s.callers| && OnItsWay(s.callers[i], n)
    ensures var c, d := s.callers[i], Advance(s, n, i).callers[i];
            && OnItsWay(d, n) && StepsLeft(d, n) <= (if StepsLeft(c, n) == 0 then 0 else StepsLeft(c, n) - 1)
            && (c.SpawnDone? || c.ShutdownDone? ==> d == c)
  {
  }

  /** Whatever the interleaving, a call has fewer steps before it after each of its own. */
  lemma {:induction false} CallReturns(s: Runtime, n: nat, acts: seq<Action>, i: nat)
    requires Sized(s, n) && i < |s.callers| && OnItsWay(s.callers[i], n)
    ensures var r := Run(s, n, acts);
            && i < |r.callers|
            && (StepsOf(acts, i) >= StepsLeft(s.callers[i], n) ==> StepsLeft(r.callers[i], n) == 0)
            && (s.callers[i].SpawnDone? || s.callers[i].ShutdownDone? ==> r.callers[i] == s.callers[i])
    decreases acts
  {
    if acts != [] {
      var s1 := Act(s, n, acts[0]);
      if acts[0] == Step(i) { CallGoesOn(s, n, i); } else { OthersStay(s, n, acts[0], i); }
      CallReturns(s1, n, acts[1..], i);
    }
  }

  predicate IsShutdown(c: Caller) {
    c.ShutdownLoad? || c.ShutdownCas? || c.ShutdownReload? || c.ShutdownPush? || c.ShutdownDone?
  }

  lemma {:induction false} KindStays(s: Runtime, n: nat, acts: seq<Action>, i: nat)
    requires Sized(s, n) && i < |s.callers| && IsShutdown(s.callers[i])
    ensures var r := Run(s, n, acts); i < |r.callers| && IsShutdown(r.callers[i])
    decreases acts
  {
    if acts != [] {
      if acts[0] != Step(i) { OthersStay(s, n, acts[0], i); }
      KindStays(Act(s, n, acts[0]), n, acts[1..], i);
    }
  }

  /** A `shutdown` call returns Ok within as many of its own steps as there are cores, and three more. */
  lemma ShutdownReturns(n: nat, acts: seq<Action>, more: seq<Action>, i: nat)
    requires n > 0 && i < |Run(New(n), n, acts).callers| && Run(New(n), n, acts).callers[i].ShutdownLoad?
    requires StepsOf(more, i) >= n + 3
    ensures var r := Run(Run(New(n), n, acts), n, more); i < |r.callers| && r.callers[i] == ShutdownDone(true)
  {
    var s := Run(New(n), n, acts);
    CallReturns(s, n, more, i);
    Reachable(n, acts);
    RunKeeps(s, n, more);
    KindStays(s, n, more, i);
  }

  // ----- What a spawn returns -----

  /** The spawn was accepted: it has an id for its task, or will take one. */
  predicate Granted(c: Caller) {
    c.SpawnId? || c.SpawnTicket? || c.SpawnPush? || (c.SpawnDone? && c.result.Some?)
  }

  lemma {:induction false} GrantStays(s: Runtime, n: nat, acts: seq<Action>, i: nat)
    requires Sized(s, n) && i < |s.callers| && Granted(s.callers[i])
    ensures var r := Run(s, n, acts); i < |r.callers| && Granted(r.callers[i])
    decreases acts
  {
    if acts != [] {
      if acts[0] != Step(i) { OthersStay(s, n, acts[0], i); }
      GrantStays(Act(s, n, acts[0]), n, acts[1..], i);
    }
  }

  /** Once it has read the state, a spawn returns within three more of its own steps, in every interleaving;
      and it returns Ok if and only if the runtime was running then and the core it asks for, if any, exists. */
  lemma SpawnOkIff(s: Runtime, n: nat, acts: seq<Action>, i: nat)
    requires Sized(s, n) && i < |s.callers| && s.callers[i].SpawnLoad? && StepsOf(acts, i) >= 3
    ensures var on, r := s.callers[i].on, Run(Act(s, n, Step(i)), n, acts);
            && i < |r.callers| && r.callers[i].SpawnDone?
            && (r.callers[i].result.Some? <==> s.phase.Running? && (on.Some? ==> on.value < n))
  {
    var s1 := Act(s, n, Step(i));
    CallReturns(s1, n, acts, i);
    if Granted(s1.callers[i]) { GrantStays(s1, n, acts, i); }
  }

  // ----- How long a spawned task runs -----

  /** Caller `i` spawns, or has spawned, a task with this life. */
  ghost predicate Gives(s: Runtime, i: nat, life: Life) {
    i < |s.callers| &&
    match s.callers[i]
    case SpawnLoad(_, l) => l == life
    case SpawnId(_, l) => l == life
    case SpawnTicket(_, l) => l == life
    case SpawnPush(_, _, l) => l == life
    case SpawnDone(None) => true
    case SpawnDone(Some(id)) => Landed(s, Task(id, life))
    case _ => false
  }

  /** The task was pushed to its core as it is. */
  ghost predicate Landed(s: Runtime, t: Task) {
    t.id in s.home && s.home[t.id] < |s.pushed| && TaskMsg(t) in s.pushed[s.home[t.id]]
  }

  lemma LandedStays(s: Runtime, n: nat, a: Action, t: Task)
    requires Inv(s, n) && Landed(s, t)
    ensures Landed(Act(s, n, a), t)
  {
    hide Act;
    RuntimeTickets.HomeStays(s, n, a, t.id);
    CoreSees(s, n, a, s.home[t.id]);
  }

  lemma GivesStep(s: Runtime, n: nat, a: Action, i: nat, life: Life)
    requires Inv(s, n) && Gives(s, i, life)
    ensures Gives(Act(s, n, a), i, life)
  {
    var c := s.callers[i];
    if c.SpawnDone? && c.result.Some? { LandedStays(s, n, a, Task(c.result.value, life)); }
    if a != Step(i) { OthersStay(s, n, a, i); }
  }

  lemma {:induction false} GivesStays(s: Runtime, n: nat, acts: seq<Action>, i: nat, life: Life)
    requires Inv(s, n) && Gives(s, i, life)
    ensures Gives(Run(s, n, acts), i, life) && Inv(Run(s, n, acts), n)
    decreases acts
  {
    if acts != [] {
      ActKeeps(s, n, acts[0]);
      GivesStep(s, n, acts[0], i, life);
      GivesStays(Act(s, n, acts[0]), n, acts[1..], i, life);
    }
  }

  /** From any reachable state, in every interleaving: a task whose spawn returned Ok is finished on its core
      if and only if it has been polled once more than the life it was spawned with answers Pending; while it
      is queued it has been polled fewer times, and one that answers Pending for ever never finishes. */
  lemma SpawnedRunsItsLife(n: nat, acts: seq<Action>, more: seq<Action>, i: nat, on: Option<nat>, life: Life)
    requires n > 0 && i < |Run(New(n), n, acts).callers| && Run(New(n), n, acts).callers[i] == SpawnLoad(on, life)
    requires var r := Run(Run(New(n), n, acts), n, more);
             i < |r.callers| && r.callers[i].SpawnDone? && r.callers[i].result.Some?
    ensures var r := Run(Run(New(n), n, acts), n, more);
            var id := r.callers[i].result.value;
            && id in r.home && r.home[id] < n
            && var c := r.cores[r.home[id]];
               var polls := Logged(c.polled, id);
               && (id in c.completed <==> life.Ends? && polls == life.polls + 1)
               && (forall x :: x in c.queue && x.id == id && life.Ends? ==> polls <= life.polls)
  {
    var s := Run(New(n), n, acts);
    Reachable(n, acts);
    GivesStays(s, n, more, i, life);
    var r := Run(s, n, more);
    var t := Task(r.callers[i].result.value, life);
    var j := r.home[t.id];
    assert CoreInv(r.cores[j], r.pushed[j]);
    assert r.pushed[j] + [] == r.pushed[j];
    SentOnceKept(r.cores[j], r.pushed[j], [], t);
  }

  // ----- Cancellation and the end -----

  /** A task once pushed is not pushed again, so a core that has lost it never polls it again. */
  lemma AbsentStep(s: Runtime, n: nat, a: Action, j: nat, id: TaskId)
    requires Inv(s, n) && j < n && id in s.home && Absent(s.cores[j], id)
    ensures var r := Act(s, n, a);
            Absent(r.cores[j], id) && Logged(r.cores[j].polled, id) == Logged(s.cores[j].polled, id)
  {
    hide Act;
    var c, p, r := s.cores[j], s.pushed[j], Act(s, n, a);
    CoreSees(s, n, a, j);
    ActKeeps(s, n, a);
    RuntimeTickets.HomeStays(s, n, a, id);
    assert Sent(r.pushed[j], id) == Sent(p, id);
    if m :| r.cores[j] == c.(inbox := c.inbox + [m]) && r.pushed[j] == p + [m] {
      SentAppend(p, [m], id);
      SentAppend(c.inbox, [m], id);
    } else if !c.shutdown && c.inbox != [] && r.cores[j] == PopMessage(c) {
      PopKeepsAbsent(c, id);
    } else if c.queue != [] && r.cores[j] == PollOne(c) {
      PollKeepsAbsent(c, id);
    }
  }

  lemma {:induction false} AbsentStays(s: Runtime, n: nat, acts: seq<Action>, j: nat, id: TaskId)
    requires Inv(s, n) && j < n && id in s.home && Absent(s.cores[j], id)
    ensures Logged(Run(s, n, acts).cores[j].polled, id) == Logged(s.cores[j].polled, id)
    decreases acts
  {
    if acts != [] {
      ActKeeps(s, n, acts[0]);
      RuntimeTickets.HomeStays(s, n, acts[0], id);
      AbsentStep(s, n, acts[0], j, id);
      AbsentStays(Act(s, n, acts[0]), n, acts[1..], j, id);
    }
  }

  /** Over every interleaving, when a core handles the cancellation of a task that was pushed and does not lie
      behind it in the inbox, the core never polls that task again. */
  lemma CancelledNeverPolled(n: nat, acts: seq<Action>, more: seq<Action>, j: nat, id: TaskId)
    requires n > 0 && j < n && id in Run(New(n), n, acts).home
    requires var c := Run(New(n), n, acts).cores[j];
             !c.shutdown && c.inbox != [] && c.inbox[0] == CancelTask(id) && Sent(c.inbox, id) == 0
    ensures var s := Run(New(n), n, acts);
            Logged(Run(Act(s, n, Receive(j)), n, more).cores[j].polled, id) == Logged(s.cores[j].polled, id)
  {
    var s := Run(New(n), n, acts);
    Reachable(n, acts);
    ActKeeps(s, n, Receive(j));
    CancelRemoves(s.cores[j], id);
    AbsentStays(Act(s, n, Receive(j)), n, more, j, id);
  }

  predicate AllStopped(s: Runtime) {
    forall j :: 0 <= j < |s.cores| ==> s.cores[j].shutdown
  }

  lemma StoppedStays(s: Runtime, n: nat, a: Action)
    requires Inv(s, n) && AllStopped(s)
    ensures AllStopped(Act(s, n, a))
  {
    forall j | 0 <= j < n ensures Act(s, n, a).cores[j].shutdown { StoppedStep(s, n, a, j); }
  }

  lemma TerminatedStep(s: Runtime, n: nat, a: Action)
    requires Inv(s, n)
    ensures Act(s, n, a).phase.Terminated? <==> s.phase.Terminated? || (a.Join? && AllStopped(s))
  {
  }

  lemma {:induction false} TerminatedFrom(s: Runtime, n: nat, acts: seq<Action>)
    requires Inv(s, n) && (s.phase.Terminated? ==> AllStopped(s))
    ensures var r := Run(s, n, acts); r.phase.Terminated? ==> AllStopped(r)
    decreases acts
  {
    if acts != [] {
      ActKeeps(s, n, acts[0]);
      TerminatedStep(s, n, acts[0]);
      if AllStopped(s) { StoppedStays(s, n, acts[0]); }
      TerminatedFrom(Act(s, n, acts[0]), n, acts[1..]);
    }
  }

  /** Over every interleaving, once the runtime is terminated every core has stopped and read the one shutdown
      it was sent, and `join` terminates it as soon as all have. */
  lemma TerminatedMeansStopped(n: nat, acts: seq<Action>)
    requires n > 0
    ensures var s := Run(New(n), n, acts);
            && (s.phase.Terminated? ==>
                  AllStopped(s) && forall j :: 0 <= j < n ==> Shutdowns(Popped(s.cores[j], s.pushed[j])) == 1)
            && (AllStopped(s) ==> Act(s, n, Join).phase.Terminated?)
  {
    NewInv(n);
    TerminatedFrom(New(n), n, acts);
    Reachable(n, acts);
    var s := Run(New(n), n, acts);
    TerminatedStep(s, n, Join);
    if s.phase.Terminated? {
      forall j | 0 <= j < n ensures Shutdowns(Popped(s.cores[j], s.pushed[j])) == 1 {
        assert CoreInv(s.cores[j], s.pushed[j]);
      }
    }
  }
}
