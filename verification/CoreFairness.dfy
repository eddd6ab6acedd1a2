/** How long a task waits for its first poll on a core: a bound for every mailbox and every run, and
    a family of mailboxes that attain it. */
module CoreFairness {
  import opened Sequences
  import opened CoreModel

  // ----- Where the task stands -----

  predicate InInbox(c: Core, t: Task, m: nat) {
    m < |c.inbox| && c.inbox[m] == TaskMsg(t) && forall i :: 0 <= i < m ==> !c.inbox[i].Shutdown?
  }

  predicate InQueue(c: Core, t: Task, p: nat) {
    p < |c.queue| && c.queue[p] == t
  }

  /** The task had its first poll, or was cancelled. */
  predicate Ran(c: Core, t: Task) {
    t.id in c.polled || t.id in c.cancelled
  }

  /** That, or the core was told to stop. */
  predicate Settled(c: Core, t: Task) {
    Ran(c, t) || c.shutdown
  }

  // ----- What a batch does to it -----

  lemma {:induction false} FilterShorter(p: Task -> bool, s: seq<Task>)
    ensures |Filter(p, s)| <= |s|
  {
    if s != [] { FilterShorter(p, s[1..]); }
  }

  lemma PopKeepsQueued(c: Core, t: Task, p: nat) returns (q: nat)
    requires c.inbox != [] && InQueue(c, t, p)
    ensures var r := PopMessage(c); q <= p && (t.id in r.cancelled || InQueue(r, t, q))
  {
    q := p;
    if c.inbox[0].CancelTask? {
      var id, a, b := c.inbox[0].id, c.queue[..p], c.queue[p + 1..];
      assert c.queue == a + ([t] + b);
      if id == t.id {
        FilterMember(Named(id), c.queue, t);
        var named := Filter(Named(id), c.queue);
        var i :| 0 <= i < |named| && named[i] == t;
        assert Ids(named)[i] == id;
      } else {
        FilterAppend(NotNamed(id), a, [t] + b);
        FilterCons(NotNamed(id), t, b);
        FilterShorter(NotNamed(id), a);
        q := |Filter(NotNamed(id), a)|;
      }
    }
  }

  lemma {:induction false} BatchKeeps(c: Core, budget: nat)
    ensures var r := ProcessMessages(c, budget);
            c.polled == r.polled && c.cancelled <= r.cancelled && (c.shutdown ==> r.shutdown)
    decreases budget
  {
    if budget > 0 && c.inbox != [] && !c.inbox[0].Shutdown? { BatchKeeps(PopMessage(c), budget - 1); }
  }

  lemma {:induction false} BatchKeepsQueued(c: Core, budget: nat, t: Task, p: nat) returns (q: nat)
    requires InQueue(c, t, p)
    ensures var r := ProcessMessages(c, budget);
            q <= p && (t.id in r.cancelled || InQueue(r, t, q))
    decreases budget
  {
    q := p;
    if budget > 0 && c.inbox != [] {
      var c1 := PopMessage(c);
      q := PopKeepsQueued(c, t, p);
      if t.id in c1.cancelled {
        BatchKeeps(c1, budget - 1);
      } else if !c.inbox[0].Shutdown? {
        q := BatchKeepsQueued(c1, budget - 1, t, q);
      }
    }
  }

  /** A batch that reaches the message puts the task no further back than queue plus messages. */
  lemma {:induction false} BatchReaches(c: Core, budget: nat, t: Task, m: nat) returns (p: nat)
    requires InInbox(c, t, m) && m < budget
    ensures var r := ProcessMessages(c, budget);
            p <= |c.queue| + m && (t.id in r.cancelled || InQueue(r, t, p))
    decreases m
  {
    var c1 := PopMessage(c);
    if m == 0 {
      p := BatchKeepsQueued(c1, budget - 1, t, |c.queue|);
    } else {
      if c.inbox[0].CancelTask? { FilterShorter(NotNamed(c.inbox[0].id), c.queue); }
      p := BatchReaches(c1, budget - 1, t, m - 1);
    }
  }

  /** A batch that does not reach it takes that many messages from in front of it. */
  lemma {:induction false} BatchAdvances(c: Core, budget: nat, t: Task, m: nat)
    requires InInbox(c, t, m) && budget <= m
    ensures var r := ProcessMessages(c, budget);
            InInbox(r, t, m - budget) && |r.queue| <= |c.queue| + budget
    decreases budget
  {
    if budget > 0 {
      if c.inbox[0].CancelTask? { FilterShorter(NotNamed(c.inbox[0].id), c.queue); }
      BatchAdvances(PopMessage(c), budget - 1, t, m - 1);
    }
  }

  /** Polling takes that many tasks from in front of it, or reaches it. */
  lemma {:induction false} PollsAdvance(c: Core, budget: nat, t: Task, p: nat)
    requires InQueue(c, t, p)
    ensures var r := ExecuteTasks(c, budget);
            if p < budget then t.id in r.polled else InQueue(r, t, p - budget)
    decreases budget
  {
    if budget > 0 {
      if p == 0 {
        assert PollOne(c).polled[|c.polled|] == t.id;
        PollsKeep(PollOne(c), budget - 1);
      } else {
        PollsAdvance(PollOne(c), budget - 1, t, p - 1);
      }
    }
  }

  lemma {:induction false} PollsKeep(c: Core, budget: nat)
    ensures var r := ExecuteTasks(c, budget);
            && r.inbox == c.inbox && |r.queue| <= |c.queue|
            && c.polled <= r.polled && r.cancelled == c.cancelled && r.shutdown == c.shutdown
    decreases budget
  {
    if budget > 0 && c.queue != [] { PollsKeep(PollOne(c), budget - 1); }
  }

  // ----- What a turn does to it -----

  lemma TurnKeepsSettled(c: Core, t: Task)
    requires Settled(c, t)
    ensures Settled(Turn(c), t) && (Ran(c, t) ==> Ran(Turn(c), t))
  {
    BatchKeeps(c, MESSAGES_PER_TURN);
    PollsKeep(ProcessMessages(c, MESSAGES_PER_TURN), POLLS_PER_TURN);
  }

  lemma TurnKeepsQueued(c: Core, t: Task, p: nat) returns (q: nat)
    requires InQueue(c, t, p)
    ensures Ran(Turn(c), t) || (q + POLLS_PER_TURN <= p && InQueue(Turn(c), t, q))
  {
    var c1 := ProcessMessages(c, MESSAGES_PER_TURN);
    var p1 := BatchKeepsQueued(c, MESSAGES_PER_TURN, t, p);
    PollsKeep(c1, POLLS_PER_TURN);
    if t.id !in c1.cancelled {
      PollsAdvance(c1, POLLS_PER_TURN, t, p1);
    }
    q := if p1 < POLLS_PER_TURN then 0 else p1 - POLLS_PER_TURN;
  }

  lemma TurnReaches(c: Core, t: Task, m: nat) returns (q: nat)
    requires InInbox(c, t, m) && m < MESSAGES_PER_TURN
    ensures Ran(Turn(c), t) || (q + POLLS_PER_TURN <= |c.queue| + m && InQueue(Turn(c), t, q))
  {
    var c1 := ProcessMessages(c, MESSAGES_PER_TURN);
    var p := BatchReaches(c, MESSAGES_PER_TURN, t, m);
    PollsKeep(c1, POLLS_PER_TURN);
    if t.id !in c1.cancelled {
      PollsAdvance(c1, POLLS_PER_TURN, t, p);
    }
    q := if p < POLLS_PER_TURN then 0 else p - POLLS_PER_TURN;
  }

  lemma TurnAdvances(c: Core, t: Task, m: nat)
    requires InInbox(c, t, m) && MESSAGES_PER_TURN <= m
    ensures InInbox(Turn(c), t, m - MESSAGES_PER_TURN)
    ensures |Turn(c).queue| <= |c.queue| + MESSAGES_PER_TURN
  {
    BatchAdvances(c, MESSAGES_PER_TURN, t, m);
    PollsKeep(ProcessMessages(c, MESSAGES_PER_TURN), POLLS_PER_TURN);
  }

  // ----- The bound -----

  lemma {:induction false} SettledForGood(c: Core, t: Task, arrivals: seq<seq<Message>>)
    requires Settled(c, t)
    ensures Settled(Loop(c, arrivals), t) && (Ran(c, t) ==> Ran(Loop(c, arrivals), t))
    decreases arrivals
  {
    if arrivals != [] && !c.shutdown {
      var c1 := c.(inbox := c.inbox + arrivals[0]);
      TurnKeepsSettled(c1, t);
      SettledForGood(Turn(c1), t, arrivals[1..]);
    }
  }

  lemma {:induction false} QueuedIsServed(c: Core, t: Task, p: nat, arrivals: seq<seq<Message>>)
    requires InQueue(c, t, p) && p / POLLS_PER_TURN < |arrivals|
    ensures Settled(Loop(c, arrivals), t)
    decreases arrivals
  {
    if !c.shutdown {
      var c1 := c.(inbox := c.inbox + arrivals[0]);
      var q := TurnKeepsQueued(c1, t, p);
      if Settled(Turn(c1), t) {
        SettledForGood(Turn(c1), t, arrivals[1..]);
      } else {
        QueuedIsServed(Turn(c1), t, q, arrivals[1..]);
      }
    }
  }

  /** The turns a task may have to wait with `m` messages ahead and `q` tasks queued. */
  function Wait(m: nat, q: nat): (turns: nat) {
    m / 32 + (q + m) / 16 + 1
  }

  /** A turn that does not reach the message leaves a wait shorter by one turn. */
  lemma WaitFar(m: nat, q: nat, later: nat)
    requires m >= MESSAGES_PER_TURN && later <= q + MESSAGES_PER_TURN
    ensures Wait(m - MESSAGES_PER_TURN, later) + 1 <= Wait(m, q)
  {
  }

  lemma WaitNear(m: nat, q: nat, p: nat)
    requires p + POLLS_PER_TURN <= q + m
    ensures p / POLLS_PER_TURN + 1 < Wait(m, q)
  {
  }

  lemma {:induction false} SettledWithin(c: Core, t: Task, m: nat, arrivals: seq<seq<Message>>)
    requires InInbox(c, t, m) && Wait(m, |c.queue|) <= |arrivals|
    ensures Settled(Loop(c, arrivals), t)
    decreases arrivals
  {
    if !c.shutdown {
      var c1 := c.(inbox := c.inbox + arrivals[0]);
      assert InInbox(c1, t, m);
      if m >= MESSAGES_PER_TURN {
        TurnAdvances(c1, t, m);
        WaitFar(m, |c.queue|, |Turn(c1).queue|);
        SettledWithin(Turn(c1), t, m - MESSAGES_PER_TURN, arrivals[1..]);
      } else {
        var q := TurnReaches(c1, t, m);
        if Settled(Turn(c1), t) {
          SettledForGood(Turn(c1), t, arrivals[1..]);
        } else {
          WaitNear(m, |c.queue|, q);
          QueuedIsServed(Turn(c1), t, q, arrivals[1..]);
        }
      }
    }
  }

  /** The core before its logs hold anything of `p` and `k`. */
  function Behind(c: Core, p: seq<TaskId>, k: seq<TaskId>): (r: Core) {
    c.(polled := p + c.polled, cancelled := k + c.cancelled)
  }

  lemma PopBehind(c: Core, p: seq<TaskId>, k: seq<TaskId>)
    requires c.inbox != []
    ensures PopMessage(Behind(c, p, k)) == Behind(PopMessage(c), p, k)
  {
    assert Behind(PopMessage(c), p, k).cancelled == PopMessage(Behind(c, p, k)).cancelled;
  }

  lemma PollBehind(c: Core, p: seq<TaskId>, k: seq<TaskId>)
    requires c.queue != []
    ensures PollOne(Behind(c, p, k)) == Behind(PollOne(c), p, k)
  {
    assert Behind(PollOne(c), p, k).polled == PollOne(Behind(c, p, k)).polled;
  }

  lemma {:induction false} ProcessBehind(c: Core, budget: nat, p: seq<TaskId>, k: seq<TaskId>)
    ensures ProcessMessages(Behind(c, p, k), budget) == Behind(ProcessMessages(c, budget), p, k)
    decreases budget
  {
    if budget > 0 && c.inbox != [] {
      PopBehind(c, p, k);
      ProcessBehind(PopMessage(c), budget - 1, p, k);
    }
  }

  lemma {:induction false} ExecuteBehind(c: Core, budget: nat, p: seq<TaskId>, k: seq<TaskId>)
    ensures ExecuteTasks(Behind(c, p, k), budget) == Behind(ExecuteTasks(c, budget), p, k)
    decreases budget
  {
    if budget > 0 && c.queue != [] {
      PollBehind(c, p, k);
      ExecuteBehind(PollOne(c), budget - 1, p, k);
    }
  }

  lemma TurnBehind(c: Core, p: seq<TaskId>, k: seq<TaskId>)
    ensures Turn(Behind(c, p, k)) == Behind(Turn(c), p, k)
  {
    ProcessBehind(c, MESSAGES_PER_TURN, p, k);
    ExecuteBehind(ProcessMessages(c, MESSAGES_PER_TURN), POLLS_PER_TURN, p, k);
  }

  /** What a core does depends on nothing it has logged. */
  lemma {:induction false} LoopBehind(c: Core, arrivals: seq<seq<Message>>, p: seq<TaskId>, k: seq<TaskId>)
    ensures Loop(Behind(c, p, k), arrivals) == Behind(Loop(c, arrivals), p, k)
    decreases arrivals
  {
    if arrivals != [] && !c.shutdown {
      var c1 := c.(inbox := c.inbox + arrivals[0]);
      TurnBehind(c1, p, k);
      LoopBehind(Turn(c1), arrivals[1..], p, k);
      assert Behind(c1, p, k) == Behind(c, p, k).(inbox := c.inbox + arrivals[0]);
    }
  }

  /** From `a` to `b`, the task was polled or cancelled. */
  predicate RanSince(a: Core, b: Core, t: Task) {
    && a.polled <= b.polled && a.cancelled <= b.cancelled
    && (t.id in b.polled[|a.polled|..] || t.id in b.cancelled[|a.cancelled|..])
  }

  /** That, or the core was told to stop. */
  predicate SettledSince(a: Core, b: Core, t: Task) {
    RanSince(a, b, t) || b.shutdown
  }

  function Unlogged(c: Core): (r: Core) {
    c.(polled := [], cancelled := [])
  }

  /** What is settled on a core without logs is settled since on one with logs. */
  lemma SinceUnlogged(c: Core, t: Task, arrivals: seq<seq<Message>>)
    ensures Loop(c, arrivals).shutdown == Loop(Unlogged(c), arrivals).shutdown
    ensures RanSince(c, Loop(c, arrivals), t) <==> Ran(Loop(Unlogged(c), arrivals), t)
  {
    LoopBehind(Unlogged(c), arrivals, c.polled, c.cancelled);
    assert c == Behind(Unlogged(c), c.polled, c.cancelled);
  }

  /** Within that many turns the task is polled, or cancelled, or the core is told to stop, whatever
      arrives behind it. */
  lemma SettledInTime(c: Core, t: Task, m: nat, arrivals: seq<seq<Message>>)
    requires InInbox(c, t, m) && Wait(m, |c.queue|) <= |arrivals|
    ensures SettledSince(c, Loop(c, arrivals), t)
  {
    SettledWithin(Unlogged(c), t, m, arrivals);
    SinceUnlogged(c, t, arrivals);
  }

  // ----- The bound is attained -----

  /** The tasks behind one another: those queued, then those in the inbox. */
  predicate Crowd(c: Core, t: Task, k: nat) {
    && !c.shutdown && t.id !in c.polled && t.id !in c.cancelled
    && (forall i :: 0 <= i < |c.queue| ==> c.queue[i].life.Forever? && (c.queue[i].id == t.id ==> i == k))
    && (forall i :: 0 <= i < |c.inbox| ==>
          && c.inbox[i].TaskMsg? && c.inbox[i].task.life.Forever?
          && (c.inbox[i].task.id == t.id ==> |c.queue| + i == k))
  }

  lemma {:induction false} CrowdProcess(c: Core, t: Task, k: nat, budget: nat)
    requires Crowd(c, t, k)
    ensures var r, n := ProcessMessages(c, budget), if budget < |c.inbox| then budget else |c.inbox|;
            && Crowd(r, t, k)
            && |r.queue| == |c.queue| + n && |r.inbox| == |c.inbox| - n
    decreases budget
  {
    if budget > 0 && c.inbox != [] { CrowdProcess(PopMessage(c), t, k, budget - 1); }
  }

  lemma {:induction false} CrowdExecute(c: Core, t: Task, k: nat, budget: nat)
    requires Crowd(c, t, k) && (k < |c.queue| ==> budget <= k)
    ensures var r := ExecuteTasks(c, budget);
            && Crowd(r, t, if k < |c.queue| then k - budget else k)
            && |r.queue| == |c.queue| && |r.inbox| == |c.inbox|
    decreases budget
  {
    if budget > 0 && c.queue != [] {
      CrowdExecute(PollOne(c), t, if k < |c.queue| then k - 1 else k, budget - 1);
    }
  }

  lemma CrowdTurn(c: Core, t: Task, k: nat)
    requires Crowd(c, t, k)
    requires var q := if MESSAGES_PER_TURN < |c.inbox| then |c.queue| + MESSAGES_PER_TURN
                      else |c.queue| + |c.inbox|;
             k < q ==> POLLS_PER_TURN <= k
    ensures var n := if MESSAGES_PER_TURN < |c.inbox| then MESSAGES_PER_TURN else |c.inbox|;
            && |Turn(c).queue| == |c.queue| + n && |Turn(c).inbox| == |c.inbox| - n
            && Crowd(Turn(c), t, if k < |c.queue| + n then k - POLLS_PER_TURN else k)
  {
    CrowdProcess(c, t, k, MESSAGES_PER_TURN);
    CrowdExecute(ProcessMessages(c, MESSAGES_PER_TURN), t, k, POLLS_PER_TURN);
  }

  /** A turn before which nothing arrives. */
  lemma QuietTurn(c: Core, turns: nat)
    requires !c.shutdown && turns > 0
    ensures Loop(c, seq(turns, _ => [])) == Loop(Turn(c), seq(turns - 1, _ => []))
  {
    var quiet: seq<seq<Message>> := seq(turns, _ => []);
    assert quiet[1..] == seq(turns - 1, _ => []);
    assert c.(inbox := c.inbox + quiet[0]) == c;
  }

  lemma {:induction false} CrowdQueued(c: Core, t: Task, k: nat, turns: nat)
    requires Crowd(c, t, k) && c.inbox == [] && k < |c.queue| && turns * POLLS_PER_TURN <= k
    ensures !Settled(Loop(c, seq(turns, _ => [])), t)
    decreases turns
  {
    if turns > 0 {
      QuietTurn(c, turns);
      CrowdTurn(c, t, k);
      CrowdQueued(Turn(c), t, k - POLLS_PER_TURN, turns - 1);
    }
  }

  lemma WaitShrinks(m: nat, q: nat)
    requires m >= MESSAGES_PER_TURN
    ensures Wait(m - MESSAGES_PER_TURN, q + MESSAGES_PER_TURN) + 1 == Wait(m, q)
  {
  }

  lemma TurnsFit(m: nat, q: nat, turns: nat)
    requires m < MESSAGES_PER_TURN && turns < Wait(m, q)
    ensures turns * POLLS_PER_TURN <= q + m
  {
  }

  /** A turn that does not reach the last of the crowd. */
  lemma CrowdFar(c: Core, t: Task, m: nat)
    requires |c.inbox| == m + 1 && Crowd(c, t, |c.queue| + m) && m >= MESSAGES_PER_TURN
    ensures var r := Turn(c);
            && |r.queue| == |c.queue| + MESSAGES_PER_TURN && |r.inbox| == m + 1 - MESSAGES_PER_TURN
            && Crowd(r, t, |c.queue| + m)
  {
    CrowdTurn(c, t, |c.queue| + m);
  }

  /** The last of a crowd of queued and arrived tasks is still unpolled one turn short of the
      bound. */
  lemma {:induction false} CrowdWaits(c: Core, t: Task, m: nat, turns: nat)
    requires |c.inbox| == m + 1 && Crowd(c, t, |c.queue| + m) && turns < Wait(m, |c.queue|)
    ensures !Settled(Loop(c, seq(turns, _ => [])), t)
    decreases turns
  {
    if turns > 0 {
      QuietTurn(c, turns);
      if m >= MESSAGES_PER_TURN {
        WaitShrinks(m, |c.queue|);
        CrowdFar(c, t, m);
        CrowdWaits(Turn(c), t, m - MESSAGES_PER_TURN, turns - 1);
      } else {
        CrowdNear(c, t, m, turns);
      }
    }
  }

  /** From the turn on that reaches it, it waits for the polls in front of it. */
  lemma CrowdNear(c: Core, t: Task, m: nat, turns: nat)
    requires |c.inbox| == m + 1 && Crowd(c, t, |c.queue| + m) && m < MESSAGES_PER_TURN
    requires 0 < turns < Wait(m, |c.queue|)
    ensures !Settled(Loop(Turn(c), seq(turns - 1, _ => [])), t)
  {
    TurnsFit(m, |c.queue|, turns);
    CrowdTurn(c, t, |c.queue| + m);
    CrowdQueued(Turn(c), t, |c.queue| + m - POLLS_PER_TURN, turns - 1);
  }

  /** No smaller bound holds, for any number of messages ahead and any queue. */
  lemma BoundIsTight(m: nat, q: nat) returns (c: Core, t: Task)
    ensures InInbox(c, t, m) && |c.queue| == q && !c.shutdown
    ensures !SettledSince(c, Loop(c, seq(Wait(m, q) - 1, _ => [])), t)
  {
    c := NEW_CORE.(queue := seq(q, (i: nat) => Task(i, Forever)),
                  inbox := seq(m + 1, (i: nat) => TaskMsg(Task(q + i, Forever))));
    t := Task(q + m, Forever);
    CrowdWaits(c, t, m, Wait(m, q) - 1);
  }
}
