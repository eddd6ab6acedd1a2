/** When a task runs before its core stops: a core makes at most 16 polls in the turn that reads the
    shutdown, and none afterwards, so that being ahead of the shutdown is not enough. */
module CoreStop {
  import opened Sequences
  import opened CoreModel
  import opened CoreFairness

  // ----- The messages of a run -----

  function Flat(arrivals: seq<seq<Message>>): (r: seq<Message>) {
    if arrivals == [] then [] else arrivals[0] + Flat(arrivals[1..])
  }

  /** All messages, read or not, in the order in which they are read. */
  function Stream(c: Core, arrivals: seq<seq<Message>>): (r: seq<Message>) {
    c.inbox + Flat(arrivals)
  }

  /** The first shutdown among `ms` is number `b`. */
  predicate FirstStop(ms: seq<Message>, b: nat) {
    b < |ms| && ms[b].Shutdown? && forall i :: 0 <= i < b ==> !ms[i].Shutdown?
  }

  function Batch(c: Core): (n: nat) {
    if |c.inbox| < MESSAGES_PER_TURN then |c.inbox| else MESSAGES_PER_TURN
  }

  lemma {:induction false} BatchTakes(c: Core, budget: nat, n: nat)
    requires n == (if |c.inbox| < budget then |c.inbox| else budget)
    requires forall i :: 0 <= i < n ==> !c.inbox[i].Shutdown?
    ensures ProcessMessages(c, budget).inbox == c.inbox[n..] && ProcessMessages(c, budget).shutdown == c.shutdown
    decreases budget
  {
    if budget > 0 && c.inbox != [] {
      BatchTakes(PopMessage(c), budget - 1, n - 1);
    }
  }

  /** What arrives before a turn. */
  function Joined(c: Core, arrivals: seq<seq<Message>>): (r: Core)
    requires arrivals != []
  {
    c.(inbox := c.inbox + arrivals[0])
  }

  lemma JoinedStream(c: Core, arrivals: seq<seq<Message>>)
    requires arrivals != []
    ensures Stream(c, arrivals) == Stream(Joined(c, arrivals), arrivals[1..])
  {
    Associate(c.inbox, arrivals[0], Flat(arrivals[1..]));
  }

  lemma StopShift(inbox: seq<Message>, rest: seq<Message>, n: nat, b: nat)
    requires n <= |inbox| && n <= b && FirstStop(inbox + rest, b)
    ensures forall i :: 0 <= i < n ==> !inbox[i].Shutdown?
    ensures FirstStop(inbox[n..] + rest, b - n)
  {
    assert forall i :: 0 <= i < n ==> inbox[i] == (inbox + rest)[i];
    assert inbox[n..] + rest == (inbox + rest)[n..];
  }

  lemma TurnTakes(c: Core)
    requires forall i :: 0 <= i < Batch(c) ==> !c.inbox[i].Shutdown?
    ensures Turn(c).shutdown == c.shutdown && Turn(c).inbox == c.inbox[Batch(c)..]
  {
    BatchTakes(c, MESSAGES_PER_TURN, Batch(c));
    PollsKeep(ProcessMessages(c, MESSAGES_PER_TURN), POLLS_PER_TURN);
  }

  /** A turn that does not reach the shutdown brings it nearer by what it reads. */
  lemma StopNearer(c: Core, arrivals: seq<seq<Message>>, b: nat)
    requires arrivals != [] && FirstStop(Stream(c, arrivals), b) && Batch(Joined(c, arrivals)) <= b
    ensures var c1, n := Joined(c, arrivals), Batch(Joined(c, arrivals));
            && Turn(c1).shutdown == c.shutdown && Turn(c1).inbox == c1.inbox[n..]
            && FirstStop(Stream(Turn(c1), arrivals[1..]), b - n)
  {
    var c1, n := Joined(c, arrivals), Batch(Joined(c, arrivals));
    JoinedStream(c, arrivals);
    StopShift(c1.inbox, Flat(arrivals[1..]), n, b);
    TurnTakes(c1);
  }

  // ----- Enough turns before the stop -----

  /** A turn makes 16 polls and reads 32 messages at most. */
  lemma StillInTime(p: nat, q: nat, b: nat, n: nat)
    requires p / POLLS_PER_TURN <= b / MESSAGES_PER_TURN && q + POLLS_PER_TURN <= p && n <= MESSAGES_PER_TURN
    ensures n <= b && q / POLLS_PER_TURN <= (b - n) / MESSAGES_PER_TURN
  {
  }

  /** A task at `p` in the queue, with the shutdown at `b`, runs before the core stops. */
  lemma {:induction false} QueuedRuns(c: Core, t: Task, p: nat, b: nat, arrivals: seq<seq<Message>>)
    requires InQueue(c, t, p) && !c.shutdown && FirstStop(Stream(c, arrivals), b)
    requires p / POLLS_PER_TURN <= b / MESSAGES_PER_TURN && Loop(c, arrivals).shutdown
    ensures Ran(Loop(c, arrivals), t)
    decreases arrivals
  {
    var c1 := Joined(c, arrivals);
    var q := TurnKeepsQueued(c1, t, p);
    if Ran(Turn(c1), t) {
      SettledForGood(Turn(c1), t, arrivals[1..]);
    } else {
      StillInTime(p, q, b, Batch(c1));
      StopNearer(c, arrivals, b);
      QueuedRuns(Turn(c1), t, q, b - Batch(c1), arrivals[1..]);
    }
  }

  /** The turn that reads the message of the task. */
  lemma ReadRuns(c: Core, t: Task, m: nat, b: nat, arrivals: seq<seq<Message>>)
    requires arrivals != [] && !c.shutdown && InInbox(Joined(c, arrivals), t, m) && m < MESSAGES_PER_TURN
    requires FirstStop(Stream(c, arrivals), b) && (|c.queue| + m) / POLLS_PER_TURN <= b / MESSAGES_PER_TURN
    requires Loop(c, arrivals).shutdown
    ensures Ran(Loop(c, arrivals), t)
  {
    var c1 := Joined(c, arrivals);
    var q := TurnReaches(c1, t, m);
    if Ran(Turn(c1), t) {
      SettledForGood(Turn(c1), t, arrivals[1..]);
    } else {
      StillInTime(|c.queue| + m, q, b, Batch(c1));
      StopNearer(c, arrivals, b);
      QueuedRuns(Turn(c1), t, q, b - Batch(c1), arrivals[1..]);
    }
  }

  /** The queue grows by no more than what a turn reads. */
  lemma {:induction false} BatchGrows(c: Core, budget: nat)
    ensures |ProcessMessages(c, budget).queue| <= |c.queue| + if |c.inbox| < budget then |c.inbox| else budget
    decreases budget
  {
    if budget > 0 && c.inbox != [] {
      if c.inbox[0].CancelTask? { FilterShorter(NotNamed(c.inbox[0].id), c.queue); }
      if !c.inbox[0].Shutdown? { BatchGrows(PopMessage(c), budget - 1); }
    }
  }

  lemma TurnGrows(c: Core)
    ensures |Turn(c).queue| <= |c.queue| + Batch(c)
  {
    BatchGrows(c, MESSAGES_PER_TURN);
    PollsKeep(ProcessMessages(c, MESSAGES_PER_TURN), POLLS_PER_TURN);
  }

  /** With the message in the inbox: it is read after m/32 full turns. */
  lemma {:induction false} InboxRuns(c: Core, t: Task, m: nat, b: nat, arrivals: seq<seq<Message>>)
    requires InInbox(c, t, m) && !c.shutdown && FirstStop(Stream(c, arrivals), b) && m < b
    requires Wait(m, |c.queue|) <= b / MESSAGES_PER_TURN + 1 && Loop(c, arrivals).shutdown
    ensures Ran(Loop(c, arrivals), t)
    decreases arrivals
  {
    var c1 := Joined(c, arrivals);
    assert InInbox(c1, t, m);
    if m >= MESSAGES_PER_TURN {
      TurnAdvances(c1, t, m);
      StopNearer(c, arrivals, b);
      WaitFar(m, |c.queue|, |Turn(c1).queue|);
      InboxRuns(Turn(c1), t, m - MESSAGES_PER_TURN, b - MESSAGES_PER_TURN, arrivals[1..]);
    } else {
      ReadRuns(c, t, m, b, arrivals);
    }
  }

  lemma InStream(c: Core, rest: seq<Message>, t: Task, m: nat, b: nat)
    requires FirstStop(c.inbox + rest, b) && m < b && (c.inbox + rest)[m] == TaskMsg(t) && m < |c.inbox|
    ensures InInbox(c, t, m)
  {
    assert forall i :: 0 <= i <= m ==> c.inbox[i] == (c.inbox + rest)[i];
  }

  lemma StreamShift(inbox: seq<Message>, rest: seq<Message>, n: nat, m: nat)
    requires n <= |inbox| && n <= m < |inbox + rest|
    ensures m - n < |inbox[n..] + rest| && (inbox[n..] + rest)[m - n] == (inbox + rest)[m]
  {
  }

  /** The task of message `m` of the stream is in time for the shutdown in message `b`. */
  predicate InTime(c: Core, t: Task, m: nat, b: nat, arrivals: seq<seq<Message>>) {
    && FirstStop(Stream(c, arrivals), b) && m < b && Stream(c, arrivals)[m] == TaskMsg(t)
    && (|c.queue| + m) / POLLS_PER_TURN <= (b - m) / MESSAGES_PER_TURN
  }

  lemma LaterInTime(p: nat, q: nat, d: nat)
    requires q <= p && p / POLLS_PER_TURN <= d / MESSAGES_PER_TURN
    ensures q / POLLS_PER_TURN <= d / MESSAGES_PER_TURN
  {
  }

  /** It stays in time in a turn that does not read its message. */
  lemma StreamNext(c: Core, t: Task, m: nat, b: nat, arrivals: seq<seq<Message>>)
    requires arrivals != [] && InTime(c, t, m, b, arrivals) && Batch(Joined(c, arrivals)) <= m
    ensures var c1, n := Joined(c, arrivals), Batch(Joined(c, arrivals));
            Turn(c1).shutdown == c.shutdown && InTime(Turn(c1), t, m - n, b - n, arrivals[1..])
  {
    var c1, n, rest := Joined(c, arrivals), Batch(Joined(c, arrivals)), Flat(arrivals[1..]);
    JoinedStream(c, arrivals);
    StopNearer(c, arrivals, b);
    StreamShift(c1.inbox, rest, n, m);
    TurnGrows(c1);
    LaterInTime(|c.queue| + m, |Turn(c1).queue| + (m - n), b - m);
  }

  /** With the message anywhere in the stream, here or still to come. */
  lemma {:induction false} StreamRuns(c: Core, t: Task, m: nat, b: nat, arrivals: seq<seq<Message>>)
    requires !c.shutdown && InTime(c, t, m, b, arrivals) && Loop(c, arrivals).shutdown
    ensures Ran(Loop(c, arrivals), t)
    decreases arrivals
  {
    var c1, n := Joined(c, arrivals), Batch(Joined(c, arrivals));
    if m < n {
      JoinedStream(c, arrivals);
      InStream(c1, Flat(arrivals[1..]), t, m, b);
      ReadRuns(c, t, m, b, arrivals);
    } else {
      StreamNext(c, t, m, b, arrivals);
      StreamRuns(Turn(c1), t, m - n, b - n, arrivals[1..]);
    }
  }

  // ----- Fairness -----

  /** Every shutdown among `ms` is read in turn number `turns` or later. */
  predicate StopsLate(ms: seq<Message>, turns: nat) {
    forall i :: 0 <= i < |ms| && ms[i].Shutdown? ==> turns <= i / MESSAGES_PER_TURN + 1
  }

  /** Without a shutdown among its messages a core does not stop. */
  lemma {:induction false} NeverStops(c: Core, arrivals: seq<seq<Message>>)
    requires !c.shutdown && forall m :: m in Stream(c, arrivals) ==> !m.Shutdown?
    ensures !Loop(c, arrivals).shutdown
    decreases arrivals
  {
    if arrivals != [] {
      var c1 := Joined(c, arrivals);
      JoinedStream(c, arrivals);
      assert forall m :: m in c1.inbox ==> m in Stream(c, arrivals);
      TurnTakes(c1);
      assert forall m :: m in Stream(Turn(c1), arrivals[1..]) ==> m in Stream(c, arrivals);
      NeverStops(Turn(c1), arrivals[1..]);
    }
  }

  lemma {:induction false} FindStop(ms: seq<Message>) returns (b: nat)
    requires exists m :: m in ms && m.Shutdown?
    ensures FirstStop(ms, b)
  {
    if ms[0].Shutdown? {
      b := 0;
    } else {
      assert ms == [ms[0]] + ms[1..];
      b := FindStop(ms[1..]);
      b := b + 1;
    }
  }

  /** Bounded fairness: within its wait the task is polled, or cancelled, or the core stops, whatever arrives
      behind it; and the core does not stop first unless a shutdown is among the messages it reads in
      fewer turns. */
  lemma ServedWithin(c: Core, t: Task, m: nat, arrivals: seq<seq<Message>>)
    requires InInbox(c, t, m) && Wait(m, |c.queue|) <= |arrivals|
    ensures SettledSince(c, Loop(c, arrivals), t)
    ensures !c.shutdown && StopsLate(Stream(c, arrivals), Wait(m, |c.queue|)) ==> RanSince(c, Loop(c, arrivals), t)
  {
    SettledInTime(c, t, m, arrivals);
    if !c.shutdown && StopsLate(Stream(c, arrivals), Wait(m, |c.queue|)) && Loop(c, arrivals).shutdown {
      var c0 := Unlogged(c);
      SinceUnlogged(c, t, arrivals);
      if forall x :: x in Stream(c0, arrivals) ==> !x.Shutdown? {
        NeverStops(c0, arrivals);
      } else {
        var b := FindStop(Stream(c0, arrivals));
        AheadOfStop(c0, t, m, b, arrivals);
        InboxRuns(c0, t, m, b, arrivals);
      }
    }
  }

  lemma AheadOfStop(c: Core, t: Task, m: nat, b: nat, arrivals: seq<seq<Message>>)
    requires InInbox(c, t, m) && FirstStop(Stream(c, arrivals), b)
    ensures m < b
  {
    assert forall i :: 0 <= i <= m ==> Stream(c, arrivals)[i] == c.inbox[i];
  }

  // ----- Not enough turns before the stop -----

  /** A jam up to the shutdown at `b`: endless tasks in the queue and in the inbox, `t` at `k` counted
      through both, nothing but tasks in front of it, and no cancellation. */
  predicate Jam(c: Core, t: Task, k: nat, b: nat) {
    && t.id !in c.polled && t.id !in c.cancelled && FirstStop(c.inbox, b)
    && (forall i :: 0 <= i < |c.queue| ==> Endless(c.queue[i], t, i == k))
    && (forall i :: 0 <= i < b ==>
          || (c.inbox[i].TaskMsg? && Endless(c.inbox[i].task, t, |c.queue| + i == k))
          || (c.inbox[i].Ping? && |c.queue| + i > k))
  }

  predicate Endless(x: Task, t: Task, here: bool) {
    x.life.Forever? && (x.id == t.id ==> here)
  }

  lemma JamPop(c: Core, t: Task, k: nat, b: nat)
    requires Jam(c, t, k, b) && b > 0
    ensures Jam(PopMessage(c), t, k, b - 1)
    ensures |PopMessage(c).queue| == |c.queue| + if c.inbox[0].TaskMsg? then 1 else 0
  {
  }

  /** A batch that ends before the shutdown. */
  lemma {:induction false} JamProcess(c: Core, t: Task, k: nat, b: nat, budget: nat)
    requires Jam(c, t, k, b) && budget <= b
    ensures var r := ProcessMessages(c, budget);
            && Jam(r, t, k, b - budget) && r.shutdown == c.shutdown && |c.queue| <= |r.queue| <= |c.queue| + budget
            && (|c.queue| + budget <= k ==> |r.queue| == |c.queue| + budget)
            && (k < |c.queue| + budget ==> k < |r.queue|)
    decreases budget
  {
    if budget > 0 {
      JamPop(c, t, k, b);
      JamProcess(PopMessage(c), t, k, b - 1, budget - 1);
    }
  }

  /** What polling leaves of a jam: it does not look at the inbox. */
  predicate Rotating(c: Core, t: Task, k: nat) {
    && t.id !in c.polled && t.id !in c.cancelled
    && (forall i :: 0 <= i < |c.queue| ==> Endless(c.queue[i], t, i == k))
  }

  lemma {:induction false} RotatingPolls(c: Core, t: Task, k: nat, budget: nat)
    requires Rotating(c, t, k) && (k < |c.queue| ==> budget <= k)
    ensures var r := ExecuteTasks(c, budget);
            && Rotating(r, t, if k < |c.queue| then k - budget else k) && |r.queue| == |c.queue|
            && r.inbox == c.inbox && r.shutdown == c.shutdown
    decreases budget
  {
    if budget > 0 && c.queue != [] {
      var next := if k < |c.queue| then k - 1 else k;
      assert Rotating(PollOne(c), t, next);
      RotatingPolls(PollOne(c), t, next, budget - 1);
    }
  }

  /** The batch that reads the shutdown. */
  lemma {:induction false} JamStop(c: Core, t: Task, k: nat, b: nat, budget: nat)
    requires Jam(c, t, k, b) && b < budget
    ensures var r := ProcessMessages(c, budget); r.shutdown && Rotating(r, t, k)
    decreases budget
  {
    if b > 0 {
      JamPop(c, t, k, b);
      JamStop(PopMessage(c), t, k, b - 1, budget - 1);
    }
  }

  /** The shutdown comes before the turn in which `t` would be polled. */
  predicate TooLate(q: nat, k: nat, b: nat) {
    (if k < q then 0 else (k - q) / MESSAGES_PER_TURN) + k / POLLS_PER_TURN > b / MESSAGES_PER_TURN
  }

  lemma LastTurn(c: Core, t: Task, k: nat, b: nat)
    requires Jam(c, t, k, b) && k < |c.queue| + b && TooLate(|c.queue|, k, b) && b < MESSAGES_PER_TURN
    ensures Turn(c).shutdown && !Ran(Turn(c), t)
  {
    JamStop(c, t, k, b, MESSAGES_PER_TURN);
    RotatingPolls(ProcessMessages(c, MESSAGES_PER_TURN), t, k, POLLS_PER_TURN);
  }

  lemma TooLateStill(q: nat, later: nat, k: nat, b: nat)
    requires TooLate(q, k, b) && b >= MESSAGES_PER_TURN && q <= later
    requires q + MESSAGES_PER_TURN <= k ==> later == q + MESSAGES_PER_TURN
    requires k < q + MESSAGES_PER_TURN ==> k < later
    ensures k < later ==> k >= POLLS_PER_TURN && TooLate(later, k - POLLS_PER_TURN, b - MESSAGES_PER_TURN)
    ensures k >= later ==> TooLate(later, k, b - MESSAGES_PER_TURN)
  {
  }

  /** A turn before the last. */
  lemma JamTurn(c: Core, t: Task, k: nat, b: nat) returns (next: nat)
    requires Jam(c, t, k, b) && k < |c.queue| + b && TooLate(|c.queue|, k, b) && b >= MESSAGES_PER_TURN
    ensures var r := Turn(c);
            && r.shutdown == c.shutdown && Jam(r, t, next, b - MESSAGES_PER_TURN)
            && next < |r.queue| + (b - MESSAGES_PER_TURN) && TooLate(|r.queue|, next, b - MESSAGES_PER_TURN)
  {
    JamProcess(c, t, k, b, MESSAGES_PER_TURN);
    var r := ProcessMessages(c, MESSAGES_PER_TURN);
    TooLateStill(|c.queue|, |r.queue|, k, b);
    RotatingPolls(r, t, k, POLLS_PER_TURN);
    next := if k < |r.queue| then k - POLLS_PER_TURN else k;
  }

  /** In such a jam the task is not polled before the core stops, whatever arrives. */
  lemma {:induction false} JamStrands(c: Core, t: Task, k: nat, b: nat, arrivals: seq<seq<Message>>)
    requires Jam(c, t, k, b) && k < |c.queue| + b && TooLate(|c.queue|, k, b)
    ensures !Ran(Loop(c, arrivals), t)
    decreases arrivals
  {
    if arrivals != [] && !c.shutdown {
      var c1 := Joined(c, arrivals);
      assert Jam(c1, t, k, b);
      if b < MESSAGES_PER_TURN {
        LastTurn(c1, t, k, b);
      } else {
        var next := JamTurn(c1, t, k, b);
        JamStrands(Turn(c1), t, next, b - MESSAGES_PER_TURN, arrivals[1..]);
      }
    }
  }

  // ----- The exact condition, from any state -----

  /** A task at `m` in the inbox and `q` tasks in the queue, the first shutdown at `b`. */
  predicate Placed(c: Core, t: Task, m: nat, q: nat, b: nat) {
    InInbox(c, t, m) && |c.queue| == q && !c.shutdown && FirstStop(c.inbox, b)
  }

  /** Every such core polls or cancels the task, whatever arrives. */
  ghost predicate AlwaysRuns(m: nat, q: nat, b: nat) {
    forall c, t, arrivals :: Placed(c, t, m, q, b) && Wait(m, q) <= |arrivals| ==> RanSince(c, Loop(c, arrivals), t)
  }

  lemma PlacedRuns(c: Core, t: Task, m: nat, q: nat, b: nat, arrivals: seq<seq<Message>>)
    requires Placed(c, t, m, q, b) && m < b && Wait(m, q) <= b / MESSAGES_PER_TURN + 1 && Wait(m, q) <= |arrivals|
    ensures RanSince(c, Loop(c, arrivals), t)
  {
    var c0 := Unlogged(c);
    SinceUnlogged(c, t, arrivals);
    SettledWithin(c0, t, m, arrivals);
    if Loop(c0, arrivals).shutdown {
      assert FirstStop(Stream(c0, arrivals), b);
      InboxRuns(c0, t, m, b, arrivals);
    }
  }

  function JamAt(m: nat, q: nat, b: nat): (c: Core)
    requires m < b
  {
    NEW_CORE.(queue := seq(q, (i: nat) => Task(i, Forever)),
              inbox := seq(m + 1, (i: nat) => TaskMsg(Task(q + i, Forever)))
                       + seq(b - m - 1, _ => Ping(0)) + [Shutdown])
  }

  lemma JamAtIs(m: nat, q: nat, b: nat)
    requires m < b
    ensures var c, t := JamAt(m, q, b), Task(q + m, Forever);
            Placed(c, t, m, q, b) && Jam(c, t, q + m, b)
  {
  }

  /** From any state: with m messages ahead, q tasks queued and the first shutdown at b, the task is certain
      to run if and only if its wait is no longer than the turns up to the one that reads the shutdown. */
  lemma RunsBeforeStopIff(m: nat, q: nat, b: nat)
    requires m < b
    ensures AlwaysRuns(m, q, b) <==> Wait(m, q) <= b / 32 + 1
  {
    if Wait(m, q) <= b / MESSAGES_PER_TURN + 1 {
      forall c, t, arrivals | Placed(c, t, m, q, b) && Wait(m, q) <= |arrivals|
        ensures RanSince(c, Loop(c, arrivals), t)
      {
        PlacedRuns(c, t, m, q, b, arrivals);
      }
    } else {
      var c, t, quiet := JamAt(m, q, b), Task(q + m, Forever), seq(Wait(m, q), _ => []);
      JamAtIs(m, q, b);
      JamStrands(c, t, q + m, b, quiet);
      SinceUnlogged(c, t, quiet);
      assert Unlogged(c) == c;
    }
  }

  // ----- The exact condition, over whole runs -----

  lemma {:induction false} BatchStops(c: Core, budget: nat, b: nat)
    requires FirstStop(c.inbox, b) && b < budget
    ensures ProcessMessages(c, budget).shutdown
    decreases budget
  {
    if b > 0 {
      BatchStops(PopMessage(c), budget - 1, b - 1);
    }
  }

  /** The shutdown is read in turn number b/32. */
  lemma {:induction false} StopsWithin(c: Core, b: nat, arrivals: seq<seq<Message>>)
    requires FirstStop(c.inbox, b) && b / MESSAGES_PER_TURN < |arrivals|
    ensures Loop(c, arrivals).shutdown
    decreases arrivals
  {
    if !c.shutdown {
      var c1 := Joined(c, arrivals);
      if b < MESSAGES_PER_TURN {
        BatchStops(c1, MESSAGES_PER_TURN, b);
        PollsKeep(ProcessMessages(c1, MESSAGES_PER_TURN), POLLS_PER_TURN);
      } else {
        TurnTakes(c1);
        StopsWithin(Turn(c1), b - MESSAGES_PER_TURN, arrivals[1..]);
      }
    }
  }

  lemma {:induction false} LoopAppend(c: Core, x: seq<seq<Message>>, y: seq<seq<Message>>)
    ensures Loop(c, x + y) == Loop(Loop(c, x), y)
    decreases x
  {
    if x == [] {
      assert x + y == y;
    } else if !c.shutdown {
      LoopAppend(Turn(Joined(c, x)), x[1..], y);
      assert (x + y)[1..] == x[1..] + y;
    }
  }

  lemma {:induction false} FlatAppend(x: seq<seq<Message>>, y: seq<seq<Message>>)
    ensures Flat(x + y) == Flat(x) + Flat(y)
  {
    if x == [] {
      assert x + y == y;
    } else {
      FlatAppend(x[1..], y);
      assert (x + y)[1..] == x[1..] + y;
      Associate(x[0], Flat(x[1..]), Flat(y));
    }
  }

  /** Endless tasks numbered from `k` on, one per turn. */
  function Singles(k: nat, n: nat): (r: seq<seq<Message>>)
    requires k <= n
    decreases n - k
  {
    if k == n then [] else [[TaskMsg(Task(k, Forever))]] + Singles(k + 1, n)
  }

  lemma {:induction false} FlatSingles(k: nat, n: nat)
    requires k <= n
    ensures |Flat(Singles(k, n))| == n - k && forall m :: m in Flat(Singles(k, n)) ==> m.TaskMsg?
    decreases n - k
  {
    if k < n {
      FlatSingles(k + 1, n);
      assert Singles(k, n)[1..] == Singles(k + 1, n);
    }
  }

  /** A core that has read `n` of them and nothing else. */
  predicate Filled(c: Core, n: nat) {
    && c.inbox == [] && |c.queue| == n && !c.shutdown && c.cancelled == []
    && (forall x :: x in c.queue ==> x.life.Forever? && x.id < n) && (forall id :: id in c.polled ==> id < n)
  }

  /** Polling keeps the queue, apart from its order. */
  predicate Cycling(c: Core, n: nat) {
    (forall x :: x in c.queue ==> x.life.Forever? && x.id < n) && (forall id :: id in c.polled ==> id < n)
  }

  lemma {:induction false} CyclingPolls(c: Core, n: nat, budget: nat)
    requires Cycling(c, n)
    ensures var r := ExecuteTasks(c, budget); Cycling(r, n) && |r.queue| == |c.queue|
    decreases budget
  {
    if budget > 0 && c.queue != [] {
      CyclingPolls(PollOne(c), n, budget - 1);
    }
  }

  lemma FillTurn(c: Core, n: nat)
    requires Filled(c, n)
    ensures Filled(Turn(c.(inbox := [TaskMsg(Task(n, Forever))])), n + 1)
  {
    var c1 := c.(inbox := [TaskMsg(Task(n, Forever))]);
    var c2 := PopMessage(c1);
    assert c2.inbox == [] && ProcessMessages(c1, MESSAGES_PER_TURN) == ProcessMessages(c2, MESSAGES_PER_TURN - 1) == c2;
    assert Cycling(c2, n + 1);
    CyclingPolls(c2, n + 1, POLLS_PER_TURN);
    PollsKeep(c2, POLLS_PER_TURN);
  }

  lemma {:induction false} Fills(c: Core, k: nat, n: nat)
    requires k <= n && Filled(c, k)
    ensures Filled(Loop(c, Singles(k, n)), n)
    decreases n - k
  {
    if k < n {
      var one := [TaskMsg(Task(k, Forever))];
      FillTurn(c, k);
      Fills(Turn(c.(inbox := one)), k + 1, n);
      assert Singles(k, n)[1..] == Singles(k + 1, n);
      assert c.inbox + one == one;
    }
  }

  /** What arrives after that: `t`, pings, and the shutdown at `d` behind `t`. */
  function Tail(t: Task, d: nat): (r: seq<Message>)
    requires d > 0
  {
    [TaskMsg(t)] + seq(d - 1, _ => Ping(0)) + [Shutdown]
  }

  lemma TailJams(c: Core, n: nat, d: nat)
    requires Filled(c, n) && d > 0
    ensures Jam(c.(inbox := Tail(Task(n, Forever), d)), Task(n, Forever), n, d)
  {
  }

  /** Quiet turns after a block of messages. */
  function Then(block: seq<Message>, turns: nat): (r: seq<seq<Message>>) {
    [block] + seq(turns, _ => [])
  }

  lemma ThenLoop(c: Core, block: seq<Message>, turns: nat)
    requires c.inbox == [] && !c.shutdown
    ensures Loop(c, Then(block, turns)) == Loop(c.(inbox := block), Then([], turns))
  {
    assert Then(block, turns)[1..] == Then([], turns)[1..];
    assert c.inbox + block == block == block + [];
  }

  lemma {:induction false} FlatQuiet(turns: nat)
    ensures Flat(seq(turns, _ => [])) == []
  {
    if turns > 0 {
      var quiet: seq<seq<Message>> := seq(turns, _ => []);
      FlatQuiet(turns - 1);
      assert quiet[1..] == seq(turns - 1, _ => []);
    }
  }

  lemma FlatThen(block: seq<Message>, turns: nat)
    ensures Flat(Then(block, turns)) == block
  {
    FlatQuiet(turns);
    assert Then(block, turns)[1..] == seq(turns, _ => []);
  }

  /** In the run of a new core on which these messages arrive, `t` is message `a` and the first shutdown
      message `b`. */
  predicate Numbered(arrivals: seq<seq<Message>>, t: Task, a: nat, b: nat) {
    FirstStop(Flat(arrivals), b) && a < |Flat(arrivals)| && Flat(arrivals)[a] == TaskMsg(t)
  }

  /** In every run in which the core stops, task `a` was polled or cancelled by then. */
  ghost predicate CertainToRun(a: nat, b: nat) {
    forall arrivals, t :: Numbered(arrivals, t, a, b) && Loop(NEW_CORE, arrivals).shutdown ==>
      Ran(Loop(NEW_CORE, arrivals), t)
  }

  function LateRun(a: nat, b: nat): (arrivals: seq<seq<Message>>)
    requires a < b
  {
    Singles(0, a) + Then(Tail(Task(a, Forever), b - a), (b - a) / MESSAGES_PER_TURN)
  }

  lemma LateRunNumbered(a: nat, b: nat)
    requires a < b
    ensures Numbered(LateRun(a, b), Task(a, Forever), a, b)
  {
    var tail, turns := Tail(Task(a, Forever), b - a), (b - a) / MESSAGES_PER_TURN;
    FlatAppend(Singles(0, a), Then(tail, turns));
    FlatThen(tail, turns);
    FlatSingles(0, a);
    var front := Flat(Singles(0, a));
    assert forall i :: 0 <= i < a ==> (front + tail)[i] == front[i] && front[i] in front;
    assert forall i :: a <= i <= b ==> (front + tail)[i] == tail[i - a];
  }

  lemma LateRunStrands(a: nat, b: nat)
    requires a < b && a / POLLS_PER_TURN > (b - a) / MESSAGES_PER_TURN
    ensures var r := Loop(NEW_CORE, LateRun(a, b)); r.shutdown && !Ran(r, Task(a, Forever))
  {
    var t, d, turns := Task(a, Forever), b - a, (b - a) / MESSAGES_PER_TURN;
    var c := Loop(NEW_CORE, Singles(0, a));
    Fills(NEW_CORE, 0, a);
    LoopAppend(NEW_CORE, Singles(0, a), Then(Tail(t, d), turns));
    ThenLoop(c, Tail(t, d), turns);
    TailJams(c, a, d);
    var jam := c.(inbox := Tail(t, d));
    StopsWithin(jam, d, Then([], turns));
    JamStrands(jam, t, a, d, Then([], turns));
  }

  // ----- A task behind the shutdown -----

  /** A core that has nothing to do before its shutdown. */
  predicate Idle(c: Core, b: nat) {
    && c.queue == [] && c.polled == [] && c.cancelled == []
    && FirstStop(c.inbox, b) && forall i :: 0 <= i < b ==> c.inbox[i].Ping?
  }

  lemma {:induction false} IdleProcess(c: Core, b: nat, budget: nat)
    requires Idle(c, b)
    ensures var r := ProcessMessages(c, budget);
            && r.queue == [] && r.polled == [] && r.cancelled == []
            && if budget <= b then Idle(r, b - budget) && r.shutdown == c.shutdown else r.shutdown
    decreases budget
  {
    if budget > 0 && b > 0 { IdleProcess(PopMessage(c), b - 1, budget - 1); }
  }

  lemma {:induction false} IdlePollsNothing(c: Core, b: nat, arrivals: seq<seq<Message>>)
    requires Idle(c, b)
    ensures Loop(c, arrivals).polled == [] && Loop(c, arrivals).cancelled == []
    decreases arrivals
  {
    if arrivals != [] && !c.shutdown {
      var c1 := Joined(c, arrivals);
      assert Idle(c1, b);
      IdleProcess(c1, b, MESSAGES_PER_TURN);
      if b >= MESSAGES_PER_TURN { IdlePollsNothing(Turn(c1), b - MESSAGES_PER_TURN, arrivals[1..]); }
    }
  }

  /** Pings up to the shutdown, and pings up to the task behind it. */
  function BehindStop(t: Task, a: nat, b: nat): (ms: seq<Message>)
    requires b < a
  {
    seq(b, _ => Ping(0)) + [Shutdown] + seq(a - b - 1, _ => Ping(0)) + [TaskMsg(t)]
  }

  lemma BehindStopStrands(t: Task, a: nat, b: nat)
    requires b < a
    ensures var arrivals := Then(BehindStop(t, a, b), b / MESSAGES_PER_TURN);
            && Numbered(arrivals, t, a, b)
            && Loop(NEW_CORE, arrivals).shutdown && !Ran(Loop(NEW_CORE, arrivals), t)
  {
    var block, turns := BehindStop(t, a, b), b / MESSAGES_PER_TURN;
    var c := NEW_CORE.(inbox := block);
    FlatThen(block, turns);
    ThenLoop(NEW_CORE, block, turns);
    assert Idle(c, b);
    StopsWithin(c, b, Then([], turns));
    IdlePollsNothing(c, b, Then([], turns));
  }

  /** Over all runs of a core, with any tasks and however the messages arrive: the task in message `a` is
      certain to run before the shutdown in message `b` stops the core if and only if it is ahead of it,
      and the queue of `a` tasks is polled through in the turns in which the messages between the two
      are read. */
  lemma CertainToRunIff(a: nat, b: nat)
    requires a != b
    ensures CertainToRun(a, b) <==> a < b && a / 16 <= (b - a) / 32
  {
    if a > b {
      BehindStopStrands(Task(0, Forever), a, b);
    } else if a / POLLS_PER_TURN <= (b - a) / MESSAGES_PER_TURN {
      forall arrivals, t | Numbered(arrivals, t, a, b) && Loop(NEW_CORE, arrivals).shutdown
        ensures Ran(Loop(NEW_CORE, arrivals), t)
      {
        assert Stream(NEW_CORE, arrivals) == Flat(arrivals);
        StreamRuns(NEW_CORE, t, a, b, arrivals);
      }
    } else {
      LateRunNumbered(a, b);
      LateRunStrands(a, b);
    }
  }
}
