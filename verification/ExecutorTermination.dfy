/** Exactly when `run` returns: a condition on the tasks and the queue before the call. */
module ExecutorTermination {
  import opened Measures
  import opened ExecutorModel
  import opened ExecutorProofs

  // ----- Counting wakes -----

  function Count(id: TaskId, ids: seq<TaskId>): (k: nat) {
    if ids == [] then 0 else (if ids[0] == id then 1 else 0) + Count(id, ids[1..])
  }

  lemma {:induction false} CountAppend(id: TaskId, a: seq<TaskId>, b: seq<TaskId>)
    ensures Count(id, a + b) == Count(id, a) + Count(id, b)
  {
    if a == [] {
      assert a + b == b;
    } else {
      CountAppend(id, a[1..], b);
      assert (a + b)[1..] == a[1..] + b;
    }
  }

  /** How many polls a task takes to its end. */
  function Life(t: Task): (n: nat)
    ensures n > 0
    decreases |t.polls|
  {
    if t.polls == [] || !t.Next().outcome.Pending? then 1 else 1 + Life(t.Rest())
  }

  /** How often the first `n` polls of a task wake `id`. */
  function Sent(t: Task, n: nat, id: TaskId): (k: nat)
    decreases n
  {
    if n == 0 then 0 else Count(id, t.Next().wakes) + Sent(t.Rest(), n - 1, id)
  }

  function SentBy(id: TaskId): ((Task, nat)) -> nat {
    (p: (Task, nat)) => Sent(p.0, p.1, id)
  }

  function Pairs(tasks: map<TaskId, Task>, k: map<TaskId, nat>): (r: map<TaskId, (Task, nat)>)
    requires k.Keys == tasks.Keys
  {
    map j | j in tasks :: (tasks[j], k[j])
  }

  /** How often `id` is queued in all, if every task `j` is polled `k[j]` times. */
  ghost function Wakes(s: Exec, k: map<TaskId, nat>, id: TaskId): (n: nat)
    requires k.Keys == s.tasks.Keys
  {
    Count(id, s.ready) + Total(Pairs(s.tasks, k), SentBy(id))
  }

  predicate Unended(s: Exec, k: map<TaskId, nat>, j: TaskId) {
    j in k && j in s.tasks && k[j] < Life(s.tasks[j])
  }

  /** The tasks can come to rest after `k[j]` polls of each task `j`: some has not ended by then, and no
      such task has been queued more often than it was polled. */
  ghost predicate RestsAt(s: Exec, k: map<TaskId, nat>) {
    && k.Keys == s.tasks.Keys
    && (forall j :: j in k ==> k[j] <= Life(s.tasks[j]))
    && (exists j :: Unended(s, k, j))
    && (forall j :: Unended(s, k, j) ==> Wakes(s, k, j) <= k[j])
  }

  /** They can come to rest too early. */
  ghost predicate CanStall(s: Exec) {
    exists k :: RestsAt(s, k)
  }

  // ----- One turn -----

  /** The polls still to come after a turn. */
  function AfterPop(s: Exec, k: map<TaskId, nat>): (r: map<TaskId, nat>)
    requires s.ready != [] && k.Keys == s.tasks.Keys && (s.ready[0] in k ==> k[s.ready[0]] > 0)
    ensures r.Keys == Pop(s).tasks.Keys
  {
    var id := s.ready[0];
    if id !in s.tasks then k
    else if s.tasks[id].Next().outcome.Pending? then k[id := k[id] - 1]
    else k - {id}
  }

  /** What one poll of the front task adds to the queue, it no longer owes. */
  lemma SentStep(s: Exec, k: map<TaskId, nat>, id: TaskId)
    requires s.ready != [] && s.ready[0] in s.tasks && k.Keys == s.tasks.Keys
    requires var j := s.ready[0]; 0 < k[j] <= Life(s.tasks[j])
    ensures Total(Pairs(s.tasks, k), SentBy(id))
         == Total(Pairs(Pop(s).tasks, AfterPop(s, k)), SentBy(id)) + Count(id, s.tasks[s.ready[0]].Next().wakes)
  {
    var j := s.ready[0];
    var t, m, after := s.tasks[j], Pairs(s.tasks, k), Pairs(Pop(s).tasks, AfterPop(s, k));
    TotalRemove(m, SentBy(id), j);
    if t.Next().outcome.Pending? {
      assert after == m[j := (t.Rest(), k[j] - 1)];
      TotalUpdate(m, SentBy(id), j, (t.Rest(), k[j] - 1));
    } else {
      assert after == m - {j};
      assert k[j] == 1 && Sent(t, 1, id) == Count(id, t.Next().wakes) + Sent(t.Rest(), 0, id);
    }
  }

  lemma QueueStep(s: Exec, id: TaskId)
    requires s.ready != []
    ensures Count(id, Pop(s).ready) + (if id == s.ready[0] then 1 else 0)
         == Count(id, s.ready) + if s.ready[0] in s.tasks then Count(id, s.tasks[s.ready[0]].Next().wakes) else 0
  {
    var j := s.ready[0];
    if j in s.tasks { CountAppend(id, s.ready[1..], s.tasks[j].Next().wakes); }
  }

  /** So a turn changes nothing in the sum, except that the front id has been taken. */
  lemma WakesStep(s: Exec, k: map<TaskId, nat>, id: TaskId)
    requires s.ready != [] && k.Keys == s.tasks.Keys
    requires s.ready[0] in k ==> 0 < k[s.ready[0]] <= Life(s.tasks[s.ready[0]])
    ensures Wakes(s, k, id) == Wakes(Pop(s), AfterPop(s, k), id) + if id == s.ready[0] then 1 else 0
  {
    QueueStep(s, id);
    if s.ready[0] in s.tasks { SentStep(s, k, id); }
  }

  lemma LifeStep(s: Exec, k: map<TaskId, nat>, x: TaskId)
    requires s.ready != [] && k.Keys == s.tasks.Keys && (s.ready[0] in k ==> k[s.ready[0]] > 0)
    ensures var r, after, j := Pop(s), AfterPop(s, k), s.ready[0];
            && (x in after && x != j ==> x in k && after[x] == k[x] && r.tasks[x] == s.tasks[x])
            && (x in after && x == j ==> x in k && after[x] == k[x] - 1 && Life(r.tasks[x]) == Life(s.tasks[x]) - 1)
            && (x in k && x !in after ==> x == j && Life(s.tasks[x]) == 1)
  {
  }

  /** A task at the front of the queue is polled at least once before the rest. */
  lemma FrontIsPolled(s: Exec, k: map<TaskId, nat>)
    requires RestsAt(s, k) && s.ready != [] && s.ready[0] in k
    ensures k[s.ready[0]] > 0
  {
    assert Wakes(s, k, s.ready[0]) >= Count(s.ready[0], s.ready) >= 1;
  }

  /** Task by task, a turn does not change whether the tasks can rest after these polls. */
  lemma RestOf(s: Exec, k: map<TaskId, nat>, x: TaskId)
    requires s.ready != [] && k.Keys == s.tasks.Keys
    requires s.ready[0] in k ==> 0 < k[s.ready[0]] <= Life(s.tasks[s.ready[0]])
    ensures var r, after := Pop(s), AfterPop(s, k);
            && (Unended(s, k, x) <==> Unended(r, after, x))
            && (Unended(s, k, x) ==> (Wakes(s, k, x) <= k[x] <==> Wakes(r, after, x) <= after[x]))
            && ((x in k ==> k[x] <= Life(s.tasks[x])) <==> (x in after ==> after[x] <= Life(r.tasks[x])))
  {
    LifeStep(s, k, x);
    WakesStep(s, k, x);
  }

  /** The same place of rest, seen from before and from after a turn. */
  lemma RestStep(s: Exec, k: map<TaskId, nat>)
    requires s.ready != [] && k.Keys == s.tasks.Keys
    requires s.ready[0] in k ==> 0 < k[s.ready[0]] <= Life(s.tasks[s.ready[0]])
    ensures RestsAt(s, k) <==> RestsAt(Pop(s), AfterPop(s, k))
  {
    var r, after := Pop(s), AfterPop(s, k);
    forall x ensures (Unended(s, k, x) <==> Unended(r, after, x))
                  && (Unended(s, k, x) ==> (Wakes(s, k, x) <= k[x] <==> Wakes(r, after, x) <= after[x])) {
      RestOf(s, k, x);
    }
    forall x ensures (x in k ==> k[x] <= Life(s.tasks[x])) <==> (x in after ==> after[x] <= Life(r.tasks[x])) {
      RestOf(s, k, x);
    }
  }

  /** The polls before a turn that leave `after` for the rest. */
  lemma BeforePop(s: Exec, after: map<TaskId, nat>) returns (k: map<TaskId, nat>)
    requires s.ready != [] && RestsAt(Pop(s), after)
    ensures k.Keys == s.tasks.Keys && (s.ready[0] in k ==> 0 < k[s.ready[0]] <= Life(s.tasks[s.ready[0]]))
    ensures AfterPop(s, k) == after
  {
    var j := s.ready[0];
    if j !in s.tasks {
      k := after;
    } else {
      k := after[j := if j in after then after[j] + 1 else 1];
      assert k.Keys == s.tasks.Keys;
      LifeStep(s, k, j);
    }
  }

  lemma PopCanStall(s: Exec)
    requires s.ready != []
    ensures CanStall(s) <==> CanStall(Pop(s))
  {
    if CanStall(s) {
      var k :| RestsAt(s, k);
      if s.ready[0] in k { FrontIsPolled(s, k); }
      RestStep(s, k);
    }
    if CanStall(Pop(s)) {
      var after :| RestsAt(Pop(s), after);
      var k := BeforePop(s, after);
      RestStep(s, k);
    }
  }

  // ----- Whole ticks -----

  lemma {:induction false} NothingSent(m: map<TaskId, (Task, nat)>, id: TaskId)
    requires forall j :: j in m ==> m[j].1 == 0
    ensures Total(m, SentBy(id)) == 0
    decreases m
  {
    if m != map[] {
      var j :| j in m;
      TotalRemove(m, SentBy(id), j);
      NothingSent(m - {j}, id);
    }
  }

  lemma EmptyQueueRests(s: Exec)
    requires s.ready == []
    ensures CanStall(s) <==> s.tasks != map[]
  {
    if s.tasks != map[] {
      var k := map j | j in s.tasks :: 0;
      forall j | j in k ensures Wakes(s, k, j) <= 0 {
        NothingSent(Pairs(s.tasks, k), j);
      }
      var j :| j in s.tasks;
      assert Unended(s, k, j);
      assert RestsAt(s, k);
    }
  }

  /** A tick leaves a task in the table if and only if the tasks can come to rest too early: whether they
      do does not depend on the order in which they are polled. */
  lemma {:induction false} TickLeavesIff(s: Exec)
    ensures Tick(s).tasks != map[] <==> CanStall(s)
    decreases Total(s.tasks, PollsLeft()), |s.ready|
  {
    if s.ready == [] {
      EmptyQueueRests(s);
    } else {
      PopCanStall(s);
      PopDecreases(s);
      TickLeavesIff(Pop(s));
    }
  }

  /** `k` ticks of `run`, which stops as soon as no tasks are left. */
  function Ticks(s: Exec, k: nat): (r: Exec)
    decreases k
  {
    if k == 0 || s.tasks == map[] then s else Ticks(Tick(s), k - 1)
  }

  lemma {:induction false} StuckForever(s: Exec, k: nat)
    requires s.ready == [] && s.tasks != map[]
    ensures Ticks(s, k) == s
  {
    if k > 0 { StuckForever(s, k - 1); }
  }

  /** Without wakes from outside, `run` returns if and only if the tasks cannot come to rest too early.
      If they can, it spins for ever. */
  lemma RunReturnsIff(s: Exec)
    ensures (exists k: nat :: Ticks(s, k).tasks == map[]) <==> !CanStall(s)
  {
    TickLeavesIff(s);
    if s.tasks == map[] {
      assert Ticks(s, 0).tasks == map[];
      EmptyTableEnds(s);
    } else if Tick(s).tasks == map[] {
      assert Ticks(s, 1) == Ticks(Tick(s), 0);
      assert Ticks(s, 1).tasks == map[];
    } else {
      forall k: nat ensures Ticks(s, k).tasks != map[] {
        if k > 0 { StuckForever(Tick(s), k - 1); }
      }
    }
  }

  lemma EmptyTableEnds(s: Exec)
    requires s.tasks == map[]
    ensures !CanStall(s)
  {
  }

  /** Tasks that are all queued and wake themselves while pending cannot stall. */
  lemma SelfWakingEnds(s: Exec)
    requires SelfWaking(s)
    ensures !CanStall(s)
  {
    TickFinishes(s);
    TickLeavesIff(s);
  }

  /** After a run that returned every task that was ever spawned has ended, with a result or a panic. */
  lemma AllEnded(es: seq<Event>, id: TaskId)
    requires var s := Run(NEW_EXEC, es); !CanStall(s) && id in Tick(s).channels
    ensures var r := Tick(Run(NEW_EXEC, es));
            exists o :: EndedWith(r.log, id, o)
  {
    var s := Run(NEW_EXEC, es);
    RunKeeps(NEW_EXEC, es);
    TickKeeps(s);
    TickLeavesIff(s);
    var e :| e in Tick(s).log && Final(e) && e.id == id;
    assert EndedWith(Tick(s).log, id, e.outcome);
  }

  /** For instance, a spawned task whose first poll is pending and wakes nobody makes `run` spin. */
  lemma UnwokenTaskSpins(rest: seq<Poll>, value: int, k: nat)
    ensures Ticks(Spawn(NEW_EXEC, Task([Poll([], Pending)] + rest, value)), k).tasks != map[]
  {
    var t := Task([Poll([], Pending)] + rest, value);
    var s := Spawn(NEW_EXEC, t);
    assert s.ready == [1] && s.tasks == map[1 := t];
    var r := Pop(s);
    assert r.ready == [] && 1 in r.tasks;
    assert Tick(s) == Tick(r) == r;
    if k > 0 { StuckForever(r, k - 1); }
  }
}
