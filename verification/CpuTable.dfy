/** Which tasks are in the scheduler's table, and with how much of their script still to come: over every
    run, from the history of the run alone. */
module CpuTable {
  import opened CpuModel
  import opened CpuTheorems

  // ----- Histories -----

  function Count(id: TaskId, ids: seq<TaskId>): (k: nat) {
    if ids == [] then 0 else (if ids[0] == id then 1 else 0) + Count(id, ids[1..])
  }

  lemma {:induction false} CountAppend(id: TaskId, a: seq<TaskId>, b: seq<TaskId>)
    ensures Count(id, a + b) == Count(id, a) + Count(id, b)
  {
    if a == [] {
      assert a + b == b;
    } else {
      CountAppend(id, a[1..], b);
      assert (a + b)[1..] == a[1..] + b;
    }
  }

  /** How often `id` occurs in log `b` after its part `a`. */
  function Since(id: TaskId, a: seq<TaskId>, b: seq<TaskId>): (k: nat) {
    if |a| <= |b| then Count(id, b[|a|..]) else 0
  }

  /** Event `e` puts task `t` into the table under `id`. */
  predicate Brings(e: Event, id: TaskId, t: Task) {
    e == Spawned(id, t) || e == Delivered(SubmitTask(id, t))
  }

  /** The events of a run after number `i` leave `id` alone: no task is introduced under it, it is not
      cancelled, and it is not taken off the queue while a mark is left under it. */
  ghost predicate LeftAlone(es: seq<Event>, i: nat, id: TaskId) {
    forall j {:trigger es[j]} :: i < j < |es| ==>
      && !Introduces(es[j], id) && es[j] != Delivered(CancelTask(id))
      && !(Takes(es, j, id) && id in Run(EMPTY_CPU, es[..j]).cancelled)
  }

  /** How often `id` was polled after event `i`. */
  function PollsAfter(es: seq<Event>, i: nat, id: TaskId): (n: nat)
    requires i < |es|
  {
    Since(id, Run(EMPTY_CPU, es[..i + 1]).polled, Run(EMPTY_CPU, es).polled)
  }

  /** Poll number `k` of a task, counted from 0, is its last. */
  predicate EndsAt(t: Task, k: nat) {
    k >= |t.polls| || t.polls[k].outcome.Ready?
  }

  /** None of the first `n` polls is. */
  predicate Unfinished(t: Task, n: nat) {
    forall k: nat :: k < n ==> !EndsAt(t, k)
  }

  /** Event `i` introduced `t` under `id`; since then it was left alone and not polled to its end. */
  ghost predicate Lives(es: seq<Event>, i: nat, id: TaskId, t: Task) {
    i < |es| && Brings(es[i], id, t) && LeftAlone(es, i, id) && Unfinished(t, PollsAfter(es, i, id))
  }

  /** What is left of a task after `n` polls. */
  function Left(t: Task, n: nat): (r: Task) {
    if n <= |t.polls| then t.(polls := t.polls[n..]) else t.(polls := [])
  }

  // ----- One event -----

  lemma PopTable(s: Cpu, id: TaskId)
    requires s.ready != [] && s.ready[0] == id
    ensures var r := Pop(s);
            if id in s.tasks && id !in s.cancelled && !EndsAt(s.tasks[id], 0)
            then id in r.tasks && r.tasks[id] == Left(s.tasks[id], 1) else id !in r.tasks
  {
  }

  lemma PopOthers(s: Cpu, id: TaskId)
    requires s.ready != [] && s.ready[0] != id
    ensures var r := Pop(s);
            (id in r.tasks <==> id in s.tasks) && (id in s.tasks ==> r.tasks[id] == s.tasks[id])
  {
  }

  /** An event that neither introduces nor cancels `id` changes its entry only by taking it off the queue. */
  lemma StepTable(s: Cpu, e: Event, id: TaskId)
    requires !Introduces(e, id) && e != Delivered(CancelTask(id))
    ensures var r := Step(s, e);
            if Front(s, e, id) then
              if id in s.tasks && id !in s.cancelled && !EndsAt(s.tasks[id], 0)
              then id in r.tasks && r.tasks[id] == Left(s.tasks[id], 1) else id !in r.tasks
            else (id in r.tasks <==> id in s.tasks) && (id in s.tasks ==> r.tasks[id] == s.tasks[id])
  {
    if e.Popped? && s.ready != [] {
      if s.ready[0] == id { PopTable(s, id); } else { PopOthers(s, id); }
    }
  }

  /** The event polls `id`. */
  predicate Polls(s: Cpu, e: Event, id: TaskId) {
    Front(s, e, id) && id in s.tasks && id !in s.cancelled
  }

  lemma SinceNext(id: TaskId, a: seq<TaskId>, x: TaskId)
    ensures Since(id, a, a) == 0 && Since(id, a, a + [x]) == if x == id then 1 else 0
  {
    assert a[|a|..] == [] && (a + [x])[|a|..] == [x] && [x][1..] == [];
    assert Count(id, [x]) == (if x == id then 1 else 0) + Count(id, []);
  }

  lemma StepPolled(s: Cpu, e: Event, id: TaskId)
    ensures var r := Step(s, e);
            s.polled <= r.polled && Since(id, s.polled, r.polled) == if Polls(s, e, id) then 1 else 0
  {
    hide Since;
    SinceNext(id, s.polled, id);
    if e.Popped? && s.ready != [] {
      PopPolls(s);
      SinceNext(id, s.polled, s.ready[0]);
      assert s.polled + [] == s.polled;
    }
  }

  // ----- Every run -----

  lemma LeftAloneLonger(es: seq<Event>, e: Event, i: nat, id: TaskId)
    requires i < |es|
    ensures var s := Run(EMPTY_CPU, es);
            LeftAlone(es + [e], i, id) <==>
            && LeftAlone(es, i, id) && !Introduces(e, id) && e != Delivered(CancelTask(id))
            && !(Front(s, e, id) && id in s.cancelled)
  {
    var all, k := es + [e], |es|;
    assert all[..k] == es && all[k] == e;
    forall j | 0 <= j < k ensures all[j] == es[j] && all[..j] == es[..j] {}
    if LeftAlone(all, i, id) {
      forall j | i < j < k
        ensures !Introduces(es[j], id) && es[j] != Delivered(CancelTask(id))
        ensures !(Takes(es, j, id) && id in Run(EMPTY_CPU, es[..j]).cancelled)
      {
        assert all[j] == es[j] && all[..j] == es[..j];
      }
    }
  }

  lemma PolledUpTo(es: seq<Event>, k: nat)
    requires k <= |es|
    ensures Run(EMPTY_CPU, es[..k]).polled <= Run(EMPTY_CPU, es).polled
  {
    assert es == es[..k] + es[k..];
    RunAppend(EMPTY_CPU, es[..k], es[k..]);
    PolledGrows(Run(EMPTY_CPU, es[..k]), es[k..]);
  }

  lemma SinceThrough(id: TaskId, a: seq<TaskId>, b: seq<TaskId>, c: seq<TaskId>)
    requires a <= b <= c
    ensures Since(id, a, c) == Since(id, a, b) + Since(id, b, c)
  {
    assert c[|a|..] == b[|a|..] + c[|b|..];
    CountAppend(id, b[|a|..], c[|b|..]);
  }

  lemma SinceStep(id: TaskId, from: seq<TaskId>, s: Cpu, e: Event)
    requires from <= s.polled
    ensures Since(id, from, Step(s, e).polled) == Since(id, from, s.polled) + if Polls(s, e, id) then 1 else 0
  {
    hide Step, Since, Polls;
    StepPolled(s, e, id);
    SinceThrough(id, from, s.polled, Step(s, e).polled);
  }

  lemma PollsAfterLonger(es: seq<Event>, e: Event, i: nat, id: TaskId)
    requires i < |es|
    ensures PollsAfter(es + [e], i, id) ==
            PollsAfter(es, i, id) + if Polls(Run(EMPTY_CPU, es), e, id) then 1 else 0
  {
    hide Run, Step, Since, Polls;
    RunLast(EMPTY_CPU, es, e);
    PolledUpTo(es, i + 1);
    assert (es + [e])[..i + 1] == es[..i + 1];
    SinceStep(id, Run(EMPTY_CPU, es[..i + 1]).polled, Run(EMPTY_CPU, es), e);
  }

  lemma UnfinishedMore(t: Task, n: nat)
    ensures Unfinished(t, n + 1) <==> Unfinished(t, n) && !EndsAt(t, n)
  {
  }

  lemma LeftMore(t: Task, n: nat)
    requires Unfinished(t, n)
    ensures n <= |t.polls| && (EndsAt(Left(t, n), 0) <==> EndsAt(t, n))
    ensures !EndsAt(t, n) ==> Left(Left(t, n), 1) == Left(t, n + 1)
  {
    if n > 0 { assert !EndsAt(t, n - 1); }
  }

  /** A task introduced earlier lives on through an event exactly if the event leaves its entry. */
  lemma LivesOn(es: seq<Event>, e: Event, i: nat, id: TaskId, t: Task)
    requires i < |es| && Lives(es, i, id, t)
    requires var s := Run(EMPTY_CPU, es); id in s.tasks && s.tasks[id] == Left(t, PollsAfter(es, i, id))
    ensures var r := Run(EMPTY_CPU, es + [e]);
            if Lives(es + [e], i, id, t)
            then id in r.tasks && r.tasks[id] == Left(t, PollsAfter(es + [e], i, id))
            else Introduces(e, id) || id !in r.tasks
  {
    var s, n := Run(EMPTY_CPU, es), PollsAfter(es, i, id);
    RunLast(EMPTY_CPU, es, e);
    LeftAloneLonger(es, e, i, id);
    PollsAfterLonger(es, e, i, id);
    UnfinishedMore(t, n);
    LeftMore(t, n);
    if !Introduces(e, id) && e != Delivered(CancelTask(id)) { StepTable(s, e, id); }
  }

  lemma LivedBefore(es: seq<Event>, e: Event, i: nat, id: TaskId, t: Task)
    requires i < |es| && Lives(es + [e], i, id, t)
    ensures Lives(es, i, id, t)
  {
    LeftAloneLonger(es, e, i, id);
    PollsAfterLonger(es, e, i, id);
    assert (es + [e])[i] == es[i];
  }

  /** The task that event `e` introduces. */
  lemma JustIntroduced(es: seq<Event>, e: Event, id: TaskId, t: Task)
    requires Brings(e, id, t)
    ensures var all := es + [e];
            && Lives(all, |es|, id, t) && PollsAfter(all, |es|, id) == 0
            && id in Run(EMPTY_CPU, all).tasks && Run(EMPTY_CPU, all).tasks[id] == t
  {
    var all := es + [e];
    RunLast(EMPTY_CPU, es, e);
    assert all[..|es| + 1] == all;
    var polled := Run(EMPTY_CPU, all).polled;
    assert polled[|polled|..] == [];
  }

  lemma {:induction false} EntryIsLeft(es: seq<Event>, i: nat, id: TaskId, t: Task)
    requires Lives(es, i, id, t)
    ensures id in Run(EMPTY_CPU, es).tasks
    ensures Run(EMPTY_CPU, es).tasks[id] == Left(t, PollsAfter(es, i, id))
    decreases |es|
  {
    hide Run, Step;
    var k := |es| - 1;
    var before := es[..k];
    assert es == before + [es[k]];
    if i == k {
      JustIntroduced(before, es[k], id, t);
    } else {
      LivedBefore(before, es[k], i, id, t);
      EntryIsLeft(before, i, id, t);
      LivesOn(before, es[k], i, id, t);
    }
  }

  lemma {:induction false} EntryLives(es: seq<Event>, id: TaskId) returns (i: nat, t: Task)
    requires id in Run(EMPTY_CPU, es).tasks
    ensures Lives(es, i, id, t)
    decreases |es|
  {
    var k := |es| - 1;
    var before, e := es[..k], es[k];
    assert es == before + [e];
    RunLast(EMPTY_CPU, before, e);
    if Introduces(e, id) {
      i, t := k, if e.Spawned? then e.task else e.message.task;
      JustIntroduced(before, e, id, t);
    } else {
      if e != Delivered(CancelTask(id)) { StepTable(Run(EMPTY_CPU, before), e, id); }
      i, t := EntryLives(before, id);
      EntryIsLeft(before, i, id, t);
      LivesOn(before, e, i, id, t);
    }
  }

  /** Over every run: an id is in the table exactly if a task was introduced under it and it has since been
      neither introduced again, nor cancelled, nor taken down by a mark, nor polled to its end. The task
      there is the one introduced, with as many first polls of its script gone as it has been polled since. */
  lemma TableExactly(es: seq<Event>, id: TaskId)
    ensures var tasks := Run(EMPTY_CPU, es).tasks;
            && (id in tasks <==> exists i, t :: Lives(es, i, id, t))
            && forall i, t :: Lives(es, i, id, t) ==>
                 && PollsAfter(es, i, id) <= |t.polls|
                 && tasks[id] == t.(polls := t.polls[PollsAfter(es, i, id)..])
  {
    if id in Run(EMPTY_CPU, es).tasks {
      var i, t := EntryLives(es, id);
    }
    forall i, t | Lives(es, i, id, t)
      ensures id in Run(EMPTY_CPU, es).tasks && PollsAfter(es, i, id) <= |t.polls|
      ensures Run(EMPTY_CPU, es).tasks[id] == t.(polls := t.polls[PollsAfter(es, i, id)..])
    {
      EntryIsLeft(es, i, id, t);
      LeftMore(t, PollsAfter(es, i, id));
    }
  }
}
