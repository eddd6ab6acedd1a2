/** The wheel on the clock: what its ticks are in nanoseconds, and in which call of `expire` a timer fires in
    terms of its deadline and the instants of the calls. */
module TimerInstants {
  import opened Division
  import opened TimerWheels
  import opened TimerRuns
  import opened TimerRefinement

  // ----- Ticks and instants -----

  /** The instant at which step `m` of a wheel begins whose resolution is so many milliseconds. */
  function StepAt(start: Instant, resolutionMs: nat, m: nat): (at: Instant) {
    start + m * resolutionMs * 1_000_000
  }

  /** The tick of an instant is at least `m` exactly if step `m` has begun. */
  lemma ReachedIff(start: Instant, resolutionMs: nat, at: Instant, m: nat)
    requires resolutionMs > 0 && m > 0
    ensures TickOf(start, resolutionMs, at) >= m <==> StepAt(start, resolutionMs, m) <= at
  {
    var x: nat := if at < start then 0 else at - start;
    DivTwice(x, 1_000_000, resolutionMs);
    DivAtLeast(x, resolutionMs * 1_000_000, m);
    assert m * (resolutionMs * 1_000_000) == m * resolutionMs * 1_000_000;
    MulMono(resolutionMs * 1_000_000, 1, m);
  }

  /** Ticks are whole resolution steps from the start: an instant has tick `k` exactly if it lies between the
      beginnings of steps `k` and `k + 1`, and one before the start has tick 0. */
  lemma TickIff(start: Instant, resolutionMs: nat, at: Instant, k: nat)
    requires resolutionMs > 0
    ensures at < start ==> TickOf(start, resolutionMs, at) == 0
    ensures at >= start ==>
            (TickOf(start, resolutionMs, at) == k <==>
             start + k * resolutionMs * 1_000_000 <= at < start + (k + 1) * resolutionMs * 1_000_000)
  {
    if at >= start {
      if k > 0 { ReachedIff(start, resolutionMs, at, k); }
      ReachedIff(start, resolutionMs, at, k + 1);
    }
  }

  /** Between the two instants a step begins, after the first and not after the second. */
  ghost predicate StepBetween(start: Instant, resolutionMs: nat, at: Instant, now: Instant) {
    exists m: nat :: m > 0 && at < StepAt(start, resolutionMs, m) <= now
  }

  /** A tick is later exactly if a step begins in between; so a later tick is a later instant, and an instant
      one resolution step later always has a later tick. */
  lemma LaterTick(start: Instant, resolutionMs: nat, deadline: Instant, now: Instant)
    requires resolutionMs > 0
    ensures TickOf(start, resolutionMs, deadline) < TickOf(start, resolutionMs, now) <==>
            StepBetween(start, resolutionMs, deadline, now)
    ensures StepBetween(start, resolutionMs, deadline, now) ==> deadline < now
    ensures deadline >= start && now - deadline >= resolutionMs * 1_000_000 ==>
            StepBetween(start, resolutionMs, deadline, now)
  {
    var p, q := TickOf(start, resolutionMs, deadline), TickOf(start, resolutionMs, now);
    ReachedIff(start, resolutionMs, deadline, p + 1);
    ReachedIff(start, resolutionMs, now, p + 1);
    if StepBetween(start, resolutionMs, deadline, now) {
      var m: nat :| m > 0 && deadline < StepAt(start, resolutionMs, m) <= now;
      ReachedIff(start, resolutionMs, deadline, m);
      ReachedIff(start, resolutionMs, now, m);
    }
    if deadline >= start { TickIff(start, resolutionMs, deadline, p); }
  }

  // ----- Runs by the clock -----

  datatype Call =
    | ScheduleAt(at: Instant, task: nat, skip: nat)
    | CancelId(id: nat)
    | ExpireAt(now: Instant)

  function OpOf(start: Instant, resolutionMs: nat, c: Call): (op: Op)
    requires resolutionMs > 0
  {
    match c
    case ScheduleAt(at, task, skip) => Schedule(TickOf(start, resolutionMs, at), task, skip)
    case CancelId(id) => Cancel(id)
    case ExpireAt(now) => Expire(TickOf(start, resolutionMs, now))
  }

  /** What the calls do to the wheel. */
  function OpsOf(start: Instant, resolutionMs: nat, cs: seq<Call>): (ops: seq<Op>)
    requires resolutionMs > 0
    decreases cs
  {
    if cs == [] then [] else [OpOf(start, resolutionMs, cs[0])] + OpsOf(start, resolutionMs, cs[1..])
  }

  /** The clock does not run back. */
  predicate Forward(last: Instant, cs: seq<Call>)
    decreases cs
  {
    cs == [] ||
    if cs[0].ExpireAt? then last <= cs[0].now && Forward(cs[0].now, cs[1..]) else Forward(last, cs[1..])
  }

  /** The instant of the last call of `expire`, or `last`. */
  function LastNow(last: Instant, cs: seq<Call>): (now: Instant)
    decreases cs
  {
    if cs == [] then last else LastNow(if cs[0].ExpireAt? then cs[0].now else last, cs[1..])
  }

  lemma TickMono(start: Instant, resolutionMs: nat, a: Instant, b: Instant)
    requires resolutionMs > 0 && a <= b
    ensures TickOf(start, resolutionMs, a) <= TickOf(start, resolutionMs, b)
  {
    var m := TickOf(start, resolutionMs, a);
    if m > 0 {
      ReachedIff(start, resolutionMs, a, m);
      ReachedIff(start, resolutionMs, b, m);
    }
  }

  lemma {:induction false} ForwardInTicks(start: Instant, resolutionMs: nat, last: Instant, cs: seq<Call>)
    requires resolutionMs > 0 && Forward(last, cs)
    ensures var ops, tick := OpsOf(start, resolutionMs, cs), TickOf(start, resolutionMs, last);
            ForwardFrom(tick, ops) && LastOf(tick, ops) == TickOf(start, resolutionMs, LastNow(last, cs))
    decreases cs
  {
    if cs != [] {
      var next := if cs[0].ExpireAt? then cs[0].now else last;
      if cs[0].ExpireAt? { TickMono(start, resolutionMs, last, cs[0].now); }
      ForwardInTicks(start, resolutionMs, next, cs[1..]);
      assert OpsOf(start, resolutionMs, cs)[1..] == OpsOf(start, resolutionMs, cs[1..]);
    }
  }

  lemma {:induction false} CancelInTicks(start: Instant, resolutionMs: nat, cs: seq<Call>, id: nat)
    requires resolutionMs > 0 && CancelId(id) !in cs
    ensures Cancel(id) !in OpsOf(start, resolutionMs, cs)
    decreases cs
  {
    if cs != [] { CancelInTicks(start, resolutionMs, cs[1..], id); }
  }

  /** Which of the calls is the first `expire` before which, since the deadline, a step of the wheel began;
      the number of calls if none is. */
  ghost function FirstAfter(start: Instant, resolutionMs: nat, at: Instant, cs: seq<Call>): (i: nat)
    decreases cs
  {
    if cs == [] || (cs[0].ExpireAt? && StepBetween(start, resolutionMs, at, cs[0].now)) then 0
    else 1 + FirstAfter(start, resolutionMs, at, cs[1..])
  }

  lemma {:induction false} DueInTicks(start: Instant, resolutionMs: nat, at: Instant, cs: seq<Call>)
    requires resolutionMs > 0
    ensures DueBy(TickOf(start, resolutionMs, at), OpsOf(start, resolutionMs, cs))
         == FirstAfter(start, resolutionMs, at, cs)
    decreases cs
  {
    if cs != [] {
      if cs[0].ExpireAt? { LaterTick(start, resolutionMs, at, cs[0].now); }
      DueInTicks(start, resolutionMs, at, cs[1..]);
      assert OpsOf(start, resolutionMs, cs)[1..] == OpsOf(start, resolutionMs, cs[1..]);
    }
  }

  /** What a caller can check by the clock: while the rotation lasts, the deadline lies in it and no step began
      between the deadline and the last `expire`; afterwards, one did. */
  ghost predicate ServableAt(start: Instant, resolutionMs: nat, n: nat, last: Instant, at: Instant) {
    var end := StepAt(start, resolutionMs, n);
    if last < end then at < end && !StepBetween(start, resolutionMs, at, last)
    else StepBetween(start, resolutionMs, at, last)
  }

  lemma ServableInTicks(start: Instant, resolutionMs: nat, n: nat, last: Instant, at: Instant)
    requires resolutionMs > 0 && n > 0
    ensures Servable(n, TickOf(start, resolutionMs, last), TickOf(start, resolutionMs, at))
       <==> ServableAt(start, resolutionMs, n, last, at)
  {
    ReachedIff(start, resolutionMs, last, n);
    ReachedIff(start, resolutionMs, at, n);
    LaterTick(start, resolutionMs, at, last);
  }

  /** In every continuation by a clock that does not run back, and that does not cancel it, the timer fires in
      the first `expire` before which, since its deadline, a step of the wheel began. */
  ghost predicate OnTimeAt(n: nat, s: Sys, e: Entry, start: Instant, resolutionMs: nat, last: Instant, at: Instant)
    requires s.wheel.Valid(n) && resolutionMs > 0
  {
    forall cs :: Forward(last, cs) && CancelId(e.id) !in cs ==>
      FiredIn(n, s, e, OpsOf(start, resolutionMs, cs)) == FirstAfter(start, resolutionMs, at, cs)
  }

  lemma StepTick(start: Instant, resolutionMs: nat, n: nat)
    requires resolutionMs > 0
    ensures TickOf(start, resolutionMs, StepAt(start, resolutionMs, n)) == n
  {
    TickIff(start, resolutionMs, StepAt(start, resolutionMs, n), n);
    assert (n + 1) * resolutionMs * 1_000_000 == n * resolutionMs * 1_000_000 + resolutionMs * 1_000_000;
  }

  /** A single call of `expire` that shows a timer to be off time. */
  lemma OffTimeAt(n: nat, s: Sys, e: Entry, start: Instant, resolutionMs: nat, last: Instant, at: Instant)
    requires Inv(n, s) && e in s.scheduled && IsPending(s, e) && resolutionMs > 0 && n > 0
    requires e.waker.due == TickOf(start, resolutionMs, at)
    requires LastTick(n, s, TickOf(start, resolutionMs, last))
    requires !ServableAt(start, resolutionMs, n, last, at)
    ensures !OnTimeAt(n, s, e, start, resolutionMs, last, at)
  {
    var tick := TickOf(start, resolutionMs, last);
    ServableInTicks(start, resolutionMs, n, last, at);
    var ops := NotServedOnTime(n, s, e, tick);
    var end := StepAt(start, resolutionMs, n);
    var now := if ops == [Expire(tick)] then last else end;
    ReachedIff(start, resolutionMs, last, n);
    StepTick(start, resolutionMs, n);
    var cs := [ExpireAt(now)];
    assert cs[1..] == [] && OpsOf(start, resolutionMs, cs) == [OpOf(start, resolutionMs, cs[0])] + [];
    assert OpsOf(start, resolutionMs, cs) == ops;
    DueInTicks(start, resolutionMs, at, cs);
    assert Forward(last, cs);
  }

  lemma OnTimeByClock(n: nat, s: Sys, e: Entry, start: Instant, resolutionMs: nat, last: Instant, at: Instant)
    requires Inv(n, s) && e in s.scheduled && IsPending(s, e) && resolutionMs > 0 && n > 0
    requires e.waker.due == TickOf(start, resolutionMs, at)
    requires LastTick(n, s, TickOf(start, resolutionMs, last))
    requires ServableAt(start, resolutionMs, n, last, at)
    ensures OnTimeAt(n, s, e, start, resolutionMs, last, at)
  {
    ServableInTicks(start, resolutionMs, n, last, at);
    forall cs | Forward(last, cs) && CancelId(e.id) !in cs
      ensures FiredIn(n, s, e, OpsOf(start, resolutionMs, cs)) == FirstAfter(start, resolutionMs, at, cs)
    {
      ForwardInTicks(start, resolutionMs, last, cs);
      CancelInTicks(start, resolutionMs, cs, e.id);
      ServedOnTime(n, s, e, TickOf(start, resolutionMs, last), OpsOf(start, resolutionMs, cs));
      DueInTicks(start, resolutionMs, at, cs);
    }
  }

  /** By the clock: over every run of calls with instants that do not run back, the timer that `schedule` has
      just entered for the instant `at` fires, in every continuation, in the first `expire` before which, since
      `at`, a step of the wheel began, if and only if `at` is servable at the instant of the last `expire`. */
  lemma ScheduledAtIff(n: nat, start: Instant, resolutionMs: nat, cs: seq<Call>, at: Instant, task: nat, skip: nat)
    requires n > 0 && resolutionMs > 0 && Forward(start, cs)
    ensures var s := Run(n, Start(n), OpsOf(start, resolutionMs, cs));
            var due := TickOf(start, resolutionMs, at);
            var e := Entry(s.nextId + skip, Waker(task, due));
            OnTimeAt(n, Step(n, s, Schedule(due, task, skip)), e, start, resolutionMs, LastNow(start, cs), at)
            <==> ServableAt(start, resolutionMs, n, LastNow(start, cs), at)
  {
    var ops, due, last := OpsOf(start, resolutionMs, cs), TickOf(start, resolutionMs, at), LastNow(start, cs);
    var s := Run(n, Start(n), ops);
    StartInv(n);
    RunKeepsInv(n, Start(n), ops);
    ForwardInTicks(start, resolutionMs, start, cs);
    TickIff(start, resolutionMs, start, 0);
    RunLastTick(n, Start(n), ops, 0);
    ScheduleKeepsInv(n, s, due, task, skip);
    var r, e := Step(n, s, Schedule(due, task, skip)), Entry(s.nextId + skip, Waker(task, due));
    if ServableAt(start, resolutionMs, n, last, at) {
      OnTimeByClock(n, r, e, start, resolutionMs, last, at);
    } else {
      OffTimeAt(n, r, e, start, resolutionMs, last, at);
    }
  }
}
