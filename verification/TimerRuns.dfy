/** Runs of the timer wheel: what every run keeps, and when the wheel behaves like a plain list of
    deadlines. */
module TimerRuns {
  import opened Sequences
  import opened TimerWheels

  /** `skip` counts the ids other wheels take from the shared counter in between. */
  datatype Op = Schedule(due: nat, task: nat, skip: nat) | Cancel(id: nat) | Expire(tick: nat)

  /** A wheel together with the history of the run that led to it. */
  datatype Sys = Sys(wheel: Wheel, nextId: nat,
                     scheduled: seq<Entry>, fired: seq<Entry>, cancelled: seq<Entry>)

  function Start(n: nat): (s: Sys) {
    Sys(Wheel(seq(n, _ => []), 0), 1, [], [], [])
  }

  function Step(n: nat, s: Sys, op: Op): (r: Sys)
    requires s.wheel.Valid(n)
    ensures r.wheel.Valid(n)
  {
    match op
    case Schedule(due, task, skip) =>
      var e := Entry(s.nextId + skip, Waker(task, due));
      s.(wheel := Scheduled(s.wheel, due, e), nextId := e.id + 1, scheduled := s.scheduled + [e])
    case Cancel(id) =>
      if !Found(s.wheel, id) then s
      else s.(wheel := Cancelled(s.wheel, id), cancelled := s.cancelled + [FoundEntry(s.wheel, id)])
    case Expire(tick) =>
      s.(wheel := Expired(s.wheel, tick), fired := s.fired + Fired(s.wheel, tick))
  }

  function Run(n: nat, s: Sys, ops: seq<Op>): (r: Sys)
    requires s.wheel.Valid(n)
    ensures r.wheel.Valid(n)
    decreases ops
  {
    if ops == [] then s else Run(n, Step(n, s, ops[0]), ops[1..])
  }

  // ----- What every run keeps, in both regimes -----

  predicate IsPending(s: Sys, e: Entry) {
    e !in s.fired && e !in s.cancelled
  }

  function PendingIn(s: Sys, n: nat, slot: nat): Entry -> bool {
    (e: Entry) => n > 0 && e.waker.due % n == slot && IsPending(s, e)
  }

  ghost predicate Ascending(s: seq<Entry>) {
    forall i, j :: 0 <= i < j < |s| ==> s[i].id < s[j].id
  }

  /** Every slot holds exactly the scheduled timers of that slot which neither fired nor were
      cancelled, in scheduling order. */
  ghost predicate Inv(n: nat, s: Sys) {
    && n > 0 && s.wheel.Valid(n)
    && Ascending(s.scheduled)
    && (forall e :: e in s.scheduled ==> e.id < s.nextId)
    && (forall e :: e in s.fired || e in s.cancelled ==> e in s.scheduled)
    && (forall i :: 0 <= i < n ==> s.wheel.slots[i] == Filter(PendingIn(s, n, i), s.scheduled))
  }

  lemma StartInv(n: nat)
    requires n > 0
    ensures Inv(n, Start(n))
  {
  }

  /** The members of one slot. */
  lemma InSlot(n: nat, s: Sys, i: nat, e: Entry)
    requires Inv(n, s) && i < n
    ensures e in s.wheel.slots[i] <==> e in s.scheduled && e.waker.due % n == i && IsPending(s, e)
  {
    FilterMember(PendingIn(s, n, i), s.scheduled, e);
  }

  lemma SweptMembers(slots: seq<seq<Entry>>, c: nat, k: nat, e: Entry)
    requires c < |slots| && k <= |slots|
    ensures e in Swept(slots, c, k) <==>
            exists i :: 0 <= i < |slots| && Distance(|slots|, c, i) < k && e in slots[i]
  {
    if k > 0 {
      SweptMembers(slots, c, k - 1, e);
      var s := At(|slots|, c, k - 1);
      assert Distance(|slots|, c, s) == k - 1;
      assert forall i :: 0 <= i < |slots| && i != s ==> Distance(|slots|, c, i) != k - 1;
    }
  }

  /** The exact rule by which a pending timer fires: its slot lies among those the cursor passes. */
  lemma FiresExactly(n: nat, s: Sys, tick: nat, e: Entry)
    requires Inv(n, s)
    ensures e in Fired(s.wheel, tick) <==>
            && e in s.scheduled && IsPending(s, e)
            && Distance(n, s.wheel.cursor, e.waker.due % n) < Steps(n, s.wheel.cursor, tick)
  {
    var c, k := s.wheel.cursor, Steps(n, s.wheel.cursor, tick);
    SweptMembers(s.wheel.slots, c, k, e);
    forall i | 0 <= i < n
      ensures e in s.wheel.slots[i] <==> e in s.scheduled && e.waker.due % n == i && IsPending(s, e)
    {
      InSlot(n, s, i, e);
    }
  }

  lemma ExpireKeepsInv(n: nat, s: Sys, tick: nat)
    requires Inv(n, s)
    ensures Inv(n, Step(n, s, Expire(tick)))
  {
    var r := Step(n, s, Expire(tick));
    var c, k := s.wheel.cursor, Steps(n, s.wheel.cursor, tick);
    forall e ensures IsPending(r, e) && e in s.scheduled <==>
                     e in s.scheduled && IsPending(s, e) && Distance(n, c, e.waker.due % n) >= k
    {
      FiresExactly(n, s, tick, e);
    }
    forall e | e in r.fired ensures e in s.scheduled {
      FiresExactly(n, s, tick, e);
    }
    forall i | 0 <= i < n ensures r.wheel.slots[i] == Filter(PendingIn(r, n, i), s.scheduled) {
      EmptiedAt(s.wheel.slots, c, k, i);
      if Distance(n, c, i) < k {
        FilterNone(PendingIn(r, n, i), s.scheduled);
      } else {
        FilterSame(PendingIn(r, n, i), PendingIn(s, n, i), s.scheduled);
      }
    }
  }

  lemma ScheduleKeepsInv(n: nat, s: Sys, due: nat, task: nat, skip: nat)
    requires Inv(n, s)
    ensures Inv(n, Step(n, s, Schedule(due, task, skip)))
  {
    var r := Step(n, s, Schedule(due, task, skip));
    var e := r.scheduled[|s.scheduled|];
    forall i | 0 <= i < n ensures r.wheel.slots[i] == Filter(PendingIn(r, n, i), r.scheduled) {
      FilterAppend(PendingIn(r, n, i), s.scheduled, [e]);
      FilterSame(PendingIn(r, n, i), PendingIn(s, n, i), s.scheduled);
    }
  }

  /** Cutting out the one position that fails `q` is filtering by `q`. */
  lemma {:induction false} CutIsFilter(s: seq<Entry>, p: nat, q: Entry -> bool)
    requires p < |s| && forall i :: 0 <= i < |s| ==> q(s[i]) == (i != p)
    ensures Filter(q, s) == s[..p] + s[p + 1..]
  {
    if p == 0 {
      FilterAll(q, s[1..]);
    } else {
      var rest := s[1..];
      CutIsFilter(rest, p - 1, q);
      assert s[..p] + s[p + 1..] == [s[0]] + (rest[..p - 1] + rest[p..]);
    }
  }

  lemma {:induction false} FilterAscending(p: Entry -> bool, s: seq<Entry>)
    requires Ascending(s)
    ensures Ascending(Filter(p, s))
  {
    if s != [] {
      FilterAscending(p, s[1..]);
      FilterMembers(p, s[1..]);
      assert forall e :: e in Filter(p, s[1..]) ==> s[0].id < e.id;
    }
  }

  lemma FoundIsPending(n: nat, s: Sys, id: nat)
    requires Inv(n, s) && Found(s.wheel, id)
    ensures var x := FoundEntry(s.wheel, id);
            && x in s.scheduled && x.id == id && IsPending(s, x)
            && x.waker.due % n == SlotOf(s.wheel.slots, id)
  {
    var x, t := FoundEntry(s.wheel, id), SlotOf(s.wheel.slots, id);
    assert x in s.wheel.slots[t];
    InSlot(n, s, t, x);
  }

  function OtherThanEntry(x: Entry): Entry -> bool {
    (e: Entry) => e != x
  }

  /** Cancelling removes exactly that entry from its slot and keeps the order of the others. */
  lemma CancelCutsSlot(w: Wheel, id: nat)
    requires Found(w, id) && Ascending(w.slots[SlotOf(w.slots, id)])
    ensures var t, x := SlotOf(w.slots, id), FoundEntry(w, id);
            Cancelled(w, id).slots[t] == Filter(OtherThanEntry(x), w.slots[t])
  {
    var slot := w.slots[SlotOf(w.slots, id)];
    CutIsFilter(slot, PositionIn(slot, id), OtherThanEntry(FoundEntry(w, id)));
  }

  /** What is pending in a slot after a cancellation. */
  lemma PendingAfterCancel(n: nat, s: Sys, id: nat, i: nat, e: Entry)
    requires Inv(n, s) && Found(s.wheel, id) && i < n
    ensures var r, x := Step(n, s, Cancel(id)), FoundEntry(s.wheel, id);
            PendingIn(r, n, i)(e) == (PendingIn(s, n, i)(e) && e != x)
  {
  }

  lemma CancelKeepsOwnSlot(n: nat, s: Sys, id: nat)
    requires Inv(n, s) && Found(s.wheel, id)
    ensures var r, i := Step(n, s, Cancel(id)), SlotOf(s.wheel.slots, id);
            r.wheel.slots[i] == Filter(PendingIn(r, n, i), s.scheduled)
  {
    var r, i, x := Step(n, s, Cancel(id)), SlotOf(s.wheel.slots, id), FoundEntry(s.wheel, id);
    FilterAscending(PendingIn(s, n, i), s.scheduled);
    CancelCutsSlot(s.wheel, id);
    forall e | e in s.scheduled ensures PendingIn(r, n, i)(e) == (OtherThanEntry(x)(e) && PendingIn(s, n, i)(e)) {
      PendingAfterCancel(n, s, id, i, e);
    }
    FilterTwice(OtherThanEntry(x), PendingIn(s, n, i), PendingIn(r, n, i), s.scheduled);
  }

  lemma CancelKeepsOtherSlot(n: nat, s: Sys, id: nat, i: nat)
    requires Inv(n, s) && Found(s.wheel, id) && i < n && i != SlotOf(s.wheel.slots, id)
    ensures var r := Step(n, s, Cancel(id));
            r.wheel.slots[i] == Filter(PendingIn(r, n, i), s.scheduled)
  {
    var r := Step(n, s, Cancel(id));
    FoundIsPending(n, s, id);
    forall e | e in s.scheduled ensures PendingIn(r, n, i)(e) == PendingIn(s, n, i)(e) {
      PendingAfterCancel(n, s, id, i, e);
    }
    FilterSame(PendingIn(r, n, i), PendingIn(s, n, i), s.scheduled);
  }

  lemma CancelKeepsSlot(n: nat, s: Sys, id: nat, i: nat)
    requires Inv(n, s) && Found(s.wheel, id) && i < n
    ensures var r := Step(n, s, Cancel(id));
            r.wheel.slots[i] == Filter(PendingIn(r, n, i), s.scheduled)
  {
    if i == SlotOf(s.wheel.slots, id) {
      CancelKeepsOwnSlot(n, s, id);
    } else {
      CancelKeepsOtherSlot(n, s, id, i);
    }
  }

  lemma CancelKeepsInv(n: nat, s: Sys, id: nat)
    requires Inv(n, s)
    ensures Inv(n, Step(n, s, Cancel(id)))
  {
    if Found(s.wheel, id) {
      FoundIsPending(n, s, id);
      forall i | 0 <= i < n
        ensures var r := Step(n, s, Cancel(id));
                r.wheel.slots[i] == Filter(PendingIn(r, n, i), s.scheduled)
      {
        CancelKeepsSlot(n, s, id, i);
      }
    }
  }

  lemma StepKeepsInv(n: nat, s: Sys, op: Op)
    requires Inv(n, s)
    ensures Inv(n, Step(n, s, op))
  {
    match op
    case Schedule(due, task, skip) => ScheduleKeepsInv(n, s, due, task, skip);
    case Cancel(id) => CancelKeepsInv(n, s, id);
    case Expire(tick) => ExpireKeepsInv(n, s, tick);
  }

  lemma {:induction false} RunKeepsInv(n: nat, s: Sys, ops: seq<Op>)
    requires Inv(n, s)
    ensures Inv(n, Run(n, s, ops))
    decreases ops
  {
    if ops != [] {
      StepKeepsInv(n, s, ops[0]);
      RunKeepsInv(n, Step(n, s, ops[0]), ops[1..]);
    }
  }

  // ----- Conservation -----

  function Occurs(e: Entry, s: seq<Entry>): (k: nat) {
    if s == [] then 0 else (if s[0] == e then 1 else 0) + Occurs(e, s[1..])
  }

  /** How often `e` occurs in the whole wheel. */
  function InWheel(e: Entry, slots: seq<seq<Entry>>): (k: nat) {
    if slots == [] then 0 else Occurs(e, slots[0]) + InWheel(e, slots[1..])
  }

  lemma {:induction false} InWheelUpdate(e: Entry, slots: seq<seq<Entry>>, i: nat, x: seq<Entry>)
    requires i < |slots|
    ensures InWheel(e, slots[i := x]) + Occurs(e, slots[i]) == InWheel(e, slots) + Occurs(e, x)
  {
    if i > 0 {
      InWheelUpdate(e, slots[1..], i - 1, x);
      assert slots[i := x][1..] == slots[1..][i - 1 := x];
    } else {
      assert slots[i := x][1..] == slots[1..];
    }
  }

  lemma {:induction false} CountUpdate(slots: seq<seq<Entry>>, i: nat, x: seq<Entry>)
    requires i < |slots|
    ensures Count(slots[i := x]) + |slots[i]| == Count(slots) + |x|
  {
    if i > 0 {
      CountUpdate(slots[1..], i - 1, x);
      assert slots[i := x][1..] == slots[1..][i - 1 := x];
    } else {
      assert slots[i := x][1..] == slots[1..];
    }
  }

  lemma {:induction false} EmptyWheel(e: Entry, slots: seq<seq<Entry>>)
    requires forall i :: 0 <= i < |slots| ==> slots[i] == []
    ensures InWheel(e, slots) == 0 && Count(slots) == 0
  {
    if slots != [] { EmptyWheel(e, slots[1..]); }
  }

  lemma {:induction false} SweepConserves(e: Entry, slots: seq<seq<Entry>>, c: nat, k: nat)
    requires c < |slots| && k <= |slots|
    ensures InWheel(e, slots) == InWheel(e, Emptied(slots, c, k)) + Occurs(e, Swept(slots, c, k))
  {
    if k > 0 {
      var i := At(|slots|, c, k - 1);
      SweepConserves(e, slots, c, k - 1);
      EmptiedAt(slots, c, k - 1, i);
      InWheelUpdate(e, Emptied(slots, c, k - 1), i, []);
      OccursAppend(e, Swept(slots, c, k - 1), slots[i]);
    }
  }

  lemma {:induction false} SweepCounts(slots: seq<seq<Entry>>, c: nat, k: nat)
    requires c < |slots| && k <= |slots|
    ensures Count(slots) == Count(Emptied(slots, c, k)) + |Swept(slots, c, k)|
  {
    if k > 0 {
      var i := At(|slots|, c, k - 1);
      SweepCounts(slots, c, k - 1);
      EmptiedAt(slots, c, k - 1, i);
      CountUpdate(Emptied(slots, c, k - 1), i, []);
    }
  }

  lemma {:induction false} OccursAppend(e: Entry, a: seq<Entry>, b: seq<Entry>)
    ensures Occurs(e, a + b) == Occurs(e, a) + Occurs(e, b)
  {
    if a == [] {
      assert a + b == b;
    } else {
      OccursAppend(e, a[1..], b);
      assert (a + b)[1..] == a[1..] + b;
    }
  }

  /** How often `e` is accounted for: waiting in the wheel, fired, or cancelled. */
  function Places(s: Sys, e: Entry): (k: nat) {
    InWheel(e, s.wheel.slots) + Occurs(e, s.fired) + Occurs(e, s.cancelled)
  }

  lemma CutOccurs(e: Entry, slot: seq<Entry>, p: nat)
    requires p < |slot|
    ensures Occurs(e, slot) == Occurs(e, slot[..p] + slot[p + 1..]) + if e == slot[p] then 1 else 0
  {
    var a, b := slot[..p], slot[p + 1..];
    assert slot == a + ([slot[p]] + b);
    OccursAppend(e, a, [slot[p]] + b);
    OccursAppend(e, [slot[p]], b);
    OccursAppend(e, a, b);
  }

  lemma CancelConserves(w: Wheel, id: nat, e: Entry)
    requires Found(w, id)
    ensures InWheel(e, w.slots)
         == InWheel(e, Cancelled(w, id).slots) + if e == FoundEntry(w, id) then 1 else 0
  {
    var t := SlotOf(w.slots, id);
    var slot, p := w.slots[t], PositionIn(w.slots[t], id);
    InWheelUpdate(e, w.slots, t, slot[..p] + slot[p + 1..]);
    CutOccurs(e, slot, p);
  }

  /** A step moves entries between the wheel and the lists of the fired and the cancelled. */
  predicate Conserved(s: Sys, e: Entry) {
    Places(s, e) == Occurs(e, s.scheduled)
  }

  lemma ScheduleConserves(n: nat, s: Sys, due: nat, task: nat, skip: nat, e: Entry)
    requires s.wheel.Valid(n) && Conserved(s, e)
    ensures Conserved(Step(n, s, Schedule(due, task, skip)), e)
  {
    var x, slot := Entry(s.nextId + skip, Waker(task, due)), s.wheel.slots[due % n];
    InWheelUpdate(e, s.wheel.slots, due % n, slot + [x]);
    OccursAppend(e, slot, [x]);
    OccursAppend(e, s.scheduled, [x]);
  }

  lemma StepConserves(n: nat, s: Sys, op: Op, e: Entry)
    requires s.wheel.Valid(n) && Conserved(s, e)
    ensures Conserved(Step(n, s, op), e)
  {
    match op
    case Schedule(due, task, skip) => ScheduleConserves(n, s, due, task, skip, e);
    case Cancel(id) =>
      if Found(s.wheel, id) {
        CancelConserves(s.wheel, id, e);
        OccursAppend(e, s.cancelled, [FoundEntry(s.wheel, id)]);
      }
    case Expire(tick) =>
      SweepConserves(e, s.wheel.slots, s.wheel.cursor, Steps(n, s.wheel.cursor, tick));
      OccursAppend(e, s.fired, Fired(s.wheel, tick));
  }

  lemma {:induction false} RunConserves(n: nat, s: Sys, ops: seq<Op>, e: Entry)
    requires s.wheel.Valid(n) && Conserved(s, e)
    ensures Conserved(Run(n, s, ops), e)
    decreases ops
  {
    if ops != [] {
      StepConserves(n, s, ops[0], e);
      RunConserves(n, Step(n, s, ops[0]), ops[1..], e);
    }
  }

  lemma {:induction false} AscendingOnce(s: seq<Entry>, e: Entry)
    requires Ascending(s)
    ensures Occurs(e, s) == if e in s then 1 else 0
  {
    if s != [] {
      AscendingOnce(s[1..], e);
      assert s == [s[0]] + s[1..];
    }
  }

  /** Over every run, in both regimes and whatever the clock does, each scheduled timer is in
      exactly one place: waiting, fired or cancelled. */
  lemma ExactlyOnePlace(n: nat, ops: seq<Op>, e: Entry)
    requires n > 0
    ensures var s := Run(n, Start(n), ops);
            Places(s, e) == if e in s.scheduled then 1 else 0
  {
    StartInv(n);
    RunKeepsInv(n, Start(n), ops);
    EmptyWheel(e, Start(n).wheel.slots);
    RunConserves(n, Start(n), ops, e);
    AscendingOnce(Run(n, Start(n), ops).scheduled, e);
  }

  /** `expire` takes exactly the wakers it reports out of the pending count. */
  lemma ExpireDropsCount(w: Wheel, tick: nat)
    requires w.Valid(|w.slots|)
    ensures Count(Expired(w, tick).slots) + |Fired(w, tick)| == Count(w.slots)
  {
    SweepCounts(w.slots, w.cursor, Steps(|w.slots|, w.cursor, tick));
  }

  /** A full rotation after the start, every call empties the wheel, due or not. */
  lemma PastRotationFiresAll(n: nat, s: Sys, tick: nat)
    requires Inv(n, s) && tick >= n
    ensures Count(Expired(s.wheel, tick).slots) == 0
    ensures forall e :: e in Fired(s.wheel, tick) <==> e in s.scheduled && IsPending(s, e)
  {
    forall i | 0 <= i < n ensures Expired(s.wheel, tick).slots[i] == [] {
      EmptiedAt(s.wheel.slots, s.wheel.cursor, n, i);
    }
    EmptyWheel(Entry(0, Waker(0, 0)), Expired(s.wheel, tick).slots);
    forall e ensures e in Fired(s.wheel, tick) <==> e in s.scheduled && IsPending(s, e) {
      FiresExactly(n, s, tick, e);
    }
  }

  /** `cancel` finds exactly the pending ids. */
  lemma CancelFindsPending(n: nat, s: Sys, id: nat)
    requires Inv(n, s)
    ensures Found(s.wheel, id) <==> exists e :: e in s.scheduled && e.id == id && IsPending(s, e)
  {
    var slots := s.wheel.slots;
    if Found(s.wheel, id) {
      FoundIsPending(n, s, id);
    } else {
      forall e | e in s.scheduled && IsPending(s, e) ensures e.id != id {
        var slot := slots[e.waker.due % n];
        InSlot(n, s, e.waker.due % n, e);
        assert e in slot && PositionIn(slot, id) == |slot|;
      }
    }
  }
}
