/** Within the first rotation the timer wheel refines a plain list of deadlines. */
module TimerRefinement {
  import opened Sequences
  import opened TimerWheels
  import opened TimerRuns

  // ----- The reference: a list in scheduling order, searched and sorted on demand -----

  /** Puts `x` in front of the first element that is not due earlier. */
  function Insert(x: Entry, s: seq<Entry>): (r: seq<Entry>) {
    if s == [] || x.waker.due <= s[0].waker.due then [x] + s else [s[0]] + Insert(x, s[1..])
  }

  /** Stable sort by due tick. */
  function Sorted(s: seq<Entry>): (r: seq<Entry>) {
    if s == [] then [] else Insert(s[0], Sorted(s[1..]))
  }

  datatype Plain = Plain(pending: seq<Entry>, nextId: nat, fired: seq<Entry>, cancelled: seq<Entry>)

  function DueBefore(tick: nat): Entry -> bool {
    (e: Entry) => e.waker.due < tick
  }

  function NotDueBefore(tick: nat): Entry -> bool {
    (e: Entry) => e.waker.due >= tick
  }

  function OtherThan(id: nat): Entry -> bool {
    (e: Entry) => e.id != id
  }

  function WithId(id: nat): Entry -> bool {
    (e: Entry) => e.id == id
  }

  function PlainStep(p: Plain, op: Op): (r: Plain) {
    match op
    case Schedule(due, task, skip) =>
      var e := Entry(p.nextId + skip, Waker(task, due));
      p.(pending := p.pending + [e], nextId := e.id + 1)
    case Cancel(id) =>
      p.(pending := Filter(OtherThan(id), p.pending),
         cancelled := p.cancelled + Filter(WithId(id), p.pending))
    case Expire(tick) =>
      p.(pending := Filter(NotDueBefore(tick), p.pending),
         fired := p.fired + Sorted(Filter(DueBefore(tick), p.pending)))
  }

  function PlainRun(p: Plain, ops: seq<Op>): (r: Plain)
    decreases ops
  {
    if ops == [] then p else PlainRun(PlainStep(p, ops[0]), ops[1..])
  }

  /** Time does not run backwards, stays within one rotation of the start, and no deadline lies
      before the cursor or beyond the rotation when it is scheduled. */
  predicate InRotation(n: nat, cursor: nat, ops: seq<Op>)
    decreases ops
  {
    ops == [] ||
    (OpInRotation(n, cursor, ops[0]) &&
     InRotation(n, if ops[0].Expire? then ops[0].tick else cursor, ops[1..]))
  }

  predicate OpInRotation(n: nat, cursor: nat, op: Op) {
    match op
    case Schedule(due, _, _) => cursor <= due < n
    case Cancel(_) => true
    case Expire(tick) => cursor <= tick < n
  }

  // ----- Sorting is concatenating the buckets -----

  function DueAt(k: nat): Entry -> bool {
    (e: Entry) => e.waker.due == k
  }

  function Buckets(s: seq<Entry>, lo: nat, hi: nat): (r: seq<Entry>)
    requires lo <= hi
    decreases hi
  {
    if lo == hi then [] else Buckets(s, lo, hi - 1) + Filter(DueAt(hi - 1), s)
  }

  lemma {:induction false} BucketsMember(s: seq<Entry>, lo: nat, hi: nat, e: Entry)
    requires lo <= hi
    ensures e in Buckets(s, lo, hi) <==> e in s && lo <= e.waker.due < hi
    decreases hi
  {
    if lo < hi {
      BucketsMember(s, lo, hi - 1, e);
      FilterMember(DueAt(hi - 1), s, e);
    }
  }

  lemma {:induction false} InsertBefore(x: Entry, a: seq<Entry>, b: seq<Entry>)
    requires forall e :: e in b ==> x.waker.due <= e.waker.due
    ensures Insert(x, a + b) == Insert(x, a) + b
  {
    if a == [] {
      assert a + b == b;
    } else if x.waker.due <= a[0].waker.due {
      assert [x] + (a + b) == [x] + a + b;
    } else {
      InsertBefore(x, a[1..], b);
      assert (a + b)[1..] == a[1..] + b;
    }
  }

  lemma {:induction false} InsertLast(x: Entry, a: seq<Entry>)
    requires forall e :: e in a ==> e.waker.due < x.waker.due
    ensures Insert(x, a) == a + [x]
  {
    if a != [] { InsertLast(x, a[1..]); }
  }

  /** Two lists with the same buckets have the same concatenation of buckets. */
  lemma {:induction false} BucketsSame(s: seq<Entry>, t: seq<Entry>, lo: nat, hi: nat)
    requires lo <= hi
    requires forall k :: lo <= k < hi ==> Filter(DueAt(k), s) == Filter(DueAt(k), t)
    ensures Buckets(s, lo, hi) == Buckets(t, lo, hi)
    decreases hi
  {
    if lo < hi { BucketsSame(s, t, lo, hi - 1); }
  }

  /** Buckets below the due tick of `x` do not see it. */
  lemma BucketsBelow(x: Entry, s: seq<Entry>, lo: nat, hi: nat)
    requires lo <= hi <= x.waker.due
    ensures Buckets([x] + s, lo, hi) == Buckets(s, lo, hi)
    ensures Insert(x, Buckets(s, lo, hi)) == Buckets(s, lo, hi) + [x]
  {
    forall k | lo <= k < hi ensures Filter(DueAt(k), [x] + s) == Filter(DueAt(k), s) {
      FilterCons(DueAt(k), x, s);
    }
    BucketsSame([x] + s, s, lo, hi);
    forall e | e in Buckets(s, lo, hi) ensures e.waker.due < x.waker.due {
      BucketsMember(s, lo, hi, e);
    }
    InsertLast(x, Buckets(s, lo, hi));
  }

  lemma InsertSplit(x: Entry, s: seq<Entry>, lo: nat, hi: nat)
    requires lo < hi && x.waker.due < hi
    ensures Insert(x, Buckets(s, lo, hi))
         == Insert(x, Buckets(s, lo, hi - 1)) + Filter(DueAt(hi - 1), s)
  {
    var last := Filter(DueAt(hi - 1), s);
    forall e | e in last ensures x.waker.due <= e.waker.due {
      FilterMember(DueAt(hi - 1), s, e);
    }
    InsertBefore(x, Buckets(s, lo, hi - 1), last);
  }

  lemma BucketsConsLast(x: Entry, s: seq<Entry>, lo: nat)
    requires lo <= x.waker.due
    ensures var k := x.waker.due;
            Buckets([x] + s, lo, k + 1) == Buckets(s, lo, k) + [x] + Filter(DueAt(k), s)
  {
    BucketsBelow(x, s, lo, x.waker.due);
    FilterCons(DueAt(x.waker.due), x, s);
    Regroup(Buckets(s, lo, x.waker.due), x, Filter(DueAt(x.waker.due), s));
  }

  lemma Regroup(a: seq<Entry>, x: Entry, b: seq<Entry>)
    ensures a + ([x] + b) == a + [x] + b
  {
  }

  lemma InsertSplitLast(x: Entry, s: seq<Entry>, lo: nat)
    requires lo <= x.waker.due
    ensures var k := x.waker.due;
            Insert(x, Buckets(s, lo, k + 1)) == Buckets(s, lo, k) + [x] + Filter(DueAt(k), s)
  {
    InsertSplit(x, s, lo, x.waker.due + 1);
    BucketsBelow(x, s, lo, x.waker.due);
  }

  lemma BucketsAdd(x: Entry, s: seq<Entry>, lo: nat, hi: nat)
    requires lo < hi && x.waker.due < hi - 1
    ensures Buckets([x] + s, lo, hi) == Buckets([x] + s, lo, hi - 1) + Filter(DueAt(hi - 1), s)
  {
    FilterCons(DueAt(hi - 1), x, s);
  }

  lemma {:induction false} BucketsCons(x: Entry, s: seq<Entry>, lo: nat, hi: nat)
    requires lo <= x.waker.due < hi
    ensures Buckets([x] + s, lo, hi) == Insert(x, Buckets(s, lo, hi))
    decreases hi
  {
    if x.waker.due == hi - 1 {
      BucketsConsLast(x, s, lo);
      InsertSplitLast(x, s, lo);
    } else {
      BucketsCons(x, s, lo, hi - 1);
      InsertSplit(x, s, lo, hi);
      BucketsAdd(x, s, lo, hi);
    }
  }

  lemma {:induction false} NoBuckets(lo: nat, hi: nat)
    requires lo <= hi
    ensures Buckets([], lo, hi) == []
    decreases hi
  {
    if lo < hi { NoBuckets(lo, hi - 1); }
  }

  lemma {:induction false} SortedIsBuckets(s: seq<Entry>, lo: nat, hi: nat)
    requires lo <= hi && forall e :: e in s ==> lo <= e.waker.due < hi
    ensures Sorted(s) == Buckets(s, lo, hi)
  {
    if s == [] {
      NoBuckets(lo, hi);
    } else {
      SortedIsBuckets(s[1..], lo, hi);
      BucketsCons(s[0], s[1..], lo, hi);
      assert s == [s[0]] + s[1..];
    }
  }

  // ----- The wheel and the list agree -----

  function Pending(s: Sys): Entry -> bool {
    (e: Entry) => IsPending(s, e)
  }

  function PendingList(s: Sys): (r: seq<Entry>) {
    Filter(Pending(s), s.scheduled)
  }

  ghost predicate Agree(n: nat, s: Sys, p: Plain) {
    && Inv(n, s)
    && p == Plain(PendingList(s), s.nextId, s.fired, s.cancelled)
    && forall e :: e in p.pending ==> s.wheel.cursor <= e.waker.due < n
  }

  /** Within the rotation a slot is a bucket of the list. */
  lemma SlotIsBucket(n: nat, s: Sys, p: Plain, i: nat)
    requires Agree(n, s, p) && i < n
    ensures s.wheel.slots[i] == Filter(DueAt(i), p.pending)
  {
    forall e | e in s.scheduled
      ensures PendingIn(s, n, i)(e) == (DueAt(i)(e) && Pending(s)(e))
    {
      FilterMember(Pending(s), s.scheduled, e);
      if Pending(s)(e) { SmallMod(e.waker.due, n); }
    }
    FilterTwice(DueAt(i), Pending(s), PendingIn(s, n, i), s.scheduled);
  }

  lemma SmallMod(a: nat, n: nat)
    requires a < n
    ensures a % n == a
  {
  }

  lemma {:induction false} SweptIsBuckets(slots: seq<seq<Entry>>, c: nat, k: nat, s: seq<Entry>)
    requires c < |slots| && c + k <= |slots|
    requires forall i :: c <= i < c + k ==> slots[i] == Filter(DueAt(i), s)
    ensures Swept(slots, c, k) == Buckets(s, c, c + k)
    decreases k
  {
    if k > 0 {
      SweptIsBuckets(slots, c, k - 1, s);
      assert At(|slots|, c, k - 1) == c + k - 1;
    }
  }

  lemma BucketsOfDue(s: seq<Entry>, lo: nat, hi: nat)
    requires lo <= hi
    ensures Buckets(Filter(DueBefore(hi), s), lo, hi) == Buckets(s, lo, hi)
  {
    forall k | lo <= k < hi
      ensures Filter(DueAt(k), Filter(DueBefore(hi), s)) == Filter(DueAt(k), s)
    {
      FilterTwice(DueAt(k), DueBefore(hi), DueAt(k), s);
    }
    BucketsSame(Filter(DueBefore(hi), s), s, lo, hi);
  }

  lemma FiredIsBuckets(w: Wheel, n: nat, s: seq<Entry>, tick: nat)
    requires w.Valid(n) && w.cursor <= tick < n
    requires forall i :: 0 <= i < n ==> w.slots[i] == Filter(DueAt(i), s)
    ensures Fired(w, tick) == Buckets(s, w.cursor, tick)
  {
    var k := tick - w.cursor;
    assert Fired(w, tick) == Swept(w.slots, w.cursor, k);
    SweptIsBuckets(w.slots, w.cursor, k, s);
  }

  /** One `expire` call fires exactly the due timers of the list, in the list's sorted order. */
  lemma ExpireFiresDue(n: nat, s: Sys, p: Plain, tick: nat)
    requires Agree(n, s, p) && s.wheel.cursor <= tick < n
    ensures Fired(s.wheel, tick) == Sorted(Filter(DueBefore(tick), p.pending))
  {
    FilterMembers(DueBefore(tick), p.pending);
    SortedIsBuckets(Filter(DueBefore(tick), p.pending), s.wheel.cursor, tick);
    BucketsOfDue(p.pending, s.wheel.cursor, tick);
    forall i | 0 <= i < n ensures s.wheel.slots[i] == Filter(DueAt(i), p.pending) {
      SlotIsBucket(n, s, p, i);
    }
    FiredIsBuckets(s.wheel, n, p.pending, tick);
  }

  lemma FiresInRotation(n: nat, s: Sys, p: Plain, tick: nat, e: Entry)
    requires Agree(n, s, p) && s.wheel.cursor <= tick < n && e in s.scheduled && IsPending(s, e)
    ensures e in Fired(s.wheel, tick) <==> e.waker.due < tick
  {
    FilterMember(Pending(s), s.scheduled, e);
    SmallMod(e.waker.due, n);
    FiresExactly(n, s, tick, e);
  }

  lemma ExpireKeepsRest(n: nat, s: Sys, p: Plain, tick: nat)
    requires Agree(n, s, p) && s.wheel.cursor <= tick < n
    ensures PendingList(Step(n, s, Expire(tick))) == Filter(NotDueBefore(tick), p.pending)
  {
    var r := Step(n, s, Expire(tick));
    forall e | e in s.scheduled
      ensures Pending(r)(e) == (NotDueBefore(tick)(e) && Pending(s)(e))
    {
      if IsPending(s, e) { FiresInRotation(n, s, p, tick, e); }
    }
    FilterTwice(NotDueBefore(tick), Pending(s), Pending(r), s.scheduled);
  }

  lemma ExpireAgrees(n: nat, s: Sys, p: Plain, tick: nat)
    requires Agree(n, s, p) && s.wheel.cursor <= tick < n
    ensures Agree(n, Step(n, s, Expire(tick)), PlainStep(p, Expire(tick)))
  {
    ExpireFiresDue(n, s, p, tick);
    ExpireKeepsRest(n, s, p, tick);
    ExpireKeepsInv(n, s, tick);
    FilterMembers(NotDueBefore(tick), p.pending);
  }

  lemma ScheduleAgrees(n: nat, s: Sys, p: Plain, op: Op)
    requires Agree(n, s, p) && op.Schedule? && s.wheel.cursor <= op.due < n
    ensures Agree(n, Step(n, s, op), PlainStep(p, op))
  {
    var r := Step(n, s, op);
    ScheduleKeepsInv(n, s, op.due, op.task, op.skip);
    FilterAppend(Pending(r), s.scheduled, [r.scheduled[|s.scheduled|]]);
    FilterSame(Pending(r), Pending(s), s.scheduled);
  }

  lemma {:induction false} FilterWithId(s: seq<Entry>, x: Entry)
    requires Ascending(s) && x in s
    ensures Filter(WithId(x.id), s) == [x]
  {
    if s[0] == x {
      FilterNone(WithId(x.id), s[1..]);
    } else {
      FilterWithId(s[1..], x);
    }
  }

  lemma SameIdSame(s: seq<Entry>, a: Entry, b: Entry)
    requires Ascending(s) && a in s && b in s && a.id == b.id
    ensures a == b
  {
    var i :| 0 <= i < |s| && s[i] == a;
    var j :| 0 <= j < |s| && s[j] == b;
  }

  lemma CancelAgrees(n: nat, s: Sys, p: Plain, id: nat)
    requires Agree(n, s, p)
    ensures Agree(n, Step(n, s, Cancel(id)), PlainStep(p, Cancel(id)))
  {
    var r := Step(n, s, Cancel(id));
    CancelKeepsInv(n, s, id);
    CancelFindsPending(n, s, id);
    FilterMembers(Pending(s), s.scheduled);
    FilterMembers(OtherThan(id), p.pending);
    if Found(s.wheel, id) {
      var x := FoundEntry(s.wheel, id);
      FoundIsPending(n, s, id);
      FilterAscending(Pending(s), s.scheduled);
      FilterWithId(p.pending, x);
      forall e | e in s.scheduled ensures Pending(r)(e) == (OtherThan(id)(e) && Pending(s)(e)) {
        if e.id == id { SameIdSame(s.scheduled, e, x); }
      }
      FilterTwice(OtherThan(id), Pending(s), Pending(r), s.scheduled);
    } else {
      FilterNone(WithId(id), p.pending);
      FilterAll(OtherThan(id), p.pending);
    }
  }

  lemma StepAgrees(n: nat, s: Sys, p: Plain, op: Op)
    requires Agree(n, s, p) && OpInRotation(n, s.wheel.cursor, op)
    ensures Agree(n, Step(n, s, op), PlainStep(p, op))
  {
    match op
    case Schedule(_, _, _) => ScheduleAgrees(n, s, p, op);
    case Cancel(id) => CancelAgrees(n, s, p, id);
    case Expire(tick) => ExpireAgrees(n, s, p, tick);
  }

  lemma {:induction false} AgreeFrom(n: nat, s: Sys, p: Plain, ops: seq<Op>)
    requires Agree(n, s, p) && InRotation(n, s.wheel.cursor, ops)
    ensures Agree(n, Run(n, s, ops), PlainRun(p, ops))
    decreases ops
  {
    if ops != [] {
      StepAgrees(n, s, p, ops[0]);
      AgreeFrom(n, Step(n, s, ops[0]), PlainStep(p, ops[0]), ops[1..]);
    }
  }

  /** The refinement: at every point of every run within the first rotation the wheel has fired the
      same timers in the same order as the list, and cancelled the same ones. */
  lemma RefinesPlainList(n: nat, ops: seq<Op>)
    requires n > 0 && InRotation(n, 0, ops)
    ensures var s, p := Run(n, Start(n), ops), PlainRun(Plain([], 1, [], []), ops);
            s.fired == p.fired && s.cancelled == p.cancelled && PendingList(s) == p.pending
  {
    StartInv(n);
    AgreeFrom(n, Start(n), Plain([], 1, [], []), ops);
  }

  // ----- The order of everything a run fires -----

  function Kept(s: Sys): Entry -> bool {
    (e: Entry) => e !in s.cancelled
  }

  function KeptList(s: Sys): (r: seq<Entry>) {
    Filter(Kept(s), s.scheduled)
  }

  ghost predicate FiredInOrder(s: Sys) {
    s.fired == Buckets(KeptList(s), 0, s.wheel.cursor)
  }

  lemma {:induction false} BucketsSplit(s: seq<Entry>, lo: nat, mid: nat, hi: nat)
    requires lo <= mid <= hi
    ensures Buckets(s, lo, hi) == Buckets(s, lo, mid) + Buckets(s, mid, hi)
    decreases hi
  {
    if mid < hi { BucketsSplit(s, lo, mid, hi - 1); }
  }

  /** Buckets at or past the cursor hold the same timers in the kept and in the pending list. */
  lemma KeptIsPending(n: nat, s: Sys, p: Plain, hi: nat)
    requires Agree(n, s, p) && FiredInOrder(s) && s.wheel.cursor <= hi
    ensures Buckets(KeptList(s), s.wheel.cursor, hi) == Buckets(p.pending, s.wheel.cursor, hi)
  {
    var c := s.wheel.cursor;
    forall k | c <= k < hi ensures Filter(DueAt(k), KeptList(s)) == Filter(DueAt(k), p.pending) {
      var both := (e: Entry) => e.waker.due == k && e !in s.cancelled;
      forall e | e in s.scheduled && both(e) ensures e !in s.fired {
        BucketsMember(KeptList(s), 0, c, e);
      }
      FilterTwice(DueAt(k), Kept(s), both, s.scheduled);
      FilterTwice(DueAt(k), Pending(s), both, s.scheduled);
    }
    BucketsSame(KeptList(s), p.pending, c, hi);
  }

  lemma ExpireKeepsOrder(n: nat, s: Sys, p: Plain, tick: nat)
    requires Agree(n, s, p) && FiredInOrder(s) && s.wheel.cursor <= tick < n
    ensures FiredInOrder(Step(n, s, Expire(tick)))
  {
    var r := Step(n, s, Expire(tick));
    forall i | 0 <= i < n ensures s.wheel.slots[i] == Filter(DueAt(i), p.pending) {
      SlotIsBucket(n, s, p, i);
    }
    FiredIsBuckets(s.wheel, n, p.pending, tick);
    KeptIsPending(n, s, p, tick);
    BucketsSplit(KeptList(s), 0, s.wheel.cursor, tick);
    FilterSame(Kept(r), Kept(s), s.scheduled);
  }

  lemma ScheduleKeepsOrder(n: nat, s: Sys, p: Plain, op: Op)
    requires Agree(n, s, p) && FiredInOrder(s) && op.Schedule? && s.wheel.cursor <= op.due
    ensures FiredInOrder(Step(n, s, op))
  {
    var r := Step(n, s, op);
    var e := r.scheduled[|s.scheduled|];
    FilterSame(Kept(r), Kept(s), s.scheduled);
    FilterAppend(Kept(r), s.scheduled, [e]);
    forall k | 0 <= k < s.wheel.cursor
      ensures Filter(DueAt(k), KeptList(s)) == Filter(DueAt(k), KeptList(r))
    {
      FilterAppend(DueAt(k), KeptList(s), Filter(Kept(r), [e]));
    }
    BucketsSame(KeptList(s), KeptList(r), 0, s.wheel.cursor);
  }

  lemma CancelKeepsOrder(n: nat, s: Sys, p: Plain, id: nat)
    requires Agree(n, s, p) && FiredInOrder(s)
    ensures FiredInOrder(Step(n, s, Cancel(id)))
  {
    var r := Step(n, s, Cancel(id));
    if Found(s.wheel, id) {
      var x := FoundEntry(s.wheel, id);
      FoundIsPending(n, s, id);
      FilterMember(Pending(s), s.scheduled, x);
      forall k | 0 <= k < s.wheel.cursor
        ensures Filter(DueAt(k), KeptList(s)) == Filter(DueAt(k), KeptList(r))
      {
        var both := (e: Entry) => e.waker.due == k && e !in s.cancelled;
        FilterTwice(DueAt(k), Kept(s), both, s.scheduled);
        FilterTwice(DueAt(k), Kept(r), both, s.scheduled);
      }
      BucketsSame(KeptList(s), KeptList(r), 0, s.wheel.cursor);
    }
  }

  lemma {:induction false} OrderFrom(n: nat, s: Sys, p: Plain, ops: seq<Op>)
    requires Agree(n, s, p) && FiredInOrder(s) && InRotation(n, s.wheel.cursor, ops)
    ensures FiredInOrder(Run(n, s, ops))
    decreases ops
  {
    if ops != [] {
      StepAgrees(n, s, p, ops[0]);
      match ops[0] {
        case Schedule(_, _, _) => ScheduleKeepsOrder(n, s, p, ops[0]);
        case Cancel(id) => CancelKeepsOrder(n, s, p, id);
        case Expire(tick) => ExpireKeepsOrder(n, s, p, tick);
      }
      OrderFrom(n, Step(n, s, ops[0]), PlainStep(p, ops[0]), ops[1..]);
    }
  }

  /** Everything a run within the first rotation fires, all calls together, is the stable sort by
      tick of the scheduled and not cancelled timers whose tick the cursor has passed. */
  lemma FiredIsSorted(n: nat, ops: seq<Op>)
    requires n > 0 && InRotation(n, 0, ops)
    ensures var s := Run(n, Start(n), ops);
            s.fired == Sorted(Filter(DueBefore(s.wheel.cursor), KeptList(s)))
  {
    StartInv(n);
    OrderFrom(n, Start(n), Plain([], 1, [], []), ops);
    var s := Run(n, Start(n), ops);
    var c := s.wheel.cursor;
    FilterMembers(DueBefore(c), KeptList(s));
    SortedIsBuckets(Filter(DueBefore(c), KeptList(s)), 0, c);
    BucketsOfDue(KeptList(s), 0, c);
  }

  // ----- Exactly which deadlines the wheel serves on time -----

  /** The cursor is where the last call of `expire`, in tick `last`, left it, as long as the rotation lasts. */
  predicate LastTick(n: nat, s: Sys, last: nat) {
    last < n ==> s.wheel.cursor == last
  }

  /** A clock that does not run back, whatever is scheduled and cancelled between the calls of `expire`. */
  predicate ForwardFrom(last: nat, ops: seq<Op>)
    decreases ops
  {
    ops == [] ||
    if ops[0].Expire? then last <= ops[0].tick && ForwardFrom(ops[0].tick, ops[1..])
    else ForwardFrom(last, ops[1..])
  }

  function Later(last: nat, op: Op): (t: nat) {
    if op.Expire? then op.tick else last
  }

  function LastOf(last: nat, ops: seq<Op>): (t: nat)
    decreases ops
  {
    if ops == [] then last else LastOf(Later(last, ops[0]), ops[1..])
  }

  /** In every run with such a clock `LastTick` holds of the tick of the last call, or of 0. */
  lemma {:induction false} RunLastTick(n: nat, s: Sys, ops: seq<Op>, last: nat)
    requires s.wheel.Valid(n) && LastTick(n, s, last) && ForwardFrom(last, ops)
    ensures LastTick(n, Run(n, s, ops), LastOf(last, ops))
    decreases ops
  {
    if ops != [] {
      RunLastTick(n, Step(n, s, ops[0]), ops[1..], Later(last, ops[0]));
    }
  }

  /** Which of the operations fires the pending timer `e`; the number of operations if none does. */
  function FiredIn(n: nat, s: Sys, e: Entry, ops: seq<Op>): (i: nat)
    requires s.wheel.Valid(n)
    ensures i <= |ops|
    decreases ops
  {
    if ops == [] || (ops[0].Expire? && e in Fired(s.wheel, ops[0].tick)) then 0
    else 1 + FiredIn(n, Step(n, s, ops[0]), e, ops[1..])
  }

  /** Which of them is the first call of `expire` in a later tick than `due`. */
  function DueBy(due: nat, ops: seq<Op>): (i: nat)
    ensures i <= |ops|
  {
    if ops == [] || (ops[0].Expire? && due < ops[0].tick) then 0 else 1 + DueBy(due, ops[1..])
  }

  /** What a caller can check before scheduling: in the first rotation the deadline lies in it and not
      before the last call; later it lies before the last call, so that it is overdue at once. */
  predicate Servable(n: nat, last: nat, due: nat) {
    if last < n then last <= due < n else due < last
  }

  /** What one call of `expire` does to a timer. */
  lemma FiresAt(n: nat, s: Sys, e: Entry, last: nat, tick: nat)
    requires Inv(n, s) && e in s.scheduled && IsPending(s, e) && LastTick(n, s, last) && last <= tick
    ensures tick >= n ==> e in Fired(s.wheel, tick)
    ensures last <= e.waker.due < n && tick < n ==> (e in Fired(s.wheel, tick) <==> e.waker.due < tick)
    ensures tick == last < n ==> e !in Fired(s.wheel, tick)
  {
    FiresExactly(n, s, tick, e);
    if e.waker.due < n { SmallMod(e.waker.due, n); }
  }

  /** An operation that neither fires nor cancels a timer leaves it pending. */
  lemma StaysPending(n: nat, s: Sys, e: Entry, op: Op)
    requires Inv(n, s) && e in s.scheduled && IsPending(s, e) && op != Cancel(e.id)
    requires op.Expire? ==> e !in Fired(s.wheel, op.tick)
    ensures var r := Step(n, s, op); Inv(n, r) && e in r.scheduled && IsPending(r, e)
  {
    StepKeepsInv(n, s, op);
    if op.Cancel? && Found(s.wheel, op.id) { FoundIsPending(n, s, op.id); }
  }

  lemma {:induction false} ServedOnTime(n: nat, s: Sys, e: Entry, last: nat, ops: seq<Op>)
    requires Inv(n, s) && e in s.scheduled && IsPending(s, e) && LastTick(n, s, last)
    requires Servable(n, last, e.waker.due) && ForwardFrom(last, ops) && Cancel(e.id) !in ops
    ensures FiredIn(n, s, e, ops) == DueBy(e.waker.due, ops)
    decreases ops
  {
    if ops != [] {
      if ops[0].Expire? { FiresAt(n, s, e, last, ops[0].tick); }
      if !(ops[0].Expire? && e in Fired(s.wheel, ops[0].tick)) {
        StaysPending(n, s, e, ops[0]);
        ServedOnTime(n, Step(n, s, ops[0]), e, Later(last, ops[0]), ops[1..]);
      }
    }
  }

  /** Otherwise one call is enough to see it: a deadline before the last call is missed by a call in the
      same tick, and one beyond the rotation is fired early by the first call that leaves it. */
  lemma NotServedOnTime(n: nat, s: Sys, e: Entry, last: nat) returns (ops: seq<Op>)
    requires Inv(n, s) && e in s.scheduled && IsPending(s, e) && LastTick(n, s, last)
    requires !Servable(n, last, e.waker.due)
    ensures ForwardFrom(last, ops) && (ops == [Expire(last)] || (last < n && ops == [Expire(n)]))
    ensures FiredIn(n, s, e, ops) != DueBy(e.waker.due, ops)
  {
    var tick := if e.waker.due < last || last >= n then last else n;
    FiresAt(n, s, e, last, tick);
    ops := [Expire(tick)];
    assert ForwardFrom(tick, []);
  }

  /** In every continuation with such a clock that does not cancel it, the timer fires in the first call of
      `expire` in a later tick. */
  ghost predicate OnTime(n: nat, s: Sys, e: Entry, last: nat)
    requires s.wheel.Valid(n)
  {
    forall ops :: ForwardFrom(last, ops) && Cancel(e.id) !in ops ==>
      FiredIn(n, s, e, ops) == DueBy(e.waker.due, ops)
  }

  /** From any reachable state, a pending timer is on time if and only if its deadline is servable there. */
  lemma OnTimeIff(n: nat, s: Sys, e: Entry, last: nat)
    requires Inv(n, s) && e in s.scheduled && IsPending(s, e) && LastTick(n, s, last)
    ensures OnTime(n, s, e, last) <==> Servable(n, last, e.waker.due)
  {
    if Servable(n, last, e.waker.due) {
      forall ops | ForwardFrom(last, ops) && Cancel(e.id) !in ops
        ensures FiredIn(n, s, e, ops) == DueBy(e.waker.due, ops)
      {
        ServedOnTime(n, s, e, last, ops);
      }
    } else {
      var ops := NotServedOnTime(n, s, e, last);
    }
  }

  /** The same for the timer a `schedule` call has just entered, over every run with such a clock. */
  lemma ScheduledOnTimeIff(n: nat, ops: seq<Op>, due: nat, task: nat, skip: nat)
    requires n > 0 && ForwardFrom(0, ops)
    ensures var s := Run(n, Start(n), ops);
            var r := Step(n, s, Schedule(due, task, skip));
            var e := Entry(s.nextId + skip, Waker(task, due));
            OnTime(n, r, e, LastOf(0, ops)) <==> Servable(n, LastOf(0, ops), due)
  {
    var s := Run(n, Start(n), ops);
    StartInv(n);
    RunKeepsInv(n, Start(n), ops);
    RunLastTick(n, Start(n), ops, 0);
    ScheduleKeepsInv(n, s, due, task, skip);
    OnTimeIff(n, Step(n, s, Schedule(due, task, skip)), Entry(s.nextId + skip, Waker(task, due)), LastOf(0, ops));
  }
}
