/** The bucketed timer wheel of `src/timer/mod.rs`: what a wheel is, what its operations do to it,
    and the class that performs them in place. */
module TimerWheels {

  /** Nanoseconds on the monotonic clock. */
  type Instant = int

  const NANOS_PER_MS := 1_000_000

  /** A waker names the task it wakes. `due` is the tick its owner asked for: a label the wheel
      stores with the waker and never reads. */
  datatype Waker = Waker(task: nat, due: nat)

  datatype Entry = Entry(id: nat, waker: Waker)

  datatype Wheel = Wheel(slots: seq<seq<Entry>>, cursor: nat) {
    predicate Valid(n: nat) {
      |slots| == n && cursor < n
    }
  }

  /** Whole resolution steps from `start` to `at`; an instant before `start` counts as tick 0. */
  function TickOf(start: Instant, resolutionMs: nat, at: Instant): (t: nat)
    requires resolutionMs > 0
  {
    (if at < start then 0 else at - start) / NANOS_PER_MS / resolutionMs
  }

  /** How far `to` lies ahead of `from` on a circle of `n` slots. */
  function Distance(n: nat, from: nat, to: nat): (d: nat)
    requires from < n && to < n
    ensures d < n && At(n, from, d) == to
  {
    if to >= from then to - from else to + n - from
  }

  /** The slot reached from `from` after `k` steps. */
  function At(n: nat, from: nat, k: nat): (s: nat)
    requires from < n && k <= n
    ensures s < n
  {
    if from + k < n then from + k else from + k - n
  }

  /** How many different slots `expire` visits. */
  function Steps(n: nat, cursor: nat, tick: nat): (k: nat)
    requires cursor < n
    ensures k <= n
  {
    if tick >= n then n else Distance(n, cursor, tick)
  }

  /** The contents of the first `k` slots from `c` on, in visiting order. */
  function Swept(slots: seq<seq<Entry>>, c: nat, k: nat): (r: seq<Entry>)
    requires c < |slots| && k <= |slots|
  {
    if k == 0 then [] else Swept(slots, c, k - 1) + slots[At(|slots|, c, k - 1)]
  }

  /** The same slots afterwards. */
  function Emptied(slots: seq<seq<Entry>>, c: nat, k: nat): (r: seq<seq<Entry>>)
    requires c < |slots| && k <= |slots|
    ensures |r| == |slots|
  {
    if k == 0 then slots else Emptied(slots, c, k - 1)[At(|slots|, c, k - 1) := []]
  }

  lemma {:induction false} EmptiedAt(slots: seq<seq<Entry>>, c: nat, k: nat, i: nat)
    requires c < |slots| && k <= |slots| && i < |slots|
    ensures Emptied(slots, c, k)[i] == if Distance(|slots|, c, i) < k then [] else slots[i]
  {
    if k > 0 { EmptiedAt(slots, c, k - 1, i); }
  }

  function Expired(w: Wheel, tick: nat): (r: Wheel)
    requires w.Valid(|w.slots|)
    ensures r.Valid(|w.slots|)
  {
    var n := |w.slots|;
    Wheel(Emptied(w.slots, w.cursor, Steps(n, w.cursor, tick)),
          if tick >= n then At(n, w.cursor, 1) else tick)
  }

  function Fired(w: Wheel, tick: nat): (r: seq<Entry>)
    requires w.Valid(|w.slots|)
  {
    Swept(w.slots, w.cursor, Steps(|w.slots|, w.cursor, tick))
  }

  function Scheduled(w: Wheel, tick: nat, e: Entry): (r: Wheel)
    requires w.Valid(|w.slots|)
    ensures r.Valid(|w.slots|)
  {
    var s := tick % |w.slots|;
    w.(slots := w.slots[s := w.slots[s] + [e]])
  }

  /** The first position of `id` in a slot, or the slot's length. */
  function PositionIn(slot: seq<Entry>, id: nat): (p: nat)
    ensures p <= |slot|
    ensures forall i :: 0 <= i < p ==> slot[i].id != id
    ensures p < |slot| ==> slot[p].id == id
  {
    if slot == [] || slot[0].id == id then 0 else 1 + PositionIn(slot[1..], id)
  }

  /** The first slot that holds `id`, or the number of slots. */
  function SlotOf(slots: seq<seq<Entry>>, id: nat): (s: nat)
    ensures s <= |slots|
    ensures forall i :: 0 <= i < s ==> PositionIn(slots[i], id) == |slots[i]|
    ensures s < |slots| ==> PositionIn(slots[s], id) < |slots[s]|
  {
    if slots == [] || PositionIn(slots[0], id) < |slots[0]| then 0 else 1 + SlotOf(slots[1..], id)
  }

  predicate Found(w: Wheel, id: nat) {
    SlotOf(w.slots, id) < |w.slots|
  }

  function FoundEntry(w: Wheel, id: nat): (e: Entry)
    requires Found(w, id)
  {
    var s := SlotOf(w.slots, id);
    w.slots[s][PositionIn(w.slots[s], id)]
  }

  function Cancelled(w: Wheel, id: nat): (r: Wheel)
    ensures |r.slots| == |w.slots| && r.cursor == w.cursor
  {
    if !Found(w, id) then w
    else
      var s := SlotOf(w.slots, id);
      var p := PositionIn(w.slots[s], id);
      w.(slots := w.slots[s := w.slots[s][..p] + w.slots[s][p + 1..]])
  }

  function Count(slots: seq<seq<Entry>>): (c: nat) {
    if slots == [] then 0 else |slots[0]| + Count(slots[1..])
  }

  function Wakers(es: seq<Entry>): (r: seq<Waker>)
    ensures |r| == |es|
  {
    seq(|es|, i requires 0 <= i < |es| => es[i].waker)
  }

  lemma {:induction false} CountUpTo(slots: seq<seq<Entry>>, k: nat)
    requires k < |slots|
    ensures Count(slots[..k + 1]) == Count(slots[..k]) + |slots[k]|
  {
    if k > 0 {
      CountUpTo(slots[1..], k - 1);
      assert slots[..k + 1][1..] == slots[1..][..k] && slots[..k][1..] == slots[1..][..k - 1];
    } else {
      assert slots[..1] == [slots[0]];
    }
  }

  lemma SweepNext(slots: seq<seq<Entry>>, c: nat, k: nat)
    requires c < |slots| && k < |slots|
    ensures var s := At(|slots|, c, k);
            && Emptied(slots, c, k)[s] == slots[s]
            && Wakers(Swept(slots, c, k + 1)) == Wakers(Swept(slots, c, k)) + Wakers(slots[s])
  {
    EmptiedAt(slots, c, k, At(|slots|, c, k));
  }

  lemma NextSlot(n: nat, s: nat)
    requires s < n
    ensures (s + 1) % n == At(n, s, 1)
  {
  }

  /** After a full turn the next slot is the first one again, and it is empty. */
  lemma SweepAgain(slots: seq<seq<Entry>>, c: nat)
    requires c < |slots|
    ensures Emptied(slots, c, |slots|)[c] == []
    ensures Emptied(slots, c, |slots|)[c := []] == Emptied(slots, c, |slots|)
  {
    EmptiedAt(slots, c, |slots|, c);
  }

  /** A cursor that has reached its target has taken all steps. */
  lemma AllSteps(n: nat, c: nat, tick: nat, k: nat)
    requires c < n && tick < n && k <= Steps(n, c, tick) && At(n, c, k) == tick
    ensures k == Steps(n, c, tick)
  {
  }

  lemma TargetSlot(n: nat, tick: nat)
    requires n > 0
    ensures tick % n < n && (tick < n ==> tick % n == tick)
  {
  }

  class TimerWheel {
    var slots: seq<seq<Entry>>
    const resolutionMs: nat
    const numSlots: nat
    var currentSlot: nat
    const startTime: Instant

    predicate Valid()
      reads this
    {
      resolutionMs > 0 && numSlots > 0 && View().Valid(numSlots)
    }

    function View(): (w: Wheel)
      reads this
    {
      Wheel(slots, currentSlot)
    }

    function Tick(at: Instant): (t: nat)
      requires resolutionMs > 0
    {
      TickOf(startTime, resolutionMs, at)
    }

    constructor (numSlots: nat, resolutionMs: nat, now: Instant)
      requires numSlots > 0 && resolutionMs > 0
      ensures Valid() && this.numSlots == numSlots
      ensures this.resolutionMs == resolutionMs && startTime == now
      ensures View() == Wheel(seq(numSlots, _ => []), 0)
    {
      this.numSlots, this.resolutionMs, startTime := numSlots, resolutionMs, now;
      currentSlot := 0;
      var empty: seq<seq<Entry>> := [];
      for i := 0 to numSlots
        invariant empty == seq(i, _ => [])
      {
        empty := empty + [[]];
      }
      slots := empty;
    }

    /** `id` is the number the process-wide timer counter hands out for this call. */
    method Schedule(at: Instant, id: nat, waker: Waker) returns (timerId: nat)
      requires Valid()
      modifies this`slots
      ensures Valid() && timerId == id
      ensures View() == Scheduled(old(View()), Tick(at), Entry(id, waker))
    {
      var slotIndex := Tick(at) % numSlots;
      slots := slots[slotIndex := slots[slotIndex] + [Entry(id, waker)]];
      timerId := id;
    }

    method Cancel(id: nat) returns (found: bool)
      requires Valid()
      modifies this`slots
      ensures Valid() && found == Found(old(View()), id)
      ensures View() == Cancelled(old(View()), id)
    {
      for s := 0 to |slots|
        invariant slots == old(slots)
        invariant forall i :: 0 <= i < s ==> PositionIn(slots[i], id) == |slots[i]|
      {
        var p := PositionIn(slots[s], id);
        if p < |slots[s]| {
          assert SlotOf(slots, id) == s;
          slots := slots[s := slots[s][..p] + slots[s][p + 1..]];
          return true;
        }
      }
      return false;
    }

    /** Moves the whole current slot onto `ready`, oldest entry first. */
    method DrainSlot(ready: seq<Waker>) returns (all: seq<Waker>)
      requires Valid()
      modifies this`slots
      ensures Valid()
      ensures slots == old(slots)[currentSlot := []]
      ensures all == ready + Wakers(old(slots)[currentSlot])
    {
      all := ready;
      ghost var slot := slots[currentSlot];
      ghost var k := 0;
      while slots[currentSlot] != []
        invariant Valid() && k <= |slot|
        invariant slots == old(slots)[currentSlot := slot[k..]]
        invariant all == ready + Wakers(slot[..k])
        decreases |slots[currentSlot]|
      {
        assert slot[..k + 1] == slot[..k] + [slot[k]];
        all := all + [slots[currentSlot][0].waker];
        slots := slots[currentSlot := slots[currentSlot][1..]];
        k := k + 1;
      }
      assert slot[..k] == slot;
    }

    /** Drains the current slot and moves the cursor on; `k` slots were swept before. */
    method Advance(ready: seq<Waker>, ghost was: Wheel, ghost k: nat, ghost before: seq<Waker>)
      returns (all: seq<Waker>)
      requires Valid() && was.Valid(numSlots) && k <= numSlots
      requires slots == Emptied(was.slots, was.cursor, k)
      requires currentSlot == At(numSlots, was.cursor, k)
      requires ready == before + Wakers(Swept(was.slots, was.cursor, k))
      modifies this`slots, this`currentSlot
      ensures Valid() && currentSlot == At(numSlots, old(currentSlot), 1)
      ensures var j := if k < numSlots then k + 1 else k;
              && slots == Emptied(was.slots, was.cursor, j)
              && all == before + Wakers(Swept(was.slots, was.cursor, j))
    {
      if k < numSlots {
        SweepNext(was.slots, was.cursor, k);
      } else {
        SweepAgain(was.slots, was.cursor);
      }
      all := DrainSlot(ready);
      assert Wakers([]) == [];
      NextSlot(numSlots, currentSlot);
      currentSlot := (currentSlot + 1) % numSlots;
    }

    /** The turn over all slots that follows the first step of a call past the rotation. */
    method FullTurn(ready: seq<Waker>, ghost was: Wheel, ghost before: seq<Waker>)
      returns (all: seq<Waker>)
      requires Valid() && was.Valid(numSlots)
      requires slots == Emptied(was.slots, was.cursor, 1)
      requires currentSlot == At(numSlots, was.cursor, 1)
      requires ready == before + Wakers(Swept(was.slots, was.cursor, 1))
      modifies this`slots, this`currentSlot
      ensures Valid() && currentSlot == At(numSlots, was.cursor, 1)
      ensures slots == Emptied(was.slots, was.cursor, numSlots)
      ensures all == before + Wakers(Swept(was.slots, was.cursor, numSlots))
    {
      ghost var k, n := 1, numSlots;
      all := ready;
      for i := 0 to numSlots
        invariant Valid() && k == (if i + 1 < n then i + 1 else n)
        invariant currentSlot == At(n, was.cursor, if i < n then i + 1 else 1)
        invariant slots == Emptied(was.slots, was.cursor, k)
        invariant all == before + Wakers(Swept(was.slots, was.cursor, k))
      {
        all := Advance(all, was, k, before);
        k := if k < n then k + 1 else k;
      }
    }

    method Expire(now: Instant, ready: seq<Waker>) returns (all: seq<Waker>)
      requires Valid()
      modifies this`slots, this`currentSlot
      ensures Valid()
      ensures View() == Expired(old(View()), Tick(now))
      ensures all == ready + Wakers(Fired(old(View()), Tick(now)))
    {
      ghost var was := View();
      ghost var k := 0;
      var n, offset := numSlots, Tick(now);
      var target := offset % n;
      all := ready;
      TargetSlot(n, offset);
      while currentSlot != target || offset >= n
        invariant Valid() && k <= Steps(n, was.cursor, offset)
        invariant currentSlot == At(n, was.cursor, k)
        invariant slots == Emptied(was.slots, was.cursor, k)
        invariant all == ready + Wakers(Swept(was.slots, was.cursor, k))
        invariant offset >= n ==> k == 0
        decreases n - k
      {
        all := Advance(all, was, k, ready);
        k := k + 1;
        if offset >= n {
          all := FullTurn(all, was, ready);
          k := n;
          break;
        }
      }
      if offset < n { AllSteps(n, was.cursor, offset, k); }
    }

    method PendingCount() returns (c: nat)
      requires Valid()
      ensures c == Count(slots)
    {
      c := 0;
      for i := 0 to |slots|
        invariant c == Count(slots[..i])
      {
        CountUpTo(slots, i);
        c := c + |slots[i]|;
      }
      assert slots[..|slots|] == slots;
    }
  }
}
