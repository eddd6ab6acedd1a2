/** Where spawned tasks go, over every interleaving: round robin for `spawn`, the core asked for with
    `spawn_on`. */
module RuntimeTickets {
  import opened CoreModel
  import opened Options
  import opened Division
  import opened RoundRobin
  import opened RuntimeModel
  import opened RuntimeProofs
  import opened RuntimeTheorems

  predicate TakesTicket(s: Runtime, a: Action) {
    a.Step? && a.index < |s.callers| && s.callers[a.index].SpawnTicket?
  }

  /** The cores that the round-robin spawns of a run go to, in the order they take their tickets,
      whoever the callers are. */
  function Tickets(s: Runtime, n: nat, acts: seq<Action>): (ts: seq<nat>)
    requires Sized(s, n)
    decreases acts
  {
    if acts == [] then []
    else
      var r := Act(s, n, acts[0]);
      (if TakesTicket(s, acts[0]) && r.callers[acts[0].index].SpawnPush? then [r.callers[acts[0].index].core] else [])
        + Tickets(r, n, acts[1..])
  }

  /** Only a ticket moves the counter. */
  lemma NextTicket(s: Runtime, n: nat, a: Action)
    requires Sized(s, n)
    ensures var r := Act(s, n, a);
            if TakesTicket(s, a) then
              r.callers[a.index] == SpawnPush(s.nextCore % n, s.callers[a.index].id, s.callers[a.index].life)
              && r.nextCore == (s.nextCore + 1) % WORD
            else r.nextCore == s.nextCore
  {
  }

  lemma {:induction false} CounterFits(s: Runtime, n: nat, acts: seq<Action>)
    requires Sized(s, n) && s.nextCore < WORD
    ensures Run(s, n, acts).nextCore < WORD
    decreases acts
  {
    if acts != [] {
      NextTicket(s, n, acts[0]);
      CounterFits(Act(s, n, acts[0]), n, acts[1..]);
    }
  }

  /** Ticket `k` after a counter value of `x`. */
  function CoreOf(x: nat, k: nat, n: nat): (c: nat)
    requires n > 0
  {
    (x + k) % WORD % n
  }

  lemma CounterStep(w: nat, x: nat, k: nat)
    requires x < w
    ensures (x + 0) % w == x && ((x + 1) % w + k) % w == (x + (k + 1)) % w
  {
    DivUnique(x, w, 0, x);
    if x + 1 < w {
      DivUnique(x + 1, w, 0, x + 1);
    } else {
      DivUnique(x + 1, w, 1, 0);
      assert w * (k / w + 1) == w * (k / w) + w;
      DivUnique(w + k, w, k / w + 1, k % w);
    }
  }

  lemma TicketLater(x: nat, k: nat, n: nat)
    requires x < WORD && n > 0
    ensures CoreOf(x, 0, n) == x % n && CoreOf((x + 1) % WORD, k, n) == CoreOf(x, k + 1, n)
  {
    CounterStep(WORD, x, k);
  }

  lemma {:induction false} TicketAt(s: Runtime, n: nat, acts: seq<Action>, k: nat)
    requires Sized(s, n) && s.nextCore < WORD && k < |Tickets(s, n, acts)|
    ensures Tickets(s, n, acts)[k] == CoreOf(s.nextCore, k, n)
    decreases acts
  {
    var r := Act(s, n, acts[0]);
    NextTicket(s, n, acts[0]);
    if !TakesTicket(s, acts[0]) {
      TicketAt(r, n, acts[1..], k);
    } else {
      TicketLater(s.nextCore, if k > 0 then k - 1 else 0, n);
      if k > 0 { TicketAt(r, n, acts[1..], k - 1); }
    }
  }

  lemma {:induction false} CountIsShare(ts: seq<nat>, w: nat, n: nat, a: nat, c: nat)
    requires w > 0 && n > 0 && forall k :: 0 <= k < |ts| ==> ts[k] == (a + k) % w % n
    ensures multiset(ts)[c] == Share(w, n, a, |ts|, c)
  {
    if ts != [] {
      var k := |ts| - 1;
      CountIsShare(ts[..k], w, n, a, c);
      assert ts == ts[..k] + [ts[k]];
    }
  }

  /** How many of the spawns of a stretch of a run core `c` receives. */
  lemma SpawnsOf(s: Runtime, n: nat, acts: seq<Action>, c: nat)
    requires Sized(s, n) && s.nextCore < WORD
    ensures multiset(Tickets(s, n, acts))[c] == Share(WORD, n, s.nextCore, |Tickets(s, n, acts)|, c)
  {
    var ts := Tickets(s, n, acts);
    forall k | 0 <= k < |ts| ensures ts[k] == (s.nextCore + k) % WORD % n {
      TicketAt(s, n, acts, k);
    }
    CountIsShare(ts, WORD, n, s.nextCore, c);
  }

  /** Any stretch of any run, from any reachable state on: until the counter wraps every core receives
      its fair share of the spawns of the stretch. */
  lemma SpawnsShareOut(n: nat, before: seq<Action>, acts: seq<Action>, c: nat)
    requires c < n
    requires Run(New(n), n, before).nextCore + |Tickets(Run(New(n), n, before), n, acts)| <= WORD
    ensures var ts := Tickets(Run(New(n), n, before), n, acts);
            |ts| / n <= multiset(ts)[c] <= Ceil(|ts|, n) <= |ts| / n + 1
  {
    CounterFits(New(n), n, before);
    var s := Run(New(n), n, before);
    SpawnsOf(s, n, acts, c);
    FairShare(WORD, n, s.nextCore, |Tickets(s, n, acts)|, c);
  }

  /** Across one wrap of the counter any two cores differ by at most two. */
  lemma SpawnsAcrossWrap(n: nat, before: seq<Action>, acts: seq<Action>, c: nat, d: nat)
    requires c < n && d < n
    requires WORD <= Run(New(n), n, before).nextCore + |Tickets(Run(New(n), n, before), n, acts)| <= 2 * WORD
    ensures var ts := Tickets(Run(New(n), n, before), n, acts);
            multiset(ts)[c] <= multiset(ts)[d] + 2
  {
    CounterFits(New(n), n, before);
    var s := Run(New(n), n, before);
    SpawnsOf(s, n, acts, c);
    SpawnsOf(s, n, acts, d);
    WrappedShares(WORD, n, s.nextCore, |Tickets(s, n, acts)|, c, d);
  }

  /** Caller `i` asked for core `j`, and is refused, on its way there, or has put its task there. */
  predicate BoundFor(s: Runtime, i: nat, j: nat) {
    i < |s.callers| &&
    match s.callers[i]
    case SpawnLoad(on, _) => on == Some(j)
    case SpawnId(on, _) => on == Some(j)
    case SpawnPush(core, _, _) => core == j
    case SpawnDone(None) => true
    case SpawnDone(Some(id)) => id in s.home && s.home[id] == j
    case _ => false
  }

  /** The home of a task never changes. */
  lemma HomeStays(s: Runtime, n: nat, a: Action, id: TaskId)
    requires Inv(s, n) && id in s.home
    ensures id in Act(s, n, a).home && Act(s, n, a).home[id] == s.home[id]
  {
    if a.Step? && a.index < |s.callers| && s.callers[a.index].SpawnPush? {
      assert Holding(s.callers[a.index]).value !in s.home;
    }
  }

  lemma BoundStep(s: Runtime, n: nat, a: Action, i: nat, j: nat)
    requires Inv(s, n) && BoundFor(s, i, j)
    ensures BoundFor(Act(s, n, a), i, j)
  {
    var c := s.callers[i];
    if c.SpawnDone? && c.result.Some? { HomeStays(s, n, a, c.result.value); }
    if a != Step(i) { OthersStay(s, n, a, i); }
  }

  /** `spawn_on(j)` puts its task on core `j` or, if it is refused, nowhere, in every continuation. */
  lemma {:induction false} SpawnOnLandsThere(s: Runtime, n: nat, acts: seq<Action>, i: nat, j: nat)
    requires Inv(s, n) && BoundFor(s, i, j)
    ensures BoundFor(Run(s, n, acts), i, j)
    decreases acts
  {
    if acts != [] {
      ActKeeps(s, n, acts[0]);
      BoundStep(s, n, acts[0], i, j);
      SpawnOnLandsThere(Act(s, n, acts[0]), n, acts[1..], i, j);
    }
  }
}
