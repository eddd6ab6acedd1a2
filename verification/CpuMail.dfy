/** What a round of the event loop does with its messages, its completions and its expired timers: each is
    handled once and in order, and every task whose timer expired is polled. */
module CpuMail {
  import opened Sequences
  import opened Io
  import opened CpuModel
  import opened CpuTheorems
  import opened CpuExit

  /** Messages and completions, as against wakes and polls. */
  function IsInput(): Event -> bool {
    (e: Event) => e.Delivered? || e.Completion?
  }

  function Delivery(ms: seq<Message>): (es: seq<Event>) {
    seq(|ms|, i requires 0 <= i < |ms| => Delivered(ms[i]))
  }

  function Answering(cs: seq<Cqe>): (es: seq<Event>) {
    seq(|cs|, i requires 0 <= i < |cs| => Completion(cs[i]))
  }

  lemma {:induction false} AllInputs(es: seq<Event>)
    requires forall e :: e in es ==> IsInput()(e)
    ensures Filter(IsInput(), es) == es
    decreases es
  {
    if es != [] { AllInputs(es[1..]); }
  }

  lemma {:induction false} NoInputs(es: seq<Event>)
    requires forall e :: e in es ==> !IsInput()(e)
    ensures Filter(IsInput(), es) == []
    decreases es
  {
    if es != [] { NoInputs(es[1..]); }
  }

  lemma {:induction false} DeliveryRuns(s: Cpu, ms: seq<Message>)
    ensures Run(s, Delivery(ms)) == HandleAll(s, ms)
    decreases ms
  {
    if ms != [] {
      assert Delivery(ms)[1..] == Delivery(ms[1..]);
      DeliveryRuns(Handle(s, ms[0]), ms[1..]);
    }
  }

  lemma {:induction false} AnsweringRuns(s: Cpu, cs: seq<Cqe>)
    ensures Run(s, Answering(cs)) == CompleteAll(s, cs)
    decreases cs
  {
    if cs != [] {
      assert Answering(cs)[1..] == Answering(cs[1..]);
      AnsweringRuns(Complete(s, cs[0]), cs[1..]);
    }
  }

  /** The events lead from `s` to `r` and bring exactly the inputs `fs`. */
  predicate Leads(s: Cpu, es: seq<Event>, fs: seq<Event>, r: Cpu) {
    Run(s, es) == r && Filter(IsInput(), es) == fs
  }

  lemma LeadsOn(s: Cpu, a: seq<Event>, fs: seq<Event>, r: Cpu, b: seq<Event>, gs: seq<Event>, q: Cpu)
    requires Leads(s, a, fs, r) && Leads(r, b, gs, q)
    ensures Leads(s, a + b, fs + gs, q)
  {
    RunAppend(s, a, b);
    FilterAppend(IsInput(), a, b);
  }

  lemma DeliveryLeads(s: Cpu, ms: seq<Message>)
    ensures Leads(s, Delivery(ms), Delivery(ms), HandleAll(s, ms))
  {
    DeliveryRuns(s, ms);
    AllInputs(Delivery(ms));
  }

  lemma AnsweringLeads(s: Cpu, cs: seq<Cqe>)
    ensures Leads(s, Answering(cs), Answering(cs), CompleteAll(s, cs))
  {
    AnsweringRuns(s, cs);
    AllInputs(Answering(cs));
  }

  lemma WakesLead(s: Cpu, ids: seq<TaskId>) returns (es: seq<Event>)
    ensures Leads(s, es, [], WakeAll(s, ids))
  {
    es := WakesAreRun(s, ids);
    NoInputs(es);
  }

  lemma DrainLeads(s: Cpu, wakes: seq<seq<TaskId>>) returns (es: seq<Event>)
    ensures Leads(s, es, [], Drain(s, wakes))
  {
    es := DrainIsRun(s, wakes);
    NoInputs(es);
  }

  lemma TickedLeads(s: Cpu, inbox: seq<Message>, x: Round) returns (es: seq<Event>)
    ensures Leads(s, es, Delivery(inbox + x.arrived) + Answering(x.cqes), Ticked(s, inbox, x))
  {
    hide Leads, Delivery, Answering;
    var ms, d := Delivery(inbox + x.arrived), DrainedOf(s, inbox, x);
    var h, entering := HandleAll(s, inbox + x.arrived), Entering(s, InputOf(inbox, x));
    DeliveryLeads(s, inbox + x.arrived);
    var wakes := WakesLead(h, x.expired);
    LeadsOn(s, ms, ms, h, wakes, [], entering);
    assert ms + [] == ms;
    var turns := DrainLeads(entering, x.wakes);
    LeadsOn(s, ms + wakes, ms, entering, turns, [], d);
    AnsweringLeads(d, x.cqes);
    var done := CompleteAll(d, x.cqes);
    LeadsOn(s, ms + wakes + turns, ms, d, Answering(x.cqes), Answering(x.cqes), done);
    var late := WakesLead(done, x.late);
    es := ms + wakes + turns + Answering(x.cqes);
    var inputs := ms + Answering(x.cqes);
    LeadsOn(s, es, inputs, done, late, [], Ticked(s, inbox, x));
    assert inputs + [] == inputs;
    es := es + late;
  }

  /** Every round is a run that handles, each once and in this order, the messages its tick finds, the
      completions, and the messages at its end; of these all if tasks are queued then, and otherwise at most
      one. The others are left in the channel, unless the loop ends because all senders are gone. */
  lemma RoundHandlesAll(s: Cpu, inbox: seq<Message>, x: Round) returns (es: seq<Event>)
    ensures var t := Ticked(s, inbox, x);
            var (r, left) := AfterRound(s, inbox, x);
            var last := Last(t, x.later);
            && last + left == x.later
            && Leads(s, es, Delivery(inbox + x.arrived) + Answering(x.cqes) + Delivery(last),
                     if t.ready == [] && x.later == [] && x.closed then r.(running := t.running) else r)
  {
    var t := Ticked(s, inbox, x);
    var last := Last(t, x.later);
    es := TickedLeads(s, inbox, x);
    DeliveryLeads(t, last);
    if t.ready == [] && x.later != [] {
      assert last[1..] == [] && HandleAll(t, last) == HandleAll(Handle(t, last[0]), []);
    }
    var inputs := Delivery(inbox + x.arrived) + Answering(x.cqes);
    LeadsOn(s, es, inputs, t, Delivery(last), Delivery(last), HandleAll(t, last));
    es := es + Delivery(last);
  }

  // ----- Expired timers -----

  lemma {:induction false} WakesQueue(s: Cpu, ids: seq<TaskId>)
    ensures WakeAll(s, ids) == s.(ready := s.ready + ids, due := WakeAll(s, ids).due)
    decreases ids
  {
    if ids == [] {
      assert s.ready + [] == s.ready;
    } else {
      WakesQueue(WakeTask(s, ids[0]), ids[1..]);
      assert s.ready + [ids[0]] + ids[1..] == s.ready + ids;
    }
  }

  /** A task whose timer has expired is polled in the same tick, if after its messages it is there and not
      marked. */
  lemma ExpiredArePolled(s: Cpu, x: Input, id: TaskId)
    requires id in x.expired
    requires id in HandleAll(s, x.messages).tasks && id !in HandleAll(s, x.messages).cancelled
    ensures PolledSince(s, Tick(s, x), id)
  {
    var h, e := HandleAll(s, x.messages), Entering(s, x);
    WakesQueue(h, x.expired);
    DrainPollsQueued(e, x.wakes, id);
    var d := Drain(e, x.wakes);
    var a := EnteringIsRun(s, x);
    PolledGrows(s, a);
    var b := CompletionsAreRun(d, x.cqes);
    PolledGrows(d, b);
    PolledThrough(s, e, d, id);
    PolledThrough(s, d, Tick(s, x), id);
  }
}
