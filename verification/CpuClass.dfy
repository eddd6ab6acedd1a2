/** The scheduler in place: the backend's table, the maps shared with the I/O futures, and the event
    loop, each method proved against the state machine. */
module CpuClass {
  import opened Io
  import opened Options
  import opened CpuModel
  import opened CpuProofs
  import opened CpuTheorems

  datatype Answer = Answer(token: Token, op: Op, result: IoResult)

  /** What `poll_complete` makes of the completion queue: the remaining table and the answers. */
  function Collect(pending: map<Token, Op>, cs: seq<Cqe>): (r: (map<Token, Op>, seq<Answer>))
    decreases cs
  {
    if cs == [] then (pending, [])
    else if cs[0].userData !in pending then Collect(pending, cs[1..])
    else
      var f := cs[0].userData;
      var (left, rest) := Collect(pending - {f}, cs[1..]);
      (left, [Answer(f, pending[f], ResultOf(pending[f], cs[0]))] + rest)
  }

  /** Completion `i` is the first for its token, which is in the table. */
  ghost predicate FirstFor(pending: map<Token, Op>, cs: seq<Cqe>, i: nat) {
    i < |cs| && cs[i].userData in pending && forall j :: 0 <= j < i ==> cs[j].userData != cs[i].userData
  }

  /** The answer is to that completion, and has every field from it. */
  ghost predicate AnswerTo(pending: map<Token, Op>, cs: seq<Cqe>, i: nat, a: Answer) {
    && FirstFor(pending, cs, i) && a.token == cs[i].userData && a.op == pending[a.token]
    && Tells(a.op, cs[i], a.result)
  }

  ghost predicate AnswersOne(pending: map<Token, Op>, cs: seq<Cqe>, a: Answer) {
    exists i :: AnswerTo(pending, cs, i, a)
  }

  ghost predicate AnsweredIn(pending: map<Token, Op>, cs: seq<Cqe>, i: nat, answers: seq<Answer>) {
    exists k :: 0 <= k < |answers| && AnswerTo(pending, cs, i, answers[k])
  }

  /** The answers are to the first completions of the tokens in the table, and each of these has one; what
      is left of the table are the tokens without a completion. */
  ghost predicate Collected(pending: map<Token, Op>, cs: seq<Cqe>, left: map<Token, Op>, answers: seq<Answer>) {
    && (forall k :: 0 <= k < |answers| ==> AnswersOne(pending, cs, answers[k]))
    && (forall i :: FirstFor(pending, cs, i) ==> AnsweredIn(pending, cs, i, answers))
    && left == pending - set c | c in cs :: c.userData
  }

  lemma FirstLater(pending: map<Token, Op>, cs: seq<Cqe>, i: nat)
    requires cs != []
    ensures FirstFor(pending, cs, i + 1) <==> FirstFor(pending - {cs[0].userData}, cs[1..], i)
  {
    if FirstFor(pending - {cs[0].userData}, cs[1..], i) {
      forall j | 0 <= j < i + 1 ensures cs[j].userData != cs[i + 1].userData {
        if j > 0 { assert cs[1..][j - 1] == cs[j]; }
      }
    }
  }

  lemma AnswerLater(pending: map<Token, Op>, cs: seq<Cqe>, i: nat, a: Answer)
    requires cs != []
    ensures AnswerTo(pending, cs, i + 1, a) <==> AnswerTo(pending - {cs[0].userData}, cs[1..], i, a)
  {
    FirstLater(pending, cs, i);
  }

  lemma CollectNext(pending: map<Token, Op>, cs: seq<Cqe>)
    requires cs != []
    ensures var f := cs[0].userData;
            var (left, rest) := Collect(pending - {f}, cs[1..]);
            Collect(pending, cs) ==
            (left, if f in pending then [Answer(f, pending[f], ResultOf(pending[f], cs[0]))] + rest else rest)
  {
    if cs[0].userData !in pending { assert pending - {cs[0].userData} == pending; }
  }

  lemma TokensLater(pending: map<Token, Op>, cs: seq<Cqe>)
    requires cs != []
    ensures pending - (set c | c in cs :: c.userData) ==
            pending - {cs[0].userData} - set c | c in cs[1..] :: c.userData
  {
    assert cs == [cs[0]] + cs[1..];
    assert (set c | c in cs :: c.userData) == {cs[0].userData} + set c | c in cs[1..] :: c.userData;
  }

  lemma FirstAnswer(pending: map<Token, Op>, cs: seq<Cqe>)
    requires cs != [] && cs[0].userData in pending
    ensures var f := cs[0].userData;
            AnswerTo(pending, cs, 0, Answer(f, pending[f], ResultOf(pending[f], cs[0])))
  {
    ResultTells(pending[cs[0].userData], cs[0]);
  }

  lemma {:induction false} AnswersAreFirst(pending: map<Token, Op>, cs: seq<Cqe>, k: nat)
    requires k < |Collect(pending, cs).1|
    ensures AnswersOne(pending, cs, Collect(pending, cs).1[k])
    decreases cs
  {
    var f := cs[0].userData;
    var rest, skip := Collect(pending - {f}, cs[1..]).1, if f in pending then 1 else 0;
    CollectNext(pending, cs);
    if k < skip {
      FirstAnswer(pending, cs);
    } else {
      AnswersAreFirst(pending - {f}, cs[1..], k - skip);
      var i: nat :| AnswerTo(pending - {f}, cs[1..], i, rest[k - skip]);
      AnswerLater(pending, cs, i, rest[k - skip]);
    }
  }

  lemma {:induction false} FirstAreAnswered(pending: map<Token, Op>, cs: seq<Cqe>, i: nat)
    requires FirstFor(pending, cs, i)
    ensures AnsweredIn(pending, cs, i, Collect(pending, cs).1)
    decreases cs
  {
    var f, answers := cs[0].userData, Collect(pending, cs).1;
    CollectNext(pending, cs);
    if i == 0 {
      FirstAnswer(pending, cs);
      assert AnswerTo(pending, cs, 0, answers[0]);
    } else {
      var rest, skip := Collect(pending - {f}, cs[1..]).1, if f in pending then 1 else 0;
      FirstLater(pending, cs, i - 1);
      FirstAreAnswered(pending - {f}, cs[1..], i - 1);
      var k :| 0 <= k < |rest| && AnswerTo(pending - {f}, cs[1..], i - 1, rest[k]);
      AnswerLater(pending, cs, i - 1, rest[k]);
      assert answers[k + skip] == rest[k];
    }
  }

  lemma {:induction false} OthersAreLeft(pending: map<Token, Op>, cs: seq<Cqe>)
    ensures Collect(pending, cs).0 == pending - set c | c in cs :: c.userData
    decreases cs
  {
    if cs == [] {
      assert pending - (set c | c in cs :: c.userData) == pending;
    } else {
      CollectNext(pending, cs);
      TokensLater(pending, cs);
      OthersAreLeft(pending - {cs[0].userData}, cs[1..]);
    }
  }

  lemma CollectExactly(pending: map<Token, Op>, cs: seq<Cqe>)
    ensures Collected(pending, cs, Collect(pending, cs).0, Collect(pending, cs).1)
  {
    var answers := Collect(pending, cs).1;
    forall k | 0 <= k < |answers| ensures AnswersOne(pending, cs, answers[k]) {
      AnswersAreFirst(pending, cs, k);
    }
    forall i: nat | FirstFor(pending, cs, i) ensures AnsweredIn(pending, cs, i, answers) {
      FirstAreAnswered(pending, cs, i);
    }
    OthersAreLeft(pending, cs);
  }

  class UringBackend {
    var pendingOps: map<Token, Op>
    var tokenCounter: nat

    constructor ()
      ensures pendingOps == map[] && tokenCounter == 1
    {
      pendingOps, tokenCounter := map[], 1;
    }

    method Submit(op: Op, pushed: bool, skip: nat) returns (token: Token)
      modifies this
      ensures token == old(tokenCounter) + skip && tokenCounter == token + 1
      ensures pendingOps == if pushed then old(pendingOps)[token := op] else old(pendingOps)
    {
      token := tokenCounter + skip;
      tokenCounter := token + 1;
      if pushed {
        pendingOps := pendingOps[token := op];
      }
    }

    method PollComplete(cs: seq<Cqe>) returns (answers: seq<Answer>)
      modifies this`pendingOps
      ensures pendingOps == Collect(old(pendingOps), cs).0
      ensures answers == Collect(old(pendingOps), cs).1
      ensures Collected(old(pendingOps), cs, pendingOps, answers)
    {
      CollectExactly(pendingOps, cs);
      answers := [];
      assert cs[0..] == cs;
      for i := 0 to |cs|
        invariant Collect(old(pendingOps), cs).0 == Collect(pendingOps, cs[i..]).0
        invariant Collect(old(pendingOps), cs).1 == answers + Collect(pendingOps, cs[i..]).1
      {
        var f := cs[i].userData;
        assert cs[i..][1..] == cs[i + 1..];
        if f in pendingOps {
          var op := pendingOps[f];
          pendingOps := pendingOps - {f};
          answers := answers + [Answer(f, op, ResultOf(op, cs[i]))];
        }
      }
    }
  }

  class CpuIoState {
    const backend: UringBackend
    var ioWakers: map<Token, TaskId>
    var completedIo: map<Token, IoResult>
    /** The I/O futures that exist. */
    var futures: set<Token>
    ghost var log: IoState

    ghost predicate Valid()
      reads this, backend
    {
      && log.pending == backend.pendingOps && log.nextToken == backend.tokenCounter
      && log.wakers == ioWakers && log.completed == completedIo && log.live == futures
    }

    constructor ()
      ensures Valid() && fresh(backend) && log == EMPTY_IO
    {
      backend := new UringBackend();
      ioWakers, completedIo, futures, log := map[], map[], {}, EMPTY_IO;
    }

    /** Submits an operation and makes the future that waits for it. */
    method SubmitOp(op: Op, pushed: bool, skip: nat) returns (token: Token)
      requires Valid()
      modifies this, backend
      ensures Valid() && log == CpuModel.SubmitOp(old(log), op, pushed, skip)
    {
      token := backend.Submit(op, pushed, skip);
      futures := futures + {token};
      log := CpuModel.SubmitOp(log, op, pushed, skip);
    }

    method PollFuture(token: Token, waker: TaskId) returns (r: Option<IoResult>)
      requires Valid() && token in futures
      modifies this
      ensures Valid() && log == CpuModel.PollFuture(old(log), waker, token)
      ensures r == if token in old(completedIo) then Some(old(completedIo)[token]) else None
    {
      log := CpuModel.PollFuture(log, waker, token);
      if token in completedIo {
        r := Some(completedIo[token]);
        completedIo := completedIo - {token};
        return;
      }
      ioWakers := ioWakers[token := waker];
      r := None;
    }

    method DropFutures(tokens: set<Token>)
      requires Valid()
      modifies this
      ensures Valid() && log == CpuModel.DropFutures(old(log), tokens)
    {
      var gone := tokens * futures;
      ioWakers := ioWakers - gone;
      completedIo := completedIo - gone;
      futures := futures - gone;
      log := CpuModel.DropFutures(log, tokens);
    }
  }

  /** The loop of `poll_io_completions` over answers already taken out of the table. */
  function Store(s: Cpu, a: Answer): (r: Cpu) {
    var f, io := a.token, s.io;
    s.(ready := if f in io.wakers then s.ready + [io.wakers[f]] else s.ready,
       due := if f in io.waiting then s.due + {io.waiting[f]} else s.due,
       io := io.(completed := io.completed[f := a.result], wakers := io.wakers - {f},
                 signalled := if f in io.waiting then io.signalled[f := io.waiting[f]]
                              else io.signalled))
  }

  function StoreAll(s: Cpu, answers: seq<Answer>): (r: Cpu)
    decreases answers
  {
    if answers == [] then s else StoreAll(Store(s, answers[0]), answers[1..])
  }

  function WithPending(s: Cpu, pending: map<Token, Op>): (r: Cpu) {
    s.(io := s.io.(pending := pending))
  }

  /** Collecting all answers first and storing them afterwards is the same as handling the
      completions one by one. */
  lemma {:induction false} TwoPhases(s: Cpu, cs: seq<Cqe>)
    ensures var (left, answers) := Collect(s.io.pending, cs);
            StoreAll(WithPending(s, left), answers) == CompleteAll(s, cs)
    decreases cs
  {
    if cs == [] {
      assert WithPending(s, s.io.pending) == s;
    } else {
      var f := cs[0].userData;
      TwoPhases(Complete(s, cs[0]), cs[1..]);
      if f in s.io.pending {
        var (left, rest) := Collect(s.io.pending - {f}, cs[1..]);
        var a := Answer(f, s.io.pending[f], ResultOf(s.io.pending[f], cs[0]));
        assert Store(WithPending(s, left), a) == WithPending(Complete(s, cs[0]), left);
        assert ([a] + rest)[1..] == rest;
      }
    }
  }

  /** The drain loop did something: it polled a task or used up a cancellation mark. */
  predicate Drained(a: Cpu, b: Cpu) {
    |a.polled| < |b.polled| || a.cancelled != b.cancelled
  }

  /** What a tick reports: a timer expired, the drain loop did something, or an operation was answered. */
  predicate Progress(s: Cpu, x: Input) {
    var entered := Entering(s, x);
    var drained := Drain(entered, x.wakes);
    x.expired != [] || Drained(entered, drained) || CompleteAll(drained, x.cqes).io.pending != drained.io.pending
  }

  lemma {:induction false} CollectShrinks(pending: map<Token, Op>, cs: seq<Cqe>)
    ensures Collect(pending, cs).0.Keys <= pending.Keys
    ensures Collect(pending, cs).1 == [] <==> Collect(pending, cs).0 == pending
    decreases cs
  {
    if cs != [] {
      var f := cs[0].userData;
      if f in pending {
        CollectShrinks(pending - {f}, cs[1..]);
        assert f !in Collect(pending, cs).0.Keys;
      } else {
        CollectShrinks(pending, cs[1..]);
      }
    }
  }

  lemma {:induction false} StoreKeepsPending(s: Cpu, answers: seq<Answer>)
    ensures StoreAll(s, answers).io.pending == s.io.pending
    decreases answers
  {
    if answers != [] { StoreKeepsPending(Store(s, answers[0]), answers[1..]); }
  }

  /** An answer was collected exactly if the table has changed. */
  lemma AnsweredSome(s: Cpu, cs: seq<Cqe>)
    ensures Collect(s.io.pending, cs).1 == [] <==> CompleteAll(s, cs).io.pending == s.io.pending
  {
    var (left, answers) := Collect(s.io.pending, cs);
    TwoPhases(s, cs);
    StoreKeepsPending(WithPending(s, left), answers);
    CollectShrinks(s.io.pending, cs);
  }

  /** Progress adds up over the turns of the loop: marks only disappear while it runs. */
  lemma DrainedThrough(a: Cpu, b: Cpu, c: Cpu)
    requires |a.polled| <= |b.polled| <= |c.polled| && c.cancelled <= b.cancelled <= a.cancelled
    ensures Drained(a, c) <==> Drained(a, b) || Drained(b, c)
  {
  }

  /** Polls are only added and marks only taken away. */
  predicate Shorter(a: Cpu, b: Cpu) {
    |a.polled| <= |b.polled| && b.cancelled <= a.cancelled
  }

  function AfterTurn(s: Cpu, wakes: seq<seq<TaskId>>): (r: Cpu)
    requires s.ready != []
  {
    Arrived(Pop(s), wakes)
  }

  /** The rest of the drain loop, inside the loop. */
  function Turns(s: Cpu, wakes: seq<seq<TaskId>>): (r: Cpu) {
    if s.ready == [] then s else Drain(Pop(s), wakes)
  }

  lemma {:induction false} WakesOnlyWake(s: Cpu, ids: seq<TaskId>)
    ensures var r := WakeAll(s, ids); r == s.(ready := r.ready, due := r.due)
    decreases ids
  {
    if ids != [] { WakesOnlyWake(WakeTask(s, ids[0]), ids[1..]); }
  }

  lemma TurnShortens(first: Cpu, s: Cpu, wakes: seq<seq<TaskId>>)
    requires Shorter(first, s) && s.ready != []
    ensures var r := AfterTurn(s, wakes);
            && Shorter(first, r) && (Drained(first, r) <==> Drained(first, s) || Drained(s, r))
            && Turns(r, Later(wakes)) == Turns(s, wakes)
            && (wakes == [] ==>
                || Measures.Total(r.tasks, PollsLeft()) < Measures.Total(s.tasks, PollsLeft())
                || (&& Measures.Total(r.tasks, PollsLeft()) == Measures.Total(s.tasks, PollsLeft())
                    && |r.ready| < |s.ready|))
  {
    PopPolls(s);
    PopDecreases(s);
    if wakes != [] { WakesOnlyWake(Pop(s), wakes[0]); }
    DrainedThrough(first, s, AfterTurn(s, wakes));
  }

  lemma TickKeeps(s: Cpu, x: Input)
    requires Inv(s)
    ensures Inv(Tick(s, x))
  {
    var es := TickIsRun(s, x);
    RunKeeps(s, es);
  }

  lemma MessagesKeep(s: Cpu, ms: seq<Message>)
    requires Inv(s)
    ensures Inv(HandleAll(s, ms))
  {
    var es := MessagesAreRun(s, ms);
    RunKeeps(s, es);
  }

  lemma CompletionsKeep(s: Cpu, cs: seq<Cqe>)
    requires Inv(s)
    ensures Inv(CompleteAll(s, cs))
  {
    var es := CompletionsAreRun(s, cs);
    RunKeeps(s, es);
  }

  lemma AfterTickKeeps(s: Cpu, inbox: seq<Message>, closed: bool)
    requires Inv(s)
    ensures Inv(AfterTick(s, inbox, closed).0)
  {
    var es := AfterTickIsRun(s, inbox, closed);
    RunKeeps(s, es);
    MessagesKeep(s, inbox);
    if inbox != [] { StepKeeps(s, Delivered(inbox[0])); }
  }

  lemma FirstRound(s: Cpu, inbox: seq<Message>, rounds: seq<Round>)
    requires s.running && rounds != []
    ensures var r := AfterRound(s, inbox, rounds[0]);
            Blocked(s, inbox, rounds) == Stop(s, inbox, rounds[0]) + Blocked(r.0, r.1, rounds[1..])
  {
  }

  lemma NoRound(s: Cpu, inbox: seq<Message>, rounds: seq<Round>)
    requires !s.running || rounds == []
    ensures Blocked(s, inbox, rounds) == []
  {
  }

  predicate Served(b: Cpu) {
    b.ready == [] && b.due == {} && b.io.signalled == map[]
  }

  ghost predicate AllServed(states: seq<Cpu>) {
    forall b :: b in states ==> Served(b)
  }

  lemma BlockedServed(s: Cpu, inbox: seq<Message>, rounds: seq<Round>)
    requires Inv(s)
    ensures AllServed(Blocked(s, inbox, rounds))
  {
    forall b | b in Blocked(s, inbox, rounds) ensures Served(b) {
      var es := BlockedIsRun(s, inbox, rounds, b);
      BlockedMeansServed(s, inbox, rounds, b);
    }
  }

  /** Public methods keep `Valid()`: the fields are those of a state that satisfies the invariant. */
  class CpuThread {
    var taskQueue: map<TaskId, Task>
    var readyQueue: seq<TaskId>
    var inbox: seq<Message>
    var nextTaskId: TaskId
    var running: bool
    const ioState: CpuIoState
    var cancelledTasks: set<TaskId>
    ghost var log: Cpu

    /** The fields are those of the logged state. */
    ghost predicate Coupled()
      reads this, ioState, ioState.backend
    {
      && ioState.Valid() && log.io == ioState.log
      && log.tasks == taskQueue && log.ready == readyQueue
      && log.cancelled == cancelledTasks && log.running == running
    }

    ghost predicate Valid()
      reads this, ioState, ioState.backend
    {
      Coupled() && Inv(log)
    }

    constructor (id: nat)
      ensures Valid() && log == EMPTY_CPU && inbox == [] && nextTaskId == id * 0x1_0000_0000
      ensures fresh(ioState) && fresh(ioState.backend)
    {
      ioState := new CpuIoState();
      taskQueue, readyQueue, inbox, cancelledTasks := map[], [], [], {};
      running, nextTaskId, log := true, id * 0x1_0000_0000, EMPTY_CPU;
      new;
      Reachable([]);
    }

    /** Pushes an id onto the ready queue, as every waker does. */
    method Wake(id: TaskId)
      requires Coupled()
      modifies this`readyQueue, this`log
      ensures Coupled() && log == WakeTask(old(log), id)
    {
      readyQueue := readyQueue + [id];
      log := WakeTask(log, id);
    }

    method DropTask(id: TaskId)
      requires Coupled()
      modifies this`taskQueue, this`log, ioState
      ensures Coupled() && log == CpuModel.DropTask(old(log), id)
    {
      if id in taskQueue {
        ioState.DropFutures(taskQueue[id].holds);
        taskQueue := taskQueue - {id};
        log := CpuModel.DropTask(log, id);
      }
    }

    method AddTask(id: TaskId, task: Task)
      requires Coupled()
      modifies this`taskQueue, this`readyQueue, this`log, ioState
      ensures Coupled() && log == CpuModel.AddTask(old(log), id, task)
    {
      DropTask(id);
      taskQueue := taskQueue[id := task];
      log := log.(tasks := taskQueue);
      Wake(id);
    }

    method Spawn(task: Task) returns (id: TaskId)
      requires Valid()
      modifies this, ioState
      ensures Valid() && id == old(nextTaskId) && nextTaskId == id + 1 && inbox == old(inbox)
      ensures log == Step(old(log), Spawned(id, task))
    {
      id := nextTaskId;
      nextTaskId := nextTaskId + 1;
      AddTask(id, task);
      StepKeeps(old(log), Spawned(id, task));
    }

    method HandleMessage(m: Message)
      requires Valid()
      modifies this`taskQueue, this`readyQueue, this`cancelledTasks, this`running, this`log, ioState
      ensures Valid() && log == Handle(old(log), m)
    {
      match m {
        case SubmitTask(id, task) => AddTask(id, task);
        case Shutdown =>
          running := false;
          log := log.(running := false);
        case Ping(_) =>
        case CancelTask(id) =>
          cancelledTasks := cancelledTasks + {id};
          log := log.(cancelled := cancelledTasks);
          DropTask(id);
      }
      StepKeeps(old(log), Delivered(m));
    }

    method ProcessMessages()
      requires Valid()
      modifies this, ioState
      ensures Valid() && inbox == [] && nextTaskId == old(nextTaskId)
      ensures log == HandleAll(old(log), old(inbox))
    {
      while inbox != []
        invariant Valid() && nextTaskId == old(nextTaskId)
        invariant HandleAll(log, inbox) == HandleAll(old(log), old(inbox))
        decreases |inbox|
      {
        var m := inbox[0];
        inbox := inbox[1..];
        HandleMessage(m);
      }
    }

    /** Plays the actions of one poll of task `id`. */
    method PlayActs(id: TaskId, acts: seq<Act>)
      requires Coupled()
      modifies this`readyQueue, this`log, ioState, ioState.backend
      ensures Coupled() && log == RunActs(old(log), id, acts)
    {
      for i := 0 to |acts|
        invariant Coupled()
        invariant RunActs(log, id, acts[i..]) == RunActs(old(log), id, acts)
      {
        assert acts[i..][1..] == acts[i + 1..];
        match acts[i] {
          case Wake(other) => Wake(other);
          case Submit(op, accepted, skip) =>
            var token := ioState.SubmitOp(op, accepted, skip);
            log := RunAct(log, id, acts[i]);
          case PollIo(token) =>
            if token in ioState.futures {
              var result := ioState.PollFuture(token, id);
            }
            log := RunAct(log, id, acts[i]);
          case DropIo(token) =>
            ioState.DropFutures({token});
            log := RunAct(log, id, acts[i]);
        }
      }
    }

    /** Polls a task that is in the queue; a pending one stays, a finished one is dropped. */
    method PollTask(id: TaskId)
      requires Coupled() && id in taskQueue
      modifies this`taskQueue, this`readyQueue, this`log, ioState, ioState.backend
      ensures Coupled() && log == CpuModel.PollTask(old(log), id)
    {
      var task := taskQueue[id];
      log := log.(polled := log.polled + [id]);
      if task.polls == [] {
        DropTask(id);
      } else {
        PlayActs(id, task.polls[0].acts);
        if task.polls[0].outcome.Ready? {
          DropTask(id);
        } else {
          taskQueue := taskQueue[id := task.(polls := task.polls[1..])];
          log := log.(tasks := taskQueue);
        }
      }
    }

    /** One turn of the drain loop. */
    method PopReady() returns (madeProgress: bool)
      requires Valid() && readyQueue != []
      modifies this, ioState, ioState.backend
      ensures Valid() && inbox == old(inbox) && nextTaskId == old(nextTaskId)
      ensures log == Pop(old(log)) && madeProgress == Drained(old(log), log)
    {
      madeProgress := false;
      var id := readyQueue[0];
      readyQueue := readyQueue[1..];
      log := Serve(log.(ready := readyQueue), id);
      ioState.log := log.io;
      if id in cancelledTasks {
        cancelledTasks := cancelledTasks - {id};
        log := log.(cancelled := cancelledTasks);
        DropTask(id);
        madeProgress := true;
      } else if id in taskQueue {
        madeProgress := true;
        PollTask(id);
      }
      PopKeeps(old(log));
      PopPolls(old(log));
    }

    /** Wakes several tasks. */
    method WakeEach(ids: seq<TaskId>)
      requires Valid()
      modifies this`readyQueue, this`log
      ensures Valid() && log == WakeAll(old(log), ids)
    {
      for i := 0 to |ids|
        invariant Coupled()
        invariant WakeAll(log, ids[i..]) == WakeAll(old(log), ids)
      {
        assert ids[i..][1..] == ids[i + 1..];
        Wake(ids[i]);
      }
      ghost var es := WakesAreRun(old(log), ids);
      RunKeeps(old(log), es);
    }

    /** The wakes of other threads before the next turn. */
    method Arrive(wakes: seq<seq<TaskId>>) returns (later: seq<seq<TaskId>>)
      requires Valid()
      modifies this`readyQueue, this`log
      ensures Valid() && log == Arrived(old(log), wakes) && later == Later(wakes)
    {
      later := wakes;
      if wakes != [] {
        WakeEach(wakes[0]);
        later := wakes[1..];
      }
    }

    /** One turn, and the wakes that arrive before the next one. */
    method Turn(wakes: seq<seq<TaskId>>) returns (madeProgress: bool, later: seq<seq<TaskId>>)
      requires Valid() && readyQueue != []
      modifies this, ioState, ioState.backend
      ensures Valid() && inbox == old(inbox) && nextTaskId == old(nextTaskId)
      ensures log == AfterTurn(old(log), wakes) && later == Later(wakes)
      ensures madeProgress == Drained(old(log), log)
    {
      madeProgress := PopReady();
      if wakes != [] { WakesOnlyWake(log, wakes[0]); }
      later := Arrive(wakes);
    }

    method DrainReady(wakes: seq<seq<TaskId>>) returns (madeProgress: bool)
      requires Valid()
      modifies this, ioState, ioState.backend
      ensures Valid() && inbox == old(inbox) && nextTaskId == old(nextTaskId)
      ensures log == Drain(old(log), wakes) && madeProgress == Drained(old(log), log)
    {
      madeProgress := false;
      if wakes != [] { WakesOnlyWake(log, wakes[0]); }
      var left := Arrive(wakes);
      while readyQueue != []
        invariant Valid() && inbox == old(inbox) && nextTaskId == old(nextTaskId)
        invariant Turns(log, left) == Drain(old(log), wakes)
        invariant Shorter(old(log), log) && madeProgress == Drained(old(log), log)
        decreases |left|, Measures.Total(log.tasks, PollsLeft()), |log.ready|
      {
        TurnShortens(old(log), log, left);
        var progress;
        progress, left := Turn(left);
        madeProgress := madeProgress || progress;
      }
    }

    /** Stores one result and fires its waker. */
    method StoreAnswer(a: Answer)
      requires Coupled()
      modifies this`readyQueue, this`log, ioState
      ensures Coupled() && log == Store(old(log), a)
    {
      log := Store(log, a);
      ioState.completedIo := ioState.completedIo[a.token := a.result];
      if a.token in ioState.ioWakers {
        readyQueue := readyQueue + [ioState.ioWakers[a.token]];
        ioState.ioWakers := ioState.ioWakers - {a.token};
      }
      ioState.log := log.io;
    }

    /** The loop over the answers. */
    method StoreAnswers(answers: seq<Answer>)
      requires Coupled()
      modifies this`readyQueue, this`log, ioState
      ensures Coupled() && log == StoreAll(old(log), answers)
    {
      assert answers[0..] == answers;
      for i := 0 to |answers|
        invariant Coupled()
        invariant StoreAll(log, answers[i..]) == StoreAll(old(log), answers)
      {
        assert answers[i..][1..] == answers[i + 1..];
        StoreAnswer(answers[i]);
      }
    }

    method PollIoCompletions(cs: seq<Cqe>) returns (madeProgress: bool)
      requires Valid()
      modifies this`readyQueue, this`log, ioState, ioState.backend
      ensures Valid() && log == CompleteAll(old(log), cs)
      ensures madeProgress == (log.io.pending != old(log).io.pending)
    {
      TwoPhases(log, cs);
      AnsweredSome(log, cs);
      CompletionsKeep(log, cs);
      var answers := ioState.backend.PollComplete(cs);
      log := WithPending(log, ioState.backend.pendingOps);
      ioState.log := log.io;
      madeProgress := answers != [];
      StoreAnswers(answers);
    }

    /** The messages are those in the channel. */
    method Tick(expired: seq<TaskId>, wakes: seq<seq<TaskId>>, cs: seq<Cqe>) returns (madeProgress: bool)
      requires Valid()
      modifies this, ioState, ioState.backend
      ensures Valid() && inbox == []
      ensures log == CpuModel.Tick(old(log), Input(old(inbox), expired, wakes, cs))
      ensures madeProgress == Progress(old(log), Input(old(inbox), expired, wakes, cs))
    {
      ProcessMessages();
      WakeEach(expired);
      var drained := DrainReady(wakes);
      var completed := PollIoCompletions(cs);
      madeProgress := expired != [] || drained || completed;
    }

    /** What `run` does between two ticks, with `later` in the channel. */
    method Receive(later: seq<Message>, closed: bool)
      requires Valid()
      modifies this, ioState
      ensures Valid()
      ensures log == AfterTick(old(log), later, closed).0
      ensures inbox == AfterTick(old(log), later, closed).1
    {
      inbox := later;
      if readyQueue != [] {
        ProcessMessages();
      } else if inbox != [] {
        inbox := inbox[1..];
        HandleMessage(later[0]);
      } else if closed {
        running := false;
        log := log.(running := false);
      }
      AfterTickKeeps(old(log), later, closed);
    }

    /** One round of the event loop; `stop` holds the state in which it waits, if it does. */
    method PlayRound(x: Round) returns (ghost stop: seq<Cpu>)
      requires Valid()
      modifies this, ioState, ioState.backend
      ensures Valid() && stop == Stop(old(log), old(inbox), x)
      ensures (log, inbox) == AfterRound(old(log), old(inbox), x)
    {
      inbox := inbox + x.arrived;
      var progress := Tick(x.expired, x.wakes, x.cqes);
      WakeEach(x.late);
      stop := if readyQueue == [] then [log] else [];
      Receive(x.later, x.closed);
    }

    /** The event loop, over the rounds its environment provides. */
    method Loop(rounds: seq<Round>) returns (ghost blocked: seq<Cpu>)
      requires Valid()
      modifies this, ioState, ioState.backend
      ensures Valid() && blocked == Blocked(old(log), old(inbox), rounds)
    {
      hide Blocked;
      blocked := [];
      var left := rounds;
      ghost var all, ahead := Blocked(log, inbox, rounds), Blocked(log, inbox, rounds);
      while running && left != []
        invariant Valid() && ahead == Blocked(log, inbox, left) && all == blocked + ahead
        decreases |left|
      {
        ghost var was, mail := log, inbox;
        ghost var stop := PlayRound(left[0]);
        ghost var rest := Blocked(log, inbox, left[1..]);
        assert ahead == stop + rest by { FirstRound(was, mail, left); }
        left := left[1..];
        blocked, ahead := blocked + stop, rest;
      }
      assert ahead == [] by { NoRound(log, inbox, left); }
    }

    /** Whenever the event loop waits on the channel, every wake and every delivered result has been
        served. */
    method Run(rounds: seq<Round>) returns (ghost blocked: seq<Cpu>)
      requires Valid()
      modifies this, ioState, ioState.backend
      ensures Valid() && blocked == Blocked(old(log), old(inbox), rounds)
      ensures AllServed(blocked)
    {
      BlockedServed(log, inbox, rounds);
      blocked := Loop(rounds);
    }
  }
}
