/** The per-CPU scheduler with its I/O wake protocol as a state machine
    (`src/cpu.rs`, `src/io/future.rs`, `src/io/uring.rs`, `src/waker.rs`). */
module CpuModel {
  import opened Io
  import opened Measures

  type TaskId = nat

  /** What a task may do while it is polled. `skip` counts the tokens other threads take from the
      shared counter in between; `accepted` says whether the submission ring had room. */
  datatype Act =
    | Wake(id: TaskId)
    | Submit(op: Op, accepted: bool, skip: nat)
    | PollIo(token: Token)
    | DropIo(token: Token)

  datatype Outcome = Pending | Ready

  datatype PollScript = PollScript(acts: seq<Act>, outcome: Outcome)

  /** A task is the script of its polls, and the futures its destructor would drop. A task polled
      past the end of its script is ready. */
  datatype Task = Task(polls: seq<PollScript>, holds: set<Token>)

  datatype Message =
    | SubmitTask(id: TaskId, task: Task)
    | Shutdown
    | Ping(replyTo: nat)
    | CancelTask(id: TaskId)

  /** The first four fields are the program's: the backend's table and the two maps shared with the
      futures. The rest is history: which futures exist and were last told to wait by whom, which of
      those were completed since and not yet given a poll, and what became of each accepted token. */
  datatype IoState = IoState(
    pending: map<Token, Op>,
    wakers: map<Token, TaskId>,
    completed: map<Token, IoResult>,
    nextToken: Token,
    live: set<Token>,
    waiting: map<Token, TaskId>,
    signalled: map<Token, TaskId>,
    accepted: map<Token, Op>,
    returned: map<Token, IoResult>,
    discarded: set<Token>)

  /** `polled` and `due` are history: the polls so far, and the tasks submitted or woken, or whose
      awaited I/O completed, since their last poll began. */
  datatype Cpu = Cpu(
    tasks: map<TaskId, Task>,
    ready: seq<TaskId>,
    cancelled: set<TaskId>,
    running: bool,
    io: IoState,
    polled: seq<TaskId>,
    due: set<TaskId>)

  const EMPTY_IO := IoState(map[], map[], map[], 1, {}, map[], map[], map[], map[], {})
  const EMPTY_CPU := Cpu(map[], [], {}, true, EMPTY_IO, [], {})

  // ----- Steps -----

  function WakeTask(s: Cpu, id: TaskId): (r: Cpu) {
    s.(ready := s.ready + [id], due := s.due + {id})
  }

  function SubmitOp(io: IoState, op: Op, accepted: bool, skip: nat): (r: IoState) {
    var f := io.nextToken + skip;
    io.(nextToken := f + 1, live := io.live + {f},
        pending := if accepted then io.pending[f := op] else io.pending,
        accepted := if accepted then io.accepted[f := op] else io.accepted)
  }

  /** `IoFuture::poll` by task `id`: take the stored result, or leave a waker. */
  function PollFuture(io: IoState, id: TaskId, f: Token): (r: IoState) {
    if f !in io.live then io
    else if f in io.completed then
      io.(completed := io.completed - {f}, returned := io.returned[f := io.completed[f]],
          waiting := io.waiting - {f}, signalled := io.signalled - {f})
    else
      io.(wakers := io.wakers[f := id],
          waiting := io.waiting[f := id], signalled := io.signalled - {f})
  }

  /** `IoFuture::drop` for each of `fs`. */
  function DropFutures(io: IoState, fs: set<Token>): (r: IoState) {
    var gone := fs * io.live;
    io.(wakers := io.wakers - gone, completed := io.completed - gone,
        discarded := io.discarded + gone * io.completed.Keys,
        live := io.live - gone, waiting := io.waiting - gone, signalled := io.signalled - gone)
  }

  function RunAct(s: Cpu, id: TaskId, act: Act): (r: Cpu) {
    match act
    case Wake(other) => WakeTask(s, other)
    case Submit(op, accepted, skip) => s.(io := SubmitOp(s.io, op, accepted, skip))
    case PollIo(f) => s.(io := PollFuture(s.io, id, f))
    case DropIo(f) => s.(io := DropFutures(s.io, {f}))
  }

  function RunActs(s: Cpu, id: TaskId, acts: seq<Act>): (r: Cpu)
    ensures r.tasks == s.tasks && r.cancelled == s.cancelled && r.polled == s.polled
    decreases acts
  {
    if acts == [] then s else RunActs(RunAct(s, id, acts[0]), id, acts[1..])
  }

  function DropTask(s: Cpu, id: TaskId): (r: Cpu) {
    if id !in s.tasks then s
    else s.(tasks := s.tasks - {id}, io := DropFutures(s.io, s.tasks[id].holds))
  }

  /** The queue hands out `id`: from here on its wakes count as served. */
  function Serve(s: Cpu, id: TaskId): (r: Cpu) {
    s.(due := s.due - {id},
       io := s.io.(signalled := map f | f in s.io.signalled && s.io.signalled[f] != id :: s.io.signalled[f]))
  }

  function PollTask(s: Cpu, id: TaskId): (r: Cpu)
    requires id in s.tasks
  {
    var t := s.tasks[id];
    var s1 := s.(polled := s.polled + [id]);
    if t.polls == [] then DropTask(s1, id)
    else
      var s2 := RunActs(s1, id, t.polls[0].acts);
      if t.polls[0].outcome.Ready? then DropTask(s2, id)
      else s2.(tasks := s2.tasks[id := t.(polls := t.polls[1..])])
  }

  /** One turn of the drain loop. */
  function Pop(s: Cpu): (r: Cpu)
    requires s.ready != []
  {
    var id := s.ready[0];
    var s1 := Serve(s.(ready := s.ready[1..]), id);
    if id in s.cancelled then DropTask(s1.(cancelled := s.cancelled - {id}), id)
    else if id in s.tasks then PollTask(s1, id)
    else s1
  }

  /** One completion: the table entry goes, the result is stored, the registered waker fires. */
  function Complete(s: Cpu, c: Cqe): (r: Cpu) {
    var f, io := c.userData, s.io;
    if f !in io.pending then s
    else
      s.(ready := if f in io.wakers then s.ready + [io.wakers[f]] else s.ready,
         due := if f in io.waiting then s.due + {io.waiting[f]} else s.due,
         io := io.(pending := io.pending - {f},
                   completed := io.completed[f := ResultOf(io.pending[f], c)],
                   wakers := io.wakers - {f},
                   signalled := if f in io.waiting then io.signalled[f := io.waiting[f]]
                                else io.signalled))
  }

  function AddTask(s: Cpu, id: TaskId, t: Task): (r: Cpu) {
    WakeTask(DropTask(s, id).(tasks := s.tasks[id := t]), id)
  }

  function Handle(s: Cpu, m: Message): (r: Cpu) {
    match m
    case SubmitTask(id, t) => AddTask(s, id, t)
    case Shutdown => s.(running := false)
    case Ping(_) => s
    case CancelTask(id) => DropTask(s.(cancelled := s.cancelled + {id}), id)
  }

  // ----- Runs: any interleaving of the steps -----

  datatype Event =
    | Spawned(id: TaskId, task: Task)
    | Delivered(message: Message)
    | Woken(id: TaskId)
    | Popped
    | Completion(cqe: Cqe)

  function Step(s: Cpu, e: Event): (r: Cpu) {
    match e
    case Spawned(id, t) => AddTask(s, id, t)
    case Delivered(m) => Handle(s, m)
    case Woken(id) => WakeTask(s, id)
    case Popped => if s.ready == [] then s else Pop(s)
    case Completion(c) => Complete(s, c)
  }

  function Run(s: Cpu, es: seq<Event>): (r: Cpu)
    decreases es
  {
    if es == [] then s else Run(Step(s, es[0]), es[1..])
  }

  // ----- The loops of `tick` -----

  function PollsLeft(): Task -> nat {
    (t: Task) => |t.polls|
  }

  lemma PopDecreases(s: Cpu)
    requires s.ready != []
    ensures var r := Pop(s);
            || Total(r.tasks, PollsLeft()) < Total(s.tasks, PollsLeft())
            || (Total(r.tasks, PollsLeft()) == Total(s.tasks, PollsLeft()) && |r.ready| < |s.ready|)
  {
    var id := s.ready[0];
    if id in s.tasks {
      var t := s.tasks[id];
      TotalRemove(s.tasks, PollsLeft(), id);
      if t.polls != [] {
        TotalUpdate(s.tasks, PollsLeft(), id, t.(polls := t.polls[1..]));
      }
    }
  }

  /** The wakes other threads send before the next turn of the loop. */
  function Arrived(s: Cpu, wakes: seq<seq<TaskId>>): (r: Cpu)
  {
    if wakes == [] then s else WakeAll(s, wakes[0])
  }

  function Later(wakes: seq<seq<TaskId>>): (r: seq<seq<TaskId>>) {
    if wakes == [] then [] else wakes[1..]
  }

  /** The drain loop, with the wakes that arrive from other threads before each of its turns. It ends
      because each turn takes a batch of these or, when they have run out, uses up a poll of some task
      or else shortens the queue. */
  function Drain(s: Cpu, wakes: seq<seq<TaskId>>): (r: Cpu)
    ensures r.ready == []
    decreases |wakes|, Total(s.tasks, PollsLeft()), |s.ready|
  {
    var s1 := Arrived(s, wakes);
    if s1.ready == [] then s1
    else
      PopDecreases(s1);
      Drain(Pop(s1), Later(wakes))
  }

  function HandleAll(s: Cpu, ms: seq<Message>): (r: Cpu)
    decreases ms
  {
    if ms == [] then s else HandleAll(Handle(s, ms[0]), ms[1..])
  }

  function WakeAll(s: Cpu, ids: seq<TaskId>): (r: Cpu)
    decreases ids
  {
    if ids == [] then s else WakeAll(WakeTask(s, ids[0]), ids[1..])
  }

  function CompleteAll(s: Cpu, cs: seq<Cqe>): (r: Cpu)
    decreases cs
  {
    if cs == [] then s else CompleteAll(Complete(s, cs[0]), cs[1..])
  }

  /** What a tick finds: the messages in the channel, the tasks whose timers have expired, the wakes
      that arrive from other threads while it drains the queue, and the completions the kernel has
      posted. */
  datatype Input = Input(messages: seq<Message>, expired: seq<TaskId>, wakes: seq<seq<TaskId>>, cqes: seq<Cqe>)

  /** The state in which the tick enters the drain loop. */
  function Entering(s: Cpu, x: Input): (r: Cpu) {
    WakeAll(HandleAll(s, x.messages), x.expired)
  }

  /** One tick: the messages, the expired timers, the drain loop, and the completions. */
  function Tick(s: Cpu, x: Input): (r: Cpu) {
    CompleteAll(Drain(Entering(s, x), x.wakes), x.cqes)
  }
}
