/** The single-threaded executor and its join handles (`src/executor.rs`, `src/task.rs`). */
module ExecutorModel {
  import opened Measures

  type TaskId = nat

  datatype Outcome = Pending | Ready(value: int) | Panic

  /** One poll: the ids it wakes, and how it ends. */
  datatype Poll = Poll(wakes: seq<TaskId>, outcome: Outcome)

  /** A task is the script of its polls; polled past the end it is ready with `value`. */
  datatype Task = Task(polls: seq<Poll>, value: int) {
    function Next(): (p: Poll) {
      if polls == [] then Poll([], Ready(value)) else polls[0]
    }

    function Rest(): (t: Task) {
      if polls == [] then this else this.(polls := polls[1..])
    }
  }

  /** The one-slot channel from a task to its handle: empty with the task still holding the sender,
      holding its result, or empty with the sender gone. */
  datatype Channel = Open | Full(value: int) | Closed

  datatype Entry = Entry(id: TaskId, outcome: Outcome)

  /** `log` and `taken` are history: every poll and how it ended, and every result received. */
  datatype Exec = Exec(
    tasks: map<TaskId, Task>, ready: seq<TaskId>, nextId: TaskId, channels: map<TaskId, Channel>,
    log: seq<Entry>, taken: seq<TaskId>)

  const NEW_EXEC := Exec(map[], [], 1, map[], [], [])

  function Spawn(s: Exec, t: Task): (r: Exec) {
    var id := s.nextId;
    s.(tasks := s.tasks[id := t], ready := s.ready + [id], nextId := id + 1,
       channels := s.channels[id := Open])
  }

  /** One turn of `tick`: take an id, and poll its task if there is one. A panic is caught; like a
      result it ends the task, but it leaves the channel empty and closed. */
  function Pop(s: Exec): (r: Exec)
    requires s.ready != []
  {
    var id := s.ready[0];
    var s1 := s.(ready := s.ready[1..]);
    if id !in s.tasks then s1
    else
      var t, p := s.tasks[id], s.tasks[id].Next();
      var s2 := s1.(ready := s1.ready + p.wakes, log := s.log + [Entry(id, p.outcome)]);
      match p.outcome
      case Pending => s2.(tasks := s.tasks[id := t.Rest()])
      case Ready(v) => s2.(tasks := s.tasks - {id}, channels := s.channels[id := Full(v)])
      case Panic => s2.(tasks := s.tasks - {id}, channels := s.channels[id := Closed])
  }

  function PollsLeft(): Task -> nat {
    (t: Task) => |t.polls|
  }

  lemma PopDecreases(s: Exec)
    requires s.ready != []
    ensures var r := Pop(s);
            || Total(r.tasks, PollsLeft()) < Total(s.tasks, PollsLeft())
            || (Total(r.tasks, PollsLeft()) == Total(s.tasks, PollsLeft()) && |r.ready| < |s.ready|)
  {
    var id := s.ready[0];
    if id in s.tasks {
      TotalRemove(s.tasks, PollsLeft(), id);
      TotalUpdate(s.tasks, PollsLeft(), id, s.tasks[id].Rest());
    }
  }

  /** `tick`, without its answer: each turn uses up a poll of some task, or shortens the queue. */
  function Tick(s: Exec): (r: Exec)
    ensures r.ready == []
    decreases Total(s.tasks, PollsLeft()), |s.ready|
  {
    if s.ready == [] then s
    else
      PopDecreases(s);
      Tick(Pop(s))
  }

  // ----- Join handles -----

  datatype Received = Empty | Got(value: int) | Disconnected

  function TryRecv(s: Exec, id: TaskId): (r: Received) {
    if id !in s.channels then Disconnected
    else
      match s.channels[id]
      case Open => Empty
      case Full(v) => Got(v)
      case Closed => Disconnected
  }

  /** Receiving takes the result out of the channel; the sender is gone by then. */
  function AfterRecv(s: Exec, id: TaskId): (r: Exec) {
    if TryRecv(s, id).Got? then
      s.(channels := s.channels[id := Closed], taken := s.taken + [id])
    else s
  }

  datatype Joined = StillPending | Finished(value: int) | Cancelled

  /** What `JoinHandle::poll` answers. */
  function PollHandle(s: Exec, id: TaskId): (r: Joined) {
    match TryRecv(s, id)
    case Empty => StillPending
    case Got(v) => Finished(v)
    case Disconnected => Cancelled
  }

  /** What `JoinHandle::is_finished` answers; it receives as well. */
  predicate IsFinished(s: Exec, id: TaskId) {
    !TryRecv(s, id).Empty?
  }

  // ----- Runs -----

  datatype Event = Spawned(task: Task) | Woken(id: TaskId) | Popped | Asked(id: TaskId)

  /** `Asked` is any call on a handle: `poll`, `is_finished` and `cancel` all receive. */
  function Step(s: Exec, e: Event): (r: Exec) {
    match e
    case Spawned(t) => Spawn(s, t)
    case Woken(id) => s.(ready := s.ready + [id])
    case Popped => if s.ready == [] then s else Pop(s)
    case Asked(id) => AfterRecv(s, id)
  }

  function Run(s: Exec, es: seq<Event>): (r: Exec)
    decreases es
  {
    if es == [] then s else Run(Step(s, es[0]), es[1..])
  }
}
