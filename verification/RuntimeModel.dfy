/** The thread-per-core runtime as a concurrent protocol: any number of `shutdown` and `spawn`
    callers, each a sequence of atomic steps, interleaved with the cores (`src/multicore.rs`). */
module RuntimeModel {
  import opened CoreModel
  import opened Options

  datatype Phase = Initializing | Running | ShuttingDown | Terminated

  const WORD := 0x1_0000_0000_0000_0000

  /** Where a caller stands. `on` is the core a `spawn_on` asks for. */
  datatype Caller =
    | ShutdownLoad
    | ShutdownCas
    | ShutdownReload
    | ShutdownPush(next: nat)
    | ShutdownDone(ok: bool)
    | SpawnLoad(on: Option<nat>, life: Life)
    | SpawnId(on: Option<nat>, life: Life)
    | SpawnTicket(id: TaskId, life: Life)
    | SpawnPush(core: nat, id: TaskId, life: Life)
    | SpawnDone(result: Option<TaskId>)

  /** History: everything ever pushed to each inbox, the caller that won the compare-and-exchange,
      how many inboxes it has told to stop, and the core each task was pushed to. */
  datatype Runtime = Runtime(
    phase: Phase, cores: seq<Core>, callers: seq<Caller>, nextTask: TaskId, nextCore: nat,
    pushed: seq<seq<Message>>, winner: Option<nat>, sent: nat, home: map<TaskId, nat>)

  /** The runtime as `new` returns it. */
  function New(n: nat): (s: Runtime) {
    Runtime(Running, seq(n, _ => NEW_CORE), [], 1, 0, seq(n, _ => []), None, 0, map[])
  }

  predicate Sized(s: Runtime, n: nat) {
    n > 0 && |s.cores| == n && |s.pushed| == n
  }

  function Push(s: Runtime, j: nat, m: Message): (r: Runtime)
    requires j < |s.cores| && j < |s.pushed|
    ensures |r.cores| == |s.cores| && |r.pushed| == |s.pushed|
  {
    var c := s.cores[j];
    s.(cores := s.cores[j := c.(inbox := c.inbox + [m])], pushed := s.pushed[j := s.pushed[j] + [m]])
  }

  function Put(s: Runtime, i: nat, c: Caller): (r: Runtime)
    requires i < |s.callers|
  {
    s.(callers := s.callers[i := c])
  }

  predicate Stopping(p: Phase) {
    p.ShuttingDown? || p.Terminated?
  }

  /** The next atomic step of caller `i`. */
  function Advance(s: Runtime, n: nat, i: nat): (r: Runtime)
    requires Sized(s, n) && i < |s.callers|
    ensures Sized(r, n)
  {
    match s.callers[i]
    case ShutdownLoad => Put(s, i, if Stopping(s.phase) then ShutdownDone(true) else ShutdownCas)
    case ShutdownCas =>
      if s.phase.Running? then
        Put(s, i, ShutdownPush(0)).(phase := ShuttingDown, winner := Some(i), sent := 0)
      else Put(s, i, ShutdownReload)
    case ShutdownReload => Put(s, i, ShutdownDone(Stopping(s.phase)))
    case ShutdownPush(k) =>
      if k < n then Put(Push(s, k, Shutdown), i, ShutdownPush(k + 1)).(sent := k + 1)
      else Put(s, i, ShutdownDone(true))
    case SpawnLoad(on, life) =>
      Put(s, i, if !s.phase.Running? || (on.Some? && on.value >= n) then SpawnDone(None)
                else SpawnId(on, life))
    case SpawnId(on, life) =>
      var id := s.nextTask;
      Put(s, i, if on.Some? then SpawnPush(on.value, id, life) else SpawnTicket(id, life))
        .(nextTask := id + 1)
    case SpawnTicket(id, life) =>
      Put(s, i, SpawnPush(s.nextCore % n, id, life)).(nextCore := (s.nextCore + 1) % WORD)
    case SpawnPush(core, id, life) =>
      if core < n then
        Put(Push(s, core, TaskMsg(Task(id, life))), i, SpawnDone(Some(id))).(home := s.home[id := core])
      else s
    case _ => s
  }

  datatype Action =
    | Call(caller: Caller)
    | Step(index: nat)
    | Receive(core: nat)
    | Poll(core: nat)
    | Send(core: nat, message: Message)
    | Join

  /** Any thread takes its next step; an action that is not enabled changes nothing. A core that has
      seen the shutdown reads no more messages, and `join` returns only when all have. */
  function Act(s: Runtime, n: nat, a: Action): (r: Runtime)
    requires Sized(s, n)
    ensures Sized(r, n)
  {
    match a
    case Call(c) => if c.ShutdownLoad? || c.SpawnLoad? then s.(callers := s.callers + [c]) else s
    case Step(i) => if i < |s.callers| then Advance(s, n, i) else s
    case Receive(j) =>
      if j < n && !s.cores[j].shutdown && s.cores[j].inbox != [] then
        s.(cores := s.cores[j := PopMessage(s.cores[j])])
      else s
    case Poll(j) =>
      if j < n && s.cores[j].queue != [] then s.(cores := s.cores[j := PollOne(s.cores[j])]) else s
    case Send(j, m) => if j < n && (m.Ping? || m.CancelTask?) then Push(s, j, m) else s
    case Join =>
      if (forall j :: 0 <= j < n ==> s.cores[j].shutdown) then s.(phase := Terminated) else s
  }

  function Run(s: Runtime, n: nat, acts: seq<Action>): (r: Runtime)
    requires Sized(s, n)
    ensures Sized(r, n)
    decreases acts
  {
    if acts == [] then s else Run(Act(s, n, acts[0]), n, acts[1..])
  }
}
