/** One core of the thread-per-core runtime: bounded batches over two FIFO queues
    (`src/multicore.rs`). */
module CoreModel {
  import opened Sequences

  const MESSAGES_PER_TURN := 32
  const POLLS_PER_TURN := 16

  type TaskId = nat

  datatype Life = Forever | Ends(polls: nat)

  /** A task and how many times it will still answer Pending. */
  datatype Task = Task(id: TaskId, life: Life)

  datatype Message =
    | TaskMsg(task: Task)
    | Ping(fromCore: nat)
    | Shutdown
    | CancelTask(id: TaskId)

  /** The first four fields are the program's. The logs record which ids were polled, finished and
      removed by a cancellation. */
  datatype Core = Core(
    inbox: seq<Message>, queue: seq<Task>, count: int, shutdown: bool,
    polled: seq<TaskId>, completed: seq<TaskId>, cancelled: seq<TaskId>)

  function Ids(ts: seq<Task>): (r: seq<TaskId>)
    ensures |r| == |ts|
    ensures forall i :: 0 <= i < |ts| ==> r[i] == ts[i].id
  {
    seq(|ts|, i requires 0 <= i < |ts| => ts[i].id)
  }

  function Named(id: TaskId): Task -> bool {
    (t: Task) => t.id == id
  }

  function NotNamed(id: TaskId): Task -> bool {
    (t: Task) => t.id != id
  }

  /** Handles the message at the front of the inbox. A cancellation takes the task out of the queue
      and leaves the counter alone. */
  function PopMessage(c: Core): (r: Core)
    requires c.inbox != []
  {
    var c1 := c.(inbox := c.inbox[1..]);
    match c.inbox[0]
    case TaskMsg(t) => c1.(queue := c.queue + [t], count := c.count + 1)
    case Ping(_) => c1
    case Shutdown => c1.(shutdown := true)
    case CancelTask(id) =>
      c1.(queue := Filter(NotNamed(id), c.queue),
          cancelled := c.cancelled + Ids(Filter(Named(id), c.queue)))
  }

  /** Polls the task at the front of the queue. */
  function PollOne(c: Core): (r: Core)
    requires c.queue != []
  {
    var t := c.queue[0];
    var c1 := c.(queue := c.queue[1..], polled := c.polled + [t.id]);
    match t.life
    case Forever => c1.(queue := c1.queue + [t])
    case Ends(k) =>
      if k == 0 then c1.(count := c.count - 1, completed := c.completed + [t.id])
      else c1.(queue := c1.queue + [t.(life := Ends(k - 1))])
  }

  function ProcessMessages(c: Core, budget: nat): (r: Core)
    decreases budget, |c.inbox|
  {
    if budget == 0 || c.inbox == [] then c
    else if c.inbox[0].Shutdown? then PopMessage(c)
    else ProcessMessages(PopMessage(c), budget - 1)
  }

  function ExecuteTasks(c: Core, budget: nat): (r: Core)
    decreases budget, |c.queue|
  {
    if budget == 0 || c.queue == [] then c else ExecuteTasks(PollOne(c), budget - 1)
  }

  /** One turn of the event loop. */
  function Turn(c: Core): (r: Core) {
    ExecuteTasks(ProcessMessages(c, MESSAGES_PER_TURN), POLLS_PER_TURN)
  }

  /** The event loop, with the messages that arrive before each turn. Messages that arrive while a
      turn reads the inbox count as arrived before it if it still gets to see them. */
  function Loop(c: Core, arrivals: seq<seq<Message>>): (r: Core)
    decreases arrivals
  {
    if arrivals == [] || c.shutdown then c
    else Loop(Turn(c.(inbox := c.inbox + arrivals[0])), arrivals[1..])
  }

  const NEW_CORE := Core([], [], 0, false, [], [], [])
}

/** The event loop of a core in place. */
module CoreClass {
  import opened Sequences
  import opened CoreModel
  import opened CoreCounts

  class CpuCore {
    var taskQueue: seq<Task>
    var messageInbox: seq<Message>
    var shutdown: bool
    var localTaskCount: nat
    ghost var polled: seq<TaskId>
    ghost var completed: seq<TaskId>
    ghost var cancelled: seq<TaskId>

    ghost function View(): (c: Core)
      reads this
    {
      Core(messageInbox, taskQueue, localTaskCount, shutdown, polled, completed, cancelled)
    }

    /** The counter covers the queue, plus the tasks a cancellation removed without counting. */
    ghost predicate Valid()
      reads this
    {
      localTaskCount == |taskQueue| + |cancelled|
    }

    constructor ()
      ensures Valid() && View() == NEW_CORE
    {
      taskQueue, messageInbox, shutdown, localTaskCount := [], [], false, 0;
      polled, completed, cancelled := [], [], [];
    }

    /** Takes the front message and handles it; `stop` tells a shutdown. */
    method HandleFront() returns (stop: bool)
      requires Valid() && messageInbox != []
      modifies this
      ensures Valid() && View() == PopMessage(old(View()))
      ensures stop == old(messageInbox)[0].Shutdown?
    {
      var m := messageInbox[0];
      messageInbox := messageInbox[1..];
      stop := false;
      match m {
        case TaskMsg(t) =>
          taskQueue := taskQueue + [t];
          localTaskCount := localTaskCount + 1;
        case Ping(_) =>
        case Shutdown =>
          shutdown := true;
          stop := true;
        case CancelTask(id) =>
          RemovedSize(taskQueue, id);
          cancelled := cancelled + Ids(Filter(Named(id), taskQueue));
          taskQueue := Filter(NotNamed(id), taskQueue);
      }
    }

    method ProcessMessages() returns (worked: bool)
      requires Valid()
      modifies this
      ensures Valid() && View() == CoreModel.ProcessMessages(old(View()), MESSAGES_PER_TURN)
      ensures worked == (old(messageInbox) != [])
    {
      var processed := 0;
      while processed < MESSAGES_PER_TURN
        invariant Valid() && processed <= MESSAGES_PER_TURN
        invariant CoreModel.ProcessMessages(View(), MESSAGES_PER_TURN - processed)
               == CoreModel.ProcessMessages(old(View()), MESSAGES_PER_TURN)
        invariant processed == 0 ==> messageInbox == old(messageInbox)
        invariant processed > 0 ==> old(messageInbox) != []
      {
        if messageInbox == [] { break; }
        var stop := HandleFront();
        processed := processed + 1;
        if stop { break; }
      }
      worked := processed > 0;
    }

    /** Takes the front task, polls it, and puts it back if it is pending. */
    method PollOne()
      requires Valid() && taskQueue != []
      modifies this
      ensures Valid() && View() == CoreModel.PollOne(old(View()))
    {
      var task := taskQueue[0];
      taskQueue := taskQueue[1..];
      polled := polled + [task.id];
      match task.life {
        case Forever => taskQueue := taskQueue + [task];
        case Ends(k) =>
          if k == 0 {
            localTaskCount := localTaskCount - 1;
            completed := completed + [task.id];
          } else {
            taskQueue := taskQueue + [task.(life := Ends(k - 1))];
          }
      }
    }

    method ExecuteTasks() returns (worked: bool)
      requires Valid()
      modifies this
      ensures Valid() && View() == CoreModel.ExecuteTasks(old(View()), POLLS_PER_TURN)
      ensures worked == (old(taskQueue) != [])
    {
      var executed := 0;
      while executed < POLLS_PER_TURN && taskQueue != []
        invariant Valid() && executed <= POLLS_PER_TURN
        invariant CoreModel.ExecuteTasks(View(), POLLS_PER_TURN - executed)
               == CoreModel.ExecuteTasks(old(View()), POLLS_PER_TURN)
        invariant executed == 0 ==> taskQueue == old(taskQueue)
        invariant executed > 0 ==> old(taskQueue) != []
      {
        PollOne();
        executed := executed + 1;
      }
      worked := executed > 0;
    }

    method Run(arrivals: seq<seq<Message>>)
      requires Valid()
      modifies this
      ensures Valid() && View() == Loop(old(View()), arrivals)
    {
      var left := arrivals;
      while !shutdown && left != []
        invariant Valid() && Loop(View(), left) == Loop(old(View()), arrivals)
        decreases |left|
      {
        messageInbox := messageInbox + left[0];
        var processed := ProcessMessages();
        var executed := ExecuteTasks();
        left := left[1..];
      }
    }
  }
}
