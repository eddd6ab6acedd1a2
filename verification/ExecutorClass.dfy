/** The executor in place. */
module ExecutorClass {
  import opened Measures
  import opened ExecutorModel
  import opened ExecutorTermination

  class Executor {
    var tasks: map<TaskId, Task>
    var readyQueue: seq<TaskId>
    var nextTaskId: TaskId
    var channels: map<TaskId, Channel>
    ghost var log: seq<Entry>
    ghost var taken: seq<TaskId>

    ghost function View(): (s: Exec)
      reads this
    {
      Exec(tasks, readyQueue, nextTaskId, channels, log, taken)
    }

    constructor ()
      ensures View() == NEW_EXEC
    {
      tasks, readyQueue, nextTaskId, channels, log, taken := map[], [], 1, map[], [], [];
    }

    method Spawn(task: Task) returns (id: TaskId)
      modifies this
      ensures id == old(nextTaskId) && View() == ExecutorModel.Spawn(old(View()), task)
    {
      id := nextTaskId;
      nextTaskId := nextTaskId + 1;
      channels := channels[id := Open];
      tasks := tasks[id := task];
      readyQueue := readyQueue + [id];
    }

    /** Polls task `id`, taken out of the table, and settles it. */
    method PollTask(id: TaskId)
      requires id in tasks
      modifies this`tasks, this`readyQueue, this`channels, this`log
      ensures View() == Pop(old(View()).(ready := [id] + old(readyQueue)))
    {
      var task := tasks[id];
      tasks := tasks - {id};
      var p := task.Next();
      readyQueue := readyQueue + p.wakes;
      log := log + [Entry(id, p.outcome)];
      match p.outcome {
        case Pending => tasks := tasks[id := task.Rest()];
        case Ready(v) => channels := channels[id := Full(v)];
        case Panic => channels := channels[id := Closed];
      }
    }

    /** One turn of the loop: takes an id and polls its task, if there is one. */
    method Turn() returns (polled: bool)
      requires readyQueue != []
      modifies this`tasks, this`readyQueue, this`channels, this`log
      ensures View() == Pop(old(View()))
      ensures |log| == |old(log)| + if polled then 1 else 0
    {
      var id := readyQueue[0];
      readyQueue := readyQueue[1..];
      polled := id in tasks;
      if polled {
        PollTask(id);
        assert old(View()).ready == [id] + old(readyQueue)[1..];
      }
    }

    method Tick() returns (madeProgress: bool)
      modifies this
      ensures View() == ExecutorModel.Tick(old(View()))
      ensures madeProgress == (|log| > |old(log)|)
    {
      madeProgress := false;
      while readyQueue != []
        invariant ExecutorModel.Tick(View()) == ExecutorModel.Tick(old(View()))
        invariant |log| >= |old(log)| && madeProgress == (|log| > |old(log)|)
        decreases Total(tasks, PollsLeft()), |readyQueue|
      {
        PopDecreases(View());
        var polled := Turn();
        madeProgress := madeProgress || polled;
      }
    }

    /** Returns when no tasks are left. If the tasks could come to rest too early the loop would spin for
        ever, and only then: see `RunReturnsIff`. */
    method Run()
      requires !CanStall(View())
      modifies this
      ensures tasks == map[]
      ensures View() == if old(tasks) == map[] then old(View()) else ExecutorModel.Tick(old(View()))
    {
      TickLeavesIff(View());
      while tasks != map[]
        invariant View() == old(View()) || (View() == ExecutorModel.Tick(old(View())) && tasks == map[])
        invariant old(tasks) == map[] ==> View() == old(View())
        decreases tasks.Keys
      {
        var progress := Tick();
      }
    }

    method PollHandle(id: TaskId) returns (r: Joined)
      modifies this`channels, this`taken
      ensures r == ExecutorModel.PollHandle(old(View()), id)
      ensures View() == AfterRecv(old(View()), id)
    {
      if id !in channels || channels[id].Closed? {
        r := Cancelled;
      } else if channels[id].Open? {
        r := StillPending;
      } else {
        r := Finished(channels[id].value);
        channels := channels[id := Closed];
        taken := taken + [id];
      }
    }
  }
}
