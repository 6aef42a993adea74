/** The thread pool object: each method is one piece of code under `mutex_` and makes one step of the model. */
module ThreadPools {
  import opened PoolModel

  /** With ids unique the top of the priority queue is one item only. */
  lemma FirstIs(p: Pool, x: Item)
    requires ItemsInv(p) && IsFirst(x, p.timeQueue)
    ensures p.timeQueue != {} && First(p.timeQueue) == x
  {
    TheFirst(p.timeQueue);
    var y := First(p.timeQueue);
    assert !Before(x, y) && !Before(y, x);
  }

  class ThreadPool {
    var queue: seq<Task>
    var pendingNum: int
    var timeQueue: set<Item>
    var latest: map<int, Item>
    var lastId: int
    var runningId: int
    var stop: bool
    ghost var workers: seq<Worker>
    ghost var added: seq<Task>
    ghost var started: seq<Task>
    ghost var finished: multiset<Task>
    ghost var starts: seq<Start>
    ghost var cancelled: set<int>

    ghost function View(): Pool
      reads this
    {
      Pool(queue, pendingNum, timeQueue, latest, lastId, runningId, stop,
           workers, added, started, finished, starts, cancelled)
    }

    ghost predicate Valid()
      reads this
    {
      ItemsInv(View()) && lastId >= 0
    }

    constructor (threads: nat)
      ensures Valid() && View() == Start0(threads)
    {
      queue, pendingNum, timeQueue, latest, lastId, runningId, stop := [], 0, {}, map[], 0, 0, false;
      workers, added, started := seq(threads, _ => Idle), [], [];
      finished, starts, cancelled := multiset{}, [], {};
    }

    method AddTask(task: Task)
      requires Valid()
      modifies this`queue, this`pendingNum, this`added
      ensures Valid() && View() == Step(old(View()), Event.AddTask(task))
    {
      queue := queue + [task];
      pendingNum := pendingNum + 1;
      added := added + [task];
    }

    method AddPriorityTask(task: Task)
      requires Valid()
      modifies this`queue, this`pendingNum, this`added
      ensures Valid() && View() == Step(old(View()), Event.AddPriorityTask(task))
    {
      queue := [task] + queue;
      pendingNum := pendingNum + 1;
      added := added + [task];
    }

    method DelayTask(delay: int, now: int, task: Task) returns (id: int)
      requires Valid()
      modifies this`lastId, this`timeQueue, this`latest
      ensures Valid() && View() == Step(old(View()), Event.DelayTask(delay, now, task))
      ensures id == lastId == old(lastId) + 1
    {
      var item := Item(lastId + 1, now + delay, task);
      lastId := item.id;
      timeQueue := timeQueue + {item};
      latest := latest[item.id := item];
      id := item.id;
    }

    /** One pass of the waiting loop of CancelTask. */
    method CancelTask(id: int) returns (res: CancelResult)
      requires Valid()
      modifies this`latest, this`cancelled
      ensures Valid() && View() == Step(old(View()), Event.CancelTask(id))
      ensures res == CancelAnswer(old(View()), id)
    {
      if id == 0 {
        return Returned(false);
      }
      if runningId != id {
        if id !in latest {
          return Returned(false);
        }
        latest := latest - {id};
        cancelled := cancelled + {id};
        return Returned(true);
      }
      res := Waits;
    }

    /** An idle worker's pass through the loop of ThreadProc, up to where it runs a task, waits or leaves. */
    method LookForWork(w: nat, now: int) returns (job: Worker)
      requires Valid() && w < |workers| && workers[w].Idle?
      modifies this
      ensures Valid() && View() == Step(old(View()), Pick(w, now)) && |workers| == old(|workers|) && workers[w] == job
    {
      job := Idle;
      if stop {
        job := Exited;
        workers := workers[w := job];
        return;
      }
      if timeQueue != {} {
        HasFirst(timeQueue);
        var top: Item :| IsFirst(top, timeQueue);
        FirstIs(View(), top);
        if now >= top.exeTime {
          job := PopDue(w, now, top);
          return;
        }
      }
      if queue != [] {
        job := RunsNormal(queue[0]);
        workers, started := workers[w := job], started + [queue[0]];
        queue := queue[1..];
        pendingNum := pendingNum - 1;
      } else {
        assert workers[w := Idle] == workers;
      }
    }

    /** The branch for an item that is due. */
    method PopDue(w: nat, now: int, top: Item) returns (job: Worker)
      requires Valid() && w < |workers| && workers[w].Idle?
      modifies this
      ensures Valid() && View() == TakeDue(old(View()), w, now, top) && |workers| == old(|workers|) && workers[w] == job
    {
      job := Idle;
      timeQueue := timeQueue - {top};
      if top.id in latest && latest[top.id].exeTime == top.exeTime {
        job := RunsDelayed(top);
        latest := latest - {top.id};
        runningId := top.id;
        workers, starts := workers[w := job], starts + [Start(top, now)];
      }
    }

    /** What a worker does under the lock when its task has returned. */
    method TaskDone(w: nat, job: Worker)
      requires Valid() && w < |workers| && workers[w] == job
      modifies this`runningId, this`workers, this`finished
      ensures Valid() && View() == Step(old(View()), Finish(w))
    {
      match job {
        case RunsDelayed(_) =>
          runningId := 0;
          workers := workers[w := Idle];
        case RunsNormal(task) =>
          finished := finished + multiset{task};
          workers := workers[w := Idle];
        case _ =>
      }
    }

    method SetStop()
      requires Valid()
      modifies this`stop
      ensures Valid() && View() == Step(old(View()), StopNow)
    {
      stop := true;
    }
  }
}
