/**
 The thread pool as a step system: every piece of code that runs under `mutex_` is one step. Normal
 tasks wait in a deque; delayed ones in a priority queue that is checked against a map of the ids
 still wanted, so that cancelling only takes the id out of the map.
 */
module PoolModel {
  // A task is named by a number.
  type Task = int

  datatype Item = Item(id: int, exeTime: int, task: Task)

  datatype Worker = Idle | RunsDelayed(item: Item) | RunsNormal(task: Task) | Exited

  /** A delayed task that was started, with the clock its worker read. */
  datatype Start = Start(item: Item, now: int)

  datatype Pool = Pool(
    queue: seq<Task>,
    pendingNum: int,
    timeQueue: set<Item>,
    latest: map<int, Item>,
    lastId: int,
    runningId: int,
    stop: bool,
    workers: seq<Worker>,
    added: seq<Task>,           // history: normal tasks as they were added
    started: seq<Task>,         // history: normal tasks as they were started
    finished: multiset<Task>,   // history: normal tasks finished
    starts: seq<Start>,         // history: delayed tasks as they were started
    cancelled: set<int>)        // history: ids a CancelTask returned true for

  datatype Event =
    | AddTask(task: Task)
    | AddPriorityTask(task: Task)
    | DelayTask(delay: int, now: int, task: Task)
    | CancelTask(id: int)
    | Pick(w: nat, now: int)    // a worker takes the lock and looks for work
    | Finish(w: nat)            // a worker's task returns
    | StopNow                   // the locked part of Stop

  /** The order of the priority queue: earlier first, then by id. */
  predicate Before(a: Item, b: Item) {
    a.exeTime < b.exeTime || (a.exeTime == b.exeTime && a.id < b.id)
  }

  predicate IsFirst(x: Item, items: set<Item>) {
    x in items && forall y :: y in items ==> !Before(y, x)
  }

  lemma {:induction false} HasFirst(items: set<Item>)
    requires items != {}
    ensures exists x :: IsFirst(x, items)
  {
    var x :| x in items;
    var rest := items - {x};
    if rest == {} {
      assert items == {x};
      assert IsFirst(x, items);
    } else {
      HasFirst(rest);
      var y :| IsFirst(y, rest);
      if Before(x, y) {
        forall z | z in items ensures !Before(z, x) {
          if z != x { assert !Before(z, y); }
        }
        assert IsFirst(x, items);
      } else {
        assert IsFirst(y, items);
      }
    }
  }

  /** The top of the priority queue. */
  ghost function First(items: set<Item>): Item
    requires items != {}
  {
    HasFirst(items);
    var x :| IsFirst(x, items);
    x
  }

  // ----- the steps -----

  function Start0(workers: nat): Pool {
    Pool([], 0, {}, map[], 0, 0, false, seq(workers, _ => Idle), [], [], multiset{}, [], {})
  }

  function Delay(p: Pool, delay: int, now: int, task: Task): Pool {
    var item := Item(p.lastId + 1, now + delay, task);
    p.(lastId := item.id, timeQueue := p.timeQueue + {item}, latest := p.latest[item.id := item])
  }

  /** What one pass of CancelTask returns; None when it has to wait and try again. */
  datatype CancelResult = Returned(ok: bool) | Waits

  function CancelAnswer(p: Pool, id: int): CancelResult {
    if id == 0 then Returned(false)
    else if p.runningId == id then Waits
    else Returned(id in p.latest)
  }

  function Cancel(p: Pool, id: int): Pool {
    if CancelAnswer(p, id) == Returned(true)
    then p.(latest := p.latest - {id}, cancelled := p.cancelled + {id})
    else p
  }

  function StartNormal(p: Pool, w: nat): Pool
    requires w < |p.workers| && p.queue != []
  {
    p.(queue := p.queue[1..], pendingNum := p.pendingNum - 1, started := p.started + [p.queue[0]],
       workers := p.workers[w := RunsNormal(p.queue[0])])
  }

  /** The first item is due: it leaves the queue, and starts if its id is still wanted. */
  function TakeDue(p: Pool, w: nat, now: int, top: Item): Pool
    requires w < |p.workers|
  {
    var p1 := p.(timeQueue := p.timeQueue - {top});
    if top.id in p.latest && p.latest[top.id].exeTime == top.exeTime
    then p1.(latest := p.latest - {top.id}, runningId := top.id, workers := p.workers[w := RunsDelayed(top)],
             starts := p.starts + [Start(top, now)])
    else p1
  }

  /** One pass of an idle worker through the loop of ThreadProc. */
  ghost function Look(p: Pool, w: nat, now: int): Pool
    requires w < |p.workers|
  {
    if p.stop then p.(workers := p.workers[w := Exited])
    else if p.timeQueue != {} && now >= First(p.timeQueue).exeTime then TakeDue(p, w, now, First(p.timeQueue))
    else if p.queue != [] then StartNormal(p, w)
    else p
  }

  function Return(p: Pool, w: nat): Pool
    requires w < |p.workers|
  {
    match p.workers[w]
    case RunsDelayed(_) => p.(workers := p.workers[w := Idle], runningId := 0)
    case RunsNormal(task) => p.(workers := p.workers[w := Idle], finished := p.finished + multiset{task})
    case _ => p
  }

  ghost function Step(p: Pool, ev: Event): Pool {
    match ev
    case AddTask(task) => p.(queue := p.queue + [task], pendingNum := p.pendingNum + 1, added := p.added + [task])
    case AddPriorityTask(task) =>
      p.(queue := [task] + p.queue, pendingNum := p.pendingNum + 1, added := p.added + [task])
    case DelayTask(delay, now, task) => Delay(p, delay, now, task)
    case CancelTask(id) => Cancel(p, id)
    case Pick(w, now) => if w < |p.workers| && p.workers[w].Idle? then Look(p, w, now) else p
    case Finish(w) => if w < |p.workers| then Return(p, w) else p
    case StopNow => p.(stop := true)
  }

  ghost function Run(n: nat, evs: seq<Event>): Pool {
    if evs == [] then Start0(n) else Step(Run(n, evs[..|evs| - 1]), evs[|evs| - 1])
  }

  lemma RunSnoc(n: nat, evs: seq<Event>, ev: Event)
    ensures Run(n, evs + [ev]) == Step(Run(n, evs), ev)
  {
    assert (evs + [ev])[..|evs|] == evs;
  }

  // ----- the delayed tasks -----

  predicate StartedId(p: Pool, id: int) {
    exists k :: 0 <= k < |p.starts| && p.starts[k].item.id == id
  }

  /** Every item has an issued id, and no two share one. */
  ghost predicate ItemsInv(p: Pool) {
    && (forall x :: x in p.timeQueue ==> 1 <= x.id <= p.lastId)
    && (forall x, y :: x in p.timeQueue && y in p.timeQueue && x.id == y.id ==> x == y)
  }

  /** An id still wanted has its item, with the same time, in the queue. */
  ghost predicate LatestInv(p: Pool) {
    forall id :: id in p.latest ==> p.latest[id].id == id && p.latest[id] in p.timeQueue
  }

  /** The ids issued are those pending, started and cancelled; no id is two of these. */
  ghost predicate IdsInv(p: Pool) {
    && p.lastId >= 0
    && (forall id :: 1 <= id <= p.lastId <==> id in p.latest || id in p.cancelled || StartedId(p, id))
    && (forall id :: id in p.latest ==> id !in p.cancelled && !StartedId(p, id))
    && (forall id :: id in p.cancelled ==> !StartedId(p, id))
  }

  ghost predicate StartsInv(p: Pool) {
    && (forall k :: 0 <= k < |p.starts| ==> p.starts[k].item.exeTime <= p.starts[k].now)
    && (forall j, k :: 0 <= j < k < |p.starts| ==> p.starts[j].item.id != p.starts[k].item.id)
    && (p.runningId != 0 ==> StartedId(p, p.runningId))
  }

  ghost predicate DelayInv(p: Pool) {
    ItemsInv(p) && LatestInv(p) && IdsInv(p) && StartsInv(p)
  }

  lemma DelayKeeps(p: Pool, delay: int, now: int, task: Task)
    requires DelayInv(p)
    ensures DelayInv(Delay(p, delay, now, task))
  {
    var p' := Delay(p, delay, now, task);
    forall id ensures StartedId(p', id) == StartedId(p, id) {}
  }

  lemma CancelKeeps(p: Pool, id: int)
    requires DelayInv(p)
    ensures DelayInv(Cancel(p, id))
  {
    var p' := Cancel(p, id);
    forall i ensures StartedId(p', i) == StartedId(p, i) {}
  }

  lemma StartAdds(p: Pool, p': Pool, s: Start, id: int)
    requires p'.starts == p.starts + [s]
    ensures StartedId(p', id) <==> StartedId(p, id) || id == s.item.id
  {
    if StartedId(p, id) {
      var k :| 0 <= k < |p.starts| && p.starts[k].item.id == id;
      assert p'.starts[k].item.id == id;
    }
    if id == s.item.id {
      assert p'.starts[|p.starts|].item.id == id;
    }
  }

  lemma TakeStarts(p: Pool, w: nat, now: int, top: Item)
    requires DelayInv(p) && w < |p.workers| && IsFirst(top, p.timeQueue) && now >= top.exeTime && top.id in p.latest
    ensures p.latest[top.id] == top && DelayInv(TakeDue(p, w, now, top))
  {
    var p' := TakeDue(p, w, now, top);
    assert p.latest[top.id] == top;
    forall id ensures StartedId(p', id) <==> StartedId(p, id) || id == top.id {
      StartAdds(p, p', Start(top, now), id);
    }
    forall k | 0 <= k < |p.starts| ensures p.starts[k].item.id != top.id {
      assert StartedId(p, p.starts[k].item.id);
    }
  }

  lemma TakeKeeps(p: Pool, w: nat, now: int, top: Item)
    requires DelayInv(p) && w < |p.workers| && IsFirst(top, p.timeQueue) && now >= top.exeTime
    ensures DelayInv(TakeDue(p, w, now, top))
  {
    if top.id in p.latest {
      TakeStarts(p, w, now, top);
    } else {
      var p' := TakeDue(p, w, now, top);
      forall id ensures StartedId(p', id) == StartedId(p, id) {}
    }
  }

  /** Nothing about delayed tasks changes. */
  ghost predicate SameDelayed(p: Pool, p': Pool) {
    && p'.timeQueue == p.timeQueue && p'.latest == p.latest && p'.lastId == p.lastId
    && p'.starts == p.starts && p'.cancelled == p.cancelled && (p'.runningId == p.runningId || p'.runningId == 0)
  }

  lemma SameDelayedKeeps(p: Pool, p': Pool)
    requires DelayInv(p) && SameDelayed(p, p')
    ensures DelayInv(p')
  {
    forall id ensures StartedId(p', id) == StartedId(p, id) {}
  }

  lemma TheFirst(items: set<Item>)
    requires items != {}
    ensures IsFirst(First(items), items)
  {
  }

  lemma StepDelayed(p: Pool, ev: Event)
    requires DelayInv(p)
    ensures DelayInv(Step(p, ev))
  {
    hide DelayInv, Delay, Cancel, TakeDue, First;
    match ev
    case DelayTask(delay, now, task) => DelayKeeps(p, delay, now, task);
    case CancelTask(id) => CancelKeeps(p, id);
    case Pick(w, now) =>
      if w < |p.workers| && p.workers[w].Idle? {
        if !p.stop && p.timeQueue != {} && now >= First(p.timeQueue).exeTime {
          TheFirst(p.timeQueue);
          TakeKeeps(p, w, now, First(p.timeQueue));
        } else {
          SameDelayedKeeps(p, Step(p, ev));
        }
      }
    case _ => SameDelayedKeeps(p, Step(p, ev));
  }

  lemma {:induction false} DelayHolds(n: nat, evs: seq<Event>)
    ensures DelayInv(Run(n, evs))
  {
    if evs != [] {
      DelayHolds(n, evs[..|evs| - 1]);
      StepDelayed(Run(n, evs[..|evs| - 1]), evs[|evs| - 1]);
    }
  }

  /** What never goes back along a run. */
  ghost predicate Extends(p: Pool, p': Pool) {
    p.lastId <= p'.lastId && p.cancelled <= p'.cancelled && p.starts <= p'.starts && p.added <= p'.added
  }

  lemma StepExtends(p: Pool, ev: Event)
    ensures Extends(p, Step(p, ev))
  {
  }

  lemma {:induction false} RunExtends(n: nat, evs: seq<Event>, k: nat)
    requires k <= |evs|
    ensures Extends(Run(n, evs[..k]), Run(n, evs))
  {
    if k == |evs| {
      assert evs[..k] == evs;
    } else {
      var most := evs[..|evs| - 1];
      assert most[..k] == evs[..k];
      RunExtends(n, most, k);
      StepExtends(Run(n, most), evs[|evs| - 1]);
    }
  }

  /** Each id starts at most once, and not before its time. */
  lemma StartsOnceInTime(n: nat, evs: seq<Event>, j: nat, k: nat)
    requires j < |Run(n, evs).starts| && k < |Run(n, evs).starts|
    ensures Run(n, evs).starts[j].item.exeTime <= Run(n, evs).starts[j].now
    ensures Run(n, evs).starts[j].item.id == Run(n, evs).starts[k].item.id ==> j == k
  {
    DelayHolds(n, evs);
  }

  /** The ids issued are exactly the pending, the started and the cancelled ones, each one of these only. */
  lemma IdsAccountedFor(n: nat, evs: seq<Event>, id: int)
    ensures var p := Run(n, evs);
            && (1 <= id <= p.lastId <==> id in p.latest || StartedId(p, id) || id in p.cancelled)
            && !(id in p.latest && StartedId(p, id)) && !(id in p.latest && id in p.cancelled)
            && !(StartedId(p, id) && id in p.cancelled)
  {
    DelayHolds(n, evs);
  }

  /** After a CancelTask that returned true the id is never started, and it had not been before. */
  lemma CancelledNeverStarts(n: nat, evs: seq<Event>, k: nat, id: int)
    requires k < |evs| && evs[k] == CancelTask(id) && CancelAnswer(Run(n, evs[..k]), id) == Returned(true)
    ensures !StartedId(Run(n, evs), id)
  {
    assert evs[..k + 1] == evs[..k] + [evs[k]];
    RunSnoc(n, evs[..k], evs[k]);
    RunExtends(n, evs, k + 1);
    assert id in Run(n, evs).cancelled;
    DelayHolds(n, evs);
  }

  /** CancelTask returns true exactly for the ids that are pending. */
  lemma CancelsPending(n: nat, evs: seq<Event>, id: int)
    ensures CancelAnswer(Run(n, evs), id) == Returned(true) <==> id in Run(n, evs).latest
  {
    var p := Run(n, evs);
    DelayHolds(n, evs);
    assert id in p.latest ==> 1 <= id && !StartedId(p, id);
  }

  /** An id still wanted has one item in the queue, with the time it was given. */
  lemma OneItemEach(n: nat, evs: seq<Event>, id: int, x: Item)
    requires id in Run(n, evs).latest && x.id == id
    ensures Run(n, evs).latest[id].id == id
    ensures x in Run(n, evs).timeQueue <==> x == Run(n, evs).latest[id]
  {
    DelayHolds(n, evs);
  }

  /** A delayed task that starts is the first, by time and id, of all that are pending. */
  lemma StartsTheFirst(n: nat, evs: seq<Event>, w: nat, now: int, id: int)
    requires var p := Run(n, evs);
             w < |p.workers| && p.workers[w].Idle? && Step(p, Pick(w, now)).starts != p.starts && id in p.latest
    ensures var p := Run(n, evs);
            var s := Step(p, Pick(w, now)).starts;
            && s == p.starts + [Start(p.latest[s[|s| - 1].item.id], now)]
            && !Before(p.latest[id], s[|s| - 1].item)
  {
    var p := Run(n, evs);
    DelayHolds(n, evs);
    TheFirst(p.timeQueue);
  }

  // ----- the normal tasks -----

  /** The normal tasks the workers are running. */
  function Running(workers: seq<Worker>): multiset<Task> {
    if workers == [] then multiset{}
    else Running(workers[..|workers| - 1]) + Held(workers[|workers| - 1])
  }

  function Held(worker: Worker): multiset<Task> {
    if worker.RunsNormal? then multiset{worker.task} else multiset{}
  }

  /** Pointwise, a sum that gains what it gives back. */
  lemma Swapped(rest: multiset<Task>, rest': multiset<Task>, last: multiset<Task>, out: multiset<Task>,
                in_: multiset<Task>)
    requires rest' + out == rest + in_
    ensures rest' + last + out == rest + last + in_
  {
    forall t: Task ensures (rest' + last + out)[t] == (rest + last + in_)[t] {
      assert (rest' + out)[t] == (rest + in_)[t];
    }
  }

  lemma {:induction false} RunningUpdate(workers: seq<Worker>, w: nat, worker: Worker)
    requires w < |workers|
    ensures Running(workers[w := worker]) + Held(workers[w]) == Running(workers) + Held(worker)
  {
    hide Held;
    var last := |workers| - 1;
    if w == last {
      assert workers[w := worker][..last] == workers[..last];
    } else {
      assert workers[w := worker][..last] == workers[..last][w := worker];
      RunningUpdate(workers[..last], w, worker);
      Swapped(Running(workers[..last]), Running(workers[..last][w := worker]), Held(workers[last]),
              Held(workers[w]), Held(worker));
    }
  }

  /** A normal task is queued, running or finished, and pending_num_ counts the queued ones. */
  ghost predicate NormalInv(p: Pool) {
    && p.pendingNum == |p.queue|
    && multiset(p.added) == multiset(p.queue) + multiset(p.started)
    && multiset(p.started) == Running(p.workers) + p.finished
  }

  lemma {:induction false} NoneRunning(n: nat)
    ensures Running(seq(n, _ => Idle)) == multiset{}
  {
    if n > 0 {
      assert seq(n, _ => Idle)[..n - 1] == seq(n - 1, _ => Idle);
      NoneRunning(n - 1);
    }
  }

  /** What is started is running or finished, whichever way a worker changes. */
  lemma Rebalanced(running: multiset<Task>, running': multiset<Task>, out: multiset<Task>, in_: multiset<Task>,
                   started: multiset<Task>, begun: multiset<Task>, finished: multiset<Task>, done: multiset<Task>)
    requires running' + out == running + in_ && started == running + finished && begun + out == in_ + done
    ensures started + begun == running' + (finished + done)
  {
    forall t: Task ensures (started + begun)[t] == (running' + (finished + done))[t] {
      assert (running' + out)[t] == (running + in_)[t] && (begun + out)[t] == (in_ + done)[t];
    }
  }

  lemma StartNormalKeeps(p: Pool, w: nat)
    requires NormalInv(p) && w < |p.workers| && p.workers[w].Idle? && p.queue != []
    ensures NormalInv(StartNormal(p, w))
  {
    hide Running;
    var one := multiset{p.queue[0]};
    RunningUpdate(p.workers, w, RunsNormal(p.queue[0]));
    Rebalanced(Running(p.workers), Running(StartNormal(p, w).workers), multiset{}, one,
               multiset(p.started), one, p.finished, multiset{});
    assert p.queue == [p.queue[0]] + p.queue[1..];
  }

  lemma ReturnKeeps(p: Pool, w: nat)
    requires NormalInv(p) && w < |p.workers|
    ensures NormalInv(Return(p, w))
  {
    hide Running;
    if p.workers[w].RunsNormal? || p.workers[w].RunsDelayed? {
      var held := Held(p.workers[w]);
      RunningUpdate(p.workers, w, Idle);
      Rebalanced(Running(p.workers), Running(p.workers[w := Idle]), held, multiset{},
                 multiset(p.started), multiset{}, p.finished, held);
      assert p.finished + held == Return(p, w).finished;
      assert multiset(p.started) + multiset{} == multiset(p.started);
    }
  }

  lemma OtherPickKeeps(p: Pool, w: nat, worker: Worker, p': Pool)
    requires NormalInv(p) && w < |p.workers| && p.workers[w].Idle? && !worker.RunsNormal?
    requires p'.queue == p.queue && p'.pendingNum == p.pendingNum && p'.added == p.added
    requires p'.started == p.started && p'.finished == p.finished
    requires p'.workers == p.workers || p'.workers == p.workers[w := worker]
    ensures NormalInv(p')
  {
    hide Running;
    RunningUpdate(p.workers, w, worker);
    assert Running(p.workers[w := worker]) == Running(p.workers[w := worker]) + Held(p.workers[w]);
  }

  lemma StepNormal(p: Pool, ev: Event)
    requires NormalInv(p)
    ensures NormalInv(Step(p, ev))
  {
    hide Running, Look, Return;
    match ev
    case Pick(w, now) => if w < |p.workers| && p.workers[w].Idle? { PickNormal(p, w, now); }
    case Finish(w) => if w < |p.workers| { ReturnKeeps(p, w); }
    case _ =>
  }

  lemma PickNormal(p: Pool, w: nat, now: int)
    requires NormalInv(p) && w < |p.workers| && p.workers[w].Idle?
    ensures NormalInv(Look(p, w, now))
  {
    hide First, Running, StartNormal, NormalInv;
    if p.stop {
      OtherPickKeeps(p, w, Exited, Look(p, w, now));
    } else if p.timeQueue != {} && now >= First(p.timeQueue).exeTime {
      OtherPickKeeps(p, w, RunsDelayed(First(p.timeQueue)), Look(p, w, now));
    } else if p.queue != [] {
      StartNormalKeeps(p, w);
    }
  }

  lemma {:induction false} NormalHolds(n: nat, evs: seq<Event>)
    ensures NormalInv(Run(n, evs))
  {
    if evs == [] {
      NoneRunning(n);
    } else {
      NormalHolds(n, evs[..|evs| - 1]);
      StepNormal(Run(n, evs[..|evs| - 1]), evs[|evs| - 1]);
    }
  }

  /** Whenever the lock is free the counter is the length of the queue, and no normal task is lost or doubled. */
  lemma PendingCounts(n: nat, evs: seq<Event>)
    ensures var p := Run(n, evs);
            && p.pendingNum == |p.queue|
            && multiset(p.added) == multiset(p.queue) + Running(p.workers) + p.finished
  {
    NormalHolds(n, evs);
  }

  lemma StepInOrder(p: Pool, ev: Event)
    requires p.added == p.started + p.queue && !ev.AddPriorityTask?
    ensures Step(p, ev).added == Step(p, ev).started + Step(p, ev).queue
  {
    hide First, TakeDue, Cancel;
    if ev.AddTask? {
      assert p.started + p.queue + [ev.task] == p.started + (p.queue + [ev.task]);
    } else if ev.Pick? && ev.w < |p.workers| && p.queue != [] {
      assert p.queue == [p.queue[0]] + p.queue[1..];
      assert p.started + p.queue == (p.started + [p.queue[0]]) + p.queue[1..];
      TakeFrame(p, ev.w, ev.now);
    } else if ev.Pick? && ev.w < |p.workers| {
      TakeFrame(p, ev.w, ev.now);
    }
    if ev.CancelTask? { CancelFrame(p, ev.id); }
  }

  lemma TakeFrame(p: Pool, w: nat, now: int)
    requires w < |p.workers|
    ensures forall top :: var p' := TakeDue(p, w, now, top);
              p'.added == p.added && p'.started == p.started && p'.queue == p.queue
  {
  }

  lemma CancelFrame(p: Pool, id: int)
    ensures Cancel(p, id) == p.(latest := Cancel(p, id).latest, cancelled := Cancel(p, id).cancelled)
  {
  }

  /** Tasks added with AddTask only are started in the order they were added. */
  lemma {:induction false} FirstInFirstOut(n: nat, evs: seq<Event>)
    requires forall ev :: ev in evs ==> !ev.AddPriorityTask?
    ensures Run(n, evs).added == Run(n, evs).started + Run(n, evs).queue
  {
    hide Step;
    if evs != [] {
      FirstInFirstOut(n, evs[..|evs| - 1]);
      StepInOrder(Run(n, evs[..|evs| - 1]), evs[|evs| - 1]);
    }
  }

  predicate Adds(ev: Event) {
    ev.AddTask? || ev.AddPriorityTask?
  }

  lemma {:induction false} StaysEmpty(n: nat, evs: seq<Event>, k: nat)
    requires k <= |evs| && Run(n, evs[..k]).queue == [] && forall j :: k <= j < |evs| ==> !Adds(evs[j])
    ensures Run(n, evs).queue == [] && Run(n, evs).added == Run(n, evs[..k]).added
  {
    hide Step;
    if k == |evs| {
      assert evs[..k] == evs;
    } else {
      var most := evs[..|evs| - 1];
      assert most[..k] == evs[..k];
      StaysEmpty(n, most, k);
      assert !Adds(evs[|evs| - 1]);
      StepAddsNothing(Run(n, most), evs[|evs| - 1]);
    }
  }

  lemma StepAddsNothing(p: Pool, ev: Event)
    requires p.queue == [] && !Adds(ev)
    ensures Step(p, ev).queue == [] && Step(p, ev).added == p.added
  {
    hide First;
  }

  lemma {:induction false} AllExited(workers: seq<Worker>)
    requires forall w :: 0 <= w < |workers| ==> workers[w].Exited?
    ensures Running(workers) == multiset{}
  {
    if workers != [] { AllExited(workers[..|workers| - 1]); }
  }

  /**
   Stop(true) sees pending_num_ at 0 at moment k, and returns once every worker has left. If nothing
   was added after k, every normal task ever added has finished.
   */
  lemma StopWaitsForAll(n: nat, evs: seq<Event>, k: nat)
    requires k <= |evs| && Run(n, evs[..k]).pendingNum <= 0 && forall j :: k <= j < |evs| ==> !Adds(evs[j])
    requires forall w :: 0 <= w < |Run(n, evs).workers| ==> Run(n, evs).workers[w].Exited?
    ensures Run(n, evs).finished == multiset(Run(n, evs).added)
  {
    NormalHolds(n, evs[..k]);
    NormalHolds(n, evs);
    StaysEmpty(n, evs, k);
    AllExited(Run(n, evs).workers);
  }

  // ----- waiting for a task that is being cancelled -----

  /** CancelTask never returns while a worker is running what it names. */
  ghost predicate CancelWaits(p: Pool) {
    forall w, id :: 0 <= w < |p.workers| && p.workers[w].RunsDelayed? && p.workers[w].item.id == id ==>
      CancelAnswer(p, id) == Waits
  }

  ghost predicate SoleInv(p: Pool) {
    && |p.workers| <= 1
    && forall w :: 0 <= w < |p.workers| && p.workers[w].RunsDelayed? ==> p.runningId == p.workers[w].item.id
  }

  lemma {:induction false} SoleHolds(n: nat, evs: seq<Event>)
    requires n <= 1
    ensures SoleInv(Run(n, evs))
  {
    hide First;
    if evs != [] {
      SoleHolds(n, evs[..|evs| - 1]);
    }
  }

  ghost predicate RunningIssued(p: Pool) {
    forall w :: 0 <= w < |p.workers| && p.workers[w].RunsDelayed? ==> StartedId(p, p.workers[w].item.id)
  }

  lemma PickIssued(p: Pool, w: nat, now: int)
    requires RunningIssued(p) && w < |p.workers| && p.workers[w].Idle?
    ensures RunningIssued(Look(p, w, now))
  {
    hide First;
    var p' := Look(p, w, now);
    forall v | 0 <= v < |p'.workers| && p'.workers[v].RunsDelayed? ensures StartedId(p', p'.workers[v].item.id) {
      if p'.starts == p.starts {
        assert StartedId(p, p.workers[v].item.id);
      } else {
        StartAdds(p, p', p'.starts[|p.starts|], p'.workers[v].item.id);
      }
    }
  }

  lemma {:induction false} IssuedHolds(n: nat, evs: seq<Event>)
    ensures RunningIssued(Run(n, evs))
  {
    hide Look;
    if evs != [] {
      var p, ev := Run(n, evs[..|evs| - 1]), evs[|evs| - 1];
      IssuedHolds(n, evs[..|evs| - 1]);
      if ev.Pick? && ev.w < |p.workers| && p.workers[ev.w].Idle? {
        PickIssued(p, ev.w, ev.now);
      } else {
        var p' := Step(p, ev);
        forall v | 0 <= v < |p'.workers| && p'.workers[v].RunsDelayed? ensures StartedId(p', p'.workers[v].item.id) {
          assert StartedId(p, p.workers[v].item.id);
        }
      }
    }
  }

  /** Two tasks are due; the first of two workers starts one, then the second the other. */
  lemma TwoAtWork(n: nat) returns (evs: seq<Event>)
    requires n >= 2
    ensures !CancelWaits(Run(n, evs))
  {
    hide Run, First;
    var one, two := Item(1, 0, 7), Item(2, 0, 8);
    var e1, e2, e3, e4 := DelayTask(0, 0, 7), DelayTask(0, 0, 8), Pick(0, 0), Pick(1, 0);
    RunNone(n);
    RunSnoc(n, [], e1);
    RunSnoc(n, [] + [e1], e2);
    RunSnoc(n, [] + [e1] + [e2], e3);
    RunSnoc(n, [] + [e1] + [e2] + [e3], e4);
    evs := [] + [e1] + [e2] + [e3] + [e4];
    var p2 := Run(n, [] + [e1] + [e2]);
    assert p2.timeQueue == {one, two} && p2.latest == map[1 := one, 2 := two];
    TheFirst(p2.timeQueue);
    var p3 := Run(n, [] + [e1] + [e2] + [e3]);
    assert p3.timeQueue == {two} && p3.workers[0] == RunsDelayed(one) && p3.workers[1].Idle?;
    TheFirst(p3.timeQueue);
    var p4 := Run(n, evs);
    assert p4.workers[0] == RunsDelayed(one) && p4.runningId == 2;
    assert CancelAnswer(p4, 1) != Waits;
  }

  lemma RunNone(n: nat)
    ensures Run(n, []) == Start0(n)
  {
  }

  /** One field for the running task serves one worker: only then does CancelTask wait as documented. */
  lemma CancelWaitsExactly(n: nat)
    ensures (forall evs :: CancelWaits(Run(n, evs))) <==> n <= 1
  {
    if n <= 1 {
      forall evs ensures CancelWaits(Run(n, evs)) {
        SoleHolds(n, evs);
        IssuedHolds(n, evs);
        DelayHolds(n, evs);
        SoleWaits(Run(n, evs));
      }
    } else {
      var evs := TwoAtWork(n);
      assert !CancelWaits(Run(n, evs));
    }
  }

  lemma SoleWaits(p: Pool)
    requires SoleInv(p) && RunningIssued(p) && DelayInv(p)
    ensures CancelWaits(p)
  {
    forall w | 0 <= w < |p.workers| && p.workers[w].RunsDelayed? ensures p.workers[w].item.id >= 1 {
      assert StartedId(p, p.workers[w].item.id);
    }
  }
}
