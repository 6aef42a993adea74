/**
 What becomes of a request to the pool, over whole runs: a delayed task starts as the one that was asked
 for and no earlier, a cancel waits only for what runs, whatever is due goes before normal tasks, a
 priority task before all others of these, and after a stop nothing starts.
 */
module PoolRequests {
  import opened PoolModel

  // ----- delayed tasks -----

  /** The item that the k-th event, a DelayTask, asks for. */
  ghost predicate AskedBy(n: nat, evs: seq<Event>, k: int, x: Item) {
    && 0 <= k < |evs| && evs[k].DelayTask? && x.task == evs[k].task
    && x.exeTime == evs[k].now + evs[k].delay && x.id == Run(n, evs[..k]).lastId + 1
  }

  /** Waiting in the priority queue, or started. */
  ghost predicate Seen(p: Pool, x: Item) {
    x in p.timeQueue || exists j :: 0 <= j < |p.starts| && p.starts[j].item == x
  }

  lemma NewItem(p: Pool, ev: Event, x: Item)
    requires Seen(Step(p, ev), x) && !Seen(p, x)
    ensures ev.DelayTask? && x.id == p.lastId + 1 && x.exeTime == ev.now + ev.delay && x.task == ev.task
  {
    hide First;
    if ev.Pick? && ev.w < |p.workers| && p.workers[ev.w].Idle? {
      PickedSeen(p, ev.w, ev.now, x);
    }
  }

  lemma PickedSeen(p: Pool, w: nat, now: int, x: Item)
    requires w < |p.workers| && Seen(Look(p, w, now), x)
    ensures Seen(p, x)
  {
    hide First;
    var p' := Look(p, w, now);
    if x !in p'.timeQueue {
      var j :| 0 <= j < |p'.starts| && p'.starts[j].item == x;
      if j < |p.starts| {
        assert p.starts[j].item == x;
      } else {
        TheFirst(p.timeQueue);
      }
    }
  }

  lemma NothingSeen(n: nat, x: Item)
    ensures !Seen(Run(n, []), x)
  {
  }

  lemma {:induction false} ItemOrigin(n: nat, evs: seq<Event>, x: Item) returns (k: nat)
    requires Seen(Run(n, evs), x)
    ensures AskedBy(n, evs, k, x)
  {
    hide Step, Seen;
    k := 0;
    if evs == [] {
      NothingSeen(n, x);
      assert false;
    } else {
      var most := evs[..|evs| - 1];
      if Seen(Run(n, most), x) {
        k := ItemOrigin(n, most, x);
        assert most[..k] == evs[..k];
      } else {
        NewItem(Run(n, most), evs[|evs| - 1], x);
        k := |most|;
      }
    }
  }

  /** Every start is that of a task some DelayTask asked for, under the id it returned, and not before its time. */
  lemma DelayOrigin(n: nat, evs: seq<Event>, j: nat) returns (k: nat, delay: int, asked: int)
    requires j < |Run(n, evs).starts|
    ensures var s := Run(n, evs).starts[j];
            && k < |evs| && evs[k] == DelayTask(delay, asked, s.item.task)
            && s.item.id == Run(n, evs[..k]).lastId + 1 && asked + delay <= s.now
  {
    hide Run;
    var s := Run(n, evs).starts[j];
    assert Seen(Run(n, evs), s.item);
    k := ItemOrigin(n, evs, s.item);
    StartsOnceInTime(n, evs, j, j);
    delay, asked := evs[k].delay, evs[k].now;
  }

  /** The ids returned tell the requests apart, so a start under an id is that of the request it was returned to. */
  lemma StartsAsAsked(n: nat, evs: seq<Event>, k: nat, j: nat)
    requires k < |evs| && evs[k].DelayTask? && j < |Run(n, evs).starts|
    requires Run(n, evs).starts[j].item.id == Run(n, evs[..k]).lastId + 1
    ensures Run(n, evs).starts[j].item.task == evs[k].task
    ensures evs[k].now + evs[k].delay <= Run(n, evs).starts[j].now
  {
    hide Run, Step;
    var m, delay, asked := DelayOrigin(n, evs, j);
    if m < k {
      IdsRise(n, evs, m, k);
    } else if k < m {
      IdsRise(n, evs, k, m);
    }
  }

  lemma IdsRise(n: nat, evs: seq<Event>, k: nat, m: nat)
    requires k < m <= |evs| && evs[k].DelayTask?
    ensures Run(n, evs[..k]).lastId < Run(n, evs[..m]).lastId
  {
    assert evs[..k + 1] == evs[..k] + [evs[k]];
    RunSnoc(n, evs[..k], evs[k]);
    assert evs[..m][..k + 1] == evs[..k + 1];
    RunExtends(n, evs[..m], k + 1);
  }

  // ----- cancelling -----

  /** This worker runs the delayed task of the id. */
  predicate RunsId(p: Pool, w: int, id: int) {
    0 <= w < |p.workers| && p.workers[w].RunsDelayed? && p.workers[w].item.id == id
  }

  /** A worker that runs a delayed task runs one that was started. */
  ghost predicate RunsStarted(p: Pool, w: int) {
    0 <= w < |p.workers| && p.workers[w].RunsDelayed? ==> Begun(p, p.workers[w].item)
  }

  ghost predicate Begun(p: Pool, x: Item) {
    exists j :: 0 <= j < |p.starts| && p.starts[j].item == x
  }

  ghost predicate RunningInv(p: Pool) {
    && (p.runningId != 0 ==> exists w :: RunsId(p, w, p.runningId))
    && forall w :: RunsStarted(p, w)
  }

  lemma BegunStays(p: Pool, p': Pool, x: Item)
    requires Begun(p, x) && p.starts <= p'.starts
    ensures Begun(p', x)
  {
    var j :| 0 <= j < |p.starts| && p.starts[j].item == x;
    assert p'.starts[j].item == x;
  }

  /** A step that gives one idle worker something to do, or leaves all alone. */
  lemma PickRunning(p: Pool, w: nat, now: int)
    requires RunningInv(p) && w < |p.workers| && p.workers[w].Idle?
    ensures RunningInv(Look(p, w, now))
  {
    hide First;
    var p' := Look(p, w, now);
    if p'.runningId != 0 {
      if p'.runningId == p.runningId {
        var v :| RunsId(p, v, p.runningId);
        assert RunsId(p', if p'.workers[w].RunsDelayed? then w else v, p'.runningId);
      } else {
        assert RunsId(p', w, p'.runningId);
      }
    }
    forall v ensures RunsStarted(p', v) {
      assert RunsStarted(p, v);
      if 0 <= v < |p'.workers| && p'.workers[v].RunsDelayed? {
        if v == w {
          assert p'.starts[|p.starts|].item == p'.workers[w].item;
        } else {
          BegunStays(p, p', p'.workers[v].item);
        }
      }
    }
  }

  lemma ReturnRunning(p: Pool, w: nat)
    requires RunningInv(p) && w < |p.workers|
    ensures RunningInv(Return(p, w))
  {
    var p' := Return(p, w);
    if p'.runningId != 0 {
      var v :| RunsId(p, v, p.runningId);
      assert RunsId(p', v, p.runningId);
    }
    forall v ensures RunsStarted(p', v) {
      assert RunsStarted(p, v);
      if 0 <= v < |p'.workers| && p'.workers[v].RunsDelayed? { BegunStays(p, p', p'.workers[v].item); }
    }
  }

  lemma OtherRunning(p: Pool, p': Pool)
    requires RunningInv(p) && p'.workers == p.workers && p'.runningId == p.runningId && p'.starts == p.starts
    ensures RunningInv(p')
  {
    if p.runningId != 0 {
      var v :| RunsId(p, v, p.runningId);
      assert RunsId(p', v, p'.runningId);
    }
    forall v ensures RunsStarted(p', v) {
      assert RunsStarted(p, v);
      if 0 <= v < |p'.workers| && p'.workers[v].RunsDelayed? { BegunStays(p, p', p'.workers[v].item); }
    }
  }

  lemma {:induction false} RunningHolds(n: nat, evs: seq<Event>)
    ensures RunningInv(Run(n, evs))
  {
    hide RunningInv, Look, Return;
    if evs == [] {
      NoneAtWork(n);
    } else {
      var p, ev := Run(n, evs[..|evs| - 1]), evs[|evs| - 1];
      RunningHolds(n, evs[..|evs| - 1]);
      match ev
      case Pick(w, now) => if w < |p.workers| && p.workers[w].Idle? { PickRunning(p, w, now); }
      case Finish(w) => if w < |p.workers| { ReturnRunning(p, w); }
      case _ => OtherRunning(p, Step(p, ev));
    }
  }

  lemma NoneAtWork(n: nat)
    ensures RunningInv(Run(n, []))
  {
  }

  /**
   CancelTask waits only for a delayed task that a worker runs, one that was started; of any other id it
   returns whether it is pending. So it never waits for one that has finished.
   */
  lemma CancelReturns(n: nat, evs: seq<Event>, id: int)
    ensures var p := Run(n, evs);
            if CancelAnswer(p, id) == Waits
            then exists w :: RunsId(p, w, id) && Begun(p, p.workers[w].item)
            else CancelAnswer(p, id) == Returned(id in p.latest)
  {
    hide Run, Begun;
    var p := Run(n, evs);
    RunningHolds(n, evs);
    CancelsPending(n, evs, id);
    if CancelAnswer(p, id) == Waits {
      var w :| RunsId(p, w, id);
      assert RunsStarted(p, w);
    }
  }

  /** With one worker at most it waits exactly while that one runs the task. */
  lemma WaitsWhileRunning(n: nat, evs: seq<Event>, id: int)
    requires n <= 1
    ensures CancelAnswer(Run(n, evs), id) == Waits <==> exists w :: RunsId(Run(n, evs), w, id)
  {
    hide Run;
    CancelWaitsExactly(n);
    assert CancelWaits(Run(n, evs));
    CancelReturns(n, evs, id);
  }

  // ----- what an idle worker does -----

  predicate Due(p: Pool, now: int, x: Item) {
    x in p.timeQueue && x.exeTime <= now
  }

  /** Of the delayed tasks in the queue the worker takes a due one that comes first, and runs it if still wanted. */
  ghost predicate TakesDue(p: Pool, p': Pool, w: nat, now: int, x: Item)
    requires w < |p.workers|
  {
    && Due(p, now, x) && IsFirst(x, p.timeQueue) && p'.timeQueue == p.timeQueue - {x}
    && p'.latest == p.latest - {x.id} && p'.queue == p.queue && p'.started == p.started
    && p'.workers == (if x.id in p.latest then p.workers[w := RunsDelayed(x)] else p.workers)
    && p'.runningId == (if x.id in p.latest then x.id else p.runningId)
  }

  /**
   In every run an idle worker leaves exactly after a stop; otherwise it takes the first of what is due, and
   starts a normal task, the first in the deque, only when nothing is.
   */
  lemma PicksExactly(n: nat, evs: seq<Event>, w: nat, now: int)
    requires w < |Run(n, evs).workers| && Run(n, evs).workers[w].Idle?
    ensures var p, p' := Run(n, evs), Run(n, evs + [Pick(w, now)]);
            && (p.stop <==> p'.workers == p.workers[w := Exited]) && (p.stop ==> p' == p.(workers := p'.workers))
            && (!p.stop && (exists x :: Due(p, now, x)) ==> exists x :: TakesDue(p, p', w, now, x))
            && (!p.stop && !(exists x :: Due(p, now, x)) && p.queue != [] ==>
                 && p'.started == p.started + [p.queue[0]] && [p.queue[0]] + p'.queue == p.queue
                 && p'.workers == p.workers[w := RunsNormal(p.queue[0])])
            && (!p.stop && !(exists x :: Due(p, now, x)) && p.queue == [] ==> p' == p)
  {
    hide Run, First;
    var p := Run(n, evs);
    RunSnoc(n, evs, Pick(w, now));
    var p' := Run(n, evs + [Pick(w, now)]);
    assert p.workers[w := Exited][w] == Exited;
    DelayHolds(n, evs);
    if !p.stop && p.timeQueue != {} {
      var x := First(p.timeQueue);
      TheFirst(p.timeQueue);
      if now >= x.exeTime {
        DueTaken(p, w, now, x);
        assert Due(p, now, x) && TakesDue(p, p', w, now, x);
      } else {
        forall y ensures !Due(p, now, y) {
          if y in p.timeQueue { assert !Before(y, x); }
        }
      }
    }
  }

  lemma DueTaken(p: Pool, w: nat, now: int, x: Item)
    requires DelayInv(p) && w < |p.workers| && IsFirst(x, p.timeQueue) && now >= x.exeTime
    ensures TakesDue(p, TakeDue(p, w, now, x), w, now, x)
  {
    if x.id in p.latest {
      assert p.latest[x.id] == x;
    } else {
      assert p.latest - {x.id} == p.latest;
    }
  }

  /** A priority task is the next normal task to start, unless another one is added after it. */
  lemma {:induction false} PriorityNext(n: nat, evs: seq<Event>, k: nat)
    requires k < |evs| && evs[k].AddPriorityTask?
    requires forall i :: k < i < |evs| ==> !evs[i].AddPriorityTask?
    ensures var p, m := Run(n, evs), |Run(n, evs[..k]).started|;
            if |p.started| == m then p.queue != [] && p.queue[0] == evs[k].task
            else |p.started| > m && p.started[m] == evs[k].task
  {
    hide Step;
    var most, ev := evs[..|evs| - 1], evs[|evs| - 1];
    if k == |evs| - 1 {
      assert most == evs[..k];
      PriorityFirst(Run(n, most), ev);
    } else {
      assert most[..k] == evs[..k] && most[k] == evs[k];
      PriorityNext(n, most, k);
      StepStarts(Run(n, most), ev);
    }
  }

  lemma PriorityFirst(p: Pool, ev: Event)
    requires ev.AddPriorityTask?
    ensures Step(p, ev).queue == [ev.task] + p.queue && Step(p, ev).started == p.started
  {
  }

  /** Whatever else happens, the first of the deque stays there until it is the next to start. */
  lemma StepStarts(p: Pool, ev: Event)
    requires !ev.AddPriorityTask?
    ensures var p' := Step(p, ev);
            || (p'.started == p.started && (p.queue != [] ==> p'.queue != [] && p'.queue[0] == p.queue[0]))
            || (p.queue != [] && p'.started == p.started + [p.queue[0]])
  {
    hide First;
  }

  // ----- stopping -----

  lemma StoppedStep(p: Pool, ev: Event)
    requires p.stop
    ensures Step(p, ev).stop && Step(p, ev).started == p.started && Step(p, ev).starts == p.starts
  {
    hide First;
  }

  /** Once Stop has set its flag nothing is started any more. */
  lemma {:induction false} StopStartsNothing(n: nat, evs: seq<Event>, k: nat)
    requires k < |evs| && evs[k] == StopNow
    ensures Run(n, evs).stop && Run(n, evs).started == Run(n, evs[..k]).started
            && Run(n, evs).starts == Run(n, evs[..k]).starts
  {
    hide Step;
    var most := evs[..|evs| - 1];
    if k == |evs| - 1 {
      assert most == evs[..k];
      StopSets(Run(n, most));
    } else {
      assert most[..k] == evs[..k];
      StopStartsNothing(n, most, k);
      StoppedStep(Run(n, most), evs[|evs| - 1]);
    }
  }

  lemma StopSets(p: Pool)
    ensures Step(p, StopNow) == p.(stop := true)
  {
  }

  /** Every worker leaves then at its next look, after the task it may be running has returned. */
  lemma StopLeaves(p: Pool, w: nat, now: int)
    requires p.stop && w < |p.workers|
    ensures var p' := Step(Step(p, Finish(w)), Pick(w, now));
            p'.workers == p.workers[w := Exited]
  {
    if p.workers[w].Exited? { assert p.workers[w := Exited] == p.workers; }
  }
}
