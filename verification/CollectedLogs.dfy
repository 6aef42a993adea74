/**
 Collection beside replication: runs of the cluster with collection events of any rounds between its
 actions. A handler that reads a slot finds it, however collection interleaves, exactly when some
 member has not applied three past it.
 */
module CollectedLogs {
  import opened Base
  import opened RaftNode
  import opened Cluster
  import opened Frames
  import opened StateMachineSafety
  import GC = GarbageCollection

  datatype Step = Acts(a: Action) | Collects(ev: GC.Event)

  datatype Joint = Joint(cluster: State, gc: GC.State)

  /** An apply loop that moves on does so for collection too; that is no event of its own. */
  function JointStep(cfg: Config, j: Joint, step: Step): Joint {
    match step
    case Acts(a) =>
      Joint(Next(cfg, j.cluster, a),
            if a.ApplyTagAt? && Enabled(cfg, j.cluster, a) then GC.Step(cfg.members, j.gc, GC.Apply(a.i)) else j.gc)
    case Collects(ev) => if ev.Apply? then j else Joint(j.cluster, GC.Step(cfg.members, j.gc, ev))
  }

  function AfterAll(cfg: Config, steps: seq<Step>): Joint {
    if steps == [] then Joint(Cluster.Init(cfg), GC.Init(cfg.members))
    else JointStep(cfg, AfterAll(cfg, steps[..|steps| - 1]), steps[|steps| - 1])
  }

  lemma AfterAllSnoc(cfg: Config, steps: seq<Step>, step: Step)
    ensures AfterAll(cfg, steps + [step]) == JointStep(cfg, AfterAll(cfg, steps), step)
  {
    assert (steps + [step])[..|steps|] == steps;
  }

  /** The cluster's own run in it. */
  function ActionsOf(steps: seq<Step>): seq<Action> {
    if steps == [] then []
    else
      ActionsOf(steps[..|steps| - 1])
      + (match steps[|steps| - 1]
         case Acts(a) => [a]
         case Collects(_) => [])
  }

  // ----- the slots the handlers read -----

  /**
   The lowest slot AppendEntriesImpl reads: the one before the entries, or, to cut there, the one
   before that. With the alignment repair it also looks at its own slots from the entries on, with that
   of the commit index at the slot a heartbeat would commit. `SlotReads` proves this of the handlers.
   */
  function FollowerReads(r: Repairs, n: Node, req: AppendReq): Option<int> {
    match Judge(n, req)
    case Mismatch => if req.prevIndex >= 0 then Some(Max(req.prevIndex - 1, 0)) else None
    case Busy => if req.prevIndex >= 0 then Some(req.prevIndex) else None
    case Accepted =>
      if req.entries == [] then
        var c := Min(|n.log| - 1, req.leaderCommit);
        if r.commit && 0 <= c && n.commit < c then Some(c) else None
      else if req.prevIndex >= 0 then Some(req.prevIndex)
      else if r.align && n.log != [] then Some(0)
      else None
    case _ => None
  }

  /** The lowest slot an action reads, if it reads any. */
  function Lowest(cfg: Config, s: State, a: Action): Option<int>
    requires Enabled(cfg, s, a)
  {
    match a
    case ReplicateTo(i, f, _) => Some(Max(Lookup(s.nodes[i].nextIndex, f) - 1, 0))
    case DeliverTo(f, req) => FollowerReads(cfg.repairs, s.nodes[f], req)
    case ApplyEntryAt(i) => Some(s.nodes[i].lastApplied + 1)
    case _ => None
  }

  ghost predicate Reads(cfg: Config, s: State, a: Action, slot: int) {
    Enabled(cfg, s, a) && Lowest(cfg, s, a) == Some(slot)
  }

  /** Every slot the action reads is still there. */
  ghost predicate Finds(cfg: Config, j: Joint, a: Action) {
    forall slot :: Reads(cfg, j.cluster, a, slot) ==>
      Actor(a) in j.gc.nodes && j.gc.nodes[Actor(a)].firstSlot <= slot
  }

  /** Some member has not applied three past the slot; no collection gets near the largest index. */
  ghost predicate Near(s: State, slot: int) {
    slot + 2 >= 0x7FFF_FFFF_FFFF_FFFF || exists m :: m in s.nodes && s.nodes[m].lastApplied <= slot + 2
  }

  ghost predicate ReadsNear(cfg: Config, s: State, a: Action) {
    forall slot :: Reads(cfg, s, a, slot) ==> Near(s, slot)
  }

  // ----- both parts of a joint run are runs -----

  /** Both parts have the same members, and they have applied as far in one as in the other. */
  ghost predicate Level(s: State, gc: GC.State) {
    gc.nodes.Keys == s.nodes.Keys
    && forall i {:trigger s.nodes[i]} {:trigger gc.nodes[i]} ::
         i in s.nodes ==> gc.nodes[i].applied == s.nodes[i].lastApplied
  }

  lemma HandleLevel(cfg: Config, n: Node, a: Action)
    ensures Handle(cfg, n, a).lastApplied == n.lastApplied + (if a.ApplyTagAt? && n.inHand then 1 else 0)
  {
    if !a.ApplyEntryAt? && !a.ApplyTagAt? {
      hide Handle;
      HandleSameApplied(cfg, n, a);
    }
  }

  lemma CollectsLevel(ms: seq<Addr>, s: State, gc: GC.State, ev: GC.Event)
    requires Level(s, gc) && !ev.Apply?
    ensures Level(s, GC.Step(ms, gc, ev))
  {
    hide GC.Smallest, GC.Complete;
  }

  lemma ActsLevel(cfg: Config, j: Joint, a: Action)
    requires Level(j.cluster, j.gc)
    ensures var j' := JointStep(cfg, j, Acts(a)); Level(j'.cluster, j'.gc)
  {
    hide Next, Handle, Enabled;
    if Enabled(cfg, j.cluster, a) {
      ActorHandles(cfg, j.cluster, a);
      HandleLevel(cfg, j.cluster.nodes[Actor(a)], a);
      if a.ApplyTagAt? { TagEnabled(cfg, j.cluster, a); }
    } else {
      NotEnabled(cfg, j.cluster, a);
    }
  }

  lemma TagEnabled(cfg: Config, s: State, a: Action)
    requires Enabled(cfg, s, a) && a.ApplyTagAt?
    ensures Actor(a) == a.i && a.i in s.nodes && s.nodes[a.i].inHand
  {
  }

  lemma {:induction false} JointLevel(cfg: Config, steps: seq<Step>)
    ensures var j := AfterAll(cfg, steps);
            j.cluster == After(cfg, ActionsOf(steps)) && Level(j.cluster, j.gc)
  {
    hide Next, Enabled, Level, After;
    if steps == [] {
      StartsLevel(cfg);
    } else {
      var most, last := steps[..|steps| - 1], steps[|steps| - 1];
      JointLevel(cfg, most);
      match last
      case Acts(a) =>
        AfterSnoc(cfg, ActionsOf(most), a);
        ActsLevel(cfg, AfterAll(cfg, most), a);
      case Collects(ev) =>
        assert ActionsOf(most) + [] == ActionsOf(most);
        if !ev.Apply? { CollectsLevel(cfg.members, AfterAll(cfg, most).cluster, AfterAll(cfg, most).gc, ev); }
    }
  }

  lemma StartsLevel(cfg: Config)
    ensures After(cfg, []) == Cluster.Init(cfg) && Level(Cluster.Init(cfg), GC.Init(cfg.members))
  {
  }

  /** The collection part is a run of collection. */
  lemma {:induction false} JointCollects(cfg: Config, steps: seq<Step>) returns (evs: seq<GC.Event>)
    ensures AfterAll(cfg, steps).gc == GC.Run(cfg.members, evs)
  {
    hide Next, Enabled, GC.Step;
    if steps == [] {
      evs := [];
    } else {
      var most, last := steps[..|steps| - 1], steps[|steps| - 1];
      evs := JointCollects(cfg, most);
      var ev := if last.Acts? then (if last.a.ApplyTagAt? then Some(GC.Apply(last.a.i)) else None) else Some(last.ev);
      if AfterAll(cfg, steps).gc != AfterAll(cfg, most).gc {
        assert (evs + [ev.value])[..|evs|] == evs;
        evs := evs + [ev.value];
      }
    }
  }

  // ----- when every read finds its slot -----

  lemma LowestCounts(cfg: Config, s: State, a: Action, slot: int)
    requires Reads(cfg, s, a, slot)
    ensures slot >= 0 && Actor(a) in s.nodes
  {
    if a.DeliverTo? {
      match Judge(s.nodes[a.f], a.req)
      case _ =>
    }
  }

  /** A slot that some member is behind is there, whatever was collected. */
  lemma NearFinds(cfg: Config, steps: seq<Step>, a: Action)
    requires ReadsNear(cfg, AfterAll(cfg, steps).cluster, a)
    ensures Finds(cfg, AfterAll(cfg, steps), a)
  {
    hide AfterAll, Reads;
    var j := AfterAll(cfg, steps);
    JointLevel(cfg, steps);
    var evs := JointCollects(cfg, steps);
    forall slot | Reads(cfg, j.cluster, a, slot)
      ensures Actor(a) in j.gc.nodes && j.gc.nodes[Actor(a)].firstSlot <= slot
    {
      LowestCounts(cfg, j.cluster, a, slot);
      if slot + 2 < GC.INT64_MAX {
        var m :| m in j.cluster.nodes && j.cluster.nodes[m].lastApplied <= slot + 2;
        assert j.gc.nodes[m].applied <= slot + 2;
      }
      GC.KeptSlot(cfg.members, evs, Actor(a), slot);
    }
  }

  /** The apply loop reads one past what its own node has applied, so it never misses a slot. */
  lemma ApplyNeverMisses(cfg: Config, steps: seq<Step>, i: Addr)
    ensures Finds(cfg, AfterAll(cfg, steps), ApplyEntryAt(i))
  {
    hide AfterAll, Finds;
    NearFinds(cfg, steps, ApplyEntryAt(i));
  }

  // ----- a round at any moment of a run -----

  function Acting(run: seq<Action>): seq<Step> {
    if run == [] then [] else Acting(run[..|run| - 1]) + [Acts(run[|run| - 1])]
  }

  function Collecting(evs: seq<GC.Event>): seq<Step> {
    if evs == [] then [] else Collecting(evs[..|evs| - 1]) + [Collects(evs[|evs| - 1])]
  }

  lemma {:induction false} ActingIs(run: seq<Action>)
    ensures ActionsOf(Acting(run)) == run
  {
    if run != [] {
      var most := run[..|run| - 1];
      ActingIs(most);
      assert Acting(run)[..|Acting(run)| - 1] == Acting(most);
      assert most + [run[|run| - 1]] == run;
    }
  }

  lemma {:induction false} ActionsJoin(a: seq<Step>, b: seq<Step>)
    ensures ActionsOf(a + b) == ActionsOf(a) + ActionsOf(b)
  {
    if b == [] {
      assert a + b == a;
    } else {
      ActionsJoin(a, b[..|b| - 1]);
      assert (a + b)[..|a + b| - 1] == a + b[..|b| - 1];
    }
  }

  lemma {:induction false} CollectingIs(evs: seq<GC.Event>)
    ensures ActionsOf(Collecting(evs)) == []
  {
    if evs != [] {
      CollectingIs(evs[..|evs| - 1]);
      assert Collecting(evs)[..|Collecting(evs)| - 1] == Collecting(evs[..|evs| - 1]);
    }
  }

  ghost predicate NoApply(evs: seq<GC.Event>) {
    forall ev :: ev in evs ==> !ev.Apply?
  }

  lemma {:induction false} CollectingDoes(cfg: Config, steps: seq<Step>, evs: seq<GC.Event>)
    requires NoApply(evs)
    ensures var j := AfterAll(cfg, steps);
            AfterAll(cfg, steps + Collecting(evs)) == Joint(j.cluster, GC.Steps(cfg.members, j.gc, evs))
  {
    hide Next, Enabled, GC.Step;
    if evs == [] {
      assert steps + Collecting(evs) == steps;
    } else {
      var most, last := evs[..|evs| - 1], evs[|evs| - 1];
      CollectingDoes(cfg, steps, most);
      assert steps + Collecting(evs) == (steps + Collecting(most)) + [Collects(last)];
      AfterAllSnoc(cfg, steps + Collecting(most), Collects(last));
    }
  }

  /** Nothing is collected while the cluster runs alone. */
  lemma {:induction false} NothingCollected(cfg: Config, run: seq<Action>)
    ensures var gc := AfterAll(cfg, Acting(run)).gc;
            gc.rounds == map[] && forall i {:trigger gc.nodes[i]} :: i in gc.nodes ==> gc.nodes[i].lastSafe == -1
  {
    hide Next, Enabled;
    if run != [] {
      NothingCollected(cfg, run[..|run| - 1]);
      AfterAllSnoc(cfg, Acting(run[..|run| - 1]), Acts(run[|run| - 1]));
    }
  }

  lemma {:induction false} AskedAsks(asked: seq<Addr>)
    ensures NoApply(GC.AskAll(asked))
  {
    if asked != [] { AskedAsks(asked[..|asked| - 1]); }
  }

  /** Where every member has applied three past the slot, a round just then takes it from the reader. */
  lemma NotNearMisses(cfg: Config, run: seq<Action>, a: Action, slot: int) returns (evs: seq<GC.Event>)
    requires var s := After(cfg, run); Reads(cfg, s, a, slot) && !Near(s, slot)
    ensures var steps := Acting(run) + Collecting(evs);
            ActionsOf(steps) == run && !Finds(cfg, AfterAll(cfg, steps), a)
  {
    hide After, AfterAll, Reads, GC.Steps, GC.GcInv, GC.Run;
    var pre := Acting(run);
    var j := AfterAll(cfg, pre);
    ActingIs(run);
    JointLevel(cfg, pre);
    NothingCollected(cfg, run);
    var was := JointCollects(cfg, pre);
    GC.GcHolds(cfg.members, was);
    LowestCounts(cfg, j.cluster, a, slot);
    forall m {:trigger j.gc.nodes[m]} | m in j.gc.nodes ensures j.gc.nodes[m].applied > slot + 2 {
      assert j.cluster.nodes[m].lastApplied > slot + 2;
    }
    GC.RoundRemoves(cfg.members, j.gc, Actor(a), slot);
    evs := GC.WholeRound(cfg.members, j.gc, Actor(a));
    AskedAsks(cfg.members);
    CollectingDoes(cfg, pre, evs);
    CollectingIs(evs);
    ActionsJoin(pre, Collecting(evs));
    assert Reads(cfg, AfterAll(cfg, pre + Collecting(evs)).cluster, a, slot);
  }

  /** In every joint run over this run of the cluster, every handler finds the slots it reads. */
  ghost predicate AlwaysFinds(cfg: Config, run: seq<Action>) {
    forall steps: seq<Step>, k :: ActionsOf(steps) == run && 0 <= k < |steps| && steps[k].Acts? ==>
      Finds(cfg, AfterAll(cfg, steps[..k]), steps[k].a)
  }

  ghost predicate AlwaysNear(cfg: Config, run: seq<Action>) {
    forall k :: 0 <= k < |run| ==> ReadsNear(cfg, After(cfg, run[..k]), run[k])
  }

  lemma {:induction false} ActionsUpTo(steps: seq<Step>, k: nat)
    requires k < |steps| && steps[k].Acts?
    ensures var n := |ActionsOf(steps[..k])|;
            && n < |ActionsOf(steps)| && ActionsOf(steps)[..n] == ActionsOf(steps[..k])
            && ActionsOf(steps)[n] == steps[k].a
  {
    assert steps == steps[..k] + ([steps[k]] + steps[k + 1..]);
    ActionsJoin(steps[..k], [steps[k]] + steps[k + 1..]);
    ActionsJoin([steps[k]], steps[k + 1..]);
    assert [steps[k]][..0] == [];
  }

  /**
   However collection interleaves with a run of the cluster, no handler misses a slot it reads, exactly
   when at every action that reads slots some member has not applied three past the lowest of them.
   */
  lemma CollectsExact(cfg: Config, run: seq<Action>)
    ensures AlwaysFinds(cfg, run) <==> AlwaysNear(cfg, run)
  {
    hide After, AfterAll, ReadsNear, Finds;
    if AlwaysNear(cfg, run) {
      forall steps: seq<Step>, k | ActionsOf(steps) == run && 0 <= k < |steps| && steps[k].Acts?
        ensures Finds(cfg, AfterAll(cfg, steps[..k]), steps[k].a)
      {
        ActionsUpTo(steps, k);
        JointLevel(cfg, steps[..k]);
        assert ReadsNear(cfg, After(cfg, run[..|ActionsOf(steps[..k])|]), run[|ActionsOf(steps[..k])|]);
        NearFinds(cfg, steps[..k], steps[k].a);
      }
    } else {
      var k :| 0 <= k < |run| && !ReadsNear(cfg, After(cfg, run[..k]), run[k]);
      MissedAt(cfg, run, k);
    }
  }

  lemma MissedAt(cfg: Config, run: seq<Action>, k: nat)
    requires k < |run| && !ReadsNear(cfg, After(cfg, run[..k]), run[k])
    ensures !AlwaysFinds(cfg, run)
  {
    hide After, AfterAll, Finds, Reads, Near, ReadsNear, ActionsOf, Acting, Collecting;
    var slot := NotNearAt(cfg, After(cfg, run[..k]), run[k]);
    var evs := NotNearMisses(cfg, run[..k], run[k], slot);
    var pre := Acting(run[..k]) + Collecting(evs);
    var steps := pre + ([Acts(run[k])] + Acting(run[k + 1..]));
    Spliced(pre, run[k], run[k + 1..]);
    assert run[..k] + ([run[k]] + run[k + 1..]) == run;
    assert steps[..|pre|] == pre && steps[|pre|] == Acts(run[k]);
  }

  lemma NotNearAt(cfg: Config, s: State, a: Action) returns (slot: int)
    requires !ReadsNear(cfg, s, a)
    ensures Reads(cfg, s, a, slot) && !Near(s, slot)
  {
    hide Reads, Near;
    slot :| Reads(cfg, s, a, slot) && !Near(s, slot);
  }

  lemma Spliced(pre: seq<Step>, a: Action, rest: seq<Action>)
    ensures ActionsOf(pre + ([Acts(a)] + Acting(rest))) == ActionsOf(pre) + ([a] + rest)
  {
    ActionsJoin(pre, [Acts(a)] + Acting(rest));
    ActionsJoin([Acts(a)], Acting(rest));
    ActingIs(rest);
    assert [Acts(a)][..0] == [];
  }
}
