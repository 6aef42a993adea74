/** What the actions leave alone. */
module Frames {
  import opened Base
  import opened RaftNode
  import opened Cluster

  /** What an action does to the node it runs on. */
  function Handle(cfg: Config, n: Node, a: Action): Node {
    match a
    case TimeoutAt(i) => VoteLeader(i, n)
    case VoteAt(_, req) => Vote(n, req).0
    case VoteBack(call, res) => VoteCallBack(cfg, call.candidate, n, res)
    case WriteAt(_, kind, key, value) => ClientWrite(n, kind, key, value)
    case ReplicateTo(_, _, _) => n
    case DeliverTo(_, req) => AppendEntries(cfg.repairs, n, req).0
    case ReplicateBack(f, req, res) => ReplicateReply(cfg, req.leader, n, f, req, res)
    case HeartBeatAt(_) => n
    case HeartBeatBack(_, _, res) => HeartBeatCallBack(n, res)
    case ApplyBeginAt(_) => ApplyBegin(n)
    case ApplyEntryAt(_) => if CanApply(n) then ApplyEntry(n) else n
    case ApplyTagAt(_) => if n.inHand then ApplyTag(n) else n
    case ThreadAt(_, f, running) =>
      n.(replicating := if running then n.replicating + {f} else n.replicating - {f})
  }

  ghost predicate OthersSame(s: State, s': State, i: Addr) {
    && s'.nodes.Keys == s.nodes.Keys && i in s.nodes
    && (forall j :: j in s.nodes && j != i ==> s'.nodes[j] == s.nodes[j])
  }

  /** An action does to the cluster's nodes what its handler does to one of them. */
  lemma ActorHandles(cfg: Config, s: State, a: Action)
    requires Enabled(cfg, s, a)
    ensures OthersSame(s, Next(cfg, s, a), Actor(a))
    ensures Next(cfg, s, a).nodes[Actor(a)] == Handle(cfg, s.nodes[Actor(a)], a)
  {
    hide VoteLeader, Vote, VoteCallBack, ClientWrite, AppendEntries, ReplicateReply, HeartBeatCallBack;
    hide ApplyBegin, ApplyEntry, ApplyTag;
    match a
    case TimeoutAt(_) =>
    case VoteAt(_, _) =>
    case VoteBack(_, _) =>
    case WriteAt(_, _, _, _) =>
    case ReplicateTo(_, _, _) =>
    case DeliverTo(_, _) =>
    case ReplicateBack(_, _, _) =>
    case HeartBeatAt(_) =>
    case HeartBeatBack(_, _, _) =>
    case ApplyBeginAt(_) =>
    case ApplyEntryAt(_) =>
    case ApplyTagAt(_) =>
    case ThreadAt(_, _, _) =>
  }

  /** An action changes no node but the one it runs on. */
  lemma OnlyActor(cfg: Config, s: State, a: Action)
    requires Enabled(cfg, s, a)
    ensures OthersSame(s, Next(cfg, s, a), Actor(a))
  {
    hide Next, Enabled, Handle;
    ActorHandles(cfg, s, a);
  }

  /** The actions that write no slot of any log. */
  predicate WritesNoSlot(a: Action) {
    !a.VoteBack? && !a.WriteAt? && !a.DeliverTo?
  }

  ghost predicate SameBinlog(n: Node, n': Node) {
    n'.log == n.log && n'.stale == n.stale && n'.lastLogTerm == n.lastLogTerm
  }

  ghost predicate SameHistory(s: State, s': State) {
    && s'.crowns == s.crowns && s'.reigns == s.reigns && s'.acks == s.acks && s'.wrote == s.wrote
  }

  lemma HandleFrame(cfg: Config, n: Node, a: Action)
    requires WritesNoSlot(a)
    ensures SameBinlog(n, Handle(cfg, n, a))
  {
    hide VoteLeader, Vote, ReplicateReply, HeartBeatCallBack;
    match a
    case TimeoutAt(i) => VoteLeaderCases(i, n);
    case VoteAt(_, req) => VoteCases(n, req);
    case ReplicateBack(f, req, res) => ReplyCases(cfg, req.leader, n, f, req, res);
    case HeartBeatBack(_, _, res) => HeartBeatCases(n, res);
    case _ =>
  }

  lemma NoSlotHistory(cfg: Config, s: State, a: Action)
    requires Enabled(cfg, s, a) && WritesNoSlot(a)
    ensures SameHistory(s, Next(cfg, s, a))
    ensures forall m :: m in Next(cfg, s, a).appends ==>
              m in s.appends || (a.ReplicateTo? && m.dest == a.f
                && m.req == BuildAppend(a.i, s.nodes[a.i], a.f, a.single))
              || (a.HeartBeatAt? && m.dest != a.i && m.req == HeartBeat(a.i, s.nodes[a.i]))
  {
    hide VoteLeader, Vote, ReplicateReply, HeartBeatCallBack, ApplyBegin, ApplyEntry, ApplyTag, BuildAppend, HeartBeat;
    match a
    case TimeoutAt(_) =>
    case VoteAt(_, _) =>
    case ReplicateTo(_, _, _) =>
    case ReplicateBack(_, _, _) =>
    case HeartBeatAt(_) =>
    case HeartBeatBack(_, _, _) =>
    case ApplyBeginAt(_) =>
    case ApplyEntryAt(_) =>
    case ApplyTagAt(_) =>
    case ThreadAt(_, _, _) =>
  }

  lemma NoSlotFrame(cfg: Config, s: State, a: Action)
    requires Enabled(cfg, s, a) && WritesNoSlot(a)
    ensures OthersSame(s, Next(cfg, s, a), Actor(a)) && SameHistory(s, Next(cfg, s, a))
    ensures SameBinlog(s.nodes[Actor(a)], Next(cfg, s, a).nodes[Actor(a)])
    ensures forall m :: m in Next(cfg, s, a).appends ==>
              m in s.appends || (a.ReplicateTo? && m.dest == a.f
                && m.req == BuildAppend(a.i, s.nodes[a.i], a.f, a.single))
              || (a.HeartBeatAt? && m.dest != a.i && m.req == HeartBeat(a.i, s.nodes[a.i]))
  {
    hide Next, Enabled, Handle;
    ActorHandles(cfg, s, a);
    HandleFrame(cfg, s.nodes[Actor(a)], a);
    NoSlotHistory(cfg, s, a);
  }
}
