/**
 The slot the apply loop asks for is always there, with any choice of repairs: truncations and
 overwriting leave the number of stored slots alone or raise it, and no commit index and no request
 points past the slots of its node. So the assertion on ReadSlot in the apply loop never fails.
 */
module ApplySlots {
  import opened Base
  import opened RaftNode
  import opened Cluster
  import opened Frames
  import opened ClientSuccess
  import opened Answers

  function Total(n: Node): nat {
    |n.log| + |n.stale|
  }

  /** The node's indices point at slots it has. */
  ghost predicate WithinSlots(n: Node) {
    n.commit < Total(n) && n.applyEnd < Total(n)
  }

  /** The last entry of a request is at an index its sender has a slot for. */
  ghost predicate RequestWithin(s: State, req: AppendReq) {
    req.entries != [] ==> req.leader in s.nodes && req.prevIndex + |req.entries| < Total(s.nodes[req.leader])
  }

  ghost predicate SlotsInv(s: State) {
    && (forall i {:trigger s.nodes[i]} :: i in s.nodes ==> WithinSlots(s.nodes[i]))
    && (forall m {:trigger m in s.appends} :: m in s.appends ==> RequestWithin(s, m.req))
  }

  lemma WriteEntriesTotal(n: Node, es: seq<Entry>)
    ensures Total(WriteEntries(n, es)) >= Total(n) && |WriteEntries(n, es).log| == |n.log| + |es|
  {
  }

  lemma TruncateTotal(r: Repairs, n: Node, slot: int)
    requires slot < |n.log|
    ensures Total(Truncate(r, n, slot)) == Total(n)
  {
  }

  lemma AcceptTotal(r: Repairs, n: Node, req: AppendReq)
    requires req.prevIndex < |n.log|
    ensures var n' := AcceptEntries(r, n, req);
            Total(n') >= Total(n) && req.prevIndex + |req.entries| < |n'.log|
  {
    hide Agreeing;
    if r.align {
      var from := Max(req.prevIndex + 1, 0);
      var k := Agreeing(n.log, from, req.entries);
      if k < |req.entries| {
        TruncateTotal(r, n, from + k - 1);
        WriteEntriesTotal(Truncate(r, n, from + k - 1), req.entries[k..]);
      }
    } else {
      WriteEntriesTotal(n, req.entries);
    }
  }

  lemma FollowerCommitWithin(r: Repairs, log: seq<Entry>, commit: int, req: AppendReq, total: nat)
    requires commit < total && |log| <= total && (req.entries != [] ==> req.prevIndex + |req.entries| < total)
    ensures FollowerCommit(r, log, commit, req) < total
  {
  }

  /** The slots after a request are those of its truncation or its writing. */
  lemma AppendSlots(r: Repairs, n: Node, req: AppendReq)
    ensures var n' := AppendEntries(r, n, req).0; var n1 := Follow(n, req);
            match Judge(n, req)
            case Mismatch => Total(n') == Total(Truncate(r, n1, req.prevIndex - 1))
            case Accepted =>
              if req.entries == [] then Total(n') == Total(n)
              else Total(n') == Total(AcceptEntries(r, n1, req)) && n'.log == AcceptEntries(r, n1, req).log
            case _ => Total(n') == Total(n)
  {
    hide AcceptEntries, Truncate, FollowerCommit;
  }

  lemma AppendTotal(r: Repairs, n: Node, req: AppendReq)
    requires WithinSlots(n)
    ensures WithinSlots(AppendEntries(r, n, req).0) && Total(AppendEntries(r, n, req).0) >= Total(n)
  {
    hide AcceptEntries, Truncate, FollowerCommit, AppendEntries;
    var n1, n' := Follow(n, req), AppendEntries(r, n, req).0;
    AppendSlots(r, n, req);
    AppendCases(r, n, req);
    match Judge(n, req)
    case Mismatch => TruncateTotal(r, n1, req.prevIndex - 1);
    case Accepted =>
      if req.entries != [] { AcceptTotal(r, n1, req); }
      FollowerCommitWithin(r, n'.log, n.commit, req, Total(n'));
    case _ =>
  }

  /** A leader that moves its commit index moves it to the last entry of the request answered. */
  lemma ReplyCommit(cfg: Config, self: Addr, n: Node, f: Addr, req: AppendReq, res: Option<AppendRes>)
    ensures var n' := ReplicateReply(cfg, self, n, f, req, res);
            n'.commit == n.commit || n'.commit == req.prevIndex + |req.entries|
  {
    hide Matches, MaxTerm, BackUp;
    if res.Some? { BackUpCases(n, f, res.value.logLength); }
  }

  /** What an action leaves of its node: no fewer slots, and indices within them. */
  lemma HandleWithin(cfg: Config, n: Node, a: Action)
    requires WithinSlots(n)
    requires a.ReplicateBack? && a.req.entries != [] ==> a.req.prevIndex + |a.req.entries| < Total(n)
    requires a.ReplicateBack? ==> a.req.entries != []
    ensures WithinSlots(Handle(cfg, n, a)) && Total(Handle(cfg, n, a)) >= Total(n)
  {
    hide VoteLeader, Vote, VoteCallBack, ClientWrite, AppendEntries, ReplicateReply, HeartBeatCallBack;
    match a
    case TimeoutAt(i) => VoteLeaderCases(i, n);
    case VoteAt(_, req) => VoteCases(n, req);
    case VoteBack(call, res) => VoteBackWithin(cfg, call.candidate, n, res);
    case WriteAt(_, kind, key, value) => WriteWithin(n, kind, key, value);
    case DeliverTo(_, req) => AppendTotal(cfg.repairs, n, req);
    case ReplicateBack(f, req, res) =>
      ReplyCases(cfg, req.leader, n, f, req, res);
      ReplyCommit(cfg, req.leader, n, f, req, res);
    case HeartBeatBack(_, _, res) => HeartBeatCases(n, res);
    case _ =>
  }

  lemma WriteWithin(n: Node, kind: Kind, key: Bytes, value: Bytes)
    requires WithinSlots(n)
    ensures WithinSlots(ClientWrite(n, kind, key, value)) && Total(ClientWrite(n, kind, key, value)) >= Total(n)
  {
    hide EntryOf;
  }

  lemma VoteBackWithin(cfg: Config, self: Addr, n: Node, res: Option<VoteRes>)
    requires WithinSlots(n)
    ensures WithinSlots(VoteCallBack(cfg, self, n, res)) && Total(VoteCallBack(cfg, self, n, res)) >= Total(n)
  {
    hide PingEntry, Reset;
  }

  /** New requests are built from slots the sender has. */
  lemma SentWithin(cfg: Config, s: State, s': State, a: Action)
    requires Enabled(cfg, s, a) && s' == Next(cfg, s, a)
    ensures forall m :: m in s'.appends ==> m in s.appends || RequestWithin(s, m.req)
  {
    if WritesNoSlot(a) { NoSlotFrame(cfg, s, a); }
  }

  lemma RepliedWithin(cfg: Config, s: State, a: Action)
    requires SlotsInv(s) && Enabled(cfg, s, a) && a.ReplicateBack?
    ensures a.req.entries != [] && Actor(a) in s.nodes && a.req.prevIndex + |a.req.entries| < Total(s.nodes[Actor(a)])
  {
    assert AppendMsg(a.f, a.req) in s.appends && RequestWithin(s, a.req);
  }

  lemma NextWithin(cfg: Config, s: State, a: Action)
    requires SlotsInv(s)
    ensures SlotsInv(Next(cfg, s, a))
  {
    hide Next, Enabled, Handle;
    var s' := Next(cfg, s, a);
    if Enabled(cfg, s, a) {
      ActorHandles(cfg, s, a);
      if a.ReplicateBack? { RepliedWithin(cfg, s, a); }
      HandleWithin(cfg, s.nodes[Actor(a)], a);
      SentWithin(cfg, s, s', a);
      forall m {:trigger m in s'.appends} | m in s'.appends ensures RequestWithin(s', m.req) {
        assert RequestWithin(s, m.req);
      }
    } else {
      NotEnabled(cfg, s, a);
    }
  }

  lemma {:induction false} SlotsHold(cfg: Config, run: seq<Action>)
    ensures SlotsInv(After(cfg, run))
  {
    hide Next;
    if run != [] {
      SlotsHold(cfg, run[..|run| - 1]);
      NextWithin(cfg, After(cfg, run[..|run| - 1]), run[|run| - 1]);
    }
  }

  /** In every run a loop that has entries left to apply finds the slot of the next one. */
  lemma ApplyFindsSlot(cfg: Config, run: seq<Action>, i: Addr)
    requires i in After(cfg, run).nodes
    ensures var n := After(cfg, run).nodes[i];
            !n.inHand && n.lastApplied < n.applyEnd ==> CanApply(n)
  {
    SlotsHold(cfg, run);
    ClientsHold(cfg, run);
    assert WithinSlots(After(cfg, run).nodes[i]) && ClientInv(After(cfg, run).nodes[i]);
  }

  /** Every leader of every run is one that Answers.WorkAnswersCommitted speaks of. */
  lemma LeadersAtWork(cfg: Config, run: seq<Action>, i: Addr)
    requires i in After(cfg, run).nodes && After(cfg, run).nodes[i].status == Leader
    ensures AtWork(After(cfg, run).nodes[i])
  {
    var n := After(cfg, run).nodes[i];
    SlotsHold(cfg, run);
    ClientsHold(cfg, run);
    assert WithinSlots(n) && ClientInv(n);
    forall e | e in n.acked ensures e.index <= n.lastApplied {
      assert EventInv(n, e);
    }
  }
}
