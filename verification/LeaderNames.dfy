/**
 The leader a node names to clients: with any choice of repairs it is a node that has led a term no later
 than its own, and after a request of a term just the leader of that term.
 */
module LeaderNames {
  import opened Base
  import opened RaftNode
  import opened Cluster
  import opened Frames
  import opened ElectionSafety
  import opened Provenance
  import opened Refusals

  /** Node a has led a term up to t. */
  ghost predicate LedUpTo(s: State, a: Addr, t: int) {
    exists u :: u <= t && Ruled(s, a, u)
  }

  ghost predicate NodeNames(s: State, i: Addr, n: Node) {
    (n.leaderAddr == "" || LedUpTo(s, n.leaderAddr, n.term)) && (n.status == Leader ==> n.leaderAddr == i)
  }

  ghost predicate NamesInv(s: State) {
    && (forall i {:trigger s.nodes[i]} :: i in s.nodes ==> NodeNames(s, i, s.nodes[i]))
    && (forall m {:trigger m in s.appends} :: m in s.appends ==> Ruled(s, m.req.leader, m.req.term))
  }

  /** The leader named changes with a request that is not outdated and with an election won, and else never. */
  lemma HandleNames(cfg: Config, n: Node, a: Action)
    ensures var n' := Handle(cfg, n, a);
            if a.DeliverTo? && a.req.term >= n.term
            then n'.leaderAddr == a.req.leader && n'.status == Follower && n'.term == a.req.term
            else if a.VoteBack? && Wins(cfg, n, a.voteRes)
            then n'.leaderAddr == a.call.candidate && n'.term == n.term
            else n'.leaderAddr == n.leaderAddr && (n'.status == Leader ==> n.status == Leader)
  {
    hide VoteLeader, Vote, VoteCallBack, ClientWrite, AppendEntries, ReplicateReply, HeartBeatCallBack, Wins;
    match a
    case TimeoutAt(i) => VoteLeaderCases(i, n);
    case VoteAt(_, req) => VoteCases(n, req);
    case VoteBack(call, res) => VoteBackNames(cfg, call.candidate, n, res);
    case WriteAt(_, kind, key, value) => ClientWriteCases(n, kind, key, value);
    case DeliverTo(_, req) => FollowsExactly(cfg.repairs, n, req);
    case ReplicateBack(f, req, res) => ReplyCases(cfg, req.leader, n, f, req, res);
    case HeartBeatBack(_, _, res) => HeartBeatCases(n, res);
    case _ =>
  }

  lemma VoteBackNames(cfg: Config, self: Addr, n: Node, res: Option<VoteRes>)
    ensures var n' := VoteCallBack(cfg, self, n, res);
            if Wins(cfg, n, res) then n'.leaderAddr == self && n'.term == n.term
            else n'.leaderAddr == n.leaderAddr && (n'.status == Leader ==> n.status == Leader)
  {
    if Wins(cfg, n, res) {
      SwitchCases(cfg, self, n.(votePass := n.votePass[n.term := Lookup(n.votePass, n.term) + 1]));
    }
  }

  /** What is sent is sent by a leader of its own term, which it then has led. */
  lemma SentByLeader(cfg: Config, s: State, a: Action)
    requires StatusInv(s) && Enabled(cfg, s, a)
    ensures forall m :: m in Next(cfg, s, a).appends ==>
              m in s.appends || Ruled(s, m.req.leader, m.req.term)
  {
    if WritesNoSlot(a) {
      NoSlotFrame(cfg, s, a);
    }
  }

  lemma WonCrown(cfg: Config, s: State, call: VoteCall, res: Option<VoteRes>)
    requires Enabled(cfg, s, VoteBack(call, res)) && Wins(cfg, s.nodes[call.candidate], res)
    ensures Ruled(Next(cfg, s, VoteBack(call, res)), call.candidate, s.nodes[call.candidate].term)
  {
    hide VoteCallBack;
  }

  lemma LedLonger(s: State, s': State, a: Addr, t: int, t': int)
    requires LedUpTo(s, a, t) && t <= t' && s.crowns <= s'.crowns
    ensures LedUpTo(s', a, t')
  {
    var u :| u <= t && Ruled(s, a, u);
    assert Ruled(s', a, u);
  }

  lemma ActorNames(cfg: Config, s: State, a: Action)
    requires NamesInv(s) && Enabled(cfg, s, a) && s.crowns <= Next(cfg, s, a).crowns && Actor(a) in s.nodes
    ensures NodeNames(Next(cfg, s, a), Actor(a), Handle(cfg, s.nodes[Actor(a)], a))
  {
    hide Next, Handle, Wins;
    var n, s' := s.nodes[Actor(a)], Next(cfg, s, a);
    HandleNames(cfg, n, a);
    HandleTerm(cfg, n, a);
    assert NodeNames(s, Actor(a), n);
    if a.DeliverTo? && a.req.term >= n.term {
      assert AppendMsg(a.f, a.req) in s.appends;
      assert Ruled(s', a.req.leader, a.req.term);
    } else if a.VoteBack? && Wins(cfg, n, a.voteRes) {
      assert a == VoteBack(a.call, a.voteRes);
      WonCrown(cfg, s, a.call, a.voteRes);
    } else if n.leaderAddr != "" {
      LedLonger(s, s', n.leaderAddr, n.term, Handle(cfg, n, a).term);
    }
  }

  lemma NextNames(cfg: Config, s: State, a: Action)
    requires NamesInv(s) && StatusInv(s) && s.crowns <= Next(cfg, s, a).crowns
    ensures NamesInv(Next(cfg, s, a))
  {
    hide Next, Enabled, Handle, StatusInv;
    var s' := Next(cfg, s, a);
    if Enabled(cfg, s, a) {
      ActorHandles(cfg, s, a);
      ActorNames(cfg, s, a);
      SentByLeader(cfg, s, a);
      forall i {:trigger s'.nodes[i]} | i in s'.nodes ensures NodeNames(s', i, s'.nodes[i]) {
        if i != Actor(a) {
          var n := s.nodes[i];
          assert NodeNames(s, i, n);
          if n.leaderAddr != "" { LedLonger(s, s', n.leaderAddr, n.term, n.term); }
        }
      }
    } else {
      NotEnabled(cfg, s, a);
    }
  }

  lemma {:induction false} NamesHold(cfg: Config, run: seq<Action>)
    requires WellFormed(cfg)
    ensures NamesInv(After(cfg, run))
  {
    hide Next;
    if run != [] {
      var most, a := run[..|run| - 1], run[|run| - 1];
      NamesHold(cfg, most);
      ElectionHolds(cfg, most);
      NextGrows(cfg, After(cfg, most), a);
      NextNames(cfg, After(cfg, most), a);
    }
  }

  /** In every run the leader a node names, if any, has led a term no later than its own; a leader names itself. */
  lemma NamedHasLed(cfg: Config, run: seq<Action>, i: Addr)
    requires WellFormed(cfg) && i in After(cfg, run).nodes
    ensures var s := After(cfg, run); var n := s.nodes[i];
            (n.leaderAddr == "" || LedUpTo(s, n.leaderAddr, n.term)) && (n.status == Leader ==> n.leaderAddr == i)
  {
    NamesHold(cfg, run);
    assert NodeNames(After(cfg, run), i, After(cfg, run).nodes[i]);
  }

  /** A node that does not lead refuses a Get and tells such a leader, or that it knows none. */
  lemma RefusalNamesLeader(cfg: Config, run: seq<Action>, i: Addr, key: Bytes)
    requires WellFormed(cfg) && i in After(cfg, run).nodes
    ensures var s := After(cfg, run); var n := s.nodes[i];
            if n.status == Leader then !Get(n, key).NotLeader?
            else Get(n, key).NotLeader? && (Get(n, key).leader == "" || LedUpTo(s, Get(n, key).leader, n.term))
  {
    hide After;
    NamedHasLed(cfg, run, i);
  }

  /** After a request that is not outdated a follower names the one node that ever leads the request's term. */
  lemma FollowerNames(cfg: Config, run: seq<Action>, k: nat, f: Addr, req: AppendReq, b: nat, j: Addr)
    requires WellFormed(cfg) && k < |run| && run[k] == DeliverTo(f, req) && Enabled(cfg, After(cfg, run[..k]), run[k])
    requires After(cfg, run[..k]).nodes[f].term <= req.term
    requires b <= |run| && j in After(cfg, run[..b]).nodes
    requires After(cfg, run[..b]).nodes[j].status == Leader && After(cfg, run[..b]).nodes[j].term == req.term
    ensures f in After(cfg, run[..k + 1]).nodes
    ensures After(cfg, run[..k + 1]).nodes[f].leaderAddr == j
  {
    hide After, Handle, Next;
    var s := After(cfg, run[..k]);
    assert run[..k + 1] == run[..k] + [run[k]];
    AfterSnoc(cfg, run[..k], run[k]);
    ActorHandles(cfg, s, run[k]);
    HandleNames(cfg, s.nodes[f], run[k]);
    NamesHold(cfg, run[..k]);
    assert AppendMsg(f, req) in s.appends;
    OneLeader(cfg, run, k, b, req, j);
  }

  lemma OneLeader(cfg: Config, run: seq<Action>, k: nat, b: nat, req: AppendReq, j: Addr)
    requires WellFormed(cfg) && k <= |run| && b <= |run| && Ruled(After(cfg, run[..k]), req.leader, req.term)
    requires j in After(cfg, run[..b]).nodes
    requires After(cfg, run[..b]).nodes[j].status == Leader && After(cfg, run[..b]).nodes[j].term == req.term
    ensures req.leader == j
  {
    hide After;
    ElectionHolds(cfg, run[..b]);
    ElectionHolds(cfg, run);
    RunGrows(cfg, run, k);
    RunGrows(cfg, run, b);
    assert Crown(req.term, j) in After(cfg, run).crowns && Crown(req.term, req.leader) in After(cfg, run).crowns;
  }
}
