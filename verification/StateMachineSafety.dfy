/**
 State machine safety (section 5.4.3 of the Raft paper): no two nodes ever apply different entries
 at the same index. It needs every repair but that of the cached last term. The invariant: every
 commit index of every node and message is backed by an index some leader committed, and nodes
 apply only below their own.
 */
module StateMachineSafety {
  import opened Base
  import opened DataStore
  import opened RaftNode
  import opened Cluster
  import opened ElectionSafety
  import opened Frames
  import opened LogMatching
  import opened LeaderCompleteness
  import opened CommitQuorum

  /** Some leader, of a term up to bound, committed all of p. */
  ghost predicate BackedBy(s: State, p: seq<Entry>, c: Commit) {
    c in s.commits && c.term in s.reigns && |p| <= c.index + 1 && p <= s.reigns[c.term].log
  }

  ghost predicate Backed(s: State, p: seq<Entry>, bound: int) {
    p == [] || exists c :: BackedBy(s, p, c) && c.term <= bound
  }

  ghost predicate NodeBacked(s: State, n: Node) {
    -1 <= n.commit < |n.log| && Backed(s, n.log[..n.commit + 1], n.term)
  }

  ghost predicate MsgBacked(s: State, req: AppendReq) {
    && req.term in s.reigns && -1 <= req.leaderCommit < |s.reigns[req.term].log|
    && Backed(s, s.reigns[req.term].log[..req.leaderCommit + 1], req.term)
  }

  ghost predicate AppliesCommitted(n: Node) {
    && |n.applied| == Stored(n) + 1 && Stored(n) <= n.applyEnd <= n.commit
    && n.applied <= n.log
  }

  ghost predicate SafetyInv(s: State) {
    && (forall i {:trigger s.nodes[i]} :: i in s.nodes ==> NodeBacked(s, s.nodes[i]) && AppliesCommitted(s.nodes[i]))
    && (forall m {:trigger m in s.appends} :: m in s.appends ==> MsgBacked(s, m.req))
  }

  // ----- what is backed -----

  /** Leader completeness holds of the commits recorded. */
  ghost predicate Grounded(s: State) {
    CrownsInv(s) && LeadersInv(s) && ReignShapes(s) && CommitsInv(s)
  }

  lemma BackedPrefix(s: State, p: seq<Entry>, q: seq<Entry>, bound: int, bound': int)
    requires Backed(s, q, bound) && p <= q && bound <= bound'
    ensures Backed(s, p, bound')
  {
    if p != [] {
      var c :| BackedBy(s, q, c) && c.term <= bound;
      PrefixTrans(p, q, s.reigns[c.term].log);
      assert BackedBy(s, p, c);
    }
  }

  lemma BackedGrows(s: State, s': State, p: seq<Entry>, bound: int)
    requires ReignsGrow(s, s') && s.commits <= s'.commits && Backed(s, p, bound)
    ensures Backed(s', p, bound)
  {
    if p != [] {
      var c :| BackedBy(s, p, c) && c.term <= bound;
      PrefixTrans(p, s.reigns[c.term].log, s'.reigns[c.term].log);
      assert BackedBy(s', p, c);
    }
  }

  lemma CommitInLead(s: State, c: Commit, u: int)
    requires Grounded(s) && c in s.commits && c.term < u && u in s.reigns
    ensures c.term in s.reigns && 0 <= c.index < |s.reigns[c.term].log|
    ensures s.reigns[c.term].log[..c.index + 1] <= s.reigns[u].log
  {
    assert Committed(s, c.term, c.index);
    CommittedStays(s, c.term, c.index, u);
    assert ReignShape(s, u);
    PrefixTrans(s.reigns[c.term].log[..c.index + 1], s.reigns[u].base, s.reigns[u].log);
  }

  /** What is backed is in the log of every leader from the bound on. */
  lemma BackedInLead(s: State, p: seq<Entry>, bound: int, u: int)
    requires Grounded(s) && Backed(s, p, bound) && bound <= u && u in s.reigns
    ensures p <= s.reigns[u].log
  {
    if p != [] {
      var c :| BackedBy(s, p, c) && c.term <= bound;
      if c.term < u {
        CommitInLead(s, c, u);
        assert p <= s.reigns[c.term].log[..c.index + 1];
        PrefixTrans(p, s.reigns[c.term].log[..c.index + 1], s.reigns[u].log);
      }
    }
  }

  /** Of two backed sequences one is a prefix of the other. */
  lemma BackedAgree(s: State, p: seq<Entry>, a: int, q: seq<Entry>, b: int)
    requires Grounded(s) && Backed(s, p, a) && Backed(s, q, b)
    ensures p <= q || q <= p
  {
    if p != [] && q != [] {
      var c :| BackedBy(s, p, c) && c.term <= a;
      var d :| BackedBy(s, q, d) && d.term <= b;
      assert BackedBy(s, p, c) && BackedBy(s, q, d);
      var u := Max(c.term, d.term);
      BackedInLead(s, p, c.term, u);
      BackedInLead(s, q, d.term, u);
    }
  }

  // ----- preservation -----

  /** Everything at a node that is committed and applied stays as it is; its log may grow. */
  ghost predicate KeepsApplied(n: Node, n': Node) {
    && n'.commit == n.commit && n'.lastApplied == n.lastApplied && n'.applied == n.applied
    && n'.inHand == n.inHand && n'.applyEnd == n.applyEnd && n.log <= n'.log && n.term <= n'.term
  }

  lemma KeepsAppliedBacked(s: State, s': State, n: Node, n': Node)
    requires ReignsGrow(s, s') && s.commits <= s'.commits
    requires NodeBacked(s, n) && AppliesCommitted(n) && KeepsApplied(n, n')
    ensures NodeBacked(s', n') && AppliesCommitted(n')
  {
    assert n'.log[..n.commit + 1] == n.log[..n.commit + 1];
    BackedGrows(s, s', n.log[..n.commit + 1], n.term);
    BackedPrefix(s', n'.log[..n.commit + 1], n.log[..n.commit + 1], n.term, n'.term);
    PrefixTrans(n.applied, n.log, n'.log);
  }

  lemma MsgBackedGrows(s: State, s': State, req: AppendReq)
    requires ReignsGrow(s, s') && s.commits <= s'.commits && MsgBacked(s, req)
    ensures MsgBacked(s', req)
  {
    var lead, lead' := s.reigns[req.term].log, s'.reigns[req.term].log;
    assert lead'[..|lead|] == lead;
    assert lead'[..req.leaderCommit + 1] == lead[..req.leaderCommit + 1];
    BackedGrows(s, s', lead[..req.leaderCommit + 1], req.term);
  }

  /** An action is safe if it leaves its node and its new messages backed. */
  lemma SafetyKept(s: State, s': State, i: Addr)
    requires SafetyInv(s) && ReignsGrow(s, s') && s.commits <= s'.commits && OthersSame(s, s', i)
    requires NodeBacked(s', s'.nodes[i]) && AppliesCommitted(s'.nodes[i])
    requires forall m :: m in s'.appends ==> m in s.appends || MsgBacked(s', m.req)
    ensures SafetyInv(s')
  {
    forall j {:trigger s'.nodes[j]} | j in s'.nodes
      ensures NodeBacked(s', s'.nodes[j]) && AppliesCommitted(s'.nodes[j])
    {
      if j != i { KeepsAppliedBacked(s, s', s.nodes[j], s'.nodes[j]); }
    }
    forall m {:trigger m in s'.appends} | m in s'.appends ensures MsgBacked(s', m.req) {
      if m in s.appends { MsgBackedGrows(s, s', m.req); }
    }
  }

  // ----- the follower -----

  /** Refusals keep the commit index, and truncate nothing committed. */
  lemma CommittedKept(cfg: Config, s: State, s': State, f: Addr, req: AppendReq)
    requires Grounded(s) && LogInv(s) && cfg.repairs.align && req.term in s.reigns
    requires Followed(cfg.repairs, s, s', f, req) && NodeBacked(s, s.nodes[f]) && Judge(s.nodes[f], req) != Outdated
    ensures s.nodes[f].log[..s.nodes[f].commit + 1] <= s'.nodes[f].log
    ensures s.nodes[f].log[..s.nodes[f].commit + 1] <= s.reigns[req.term].log
  {
    hide AppendEntries, Judge, Backed;
    var n := s.nodes[f];
    var p := n.log[..n.commit + 1];
    assert MessageInv(s, AppendMsg(f, req));
    FollowedTerms(cfg.repairs, n, req);
    BackedInLead(s, p, n.term, req.term);
    if req.entries == [] {
      HeartBeatKeepsLog(cfg.repairs, n, req);
    } else {
      FollowedRooted(cfg.repairs, s, s', f, req);
      assert Common(p, n.log, s.reigns[req.term].log);
    }
  }

  /** A raised commit index is below what the request showed to match and what the leader committed. */
  lemma RaisedCommit(cfg: Config, s: State, s': State, f: Addr, req: AppendReq)
    requires LogInv(s) && cfg.repairs.align && cfg.repairs.commit
    requires Followed(cfg.repairs, s, s', f, req) && Judge(s.nodes[f], req) == Accepted && MsgBacked(s, req)
    requires s'.nodes[f].commit > s.nodes[f].commit && -1 <= s.nodes[f].commit
    ensures var n' := s'.nodes[f];
            n'.commit <= req.leaderCommit && n'.commit < |n'.log|
            && n'.log[..n'.commit + 1] == s.reigns[req.term].log[..n'.commit + 1]
  {
    hide AppendEntries, Judge;
    var n, n' := s.nodes[f], s'.nodes[f];
    var lead := s.reigns[req.term].log;
    AppendCases(cfg.repairs, n, req);
    assert MessageInv(s, AppendMsg(f, req));
    if req.entries == [] {
      HeartBeatKeepsLog(cfg.repairs, n, req);
      assert Rooted(s, n.log) && RootedAt(s, n.log, n'.commit);
    } else {
      FollowedRooted(cfg.repairs, s, s', f, req);
      assert lead[..req.prevIndex + 1 + |req.entries|][..n'.commit + 1] == lead[..n'.commit + 1];
    }
  }

  lemma AppliedWithin(n: Node, p: seq<Entry>)
    requires AppliesCommitted(n) && n.commit < |n.log| && p == n.log[..n.commit + 1]
    ensures n.applied <= p
  {
  }

  lemma RaisedSafe(cfg: Config, s: State, s': State, f: Addr, req: AppendReq)
    requires cfg.repairs.align && cfg.repairs.commit && LogInv(s) && MsgBacked(s, req)
    requires Followed(cfg.repairs, s, s', f, req) && Judge(s.nodes[f], req) == Accepted
    requires s'.nodes[f].term == req.term && -1 <= s.nodes[f].commit < s'.nodes[f].commit
    ensures NodeBacked(s, s'.nodes[f])
  {
    var n' := s'.nodes[f];
    var q := s.reigns[req.term].log[..req.leaderCommit + 1];
    RaisedCommit(cfg, s, s', f, req);
    assert n'.log[..n'.commit + 1] <= q;
    BackedPrefix(s, n'.log[..n'.commit + 1], q, req.term, n'.term);
  }

  lemma UnraisedSafe(s: State, n: Node, n': Node)
    requires NodeBacked(s, n) && n'.commit == n.commit && n.term <= n'.term
    requires n.log[..n.commit + 1] <= n'.log
    ensures NodeBacked(s, n')
  {
    var p := n.log[..n.commit + 1];
    assert n'.log[..n'.commit + 1] == p;
    BackedPrefix(s, p, p, n.term, n'.term);
  }

  lemma FollowedSafe(cfg: Config, s: State, s': State, f: Addr, req: AppendReq)
    requires cfg.repairs.align && cfg.repairs.commit && Grounded(s) && LogInv(s) && MsgBacked(s, req)
    requires Followed(cfg.repairs, s, s', f, req) && Judge(s.nodes[f], req) != Outdated
    requires NodeBacked(s, s.nodes[f]) && AppliesCommitted(s.nodes[f])
    ensures NodeBacked(s, s'.nodes[f]) && AppliesCommitted(s'.nodes[f])
  {
    var n, n' := s.nodes[f], s'.nodes[f];
    var p := n.log[..n.commit + 1];
    FollowedTerms(cfg.repairs, n, req);
    CommittedKept(cfg, s, s', f, req);
    AppendCases(cfg.repairs, n, req);
    CommitNeverFalls(cfg.repairs, n, req);
    if n'.commit > n.commit {
      RaisedSafe(cfg, s, s', f, req);
    } else {
      UnraisedSafe(s, n, n');
    }
    AppliedWithin(n, p);
    PrefixTrans(n.applied, p, n'.log);
  }

  lemma DeliverSafe(cfg: Config, s: State, f: Addr, req: AppendReq)
    requires cfg.repairs.align && cfg.repairs.commit && Grounded(s) && LogInv(s) && SafetyInv(s)
    requires Enabled(cfg, s, DeliverTo(f, req))
    ensures NodeBacked(s, DoDeliver(cfg, s, f, req).nodes[f])
    ensures AppliesCommitted(DoDeliver(cfg, s, f, req).nodes[f])
  {
    assert AppendMsg(f, req) in s.appends && MsgBacked(s, req);
    assert NodeBacked(s, s.nodes[f]);
    if Judge(s.nodes[f], req) != Outdated {
      DeliverFollows(cfg, s, f, req);
      FollowedSafe(cfg, s, DoDeliver(cfg, s, f, req), f, req);
    }
  }

  lemma CommitNeverFalls(r: Repairs, n: Node, req: AppendReq)
    requires r.commit
    ensures AppendEntries(r, n, req).0.commit >= n.commit
  {
    AppendCases(r, n, req);
  }

  // ----- the other actions -----

  lemma ApplyEntrySafe(s: State, n: Node)
    requires NodeBacked(s, n) && AppliesCommitted(n) && CanApply(n)
    ensures NodeBacked(s, ApplyEntry(n)) && AppliesCommitted(ApplyEntry(n))
  {
    var n' := ApplyEntry(n);
    assert (n.log + n.stale)[n.lastApplied + 1] == n.log[n.lastApplied + 1];
    assert n'.applied == n.log[..n.lastApplied + 2];
  }

  lemma AdvanceSafe(cfg: Config, s: State, f: Addr, req: AppendReq, res: Option<AppendRes>)
    requires cfg.repairs.replies && LogInv(s) && SafetyInv(s) && CrownsInv(s)
    requires Enabled(cfg, s, ReplicateBack(f, req, res)) && Advances(cfg, s, f, req, res)
    ensures var s' := DoReplicateBack(cfg, s, f, req, res);
            NodeBacked(s', s'.nodes[req.leader]) && AppliesCommitted(s'.nodes[req.leader])
  {
    var s' := DoReplicateBack(cfg, s, f, req, res);
    var n, n' := s.nodes[req.leader], s'.nodes[req.leader];
    assert NodeBacked(s, n) && AppliesCommitted(n);
    ReplyCases(cfg, req.leader, n, f, req, res);
    AdvanceMeans(cfg, req.leader, n, f, req, res);
    ReplyCases(cfg, req.leader, n, f, req, res);
    OwnIndex(s, AppendMsg(f, req));
    assert s.reigns[n.term].log == n.log;
    assert BackedBy(s', n'.log[..n'.commit + 1], Commit(n.term, n'.commit));
  }

  lemma ReplicateBackSafe(cfg: Config, s: State, f: Addr, req: AppendReq, res: Option<AppendRes>)
    requires cfg.repairs.replies && LogInv(s) && SafetyInv(s) && CrownsInv(s)
    requires Enabled(cfg, s, ReplicateBack(f, req, res))
    ensures var s' := DoReplicateBack(cfg, s, f, req, res);
            NodeBacked(s', s'.nodes[req.leader]) && AppliesCommitted(s'.nodes[req.leader])
  {
    hide ReplicateReply, LogInv, CrownsInv;
    if Advances(cfg, s, f, req, res) {
      AdvanceSafe(cfg, s, f, req, res);
    } else {
      var s' := DoReplicateBack(cfg, s, f, req, res);
      var n, n' := s.nodes[req.leader], s'.nodes[req.leader];
      ReplyCases(cfg, req.leader, n, f, req, res);
      assert ReignsGrow(s, s');
      assert NodeBacked(s, n) && AppliesCommitted(n);
      KeepsAppliedBacked(s, s', n, n');
    }
  }

  /** The actions that leave the commit index and the applied entries of their node alone. */
  predicate CommitsNothing(a: Action) {
    !a.DeliverTo? && !a.ReplicateBack? && !a.ApplyBeginAt? && !a.ApplyEntryAt? && !a.ApplyTagAt?
  }

  lemma HandleKeepsApplied(cfg: Config, n: Node, a: Action)
    requires CommitsNothing(a)
    ensures KeepsApplied(n, Handle(cfg, n, a))
  {
    hide VoteLeader, Vote, VoteCallBack, ClientWrite, HeartBeatCallBack;
    match a
    case TimeoutAt(i) => VoteLeaderCases(i, n);
    case VoteAt(_, req) => VoteCases(n, req);
    case VoteBack(call, res) => VoteBackCases(cfg, call.candidate, n, res);
    case WriteAt(_, kind, key, value) => ClientWriteCases(n, kind, key, value);
    case HeartBeatBack(_, _, res) => HeartBeatCases(n, res);
    case _ =>
  }

  lemma NothingCommitted(cfg: Config, s: State, a: Action)
    requires Enabled(cfg, s, a) && CommitsNothing(a) && Actor(a) in s.nodes && Actor(a) in Next(cfg, s, a).nodes
    ensures KeepsApplied(s.nodes[Actor(a)], Next(cfg, s, a).nodes[Actor(a)])
  {
    hide Next, Enabled, Handle, KeepsApplied;
    ActorHandles(cfg, s, a);
    HandleKeepsApplied(cfg, s.nodes[Actor(a)], a);
  }

  /** What a leader sends carries its commit index. */
  lemma SentBacked(cfg: Config, s: State, a: Action)
    requires LeaderLogs(s) && SafetyInv(s) && Enabled(cfg, s, a)
    ensures forall m :: m in Next(cfg, s, a).appends ==> m in s.appends || MsgBacked(s, m.req)
  {
    hide Next;
    if WritesNoSlot(a) {
      NoSlotFrame(cfg, s, a);
      if a.ReplicateTo? || a.HeartBeatAt? {
        assert NodeBacked(s, s.nodes[a.i]) && s.nodes[a.i].status == Leader;
        assert s.reigns[s.nodes[a.i].term].log == s.nodes[a.i].log;
      }
    } else {
      WritersSendNothing(cfg, s, a);
    }
  }

  lemma WritersSendNothing(cfg: Config, s: State, a: Action)
    requires !WritesNoSlot(a)
    ensures Next(cfg, s, a).appends == s.appends
  {
    hide VoteCallBack, ClientWrite, AppendEntries;
  }

  lemma CommitsKept(cfg: Config, s: State, a: Action)
    ensures s.commits <= Next(cfg, s, a).commits
  {
    hide VoteLeader, Vote, VoteCallBack, ClientWrite, AppendEntries, ReplicateReply, HeartBeatCallBack;
    hide ApplyBegin, ApplyEntry, ApplyTag, BuildAppend, HeartBeat, Wins, Stands, Voters, EntryOf;
    if Enabled(cfg, s, a) {
      match a
      case TimeoutAt(_) =>
      case VoteAt(_, _) =>
      case VoteBack(_, _) =>
      case WriteAt(_, _, _, _) =>
      case ReplicateTo(_, _, _) =>
      case DeliverTo(_, _) =>
      case ReplicateBack(_, _, _) =>
      case HeartBeatAt(_) =>
      case HeartBeatBack(_, _, _) =>
      case ApplyBeginAt(_) =>
      case ApplyEntryAt(_) =>
      case ApplyTagAt(_) =>
      case ThreadAt(_, _, _) =>
    }
  }

  lemma ApplySafe(s: State, s': State, i: Addr, n': Node)
    requires SafetyInv(s) && i in s.nodes && ReignsGrow(s, s') && s.commits <= s'.commits
    requires n' == ApplyBegin(s.nodes[i]) || (CanApply(s.nodes[i]) && n' == ApplyEntry(s.nodes[i]))
             || (s.nodes[i].inHand && n' == ApplyTag(s.nodes[i]))
    ensures NodeBacked(s', n') && AppliesCommitted(n')
  {
    var n := s.nodes[i];
    assert NodeBacked(s, n) && AppliesCommitted(n);
    if CanApply(n) { ApplyEntrySafe(s, n); }
    BackedGrows(s, s', n'.log[..n'.commit + 1], n'.term);
  }

  lemma DeliverStaysSafe(cfg: Config, s: State, f: Addr, req: AppendReq)
    requires cfg.repairs.align && cfg.repairs.commit && Grounded(s) && LogInv(s) && SafetyInv(s)
    requires Enabled(cfg, s, DeliverTo(f, req))
    ensures var s' := DoDeliver(cfg, s, f, req);
            NodeBacked(s', s'.nodes[f]) && AppliesCommitted(s'.nodes[f])
  {
    hide AppendEntries, LogInv;
    var s' := DoDeliver(cfg, s, f, req);
    var n' := s'.nodes[f];
    DeliverSafe(cfg, s, f, req);
    assert ReignsGrow(s, s');
    BackedGrows(s, s', n'.log[..n'.commit + 1], n'.term);
  }

  lemma IdleSafe(cfg: Config, s: State, s': State, a: Action)
    requires SafetyInv(s) && Enabled(cfg, s, a) && CommitsNothing(a) && ReignsGrow(s, s') && s.commits <= s'.commits
    requires s' == Next(cfg, s, a) && OthersSame(s, s', Actor(a))
    ensures NodeBacked(s', s'.nodes[Actor(a)]) && AppliesCommitted(s'.nodes[Actor(a)])
  {
    hide Next, Enabled, KeepsApplied, ReignsGrow, CommitsNothing;
    var n, n' := s.nodes[Actor(a)], s'.nodes[Actor(a)];
    NothingCommitted(cfg, s, a);
    assert NodeBacked(s, n) && AppliesCommitted(n);
    KeepsAppliedBacked(s, s', n, n');
  }

  lemma ActorSafe(cfg: Config, s: State, s': State, a: Action)
    requires Mended(cfg.repairs) && Grounded(s) && LogInv(s) && SafetyInv(s)
    requires Enabled(cfg, s, a) && ReignsGrow(s, s') && s.commits <= s'.commits
    requires s' == Next(cfg, s, a) && OthersSame(s, s', Actor(a))
    ensures NodeBacked(s', s'.nodes[Actor(a)]) && AppliesCommitted(s'.nodes[Actor(a)])
  {
    hide DoTimeout, DoVote, DoVoteBack, DoWrite, DoDeliver, DoReplicateBack, DoHeartBeat;
    hide ApplyBegin, ApplyEntry, ApplyTag, LogInv, SafetyInv, NodeBacked, AppliesCommitted;
    hide LeadersInv, ReignShapes, CrownsInv;
    var n' := s'.nodes[Actor(a)];
    if CommitsNothing(a) {
      IdleSafe(cfg, s, s', a);
    } else {
      match a
      case DeliverTo(f, req) => DeliverStaysSafe(cfg, s, f, req);
      case ReplicateBack(f, req, res) => ReplicateBackSafe(cfg, s, f, req, res);
      case ApplyBeginAt(i) => ApplySafe(s, s', i, n');
      case ApplyEntryAt(i) => ApplySafe(s, s', i, n');
      case ApplyTagAt(i) => ApplySafe(s, s', i, n');
    }
  }

  lemma SoundIsGrounded(cfg: Config, s: State)
    requires Sound(cfg, s) && CommitInv(s)
    ensures Grounded(s) && LeaderLogs(s)
  {
  }

  lemma NextSafety(cfg: Config, s: State, a: Action)
    requires WellFormed(cfg) && Mended(cfg.repairs) && Sound(cfg, s) && CommitInv(s) && SafetyInv(s)
    ensures SafetyInv(Next(cfg, s, a))
  {
    hide Next, Enabled, LogInv, Grounded, LeaderLogs, ElectionInv;
    hide CompletenessInv, CommitInv, MsgBacked, NodeBacked, AppliesCommitted;
    var s' := Next(cfg, s, a);
    if Enabled(cfg, s, a) {
      NextLog(cfg, s, a);
      SoundIsGrounded(cfg, s);
      CommitsKept(cfg, s, a);
      OnlyActor(cfg, s, a);
      ActorSafe(cfg, s, s', a);
      SentBacked(cfg, s, a);
      forall m | m in s'.appends && m !in s.appends ensures MsgBacked(s', m.req) {
        MsgBackedGrows(s, s', m.req);
      }
      SafetyKept(s, s', Actor(a));
    } else {
      NotEnabled(cfg, s, a);
    }
  }

  lemma {:induction false} SafetyHolds(cfg: Config, run: seq<Action>)
    requires WellFormed(cfg) && Mended(cfg.repairs)
    ensures Sound(cfg, After(cfg, run)) && CommitInv(After(cfg, run)) && SafetyInv(After(cfg, run))
  {
    CommitHolds(cfg, run);
    if run != [] {
      SafetyHolds(cfg, run[..|run| - 1]);
      CommitHolds(cfg, run[..|run| - 1]);
      NextSafety(cfg, After(cfg, run[..|run| - 1]), run[|run| - 1]);
    }
  }

  // ----- state machine safety -----

  /** At any moment, of the entries any two nodes have applied one sequence starts with the other. */
  lemma AppliedAgree(cfg: Config, run: seq<Action>, i: Addr, j: Addr)
    requires WellFormed(cfg) && Mended(cfg.repairs)
    requires i in After(cfg, run).nodes && j in After(cfg, run).nodes
    ensures var p, q := After(cfg, run).nodes[i].applied, After(cfg, run).nodes[j].applied;
            p <= q || q <= p
  {
    var s := After(cfg, run);
    var m, n := s.nodes[i], s.nodes[j];
    SafetyHolds(cfg, run);
    AppliedWithin(m, m.log[..m.commit + 1]);
    AppliedWithin(n, n.log[..n.commit + 1]);
    BackedPrefix(s, m.applied, m.log[..m.commit + 1], m.term, m.term);
    BackedPrefix(s, n.applied, n.log[..n.commit + 1], n.term, n.term);
    BackedAgree(s, m.applied, m.term, n.applied, n.term);
  }

  // ----- what holds whatever the repairs -----

  /** The replay of the entries, the last one without its tag. */
  function Untagged(es: seq<Entry>): Store
    requires es != []
  {
    StoreEntry(Replay(es[..|es| - 1]), es[|es| - 1])
  }

  /** The store is the replay of the entries applied, each index once and in order. */
  ghost predicate ReplayInv(n: Node) {
    && |n.applied| == Stored(n) + 1 && (n.inHand ==> n.applied != [])
    && n.store == if n.inHand then Untagged(n.applied) else Replay(n.applied)
  }

  lemma ApplyEntryReplays(n: Node)
    requires CanApply(n) && ReplayInv(n)
    ensures ReplayInv(ApplyEntry(n)) && n.applied <= ApplyEntry(n).applied
  {
    var n' := ApplyEntry(n);
    assert n'.applied[..|n'.applied| - 1] == n.applied;
  }

  lemma ApplyTagReplays(n: Node)
    requires n.inHand && ReplayInv(n)
    ensures ReplayInv(ApplyTag(n)) && ApplyTag(n).applied == n.applied
  {
  }

  ghost predicate SameApplied(n: Node, n': Node) {
    n'.store == n.store && n'.applied == n.applied && n'.lastApplied == n.lastApplied && n'.inHand == n.inHand
  }

  lemma HandleSameApplied(cfg: Config, n: Node, a: Action)
    requires !a.ApplyEntryAt? && !a.ApplyTagAt?
    ensures SameApplied(n, Handle(cfg, n, a))
  {
    hide VoteLeader, Vote, VoteCallBack, ClientWrite, AppendEntries, ReplicateReply, HeartBeatCallBack;
    match a
    case TimeoutAt(i) => VoteLeaderCases(i, n);
    case VoteAt(_, req) => VoteCases(n, req);
    case VoteBack(call, res) => VoteBackCases(cfg, call.candidate, n, res);
    case WriteAt(_, kind, key, value) => ClientWriteCases(n, kind, key, value);
    case DeliverTo(_, req) => AppendCases(cfg.repairs, n, req);
    case ReplicateBack(f, req, res) => ReplyCases(cfg, req.leader, n, f, req, res);
    case HeartBeatBack(_, _, res) => HeartBeatCases(n, res);
    case _ =>
  }

  lemma HandleReplays(cfg: Config, n: Node, a: Action)
    requires ReplayInv(n)
    ensures ReplayInv(Handle(cfg, n, a)) && n.applied <= Handle(cfg, n, a).applied
  {
    if a.ApplyEntryAt? {
      if CanApply(n) { ApplyEntryReplays(n); }
    } else if a.ApplyTagAt? {
      if n.inHand { ApplyTagReplays(n); }
    } else {
      hide Handle;
      HandleSameApplied(cfg, n, a);
    }
  }

  ghost predicate AllReplayed(s: State) {
    forall i {:trigger s.nodes[i]} :: i in s.nodes ==> ReplayInv(s.nodes[i])
  }

  lemma NextReplay(cfg: Config, s: State, a: Action)
    requires AllReplayed(s)
    ensures var s' := Next(cfg, s, a);
            && AllReplayed(s') && s'.nodes.Keys == s.nodes.Keys
            && (forall i {:trigger s'.nodes[i]} :: i in s.nodes ==> s.nodes[i].applied <= s'.nodes[i].applied)
  {
    hide Next, Enabled, Handle, ReplayInv;
    if Enabled(cfg, s, a) {
      ActorHandles(cfg, s, a);
      HandleReplays(cfg, s.nodes[Actor(a)], a);
    } else {
      NotEnabled(cfg, s, a);
    }
  }

  lemma {:induction false} ReplayHolds(cfg: Config, run: seq<Action>, k: nat)
    requires k <= |run|
    ensures AllReplayed(After(cfg, run)) && After(cfg, run[..k]).nodes.Keys == After(cfg, run).nodes.Keys
    ensures forall i {:trigger After(cfg, run).nodes[i]} :: i in After(cfg, run).nodes ==>
              After(cfg, run[..k]).nodes[i].applied <= After(cfg, run).nodes[i].applied
  {
    if run == [] || k == |run| {
      assert run[..k] == run;
      if run != [] {
        ReplayHolds(cfg, run[..k - 1], k - 1);
        NextReplay(cfg, After(cfg, run[..k - 1]), run[k - 1]);
      }
    } else {
      var most := run[..|run| - 1];
      assert most[..k] == run[..k];
      ReplayHolds(cfg, most, k);
      NextReplay(cfg, After(cfg, most), run[|run| - 1]);
      forall i {:trigger After(cfg, run).nodes[i]} | i in After(cfg, run).nodes
        ensures After(cfg, run[..k]).nodes[i].applied <= After(cfg, run).nodes[i].applied
      {
        PrefixTrans(After(cfg, run[..k]).nodes[i].applied, After(cfg, most).nodes[i].applied,
                    After(cfg, run).nodes[i].applied);
      }
    }
  }

  /** In every run, at any two moments a and b of it, no two nodes have applied different entries at an index. */
  lemma StateMachineSafety(cfg: Config, run: seq<Action>, a: nat, b: nat, i: Addr, j: Addr, k: nat)
    requires WellFormed(cfg) && Mended(cfg.repairs) && a <= |run| && b <= |run|
    requires i in After(cfg, run[..a]).nodes && j in After(cfg, run[..b]).nodes
    requires k < |After(cfg, run[..a]).nodes[i].applied| && k < |After(cfg, run[..b]).nodes[j].applied|
    ensures After(cfg, run[..a]).nodes[i].applied[k] == After(cfg, run[..b]).nodes[j].applied[k]
  {
    ReplayHolds(cfg, run, a);
    ReplayHolds(cfg, run, b);
    assert After(cfg, run[..a]).nodes[i].applied <= After(cfg, run).nodes[i].applied;
    assert After(cfg, run[..b]).nodes[j].applied <= After(cfg, run).nodes[j].applied;
    AppliedAgree(cfg, run, i, j);
  }

  /** Two nodes that have applied equally far, at any two moments, hold the same data. */
  lemma StoresAgree(cfg: Config, run: seq<Action>, a: nat, b: nat, i: Addr, j: Addr)
    requires WellFormed(cfg) && Mended(cfg.repairs) && a <= |run| && b <= |run|
    requires i in After(cfg, run[..a]).nodes && j in After(cfg, run[..b]).nodes
    requires After(cfg, run[..a]).nodes[i].lastApplied == After(cfg, run[..b]).nodes[j].lastApplied
    requires After(cfg, run[..a]).nodes[i].inHand == After(cfg, run[..b]).nodes[j].inHand
    ensures After(cfg, run[..a]).nodes[i].store == After(cfg, run[..b]).nodes[j].store
  {
    ReplayHolds(cfg, run[..a], a);
    ReplayHolds(cfg, run[..b], b);
    var m, n := After(cfg, run[..a]).nodes[i], After(cfg, run[..b]).nodes[j];
    assert ReplayInv(m) && ReplayInv(n);
    forall k | 0 <= k < |m.applied| ensures m.applied[k] == n.applied[k] {
      StateMachineSafety(cfg, run, a, b, i, j, k);
    }
    assert m.applied == n.applied;
  }
}
