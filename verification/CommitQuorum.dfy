/**
 The leader's commit rule: whatever a leader commits has been acknowledged by a majority and ends
 with an entry of its own term, so every later leader has it. It needs the alignment repair and
 those of old replies and of the self-count.
 */
module CommitQuorum {
  import opened Base
  import opened RaftNode
  import opened Cluster
  import opened ElectionSafety
  import opened Frames
  import opened LogMatching
  import opened LeaderCompleteness

  // ----- counting acknowledgements -----

  /** The peers a leader counts as holding the log up to index. */
  function Matching(self: Addr, match_: map<Addr, int>, index: int, ms: seq<Addr>): set<Addr> {
    set m | m in ms && m != self && Lookup(match_, m) == index
  }

  /** The members the code's counter takes in: with the node itself, unless that is repaired. */
  function Counted(r: Repairs, self: Addr, match_: map<Addr, int>, index: int, ms: seq<Addr>): set<Addr> {
    set m | m in ms && !(r.self && m == self) && Lookup(match_, m) == index
  }

  lemma CountedGrows(r: Repairs, self: Addr, match_: map<Addr, int>, index: int, ms: seq<Addr>, m: Addr)
    requires m !in ms
    ensures |Counted(r, self, match_, index, ms + [m])|
            == |Counted(r, self, match_, index, ms)|
               + (if Lookup(match_, m) == index && !(r.self && m == self) then 1 else 0)
  {
    var known, all := Counted(r, self, match_, index, ms), Counted(r, self, match_, index, ms + [m]);
    assert all == known + (if Lookup(match_, m) == index && !(r.self && m == self) then {m} else {});
  }

  lemma {:induction false} MatchesCounted(r: Repairs, self: Addr, match_: map<Addr, int>, index: int, ms: seq<Addr>)
    requires forall i, j :: 0 <= i < j < |ms| ==> ms[i] != ms[j]
    ensures Matches(r, self, match_, index, ms) == |Counted(r, self, match_, index, ms)|
  {
    if ms != [] {
      hide Counted;
      var rest, m := ms[..|ms| - 1], ms[|ms| - 1];
      MatchesCounted(r, self, match_, index, rest);
      assert ms == rest + [m];
      assert m !in rest;
      CountedGrows(r, self, match_, index, rest, m);
    } else {
      NoneCounted(r, self, match_, index);
    }
  }

  lemma NoneCounted(r: Repairs, self: Addr, match_: map<Addr, int>, index: int)
    ensures Counted(r, self, match_, index, []) == {}
  {
  }

  /** When its own entry does not match, or is not counted, the counter is the number of matching peers. */
  lemma MatchesCounts(r: Repairs, self: Addr, match_: map<Addr, int>, index: int, ms: seq<Addr>)
    requires r.self || Lookup(match_, self) != index
    requires forall i, j :: 0 <= i < j < |ms| ==> ms[i] != ms[j]
    ensures Matches(r, self, match_, index, ms) == |Matching(self, match_, index, ms)|
  {
    MatchesCounted(r, self, match_, index, ms);
    assert Counted(r, self, match_, index, ms) == Matching(self, match_, index, ms);
  }

  /** The entry of the largest term is of term t. */
  ghost predicate UpToTerm(es: seq<Entry>, t: int) {
    (exists e :: e in es && e.term == t) && (forall e :: e in es ==> e.term <= t)
  }

  lemma {:induction false} MaxTermIs(es: seq<Entry>, t: int)
    requires t >= 0
    ensures MaxTerm(es) == t <==> UpToTerm(es, t)
    ensures MaxTerm(es) <= t <==> forall e :: e in es ==> e.term <= t
  {
    if es != [] {
      var rest, last := es[..|es| - 1], es[|es| - 1];
      assert es == rest + [last];
      MaxTermIs(rest, t);
    }
  }

  /**
   After an accepted request a leader's commit index is the request's last one if and only if that is new, the
   largest term in it is the leader's own, and the members counted are with the leader at least half of all.
   */
  lemma CommitsExactly(cfg: Config, self: Addr, n: Node, f: Addr, req: AppendReq)
    requires WellFormed(cfg)
    ensures var n', last := Advance(cfg, self, n, f, req), req.prevIndex + |req.entries|;
            n'.commit == if last > n.commit && UpToTerm(req.entries, n.term)
                            && 2 * |Counted(cfg.repairs, self, n'.matchIndex, last, cfg.members)| + 1 >= |cfg.members|
                         then last else n.commit
  {
    hide UpToTerm, MaxTerm, Matches, Counted;
    var last := req.prevIndex + |req.entries|;
    MaxTermIs(req.entries, n.term);
    MatchesCounted(cfg.repairs, self, n.matchIndex[f := last], last, cfg.members);
  }

  lemma {:induction false} MaxTermIsLast(es: seq<Entry>)
    requires es != [] && Sorted(es) && forall k :: 0 <= k < |es| ==> es[k].term >= -1
    ensures MaxTerm(es) == LastTerm(es)
  {
    var rest := es[..|es| - 1];
    if rest != [] {
      MaxTermIsLast(rest);
    }
  }

  // ----- the leader's commit -----

  ghost predicate MatchInv(s: State) {
    forall i, f :: i in s.nodes && f in s.nodes && f != i && s.nodes[i].status == Leader ==>
      f in s.nodes[i].matchIndex
      && (s.nodes[i].matchIndex[f] == -1 || Ack(s.nodes[i].term, f, s.nodes[i].matchIndex[f]) in s.acks)
  }

  ghost predicate RepliesInv(s: State) {
    forall r :: r in s.appendReplies && r.res.success && r.req.entries != [] ==>
      Ack(r.req.term, r.src, r.req.prevIndex + |r.req.entries|) in s.acks
  }

  /** A leader acknowledges each entry it writes. */
  ghost predicate OwnAcks(s: State) {
    forall t, m :: t in s.reigns && |s.reigns[t].base| <= m < |s.reigns[t].log| ==>
      Ack(t, s.reigns[t].leader, m) in s.acks
  }

  ghost predicate CommitsInv(s: State) {
    forall c :: c in s.commits ==> Committed(s, c.term, c.index)
  }

  ghost predicate CommitInv(s: State) {
    MatchInv(s) && RepliesInv(s) && OwnAcks(s) && CommitsInv(s)
  }

  lemma CommittedGrows(s: State, s': State, t: int, m: int)
    requires ReignsGrow(s, s') && s.acks <= s'.acks && s'.nodes.Keys == s.nodes.Keys && Committed(s, t, m)
    ensures Committed(s', t, m)
  {
    AckGrows(s, s', Ack(t, "", m));
    var q :| q <= s.nodes.Keys && 2 * |q| > |s.nodes.Keys| && AckedByAll(s, q, t, m);
    assert AckedByAll(s', q, t, m);
  }

  lemma CommitsGrow(s: State, s': State)
    requires ReignsGrow(s, s') && s.acks <= s'.acks && s'.nodes.Keys == s.nodes.Keys && CommitsInv(s)
    requires s'.commits == s.commits
    ensures CommitsInv(s')
  {
    forall c | c in s'.commits ensures Committed(s', c.term, c.index) {
      CommittedGrows(s, s', c.term, c.index);
    }
  }

  /** A leader that moves its commit index has a majority that acknowledged an entry of its own term. */
  ghost predicate Advances(cfg: Config, s: State, f: Addr, req: AppendReq, res: Option<AppendRes>)
    requires req.leader in s.nodes
  {
    ReplicateReply(cfg, req.leader, s.nodes[req.leader], f, req, res).commit != s.nodes[req.leader].commit
  }

  /** What has to be the case for the commit index to move. */
  lemma AdvanceMeans(cfg: Config, self: Addr, n: Node, f: Addr, req: AppendReq, res: Option<AppendRes>)
    requires cfg.repairs.replies
    ensures var n' := ReplicateReply(cfg, self, n, f, req, res);
            n'.commit != n.commit ==>
              && n.status == Leader && n'.status == Leader && n'.term == n.term == req.term
              && res.Some? && res.value.success
              && n'.commit == req.prevIndex + |req.entries| && n'.commit > n.commit
              && n'.matchIndex == n.matchIndex[f := n'.commit]
              && MaxTerm(req.entries) == n.term
              && Matches(cfg.repairs, self, n'.matchIndex, n'.commit, cfg.members) >= |cfg.members| / 2
  {
    hide Advance, BackUp, Matches, MaxTerm;
    if res.None? || n.status != Leader || res.value.term > n.term || req.term != n.term {
    } else if res.value.success {
      AdvanceMoves(cfg, self, n, f, req);
    } else {
      BackUpCases(n, f, res.value.logLength);
    }
  }

  lemma AdvanceMoves(cfg: Config, self: Addr, n: Node, f: Addr, req: AppendReq)
    ensures var n' := Advance(cfg, self, n, f, req);
            && n'.status == n.status && n'.term == n.term
            && (n'.commit != n.commit ==>
                 && n'.commit == req.prevIndex + |req.entries| && n'.commit > n.commit
                 && n'.matchIndex == n.matchIndex[f := n'.commit] && MaxTerm(req.entries) == n.term
                 && Matches(cfg.repairs, self, n'.matchIndex, n'.commit, cfg.members) >= |cfg.members| / 2)
  {
    hide Matches, MaxTerm;
  }

  lemma MatchingSize(cfg: Config, s: State, self: Addr, match_: map<Addr, int>, index: int)
    requires WellFormed(cfg) && s.nodes.Keys == Members(cfg) && self in s.nodes
    requires cfg.repairs.self || Lookup(match_, self) != index
    requires Matches(cfg.repairs, self, match_, index, cfg.members) >= |cfg.members| / 2
    ensures var q := Matching(self, match_, index, cfg.members) + {self};
            q <= s.nodes.Keys && 2 * |q| > |s.nodes.Keys|
  {
    MatchesCounts(cfg.repairs, self, match_, index, cfg.members);
    SeqSetSize(cfg.members);
    var peers := Matching(self, match_, index, cfg.members);
    assert |peers + {self}| == |peers| + 1;
  }

  /**
   The peers counted when an index is committed, with the leader, meet every majority a candidate
   can win with. As the code stands this needs an index other than the leader's own match index,
   which is never assigned and reads as 0.
   */
  lemma CommitMeetsVotes(cfg: Config, self: Addr, n: Node, index: int, voters: set<Addr>) returns (v: Addr)
    requires WellFormed(cfg) && self in cfg.members && (cfg.repairs.self || Lookup(n.matchIndex, self) != index)
    requires UpdateCommitIndex(cfg, self, n, index) != n
    requires voters <= Members(cfg) && |voters| > |cfg.members| / 2
    ensures v in voters && (v == self || (v in cfg.members && Lookup(n.matchIndex, v) == index))
  {
    var q := Matching(self, n.matchIndex, index, cfg.members) + {self};
    MatchesCounts(cfg.repairs, self, n.matchIndex, index, cfg.members);
    SeqSetSize(cfg.members);
    assert |q| == |Matching(self, n.matchIndex, index, cfg.members)| + 1;
    v := MajoritiesMeet(Members(cfg), voters, q);
  }

  lemma OwnIndex(s: State, m: AppendMsg)
    requires LogInv(s) && CrownsInv(s) && m in s.appends && m.req.entries != [] && MaxTerm(m.req.entries) == m.req.term
    ensures var last := m.req.prevIndex + |m.req.entries|;
            Own(s, Ack(m.req.term, "", last)) && |s.reigns[m.req.term].base| <= last
  {
    var t := m.req.term;
    assert MessageInv(s, m) && ReignShape(s, t);
    var es, lead := m.req.entries, s.reigns[t].log;
    forall k | 0 <= k < |es| ensures es[k].term >= -1 {
      assert es[k] == lead[m.req.prevIndex + 1 + k];
      assert RootedAt(s, lead, m.req.prevIndex + 1 + k);
      assert ReignInv(s, es[k].term);
    }
    assert Sorted(es);
    MaxTermIsLast(es);
  }

  lemma AdvanceCommits(cfg: Config, s: State, f: Addr, req: AppendReq, res: Option<AppendRes>)
    requires WellFormed(cfg) && cfg.repairs.replies && cfg.repairs.self
    requires Sound(cfg, s) && CommitInv(s) && Enabled(cfg, s, ReplicateBack(f, req, res))
    requires Advances(cfg, s, f, req, res)
    ensures var n := s.nodes[req.leader];
            Committed(s, n.term, ReplicateReply(cfg, req.leader, n, f, req, res).commit)
  {
    hide ReplicateReply, Matches, MaxTerm, Matching, AckedByAll, CompletenessInv, MatchInv;
    hide RepliesInv, OwnAcks, CommitsInv, MessagesSliced, ReignShapes, AllRooted, LogInv;
    LogLeads(s);
    var i := req.leader;
    var n, n' := s.nodes[i], ReplicateReply(cfg, i, s.nodes[i], f, req, res);
    AdvanceMeans(cfg, i, n, f, req, res);
    assert n' == ReplicateReply(cfg, i, n, f, req, res);
    OwnIndex(s, AppendMsg(f, req));
    MatchingSize(cfg, s, i, n'.matchIndex, n'.commit);
    QuorumAcked(cfg, s, f, req, res.value, n'.matchIndex);
    assert Own(s, Ack(n.term, "", n'.commit));
    assert AckedByAll(s, Matching(i, n'.matchIndex, n'.commit, cfg.members) + {i}, n.term, n'.commit);
  }

  lemma LogLeads(s: State)
    requires LogInv(s)
    ensures LeaderLogs(s)
  {
  }

  lemma QuorumAcked(cfg: Config, s: State, f: Addr, req: AppendReq, res: AppendRes, match': map<Addr, int>)
    requires LeaderLogs(s) && CommitInv(s) && s.nodes.Keys == Members(cfg) && req.leader in s.nodes
    requires AppendReply(f, req, res) in s.appendReplies && res.success && req.entries != []
    requires s.nodes[req.leader].status == Leader && s.nodes[req.leader].term == req.term
    requires var last := req.prevIndex + |req.entries|;
             match' == s.nodes[req.leader].matchIndex[f := last]
             && req.term in s.reigns && 0 <= |s.reigns[req.term].base| <= last < |s.reigns[req.term].log|
    ensures var last := req.prevIndex + |req.entries|;
            AckedByAll(s, Matching(req.leader, match', last, cfg.members) + {req.leader}, req.term, last)
  {
    var last := req.prevIndex + |req.entries|;
    forall v | v in Matching(req.leader, match', last, cfg.members) + {req.leader}
      ensures Ack(req.term, v, last) in s.acks
    {
      if v == f {
        assert AppendReply(f, req, res) in s.appendReplies;
      } else if v != req.leader {
        assert v in s.nodes;
        assert v in s.nodes[req.leader].matchIndex;
      }
    }
  }

  // ----- preservation -----

  /** Leaders keep their match indices, or reset them, and get to know no acknowledgement. */
  ghost predicate MatchKept(s: State, s': State) {
    forall i {:trigger s'.nodes[i]} :: i in s'.nodes && s'.nodes[i].status == Leader ==>
      (i in s.nodes && s.nodes[i].status == Leader && s'.nodes[i].term == s.nodes[i].term
       && s'.nodes[i].matchIndex == s.nodes[i].matchIndex)
      || (forall f :: f in s'.nodes && f != i ==> f in s'.nodes[i].matchIndex && s'.nodes[i].matchIndex[f] == -1)
  }

  lemma MatchKeeps(s: State, s': State)
    requires MatchInv(s) && s'.nodes.Keys == s.nodes.Keys && s.acks <= s'.acks && MatchKept(s, s')
    ensures MatchInv(s')
  {
  }

  lemma OwnAcksKept(s: State, s': State)
    requires OwnAcks(s) && s'.reigns == s.reigns && s.acks <= s'.acks
    ensures OwnAcks(s')
  {
  }

  lemma LedOwnAcks(s: State, s': State, i: Addr, t: int, e: Entry)
    requires LogInv(s) && OwnAcks(s) && Led(s, s', i, t, e) && s'.acks == s.acks + {Ack(t, i, |s.nodes[i].log|)}
    ensures OwnAcks(s')
  {
    forall u, m | u in s'.reigns && |s'.reigns[u].base| <= m < |s'.reigns[u].log|
      ensures Ack(u, s'.reigns[u].leader, m) in s'.acks
    {
      if u == t && t in s.reigns {
        assert s.nodes[i].status == Leader && s.reigns[t].log == s.nodes[i].log;
      }
    }
  }

  lemma SwitchResets(cfg: Config, self: Addr, n: Node, res: Option<VoteRes>)
    requires cfg.repairs.replies && Wins(cfg, n, res)
    ensures forall f :: f in cfg.members && f != self ==>
              f in VoteCallBack(cfg, self, n, res).matchIndex && VoteCallBack(cfg, self, n, res).matchIndex[f] == -1
  {
  }

  /** A node that is a leader afterwards was the leader before, or resets its peers. */
  ghost predicate MatchOrReset(cfg: Config, self: Addr, n: Node, n': Node) {
    n'.status == Leader ==>
      (n.status == Leader && n'.term == n.term && n'.matchIndex == n.matchIndex)
      || (forall f :: f in cfg.members && f != self ==> f in n'.matchIndex && n'.matchIndex[f] == -1)
  }

  lemma VoteBackMatch(cfg: Config, self: Addr, n: Node, res: Option<VoteRes>)
    requires !Wins(cfg, n, res)
    ensures VoteCallBack(cfg, self, n, res) == n || VoteCallBack(cfg, self, n, res).status != Leader
  {
  }

  lemma HandleMatch(cfg: Config, n: Node, a: Action)
    requires cfg.repairs.replies && !a.ReplicateBack?
    ensures MatchOrReset(cfg, Actor(a), n, Handle(cfg, n, a))
  {
    hide VoteLeader, Vote, VoteCallBack, ClientWrite, AppendEntries, HeartBeatCallBack;
    match a
    case TimeoutAt(i) => VoteLeaderCases(i, n);
    case VoteAt(_, req) => VoteCases(n, req);
    case VoteBack(call, res) =>
      if Wins(cfg, n, res) {
        SwitchResets(cfg, call.candidate, n, res);
      } else {
        VoteBackMatch(cfg, call.candidate, n, res);
      }
    case WriteAt(_, kind, key, value) => ClientWriteCases(n, kind, key, value);
    case DeliverTo(_, req) => AppendCases(cfg.repairs, n, req);
    case HeartBeatBack(_, _, res) => HeartBeatCases(n, res);
    case _ =>
  }

  /** Every action but a reply to a replication keeps what the commit rests on. */
  lemma NoReplyMatch(cfg: Config, s: State, a: Action)
    requires cfg.repairs.replies && Enabled(cfg, s, a) && !a.ReplicateBack? && s.nodes.Keys == Members(cfg)
    ensures MatchKept(s, Next(cfg, s, a)) && Next(cfg, s, a).nodes.Keys == s.nodes.Keys
  {
    hide Next, Enabled, Handle;
    ActorHandles(cfg, s, a);
    HandleMatch(cfg, s.nodes[Actor(a)], a);
  }

  lemma NoReplyReplies(cfg: Config, s: State, a: Action)
    requires RepliesInv(s) && Enabled(cfg, s, a) && !a.ReplicateBack?
    ensures RepliesInv(Next(cfg, s, a))
    ensures Next(cfg, s, a).commits == s.commits && s.acks <= Next(cfg, s, a).acks
  {
    hide VoteLeader, Vote, VoteCallBack, ClientWrite, AppendEntries, HeartBeatCallBack;
    hide ApplyBegin, ApplyEntry, ApplyTag, BuildAppend, HeartBeat, Wins, Stands, Voters, EntryOf;
    match a
    case TimeoutAt(_) =>
    case VoteAt(_, _) =>
    case VoteBack(_, _) =>
    case WriteAt(_, _, _, _) =>
    case ReplicateTo(_, _, _) =>
    case DeliverTo(_, _) =>
    case HeartBeatAt(_) =>
    case HeartBeatBack(_, _, _) =>
    case ApplyBeginAt(_) =>
    case ApplyEntryAt(_) =>
    case ApplyTagAt(_) =>
    case ThreadAt(_, _, _) =>
  }

  lemma DeliverReigns(cfg: Config, s: State, f: Addr, req: AppendReq)
    requires f in s.nodes
    ensures DoDeliver(cfg, s, f, req).reigns == s.reigns && s.acks <= DoDeliver(cfg, s, f, req).acks
  {
  }

  lemma NextOwnAcks(cfg: Config, s: State, a: Action)
    requires WellFormed(cfg) && Sound(cfg, s) && OwnAcks(s) && Enabled(cfg, s, a)
    ensures OwnAcks(Next(cfg, s, a))
  {
    hide DoDeliver, DoTimeout, DoVote, DoReplicateBack, DoHeartBeat, LogInv, CompletenessInv, ElectionInv;
    var s' := Next(cfg, s, a);
    if WritesNoSlot(a) {
      NoSlotFrame(cfg, s, a);
      OwnAcksKept(s, s');
    } else {
      match a
      case VoteBack(call, res) =>
        VoteBackLeads(cfg, s, call, res);
        if Wins(cfg, s.nodes[call.candidate], res) {
          LedOwnAcks(s, s', call.candidate, call.term, PingEntry(call.term));
        } else {
          OwnAcksKept(s, s');
        }
      case WriteAt(i, kind, key, value) =>
        WriteLeads(cfg, s, i, kind, key, value);
        if s.nodes[i].status == Leader {
          LedOwnAcks(s, s', i, s.nodes[i].term, EntryOf(kind, key, value, s.nodes[i].term));
        } else {
          OwnAcksKept(s, s');
        }
      case DeliverTo(f, req) =>
        DeliverReigns(cfg, s, f, req);
        OwnAcksKept(s, s');
    }
  }

  lemma ReplyMatch(cfg: Config, self: Addr, n: Node, f: Addr, req: AppendReq, res: Option<AppendRes>)
    requires cfg.repairs.replies
    ensures var n' := ReplicateReply(cfg, self, n, f, req, res);
            n'.status == Leader ==>
              n.status == Leader && n'.term == n.term
              && (n'.matchIndex == n.matchIndex
                  || (res.Some? && res.value.success && req.term == n.term
                      && n'.matchIndex == n.matchIndex[f := req.prevIndex + |req.entries|]))
  {
    hide Advance, BackUp;
    if res.None? || n.status != Leader || req.term != n.term || res.value.term > n.term {
    } else if res.value.success {
      AdvanceCases(cfg, self, n, f, req);
    } else {
      BackUpCases(n, f, res.value.logLength);
    }
  }

  lemma ReplicateBackMatch(cfg: Config, s: State, f: Addr, req: AppendReq, res: Option<AppendRes>)
    requires cfg.repairs.replies && MatchInv(s) && RepliesInv(s) && Enabled(cfg, s, ReplicateBack(f, req, res))
    ensures MatchInv(DoReplicateBack(cfg, s, f, req, res))
  {
    hide ReplicateReply;
    var i := req.leader;
    ReplyMatch(cfg, i, s.nodes[i], f, req, res);
    assert res.Some? ==> AppendReply(f, req, res.value) in s.appendReplies;
  }

  lemma KnownCommit(s: State, c: Commit)
    requires CommitInv(s) && c in s.commits
    ensures Committed(s, c.term, c.index)
  {
  }

  lemma ReplicateBackCommits(cfg: Config, s: State, f: Addr, req: AppendReq, res: Option<AppendRes>)
    requires WellFormed(cfg) && cfg.repairs.replies && cfg.repairs.self
    requires Sound(cfg, s) && CommitInv(s) && Enabled(cfg, s, ReplicateBack(f, req, res))
    ensures CommitsInv(DoReplicateBack(cfg, s, f, req, res))
  {
    hide Sound, CommitInv, ReplicateReply, Committed;
    var s' := DoReplicateBack(cfg, s, f, req, res);
    assert ReignsGrow(s, s');
    forall c | c in s'.commits ensures Committed(s', c.term, c.index) {
      if c in s.commits {
        KnownCommit(s, c);
      } else {
        AdvanceCommits(cfg, s, f, req, res);
      }
      CommittedGrows(s, s', c.term, c.index);
    }
  }

  lemma ReplicateBackCommit(cfg: Config, s: State, f: Addr, req: AppendReq, res: Option<AppendRes>)
    requires WellFormed(cfg) && cfg.repairs.replies && cfg.repairs.self
    requires Sound(cfg, s) && CommitInv(s) && Enabled(cfg, s, ReplicateBack(f, req, res))
    ensures CommitInv(DoReplicateBack(cfg, s, f, req, res))
  {
    hide Sound, ReplicateReply, MatchInv, CommitsInv;
    ReplicateBackMatch(cfg, s, f, req, res);
    ReplicateBackCommits(cfg, s, f, req, res);
    OwnAcksKept(s, DoReplicateBack(cfg, s, f, req, res));
  }

  lemma NextCommit(cfg: Config, s: State, a: Action)
    requires WellFormed(cfg) && cfg.repairs.align && cfg.repairs.replies && cfg.repairs.self
    requires Sound(cfg, s) && CommitInv(s)
    ensures CommitInv(Next(cfg, s, a))
  {
    hide DoTimeout, DoVote, DoVoteBack, DoWrite, DoDeliver, DoReplicateBack, DoHeartBeat, Enabled, LogInv;
    hide CompletenessInv, VotesInv, PassInv, StatusInv, CallsInv, MessagesInv, TallyInv, CrownsInv;
    var s' := Next(cfg, s, a);
    if Enabled(cfg, s, a) {
      if a.ReplicateBack? {
        ReplicateBackCommit(cfg, s, a.f, a.req, a.res);
      } else {
        NextLog(cfg, s, a);
        NextElection(cfg, s, a);
        NoReplyReplies(cfg, s, a);
        NoReplyMatch(cfg, s, a);
        MatchKeeps(s, s');
        NextOwnAcks(cfg, s, a);
        CommitsGrow(s, s');
      }
    } else {
      NotEnabled(cfg, s, a);
    }
  }

  lemma {:induction false} CommitHolds(cfg: Config, run: seq<Action>)
    requires WellFormed(cfg)
    requires cfg.repairs.align && cfg.repairs.replies && cfg.repairs.self
    ensures Sound(cfg, After(cfg, run)) && CommitInv(After(cfg, run))
  {
    CompletenessHolds(cfg, run);
    if run != [] {
      CommitHolds(cfg, run[..|run| - 1]);
      NextCommit(cfg, After(cfg, run[..|run| - 1]), run[|run| - 1]);
    }
  }

  /** An index a leader committed is in the log of every leader of every later term. */
  lemma LeaderCommitsSurvive(cfg: Config, run: seq<Action>, c: Commit, u: int)
    requires WellFormed(cfg)
    requires cfg.repairs.align && cfg.repairs.replies && cfg.repairs.self
    requires c in After(cfg, run).commits && u in After(cfg, run).reigns && c.term < u
    ensures var s := After(cfg, run);
            c.term in s.reigns && 0 <= c.index < |s.reigns[c.term].log|
            && s.reigns[c.term].log[c.index].term == c.term
            && s.reigns[c.term].log[..c.index + 1] <= s.reigns[u].log
  {
    hide After, ElectionInv, LogInv, CompletenessInv, MatchInv, RepliesInv, OwnAcks;
    CommitHolds(cfg, run);
    LeaderCompleteness.LeaderCompleteness(cfg, run, c.term, c.index, u);
  }
}
