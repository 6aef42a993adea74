/**
 The election restriction (section 5.4.1 of the Raft paper): a vote goes only to a log at least as up
 to date as the voter's. The test in `Vote` compares cached last terms, so it says this only as long
 as a log cut to nothing does not keep the last term it had.
 */
module UpToDateVotes {
  import opened Base
  import opened RaftNode
  import opened Cluster
  import opened Frames
  import opened ElectionSafety
  import opened Provenance
  import opened LeaderCompleteness
  import opened Transfers

  /** The larger last term, or the same and no shorter. */
  predicate AtLeastAs(theirs: seq<Entry>, mine: seq<Entry>) {
    LastTerm(theirs) > LastTerm(mine) || (LastTerm(theirs) == LastTerm(mine) && |theirs| >= |mine|)
  }

  // ----- when the cached last terms are right -----

  predicate CacheTrue(n: Node) {
    n.lastLogTerm == LastTerm(n.log)
  }

  ghost predicate CachesTrue(s: State) {
    forall i {:trigger s.nodes[i]} :: i in s.nodes ==> CacheTrue(s.nodes[i])
  }

  lemma CutCache(r: Repairs, n: Node, req: AppendReq)
    requires CacheRight(n) && Judge(n, req) == Mismatch
    ensures var n' := AppendEntries(r, n, req).0;
            (n'.log == [] <==> req.prevIndex <= 0)
            && (n'.log == [] ==> n'.lastLogTerm == if r.empty then -1 else n.lastLogTerm)
  {
    MismatchIs(r, n, req);
  }

  lemma DeliverCache(r: Repairs, n: Node, req: AppendReq)
    requires CacheTrue(n)
    ensures CacheTrue(AppendEntries(r, n, req).0) <==> EmptyFits(r, n, req)
  {
    hide AppendEntries, Judge;
    AppendEntriesCache(r, n, req);
    if Judge(n, req) == Mismatch {
      CutCache(r, n, req);
    } else if AppendEntries(r, n, req).0.log == [] {
      if n.log != [] { EmptiesOnMismatch(r, n, req); } else { EmptyStays(r, n, req); }
    }
  }

  lemma HandleCacheTrue(cfg: Config, n: Node, a: Action)
    requires CacheTrue(n)
    ensures CacheTrue(Handle(cfg, n, a)) <==> (a.DeliverTo? ==> EmptyFits(cfg.repairs, n, a.req))
  {
    hide Handle, AppendEntries, EmptyFits;
    if a.DeliverTo? {
      WriterHandles(cfg, n, a);
      DeliverCache(cfg.repairs, n, a.req);
    } else {
      HandleCache(cfg, n, a);
      if WritesNoSlot(a) { HandleFrame(cfg, n, a); } else { WriterNotEmpty(cfg, n, a); }
    }
  }

  lemma FitsAtNode(ms: seq<Addr>, r: Repairs, s: State, a: Action)
    requires Enabled(Config(ms, r), s, a) && Actor(a) in s.nodes
    ensures Fits(ms, r, EmptyFlag, s, a) <==> (a.DeliverTo? ==> EmptyFits(r, s.nodes[Actor(a)], a.req))
  {
    hide EmptyFits;
  }

  lemma NextCachesTrue(ms: seq<Addr>, r: Repairs, s: State, a: Action)
    requires CachesTrue(s)
    ensures CachesTrue(Next(Config(ms, r), s, a)) <==> Fits(ms, r, EmptyFlag, s, a)
  {
    hide Next, Enabled, Handle, EmptyFits, CacheTrue, Fits;
    var cfg := Config(ms, r);
    var s' := Next(cfg, s, a);
    if Enabled(cfg, s, a) {
      ActorHandles(cfg, s, a);
      FitsAtNode(ms, r, s, a);
      HandleCacheTrue(cfg, s.nodes[Actor(a)], a);
      assert s'.nodes[Actor(a)] == Handle(cfg, s.nodes[Actor(a)], a);
    } else {
      NotEnabled(cfg, s, a);
      DisabledFits(ms, r, s, a);
    }
  }

  lemma DisabledFits(ms: seq<Addr>, r: Repairs, s: State, a: Action)
    requires !Enabled(Config(ms, r), s, a)
    ensures Fits(ms, r, EmptyFlag, s, a)
  {
    hide Enabled;
  }

  /** At every moment of the run every cached last term is right. */
  ghost predicate AlwaysTrue(cfg: Config, run: seq<Action>) {
    forall k :: 0 <= k <= |run| ==> CachesTrue(After(cfg, run[..k]))
  }

  lemma AlwaysTrueSnoc(cfg: Config, run: seq<Action>)
    requires run != []
    ensures AlwaysTrue(cfg, run) <==> AlwaysTrue(cfg, run[..|run| - 1]) && CachesTrue(After(cfg, run))
  {
    hide After, CachesTrue;
    var most := run[..|run| - 1];
    assert run[..|run|] == run;
    assert forall k :: 0 <= k <= |most| ==> most[..k] == run[..k];
    if AlwaysTrue(cfg, run) {
      forall k | 0 <= k <= |most| ensures CachesTrue(After(cfg, most[..k])) {
        assert CachesTrue(After(cfg, run[..k]));
      }
      assert CachesTrue(After(cfg, run[..|run|]));
    }
    if AlwaysTrue(cfg, most) && CachesTrue(After(cfg, run)) {
      forall k | 0 <= k <= |run| ensures CachesTrue(After(cfg, run[..k])) {
        if k < |run| { assert CachesTrue(After(cfg, most[..k])); }
      }
    }
  }

  /** The cached last terms are right all through a run exactly when no cut to nothing keeps a last term. */
  lemma {:induction false} CachesExact(ms: seq<Addr>, r: Repairs, run: seq<Action>)
    ensures AlwaysTrue(Config(ms, r), run) <==> RunFits(ms, r, EmptyFlag, run)
  {
    hide Next, Fits, AlwaysTrue, RunFits;
    if run == [] {
      NothingYet(ms, r);
    } else {
      var most := run[..|run| - 1];
      CachesExact(ms, r, most);
      AlwaysTrueSnoc(Config(ms, r), run);
      FitsSnoc(ms, r, EmptyFlag, run);
      if AlwaysTrue(Config(ms, r), most) {
        TrueAtEnd(Config(ms, r), most);
        NextCachesTrue(ms, r, After(Config(ms, r), most), run[|run| - 1]);
      }
    }
  }

  lemma NothingYet(ms: seq<Addr>, r: Repairs)
    ensures AlwaysTrue(Config(ms, r), []) && RunFits(ms, r, EmptyFlag, [])
  {
  }

  lemma TrueAtEnd(cfg: Config, run: seq<Action>)
    requires AlwaysTrue(cfg, run)
    ensures CachesTrue(After(cfg, run))
  {
    assert run[..|run|] == run;
  }

  /** With the repair every run is such a run. */
  lemma RepairFits(ms: seq<Addr>, r: Repairs, run: seq<Action>)
    requires r.empty
    ensures RunFits(ms, r, EmptyFlag, run)
  {
    hide After, Enabled;
  }

  // ----- what holds of every run -----

  ghost predicate CachesRight(s: State) {
    forall i {:trigger s.nodes[i]} :: i in s.nodes ==> CacheRight(s.nodes[i])
  }

  lemma {:induction false} CachesRightHold(cfg: Config, run: seq<Action>)
    ensures CachesRight(After(cfg, run))
  {
    hide Next, Enabled, Handle, CacheRight;
    if run == [] {
      FreshCaches(cfg);
    } else {
      var s, a := After(cfg, run[..|run| - 1]), run[|run| - 1];
      CachesRightHold(cfg, run[..|run| - 1]);
      if Enabled(cfg, s, a) {
        ActorHandles(cfg, s, a);
        HandleCache(cfg, s.nodes[Actor(a)], a);
      } else {
        NotEnabled(cfg, s, a);
      }
    }
  }

  lemma FreshCaches(cfg: Config)
    ensures CachesRight(After(cfg, []))
  {
  }

  /** No entry is of a negative term. */
  lemma LastTermsCount(cfg: Config, run: seq<Action>, i: Addr)
    requires WellFormed(cfg) && i in After(cfg, run).nodes
    ensures var log := After(cfg, run).nodes[i].log; log != [] ==> LastTerm(log) >= 0
  {
    hide After;
    var s := After(cfg, run);
    var log := s.nodes[i].log;
    if log != [] {
      var e := log[|log| - 1];
      EntryProvenance(cfg, run, i, AppendMsg(i, HeartBeat(i, s.nodes[i])), e);
      ElectionHolds(cfg, run);
      var a :| Ruled(s, a, e.term) && Authored(a, e) in s.wrote;
      assert ReignInv(s, e.term);
    }
  }

  // ----- where ballots and votes come from -----

  /** At step j the candidate of the ballot stands, with the log the ballot is about. */
  ghost predicate StandsAt(cfg: Config, run: seq<Action>, j: int, req: VoteReq) {
    && 0 <= j < |run| && run[j] == TimeoutAt(req.candidate) && req.candidate in After(cfg, run[..j]).nodes
    && Stands(After(cfg, run[..j]).nodes[req.candidate])
    && req == BallotOf(req.candidate, VoteLeader(req.candidate, After(cfg, run[..j]).nodes[req.candidate]))
  }

  lemma StandsBallot(i: Addr, n: Node)
    requires Stands(n)
    ensures BallotOf(i, VoteLeader(i, n)) == VoteReq(n.term + 1, i, |n.log| - 1, n.lastLogTerm)
  {
  }

  lemma NewBallot(cfg: Config, s: State, a: Action, req: VoteReq)
    requires req in Next(cfg, s, a).ballots && req !in s.ballots
    ensures a == TimeoutAt(req.candidate) && req.candidate in s.nodes && Stands(s.nodes[req.candidate])
    ensures req == BallotOf(req.candidate, VoteLeader(req.candidate, s.nodes[req.candidate]))
  {
    hide VoteLeader, Vote, VoteCallBack, ClientWrite, AppendEntries, ReplicateReply, HeartBeatCallBack;
    hide ApplyBegin, ApplyEntry, ApplyTag, BuildAppend, HeartBeat, Stands;
    if Enabled(cfg, s, a) && a.TimeoutAt? { BallotNames(a.i, s.nodes[a.i]); }
  }

  lemma BallotNames(i: Addr, n: Node)
    ensures BallotOf(i, VoteLeader(i, n)).candidate == i
  {
  }

  lemma {:induction false} BallotOrigin(cfg: Config, run: seq<Action>, req: VoteReq) returns (j: nat)
    requires req in After(cfg, run).ballots
    ensures StandsAt(cfg, run, j, req)
  {
    hide Next, Stands, VoteLeader, BallotOf;
    j := 0;
    if run == [] {
      NoBallots(cfg);
      assert false;
    } else {
      var most := run[..|run| - 1];
      if req in After(cfg, most).ballots {
        j := BallotOrigin(cfg, most, req);
        assert most[..j] == run[..j];
      } else {
        NewBallot(cfg, After(cfg, most), run[|run| - 1], req);
        j := |run| - 1;
      }
    }
  }

  lemma NoBallots(cfg: Config)
    ensures After(cfg, []).ballots == {}
  {
  }

  /** At step k node v gives the vote the ballot asks for. */
  ghost predicate Gives(cfg: Config, run: seq<Action>, k: int, v: Addr, req: VoteReq) {
    && 0 <= k < |run| && run[k] == VoteAt(v, req)
    && v in After(cfg, run[..k]).nodes && req in After(cfg, run[..k]).ballots && req.candidate != v
    && Granted(After(cfg, run[..k]).nodes[v], req)
  }

  predicate Granted(n: Node, req: VoteReq) {
    Vote(n, req).1.Some? && Vote(n, req).1.value.pass
  }

  lemma GrantedNotBehind(n: Node, req: VoteReq)
    requires Granted(n, req)
    ensures !Behind(n, req)
  {
  }

  // ----- the election restriction -----

  /** What the test says of the two logs, when the cached terms are right for logs that are not empty. */
  lemma NotBehindMeans(voter: Node, theirs: seq<Entry>, req: VoteReq)
    requires !Behind(voter, req) && req.lastIndex == |theirs| - 1
    requires (theirs != [] ==> req.lastTerm == LastTerm(theirs) >= 0) && CacheRight(voter)
    requires voter.log != [] ==> LastTerm(voter.log) >= 0
    ensures AtLeastAs(theirs, voter.log) <==> theirs != [] || voter.log == []
    ensures req.lastTerm == LastTerm(theirs) ==> AtLeastAs(theirs, voter.log)
  {
  }

  /**
   In every run, with any choice of repairs, a vote given is for a log at least as up to date as the
   voter's exactly when the candidate stood with an entry or the voter holds none.
   */
  lemma VoteExact(cfg: Config, run: seq<Action>, k: nat, v: Addr, req: VoteReq) returns (j: nat)
    requires WellFormed(cfg) && Gives(cfg, run, k, v, req)
    ensures j < k && StandsAt(cfg, run, j, req)
    ensures var theirs := After(cfg, run[..j]).nodes[req.candidate].log;
            var mine := After(cfg, run[..k]).nodes[v].log;
            AtLeastAs(theirs, mine) <==> theirs != [] || mine == []
  {
    j := BallotBefore(cfg, run, k, v, req);
    VoteCompared(cfg, run, k, v, req, j);
  }

  lemma BallotBefore(cfg: Config, run: seq<Action>, k: nat, v: Addr, req: VoteReq) returns (j: nat)
    requires Gives(cfg, run, k, v, req)
    ensures j < k && StandsAt(cfg, run, j, req)
  {
    hide After, Stands, VoteLeader, BallotOf, Granted;
    j := BallotOrigin(cfg, run[..k], req);
    assert run[..k][..j] == run[..j];
  }

  lemma VoteCompared(cfg: Config, run: seq<Action>, k: nat, v: Addr, req: VoteReq, j: nat)
    requires WellFormed(cfg) && Gives(cfg, run, k, v, req) && j < k && StandsAt(cfg, run, j, req)
    ensures var theirs := After(cfg, run[..j]).nodes[req.candidate].log;
            var mine := After(cfg, run[..k]).nodes[v].log;
            && (AtLeastAs(theirs, mine) <==> theirs != [] || mine == [])
            && (req.lastTerm == LastTerm(theirs) ==> AtLeastAs(theirs, mine))
  {
    hide After, Behind, Granted, AtLeastAs, VoteLeader, BallotOf, Stands;
    var n, c := After(cfg, run[..k]).nodes[v], After(cfg, run[..j]).nodes[req.candidate];
    StandsBallot(req.candidate, c);
    CachesRightHold(cfg, run[..k]);
    CachesRightHold(cfg, run[..j]);
    LastTermsCount(cfg, run[..k], v);
    LastTermsCount(cfg, run[..j], req.candidate);
    GrantedNotBehind(n, req);
    NotBehindMeans(n, c.log, req);
  }

  /** In a run in which no cut to nothing keeps a last term, so always with the repair, every vote is. */
  lemma VotesUpToDate(ms: seq<Addr>, r: Repairs, run: seq<Action>, k: nat, v: Addr, req: VoteReq) returns (j: nat)
    requires WellFormed(Config(ms, r)) && RunFits(ms, r, EmptyFlag, run) && Gives(Config(ms, r), run, k, v, req)
    ensures j < k && StandsAt(Config(ms, r), run, j, req)
    ensures var theirs := After(Config(ms, r), run[..j]).nodes[req.candidate].log;
            AtLeastAs(theirs, After(Config(ms, r), run[..k]).nodes[v].log)
  {
    hide After, RunFits, Stands, VoteLeader, BallotOf, Granted;
    j := BallotBefore(Config(ms, r), run, k, v, req);
    VoteCompared(Config(ms, r), run, k, v, req, j);
    CachesExact(ms, r, run);
    assert CachesTrue(After(Config(ms, r), run[..j]));
    StandsBallot(req.candidate, After(Config(ms, r), run[..j]).nodes[req.candidate]);
  }

  // ----- what it means for the winners -----

  lemma HandleVotes(cfg: Config, n: Node, a: Action, t: int, c: Addr)
    requires t in Handle(cfg, n, a).voteFor && Handle(cfg, n, a).voteFor[t] == c
    ensures (t in n.voteFor && n.voteFor[t] == c) || (a.TimeoutAt? && c == a.i)
            || (a.VoteAt? && Granted(n, a.ballot) && a.ballot.term == t && a.ballot.candidate == c)
  {
    hide VoteLeader, Vote, VoteCallBack, ClientWrite, AppendEntries, ReplicateReply, HeartBeatCallBack;
    match a
    case TimeoutAt(i) => StandingVotes(i, n);
    case VoteAt(_, req) => VoteCases(n, req);
    case VoteBack(call, res) => VoteBackCases(cfg, call.candidate, n, res);
    case WriteAt(_, kind, key, value) => ClientWriteCases(n, kind, key, value);
    case DeliverTo(_, req) => AppendCases(cfg.repairs, n, req);
    case ReplicateBack(f, req, res) => ReplyCases(cfg, req.leader, n, f, req, res);
    case HeartBeatBack(_, _, res) => HeartBeatCases(n, res);
    case _ =>
  }

  lemma StandingVotes(i: Addr, n: Node)
    ensures forall t :: t in VoteLeader(i, n).voteFor ==>
              (t in n.voteFor && VoteLeader(i, n).voteFor[t] == n.voteFor[t]) || VoteLeader(i, n).voteFor[t] == i
  {
  }

  lemma NewVote(cfg: Config, s: State, a: Action, v: Addr, t: int, c: Addr)
    requires VotedFor(Next(cfg, s, a), v, t, c) && !VotedFor(s, v, t, c) && v != c && v in s.nodes
    ensures a.VoteAt? && a.j == v && Enabled(cfg, s, a)
    ensures Granted(s.nodes[v], a.ballot) && a.ballot.term == t && a.ballot.candidate == c
  {
    hide Next, Enabled, Handle, Granted;
    if Enabled(cfg, s, a) {
      ActorHandles(cfg, s, a);
      if v == Actor(a) { HandleVotes(cfg, s.nodes[v], a, t, c); }
    } else {
      NotEnabled(cfg, s, a);
    }
  }

  /** A vote for another node was given at some step, on a ballot of that node. */
  lemma {:induction false} VoteOrigin(cfg: Config, run: seq<Action>, v: Addr, t: int, c: Addr)
    returns (k: nat, req: VoteReq)
    requires WellFormed(cfg) && VotedFor(After(cfg, run), v, t, c) && v != c
    ensures Gives(cfg, run, k, v, req) && req.term == t && req.candidate == c
  {
    hide Next, Granted, VoteLeader;
    k, req := 0, VoteReq(0, c, 0, 0);
    if run == [] {
      NoVotes(cfg);
      assert false;
    } else {
      var most := run[..|run| - 1];
      NodesStay(cfg, most, run[|most|]);
      if VotedFor(After(cfg, most), v, t, c) {
        k, req := VoteOrigin(cfg, most, v, t, c);
        assert most[..k] == run[..k];
      } else {
        NewVote(cfg, After(cfg, most), run[|most|], v, t, c);
        k, req := |most|, run[|most|].ballot;
        assert run[|most|] == VoteAt(v, req);
      }
    }
  }

  lemma NodesStay(cfg: Config, most: seq<Action>, a: Action)
    requires WellFormed(cfg)
    ensures Next(cfg, After(cfg, most), a).nodes.Keys == After(cfg, most).nodes.Keys
  {
    hide Next, After;
    ElectionHolds(cfg, most);
    NextGrows(cfg, After(cfg, most), a);
  }

  lemma NoVotes(cfg: Config)
    ensures forall v, t, c :: !VotedFor(After(cfg, []), v, t, c)
  {
  }

  /** At step w a candidate of term t wins with the voters and over the log the leadership records. */
  ghost predicate WinsAt(cfg: Config, run: seq<Action>, w: int, t: int, g: Reign) {
    && 0 <= w < |run| && g.leader in After(cfg, run[..w]).nodes
    && var n := After(cfg, run[..w]).nodes[g.leader];
       n.status == Candidate && n.term == t && g.base == n.log && g.voters == Voters(After(cfg, run[..w]), g.leader, t)
  }

  ghost predicate SameStart(g: Reign, h: Reign) {
    h.leader == g.leader && h.voters == g.voters && h.base == g.base
  }

  lemma NewReigns(cfg: Config, s: State, a: Action, t: int)
    requires t in Next(cfg, s, a).reigns && !(t in s.reigns && SameStart(s.reigns[t], Next(cfg, s, a).reigns[t]))
    ensures var g := Next(cfg, s, a).reigns[t];
            && a.VoteBack? && g.leader == a.call.candidate && g.leader in s.nodes
            && s.nodes[g.leader].status == Candidate && s.nodes[g.leader].term == t
            && g.base == s.nodes[g.leader].log && g.voters == Voters(s, g.leader, t)
  {
    hide VoteLeader, Vote, VoteCallBack, ClientWrite, AppendEntries, ReplicateReply, HeartBeatCallBack;
    hide ApplyBegin, ApplyEntry, ApplyTag, BuildAppend, HeartBeat, Voters, EntryOf, PingEntry;
  }

  lemma {:induction false} ReignOrigin(cfg: Config, run: seq<Action>, t: int) returns (w: nat)
    requires t in After(cfg, run).reigns
    ensures WinsAt(cfg, run, w, t, After(cfg, run).reigns[t])
  {
    hide Next, Voters;
    w := 0;
    if run == [] {
      NoReigns(cfg);
      assert false;
    } else {
      var most := run[..|run| - 1];
      var s, s' := After(cfg, most), After(cfg, run);
      if t in s.reigns && SameStart(s.reigns[t], s'.reigns[t]) {
        w := ReignOrigin(cfg, most, t);
        assert most[..w] == run[..w];
      } else {
        NewReigns(cfg, s, run[|most|], t);
        w := |most|;
      }
    }
  }

  lemma NoReigns(cfg: Config)
    ensures After(cfg, []).reigns == map[]
  {
  }

  lemma {:induction false} BallotsHold(cfg: Config, run: seq<Action>)
    requires WellFormed(cfg)
    ensures BallotsInv(After(cfg, run))
  {
    hide Next, BallotsInv;
    if run == [] {
      NoBallotsYet(cfg);
    } else {
      ElectionHolds(cfg, run[..|run| - 1]);
      BallotsHold(cfg, run[..|run| - 1]);
      NextBallots(cfg, After(cfg, run[..|run| - 1]), run[|run| - 1]);
    }
  }

  lemma NoBallotsYet(cfg: Config)
    ensures BallotsInv(After(cfg, []))
  {
  }

  /** The ballot a winner's voter answered is still that of its log when it wins. */
  lemma VoterAsked(cfg: Config, run: seq<Action>, t: int, v: Addr) returns (k: nat, req: VoteReq, w: nat)
    requires WellFormed(cfg) && t in After(cfg, run).reigns
    requires v in After(cfg, run).reigns[t].voters && v != After(cfg, run).reigns[t].leader
    ensures var g := After(cfg, run).reigns[t];
            && Gives(cfg, run, k, v, req) && req.term == t && req.candidate == g.leader && k < w
            && WinsAt(cfg, run, w, t, g) && req == BallotOf(g.leader, After(cfg, run[..w]).nodes[g.leader])
  {
    hide After, Granted, BallotOf;
    var g := After(cfg, run).reigns[t];
    w := ReignOrigin(cfg, run, t);
    k, req := VoteOrigin(cfg, run[..w], v, t, g.leader);
    assert run[..w][..k] == run[..k];
    BallotsHold(cfg, run[..w]);
    BallotsStay(cfg, run[..w], k, req);
  }

  lemma {:induction false} BallotsStay(cfg: Config, run: seq<Action>, k: nat, req: VoteReq)
    requires k <= |run| && req in After(cfg, run[..k]).ballots
    ensures req in After(cfg, run).ballots
  {
    hide Next;
    if k == |run| {
      assert run[..k] == run;
    } else {
      var most := run[..|run| - 1];
      assert most[..k] == run[..k];
      BallotsStay(cfg, most, k, req);
      BallotsGrow(cfg, After(cfg, most), run[|run| - 1]);
    }
  }

  lemma BallotsGrow(cfg: Config, s: State, a: Action)
    ensures s.ballots <= Next(cfg, s, a).ballots
  {
    hide VoteLeader, Vote, VoteCallBack, ClientWrite, AppendEntries, ReplicateReply, HeartBeatCallBack;
    hide ApplyBegin, ApplyEntry, ApplyTag, BuildAppend, HeartBeat, BallotOf;
  }

  lemma WinnerCompared(cfg: Config, run: seq<Action>, t: int, v: Addr) returns (k: nat, req: VoteReq, w: nat)
    requires WellFormed(cfg) && t in After(cfg, run).reigns
    requires v in After(cfg, run).reigns[t].voters && v != After(cfg, run).reigns[t].leader
    ensures Gives(cfg, run, k, v, req) && req.term == t && req.candidate == After(cfg, run).reigns[t].leader
    ensures var g := After(cfg, run).reigns[t];
            var mine := After(cfg, run[..k]).nodes[v].log;
            && WinsAt(cfg, run, w, t, g) && req == BallotOf(g.leader, After(cfg, run[..w]).nodes[g.leader])
            && (AtLeastAs(g.base, mine) <==> g.base != [] || mine == [])
            && (req.lastTerm == LastTerm(g.base) ==> AtLeastAs(g.base, mine))
  {
    hide After, Behind, Granted, AtLeastAs;
    k, req, w := VoterAsked(cfg, run, t, v);
    var g := After(cfg, run).reigns[t];
    var n := After(cfg, run[..k]).nodes[v];
    CachesRightHold(cfg, run[..k]);
    CachesRightHold(cfg, run[..w]);
    LastTermsCount(cfg, run[..k], v);
    LastTermsCount(cfg, run[..w], g.leader);
    GrantedNotBehind(n, req);
    NotBehindMeans(n, g.base, req);
  }

  /**
   In every run, with any choice of repairs, the log a leader was elected with is at least as up to
   date as the log each of its voters had when it voted, exactly when it is not empty or that one is.
   */
  lemma WinnerExact(cfg: Config, run: seq<Action>, t: int, v: Addr) returns (k: nat, req: VoteReq)
    requires WellFormed(cfg) && t in After(cfg, run).reigns
    requires v in After(cfg, run).reigns[t].voters && v != After(cfg, run).reigns[t].leader
    ensures Gives(cfg, run, k, v, req) && req.term == t && req.candidate == After(cfg, run).reigns[t].leader
    ensures var g := After(cfg, run).reigns[t];
            var mine := After(cfg, run[..k]).nodes[v].log;
            && (AtLeastAs(g.base, mine) <==> g.base != [] || mine == [])
  {
    hide After, Granted, AtLeastAs, WinsAt, BallotOf;
    var w: nat;
    k, req, w := WinnerCompared(cfg, run, t, v);
  }

  /**
   In a run in which no cut to nothing keeps a last term, so always with the repair, it is; and no node
   with an empty log is elected by one that holds an entry.
   */
  lemma WinnersUpToDate(ms: seq<Addr>, r: Repairs, run: seq<Action>, t: int, v: Addr) returns (k: nat, req: VoteReq)
    requires WellFormed(Config(ms, r)) && RunFits(ms, r, EmptyFlag, run) && t in After(Config(ms, r), run).reigns
    requires v in After(Config(ms, r), run).reigns[t].voters && v != After(Config(ms, r), run).reigns[t].leader
    ensures Gives(Config(ms, r), run, k, v, req) && req.term == t
    ensures req.candidate == After(Config(ms, r), run).reigns[t].leader
    ensures var g := After(Config(ms, r), run).reigns[t];
            var mine := After(Config(ms, r), run[..k]).nodes[v].log;
            && AtLeastAs(g.base, mine) && (g.base == [] ==> mine == [])
  {
    hide After, Granted, AtLeastAs, RunFits;
    var w: nat;
    k, req, w := WinnerCompared(Config(ms, r), run, t, v);
    CachesExact(ms, r, run);
    assert CachesTrue(After(Config(ms, r), run[..w]));
  }
}
