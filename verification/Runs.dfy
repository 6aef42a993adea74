/**
 Building blocks for concrete runs: each lemma extends a run by an action, or by the few actions of
 an election or a round of replication, and says what becomes of the nodes.
 */
module Runs {
  import opened Base
  import opened RaftNode
  import opened Cluster
  import opened ElectionSafety

  // ----- three and five nodes -----

  predicate Three(cfg: Config, a: Addr, b: Addr, c: Addr) {
    cfg.members == [a, b, c] && a !in {b, c} && b != c
  }

  predicate Five(cfg: Config, a: Addr, b: Addr, c: Addr, d: Addr, e: Addr) {
    cfg.members == [a, b, c, d, e] && a !in {b, c, d, e} && b !in {c, d, e} && c !in {d, e} && d != e
  }

  lemma ThreeNodes(cfg: Config, a: Addr, b: Addr, c: Addr)
    requires Three(cfg, a, b, c)
    ensures WellFormed(cfg) && Members(cfg) == {a, b, c} && |cfg.members| / 2 == 1
    ensures a in cfg.members && b in cfg.members && c in cfg.members
  {
    var ms := cfg.members;
    assert ms[0] == a && ms[1] == b && ms[2] == c;
  }

  lemma FiveNodes(cfg: Config, a: Addr, b: Addr, c: Addr, d: Addr, e: Addr)
    requires Five(cfg, a, b, c, d, e)
    ensures WellFormed(cfg) && Members(cfg) == {a, b, c, d, e} && |cfg.members| / 2 == 2
    ensures a in cfg.members && b in cfg.members && c in cfg.members && d in cfg.members && e in cfg.members
  {
    var ms := cfg.members;
    assert ms[0] == a && ms[1] == b && ms[2] == c && ms[3] == d && ms[4] == e;
  }

  /** Messages and commits stay. */
  ghost predicate Keeps(s: State, s': State) {
    && s'.nodes.Keys == s.nodes.Keys && s.ballots <= s'.ballots && s.voteReplies <= s'.voteReplies
    && s.appends <= s'.appends && s.appendReplies <= s'.appendReplies && s.commits <= s'.commits
  }

  /** No leadership begins or grows either, and no call is answered. */
  ghost predicate Calm(s: State, s': State) {
    Keeps(s, s') && s'.reigns == s.reigns && s.pending <= s'.pending
  }

  lemma Act(cfg: Config, run: seq<Action>, s: State, a: Action) returns (run': seq<Action>, s': State)
    requires After(cfg, run) == s
    ensures run' == run + [a] && s' == Next(cfg, s, a) && After(cfg, run') == s'
  {
    AfterSnoc(cfg, run, a);
    run', s' := run + [a], Next(cfg, s, a);
  }

  lemma Start(cfg: Config) returns (s: State)
    ensures After(cfg, []) == s && s.nodes.Keys == Members(cfg) && forall i :: i in s.nodes ==> s.nodes[i] == FRESH
    ensures s.reigns == map[]
  {
    s := Init(cfg);
  }

  // ----- one action -----

  lemma TimesOut(cfg: Config, run: seq<Action>, s: State, i: Addr) returns (run': seq<Action>, s': State)
    requires After(cfg, run) == s && i in s.nodes
    ensures After(cfg, run') == s' && Calm(s, s') && s'.nodes == s.nodes[i := VoteLeader(i, s.nodes[i])]
    ensures Stands(s.nodes[i]) ==> BallotOf(i, s'.nodes[i]) in s'.ballots
    ensures Stands(s.nodes[i]) ==> forall p :: p in s.nodes && p != i ==> VoteCall(i, s'.nodes[i].term, p) in s'.pending
  {
    hide After, VoteLeader;
    run', s' := Act(cfg, run, s, TimeoutAt(i));
  }

  lemma CastsVote(cfg: Config, run: seq<Action>, s: State, j: Addr, req: VoteReq) returns (run': seq<Action>, s': State)
    requires After(cfg, run) == s && j in s.nodes && req in s.ballots && req.candidate != j
    requires Vote(s.nodes[j], req).1.Some?
    ensures After(cfg, run') == s' && Calm(s, s') && s'.nodes == s.nodes[j := Vote(s.nodes[j], req).0]
    ensures VoteReply(VoteCall(req.candidate, req.term, j), Vote(s.nodes[j], req).1.value) in s'.voteReplies
  {
    hide After, Vote;
    run', s' := Act(cfg, run, s, VoteAt(j, req));
  }

  lemma CountsVote(cfg: Config, run: seq<Action>, s: State, call: VoteCall, res: VoteRes)
    returns (run': seq<Action>, s': State)
    requires After(cfg, run) == s && call.candidate in s.nodes && call in s.pending
    requires VoteReply(call, res) in s.voteReplies
    ensures After(cfg, run') == s' && Keeps(s, s') && s'.pending == s.pending - {call}
    ensures var n := s.nodes[call.candidate]; var n' := VoteCallBack(cfg, call.candidate, n, Some(res));
            && s'.nodes == s.nodes[call.candidate := n']
            && s'.reigns == (if Wins(cfg, n, Some(res))
                             then s.reigns[n.term := Reign(call.candidate, Voters(s, call.candidate, n.term),
                                                           n.log, n'.log)]
                             else s.reigns)
  {
    hide After, VoteCallBack, Wins, Voters;
    run', s' := Act(cfg, run, s, VoteBack(call, Some(res)));
  }

  lemma Sends(cfg: Config, run: seq<Action>, s: State, i: Addr, f: Addr, single: bool)
    returns (run': seq<Action>, s': State)
    requires After(cfg, run) == s && i in s.nodes && f in s.nodes && f != i && CanReplicate(s.nodes[i], f)
    ensures After(cfg, run') == s' && Calm(s, s') && s'.nodes == s.nodes
    ensures AppendMsg(f, BuildAppend(i, s.nodes[i], f, single)) in s'.appends
  {
    hide After, BuildAppend;
    run', s' := Act(cfg, run, s, ReplicateTo(i, f, single));
  }

  lemma Beats(cfg: Config, run: seq<Action>, s: State, i: Addr, f: Addr) returns (run': seq<Action>, s': State)
    requires After(cfg, run) == s && i in s.nodes && f in s.nodes && f != i && s.nodes[i].status == Leader
    ensures After(cfg, run') == s' && Calm(s, s') && s'.nodes == s.nodes
    ensures AppendMsg(f, HeartBeat(i, s.nodes[i])) in s'.appends
  {
    hide After, HeartBeat;
    run', s' := Act(cfg, run, s, HeartBeatAt(i));
  }

  lemma Delivers(cfg: Config, run: seq<Action>, s: State, f: Addr, req: AppendReq)
    returns (run': seq<Action>, s': State)
    requires After(cfg, run) == s && f in s.nodes && AppendMsg(f, req) in s.appends
    ensures After(cfg, run') == s' && Calm(s, s')
    ensures s'.nodes == s.nodes[f := AppendEntries(cfg.repairs, s.nodes[f], req).0]
    ensures AppendReply(f, req, AppendEntries(cfg.repairs, s.nodes[f], req).1) in s'.appendReplies
  {
    hide After, AppendEntries;
    run', s' := Act(cfg, run, s, DeliverTo(f, req));
  }

  lemma Returns(cfg: Config, run: seq<Action>, s: State, f: Addr, req: AppendReq, res: Option<AppendRes>)
    returns (run': seq<Action>, s': State)
    requires After(cfg, run) == s && req.leader in s.nodes && AppendMsg(f, req) in s.appends && req.entries != []
    requires res.Some? ==> AppendReply(f, req, res.value) in s.appendReplies
    ensures After(cfg, run') == s' && Calm(s, s')
    ensures var n := s.nodes[req.leader]; var n' := ReplicateReply(cfg, req.leader, n, f, req, res);
            && s'.nodes == s.nodes[req.leader := n']
            && (n'.commit != n.commit ==> Commit(n.term, n'.commit) in s'.commits)
  {
    hide After, ReplicateReply;
    run', s' := Act(cfg, run, s, ReplicateBack(f, req, res));
  }

  lemma BeatReturns(cfg: Config, run: seq<Action>, s: State, f: Addr, req: AppendReq, res: AppendRes)
    returns (run': seq<Action>, s': State)
    requires After(cfg, run) == s && req.leader in s.nodes && AppendMsg(f, req) in s.appends && req.entries == []
    requires AppendReply(f, req, res) in s.appendReplies
    ensures After(cfg, run') == s' && Calm(s, s')
    ensures s'.nodes == s.nodes[req.leader := HeartBeatCallBack(s.nodes[req.leader], Some(res))]
  {
    hide After, HeartBeatCallBack;
    run', s' := Act(cfg, run, s, HeartBeatBack(f, req, Some(res)));
  }

  lemma Puts(cfg: Config, run: seq<Action>, s: State, i: Addr, key: Bytes, value: Bytes)
    returns (run': seq<Action>, s': State)
    requires After(cfg, run) == s && i in s.nodes
    ensures After(cfg, run') == s' && Keeps(s, s') && s.pending <= s'.pending
    ensures s'.nodes == s.nodes[i := ClientWrite(s.nodes[i], PutReq, key, value)]
  {
    hide After, ClientWrite;
    run', s' := Act(cfg, run, s, WriteAt(i, PutReq, key, value));
  }

  lemma BeginsPass(cfg: Config, run: seq<Action>, s: State, i: Addr) returns (run': seq<Action>, s': State)
    requires After(cfg, run) == s && i in s.nodes
    ensures After(cfg, run') == s' && Calm(s, s') && s'.nodes == s.nodes[i := ApplyBegin(s.nodes[i])]
  {
    hide After, ApplyBegin;
    run', s' := Act(cfg, run, s, ApplyBeginAt(i));
  }

  lemma StoresEntry(cfg: Config, run: seq<Action>, s: State, i: Addr) returns (run': seq<Action>, s': State)
    requires After(cfg, run) == s && i in s.nodes && CanApply(s.nodes[i])
    ensures After(cfg, run') == s' && Calm(s, s') && s'.nodes == s.nodes[i := ApplyEntry(s.nodes[i])]
  {
    hide After, ApplyEntry;
    run', s' := Act(cfg, run, s, ApplyEntryAt(i));
  }

  lemma WritesTag(cfg: Config, run: seq<Action>, s: State, i: Addr) returns (run': seq<Action>, s': State)
    requires After(cfg, run) == s && i in s.nodes && s.nodes[i].inHand
    ensures After(cfg, run') == s' && Calm(s, s') && s'.nodes == s.nodes[i := ApplyTag(s.nodes[i])]
  {
    hide After, ApplyTag;
    run', s' := Act(cfg, run, s, ApplyTagAt(i));
  }

  lemma RunsThread(cfg: Config, run: seq<Action>, s: State, i: Addr, f: Addr) returns (run': seq<Action>, s': State)
    requires After(cfg, run) == s && i in s.nodes && f in s.nodes
    ensures After(cfg, run') == s' && Calm(s, s')
    ensures s'.nodes == s.nodes[i := s.nodes[i].(replicating := s.nodes[i].replicating + {f})]
  {
    hide After;
    run', s' := Act(cfg, run, s, ThreadAt(i, f, true));
  }

  // ----- a few actions -----

  /** The leader steps down because a peer is ahead in term. */
  lemma StepsDown(cfg: Config, run: seq<Action>, s: State, i: Addr, j: Addr) returns (run': seq<Action>, s': State)
    requires After(cfg, run) == s && i in s.nodes && j in s.nodes && i != j
    requires s.nodes[i].status == Leader && s.nodes[i].term < s.nodes[j].term
    ensures After(cfg, run') == s' && Calm(s, s')
    ensures s'.nodes == s.nodes[i := SwitchToFollower(s.nodes[i], s.nodes[j].term)]
  {
    hide After;
    var req := HeartBeat(i, s.nodes[i]);
    var run1, s1 := Beats(cfg, run, s, i, j);
    var run2, s2 := Delivers(cfg, run1, s1, j, req);
    assert s2.nodes == s.nodes;
    run', s' := BeatReturns(cfg, run2, s2, j, req, AppendEntries(cfg.repairs, s.nodes[j], req).1);
  }

  /** A heartbeat arrives. */
  lemma BeatArrives(cfg: Config, run: seq<Action>, s: State, i: Addr, f: Addr) returns (run': seq<Action>, s': State)
    requires After(cfg, run) == s && i in s.nodes && f in s.nodes && i != f && s.nodes[i].status == Leader
    ensures After(cfg, run') == s' && Calm(s, s')
    ensures s'.nodes == s.nodes[f := AppendEntries(cfg.repairs, s.nodes[f], HeartBeat(i, s.nodes[i])).0]
  {
    hide After, AppendEntries;
    var run1, s1 := Beats(cfg, run, s, i, f);
    run', s' := Delivers(cfg, run1, s1, f, HeartBeat(i, s.nodes[i]));
  }

  /** A call that never arrives. */
  lemma CallFails(cfg: Config, run: seq<Action>, s: State, i: Addr, f: Addr, single: bool)
    returns (run': seq<Action>, s': State)
    requires After(cfg, run) == s && i in s.nodes && f in s.nodes && i != f && CanReplicate(s.nodes[i], f)
    ensures After(cfg, run') == s' && Calm(s, s') && s'.nodes == s.nodes
  {
    hide After;
    var run1, s1 := Sends(cfg, run, s, i, f, single);
    run', s' := Returns(cfg, run1, s1, f, BuildAppend(i, s.nodes[i], f, single), None);
  }

  /** A request arrives, its answer does not, or not yet. */
  lemma Arrives(cfg: Config, run: seq<Action>, s: State, i: Addr, f: Addr, single: bool)
    returns (run': seq<Action>, s': State)
    requires After(cfg, run) == s && i in s.nodes && f in s.nodes && i != f && CanReplicate(s.nodes[i], f)
    ensures var req := BuildAppend(i, s.nodes[i], f, single);
            var (n, res) := AppendEntries(cfg.repairs, s.nodes[f], req);
            && After(cfg, run') == s' && Calm(s, s') && s'.nodes == s.nodes[f := n]
            && AppendMsg(f, req) in s'.appends && AppendReply(f, req, res) in s'.appendReplies
  {
    hide After, AppendEntries;
    var run1, s1 := Sends(cfg, run, s, i, f, single);
    run', s' := Delivers(cfg, run1, s1, f, BuildAppend(i, s.nodes[i], f, single));
  }

  /** A request arrives and its answer is lost. */
  lemma AnswerLost(cfg: Config, run: seq<Action>, s: State, i: Addr, f: Addr, single: bool)
    returns (run': seq<Action>, s': State)
    requires After(cfg, run) == s && i in s.nodes && f in s.nodes && i != f && CanReplicate(s.nodes[i], f)
    ensures After(cfg, run') == s' && Calm(s, s')
    ensures s'.nodes == s.nodes[f := AppendEntries(cfg.repairs, s.nodes[f], BuildAppend(i, s.nodes[i], f, single)).0]
  {
    hide After, AppendEntries, BuildAppend;
    BuildsEntries(i, s.nodes[i], f, single);
    var run1, s1 := Arrives(cfg, run, s, i, f, single);
    assert s1.nodes[i] == s.nodes[i];
    run', s' := Returns(cfg, run1, s1, f, BuildAppend(i, s.nodes[i], f, single), None);
    assert s'.nodes == s1.nodes;
  }

  lemma BuildsEntries(i: Addr, n: Node, f: Addr, single: bool)
    requires CanReplicate(n, f)
    ensures var req := BuildAppend(i, n, f, single); req.entries != [] && req.leader == i
  {
  }

  /** A whole round: the request arrives and its answer comes back. */
  lemma Round(cfg: Config, run: seq<Action>, s: State, i: Addr, f: Addr, single: bool)
    returns (run': seq<Action>, s': State)
    requires After(cfg, run) == s && i in s.nodes && f in s.nodes && i != f && CanReplicate(s.nodes[i], f)
    ensures var req := BuildAppend(i, s.nodes[i], f, single);
            var (n, res) := AppendEntries(cfg.repairs, s.nodes[f], req);
            var m := ReplicateReply(cfg, i, s.nodes[i], f, req, Some(res));
            && After(cfg, run') == s' && Calm(s, s') && s'.nodes == s.nodes[f := n][i := m]
            && (m.commit != s.nodes[i].commit ==> Commit(s.nodes[i].term, m.commit) in s'.commits)
  {
    hide After, AppendEntries, BuildAppend, ReplicateReply;
    var req := BuildAppend(i, s.nodes[i], f, single);
    BuildsEntries(i, s.nodes[i], f, single);
    var run1, s1 := Arrives(cfg, run, s, i, f, single);
    assert s1.nodes[i] == s.nodes[i];
    run', s' := Returns(cfg, run1, s1, f, req, Some(AppendEntries(cfg.repairs, s.nodes[f], req).1));
  }

  // ----- elections -----

  /** What a node is once it has won its next term. */
  ghost predicate Crowned(cfg: Config, i: Addr, n: Node, n': Node) {
    && n'.status == Leader && n'.term == n.term + 1 && n'.log == n.log + [PingEntry(n.term + 1)]
    && n'.lastLogTerm == n.term + 1 && (n.stale == [] ==> n'.stale == []) && n'.replicating == n.replicating
    && n'.heartbeats == n.heartbeats && n'.commit == n.commit && n'.applyEnd == n.applyEnd
      && n'.lastApplied == n.lastApplied && n'.inHand == n.inHand
    && n'.store == n.store && n'.acks == n.acks && n'.applied == n.applied && n'.acked == n.acked
    && (i !in n.matchIndex ==> i !in n'.matchIndex)
    && (forall p {:trigger n'.nextIndex[p]} {:trigger n'.matchIndex[p]} {:trigger p in cfg.members} ::
         p in cfg.members && p != i && p !in n.replicating ==>
           p in n'.nextIndex && n'.nextIndex[p] == |n.log| && p in n'.matchIndex && n'.matchIndex[p] == -1)
  }

  /** The vote of a node that was behind in term. */
  function Voted(n: Node, i: Addr, t: nat): Node {
    n.(status := Follower, term := t, voteFor := n.voteFor[t := i])
  }

  lemma Standing(i: Addr, n: Node)
    requires Stands(n) && n.status != Leader && n.term + 1 !in n.votePass
    ensures var t := n.term + 1;
            VoteLeader(i, n)
            == n.(status := Candidate, term := t, voteFor := n.voteFor[t := i], votePass := n.votePass[t := 1])
  {
  }

  lemma Voting(n: Node, req: VoteReq)
    requires n.status != Leader && n.term < req.term && !Behind(n, req) && req.term !in n.voteFor
    ensures Vote(n, req) == (Voted(n, req.candidate, req.term), Some(VoteRes(req.term, true)))
  {
    hide Behind;
  }

  lemma Counting(cfg: Config, i: Addr, n: Node)
    requires n.status == Candidate && n.term in n.votePass && n.votePass[n.term] + 1 <= |cfg.members| / 2
    ensures !Wins(cfg, n, Some(VoteRes(n.term, true)))
    ensures VoteCallBack(cfg, i, n, Some(VoteRes(n.term, true)))
            == n.(votePass := n.votePass[n.term := n.votePass[n.term] + 1])
  {
    hide SwitchToLeader;
  }

  /** A candidate of term t that gets the deciding vote. */
  lemma Winning(cfg: Config, i: Addr, n0: Node, n: Node)
    requires n == n0.(status := Candidate, term := n0.term + 1, voteFor := n.voteFor, votePass := n.votePass)
    requires n.term in n.votePass && n.votePass[n.term] + 1 > |cfg.members| / 2
    ensures Wins(cfg, n, Some(VoteRes(n.term, true)))
    ensures Crowned(cfg, i, n0, VoteCallBack(cfg, i, n, Some(VoteRes(n.term, true))))
  {
    hide PingEntry, VoteCallBack;
    VoteBackCases(cfg, i, n, Some(VoteRes(n.term, true)));
    WinningResets(cfg, i, n);
  }

  lemma WinningResets(cfg: Config, i: Addr, n: Node)
    requires Wins(cfg, n, Some(VoteRes(n.term, true)))
    ensures var n' := VoteCallBack(cfg, i, n, Some(VoteRes(n.term, true)));
            && n'.lastLogTerm == n.term && (n.stale == [] ==> n'.stale == [])
              && (i !in n.matchIndex ==> i !in n'.matchIndex)
            && (forall p {:trigger n'.nextIndex[p]} {:trigger n'.matchIndex[p]} {:trigger p in cfg.members} ::
                 p in cfg.members && p != i && p !in n.replicating ==>
                   p in n'.nextIndex && n'.nextIndex[p] == |n.log| && p in n'.matchIndex && n'.matchIndex[p] == -1)
  {
  }

  /** A term no node has reached has no votes and no counts. */
  lemma NewTerm(cfg: Config, run: seq<Action>, i: Addr, t: int)
    requires WellFormed(cfg) && i in After(cfg, run).nodes && After(cfg, run).nodes[i].term < t
    ensures t !in After(cfg, run).nodes[i].voteFor && t !in After(cfg, run).nodes[i].votePass
  {
    var s := After(cfg, run);
    ElectionHolds(cfg, run);
    assert t in s.nodes[i].votePass ==> VotedFor(s, i, t, i);
    assert t in s.nodes[i].voteFor ==> VotedFor(s, i, t, s.nodes[i].voteFor[t]);
  }

  /** Node i stands. */
  lemma BecomesCandidate(cfg: Config, run: seq<Action>, s: State, i: Addr) returns (run': seq<Action>, s': State)
    requires WellFormed(cfg) && After(cfg, run) == s && i in s.nodes && Stands(s.nodes[i])
    requires s.nodes[i].status != Leader
    ensures var n := s.nodes[i]; var t := n.term + 1;
            && After(cfg, run') == s' && Calm(s, s')
            && s'.nodes == s.nodes[i := n.(status := Candidate, term := t, voteFor := n.voteFor[t := i],
                                           votePass := n.votePass[t := 1])]
            && VoteReq(t, i, |n.log| - 1, n.lastLogTerm) in s'.ballots
            && (forall p :: p in s.nodes && p != i ==> VoteCall(i, t, p) in s'.pending)
  {
    hide After, VoteLeader;
    NewTerm(cfg, run, i, s.nodes[i].term + 1);
    Standing(i, s.nodes[i]);
    run', s' := TimesOut(cfg, run, s, i);
  }

  /** Node v votes for i, and i gets to know. */
  lemma GetsVote(cfg: Config, run: seq<Action>, s: State, i: Addr, v: Addr, req: VoteReq)
    returns (run': seq<Action>, s': State)
    requires WellFormed(cfg) && After(cfg, run) == s && i in s.nodes && v in s.nodes && v != i
    requires req.candidate == i && s.nodes[i].term == req.term && req in s.ballots
    requires VoteCall(i, req.term, v) in s.pending
    requires s.nodes[v].status != Leader && s.nodes[v].term < req.term && !Behind(s.nodes[v], req)
    ensures var n := s.nodes[i]; var n' := VoteCallBack(cfg, i, n, Some(VoteRes(req.term, true)));
            && After(cfg, run') == s' && Keeps(s, s')
            && s'.nodes == s.nodes[v := Voted(s.nodes[v], i, req.term)][i := n']
            && s.pending - {VoteCall(i, req.term, v)} <= s'.pending
            && (if Wins(cfg, n, Some(VoteRes(req.term, true)))
                then req.term in s'.reigns && s'.reigns == s.reigns[req.term := s'.reigns[req.term]]
                     && s'.reigns[req.term].base == n.log && s'.reigns[req.term].log == n'.log
                else s'.reigns == s.reigns)
  {
    hide After, Vote, VoteCallBack, Behind, Wins;
    NewTerm(cfg, run, v, req.term);
    Voting(s.nodes[v], req);
    var run1, s1 := CastsVote(cfg, run, s, v, req);
    assert s1.nodes[i] == s.nodes[i];
    run', s' := CountsVote(cfg, run1, s1, VoteCall(i, req.term, v), VoteRes(req.term, true));
  }

  /** What both elections below say of the winner. */
  ghost predicate Elected(cfg: Config, s: State, s': State, i: Addr)
    requires i in s.nodes && i in s'.nodes
  {
    var t := s.nodes[i].term + 1;
    && Keeps(s, s') && Crowned(cfg, i, s.nodes[i], s'.nodes[i])
    && t in s'.reigns && s'.reigns == s.reigns[t := s'.reigns[t]]
    && s'.reigns[t].base == s.nodes[i].log && s'.reigns[t].log == s'.nodes[i].log
  }

  /** The ballot of a node that stands next. */
  function BallotNext(i: Addr, n: Node): VoteReq {
    VoteReq(n.term + 1, i, |n.log| - 1, n.lastLogTerm)
  }

  ghost predicate WouldVote(s: State, i: Addr, v: Addr) {
    && i in s.nodes && v in s.nodes && v != i && s.nodes[v].status != Leader && s.nodes[v].term <= s.nodes[i].term
    && !Behind(s.nodes[v], BallotNext(i, s.nodes[i]))
  }

  /** An election in a cluster of two or three: one vote decides. */
  lemma ElectsByOne(cfg: Config, run: seq<Action>, s: State, i: Addr, v: Addr) returns (run': seq<Action>, s': State)
    requires WellFormed(cfg) && |cfg.members| / 2 == 1 && After(cfg, run) == s
    requires i in s.nodes && Stands(s.nodes[i]) && s.nodes[i].status != Leader && WouldVote(s, i, v)
    ensures After(cfg, run') == s' && i in s'.nodes && Elected(cfg, s, s', i)
    ensures s'.nodes == s.nodes[v := Voted(s.nodes[v], i, s.nodes[i].term + 1)][i := s'.nodes[i]]
  {
    hide After, VoteCallBack, Behind, Crowned;
    var req := BallotNext(i, s.nodes[i]);
    var run1, s1 := BecomesCandidate(cfg, run, s, i);
    Winning(cfg, i, s.nodes[i], s1.nodes[i]);
    run', s' := GetsVote(cfg, run1, s1, i, v, req);
  }

  /** An election in a cluster of four or five: the second vote decides. */
  lemma ElectsByTwo(cfg: Config, run: seq<Action>, s: State, i: Addr, v: Addr, w: Addr)
    returns (run': seq<Action>, s': State)
    requires WellFormed(cfg) && |cfg.members| / 2 == 2 && After(cfg, run) == s
    requires i in s.nodes && Stands(s.nodes[i]) && s.nodes[i].status != Leader
    requires WouldVote(s, i, v) && WouldVote(s, i, w) && v != w
    ensures After(cfg, run') == s' && i in s'.nodes && Elected(cfg, s, s', i)
    ensures var t := s.nodes[i].term + 1;
            s'.nodes == s.nodes[v := Voted(s.nodes[v], i, t)][w := Voted(s.nodes[w], i, t)][i := s'.nodes[i]]
  {
    hide After, VoteCallBack, Behind, Crowned;
    var req := BallotNext(i, s.nodes[i]);
    var run1, s1 := BecomesCandidate(cfg, run, s, i);
    Counting(cfg, i, s1.nodes[i]);
    var run2, s2 := GetsVote(cfg, run1, s1, i, v, req);
    Winning(cfg, i, s.nodes[i], s2.nodes[i]);
    run', s' := GetsVote(cfg, run2, s2, i, w, req);
  }

  /** A follower with an empty log that has heard nothing since its vote. */
  ghost predicate Blank(n: Node, t: nat) {
    && n.status == Follower && n.term == t && n.heartbeats == 0 && n.log == [] && n.stale == [] && n.lastLogTerm == -1
    && n.commit == n.lastApplied == -1 && n.replicating == {}
  }

  lemma BlankVotes(n: Node, t: nat, i: Addr, m: Node, u: nat)
    requires Blank(n, t) && m.lastLogTerm >= -1
    ensures !Behind(n, BallotNext(i, m)) && n.status == Follower && n.term == t && Blank(Voted(n, i, u), u)
  {
  }

  /** A leader is made to step down by a peer that stands, and is elected again two terms on. */
  lemma Reelected(cfg: Config, run: seq<Action>, s: State, b: Addr, c: Addr) returns (run': seq<Action>, s': State)
    requires WellFormed(cfg) && |cfg.members| / 2 == 1 && After(cfg, run) == s && b in s.nodes && c in s.nodes && b != c
    requires var n := s.nodes[b];
             n.status == Leader && n.heartbeats == 0 && n.lastLogTerm >= -1 && Blank(s.nodes[c], n.term)
    ensures After(cfg, run') == s' && Keeps(s, s')
    ensures var n := s.nodes[b]; var t := n.term + 2; var n' := s'.nodes[b];
            && (forall p :: p in s.nodes && p != b && p != c ==> s'.nodes[p] == s.nodes[p])
            && Crowned(cfg, b, SwitchToFollower(n, n.term + 1), n') && Blank(s'.nodes[c], t)
            && t in s'.reigns && s'.reigns == s.reigns[t := s'.reigns[t]] && s'.reigns[t].log == n'.log
  {
    hide After, Crowned, WouldVote, Blank;
    BlankStands(s.nodes[c], s.nodes[b].term);
    var run1, s1 := GivesWay(cfg, run, s, b, c);
    StoodVotes(s1, b, c, s.nodes[b], s.nodes[c]);
    run', s' := ElectsByOne(cfg, run1, s1, b, c);
  }

  /** Node c stands, and leader b gets to know of its term. */
  lemma GivesWay(cfg: Config, run: seq<Action>, s: State, b: Addr, c: Addr) returns (run': seq<Action>, s': State)
    requires WellFormed(cfg) && After(cfg, run) == s && b in s.nodes && c in s.nodes && b != c
    requires s.nodes[b].status == Leader && s.nodes[b].term == s.nodes[c].term
    requires Stands(s.nodes[c]) && s.nodes[c].status != Leader
    ensures After(cfg, run') == s' && Calm(s, s')
    ensures forall p :: p in s.nodes && p != b && p != c ==> s'.nodes[p] == s.nodes[p]
    ensures s'.nodes[b] == SwitchToFollower(s.nodes[b], s.nodes[b].term + 1)
    ensures var n := s'.nodes[c];
            n == s.nodes[c].(status := Candidate, term := s.nodes[c].term + 1,
                             voteFor := n.voteFor, votePass := n.votePass)
  {
    hide After;
    var run1, s1 := BecomesCandidate(cfg, run, s, c);
    run', s' := StepsDown(cfg, run1, s1, b, c);
  }

  lemma StoodVotes(s: State, b: Addr, c: Addr, nb: Node, nc: Node)
    requires b in s.nodes && c in s.nodes && b != c && Blank(nc, nb.term) && nb.lastLogTerm >= -1 && nb.heartbeats == 0
    requires s.nodes[b] == SwitchToFollower(nb, nb.term + 1)
    requires var n := s.nodes[c];
             n == nc.(status := Candidate, term := nc.term + 1, voteFor := n.voteFor, votePass := n.votePass)
    ensures Stands(s.nodes[b]) && WouldVote(s, b, c) && Blank(Voted(s.nodes[c], b, nc.term + 2), nc.term + 2)
  {
  }

  lemma BlankStands(n: Node, t: nat)
    requires Blank(n, t)
    ensures Stands(n) && n.status == Follower && n.term == t
  {
  }
}
