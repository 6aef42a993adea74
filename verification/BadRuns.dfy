/**
 What the departures cost: concrete runs of the code that break log matching, state machine safety,
 the survival of commits, elections by the longer log and the meaning of a success answer. Each
 lemma names the repairs whose absence it needs and holds for every choice of the others, and for any
 members.
 */
module BadRuns {
  import opened Base
  import opened RaftNode
  import opened Cluster
  import opened ElectionSafety
  import opened CommitQuorum
  import opened Departures
  import opened Runs

  // ----- the handlers on these nodes -----

  function Success(t: nat): AppendRes {
    AppendRes(t, true, 0, false)
  }

  /** Without the alignment repair an accepted request is appended; here nothing is left over behind the log. */
  lemma Appends(r: Repairs, n: Node, req: AppendReq)
    requires !r.align && Judge(n, req) == Accepted && req.entries != [] && n.stale == []
    ensures var log := n.log + req.entries;
            AppendEntries(r, n, req)
            == (Follow(n, req).(log := log, lastLogTerm := LastTerm(req.entries),
                                commit := FollowerCommit(r, log, n.commit, req)),
                Success(req.term))
  {
  }

  /** An empty log takes the first entries as they are. */
  lemma TakesFirst(r: Repairs, n: Node, req: AppendReq)
    requires Judge(n, req) == Accepted && req.entries != [] && n.log == [] && req.prevIndex == -1
    ensures var (n', res) := AppendEntries(r, n, req);
            && n'.log == req.entries && n'.lastLogTerm == LastTerm(req.entries) && n'.heartbeats == n.heartbeats + 1
            && res == Success(req.term)
  {
    hide FollowerCommit;
    assert Agreeing(n.log, 0, req.entries) == 0 && req.entries[0..] == req.entries;
  }

  lemma RefusesBeyond(r: Repairs, n: Node, req: AppendReq)
    requires Judge(n, req) == Beyond
    ensures AppendEntries(r, n, req) == (Follow(n, req), AppendRes(req.term, false, |n.log|, false))
  {
  }

  /** A mismatch past the first entry cuts the log there. */
  lemma Cuts(r: Repairs, n: Node, req: AppendReq)
    requires Judge(n, req) == Mismatch && req.prevIndex > 0
    ensures AppendEntries(r, n, req)
            == (Follow(n, req).(log := n.log[..req.prevIndex], stale := n.log[req.prevIndex..] + n.stale,
                                lastLogTerm := n.log[req.prevIndex - 1].term),
                AppendRes(req.term, false, req.prevIndex, false))
  {
  }

  /** Without the commit repair a heartbeat sets the commit index, up or down. */
  lemma BeatCommits(r: Repairs, n: Node, req: AppendReq)
    requires !r.commit && n.term <= req.term && req.entries == []
    ensures AppendEntries(r, n, req).0 == Follow(n, req).(commit := Min(|n.log| - 1, req.leaderCommit))
  {
  }

  /** A refusal of the current term moves the next index back. */
  lemma BacksUp(cfg: Config, i: Addr, n: Node, f: Addr, req: AppendReq, res: AppendRes)
    requires n.status == Leader && req.term == n.term == res.term && !res.success && !res.busy
    ensures ReplicateReply(cfg, i, n, f, req, Some(res)) == BackUp(n, f, res.logLength)
  {
  }

  /** A success of entries that end with an older term moves the peer's indices and nothing else. */
  lemma MovesOn(cfg: Config, i: Addr, n: Node, f: Addr, req: AppendReq)
    requires n.status == Leader && req.term == n.term && MaxTerm(req.entries) != n.term
    ensures var last := req.prevIndex + |req.entries|;
            ReplicateReply(cfg, i, n, f, req, Some(Success(n.term)))
            == n.(nextIndex := n.nextIndex[f := last + 1], matchIndex := n.matchIndex[f := last])
  {
  }

  /** A success of entries that end with the leader's term, with enough peers there, commits them. */
  lemma Commits(cfg: Config, i: Addr, n: Node, f: Addr, req: AppendReq)
    requires n.status == Leader && req.term == n.term && MaxTerm(req.entries) == n.term
    requires var last := req.prevIndex + |req.entries|;
             last > n.commit && Matches(cfg.repairs, i, n.matchIndex[f := last], last, cfg.members) >= |cfg.members| / 2
    ensures var last := req.prevIndex + |req.entries|;
            ReplicateReply(cfg, i, n, f, req, Some(Success(n.term)))
            == n.(nextIndex := n.nextIndex[f := last + 1], matchIndex := n.matchIndex[f := last], commit := last)
  {
  }

  /** The counter is at least the number of peers known to match. */
  lemma CountsPeers(r: Repairs, i: Addr, match_: map<Addr, int>, index: int, ms: seq<Addr>, peers: set<Addr>)
    requires forall j, k :: 0 <= j < k < |ms| ==> ms[j] != ms[k]
    requires forall p :: p in peers ==> p in ms && p != i && p in match_ && match_[p] == index
    ensures Matches(r, i, match_, index, ms)
            >= |peers| + (if !r.self && i in ms && Lookup(match_, i) == index then 1 else 0)
  {
    hide Matches;
    SelfCounts(r, i, match_, index, ms);
    MatchesCounts(REPAIRED, i, match_, index, ms);
    SubsetSize(peers, Matching(i, match_, index, ms));
  }

  lemma MaxTermOne(e: Entry)
    requires e.term >= -1
    ensures MaxTerm([e]) == e.term
  {
    assert [e][..0] == [];
  }

  lemma MaxTermTwo(e: Entry, f: Entry)
    requires -1 <= e.term <= f.term
    ensures MaxTerm([e, f]) == f.term
  {
    MaxTermOne(e);
    assert [e, f][..1] == [e];
  }

  // ----- log matching without the alignment repair -----

  /**
   Node a is elected and sends its first entry to b; the reply is lost, so it sends the entry again,
   and b, not cutting its log, holds it twice. Then a writes a client's put. Both logs now hold an
   entry of term 1 at index 1, and not the same one.
   */
  lemma LogMatchingBreaks(cfg: Config, a: Addr, b: Addr, c: Addr) returns (run: seq<Action>)
    requires Three(cfg, a, b, c) && !cfg.repairs.align
    ensures var s := After(cfg, run);
            && a in s.nodes && b in s.nodes && |s.nodes[a].log| == |s.nodes[b].log| == 2
            && s.nodes[a].log[1].term == s.nodes[b].log[1].term == 1
            && s.nodes[a].log[1] != s.nodes[b].log[1]
  {
    hide After, AppendEntries, VoteCallBack;
    ThreeNodes(cfg, a, b, c);
    var s0 := Start(cfg);
    var run1, s1 := ElectsByOne(cfg, [], s0, a, b);
    FirstTwice(cfg, a, b, s1.nodes[a], s1.nodes[b]);
    var run2, s2 := AnswerLost(cfg, run1, s1, a, b, false);
    var run3, s3 := AnswerLost(cfg, run2, s2, a, b, true);
    var run4, s4 := Puts(cfg, run3, s3, a, [107], [118]);
    run := run4;
    assert s4.nodes[a].log == [PingEntry(1), Entry(PUT_OP, [107], [118], 1)];
  }

  lemma FirstTwice(cfg: Config, a: Addr, b: Addr, na: Node, nb: Node)
    requires !cfg.repairs.align && a != b && b in cfg.members
    requires Crowned(cfg, a, FRESH, na) && nb == Voted(FRESH, a, 1)
    ensures CanReplicate(na, b)
    ensures BuildAppend(a, na, b, false) == BuildAppend(a, na, b, true) == AppendReq(1, a, -1, -1, -1, [PingEntry(1)])
    ensures var req := AppendReq(1, a, -1, -1, -1, [PingEntry(1)]);
            var nb1 := AppendEntries(cfg.repairs, nb, req).0;
            AppendEntries(cfg.repairs, nb1, req).0.log == [PingEntry(1), PingEntry(1)]
  {
    assert na.log == [PingEntry(1)] && na.log[0..1] == na.log;
    var req := AppendReq(1, a, -1, -1, -1, [PingEntry(1)]);
    var nb1 := AppendEntries(cfg.repairs, nb, req).0;
    assert Judge(nb, req) == Accepted;
    assert nb1.log == [PingEntry(1)] && Judge(nb1, req) == Accepted;
  }

  // ----- state machine safety without the commit repair -----

  /**
   Node a leads term 1 with an entry no one else holds; node c leads term 2, has its own first entry
   accepted by b and commits it. Its heartbeat makes a commit, and apply, the entry of term 1.
   */
  lemma StateMachineSafetyBreaks(cfg: Config, a: Addr, b: Addr, c: Addr) returns (run: seq<Action>)
    requires Three(cfg, a, b, c) && !cfg.repairs.commit
    ensures var s := After(cfg, run);
            && a in s.nodes && c in s.nodes && |s.nodes[a].applied| == |s.nodes[c].applied| == 1
            && s.nodes[a].applied[0] != s.nodes[c].applied[0]
  {
    hide After, AppendEntries, VoteCallBack, ReplicateReply, BuildAppend;
    hide ApplyBegin, ApplyEntry, CanApply, CanReplicate;
    var run1, s1 := BothLead(cfg, a, b, c);
    CommitsFirst(cfg, c, b, s1.nodes[c], s1.nodes[b]);
    var run2, s2 := Round(cfg, run1, s1, c, b, false);
    BlindlyCommits(cfg, a, c, s2.nodes[a], s2.nodes[c]);
    var run3, s3 := BeatArrives(cfg, run2, s2, c, a);
    AppliesFirst(s3.nodes[a], PingEntry(1));
    var run4, s4 := BeginsPass(cfg, run3, s3, a);
    var run5, s5 := StoresEntry(cfg, run4, s4, a);
    AppliesFirst(s5.nodes[c], PingEntry(2));
    var run6, s6 := BeginsPass(cfg, run5, s5, c);
    var run7, s7 := StoresEntry(cfg, run6, s6, c);
    run := run7;
  }

  /** A leader of term t with nothing but its own Ping, which has applied nothing. */
  ghost predicate FirstLeader(n: Node, t: nat) {
    && n.status == Leader && n.term == t && n.log == [PingEntry(t)] && n.stale == [] && n.lastLogTerm == t
    && n.heartbeats == 0 && n.replicating == {} && Untouched(n)
  }

  ghost predicate Untouched(n: Node) {
    n.commit == n.applyEnd == n.lastApplied == -1 && !n.inHand && n.applied == []
  }

  /** A peer the leader counts as holding nothing and sends its first entry next. */
  ghost predicate Unheard(n: Node, f: Addr) {
    f in n.nextIndex && n.nextIndex[f] == 0 && f in n.matchIndex && n.matchIndex[f] == -1
  }

  /** Node a leads term 1, c leads term 2, and b has voted for both. */
  lemma BothLead(cfg: Config, a: Addr, b: Addr, c: Addr) returns (run: seq<Action>, s: State)
    requires Three(cfg, a, b, c)
    ensures After(cfg, run) == s && s.nodes.Keys == {a, b, c}
    ensures FirstLeader(s.nodes[a], 1) && FirstLeader(s.nodes[c], 2) && Blank(s.nodes[b], 2)
    ensures Unheard(s.nodes[c], b) && c !in s.nodes[c].matchIndex && |cfg.members| / 2 == 1 && WellFormed(cfg)
  {
    hide After, VoteCallBack, Behind;
    ThreeNodes(cfg, a, b, c);
    var s0 := Start(cfg);
    BlankVotes(FRESH, 0, a, FRESH, 1);
    var run1, s1 := ElectsByOne(cfg, [], s0, a, b);
    var run2, s2 := BecomesCandidate(cfg, run1, s1, c);
    BlankVotes(s2.nodes[b], 1, c, s2.nodes[c], 2);
    run, s := ElectsByOne(cfg, run2, s2, c, b);
  }

  /** A first leader sends its entry to a blank peer, and commits it when that peer decides. */
  lemma CommitsFirst(cfg: Config, i: Addr, f: Addr, n: Node, nf: Node)
    requires WellFormed(cfg) && i in cfg.members && f in cfg.members && i != f
    requires FirstLeader(n, n.term) && Unheard(n, f) && i !in n.matchIndex && Blank(nf, nf.term) && nf.term <= n.term
    requires |cfg.members| / 2 <= (if cfg.repairs.self then 1 else 2)
    ensures CanReplicate(n, f)
    ensures var req := BuildAppend(i, n, f, false); var (nf', res) := AppendEntries(cfg.repairs, nf, req);
            var n' := ReplicateReply(cfg, i, n, f, req, Some(res));
            && n' == n.(nextIndex := n'.nextIndex, matchIndex := n'.matchIndex, commit := 0)
  {
    hide AppendEntries, ReplicateReply;
    assert n.log[0..1] == n.log;
    var req := BuildAppend(i, n, f, false);
    assert req == AppendReq(n.term, i, -1, -1, -1, [PingEntry(n.term)]);
    TakesFirst(cfg.repairs, nf, req);
    MaxTermOne(PingEntry(n.term));
    CountsPeers(cfg.repairs, i, n.matchIndex[f := 0], 0, cfg.members, {f});
    Commits(cfg, i, n, f, req);
  }

  /** A heartbeat of term 2 makes node a commit the entry it wrote itself in term 1. */
  lemma BlindlyCommits(cfg: Config, a: Addr, c: Addr, na: Node, nc: Node)
    requires !cfg.repairs.commit && FirstLeader(na, 1) && nc.term == 2 && nc.commit == 0
    ensures CommitsAtZero(AppendEntries(cfg.repairs, na, HeartBeat(c, nc)).0, PingEntry(1))
  {
    hide AppendEntries;
    BeatCommits(cfg.repairs, na, HeartBeat(c, nc));
  }

  ghost predicate CommitsAtZero(n: Node, e: Entry) {
    n.log == [e] && n.commit == 0 && n.applyEnd == n.lastApplied == -1 && !n.inHand && n.applied == []
  }

  lemma AppliesFirst(n: Node, e: Entry)
    requires CommitsAtZero(n, e)
    ensures CanApply(ApplyBegin(n)) && ApplyEntry(ApplyBegin(n)).applied == [e]
  {
    assert (n.log + n.stale)[0] == e;
  }

  // ----- commits that do not survive: the self-count -----

  /**
   Five nodes: a, elected by b and c, commits its first entry with b alone behind it, its own unset
   match index counted as the second. Then c, which never got the entry, is elected by d and e.
   */
  lemma SelfCountLosesCommit(cfg: Config, a: Addr, b: Addr, c: Addr, d: Addr, e: Addr) returns (run: seq<Action>)
    requires Five(cfg, a, b, c, d, e) && !cfg.repairs.self
    ensures var s := After(cfg, run);
            && Commit(1, 0) in s.commits && 1 in s.reigns && 2 in s.reigns
            && 0 < |s.reigns[1].log| && !(s.reigns[1].log[..1] <= s.reigns[2].log)
  {
    hide After, AppendEntries, ReplicateReply, BuildAppend, CanReplicate, Unheard;
    FiveNodes(cfg, a, b, c, d, e);
    var run1, s1 := FirstReign(cfg, a, b, c, d, e);
    CommitsFirst(cfg, a, b, s1.nodes[a], s1.nodes[b]);
    var run2, s2 := Round(cfg, run1, s1, a, b, false);
    run := SecondReign(cfg, c, d, e, run2, s2);
    var s := After(cfg, run);
    assert s.reigns[1].log[..1][0] != s.reigns[2].log[0];
  }

  /** Node a is elected in term 1 by b and c. */
  lemma FirstReign(cfg: Config, a: Addr, b: Addr, c: Addr, d: Addr, e: Addr) returns (run: seq<Action>, s: State)
    requires Five(cfg, a, b, c, d, e)
    ensures After(cfg, run) == s && s.nodes.Keys == {a, b, c, d, e}
    ensures FirstLeader(s.nodes[a], 1) && Unheard(s.nodes[a], b) && a !in s.nodes[a].matchIndex
    ensures Blank(s.nodes[b], 1) && Blank(s.nodes[c], 1) && s.nodes[d] == s.nodes[e] == FRESH
    ensures 1 in s.reigns && s.reigns[1].log == [PingEntry(1)]
  {
    hide After, VoteCallBack, Behind, WouldVote, Blank;
    FiveNodes(cfg, a, b, c, d, e);
    var s0 := Start(cfg);
    FreshVotes(s0, a, b);
    FreshVotes(s0, a, c);
    run, s := ElectsByTwo(cfg, [], s0, a, b, c);
    FirstHears(cfg, a, b, s.nodes[a]);
  }

  lemma FreshVotes(s: State, i: Addr, v: Addr)
    requires i in s.nodes && v in s.nodes && i != v && s.nodes[i] == s.nodes[v] == FRESH
    ensures Stands(FRESH) && WouldVote(s, i, v) && Blank(Voted(FRESH, i, 1), 1) && Blank(FRESH, 0)
  {
  }

  lemma FirstHears(cfg: Config, i: Addr, f: Addr, n: Node)
    requires Crowned(cfg, i, FRESH, n) && f in cfg.members && f != i
    ensures FirstLeader(n, 1) && Unheard(n, f) && i !in n.matchIndex
  {
  }

  /** Node c, which voted in term 1 and holds nothing, is elected in term 2. */
  lemma SecondReign(cfg: Config, c: Addr, d: Addr, e: Addr, run: seq<Action>, s: State) returns (run': seq<Action>)
    requires WellFormed(cfg) && |cfg.members| / 2 == 2 && After(cfg, run) == s && c in s.nodes && d in s.nodes
    requires e in s.nodes
    requires c != d && c != e && d != e && Blank(s.nodes[c], 1) && s.nodes[d] == s.nodes[e] == FRESH
    requires 1 in s.reigns
    ensures var s' := After(cfg, run');
            && s.commits <= s'.commits && 1 in s'.reigns && s'.reigns[1] == s.reigns[1]
            && 2 in s'.reigns && s'.reigns[2].log == [PingEntry(2)]
  {
    hide After, Behind;
    BlankVotes(FRESH, 0, c, s.nodes[c], 2);
    var s': State;
    run', s' := ElectsByTwo(cfg, run, s, c, d, e);
  }

  // ----- commits that do not survive: old replies -----

  const PUT1 := Entry(PUT_OP, [107], [118], 1)

  /** The request with both entries of term 1. */
  function Old(a: Addr): AppendReq {
    AppendReq(1, a, -1, -1, -1, [PingEntry(1), PUT1])
  }

  /** The answer to it is still on its way from b. */
  ghost predicate OldPending(s: State, a: Addr, b: Addr) {
    AppendMsg(b, Old(a)) in s.appends && AppendReply(b, Old(a), Success(1)) in s.appendReplies
  }

  /**
   Five nodes: a, leader of term 1, sends its entry and a put to b, and b's answer is slow. Leader c
   of terms 2 and 4 empties a's log and sends it its first entry. Elected again in term 5, a gets the
   old answer and counts b as holding index 1; with d behind it, it commits that index. Then c is
   elected by b and e.
   */
  lemma OldReplyLosesCommit(cfg: Config, a: Addr, b: Addr, c: Addr, d: Addr, e: Addr) returns (run: seq<Action>)
    requires Five(cfg, a, b, c, d, e) && !cfg.repairs.replies
    ensures var s := After(cfg, run);
            && Commit(5, 1) in s.commits && 5 in s.reigns && 6 in s.reigns
            && 1 < |s.reigns[5].log| && !(s.reigns[5].log[..2] <= s.reigns[6].log)
  {
    hide After, SentTwo, HoldsOld, Blank, Replaced, LeadsTwice, OldPending, NextIs;
    FiveNodes(cfg, a, b, c, d, e);
    var run1, s1 := SendsOld(cfg, a, b, c, d, e);
    var run2, s2 := LeadsAgain(cfg, a, b, c, d, e, run1, s1);
    var run3, s3 := ReplacesOld(cfg, a, b, c, run2, s2);
    var run4, s4 := ElectedAgain(cfg, a, b, c, d, e, run3, s3);
    var run5, s5 := OldReplyCounts(cfg, a, b, d, run4, s4);
    run := LastReign(cfg, a, b, c, e, run5, s5);
    var s := After(cfg, run);
    assert s.reigns[5].log[1] != s.reigns[6].log[1];
  }

  ghost predicate SentTwo(n: Node, a: Addr, b: Addr) {
    && n.status == Leader && n.term == 1 && n.log == [PingEntry(1), PUT1] && n.stale == [] && n.heartbeats == 0
    && n.commit == n.lastApplied == -1 && a !in n.matchIndex && n.replicating == {b}
  }

  /** Node b: its last term is 1. */
  ghost predicate HoldsOld(n: Node) {
    n.status == Follower && n.term == 1 && n.lastLogTerm == 1
  }

  lemma SendsOld(cfg: Config, a: Addr, b: Addr, c: Addr, d: Addr, e: Addr) returns (run: seq<Action>, s: State)
    requires Five(cfg, a, b, c, d, e)
    ensures After(cfg, run) == s && s.nodes.Keys == {a, b, c, d, e} && OldPending(s, a, b)
    ensures SentTwo(s.nodes[a], a, b) && HoldsOld(s.nodes[b]) && Blank(s.nodes[c], 1)
    ensures Blank(s.nodes[d], 0) && Blank(s.nodes[e], 0)
  {
    hide After, AppendEntries, VoteCallBack, BuildAppend, CanReplicate, ClientWrite, SentTwo, HoldsOld, FirstLeader;
    FiveNodes(cfg, a, b, c, d, e);
    var run1, s1 := FirstReign(cfg, a, b, c, d, e);
    var run2, s2 := RunsThread(cfg, run1, s1, a, b);
    var run3, s3 := Puts(cfg, run2, s2, a, [107], [118]);
    WritesTwo(cfg, a, b, s1.nodes[a], s3.nodes[a], s3.nodes[b]);
    run, s := Arrives(cfg, run3, s3, a, b, false);
  }

  lemma WritesTwo(cfg: Config, a: Addr, b: Addr, na1: Node, na: Node, nb: Node)
    requires a != b && FirstLeader(na1, 1) && Unheard(na1, b) && a !in na1.matchIndex && Blank(nb, 1)
    requires na == ClientWrite(na1.(replicating := na1.replicating + {b}), PutReq, [107], [118])
    ensures CanReplicate(na, b) && BuildAppend(a, na, b, false) == Old(a) && SentTwo(na, a, b)
    ensures HoldsOld(AppendEntries(cfg.repairs, nb, Old(a)).0) && AppendEntries(cfg.repairs, nb, Old(a)).1 == Success(1)
  {
    hide AppendEntries;
    assert na.log == [PingEntry(1)] + [PUT1] == [PingEntry(1), PUT1];
    assert na.log[0..2] == na.log;
    TakesFirst(cfg.repairs, nb, Old(a));
    AppendCases(cfg.repairs, nb, Old(a));
  }

  /** Node c: leader of term 4, with its entries of terms 2 and 4. */
  ghost predicate LeadsTwice(n: Node) {
    && n.status == Leader && n.term == 4 && n.log == [PingEntry(2), PingEntry(4)] && n.lastLogTerm == 4
    && n.heartbeats == 0 && n.replicating == {} && n.commit == -1
  }

  ghost predicate NextIs(n: Node, f: Addr, next: int) {
    f in n.nextIndex && n.nextIndex[f] == next
  }

  /** Node c is elected in term 2, steps down before d's term 3 and is elected in term 4. */
  lemma LeadsAgain(cfg: Config, a: Addr, b: Addr, c: Addr, d: Addr, e: Addr, run: seq<Action>, s: State)
    returns (run': seq<Action>, s': State)
    requires Five(cfg, a, b, c, d, e) && After(cfg, run) == s && s.nodes.Keys == {a, b, c, d, e} && OldPending(s, a, b)
    requires Blank(s.nodes[c], 1) && Blank(s.nodes[d], 0) && Blank(s.nodes[e], 0)
    ensures After(cfg, run') == s' && s'.nodes.Keys == {a, b, c, d, e} && OldPending(s', a, b)
    ensures s'.nodes[a] == s.nodes[a] && s'.nodes[b] == s.nodes[b] && LeadsTwice(s'.nodes[c])
    ensures NextIs(s'.nodes[c], a, 1) && Blank(s'.nodes[d], 4) && Blank(s'.nodes[e], 4)
  {
    hide After, VoteCallBack, WouldVote, Crowned, Blank, LeadsSecond, LeadsTwice, NextIs;
    FiveNodes(cfg, a, b, c, d, e);
    BlankElects(s, c, d, 1, 0);
    BlankElects(s, c, e, 1, 0);
    var run1, s1 := ElectsByTwo(cfg, run, s, c, d, e);
    CrownsSecond(cfg, c, s.nodes[c], s1.nodes[c]);
    BlankStands(s1.nodes[d], 2);
    var run2, s2 := GivesWay(cfg, run1, s1, c, d);
    StoodElects(s2, c, d, s1.nodes[c], s1.nodes[d]);
    StayedElects(s2, c, e, s1.nodes[c]);
    run', s' := ElectsByTwo(cfg, run2, s2, c, d, e);
    CrownsFourth(cfg, c, a, s1.nodes[c], s2.nodes[c], s'.nodes[c]);
  }

  ghost predicate LeadsSecond(n: Node) {
    && n.status == Leader && n.term == 2 && n.log == [PingEntry(2)] && n.lastLogTerm == 2 && n.heartbeats == 0
    && n.replicating == {} && n.commit == -1
  }

  lemma BlankElects(s: State, i: Addr, v: Addr, t: nat, u: nat)
    requires i in s.nodes && v in s.nodes && i != v && Blank(s.nodes[i], t) && Blank(s.nodes[v], u) && u <= t
    ensures WouldVote(s, i, v) && Blank(Voted(s.nodes[v], i, t + 1), t + 1)
    ensures s.nodes[i].term == t && s.nodes[i].status != Leader && Stands(s.nodes[i])
  {
  }

  lemma CrownsSecond(cfg: Config, c: Addr, n0: Node, n: Node)
    requires Blank(n0, 1) && Crowned(cfg, c, n0, n)
    ensures LeadsSecond(n) && n.status == Leader && n.term == 2
  {
  }

  lemma StoodElects(s: State, c: Addr, d: Addr, nc: Node, nd: Node)
    requires c in s.nodes && d in s.nodes && c != d && LeadsSecond(nc) && Blank(nd, 2)
    requires s.nodes[c] == SwitchToFollower(nc, 3)
    requires var n := s.nodes[d];
             n == nd.(status := Candidate, term := 3, voteFor := n.voteFor, votePass := n.votePass)
    ensures WouldVote(s, c, d) && Blank(Voted(s.nodes[d], c, 4), 4)
    ensures Stands(s.nodes[c]) && s.nodes[c].status != Leader && s.nodes[c].term == 3
  {
  }

  lemma StayedElects(s: State, c: Addr, e: Addr, nc: Node)
    requires c in s.nodes && e in s.nodes && c != e && LeadsSecond(nc) && Blank(s.nodes[e], 2)
    requires s.nodes[c] == SwitchToFollower(nc, 3)
    ensures WouldVote(s, c, e) && Blank(Voted(s.nodes[e], c, 4), 4)
  {
  }

  lemma CrownsFourth(cfg: Config, c: Addr, a: Addr, n0: Node, n1: Node, n: Node)
    requires LeadsSecond(n0) && n1 == SwitchToFollower(n0, 3) && Crowned(cfg, c, n1, n) && a in cfg.members && a != c
    ensures LeadsTwice(n) && NextIs(n, a, 1)
  {
    assert n.log == [PingEntry(2)] + [PingEntry(4)];
  }

  /** Node a, once c's first entry is all it holds. */
  ghost predicate Replaced(n: Node, a: Addr, b: Addr) {
    && n.status == Follower && n.term == 4 && n.log == [PingEntry(2)] && n.lastLogTerm == 2 && n.heartbeats > 0
    && n.commit == n.lastApplied == -1 && a !in n.matchIndex && n.replicating == {b}
  }

  /** The probe of index 0 cuts all of a's log; after a failed call a takes c's first entry. */
  lemma ReplacesOld(cfg: Config, a: Addr, b: Addr, c: Addr, run: seq<Action>, s: State)
    returns (run': seq<Action>, s': State)
    requires After(cfg, run) == s && {a, b, c} <= s.nodes.Keys && a != c && b != c && a != b && OldPending(s, a, b)
    requires SentTwo(s.nodes[a], a, b) && LeadsTwice(s.nodes[c]) && NextIs(s.nodes[c], a, 1)
    ensures After(cfg, run') == s' && s'.nodes.Keys == s.nodes.Keys && OldPending(s', a, b)
    ensures Replaced(s'.nodes[a], a, b) && LeadsTwice(s'.nodes[c])
    ensures forall p :: p in s.nodes && p != a && p != c ==> s'.nodes[p] == s.nodes[p]
  {
    hide After, AppendEntries, ReplicateReply, BuildAppend, CanReplicate, SentTwo, LeadsTwice, NextIs, CutAll, Replaced;
    CutsAll(cfg, a, b, c, s.nodes[c], s.nodes[a]);
    var run1, s1 := Round(cfg, run, s, c, a, false);
    Replaces(cfg, a, b, c, s1.nodes[c], s1.nodes[a]);
    var run2, s2 := CallFails(cfg, run1, s1, c, a, false);
    run', s' := AnswerLost(cfg, run2, s2, c, a, true);
  }

  ghost predicate CutAll(n: Node, a: Addr, b: Addr) {
    && n.status == Follower && n.term == 4 && n.log == [] && n.heartbeats > 0
    && n.commit == n.lastApplied == -1 && a !in n.matchIndex && n.replicating == {b}
  }

  lemma CutsAll(cfg: Config, a: Addr, b: Addr, c: Addr, nc: Node, na: Node)
    requires LeadsTwice(nc) && NextIs(nc, a, 1) && SentTwo(na, a, b)
    ensures CanReplicate(nc, a)
    ensures var req := BuildAppend(c, nc, a, false); var (na', res) := AppendEntries(cfg.repairs, na, req);
            var nc' := ReplicateReply(cfg, c, nc, a, req, Some(res));
            CutAll(na', a, b) && LeadsTwice(nc') && NextIs(nc', a, 0)
  {
    hide ReplicateReply;
    var req := BuildAppend(c, nc, a, false);
    assert nc.log[1..2] == [PingEntry(4)];
    assert Judge(na, req) == Mismatch;
    BacksUp(cfg, c, nc, a, req, AppendEntries(cfg.repairs, na, req).1);
  }

  lemma Replaces(cfg: Config, a: Addr, b: Addr, c: Addr, nc: Node, na: Node)
    requires LeadsTwice(nc) && NextIs(nc, a, 0) && CutAll(na, a, b)
    ensures CanReplicate(nc, a) && Replaced(AppendEntries(cfg.repairs, na, BuildAppend(c, nc, a, true)).0, a, b)
  {
    hide AppendEntries;
    assert nc.log[0..1] == [PingEntry(2)];
    var req := BuildAppend(c, nc, a, true);
    assert req == AppendReq(4, c, -1, -1, -1, [PingEntry(2)]);
    TakesFirst(cfg.repairs, na, req);
    AppendCases(cfg.repairs, na, req);
  }

  /** Node a: elected in term 5 over c's entry, and where it takes d to be. */
  ghost predicate LeadsThird(n: Node, d: Addr, next: int) {
    && n.status == Leader && n.term == 5 && n.log == [PingEntry(2), PingEntry(5)] && n.commit == -1
    && d in n.nextIndex && n.nextIndex[d] == next
  }

  /** It takes b to hold index 1. */
  ghost predicate CountsOld(n: Node, b: Addr) {
    b in n.matchIndex && n.matchIndex[b] == 1
  }

  ghost predicate HoldsNothing(n: Node, t: nat) {
    n.term == t && n.log == [] && n.stale == [] && n.commit == n.lastApplied == -1
  }

  lemma ElectedAgain(cfg: Config, a: Addr, b: Addr, c: Addr, d: Addr, e: Addr, run: seq<Action>, s: State)
    returns (run': seq<Action>, s': State)
    requires Five(cfg, a, b, c, d, e) && After(cfg, run) == s && s.nodes.Keys == {a, b, c, d, e} && OldPending(s, a, b)
    requires Replaced(s.nodes[a], a, b) && Blank(s.nodes[d], 4) && Blank(s.nodes[e], 4)
    ensures After(cfg, run') == s' && s'.nodes.Keys == {a, b, c, d, e} && OldPending(s', a, b)
    ensures LeadsThird(s'.nodes[a], d, 1) && s'.nodes[b] == s.nodes[b] && s'.nodes[c] == s.nodes[c]
    ensures Blank(s'.nodes[d], 5) && Blank(s'.nodes[e], 5)
    ensures 5 in s'.reigns && s'.reigns[5].log == [PingEntry(2), PingEntry(5)]
  {
    hide After, VoteCallBack, VoteLeader, WouldVote, Blank, Replaced, Rested, Crowned;
    FiveNodes(cfg, a, b, c, d, e);
    Rests(a, b, s.nodes[a]);
    var run1, s1 := TimesOut(cfg, run, s, a);
    RestedGets(s1, a, b, d);
    RestedGets(s1, a, b, e);
    run', s' := ElectsByTwo(cfg, run1, s1, a, d, e);
    ThirdLeads(cfg, a, b, d, s1.nodes[a], s'.nodes[a]);
  }

  ghost predicate Rested(n: Node, b: Addr) {
    && n.status == Follower && n.term == 4 && n.log == [PingEntry(2)] && n.lastLogTerm == 2 && n.heartbeats == 0
    && n.commit == -1 && n.replicating == {b}
  }

  lemma Rests(a: Addr, b: Addr, n: Node)
    requires Replaced(n, a, b)
    ensures VoteLeader(a, n) == n.(heartbeats := 0) && Rested(n.(heartbeats := 0), b)
  {
  }

  lemma RestedGets(s: State, a: Addr, b: Addr, v: Addr)
    requires a in s.nodes && v in s.nodes && a != v && Rested(s.nodes[a], b) && Blank(s.nodes[v], 4)
    ensures s.nodes[a].term == 4 && s.nodes[a].status != Leader && Stands(s.nodes[a])
    ensures WouldVote(s, a, v) && Blank(Voted(s.nodes[v], a, 5), 5)
  {
  }

  lemma ThirdLeads(cfg: Config, a: Addr, b: Addr, d: Addr, n0: Node, n: Node)
    requires Rested(n0, b) && Crowned(cfg, a, n0, n) && d in cfg.members && d != a && d != b
    ensures LeadsThird(n, d, 1)
  {
  }

  lemma OldReplyCounts(cfg: Config, a: Addr, b: Addr, d: Addr, run: seq<Action>, s: State)
    returns (run': seq<Action>, s': State)
    requires WellFormed(cfg) && |cfg.members| / 2 == 2 && {a, b, d} <= Members(cfg) && a != b && a != d && b != d
    requires !cfg.repairs.replies && After(cfg, run) == s && {a, b, d} <= s.nodes.Keys && OldPending(s, a, b)
    requires LeadsThird(s.nodes[a], d, 1) && Blank(s.nodes[d], 5)
    ensures After(cfg, run') == s' && Commit(5, 1) in s'.commits && s'.reigns == s.reigns
    ensures s'.nodes.Keys == s.nodes.Keys
    ensures s'.nodes == s.nodes[a := s'.nodes[a]][d := s'.nodes[d]] && s'.nodes[a].term == 5
  {
    hide After, AppendEntries, ReplicateReply, BuildAppend, CanReplicate, LeadsThird, CountsOld, HoldsNothing;
    OldMoves(cfg, a, b, d, s.nodes[a]);
    var run1, s1 := Returns(cfg, run, s, b, Old(a), Some(Success(1)));
    DeniesNothing(s1.nodes[d], 5);
    FirstProbe(cfg, a, b, d, s1.nodes[a], s1.nodes[d]);
    var run2, s2 := Round(cfg, run1, s1, a, d, false);
    SecondProbe(cfg, a, b, d, s2.nodes[a], s2.nodes[d]);
    run', s' := Round(cfg, run2, s2, a, d, false);
  }

  lemma DeniesNothing(n: Node, t: nat)
    requires Blank(n, t)
    ensures HoldsNothing(n, t)
  {
  }

  /** The old answer moves b's indices of the new leadership. */
  lemma OldMoves(cfg: Config, a: Addr, b: Addr, d: Addr, n: Node)
    requires !cfg.repairs.replies && LeadsThird(n, d, 1) && b != d
    ensures var n' := ReplicateReply(cfg, a, n, b, Old(a), Some(Success(1)));
            LeadsThird(n', d, 1) && CountsOld(n', b)
  {
    MaxTermTwo(PingEntry(1), PUT1);
  }

  lemma FirstProbe(cfg: Config, a: Addr, b: Addr, d: Addr, na: Node, nd: Node)
    requires LeadsThird(na, d, 1) && CountsOld(na, b) && HoldsNothing(nd, 5)
    ensures CanReplicate(na, d)
    ensures var req := BuildAppend(a, na, d, false); var (nd', res) := AppendEntries(cfg.repairs, nd, req);
            var na' := ReplicateReply(cfg, a, na, d, req, Some(res));
            HoldsNothing(nd', 5) && LeadsThird(na', d, 0) && CountsOld(na', b)
  {
    hide AppendEntries, ReplicateReply;
    var req := BuildAppend(a, na, d, false);
    assert na.log[1..2] == [PingEntry(5)];
    RefusesBeyond(cfg.repairs, nd, req);
    BacksUp(cfg, a, na, d, req, AppendEntries(cfg.repairs, nd, req).1);
  }

  lemma SecondProbe(cfg: Config, a: Addr, b: Addr, d: Addr, na: Node, nd: Node)
    requires WellFormed(cfg) && |cfg.members| / 2 == 2 && {a, b, d} <= Members(cfg) && a != b && a != d && b != d
    requires LeadsThird(na, d, 0) && CountsOld(na, b) && HoldsNothing(nd, 5)
    ensures CanReplicate(na, d)
    ensures var req := BuildAppend(a, na, d, false); var (nd', res) := AppendEntries(cfg.repairs, nd, req);
            var na' := ReplicateReply(cfg, a, na, d, req, Some(res));
            na'.commit == 1 && na.commit == -1 && na.term == na'.term == 5
  {
    hide AppendEntries, ReplicateReply;
    var req := BuildAppend(a, na, d, false);
    assert na.log[0..2] == na.log;
    TakesFirst(cfg.repairs, nd, req);
    MaxTermTwo(PingEntry(2), PingEntry(5));
    assert |{b, d}| == 2 && b in Members(cfg) && d in Members(cfg);
    CountsPeers(cfg.repairs, a, na.matchIndex[d := 1], 1, cfg.members, {b, d});
    Commits(cfg, a, na, d, req);
  }

  /** Node c, made to step down by a, is elected by b and e, neither of which has a's entries. */
  lemma LastReign(cfg: Config, a: Addr, b: Addr, c: Addr, e: Addr, run: seq<Action>, s: State)
    returns (run': seq<Action>)
    requires WellFormed(cfg) && |cfg.members| / 2 == 2 && After(cfg, run) == s && {a, b, c, e} <= s.nodes.Keys
    requires a != c && b != c && b != e && c != e && a != b && a != e
    requires s.nodes[a].term == 5 && HoldsOld(s.nodes[b]) && LeadsTwice(s.nodes[c]) && Blank(s.nodes[e], 5)
    ensures var s' := After(cfg, run');
            && s.commits <= s'.commits && s.reigns.Keys <= s'.reigns.Keys
            && (forall t :: t in s.reigns && t != 6 ==> s'.reigns[t] == s.reigns[t])
            && 6 in s'.reigns && s'.reigns[6].log == [PingEntry(2), PingEntry(4), PingEntry(6)]
  {
    hide After;
    var run1, s1 := StepsDown(cfg, run, s, c, a);
    var s': State;
    run', s' := ElectsByTwo(cfg, run1, s1, c, b, e);
    assert s'.reigns[6].log == [PingEntry(2), PingEntry(4)] + [PingEntry(6)];
  }

  // ----- entries held twice -----

  /** Leader of term t, and where it takes f to be. */
  ghost predicate Leads(n: Node, t: nat, log: seq<Entry>, f: Addr, next: int) {
    && n.status == Leader && n.term == t && n.log == log && n.lastLogTerm == t && n.heartbeats == 0
    && n.replicating == {} && f in n.nextIndex && n.nextIndex[f] == next
  }

  /** Follower of term t that has just heard of its leader. */
  ghost predicate Hears(n: Node, t: nat, log: seq<Entry>, commit: int) {
    && n.status == Follower && n.term == t && n.heartbeats > 0 && n.log == log && n.lastLogTerm >= -1
    && n.replicating == {} && n.commit == commit
  }

  /** Where its apply loop is; no request waits or has been answered. */
  ghost predicate Applying(n: Node, end: int, last: int, inHand: bool, applied: seq<Entry>) {
    && n.applyEnd == end && n.lastApplied == last && n.inHand == inHand && n.applied == applied
    && n.acks == map[] && n.acked == {}
  }

  ghost predicate Fed(n: Node, t: nat, log: seq<Entry>) {
    Hears(n, t, log, -1) && Applying(n, -1, -1, false, []) && n.stale == []
  }

  /** Node b is elected in term 1. */
  lemma LeadsAlone(cfg: Config, a: Addr, b: Addr, c: Addr) returns (run: seq<Action>, s: State)
    requires Three(cfg, a, b, c)
    ensures After(cfg, run) == s && s.nodes.Keys == {a, b, c} && s.nodes[a] == FRESH && Blank(s.nodes[c], 1)
    ensures Leads(s.nodes[b], 1, [PingEntry(1)], a, 0) && s.nodes[b].commit == -1
  {
    hide After, WouldVote, Blank, Leads, Crowned;
    ThreeNodes(cfg, a, b, c);
    var s0 := Start(cfg);
    FreshVotes(s0, b, c);
    run, s := ElectsByOne(cfg, [], s0, b, c);
    CrownedAlone(cfg, b, a, s.nodes[b]);
  }

  lemma CrownedAlone(cfg: Config, b: Addr, a: Addr, n: Node)
    requires Crowned(cfg, b, FRESH, n) && a in cfg.members && a != b
    ensures Leads(n, 1, [PingEntry(1)], a, 0) && n.commit == -1
  {
  }

  /** Elected again, two terms on, it has one more Ping and takes a to hold all before it. */
  lemma LeadsOn(cfg: Config, run: seq<Action>, s: State, a: Addr, b: Addr, c: Addr, log: seq<Entry>, next: int)
    returns (run': seq<Action>, s': State)
    requires Three(cfg, a, b, c) && After(cfg, run) == s && s.nodes.Keys == {a, b, c}
    requires var t := s.nodes[b].term; Leads(s.nodes[b], t, log, a, next) && Blank(s.nodes[c], t)
    ensures After(cfg, run') == s' && Keeps(s, s') && s'.nodes[a] == s.nodes[a]
    ensures s'.nodes[b].commit == s.nodes[b].commit
    ensures var t := s.nodes[b].term + 2; var log' := log + [PingEntry(t)];
            && Leads(s'.nodes[b], t, log', a, |log|) && Blank(s'.nodes[c], t)
            && t in s'.reigns && s'.reigns == s.reigns[t := s'.reigns[t]] && s'.reigns[t].log == log'
  {
    hide After, Blank, Crowned;
    ThreeNodes(cfg, a, b, c);
    run', s' := Reelected(cfg, run, s, b, c);
    CrownedOn(cfg, a, b, s.nodes[b], s'.nodes[b], log, next);
  }

  lemma CrownedOn(cfg: Config, a: Addr, b: Addr, n: Node, n': Node, log: seq<Entry>, next: int)
    requires Leads(n, n.term, log, a, next) && Crowned(cfg, b, SwitchToFollower(n, n.term + 1), n')
    requires a in cfg.members && a != b
    ensures Leads(n', n.term + 2, log + [PingEntry(n.term + 2)], a, |log|) && n'.commit == n.commit
  {
  }

  lemma LeadsTerm(n: Node, t: nat, log: seq<Entry>, f: Addr, next: int)
    requires Leads(n, t, log, f, next)
    ensures n.term == t && n.status == Leader
  {
  }

  /**
   Leader b's log starts with its first Ping. Node a, after a refusal, a failed call and a lost answer,
   takes that Ping twice and the rest behind it, and b commits its last entry.
   */
  lemma Doubles(cfg: Config, run: seq<Action>, s: State, a: Addr, b: Addr, c: Addr, log: seq<Entry>)
    returns (run': seq<Action>, s': State)
    requires Three(cfg, a, b, c) && !cfg.repairs.align && After(cfg, run) == s && s.nodes.Keys == {a, b, c}
    requires |log| > 1 && log[0] == PingEntry(1) && s.nodes[a] == FRESH && s.nodes[b].commit == -1
    requires var t := s.nodes[b].term;
             Leads(s.nodes[b], t, log, a, |log| - 1) && MaxTerm(log[1..]) == LastTerm(log) == t > 1
    ensures After(cfg, run') == s' && Keeps(s, s') && s'.nodes[c] == s.nodes[c] && s'.reigns == s.reigns
    ensures var t := s.nodes[b].term;
            && Fed(s'.nodes[a], t, [PingEntry(1)] + log) && Leads(s'.nodes[b], t, log, a, |log|)
            && s'.nodes[b].commit == |log| - 1 && Commit(t, |log| - 1) in s'.commits
  {
    hide After, AppendEntries, ReplicateReply, BuildAppend, CanReplicate, Leads, Fed, MaxTerm;
    ThreeNodes(cfg, a, b, c);
    var t := s.nodes[b].term;
    var run1, s1 := ResentOnce(cfg, run, s, a, b, log);
    TakesPing(cfg, a, b, s1.nodes[a], s1.nodes[b], t, [PingEntry(1)], log);
    var run2, s2 := Round(cfg, run1, s1, b, a, true);
    TakesRest(cfg, a, b, s2.nodes[a], s2.nodes[b], t, log);
    LeadsTerm(s2.nodes[b], t, log, a, 1);
    run', s' := Round(cfg, run2, s2, b, a, false);
  }

  lemma ResentOnce(cfg: Config, run: seq<Action>, s: State, a: Addr, b: Addr, log: seq<Entry>)
    returns (run': seq<Action>, s': State)
    requires !cfg.repairs.align && After(cfg, run) == s && a in s.nodes && b in s.nodes && a != b
    requires |log| > 1 && log[0] == PingEntry(1) && s.nodes[a] == FRESH && s.nodes[b].commit == -1
    requires var t := s.nodes[b].term; Leads(s.nodes[b], t, log, a, |log| - 1) && t > 1
    ensures After(cfg, run') == s' && Calm(s, s') && s'.nodes == s.nodes[a := s'.nodes[a]][b := s'.nodes[b]]
    ensures var t := s.nodes[b].term;
            && Fed(s'.nodes[a], t, [PingEntry(1)]) && Leads(s'.nodes[b], t, log, a, 0) && s'.nodes[b].commit == -1
  {
    hide After, AppendEntries, ReplicateReply, BuildAppend, CanReplicate, Leads, Fed;
    var t := s.nodes[b].term;
    Probed(cfg, a, b, s.nodes[a], s.nodes[b], log);
    var run1, s1 := Round(cfg, run, s, b, a, false);
    TakesPing(cfg, a, b, s1.nodes[a], s1.nodes[b], t, [], log);
    var run2, s2 := CallFails(cfg, run1, s1, b, a, false);
    assert [] + [PingEntry(1)] == [PingEntry(1)];
    run', s' := AnswerLost(cfg, run2, s2, b, a, true);
  }

  lemma Probed(cfg: Config, a: Addr, b: Addr, na: Node, nb: Node, log: seq<Entry>)
    requires |log| > 1 && na == FRESH && Leads(nb, nb.term, log, a, |log| - 1)
    ensures CanReplicate(nb, a)
    ensures var req := BuildAppend(b, nb, a, false); var (na', res) := AppendEntries(cfg.repairs, na, req);
            var nb' := ReplicateReply(cfg, b, nb, a, req, Some(res));
            Fed(na', nb.term, []) && Leads(nb', nb.term, log, a, 0) && nb'.commit == nb.commit
  {
    hide AppendEntries, ReplicateReply;
    var req := BuildAppend(b, nb, a, false);
    RefusesBeyond(cfg.repairs, na, req);
    BacksUp(cfg, b, nb, a, req, AppendEntries(cfg.repairs, na, req).1);
  }

  /** One entry at a time, after a failed call. */
  lemma TakesPing(cfg: Config, a: Addr, b: Addr, na: Node, nb: Node, t: nat, had: seq<Entry>, log: seq<Entry>)
    requires !cfg.repairs.align && Fed(na, t, had) && Leads(nb, t, log, a, 0) && nb.commit == -1
    requires log != [] && log[0] == PingEntry(1) && t > 1
    ensures CanReplicate(nb, a)
    ensures var req := BuildAppend(b, nb, a, true); var (na', res) := AppendEntries(cfg.repairs, na, req);
            var nb' := ReplicateReply(cfg, b, nb, a, req, Some(res));
            Fed(na', t, had + [PingEntry(1)]) && Leads(nb', t, log, a, 1) && nb'.commit == -1
  {
    hide AppendEntries, ReplicateReply;
    assert nb.log[0..1] == [PingEntry(1)];
    var req := BuildAppend(b, nb, a, true);
    Appends(cfg.repairs, na, req);
    MaxTermOne(PingEntry(1));
    MovesOn(cfg, b, nb, a, req);
  }

  lemma TakesRest(cfg: Config, a: Addr, b: Addr, na: Node, nb: Node, t: nat, log: seq<Entry>)
    requires WellFormed(cfg) && |cfg.members| / 2 == 1 && a in cfg.members && a != b
    requires !cfg.repairs.align && Fed(na, t, [PingEntry(1)] + [PingEntry(1)]) && Leads(nb, t, log, a, 1)
    requires nb.commit == -1
    requires |log| > 1 && log[0] == PingEntry(1) && MaxTerm(log[1..]) == LastTerm(log) == t
    ensures CanReplicate(nb, a)
    ensures var req := BuildAppend(b, nb, a, false); var (na', res) := AppendEntries(cfg.repairs, na, req);
            var nb' := ReplicateReply(cfg, b, nb, a, req, Some(res));
            Fed(na', t, [PingEntry(1)] + log) && Leads(nb', t, log, a, |log|) && nb'.commit == |log| - 1
  {
    hide AppendEntries, ReplicateReply, MaxTerm;
    assert log[1..|log|] == log[1..] && [PingEntry(1)] + [PingEntry(1)] + log[1..] == [PingEntry(1)] + log;
    var req := BuildAppend(b, nb, a, false);
    Appends(cfg.repairs, na, req);
    CountsPeers(cfg.repairs, b, nb.matchIndex[a := |log| - 1], |log| - 1, cfg.members, {a});
    Commits(cfg, b, nb, a, req);
  }

  /** A probe that finds another term cuts the follower there, and the next probe is one earlier. */
  lemma Probes(cfg: Config, a: Addr, b: Addr, na: Node, nb: Node, log: seq<Entry>, held: seq<Entry>, p: nat)
    requires Leads(nb, nb.term, log, a, p + 1) && 0 < p < |log| - 1
    requires na.term <= nb.term && p < |held| && held[p].term != log[p].term && held[p - 1].term >= -1
    requires na.log == held && na.replicating == {}
    ensures CanReplicate(nb, a)
    ensures var req := BuildAppend(b, nb, a, false); var (na', res) := AppendEntries(cfg.repairs, na, req);
            var nb' := ReplicateReply(cfg, b, nb, a, req, Some(res));
            && Hears(na', nb.term, held[..p], na.commit) && SameApply(na, na')
            && Leads(nb', nb.term, log, a, p) && nb'.commit == nb.commit
  {
    hide AppendEntries, ReplicateReply;
    var req := BuildAppend(b, nb, a, false);
    Cuts(cfg.repairs, na, req);
    BacksUp(cfg, b, nb, a, req, AppendEntries(cfg.repairs, na, req).1);
  }

  ghost predicate SameApply(n: Node, n': Node) {
    && n'.applyEnd == n.applyEnd && n'.lastApplied == n.lastApplied && n'.inHand == n.inHand && n'.applied == n.applied
    && n'.acks == n.acks && n'.acked == n.acked
  }

  /** Node a, with no word from a leader for two rounds of its timer, is elected by c. */
  lemma TakesOver(cfg: Config, run: seq<Action>, s: State, a: Addr, c: Addr, held: seq<Entry>, commit: int)
    returns (run': seq<Action>, s': State)
    requires WellFormed(cfg) && |cfg.members| / 2 == 1 && After(cfg, run) == s && a in s.nodes && c in s.nodes && a != c
    requires Hears(s.nodes[a], s.nodes[a].term, held, commit) && Blank(s.nodes[c], s.nodes[a].term)
    ensures After(cfg, run') == s' && Keeps(s, s')
    ensures var t := s.nodes[a].term + 1; var n := s'.nodes[a];
            && n.status == Leader && n.term == t && n.log == held + [PingEntry(t)] && n.commit == commit
            && SameApply(s.nodes[a], n)
            && t in s'.reigns && s'.reigns == s.reigns[t := s'.reigns[t]] && s'.reigns[t].log == n.log
  {
    hide After, VoteLeader, Behind, BallotNext;
    Listens(a, s.nodes[a]);
    var run1, s1 := TimesOut(cfg, run, s, a);
    BlankVotes(s.nodes[c], s.nodes[a].term, a, s1.nodes[a], 0);
    run', s' := ElectsByOne(cfg, run1, s1, a, c);
  }

  lemma Listens(i: Addr, n: Node)
    requires n.status == Follower && n.heartbeats > 0
    ensures VoteLeader(i, n) == n.(heartbeats := 0)
  {
  }

  /** Without the alignment repair: b commits on a's answers, then cuts the entry away at a itself. */
  lemma ResentEntryLosesCommit(cfg: Config, a: Addr, b: Addr, c: Addr) returns (run: seq<Action>)
    requires Three(cfg, a, b, c) && !cfg.repairs.align
    ensures var s := After(cfg, run);
            && Commit(3, 1) in s.commits && 3 in s.reigns && 6 in s.reigns
            && 1 < |s.reigns[3].log| && !(s.reigns[3].log[..2] <= s.reigns[6].log)
  {
    hide After, AppendEntries, ReplicateReply, BuildAppend, CanReplicate, MaxTerm, Leads, Blank;
    ThreeNodes(cfg, a, b, c);
    var run1, s1 := LeadsAlone(cfg, a, b, c);
    LeadsTerm(s1.nodes[b], 1, [PingEntry(1)], a, 0);
    var run2, s2 := LeadsOn(cfg, run1, s1, a, b, c, [PingEntry(1)], 0);
    var log := [PingEntry(1)] + [PingEntry(3)];
    LeadsTerm(s2.nodes[b], 3, log, a, 1);
    assert log[1..] == [PingEntry(3)];
    MaxTermOne(PingEntry(3));
    var run3, s3 := Doubles(cfg, run2, s2, a, b, c, log);
    run := CutAndLost(cfg, run3, s3, a, b, c);
    var s := After(cfg, run);
    assert s.reigns[3].log[1] != s.reigns[6].log[1];
  }

  lemma CutAndLost(cfg: Config, run: seq<Action>, s: State, a: Addr, b: Addr, c: Addr) returns (run': seq<Action>)
    requires Three(cfg, a, b, c) && After(cfg, run) == s && s.nodes.Keys == {a, b, c} && 3 in s.reigns
    requires var log := [PingEntry(1)] + [PingEntry(3)];
             && Leads(s.nodes[b], 3, log, a, 2) && Blank(s.nodes[c], 3)
             && Hears(s.nodes[a], 3, [PingEntry(1)] + log, -1)
    ensures var s' := After(cfg, run');
            && s.commits <= s'.commits && 3 in s'.reigns && s'.reigns[3] == s.reigns[3]
            && 6 in s'.reigns && s'.reigns[6].log == [PingEntry(1), PingEntry(6)]
  {
    hide After, AppendEntries, ReplicateReply, BuildAppend, CanReplicate, Blank, Leads, SameApply;
    ThreeNodes(cfg, a, b, c);
    var log := [PingEntry(1)] + [PingEntry(3)];
    var held := [PingEntry(1)] + log;
    LeadsTerm(s.nodes[b], 3, log, a, 2);
    var run1, s1 := LeadsOn(cfg, run, s, a, b, c, log, 2);
    LeadsTerm(s1.nodes[b], 5, log + [PingEntry(5)], a, 2);
    Probes(cfg, a, b, s1.nodes[a], s1.nodes[b], log + [PingEntry(5)], held, 1);
    var run2, s2 := Round(cfg, run1, s1, b, a, false);
    assert held[..1] == [PingEntry(1)];
    var s': State;
    run', s' := TakesOver(cfg, run2, s2, a, c, [PingEntry(1)], -1);
  }

  // ----- a success answered before its index is committed, or after another entry was applied -----

  /** Node a's log after `Doubles`. */
  const HELD: seq<Entry> := [PingEntry(1), PingEntry(1), PingEntry(3), PingEntry(5)]

  /** Leader b of term 5 has committed index 2; its heartbeat makes a do so, which holds another entry there. */
  lemma CommitsHeld(cfg: Config, a: Addr, b: Addr, c: Addr) returns (run: seq<Action>, s: State)
    requires Three(cfg, a, b, c) && !cfg.repairs.align && !cfg.repairs.commit
    ensures After(cfg, run) == s && s.nodes.Keys == {a, b, c} && Blank(s.nodes[c], 5)
    ensures Leads(s.nodes[b], 5, [PingEntry(1), PingEntry(3), PingEntry(5)], a, 3)
    ensures Hears(s.nodes[a], 5, HELD, 2) && Applying(s.nodes[a], -1, -1, false, []) && s.nodes[b].commit == 2
  {
    hide After, AppendEntries, HeartBeat, MaxTerm, Leads, Blank, Hears, Applying, HELD;
    ThreeNodes(cfg, a, b, c);
    var log := [PingEntry(1), PingEntry(3), PingEntry(5)];
    var run1, s1 := LeadsThree(cfg, a, b, c);
    LeadsTerm(s1.nodes[b], 5, log, a, 2);
    assert log[1..] == [PingEntry(3), PingEntry(5)];
    MaxTermTwo(PingEntry(3), PingEntry(5));
    var run2, s2 := Doubles(cfg, run1, s1, a, b, c, log);
    LeadsTerm(s2.nodes[b], 5, log, a, 3);
    BeatTwo(cfg, b, s2.nodes[a], s2.nodes[b]);
    run, s := BeatArrives(cfg, run2, s2, b, a);
  }

  lemma BeatTwo(cfg: Config, b: Addr, na: Node, nb: Node)
    requires !cfg.repairs.commit && Fed(na, 5, [PingEntry(1)] + [PingEntry(1), PingEntry(3), PingEntry(5)])
    requires nb.term == 5 && nb.commit == 2
    ensures var n := AppendEntries(cfg.repairs, na, HeartBeat(b, nb)).0;
            Hears(n, 5, HELD, 2) && Applying(n, -1, -1, false, [])
  {
    hide AppendEntries;
    assert [PingEntry(1)] + [PingEntry(1), PingEntry(3), PingEntry(5)] == HELD;
    BeatCommits(cfg.repairs, na, HeartBeat(b, nb));
  }

  /** Node b is elected in terms 1, 3 and 5 and sends nothing. */
  lemma LeadsThree(cfg: Config, a: Addr, b: Addr, c: Addr) returns (run: seq<Action>, s: State)
    requires Three(cfg, a, b, c)
    ensures After(cfg, run) == s && s.nodes.Keys == {a, b, c} && s.nodes[a] == FRESH && Blank(s.nodes[c], 5)
    ensures Leads(s.nodes[b], 5, [PingEntry(1), PingEntry(3), PingEntry(5)], a, 2) && s.nodes[b].commit == -1
  {
    hide After, Leads, Blank;
    var run1, s1 := LeadsAlone(cfg, a, b, c);
    LeadsTerm(s1.nodes[b], 1, [PingEntry(1)], a, 0);
    var run2, s2 := LeadsOn(cfg, run1, s1, a, b, c, [PingEntry(1)], 0);
    var two := [PingEntry(1)] + [PingEntry(3)];
    LeadsTerm(s2.nodes[b], 3, two, a, 1);
    run, s := LeadsOn(cfg, run2, s2, a, b, c, two, 1);
    assert two + [PingEntry(5)] == [PingEntry(1), PingEntry(3), PingEntry(5)];
  }

  /** The apply loop is at index `last`, or has that one's successor in hand, on its way to index 2. */
  ghost predicate Loops(n: Node, last: int, inHand: bool) {
    -1 <= last < 2 && Applying(n, 2, last, inHand, HELD[..if inHand then last + 2 else last + 1])
  }

  /** A step of the apply loop of a node that is not leading. */
  lemma AppliesOne(n: Node, last: int, inHand: bool)
    requires Hears(n, 5, HELD, 2) && Loops(n, last, inHand) && (inHand ==> last < 1)
    ensures n.inHand == inHand
    ensures if inHand then Hears(ApplyTag(n), 5, HELD, 2) && Loops(ApplyTag(n), last + 1, false)
            else CanApply(n) && Hears(ApplyEntry(n), 5, HELD, 2) && Loops(ApplyEntry(n), last, true)
  {
    if !inHand {
      assert (n.log + n.stale)[last + 1] == HELD[last + 1];
      assert HELD[..last + 1] + [HELD[last + 1]] == HELD[..last + 2];
    }
  }

  /** The apply loop of a goes on from one point to another. */
  lemma Onward(cfg: Config, run: seq<Action>, s: State, a: Addr, last: int, inHand: bool, toLast: int, toHand: bool)
    returns (run': seq<Action>, s': State)
    requires After(cfg, run) == s && a in s.nodes && Hears(s.nodes[a], 5, HELD, 2)
    requires -1 <= last <= toLast < 2 && Loops(s.nodes[a], last, inHand) && (last == toLast && inHand ==> toHand)
    ensures After(cfg, run') == s' && Calm(s, s') && s'.nodes == s.nodes[a := s'.nodes[a]]
    ensures Hears(s'.nodes[a], 5, HELD, 2) && Loops(s'.nodes[a], toLast, toHand)
    decreases toLast - last, !inHand
  {
    hide After, ApplyEntry, ApplyTag, CanApply, Hears, Loops, HELD;
    run', s' := run, s;
    if last != toLast || inHand != toHand {
      AppliesOne(s.nodes[a], last, inHand);
      if inHand {
        var run1, s1 := WritesTag(cfg, run, s, a);
        run', s' := Onward(cfg, run1, s1, a, last + 1, false, toLast, toHand);
      } else {
        var run1, s1 := StoresEntry(cfg, run, s, a);
        run', s' := Onward(cfg, run1, s1, a, last, true, toLast, toHand);
      }
    }
  }

  /** Node a takes its snapshot of the commit index, 2, and applies index 0; or all but the tag of index 2. */
  lemma StartsOnItsWay(cfg: Config, run: seq<Action>, s: State, a: Addr, far: bool)
    returns (run': seq<Action>, s': State)
    requires After(cfg, run) == s && a in s.nodes && Hears(s.nodes[a], 5, HELD, 2)
    requires Applying(s.nodes[a], -1, -1, false, [])
    ensures After(cfg, run') == s' && Calm(s, s') && s'.nodes == s.nodes[a := s'.nodes[a]]
    ensures Hears(s'.nodes[a], 5, HELD, 2)
    ensures if far then Loops(s'.nodes[a], 1, true) else Loops(s'.nodes[a], 0, false)
  {
    hide After, Hears, Loops, HELD;
    BeginsTwo(s.nodes[a]);
    var run1, s1 := BeginsPass(cfg, run, s, a);
    run', s' := Onward(cfg, run1, s1, a, -1, false, if far then 1 else 0, far);
  }

  lemma BeginsTwo(n: Node)
    requires Hears(n, 5, HELD, 2) && Applying(n, -1, -1, false, [])
    ensures Hears(ApplyBegin(n), 5, HELD, 2) && Loops(ApplyBegin(n), -1, false)
  {
  }

  /** Elected again in term 7, b cuts a's log back to its first entry, and its heartbeat lowers a's commit index. */
  lemma CutsHeld(cfg: Config, run: seq<Action>, s: State, a: Addr, b: Addr, c: Addr)
    returns (run': seq<Action>, s': State)
    requires Three(cfg, a, b, c) && !cfg.repairs.commit && After(cfg, run) == s && s.nodes.Keys == {a, b, c}
    requires Blank(s.nodes[c], 5) && Hears(s.nodes[a], 5, HELD, 2) && s.nodes[b].commit == 2
    requires Leads(s.nodes[b], 5, [PingEntry(1), PingEntry(3), PingEntry(5)], a, 3)
    ensures After(cfg, run') == s' && s'.nodes.Keys == {a, b, c} && Blank(s'.nodes[c], 7)
    ensures Hears(s'.nodes[a], 7, [PingEntry(1)], 0) && SameApply(s.nodes[a], s'.nodes[a])
  {
    hide After, AppendEntries, ReplicateReply, BuildAppend, CanReplicate, HeartBeat, Blank, Leads, Hears;
    ThreeNodes(cfg, a, b, c);
    var log := [PingEntry(1), PingEntry(3), PingEntry(5)];
    LeadsTerm(s.nodes[b], 5, log, a, 3);
    var run1, s1 := LeadsOn(cfg, run, s, a, b, c, log, 3);
    var longer := log + [PingEntry(7)];
    LeadsTerm(s1.nodes[b], 7, longer, a, 3);
    HearsLog(s1.nodes[a], 5, HELD, 2);
    Probes(cfg, a, b, s1.nodes[a], s1.nodes[b], longer, HELD, 2);
    var run2, s2 := Round(cfg, run1, s1, b, a, false);
    HearsLog(s2.nodes[a], 7, HELD[..2], 2);
    LeadsTerm(s2.nodes[b], 7, longer, a, 2);
    Probes(cfg, a, b, s2.nodes[a], s2.nodes[b], longer, HELD[..2], 1);
    var run3, s3 := Round(cfg, run2, s2, b, a, false);
    assert HELD[..2][..1] == [PingEntry(1)];
    LeadsTerm(s3.nodes[b], 7, longer, a, 1);
    BeatZero(cfg, b, s3.nodes[a], s3.nodes[b]);
    run', s' := BeatArrives(cfg, run3, s3, b, a);
  }

  lemma HearsLog(n: Node, t: nat, log: seq<Entry>, commit: int)
    requires Hears(n, t, log, commit)
    ensures n.term == t && n.log == log && n.replicating == {} && n.commit == commit
  {
  }

  lemma BeatZero(cfg: Config, b: Addr, na: Node, nb: Node)
    requires !cfg.repairs.commit && Hears(na, 7, [PingEntry(1)], 2) && nb.term == 7 && nb.commit >= 0
    ensures var n := AppendEntries(cfg.repairs, na, HeartBeat(b, nb)).0;
            Hears(n, 7, [PingEntry(1)], 0) && SameApply(na, n)
  {
    hide AppendEntries;
    BeatCommits(cfg.repairs, na, HeartBeat(b, nb));
  }

  /** The put that a, leader of term 8, logs at index 2. */
  function PutOf(key: Bytes, value: Bytes): Entry {
    EntryOf(PutReq, key, value, 8)
  }

  /** Node a waits to answer that put; its commit index is 0. */
  ghost predicate Owes(n: Node, e: Entry) {
    && n.status == Leader && n.term == 8 && n.log == [PingEntry(1), PingEntry(8), e] && n.commit == 0
    && n.applyEnd == 2 && n.acks == map[2 := map[PutReq := Ticket(8, e)]] && n.acked == {}
  }

  /** All of the story up to the put, with the apply loop as far as wished. */
  lemma OwesAnswer(cfg: Config, a: Addr, b: Addr, c: Addr, far: bool, key: Bytes, value: Bytes)
    returns (run: seq<Action>, s: State)
    requires Three(cfg, a, b, c) && !cfg.repairs.align && !cfg.repairs.commit
    ensures After(cfg, run) == s && a in s.nodes && Owes(s.nodes[a], PutOf(key, value))
    ensures var n := s.nodes[a];
            if far then n.lastApplied == 1 && n.inHand && n.applied == HELD[..3]
            else n.lastApplied == 0 && !n.inHand && n.applied == HELD[..1]
  {
    hide After, Blank, Leads, Hears, ClientWrite, HELD, PutOf, Owes;
    ThreeNodes(cfg, a, b, c);
    var run1, s1 := CommitsHeld(cfg, a, b, c);
    var run2, s2 := StartsOnItsWay(cfg, run1, s1, a, far);
    var run3, s3 := CutsHeld(cfg, run2, s2, a, b, c);
    HearsLog(s3.nodes[a], 7, [PingEntry(1)], 0);
    var run4, s4 := TakesOver(cfg, run3, s3, a, c, [PingEntry(1)], 0);
    WritesThird(s4.nodes[a], key, value);
    run, s := Puts(cfg, run4, s4, a, key, value);
  }

  lemma WritesThird(n: Node, key: Bytes, value: Bytes)
    requires n.status == Leader && n.term == 8 && n.log == [PingEntry(1)] + [PingEntry(8)] && n.commit == 0
    requires n.applyEnd == 2 && n.acks == map[] && n.acked == {}
    ensures var n' := ClientWrite(n, PutReq, key, value);
            Owes(n', PutOf(key, value)) && n'.lastApplied == n.lastApplied && n'.inHand == n.inHand
              && n'.applied == n.applied
  {
    assert [PingEntry(1)] + [PingEntry(8)] + [PutOf(key, value)] == [PingEntry(1), PingEntry(8), PutOf(key, value)];
  }

  lemma AnswersOwed(n: Node, e: Entry)
    requires Owes(n, e) && n.lastApplied == 1 && n.inHand
    ensures AckEvent(2, PutReq, Ticket(8, e), 8, 0, Some(e)) in ApplyTag(n).acked && ApplyTag(n).applied == n.applied
  {
    assert PutReq in n.acks[2];
    assert AckEvent(2, PutReq, Ticket(8, e), 8, 0, Some(e)) in AckEvents(n, 2);
  }

  lemma AppliesToOwed(n: Node, e: Entry)
    requires Owes(n, e)
    ensures n.lastApplied == 0 && !n.inHand ==>
              CanApply(n) && Owes(ApplyEntry(n), e) && ApplyEntry(n).inHand && ApplyEntry(n).lastApplied == 0
    ensures n.lastApplied == 0 && n.inHand ==>
              Owes(ApplyTag(n), e) && !ApplyTag(n).inHand && ApplyTag(n).lastApplied == 1
    ensures n.lastApplied == 1 && !n.inHand ==>
              CanApply(n) && Owes(ApplyEntry(n), e) && ApplyEntry(n).inHand && ApplyEntry(n).lastApplied == 1
  {
    if n.lastApplied == 0 && n.inHand {
      assert n.acks - {1} == n.acks && AckEvents(n, 1) == {};
    }
  }

  /**
   A put is answered with success although its index is past the commit index. Node b, elected in
   terms 1, 3 and 5, makes a hold its first Ping twice and both nodes commit index 2; a starts to
   apply. Elected again in term 7, b cuts a back to one entry and lowers its commit index to 0. Then
   a, elected by c, logs its Ping at 1 and a client's put at 2, the end of its pass.
   */
  lemma AnsweredUncommitted(cfg: Config, a: Addr, b: Addr, c: Addr, key: Bytes, value: Bytes)
    returns (run: seq<Action>, e: AckEvent)
    requires Three(cfg, a, b, c) && !cfg.repairs.align && !cfg.repairs.commit
    ensures var s := After(cfg, run);
            && a in s.nodes && e in s.nodes[a].acked && e.kind == PutReq && e.ticket.entry == PutOf(key, value)
            && e.index > e.commit
  {
    hide After, Owes, ApplyEntry, ApplyTag, CanApply, HELD, PutOf;
    var run1, s1 := OwesAnswer(cfg, a, b, c, false, key, value);
    var p := PutOf(key, value);
    AppliesToOwed(s1.nodes[a], p);
    var run2, s2 := StoresEntry(cfg, run1, s1, a);
    AppliesToOwed(s2.nodes[a], p);
    var run3, s3 := WritesTag(cfg, run2, s2, a);
    AppliesToOwed(s3.nodes[a], p);
    var run4, s4 := StoresEntry(cfg, run3, s3, a);
    AnswersOwed(s4.nodes[a], p);
    var s5: State;
    run, s5 := WritesTag(cfg, run4, s4, a);
    e := AckEvent(2, PutReq, Ticket(8, p), 8, 0, Some(p));
  }

  /**
   A put is answered with success although another entry was applied at its index: the same story,
   but the apply loop has written the data of the old slot 2 before b cuts it away.
   */
  lemma AnsweredOther(cfg: Config, a: Addr, b: Addr, c: Addr, key: Bytes, value: Bytes)
    returns (run: seq<Action>, e: AckEvent)
    requires Three(cfg, a, b, c) && !cfg.repairs.align && !cfg.repairs.commit
    ensures var s := After(cfg, run);
            && a in s.nodes && e in s.nodes[a].acked && e.kind == PutReq && e.ticket.entry == PutOf(key, value)
            && e.slot == Some(e.ticket.entry)
            && 0 <= e.index < |s.nodes[a].applied| && s.nodes[a].applied[e.index] != e.ticket.entry
  {
    hide After, Owes, ApplyTag;
    var run1, s1 := OwesAnswer(cfg, a, b, c, true, key, value);
    var p := PutOf(key, value);
    AnswersOwed(s1.nodes[a], p);
    var s2: State;
    run, s2 := WritesTag(cfg, run1, s1, a);
    e := AckEvent(2, PutReq, Ticket(8, p), 8, 0, Some(p));
    assert s2.nodes[a].applied[2] == PingEntry(3);
  }

  // ----- an empty log that wins -----

  /**
   Without the repair of the cached term a node with an empty log is elected by one that holds an
   entry. Node b is elected in term 1, a in term 2, and b again in term 3; b's first entry reaches c,
   and b's probe of index 0 empties a's log. Its cached term is still 2, and c votes for it.
   */
  lemma EmptyLogWins(cfg: Config, a: Addr, b: Addr, c: Addr) returns (run: seq<Action>)
    requires Three(cfg, a, b, c) && !cfg.repairs.empty
    ensures var s := After(cfg, run);
            && a in s.nodes && s.nodes[a].status == Leader && s.nodes[a].term == 4
            && 4 in s.reigns && s.reigns[4].base == [] && s.reigns[4].log == s.nodes[a].log
            && c in s.nodes && 4 in s.nodes[c].voteFor && s.nodes[c].voteFor[4] == a && s.nodes[c].log == [PingEntry(1)]
  {
    hide After, AppendEntries, ReplicateReply, BuildAppend, CanReplicate, Emptied, HoldsPing, Replicates, VoteLeader;
    hide WouldVote, Crowned;
    ThreeNodes(cfg, a, b, c);
    var run1, s1 := TakesTurns(cfg, a, b, c);
    var run2, s2 := ReachesOne(cfg, run1, s1, a, b, c);
    Empties(cfg, a, b, s2.nodes[a], s2.nodes[b]);
    var run3, s3 := Round(cfg, run2, s2, b, a, false);
    ListensEmpty(a, s3.nodes[a]);
    var run4, s4 := TimesOut(cfg, run3, s3, a);
    Outbids(s4, a, c);
    var s5: State;
    run, s5 := ElectsByOne(cfg, run4, s4, a, c);
    CrownsEmpty(cfg, a, s4.nodes[a], s5.nodes[a]);
  }

  /** Leader b of term 3 over its two Pings, and where it takes f to be. */
  ghost predicate Replicates(n: Node, f: Addr, next: int) {
    && n.status == Leader && n.term == 3 && n.log == [PingEntry(1), PingEntry(3)] && n.commit == -1
    && f in n.nextIndex && n.nextIndex[f] == next
  }

  ghost predicate Emptied(n: Node, heartbeats: nat) {
    && n.status == Follower && n.term == 3 && n.log == [] && n.lastLogTerm == 2 && n.heartbeats == heartbeats
  }

  ghost predicate HoldsPing(n: Node) {
    n.status == Follower && n.term == 3 && n.log == [PingEntry(1)] && n.lastLogTerm == 1
  }

  lemma TakesTurns(cfg: Config, a: Addr, b: Addr, c: Addr) returns (run: seq<Action>, s: State)
    requires Three(cfg, a, b, c)
    ensures After(cfg, run) == s && s.nodes.Keys == {a, b, c} && FirstLeader(s.nodes[a], 2) && Blank(s.nodes[c], 3)
    ensures Replicates(s.nodes[b], a, 1) && Replicates(s.nodes[b], c, 1)
  {
    hide After, WouldVote, Blank, Leads, Crowned, FirstLeader, Replicates;
    ThreeNodes(cfg, a, b, c);
    var run1, s1 := LeadsAlone(cfg, a, b, c);
    var run2, s2 := BecomesCandidate(cfg, run1, s1, a);
    CandidateGets(s2, a, c);
    var run3, s3 := ElectsByOne(cfg, run2, s2, a, c);
    CrownsCandidate(cfg, a, s2.nodes[a], s3.nodes[a]);
    LeadsTerm(s3.nodes[b], 1, [PingEntry(1)], a, 0);
    var run4, s4 := StepsDown(cfg, run3, s3, b, a);
    SteppedGets(s4, b, c, s3.nodes[b], a);
    run, s := ElectsByOne(cfg, run4, s4, b, c);
    CrownsAgain(cfg, a, b, c, s4.nodes[b], s.nodes[b], s3.nodes[b]);
  }

  lemma CandidateGets(s: State, a: Addr, c: Addr)
    requires a in s.nodes && c in s.nodes && a != c && Blank(s.nodes[c], 1)
    requires var n := s.nodes[a];
             n == FRESH.(status := Candidate, term := 1, voteFor := n.voteFor, votePass := n.votePass)
    ensures WouldVote(s, a, c) && Blank(Voted(s.nodes[c], a, 2), 2)
  {
  }

  lemma CrownsCandidate(cfg: Config, a: Addr, n: Node, n': Node)
    requires Crowned(cfg, a, n, n')
    requires n == FRESH.(status := Candidate, term := 1, voteFor := n.voteFor, votePass := n.votePass)
    ensures FirstLeader(n', 2)
  {
  }

  lemma SteppedGets(s: State, b: Addr, c: Addr, n: Node, a: Addr)
    requires b in s.nodes && c in s.nodes && b != c && Blank(s.nodes[c], 2)
    requires Leads(n, 1, [PingEntry(1)], a, 0) && s.nodes[b] == SwitchToFollower(n, 2)
    ensures Stands(s.nodes[b]) && WouldVote(s, b, c) && Blank(Voted(s.nodes[c], b, 3), 3)
  {
  }

  lemma CrownsAgain(cfg: Config, a: Addr, b: Addr, c: Addr, n: Node, n': Node, was: Node)
    requires Crowned(cfg, b, n, n') && n == SwitchToFollower(was, 2) && Leads(was, 1, [PingEntry(1)], a, 0)
    requires was.commit == -1
    requires a in cfg.members && c in cfg.members && a != b && c != b
    ensures Replicates(n', a, 1) && Replicates(n', c, 1)
  {
    assert n'.log == [PingEntry(1)] + [PingEntry(3)];
  }

  /** Node c refuses b's second entry, and then takes b's first. */
  lemma ReachesOne(cfg: Config, run: seq<Action>, s: State, a: Addr, b: Addr, c: Addr)
    returns (run': seq<Action>, s': State)
    requires Three(cfg, a, b, c) && After(cfg, run) == s && s.nodes.Keys == {a, b, c} && Blank(s.nodes[c], 3)
    requires Replicates(s.nodes[b], a, 1) && Replicates(s.nodes[b], c, 1)
    ensures After(cfg, run') == s' && Calm(s, s') && s'.nodes[a] == s.nodes[a]
    ensures HoldsPing(s'.nodes[c]) && Replicates(s'.nodes[b], a, 1)
  {
    hide After, AppendEntries, ReplicateReply, BuildAppend, CanReplicate, Replicates, HoldsPing, HoldsNothing;
    DeniesNothing(s.nodes[c], 3);
    ProbesEmpty(cfg, a, b, c, s.nodes[b], s.nodes[c]);
    var run1, s1 := Round(cfg, run, s, b, c, false);
    TakesOne(cfg, b, c, s1.nodes[b], s1.nodes[c]);
    var run2, s2 := CallFails(cfg, run1, s1, b, c, false);
    run', s' := AnswerLost(cfg, run2, s2, b, c, true);
  }

  lemma ProbesEmpty(cfg: Config, a: Addr, b: Addr, c: Addr, nb: Node, nc: Node)
    requires Replicates(nb, a, 1) && Replicates(nb, c, 1) && HoldsNothing(nc, 3) && a != c
    ensures CanReplicate(nb, c)
    ensures var req := BuildAppend(b, nb, c, false); var (nc', res) := AppendEntries(cfg.repairs, nc, req);
            var nb' := ReplicateReply(cfg, b, nb, c, req, Some(res));
            HoldsNothing(nc', 3) && Replicates(nb', c, 0) && Replicates(nb', a, 1)
  {
    hide AppendEntries, ReplicateReply;
    var req := BuildAppend(b, nb, c, false);
    assert nb.log[1..2] == [PingEntry(3)];
    RefusesBeyond(cfg.repairs, nc, req);
    BacksUp(cfg, b, nb, c, req, AppendEntries(cfg.repairs, nc, req).1);
  }

  lemma TakesOne(cfg: Config, b: Addr, c: Addr, nb: Node, nc: Node)
    requires Replicates(nb, c, 0) && HoldsNothing(nc, 3)
    ensures CanReplicate(nb, c) && HoldsPing(AppendEntries(cfg.repairs, nc, BuildAppend(b, nb, c, true)).0)
  {
    hide AppendEntries;
    var req := BuildAppend(b, nb, c, true);
    assert nb.log[0..1] == [PingEntry(1)];
    TakesFirst(cfg.repairs, nc, req);
    AppendCases(cfg.repairs, nc, req);
  }

  /** The probe of index 0 cuts everything, and the cached term stays. */
  lemma Empties(cfg: Config, a: Addr, b: Addr, na: Node, nb: Node)
    requires !cfg.repairs.empty && Replicates(nb, a, 1) && FirstLeader(na, 2)
    ensures CanReplicate(nb, a)
    ensures var req := BuildAppend(b, nb, a, false); Emptied(AppendEntries(cfg.repairs, na, req).0, 1)
  {
    var req := BuildAppend(b, nb, a, false);
    assert nb.log[1..2] == [PingEntry(3)];
    assert Judge(na, req) == Mismatch;
  }

  lemma ListensEmpty(i: Addr, n: Node)
    requires Emptied(n, 1)
    ensures VoteLeader(i, n) == n.(heartbeats := 0) && Emptied(VoteLeader(i, n), 0)
  {
  }

  lemma Outbids(s: State, a: Addr, c: Addr)
    requires a in s.nodes && c in s.nodes && a != c && Emptied(s.nodes[a], 0) && HoldsPing(s.nodes[c])
    ensures Stands(s.nodes[a]) && s.nodes[a].status != Leader && s.nodes[a].term == 3 && s.nodes[a].log == []
    ensures WouldVote(s, a, c) && s.nodes[c].log == [PingEntry(1)]
  {
  }

  lemma CrownsEmpty(cfg: Config, a: Addr, n: Node, n': Node)
    requires Emptied(n, 0) && Crowned(cfg, a, n, n')
    ensures n'.status == Leader && n'.term == 4
  {
  }
}
