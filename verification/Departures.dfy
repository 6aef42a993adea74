/**
 Where the handlers as the code has them differ from the repaired ones, exactly: for each handler a
 condition the caller can check before the call, such that the two agree if and only if it holds.
 `Transfers` has the same for one repair at a time, and what follows for whole runs.
 */
module Departures {
  import opened Base
  import opened RaftNode
  import opened Cluster
  import opened LogMatching

  // ----- AppendEntriesImpl -----

  predicate TruncateAgrees(n: Node, req: AppendReq) {
    req.prevIndex >= 1 || n.lastLogTerm == -1
  }

  /** A heartbeat leaves the commit index alone, or raises it to an entry of the sender's term. */
  predicate HeartBeatAgrees(n: Node, req: AppendReq) {
    var c := Min(|n.log| - 1, req.leaderCommit);
    c == n.commit || (0 <= c && n.commit < c && n.log[c].term == req.term)
  }

  /** The entries continue the log where it ends, and the commit index does not fall. */
  predicate EntriesAgree(n: Node, req: AppendReq) {
    && |n.log| == Max(req.prevIndex + 1, 0)
    && Min(|n.log| + |req.entries| - 1, req.leaderCommit)
       == Max(n.commit, Min(req.prevIndex + |req.entries|, req.leaderCommit))
  }

  predicate AppendAgrees(n: Node, req: AppendReq) {
    match Judge(n, req)
    case Mismatch => TruncateAgrees(n, req)
    case Accepted => if req.entries == [] then HeartBeatAgrees(n, req) else EntriesAgree(n, req)
    case _ => true
  }

  lemma AlignShorter(r: Repairs, n: Node, from: nat, es: seq<Entry>)
    requires from < |n.log| && es != []
    ensures |Align(r, n, from, es).log| < |n.log| + |es|
  {
    AlignLog(r, n, from, es);
  }

  lemma AlignAtEnd(r: Repairs, n: Node, es: seq<Entry>)
    requires es != []
    ensures Align(r, n, |n.log|, es) == WriteEntries(n, es)
  {
    assert Agreeing(n.log, |n.log|, es) == 0;
    assert n.log[..|n.log|] == n.log && n.log[|n.log|..] + n.stale == n.stale && es[0..] == es;
  }

  lemma EntriesExact(n: Node, req: AppendReq)
    requires Judge(n, req) == Accepted && req.entries != []
    ensures AppendEntries(SHOWN, n, req) == AppendEntries(REPAIRED, n, req) <==> EntriesAgree(n, req)
  {
    var n1 := Follow(n, req);
    var from := Max(req.prevIndex + 1, 0);
    var shown, repaired := AppendEntries(SHOWN, n, req).0, AppendEntries(REPAIRED, n, req).0;
    assert shown.log == n.log + req.entries;
    assert repaired.log == Align(REPAIRED, n1, from, req.entries).log;
    if |n.log| == from {
      AlignAtEnd(REPAIRED, n1, req.entries);
    } else {
      AlignShorter(REPAIRED, n1, from, req.entries);
      assert shown.log != repaired.log;
    }
  }

  lemma HeartBeatExact(n: Node, req: AppendReq)
    requires Judge(n, req) == Accepted && req.entries == []
    ensures AppendEntries(SHOWN, n, req) == AppendEntries(REPAIRED, n, req) <==> HeartBeatAgrees(n, req)
  {
    var shown, repaired := AppendEntries(SHOWN, n, req).0, AppendEntries(REPAIRED, n, req).0;
    assert repaired == shown.(commit := repaired.commit);
  }

  lemma TruncateExact(n: Node, req: AppendReq)
    requires Judge(n, req) == Mismatch
    ensures AppendEntries(SHOWN, n, req) == AppendEntries(REPAIRED, n, req) <==> TruncateAgrees(n, req)
  {
    var shown, repaired := AppendEntries(SHOWN, n, req).0, AppendEntries(REPAIRED, n, req).0;
    assert repaired == shown.(lastLogTerm := repaired.lastLogTerm);
  }

  /** The follower of the code does what the repaired one does exactly under AppendAgrees. */
  lemma AppendExact(n: Node, req: AppendReq)
    ensures AppendEntries(SHOWN, n, req) == AppendEntries(REPAIRED, n, req) <==> AppendAgrees(n, req)
  {
    match Judge(n, req)
    case Mismatch => TruncateExact(n, req);
    case Accepted => if req.entries == [] { HeartBeatExact(n, req); } else { EntriesExact(n, req); }
    case _ =>
  }

  // ----- the reply to a replication -----

  /** The node's own match index is counted, and the count is one short without it. */
  predicate SelfDecides(ms: seq<Addr>, self: Addr, match_: map<Addr, int>, index: int) {
    && self in ms && Lookup(match_, self) == index
    && Matches(REPAIRED, self, match_, index, ms) + 1 == |ms| / 2
  }

  lemma {:induction false} SelfCounts(r: Repairs, self: Addr, match_: map<Addr, int>, index: int, ms: seq<Addr>)
    requires forall i, j :: 0 <= i < j < |ms| ==> ms[i] != ms[j]
    ensures Matches(r, self, match_, index, ms)
            == Matches(REPAIRED, self, match_, index, ms)
               + (if !r.self && self in ms && Lookup(match_, self) == index then 1 else 0)
  {
    if ms != [] {
      var rest, m := ms[..|ms| - 1], ms[|ms| - 1];
      assert ms == rest + [m];
      SelfCounts(r, self, match_, index, rest);
    }
  }

  /** The commit rule that counts the node itself is the other one, unless the self-count decides. */
  lemma CommitRuleExact(ms: seq<Addr>, r: Repairs, r': Repairs, self: Addr, n: Node, index: int)
    requires WellFormed(Config(ms, r)) && !r.self && r'.self
    ensures UpdateCommitIndex(Config(ms, r), self, n, index) == UpdateCommitIndex(Config(ms, r'), self, n, index)
            <==> index <= n.commit || !SelfDecides(ms, self, n.matchIndex, index)
  {
    hide Matches;
    SelfCounts(r, self, n.matchIndex, index, ms);
    SelfCounts(r', self, n.matchIndex, index, ms);
  }

  predicate AdvanceAgrees(ms: seq<Addr>, self: Addr, n: Node, f: Addr, req: AppendReq) {
    var last := req.prevIndex + |req.entries|;
    MaxTerm(req.entries) != n.term || last <= n.commit || !SelfDecides(ms, self, n.matchIndex[f := last], last)
  }

  /** The reply of an older term would change nothing. */
  predicate StaleIsNoop(ms: seq<Addr>, r: Repairs, self: Addr, n: Node, f: Addr, req: AppendReq, res: AppendRes) {
    var last := req.prevIndex + |req.entries|;
    if res.success then
      && f in n.nextIndex && n.nextIndex[f] == last + 1 && f in n.matchIndex && n.matchIndex[f] == last
      && (MaxTerm(req.entries) != n.term || last <= n.commit
          || Matches(r, self, n.matchIndex, last, ms) < |ms| / 2)
    else res.busy || (f in n.nextIndex && n.nextIndex[f] == 0)
  }

  predicate ReplyAgrees(ms: seq<Addr>, self: Addr, n: Node, f: Addr, req: AppendReq, res: Option<AppendRes>) {
    res.None? || res.value.term > n.term || n.status != Leader
    || (if req.term != n.term then StaleIsNoop(ms, SHOWN, self, n, f, req, res.value)
        else res.value.success ==> AdvanceAgrees(ms, self, n, f, req))
  }

  lemma AdvanceExact(ms: seq<Addr>, r: Repairs, r': Repairs, self: Addr, n: Node, f: Addr, req: AppendReq)
    requires WellFormed(Config(ms, r)) && !r.self && r'.self
    ensures Advance(Config(ms, r), self, n, f, req) == Advance(Config(ms, r'), self, n, f, req)
            <==> AdvanceAgrees(ms, self, n, f, req)
  {
    hide UpdateCommitIndex, SelfDecides;
    var last := req.prevIndex + |req.entries|;
    var n1 := n.(nextIndex := n.nextIndex[f := last + 1], matchIndex := n.matchIndex[f := last]);
    CommitRuleExact(ms, r, r', self, n1, last);
    OldIndexKept(Config(ms, r), self, n1, last);
  }

  lemma OldIndexKept(cfg: Config, self: Addr, n: Node, index: int)
    ensures index <= n.commit ==> UpdateCommitIndex(cfg, self, n, index) == n
  {
  }

  lemma StaleSuccessExact(ms: seq<Addr>, r: Repairs, self: Addr, n: Node, f: Addr, req: AppendReq, res: AppendRes)
    requires res.success
    ensures Advance(Config(ms, r), self, n, f, req) == n <==> StaleIsNoop(ms, r, self, n, f, req, res)
  {
    var cfg := Config(ms, r);
    var last := req.prevIndex + |req.entries|;
    AdvanceCases(cfg, self, n, f, req);
    var n' := Advance(cfg, self, n, f, req);
    assert n'.nextIndex == n.nextIndex[f := last + 1];
    if f in n.nextIndex && n.nextIndex[f] == last + 1 && f in n.matchIndex && n.matchIndex[f] == last {
      assert n.nextIndex[f := last + 1] == n.nextIndex && n.matchIndex[f := last] == n.matchIndex;
    }
  }

  lemma StaleRefusalExact(n: Node, f: Addr, logLength: int)
    ensures BackUp(n, f, logLength) == n <==> f in n.nextIndex && n.nextIndex[f] == 0
  {
    assert BackUp(n, f, logLength).nextIndex[f] == Max(0, Min(Lookup(n.nextIndex, f) - 1, logLength));
    if f in n.nextIndex {
      assert n.nextIndex[f := n.nextIndex[f]] == n.nextIndex;
    }
  }

  lemma ReplyExact(ms: seq<Addr>, self: Addr, n: Node, f: Addr, req: AppendReq, res: Option<AppendRes>)
    requires WellFormed(Config(ms, SHOWN))
    ensures ReplicateReply(Config(ms, SHOWN), self, n, f, req, res)
            == ReplicateReply(Config(ms, REPAIRED), self, n, f, req, res)
            <==> ReplyAgrees(ms, self, n, f, req, res)
  {
    if res.Some? && res.value.term <= n.term && n.status == Leader {
      if req.term == n.term {
        if res.value.success { AdvanceExact(ms, SHOWN, REPAIRED, self, n, f, req); }
      } else if res.value.success {
        StaleSuccessExact(ms, SHOWN, self, n, f, req, res.value);
      } else if !res.value.busy {
        StaleRefusalExact(n, f, res.value.logLength);
      }
    }
  }

  // ----- winning an election -----

  /** Every peer with a replication thread still running is already as an election would reset it. */
  predicate ElectionAgrees(ms: seq<Addr>, self: Addr, n: Node) {
    forall p :: p in ms && p != self && p in n.replicating ==>
      p in n.nextIndex && n.nextIndex[p] == |n.log| && p in n.matchIndex && n.matchIndex[p] == -1
  }

  predicate VoteBackAgrees(ms: seq<Addr>, self: Addr, n: Node, res: Option<VoteRes>) {
    Wins(Config(ms, SHOWN), n, res) ==> ElectionAgrees(ms, self, n)
  }

  lemma ResetExact(ms: seq<Addr>, r: Repairs, r': Repairs, self: Addr, n: Node, m: map<Addr, int>, v: int)
    requires !r.replies && r'.replies
    ensures m + Reset(Config(ms, r), self, n, v) == m + Reset(Config(ms, r'), self, n, v)
            <==> forall p :: p in ms && p != self && p in n.replicating ==> p in m && m[p] == v
  {
    var a, b := m + Reset(Config(ms, r), self, n, v), m + Reset(Config(ms, r'), self, n, v);
    if a == b {
      forall p | p in ms && p != self && p in n.replicating ensures p in m && m[p] == v {
        assert p in b && b[p] == v;
        assert p !in Reset(Config(ms, r), self, n, v);
      }
    }
  }

  lemma ElectionExact(ms: seq<Addr>, r: Repairs, r': Repairs, self: Addr, n: Node)
    requires !r.replies && r'.replies
    ensures SwitchToLeader(Config(ms, r), self, n) == SwitchToLeader(Config(ms, r'), self, n)
            <==> ElectionAgrees(ms, self, n)
  {
    var n1 := n.(status := Leader, leaderAddr := self);
    ResetExact(ms, r, r', self, n1, n.nextIndex, |n.log|);
    ResetExact(ms, r, r', self, n1, n.matchIndex, -1);
  }

  lemma VoteBackExact(ms: seq<Addr>, r: Repairs, r': Repairs, self: Addr, n: Node, res: Option<VoteRes>)
    requires !r.replies && r'.replies
    ensures VoteCallBack(Config(ms, r), self, n, res) == VoteCallBack(Config(ms, r'), self, n, res)
            <==> VoteBackAgrees(ms, self, n, res)
  {
    if Wins(Config(ms, r), n, res) {
      var n1 := n.(votePass := n.votePass[n.term := Lookup(n.votePass, n.term) + 1]);
      VoteBackWins(Config(ms, r), self, n, res);
      VoteBackWins(Config(ms, r'), self, n, res);
      WinExact(ms, r, r', self, n, n1);
    } else {
      VoteBackLoses(ms, r, r', self, n, res);
    }
  }

  lemma WinExact(ms: seq<Addr>, r: Repairs, r': Repairs, self: Addr, n: Node, n1: Node)
    requires !r.replies && r'.replies
    requires n1 == n.(votePass := n1.votePass)
    ensures SwitchToLeader(Config(ms, r), self, n1) == SwitchToLeader(Config(ms, r'), self, n1)
            <==> ElectionAgrees(ms, self, n)
  {
    hide SwitchToLeader;
    ElectionExact(ms, r, r', self, n1);
    assert ElectionAgrees(ms, self, n1) == ElectionAgrees(ms, self, n);
  }

  lemma VoteBackWins(cfg: Config, self: Addr, n: Node, res: Option<VoteRes>)
    requires Wins(cfg, n, res)
    ensures VoteCallBack(cfg, self, n, res)
            == SwitchToLeader(cfg, self, n.(votePass := n.votePass[n.term := Lookup(n.votePass, n.term) + 1]))
  {
  }

  lemma VoteBackLoses(ms: seq<Addr>, r: Repairs, r': Repairs, self: Addr, n: Node, res: Option<VoteRes>)
    requires !Wins(Config(ms, r), n, res)
    ensures VoteCallBack(Config(ms, r), self, n, res) == VoteCallBack(Config(ms, r'), self, n, res)
  {
  }

  // ----- whole actions and whole runs -----

  /** The condition on an action, in the state it is taken in. */
  predicate ActionAgrees(ms: seq<Addr>, s: State, a: Action) {
    Enabled(Config(ms, SHOWN), s, a) ==>
      match a
      case VoteBack(call, res) => VoteBackAgrees(ms, call.candidate, s.nodes[call.candidate], res)
      case DeliverTo(f, req) => AppendAgrees(s.nodes[f], req)
      case ReplicateBack(f, req, res) => ReplyAgrees(ms, req.leader, s.nodes[req.leader], f, req, res)
      case _ => true
  }

  lemma DeliverSame(ms: seq<Addr>, s: State, f: Addr, req: AppendReq)
    requires f in s.nodes
    ensures DoDeliver(Config(ms, SHOWN), s, f, req) == DoDeliver(Config(ms, REPAIRED), s, f, req)
            <==> AppendAgrees(s.nodes[f], req)
  {
    AppendExact(s.nodes[f], req);
    var a, b := DoDeliver(Config(ms, SHOWN), s, f, req), DoDeliver(Config(ms, REPAIRED), s, f, req);
    assert a.nodes[f] == AppendEntries(SHOWN, s.nodes[f], req).0
      && b.nodes[f] == AppendEntries(REPAIRED, s.nodes[f], req).0;
    AnswersSame(SHOWN, REPAIRED, s.nodes[f], req);
  }

  /** The answers never depend on the repairs. */
  lemma AnswersSame(r: Repairs, r': Repairs, n: Node, req: AppendReq)
    ensures AppendEntries(r, n, req).1 == AppendEntries(r', n, req).1
  {
    match Judge(n, req)
    case Mismatch =>
    case Accepted => if req.entries == [] {} else {}
    case _ =>
  }

  lemma ReplicateBackSame(ms: seq<Addr>, s: State, f: Addr, req: AppendReq, res: Option<AppendRes>)
    requires WellFormed(Config(ms, SHOWN)) && req.leader in s.nodes
    ensures DoReplicateBack(Config(ms, SHOWN), s, f, req, res) == DoReplicateBack(Config(ms, REPAIRED), s, f, req, res)
            <==> ReplyAgrees(ms, req.leader, s.nodes[req.leader], f, req, res)
  {
    ReplyExact(ms, req.leader, s.nodes[req.leader], f, req, res);
    var a := DoReplicateBack(Config(ms, SHOWN), s, f, req, res);
    var b := DoReplicateBack(Config(ms, REPAIRED), s, f, req, res);
    assert a.nodes[req.leader] == ReplicateReply(Config(ms, SHOWN), req.leader, s.nodes[req.leader], f, req, res);
    assert b.nodes[req.leader] == ReplicateReply(Config(ms, REPAIRED), req.leader, s.nodes[req.leader], f, req, res);
  }

  lemma VoteBackSame(ms: seq<Addr>, s: State, call: VoteCall, res: Option<VoteRes>)
    requires call.candidate in s.nodes
    ensures DoVoteBack(Config(ms, SHOWN), s, call, res) == DoVoteBack(Config(ms, REPAIRED), s, call, res)
            <==> VoteBackAgrees(ms, call.candidate, s.nodes[call.candidate], res)
  {
    var i := call.candidate;
    VoteBackExact(ms, SHOWN, REPAIRED, i, s.nodes[i], res);
    var a, b := DoVoteBack(Config(ms, SHOWN), s, call, res), DoVoteBack(Config(ms, REPAIRED), s, call, res);
    assert a.nodes[i] == VoteCallBack(Config(ms, SHOWN), i, s.nodes[i], res);
    assert b.nodes[i] == VoteCallBack(Config(ms, REPAIRED), i, s.nodes[i], res);
  }

  /** One action of the code has the effect of the repaired one exactly under ActionAgrees. */
  lemma NextExact(ms: seq<Addr>, s: State, a: Action)
    requires WellFormed(Config(ms, SHOWN))
    ensures Next(Config(ms, SHOWN), s, a) == Next(Config(ms, REPAIRED), s, a) <==> ActionAgrees(ms, s, a)
  {
    if Enabled(Config(ms, SHOWN), s, a) {
      match a
      case VoteBack(call, res) => VoteBackSame(ms, s, call, res);
      case DeliverTo(f, req) => DeliverSame(ms, s, f, req);
      case ReplicateBack(f, req, res) => ReplicateBackSame(ms, s, f, req, res);
      case _ =>
    }
  }
}
