/**
 The departures flag by flag, from any choice of the other repairs: for each one the condition, checkable
 before the call, under which an action has the same effect without it. A run that meets the
 conditions of some flags is a run with those repairs made, so it has every property that needs
 no others.
 */
module Transfers {
  import opened Base
  import opened RaftNode
  import opened Cluster
  import opened LogMatching
  import opened LeaderCompleteness
  import opened CommitQuorum
  import opened StateMachineSafety
  import opened Departures

  datatype Flag = AlignFlag | CommitFlag | RepliesFlag | SelfFlag | EmptyFlag

  function With(r: Repairs, flag: Flag): Repairs {
    match flag
    case AlignFlag => r.(align := true)
    case CommitFlag => r.(commit := true)
    case RepliesFlag => r.(replies := true)
    case SelfFlag => r.(self := true)
    case EmptyFlag => r.(empty := true)
  }

  // ----- AppendEntriesImpl -----

  /** Entries that are accepted continue the log where it ends. */
  predicate AlignFits(r: Repairs, n: Node, req: AppendReq) {
    r.align || (Judge(n, req) == Accepted && req.entries != [] ==> |n.log| == Max(req.prevIndex + 1, 0))
  }

  /** The length of the log after entries are accepted. */
  function LengthAfter(r: Repairs, n: Node, req: AppendReq): nat
    requires req.prevIndex < |n.log|
  {
    var from := Max(req.prevIndex + 1, 0);
    if !r.align then |n.log| + |req.entries|
    else if Agreeing(n.log, from, req.entries) == |req.entries| then |n.log|
    else from + |req.entries|
  }

  /** The commit index taken over is the one the request allows. */
  predicate CommitFits(r: Repairs, n: Node, req: AppendReq) {
    r.commit
    || (Judge(n, req) == Accepted ==>
          if req.entries == [] then HeartBeatAgrees(n, req)
          else Min(LengthAfter(r, n, req) - 1, req.leaderCommit)
               == Max(n.commit, Min(req.prevIndex + |req.entries|, req.leaderCommit)))
  }

  /** A cut leaves something, or there is no last term to keep. */
  predicate EmptyFits(r: Repairs, n: Node, req: AppendReq) {
    r.empty || (Judge(n, req) == Mismatch ==> TruncateAgrees(n, req))
  }

  function Settled(n: Node, commit: int): Node {
    n.(commit := commit)
  }

  lemma SettledDiffer(n: Node, n': Node, a: int, b: int)
    requires n.log != n'.log
    ensures Settled(n, a) != Settled(n', b)
  {
  }

  lemma AcceptedIs(r: Repairs, n: Node, req: AppendReq)
    requires Judge(n, req) == Accepted && req.entries != []
    ensures var n2 := AcceptEntries(r, Follow(n, req), req);
            AppendEntries(r, n, req).0 == Settled(n2, FollowerCommit(r, n2.log, n.commit, req))
  {
    hide AcceptEntries, FollowerCommit, Judge;
  }

  lemma MismatchIs(r: Repairs, n: Node, req: AppendReq)
    requires Judge(n, req) == Mismatch
    ensures AppendEntries(r, n, req).0 == Truncate(r, Follow(n, req), req.prevIndex - 1)
  {
    hide Truncate, Judge;
  }

  lemma HeartBeatIs(r: Repairs, n: Node, req: AppendReq)
    requires Judge(n, req) == Accepted && req.entries == []
    ensures AppendEntries(r, n, req).0 == Settled(Follow(n, req), FollowerCommit(r, n.log, n.commit, req))
  {
    hide FollowerCommit, Judge;
  }

  lemma RefusedIs(r: Repairs, n: Node, req: AppendReq)
    requires Judge(n, req) != Mismatch && Judge(n, req) != Accepted
    ensures AppendEntries(r, n, req).0 == if Judge(n, req) == Outdated then n else Follow(n, req)
  {
    hide Judge, AcceptEntries, Truncate, FollowerCommit;
  }

  lemma AcceptAligns(r: Repairs, n: Node, req: AppendReq)
    requires req.prevIndex < |n.log| && req.entries != [] && !r.align
    ensures AcceptEntries(r, n, req) == AcceptEntries(r.(align := true), n, req)
            <==> |n.log| == Max(req.prevIndex + 1, 0)
    ensures |n.log| != Max(req.prevIndex + 1, 0) ==>
              AcceptEntries(r, n, req).log != AcceptEntries(r.(align := true), n, req).log
  {
    var from := Max(req.prevIndex + 1, 0);
    if |n.log| == from {
      AlignAtEnd(r.(align := true), n, req.entries);
    } else {
      AlignShorter(r.(align := true), n, from, req.entries);
    }
  }

  lemma AlignExact(r: Repairs, n: Node, req: AppendReq)
    ensures AppendEntries(r, n, req).0 == AppendEntries(r.(align := true), n, req).0 <==> AlignFits(r, n, req)
  {
    hide AcceptEntries, AppendEntries, Truncate, FollowerCommit, Judge, Settled, Follow;
    var r' := r.(align := true);
    FollowKeepsLog(n, req);
    if r.align {
      assert r' == r;
    } else {
      match Judge(n, req)
      case Accepted =>
        if req.entries != [] {
          AcceptedIs(r, n, req);
          AcceptedIs(r', n, req);
          AlignsAccepted(r, n, req);
        } else {
          HeartBeatIs(r, n, req);
          HeartBeatIs(r', n, req);
          SameFollowerCommit(r, r', n, req);
        }
      case Mismatch =>
        MismatchIs(r, n, req);
        MismatchIs(r', n, req);
        SameTruncate(r, r', Follow(n, req), req.prevIndex - 1);
      case _ =>
        RefusedIs(r, n, req);
        RefusedIs(r', n, req);
    }
  }

  lemma AlignsAccepted(r: Repairs, n: Node, req: AppendReq)
    requires Judge(n, req) == Accepted && req.entries != [] && !r.align
    ensures var r' := r.(align := true);
            var n2, n2' := AcceptEntries(r, Follow(n, req), req), AcceptEntries(r', Follow(n, req), req);
            Settled(n2, FollowerCommit(r, n2.log, n.commit, req))
              == Settled(n2', FollowerCommit(r', n2'.log, n.commit, req))
            <==> |n.log| == Max(req.prevIndex + 1, 0)
  {
    hide AcceptEntries, FollowerCommit, Settled, Judge;
    var r' := r.(align := true);
    var n2, n2' := AcceptEntries(r, Follow(n, req), req), AcceptEntries(r', Follow(n, req), req);
    AcceptAligns(r, Follow(n, req), req);
    SameFollowerCommit(r, r', n, req);
    if |n.log| != Max(req.prevIndex + 1, 0) {
      SettledDiffer(n2, n2', FollowerCommit(r, n2.log, n.commit, req), FollowerCommit(r', n2'.log, n.commit, req));
    }
  }

  lemma SameFollowerCommit(r: Repairs, r': Repairs, n: Node, req: AppendReq)
    requires r'.commit == r.commit
    ensures forall log :: FollowerCommit(r', log, n.commit, req) == FollowerCommit(r, log, n.commit, req)
  {
  }

  lemma SameTruncate(r: Repairs, r': Repairs, n: Node, slot: int)
    requires slot < |n.log| && r'.empty == r.empty
    ensures Truncate(r', n, slot) == Truncate(r, n, slot)
  {
  }

  lemma AcceptedLength(r: Repairs, n: Node, req: AppendReq)
    requires req.prevIndex < |n.log|
    ensures |AcceptEntries(r, n, req).log| == LengthAfter(r, n, req)
  {
    if r.align { AlignLog(r, n, Max(req.prevIndex + 1, 0), req.entries); }
  }

  lemma SameAccept(r: Repairs, n: Node, req: AppendReq)
    requires req.prevIndex < |n.log|
    ensures AcceptEntries(r.(commit := true), n, req) == AcceptEntries(r, n, req)
  {
  }

  lemma CommitExact(r: Repairs, n: Node, req: AppendReq)
    ensures AppendEntries(r, n, req).0 == AppendEntries(r.(commit := true), n, req).0 <==> CommitFits(r, n, req)
  {
    hide AcceptEntries, AppendEntries, Truncate, LengthAfter, Settled, Follow;
    var r' := r.(commit := true);
    FollowKeepsLog(n, req);
    if r.commit {
      assert r' == r;
    } else {
      match Judge(n, req)
      case Accepted =>
        if req.entries != [] {
          var n2 := AcceptEntries(r, Follow(n, req), req);
          AcceptedIs(r, n, req);
          AcceptedIs(r', n, req);
          SameAccept(r, Follow(n, req), req);
          AcceptedLength(r, Follow(n, req), req);
          CommitsOnlyDiffer(n2, FollowerCommit(r, n2.log, n.commit, req), FollowerCommit(r', n2.log, n.commit, req));
          SameLength(r, n, req);
        } else {
          HeartBeatIs(r, n, req);
          HeartBeatIs(r', n, req);
          CommitsOnlyDiffer(Follow(n, req), FollowerCommit(r, n.log, n.commit, req),
            FollowerCommit(r', n.log, n.commit, req));
        }
      case Mismatch =>
        MismatchIs(r, n, req);
        MismatchIs(r', n, req);
        SameTruncate(r, r', Follow(n, req), req.prevIndex - 1);
      case _ =>
        RefusedIs(r, n, req);
        RefusedIs(r', n, req);
    }
  }

  lemma SameLength(r: Repairs, n: Node, req: AppendReq)
    requires req.prevIndex < |n.log|
    ensures LengthAfter(r, Follow(n, req), req) == LengthAfter(r, n, req)
  {
  }

  lemma CommitsOnlyDiffer(n: Node, a: int, b: int)
    ensures Settled(n, a) == Settled(n, b) <==> a == b
  {
  }

  lemma AcceptEmpties(r: Repairs, n: Node, req: AppendReq)
    requires req.prevIndex < |n.log| && req.entries != []
    ensures AcceptEntries(r.(empty := true), n, req) == AcceptEntries(r, n, req)
  {
    if r.align {
      var from := Max(req.prevIndex + 1, 0);
      var k := Agreeing(n.log, from, req.entries);
      if k < |req.entries| {
        assert req.entries[k..] != [];
      }
    }
  }

  lemma CutEmpties(r: Repairs, n: Node, slot: int)
    requires slot < |n.log| && !r.empty
    ensures Truncate(r, n, slot) == Truncate(r.(empty := true), n, slot) <==> slot >= 0 || n.lastLogTerm == -1
  {
    var a, b := Truncate(r, n, slot), Truncate(r.(empty := true), n, slot);
    assert b == a.(lastLogTerm := b.lastLogTerm);
  }

  lemma EmptyExact(r: Repairs, n: Node, req: AppendReq)
    ensures AppendEntries(r, n, req).0 == AppendEntries(r.(empty := true), n, req).0 <==> EmptyFits(r, n, req)
  {
    hide AcceptEntries, AppendEntries, Truncate, FollowerCommit, Judge, Settled, Follow;
    var r' := r.(empty := true);
    FollowKeepsLog(n, req);
    if r.empty {
      assert r' == r;
    } else {
      match Judge(n, req)
      case Accepted =>
        SameFollowerCommit(r, r', n, req);
        if req.entries != [] {
          AcceptedIs(r, n, req);
          AcceptedIs(r', n, req);
          AcceptEmpties(r, Follow(n, req), req);
        } else {
          HeartBeatIs(r, n, req);
          HeartBeatIs(r', n, req);
        }
      case Mismatch =>
        MismatchIs(r, n, req);
        MismatchIs(r', n, req);
        CutEmpties(r, Follow(n, req), req.prevIndex - 1);
      case _ =>
        RefusedIs(r, n, req);
        RefusedIs(r', n, req);
    }
  }

  // ----- replies and elections -----

  /** The reply moves no commit index by the node's own, never assigned, match index. */
  predicate SelfFits(ms: seq<Addr>, r: Repairs, self: Addr, n: Node, f: Addr, req: AppendReq, res: Option<AppendRes>) {
    r.self || res.None? || res.value.term > n.term || n.status != Leader || (r.replies && req.term != n.term)
    || !res.value.success || AdvanceAgrees(ms, self, n, f, req)
  }

  /** The reply of an older term would change nothing. */
  predicate RepliesFit(ms: seq<Addr>, r: Repairs, self: Addr, n: Node, f: Addr, req: AppendReq,
                       res: Option<AppendRes>) {
    r.replies || res.None? || res.value.term > n.term || n.status != Leader || req.term == n.term
    || StaleIsNoop(ms, r, self, n, f, req, res.value)
  }

  lemma SelfExact(ms: seq<Addr>, r: Repairs, self: Addr, n: Node, f: Addr, req: AppendReq, res: Option<AppendRes>)
    requires WellFormed(Config(ms, r))
    ensures ReplicateReply(Config(ms, r), self, n, f, req, res)
            == ReplicateReply(Config(ms, r.(self := true)), self, n, f, req, res)
            <==> SelfFits(ms, r, self, n, f, req, res)
  {
    hide Advance, AdvanceAgrees, BackUp;
    if r.self {
      assert r.(self := true) == r;
    } else {
      AdvanceExact(ms, r, r.(self := true), self, n, f, req);
    }
  }

  lemma RepliesExact(ms: seq<Addr>, r: Repairs, self: Addr, n: Node, f: Addr, req: AppendReq, res: Option<AppendRes>)
    ensures ReplicateReply(Config(ms, r), self, n, f, req, res)
            == ReplicateReply(Config(ms, r.(replies := true)), self, n, f, req, res)
            <==> RepliesFit(ms, r, self, n, f, req, res)
  {
    var r' := r.(replies := true);
    if r.replies {
      assert r' == r;
    } else if res.Some? && res.value.term <= n.term && n.status == Leader {
      if req.term == n.term {
        hide Advance, BackUp;
        SameAdvance(ms, r, self, n, f, req);
      } else if res.value.success {
        hide Advance, StaleIsNoop;
        StaleSuccessExact(ms, r, self, n, f, req, res.value);
      } else if !res.value.busy {
        StaleRefusalExact(n, f, res.value.logLength);
      }
    }
  }

  lemma SameAdvance(ms: seq<Addr>, r: Repairs, self: Addr, n: Node, f: Addr, req: AppendReq)
    ensures Advance(Config(ms, r.(replies := true)), self, n, f, req) == Advance(Config(ms, r), self, n, f, req)
  {
    var last := req.prevIndex + |req.entries|;
    SameMatches(r, self, n.matchIndex[f := last], last, ms);
  }

  lemma {:induction false} SameMatches(r: Repairs, self: Addr, match_: map<Addr, int>, index: int, ms: seq<Addr>)
    ensures Matches(r.(replies := true), self, match_, index, ms) == Matches(r, self, match_, index, ms)
  {
    if ms != [] { SameMatches(r, self, match_, index, ms[..|ms| - 1]); }
  }

  // ----- whole actions -----

  /** The condition of a flag on an action, in the state it is taken in. */
  predicate Fits(ms: seq<Addr>, r: Repairs, flag: Flag, s: State, a: Action) {
    Enabled(Config(ms, r), s, a) ==>
      match a
      case DeliverTo(f, req) =>
        (match flag
         case AlignFlag => AlignFits(r, s.nodes[f], req)
         case CommitFlag => CommitFits(r, s.nodes[f], req)
         case EmptyFlag => EmptyFits(r, s.nodes[f], req)
         case _ => true)
      case ReplicateBack(f, req, res) =>
        (match flag
         case SelfFlag => SelfFits(ms, r, req.leader, s.nodes[req.leader], f, req, res)
         case RepliesFlag => RepliesFit(ms, r, req.leader, s.nodes[req.leader], f, req, res)
         case _ => true)
      case VoteBack(call, res) =>
        (flag == RepliesFlag && !r.replies && Wins(Config(ms, r), s.nodes[call.candidate], res) ==>
           ElectionAgrees(ms, call.candidate, s.nodes[call.candidate]))
      case _ => true
  }

  /** The handlers that differ at all. */
  lemma FollowerExact(r: Repairs, flag: Flag, n: Node, req: AppendReq)
    ensures AppendEntries(r, n, req).0 == AppendEntries(With(r, flag), n, req).0
            <==> match flag
                 case AlignFlag => AlignFits(r, n, req)
                 case CommitFlag => CommitFits(r, n, req)
                 case EmptyFlag => EmptyFits(r, n, req)
                 case _ => true
  {
    match flag
    case AlignFlag => AlignExact(r, n, req);
    case CommitFlag => CommitExact(r, n, req);
    case EmptyFlag => EmptyExact(r, n, req);
    case RepliesFlag => FollowerIgnores(r, r.(replies := true), n, req);
    case SelfFlag => FollowerIgnores(r, r.(self := true), n, req);
  }

  lemma FollowerIgnores(r: Repairs, r': Repairs, n: Node, req: AppendReq)
    requires r'.align == r.align && r'.commit == r.commit && r'.empty == r.empty
    ensures AppendEntries(r', n, req).0 == AppendEntries(r, n, req).0
  {
    hide AcceptEntries, AppendEntries, Truncate, FollowerCommit, Judge, Settled, Follow;
    FollowKeepsLog(n, req);
    match Judge(n, req)
    case Accepted =>
      SameFollowerCommit(r, r', n, req);
      if req.entries != [] {
        AcceptedIs(r, n, req);
        AcceptedIs(r', n, req);
        AcceptIgnores(r, r', Follow(n, req), req);
      } else {
        HeartBeatIs(r, n, req);
        HeartBeatIs(r', n, req);
      }
    case Mismatch =>
      MismatchIs(r, n, req);
      MismatchIs(r', n, req);
      SameTruncate(r, r', Follow(n, req), req.prevIndex - 1);
    case _ =>
      RefusedIs(r, n, req);
      RefusedIs(r', n, req);
  }

  lemma AcceptIgnores(r: Repairs, r': Repairs, n: Node, req: AppendReq)
    requires r'.align == r.align && r'.empty == r.empty && req.prevIndex < |n.log|
    ensures AcceptEntries(r', n, req) == AcceptEntries(r, n, req)
  {
    hide WriteEntries;
  }

  lemma ReplyFlagExact(ms: seq<Addr>, r: Repairs, flag: Flag, self: Addr, n: Node, f: Addr, req: AppendReq,
                       res: Option<AppendRes>)
    requires WellFormed(Config(ms, r))
    ensures ReplicateReply(Config(ms, r), self, n, f, req, res)
            == ReplicateReply(Config(ms, With(r, flag)), self, n, f, req, res)
            <==> match flag
                 case SelfFlag => SelfFits(ms, r, self, n, f, req, res)
                 case RepliesFlag => RepliesFit(ms, r, self, n, f, req, res)
                 case _ => true
  {
    hide ReplicateReply, SelfFits, RepliesFit;
    match flag
    case SelfFlag => SelfExact(ms, r, self, n, f, req, res);
    case RepliesFlag => RepliesExact(ms, r, self, n, f, req, res);
    case _ => ReplyIgnores(ms, r, With(r, flag), self, n, f, req, res);
  }

  lemma ReplyIgnores(ms: seq<Addr>, r: Repairs, r': Repairs, self: Addr, n: Node, f: Addr, req: AppendReq,
                     res: Option<AppendRes>)
    requires r'.self == r.self && r'.replies == r.replies
    ensures ReplicateReply(Config(ms, r'), self, n, f, req, res) == ReplicateReply(Config(ms, r), self, n, f, req, res)
  {
    hide BackUp;
    MatchesIgnore(r, r', self, n.matchIndex[f := req.prevIndex + |req.entries|], req.prevIndex + |req.entries|, ms);
  }

  lemma {:induction false} MatchesIgnore(r: Repairs, r': Repairs, self: Addr, match_: map<Addr, int>,
                                         index: int, ms: seq<Addr>)
    requires r'.self == r.self
    ensures Matches(r', self, match_, index, ms) == Matches(r, self, match_, index, ms)
  {
    if ms != [] { MatchesIgnore(r, r', self, match_, index, ms[..|ms| - 1]); }
  }

  lemma VoteFlagExact(ms: seq<Addr>, r: Repairs, flag: Flag, self: Addr, n: Node, res: Option<VoteRes>)
    ensures VoteCallBack(Config(ms, r), self, n, res) == VoteCallBack(Config(ms, With(r, flag)), self, n, res)
            <==> (flag == RepliesFlag && !r.replies && Wins(Config(ms, r), n, res) ==> ElectionAgrees(ms, self, n))
  {
    if flag == RepliesFlag && !r.replies {
      VoteBackExact(ms, r, r.(replies := true), self, n, res);
      assert Wins(Config(ms, r), n, res) == Wins(Config(ms, SHOWN), n, res);
    } else {
      VoteIgnores(ms, r, With(r, flag), self, n, res);
    }
  }

  lemma VoteIgnores(ms: seq<Addr>, r: Repairs, r': Repairs, self: Addr, n: Node, res: Option<VoteRes>)
    requires r'.replies == r.replies
    ensures VoteCallBack(Config(ms, r'), self, n, res) == VoteCallBack(Config(ms, r), self, n, res)
  {
    assert forall v, m :: Reset(Config(ms, r'), self, m, v) == Reset(Config(ms, r), self, m, v);
  }

  lemma DeliverByNode(ms: seq<Addr>, r: Repairs, r': Repairs, s: State, f: Addr, req: AppendReq)
    requires f in s.nodes
    ensures DoDeliver(Config(ms, r), s, f, req) == DoDeliver(Config(ms, r'), s, f, req)
            <==> AppendEntries(r, s.nodes[f], req).0 == AppendEntries(r', s.nodes[f], req).0
  {
    hide AppendEntries;
    AnswersSame(r, r', s.nodes[f], req);
    var a, b := DoDeliver(Config(ms, r), s, f, req), DoDeliver(Config(ms, r'), s, f, req);
    assert a.nodes[f] == AppendEntries(r, s.nodes[f], req).0 && b.nodes[f] == AppendEntries(r', s.nodes[f], req).0;
  }

  lemma ReplyByNode(ms: seq<Addr>, r: Repairs, r': Repairs, s: State, f: Addr, req: AppendReq, res: Option<AppendRes>)
    requires req.leader in s.nodes
    ensures DoReplicateBack(Config(ms, r), s, f, req, res) == DoReplicateBack(Config(ms, r'), s, f, req, res)
            <==> ReplicateReply(Config(ms, r), req.leader, s.nodes[req.leader], f, req, res)
                 == ReplicateReply(Config(ms, r'), req.leader, s.nodes[req.leader], f, req, res)
  {
    hide ReplicateReply;
    var a, b := DoReplicateBack(Config(ms, r), s, f, req, res), DoReplicateBack(Config(ms, r'), s, f, req, res);
    assert a.nodes[req.leader] == ReplicateReply(Config(ms, r), req.leader, s.nodes[req.leader], f, req, res);
    assert b.nodes[req.leader] == ReplicateReply(Config(ms, r'), req.leader, s.nodes[req.leader], f, req, res);
  }

  lemma VoteByNode(ms: seq<Addr>, r: Repairs, r': Repairs, s: State, call: VoteCall, res: Option<VoteRes>)
    requires call.candidate in s.nodes
    ensures DoVoteBack(Config(ms, r), s, call, res) == DoVoteBack(Config(ms, r'), s, call, res)
            <==> VoteCallBack(Config(ms, r), call.candidate, s.nodes[call.candidate], res)
                 == VoteCallBack(Config(ms, r'), call.candidate, s.nodes[call.candidate], res)
  {
    hide VoteCallBack, Voters;
    var i := call.candidate;
    var a, b := DoVoteBack(Config(ms, r), s, call, res), DoVoteBack(Config(ms, r'), s, call, res);
    assert a.nodes[i] == VoteCallBack(Config(ms, r), i, s.nodes[i], res);
    assert b.nodes[i] == VoteCallBack(Config(ms, r'), i, s.nodes[i], res);
  }

  lemma SameEnabled(ms: seq<Addr>, r: Repairs, r': Repairs, s: State, a: Action)
    ensures Enabled(Config(ms, r), s, a) == Enabled(Config(ms, r'), s, a)
    ensures !a.DeliverTo? && !a.ReplicateBack? && !a.VoteBack?
            ==> Next(Config(ms, r), s, a) == Next(Config(ms, r'), s, a)
  {
    hide DoTimeout, DoVote, DoWrite, DoReplicate, DoHeartBeat;
    hide DoThread, SetNode, DoDeliver, DoReplicateBack, DoVoteBack;
  }

  /** One action has the same effect without the repair of a flag exactly when it fits. */
  lemma FlagExact(ms: seq<Addr>, r: Repairs, flag: Flag, s: State, a: Action)
    requires WellFormed(Config(ms, r))
    ensures Next(Config(ms, r), s, a) == Next(Config(ms, With(r, flag)), s, a) <==> Fits(ms, r, flag, s, a)
  {
    hide DoTimeout, DoVote, DoWrite, DoReplicate, DoHeartBeat;
    hide DoThread, SetNode, DoDeliver, DoReplicateBack, DoVoteBack;
    hide AlignFits, CommitFits, EmptyFits, SelfFits, RepliesFit, ElectionAgrees, Wins, With;
    var r' := With(r, flag);
    SameEnabled(ms, r, r', s, a);
    if Enabled(Config(ms, r), s, a) {
      match a
      case DeliverTo(f, req) =>
        DeliverByNode(ms, r, r', s, f, req);
        FollowerExact(r, flag, s.nodes[f], req);
      case ReplicateBack(f, req, res) =>
        ReplyByNode(ms, r, r', s, f, req, res);
        ReplyFlagExact(ms, r, flag, req.leader, s.nodes[req.leader], f, req, res);
      case VoteBack(call, res) =>
        VoteByNode(ms, r, r', s, call, res);
        VoteFlagExact(ms, r, flag, call.candidate, s.nodes[call.candidate], res);
      case _ =>
    }
  }

  // ----- whole runs -----

  ghost predicate RunFits(ms: seq<Addr>, r: Repairs, flag: Flag, run: seq<Action>) {
    forall k :: 0 <= k < |run| ==> Fits(ms, r, flag, After(Config(ms, r), run[..k]), run[k])
  }

  lemma FitsSnoc(ms: seq<Addr>, r: Repairs, flag: Flag, run: seq<Action>)
    requires run != []
    ensures var most := run[..|run| - 1];
            RunFits(ms, r, flag, run)
            <==> RunFits(ms, r, flag, most) && Fits(ms, r, flag, After(Config(ms, r), most), run[|run| - 1])
  {
    hide After, Fits;
    var most := run[..|run| - 1];
    assert forall k :: 0 <= k < |most| ==> most[..k] == run[..k];
    if RunFits(ms, r, flag, run) {
      forall k | 0 <= k < |most| ensures Fits(ms, r, flag, After(Config(ms, r), most[..k]), most[k]) {
        assert Fits(ms, r, flag, After(Config(ms, r), run[..k]), run[k]);
      }
    }
    if RunFits(ms, r, flag, most) && Fits(ms, r, flag, After(Config(ms, r), most), run[|run| - 1]) {
      forall k | 0 <= k < |run| ensures Fits(ms, r, flag, After(Config(ms, r), run[..k]), run[k]) {
        if k < |most| { assert Fits(ms, r, flag, After(Config(ms, r), most[..k]), most[k]); }
      }
    }
  }

  /** A run that fits a flag is the run with that repair made. */
  lemma {:induction false} FlagRun(ms: seq<Addr>, r: Repairs, flag: Flag, run: seq<Action>)
    requires WellFormed(Config(ms, r)) && RunFits(ms, r, flag, run)
    ensures After(Config(ms, r), run) == After(Config(ms, With(r, flag)), run)
  {
    hide Next, Fits, With;
    if run != [] {
      var most := run[..|run| - 1];
      FitsSnoc(ms, r, flag, run);
      FlagRun(ms, r, flag, most);
      FlagExact(ms, r, flag, After(Config(ms, r), most), run[|run| - 1]);
    } else {
      assert Init(Config(ms, r)) == Init(Config(ms, With(r, flag)));
    }
  }

  function WithAll(r: Repairs, flags: seq<Flag>): Repairs
    decreases |flags|
  {
    if flags == [] then r else WithAll(With(r, flags[0]), flags[1..])
  }

  ghost predicate RunFitsAll(ms: seq<Addr>, r: Repairs, flags: seq<Flag>, run: seq<Action>)
    decreases |flags|
  {
    flags == [] || (RunFits(ms, r, flags[0], run) && RunFitsAll(ms, With(r, flags[0]), flags[1..], run))
  }

  lemma {:induction false} FlagsRun(ms: seq<Addr>, r: Repairs, flags: seq<Flag>, run: seq<Action>)
    requires WellFormed(Config(ms, r)) && RunFitsAll(ms, r, flags, run)
    ensures After(Config(ms, r), run) == After(Config(ms, WithAll(r, flags)), run)
    decreases |flags|
  {
    hide RunFits, With, After;
    if flags != [] {
      FlagRun(ms, r, flags[0], run);
      SameMembers(ms, r, With(r, flags[0]));
      FlagsRun(ms, With(r, flags[0]), flags[1..], run);
    }
  }

  lemma SameMembers(ms: seq<Addr>, r: Repairs, r': Repairs)
    ensures WellFormed(Config(ms, r)) ==> WellFormed(Config(ms, r'))
  {
  }

  // ----- what the code has in such runs -----

  const FOR_COMMITS: seq<Flag> := [AlignFlag, RepliesFlag, SelfFlag]
  const FOR_SAFETY: seq<Flag> := [AlignFlag, RepliesFlag, SelfFlag, CommitFlag]

  lemma ForCommits()
    ensures WithAll(SHOWN, FOR_COMMITS) == SHOWN.(align := true, replies := true, self := true)
  {
    assert FOR_COMMITS[1..] == [RepliesFlag, SelfFlag] && FOR_COMMITS[1..][1..] == [SelfFlag];
    assert FOR_COMMITS[1..][1..][1..] == [];
  }

  lemma ForSafety()
    ensures Mended(WithAll(SHOWN, FOR_SAFETY))
  {
    assert FOR_SAFETY[1..] == [RepliesFlag, SelfFlag, CommitFlag] && FOR_SAFETY[1..][1..] == [SelfFlag, CommitFlag];
    assert FOR_SAFETY[1..][1..][1..] == [CommitFlag] && FOR_SAFETY[1..][1..][1..][1..] == [];
  }

  /** Where accepted entries continue the log, the code has log matching. */
  lemma CodeLogMatching(ms: seq<Addr>, run: seq<Action>, i: Addr, j: Addr, k: nat)
    requires WellFormed(Config(ms, SHOWN)) && RunFits(ms, SHOWN, AlignFlag, run)
    requires i in After(Config(ms, SHOWN), run).nodes && j in After(Config(ms, SHOWN), run).nodes
    requires k < |After(Config(ms, SHOWN), run).nodes[i].log| && k < |After(Config(ms, SHOWN), run).nodes[j].log|
    requires After(Config(ms, SHOWN), run).nodes[i].log[k].term == After(Config(ms, SHOWN), run).nodes[j].log[k].term
    ensures After(Config(ms, SHOWN), run).nodes[i].log[..k + 1] == After(Config(ms, SHOWN), run).nodes[j].log[..k + 1]
  {
    hide RunFits, After;
    FlagRun(ms, SHOWN, AlignFlag, run);
    SameMembers(ms, SHOWN, With(SHOWN, AlignFlag));
    LogMatching.LogMatching(Config(ms, With(SHOWN, AlignFlag)), run, i, j, k);
  }

  /** And leader completeness. */
  lemma CodeLeaderCompleteness(ms: seq<Addr>, run: seq<Action>, t: int, m: int, u: int)
    requires WellFormed(Config(ms, SHOWN)) && RunFits(ms, SHOWN, AlignFlag, run)
    requires Committed(After(Config(ms, SHOWN), run), t, m) && u in After(Config(ms, SHOWN), run).reigns && t < u
    ensures After(Config(ms, SHOWN), run).reigns[t].log[..m + 1] <= After(Config(ms, SHOWN), run).reigns[u].log
  {
    hide RunFits, After, Committed;
    FlagRun(ms, SHOWN, AlignFlag, run);
    SameMembers(ms, SHOWN, With(SHOWN, AlignFlag));
    LeaderCompleteness.LeaderCompleteness(Config(ms, With(SHOWN, AlignFlag)), run, t, m, u);
  }

  /** Where also old replies change nothing and no self-count decides, what its leaders commit survives. */
  lemma CodeCommitsSurvive(ms: seq<Addr>, run: seq<Action>, c: Commit, u: int)
    requires WellFormed(Config(ms, SHOWN)) && RunFitsAll(ms, SHOWN, FOR_COMMITS, run)
    requires c in After(Config(ms, SHOWN), run).commits && u in After(Config(ms, SHOWN), run).reigns && c.term < u
    ensures var s := After(Config(ms, SHOWN), run);
            c.term in s.reigns && 0 <= c.index < |s.reigns[c.term].log|
            && s.reigns[c.term].log[..c.index + 1] <= s.reigns[u].log
  {
    hide RunFitsAll, After;
    var r := WithAll(SHOWN, FOR_COMMITS);
    FlagsRun(ms, SHOWN, FOR_COMMITS, run);
    ForCommits();
    SameMembers(ms, SHOWN, r);
    LeaderCommitsSurvive(Config(ms, r), run, c, u);
  }

  /** Where also commit indices are taken over as allowed, no two nodes apply different entries at an index. */
  lemma CodeStateMachineSafety(ms: seq<Addr>, run: seq<Action>, i: Addr, j: Addr)
    requires WellFormed(Config(ms, SHOWN)) && RunFitsAll(ms, SHOWN, FOR_SAFETY, run)
    requires i in After(Config(ms, SHOWN), run).nodes && j in After(Config(ms, SHOWN), run).nodes
    ensures var p, q := After(Config(ms, SHOWN), run).nodes[i].applied, After(Config(ms, SHOWN), run).nodes[j].applied;
            p <= q || q <= p
  {
    hide RunFitsAll, After;
    var r := WithAll(SHOWN, FOR_SAFETY);
    FlagsRun(ms, SHOWN, FOR_SAFETY, run);
    ForSafety();
    SameMembers(ms, SHOWN, r);
    AppliedAgree(Config(ms, r), run, i, j);
  }
}
