/**
 How a node behind in term gets to know: every answer carries the term of the node that gave it, and
 a leader or candidate shown a later term becomes a follower of it. With any choice of repairs.
 */
module TermNews {
  import opened Base
  import opened RaftNode
  import opened Cluster
  import opened Frames
  import opened ElectionSafety

  // ----- what a vote answers -----

  /** The last term and the length the request claims are at least those of the node. */
  predicate ClaimsAtLeast(n: Node, req: VoteReq) {
    req.lastTerm > n.lastLogTerm || (req.lastTerm == n.lastLogTerm && req.lastIndex + 1 >= |n.log|)
  }

  /** Only a leader gives no answer; any other node's answer carries the term it has after the vote. */
  lemma VoteAnswers(n: Node, req: VoteReq)
    ensures var (n', res) := Vote(n, req);
            && (res.None? <==> n.status == Leader) && (res.None? ==> n' == n)
            && (res.Some? ==> res.value.term == n'.term)
  {
  }

  /** A claim that good, of no older term, from the one the term's vote is promised to, if it is to any. */
  predicate DeservesVote(n: Node, req: VoteReq) {
    && n.status != Leader && req.term >= n.term && ClaimsAtLeast(n, req)
    && (req.term in n.voteFor ==> n.voteFor[req.term] == req.candidate)
  }

  /** The vote is given exactly to such a claim, and only then noted. */
  lemma VoteGivenExactly(n: Node, req: VoteReq)
    ensures var (n', res) := Vote(n, req);
            && (res.Some? && res.value.pass <==> DeservesVote(n, req))
            && n'.voteFor == (if DeservesVote(n, req) then n.voteFor[req.term := req.candidate] else n.voteFor)
  {
    if n.status == Leader {
    } else if req.term < n.term || Behind(n, req) {
      assert !DeservesVote(n, req);
    } else if DeservesVote(n, req) {
      assert Vote(n, req).1 == Some(VoteRes(req.term, true));
    } else {
      assert Vote(n, req).1 == Some(VoteRes(req.term, false));
    }
    VoteCases(n, req);
  }

  /** The node's term rises exactly for a later term with a claim that good, and makes it a follower. */
  lemma VoteRaisesExactly(n: Node, req: VoteReq)
    ensures var n' := Vote(n, req).0;
            if n.status != Leader && req.term > n.term && ClaimsAtLeast(n, req)
            then n'.term == req.term && n'.status == Follower
            else n'.term == n.term && n'.status == n.status
  {
    if n.status == Leader {
    } else if req.term < n.term || Behind(n, req) {
    } else if req.term == n.term {
      assert Vote(n, req).0.term == n.term;
    } else {
      assert Vote(n, req).0.term == req.term;
    }
  }

  // ----- what an answer does to the node that asked -----

  /** A candidate shown a later term is a follower of it; other answers without a vote change nothing. */
  lemma CandidateStepsDown(cfg: Config, i: Addr, n: Node, res: VoteRes)
    ensures var n' := VoteCallBack(cfg, i, n, Some(res));
            && (n.status == Candidate && res.term > n.term ==> n' == n.(status := Follower, term := res.term))
            && (n.status != Candidate || res.term < n.term || (res.term == n.term && !res.pass) ==> n' == n)
    ensures VoteCallBack(cfg, i, n, None) == n
  {
  }

  /** Any node shown a later term by an answer to entries is a follower of it. */
  lemma ReplyStepsDown(cfg: Config, i: Addr, n: Node, f: Addr, req: AppendReq, res: AppendRes)
    ensures res.term > n.term ==>
              ReplicateReply(cfg, i, n, f, req, Some(res)) == n.(status := Follower, term := res.term)
    ensures res.term <= n.term && n.status != Leader ==> ReplicateReply(cfg, i, n, f, req, Some(res)) == n
    ensures ReplicateReply(cfg, i, n, f, req, None) == n
  {
  }

  /** So is a leader shown one by an answer to a heartbeat; nothing else comes of those. */
  lemma BeatStepsDown(n: Node, res: AppendRes)
    ensures HeartBeatCallBack(n, Some(res))
            == if n.status == Leader && res.term > n.term then n.(status := Follower, term := res.term) else n
    ensures HeartBeatCallBack(n, None) == n
  {
  }

  /** A follower's answer to entries or a heartbeat carries the term it has then. */
  lemma AppendAnswers(r: Repairs, n: Node, req: AppendReq)
    ensures var (n', res) := AppendEntries(r, n, req);
            res.term == n'.term == if req.term >= n.term then req.term else n.term
  {
    hide FollowerCommit;
    var n1 := Follow(n, req);
    if Judge(n, req) == Accepted && req.entries != [] { assert OnlyLog(n1, AcceptEntries(r, n1, req)); }
    if Judge(n, req) == Mismatch { TruncateCases(r, n1, req.prevIndex - 1); }
  }

  // ----- over whole runs -----

  /** At step k node v handles the ballot and gives this answer. */
  ghost predicate AnswersBallot(cfg: Config, run: seq<Action>, k: int, v: Addr, req: VoteReq, res: VoteRes) {
    && 0 <= k < |run| && run[k] == VoteAt(v, req) && Enabled(cfg, After(cfg, run[..k]), run[k])
    && Vote(After(cfg, run[..k]).nodes[v], req).1 == Some(res)
  }

  lemma NewVoteReply(cfg: Config, s: State, a: Action, reply: VoteReply)
    requires reply in Next(cfg, s, a).voteReplies && reply !in s.voteReplies
    ensures a.VoteAt? && Enabled(cfg, s, a) && Vote(s.nodes[a.j], a.ballot).1 == Some(reply.res)
    ensures reply.call == VoteCall(a.ballot.candidate, a.ballot.term, a.j)
  {
    hide VoteLeader, Vote, VoteCallBack, ClientWrite, AppendEntries, ReplicateReply, HeartBeatCallBack;
    hide ApplyBegin, ApplyEntry, ApplyTag, BuildAppend, HeartBeat;
  }

  /** Every answer that a call can bring was given by the peer it was made to. */
  lemma {:induction false} VoteReplyOrigin(cfg: Config, run: seq<Action>, reply: VoteReply)
    returns (k: nat, req: VoteReq)
    requires reply in After(cfg, run).voteReplies
    ensures AnswersBallot(cfg, run, k, reply.call.peer, req, reply.res)
    ensures req.candidate == reply.call.candidate && req.term == reply.call.term
  {
    hide Next, Enabled, Vote;
    k, req := 0, VoteReq(0, reply.call.candidate, 0, 0);
    if run == [] {
      NoReplies(cfg);
      assert false;
    } else {
      var most, a := run[..|run| - 1], run[|run| - 1];
      if reply in After(cfg, most).voteReplies {
        k, req := VoteReplyOrigin(cfg, most, reply);
        assert most[..k] == run[..k];
      } else {
        NewVoteReply(cfg, After(cfg, most), a, reply);
        k, req := |most|, a.ballot;
        assert a == VoteAt(a.j, a.ballot);
      }
    }
  }

  lemma NoReplies(cfg: Config)
    ensures After(cfg, []).voteReplies == {}
  {
  }

  lemma NodeAfter(cfg: Config, run: seq<Action>, k: nat)
    requires k < |run| && Enabled(cfg, After(cfg, run[..k]), run[k])
    ensures var s := After(cfg, run[..k]); var i := Actor(run[k]);
            i in s.nodes && i in After(cfg, run[..k + 1]).nodes
            && After(cfg, run[..k + 1]).nodes[i] == Handle(cfg, s.nodes[i], run[k])
  {
    hide Next, Enabled, Handle;
    assert run[..k + 1] == run[..k] + [run[k]];
    AfterSnoc(cfg, run[..k], run[k]);
    ActorHandles(cfg, After(cfg, run[..k]), run[k]);
  }

  lemma TermStays(cfg: Config, run: seq<Action>, k: nat, m: nat, i: Addr)
    requires WellFormed(cfg) && k <= m <= |run| && i in After(cfg, run[..k]).nodes
    ensures i in After(cfg, run[..m]).nodes
    ensures After(cfg, run[..k]).nodes[i].term <= After(cfg, run[..m]).nodes[i].term
  {
    hide After;
    assert run[..m][..k] == run[..k];
    RunGrows(cfg, run[..m], k);
  }

  /** The answer to a vote carries the voter's term right after it, whenever it comes back. */
  lemma VoteReplyTerm(cfg: Config, run: seq<Action>, reply: VoteReply) returns (k: nat)
    requires reply in After(cfg, run).voteReplies
    ensures k < |run| && reply.call.peer in After(cfg, run[..k + 1]).nodes
    ensures reply.res.term == After(cfg, run[..k + 1]).nodes[reply.call.peer].term
  {
    hide After, Vote, Enabled;
    var req: VoteReq;
    k, req := VoteReplyOrigin(cfg, run, reply);
    NodeAfter(cfg, run, k);
    VoteAnswers(After(cfg, run[..k]).nodes[reply.call.peer], req);
  }

  /**
   A candidate that gets the answer of a voter whose term is later has at least that term from then on,
   and is at once a follower of it, so no candidate of the old term ever again.
   */
  lemma CandidateLearns(cfg: Config, run: seq<Action>, k: nat, m: nat, call: VoteCall, res: VoteRes) returns (j: nat)
    requires WellFormed(cfg) && k < m <= |run| && run[k] == VoteBack(call, Some(res))
    requires Enabled(cfg, After(cfg, run[..k]), run[k])
    requires After(cfg, run[..k]).nodes[call.candidate].status == Candidate
    ensures j < k && call.peer in After(cfg, run[..j + 1]).nodes && call.candidate in After(cfg, run[..m]).nodes
    ensures call.candidate in After(cfg, run[..k + 1]).nodes
    ensures var t := After(cfg, run[..j + 1]).nodes[call.peer].term;
            var was, now := After(cfg, run[..k]).nodes[call.candidate], After(cfg, run[..m]).nodes[call.candidate];
            && t == res.term && now.term >= t
            && (t > was.term ==>
                 && After(cfg, run[..k + 1]).nodes[call.candidate].status == Follower
                 && !(now.status == Candidate && now.term == was.term))
  {
    hide After, Vote, VoteCallBack;
    var s := After(cfg, run[..k]);
    assert VoteReply(call, res) in s.voteReplies;
    j := VoteReplyTerm(cfg, run[..k], VoteReply(call, res));
    assert run[..k][..j + 1] == run[..j + 1];
    NodeAfter(cfg, run, k);
    CandidateStepsDown(cfg, call.candidate, s.nodes[call.candidate], res);
    VoteBackCases(cfg, call.candidate, s.nodes[call.candidate], Some(res));
    TermStays(cfg, run, k + 1, m, call.candidate);
  }

  /** After an answer to entries, the node that sent them is of no older term, and so leads none. */
  lemma LeaderLearns(cfg: Config, run: seq<Action>, k: nat, m: nat, f: Addr, req: AppendReq, res: AppendRes)
    requires WellFormed(cfg) && k < m <= |run| && run[k] == ReplicateBack(f, req, Some(res))
    requires Enabled(cfg, After(cfg, run[..k]), run[k])
    ensures req.leader in After(cfg, run[..m]).nodes && After(cfg, run[..m]).nodes[req.leader].term >= res.term
    ensures req.leader in After(cfg, run[..k + 1]).nodes
    ensures res.term > After(cfg, run[..k]).nodes[req.leader].term ==>
              After(cfg, run[..k + 1]).nodes[req.leader].status == Follower
  {
    hide After, ReplicateReply;
    var n := After(cfg, run[..k]).nodes[req.leader];
    NodeAfter(cfg, run, k);
    ReplyStepsDown(cfg, req.leader, n, f, req, res);
    ReplyCases(cfg, req.leader, n, f, req, Some(res));
    TermStays(cfg, run, k + 1, m, req.leader);
  }

  /** A leader that gets the answer to a heartbeat is of no older term either. */
  lemma BeatLearns(cfg: Config, run: seq<Action>, k: nat, m: nat, f: Addr, req: AppendReq, res: AppendRes)
    requires WellFormed(cfg) && k < m <= |run| && run[k] == HeartBeatBack(f, req, Some(res))
    requires Enabled(cfg, After(cfg, run[..k]), run[k])
    requires After(cfg, run[..k]).nodes[req.leader].status == Leader
    ensures req.leader in After(cfg, run[..m]).nodes && After(cfg, run[..m]).nodes[req.leader].term >= res.term
  {
    hide After, HeartBeatCallBack;
    var n := After(cfg, run[..k]).nodes[req.leader];
    NodeAfter(cfg, run, k);
    BeatStepsDown(n, res);
    TermStays(cfg, run, k + 1, m, req.leader);
  }
}
