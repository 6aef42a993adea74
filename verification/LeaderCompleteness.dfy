/**
 Leader completeness (sections 5.4.1 and 5.4.2 of the Raft paper): what a majority has accepted
 from the leader of term t, up to an entry of term t, is in the log every later leader starts
 from. It needs the alignment repair.

 The invariant follows one acknowledgement at a time: the node that gave it still has what it
 accepted, unless some leader elected since then was missing it (`Missed`). The same holds of
 every log a node voted for afterwards. The first leader that misses a majority's entries would
 then have been elected without a majority, so there is none.
 */
module LeaderCompleteness {
  import opened Base
  import opened RaftNode
  import opened Cluster
  import opened ElectionSafety
  import opened Frames
  import opened Provenance
  import opened LogMatching

  // ----- vocabulary -----

  ghost predicate ValidAck(s: State, a: Ack) {
    a.term in s.reigns && 0 <= a.index < |s.reigns[a.term].log|
  }

  /** What the acknowledgement is about: the leader's log up to the index. */
  ghost function Acked(s: State, a: Ack): seq<Entry> {
    if ValidAck(s, a) then s.reigns[a.term].log[..a.index + 1] else []
  }

  /** It ends with an entry of the leader's own term. */
  ghost predicate Own(s: State, a: Ack) {
    ValidAck(s, a) && s.reigns[a.term].log[a.index].term == a.term
  }

  /** The leader of the later term u started without what a is about. */
  ghost predicate MissedBy(s: State, a: Ack, u: int) {
    u in s.reigns && a.term < u && !(Acked(s, a) <= s.reigns[u].base)
  }

  ghost predicate Missed(s: State, a: Ack, bound: int) {
    exists u :: MissedBy(s, a, u) && u <= bound
  }

  ghost predicate Covered(s: State, a: Ack, log: seq<Entry>, bound: int) {
    Acked(s, a) <= log || Missed(s, a, bound)
  }

  // ----- the invariant -----

  ghost predicate AcksValid(s: State) {
    forall a :: a in s.acks ==> ValidAck(s, a) && a.node in s.nodes && a.term <= s.nodes[a.node].term
  }

  /** The node has kept what it acknowledged. */
  ghost predicate AckersInv(s: State) {
    forall a :: a in s.acks && Own(s, a) && a.node in s.nodes ==>
      Covered(s, a, s.nodes[a.node].log, s.nodes[a.node].term)
  }

  ghost predicate VotesFor(s: State, v: Addr, i: Addr) {
    i in s.nodes && s.nodes[i].status == Candidate && VotedFor(s, v, s.nodes[i].term, i)
  }

  /** A candidate's log has what its voters acknowledged before. */
  ghost predicate CandidatesInv(s: State) {
    forall i, a :: a in s.acks && VotesFor(s, a.node, i) && s.nodes[i].term !in s.reigns
                   && Own(s, a) && a.term < s.nodes[i].term ==>
      Covered(s, a, s.nodes[i].log, s.nodes[i].term - 1)
  }

  /** So has the log a leader was elected with. */
  ghost predicate LeadersInv(s: State) {
    forall u, a :: a in s.acks && u in s.reigns && a.node in s.reigns[u].voters
                   && Own(s, a) && a.term < u ==>
      Covered(s, a, s.reigns[u].base, u - 1)
  }

  /** The cached last term is right for every non-empty log. */
  ghost predicate CacheRight(n: Node) {
    n.log != [] ==> n.lastLogTerm == LastTerm(n.log)
  }

  /** The leader of the later term u has another first entry than the leader of t. */
  ghost predicate DroppedBy(s: State, t: int, u: int) {
    && t in s.reigns && u in s.reigns && t < u && s.reigns[t].log != [] && s.reigns[u].log != []
    && s.reigns[t].log[0].term != s.reigns[u].log[0].term
  }

  ghost predicate Dropped(s: State, t: int, bound: int) {
    exists u :: DroppedBy(s, t, u) && u <= bound
  }

  /** A log cut to nothing may still claim the last term it had, but some leader since then dropped all of that. */
  ghost predicate EmptiedInv(s: State, n: Node) {
    n.log == [] ==> n.lastLogTerm == -1 || Dropped(s, n.lastLogTerm, n.term)
  }

  ghost predicate CacheInv(s: State, n: Node) {
    CacheRight(n) && EmptiedInv(s, n)
  }

  ghost predicate CachesInv(s: State) {
    forall i {:trigger s.nodes[i]} :: i in s.nodes ==> CacheInv(s, s.nodes[i])
  }

  /** The ballot of a node that is still a candidate describes its log. */
  ghost predicate BallotsInv(s: State) {
    forall b :: b in s.ballots && b.candidate in s.nodes
                && s.nodes[b.candidate].status == Candidate && s.nodes[b.candidate].term == b.term ==>
      b == BallotOf(b.candidate, s.nodes[b.candidate])
  }

  ghost predicate CompletenessInv(cfg: Config, s: State) {
    && AcksValid(s) && AckersInv(s) && CandidatesInv(s) && LeadersInv(s)
    && CachesInv(s) && BallotsInv(s)
  }

  // ----- everything here only grows -----

  lemma AckGrows(s: State, s': State, a: Ack)
    requires ReignsGrow(s, s') && ValidAck(s, a)
    ensures ValidAck(s', a) && Acked(s', a) == Acked(s, a) && (Own(s, a) <==> Own(s', a))
  {
    var log, log' := s.reigns[a.term].log, s'.reigns[a.term].log;
    assert log'[..|log|] == log;
    assert log'[..a.index + 1] == log[..a.index + 1];
  }

  lemma MissedGrows(s: State, s': State, a: Ack, bound: int, bound': int)
    requires ReignsGrow(s, s') && ValidAck(s, a) && Missed(s, a, bound) && bound <= bound'
    ensures Missed(s', a, bound')
  {
    AckGrows(s, s', a);
    var u :| MissedBy(s, a, u) && u <= bound;
    assert MissedBy(s', a, u);
  }

  lemma CoveredGrows(s: State, s': State, a: Ack, log: seq<Entry>, bound: int, log': seq<Entry>, bound': int)
    requires ReignsGrow(s, s') && ValidAck(s, a) && Covered(s, a, log, bound)
    requires log <= log' && bound <= bound'
    ensures Covered(s', a, log', bound')
  {
    AckGrows(s, s', a);
    if Acked(s, a) <= log {
      PrefixTrans(Acked(s, a), log, log');
    } else {
      MissedGrows(s, s', a, bound, bound');
    }
  }

  /** The acknowledgements of a step: the old ones, and new ones given in the node's current term. */
  ghost predicate NewAcksNow(s: State, s': State) {
    forall a :: a in s'.acks && a !in s.acks ==>
      ValidAck(s', a) && a.node in s'.nodes && a.term == s'.nodes[a.node].term
      && Acked(s', a) <= s'.nodes[a.node].log
  }

  lemma AcksValidKept(s: State, s': State)
    requires AcksValid(s) && ReignsGrow(s, s') && Grows(s, s') && NewAcksNow(s, s')
    ensures AcksValid(s')
  {
    forall a | a in s'.acks ensures ValidAck(s', a) && a.node in s'.nodes && a.term <= s'.nodes[a.node].term {
      if a in s.acks { AckGrows(s, s', a); }
    }
  }

  lemma LeadersKept(s: State, s': State)
    requires AcksValid(s) && LeadersInv(s) && ReignsGrow(s, s') && s'.reigns.Keys == s.reigns.Keys
    requires NewAcksNow(s, s') && VotesInv(s') && CrownsInv(s')
    ensures LeadersInv(s')
  {
    forall u, a | a in s'.acks && u in s'.reigns && a.node in s'.reigns[u].voters && Own(s', a) && a.term < u
      ensures Covered(s', a, s'.reigns[u].base, u - 1)
    {
      assert ReignInv(s', u) && VotedFor(s', a.node, u, s'.reigns[u].leader);
      assert a in s.acks;
      AckGrows(s, s', a);
      CoveredGrows(s, s', a, s.reigns[u].base, u - 1, s'.reigns[u].base, u - 1);
    }
  }

  /** Candidates that were candidates before, with the same log and voters. */
  lemma CandidatesKept(s: State, s': State)
    requires AcksValid(s) && CandidatesInv(s) && ReignsGrow(s, s') && NewAcksNow(s, s') && VotesInv(s')
    requires forall v, i :: VotesFor(s', v, i) ==>
               VotesFor(s, v, i) && s'.nodes[i].term == s.nodes[i].term && s'.nodes[i].log == s.nodes[i].log
    ensures CandidatesInv(s')
  {
    forall i, a | a in s'.acks && VotesFor(s', a.node, i) && s'.nodes[i].term !in s'.reigns
                  && Own(s', a) && a.term < s'.nodes[i].term
      ensures Covered(s', a, s'.nodes[i].log, s'.nodes[i].term - 1)
    {
      assert VotedFor(s', a.node, s'.nodes[i].term, i);
      assert a in s.acks && VotesFor(s, a.node, i);
      AckGrows(s, s', a);
      CoveredGrows(s, s', a, s.nodes[i].log, s.nodes[i].term - 1, s'.nodes[i].log, s'.nodes[i].term - 1);
    }
  }

  /** Nodes whose log only grew, or kept all a leader of their new term started with. */
  lemma AckersKept(s: State, s': State)
    requires AcksValid(s) && AckersInv(s) && ReignsGrow(s, s') && Grows(s, s') && NewAcksNow(s, s')
    requires forall j {:trigger s'.nodes[j]} :: j in s.nodes ==> s.nodes[j].log <= s'.nodes[j].log
    ensures AckersInv(s')
  {
    forall a | a in s'.acks && Own(s', a) && a.node in s'.nodes
      ensures Covered(s', a, s'.nodes[a.node].log, s'.nodes[a.node].term)
    {
      if a in s.acks {
        var n, n' := s.nodes[a.node], s'.nodes[a.node];
        AckGrows(s, s', a);
        CoveredGrows(s, s', a, n.log, n.term, n'.log, n'.term);
      }
    }
  }

  // ----- the vote: an up-to-date log has what the voter has -----

  /** A log that is up to date with the voter's has all the voter acknowledged, or a leader missed it. */
  lemma UpToDate(s: State, a: Ack, mine: seq<Entry>, theirs: seq<Entry>, u: int)
    requires LogInv(s) && CrownsInv(s) && Own(s, a) && a.term < u && u !in s.reigns
    requires Rooted(s, mine) && Rooted(s, theirs) && TermsUpTo(theirs, u)
    requires Acked(s, a) <= mine
    requires LastTerm(mine) < LastTerm(theirs) || (LastTerm(mine) == LastTerm(theirs) && |mine| <= |theirs|)
    ensures Covered(s, a, theirs, u - 1)
  {
    RootedWhole(s, mine);
    RootedSorted(s, mine);
    assert mine[a.index] == Acked(s, a)[a.index];
    var y := LastTerm(theirs);
    assert ReignInv(s, LastTerm(mine));
    RootedWhole(s, theirs);
    var lead := s.reigns[y].log;
    if y == LastTerm(mine) {
      assert mine <= theirs by {
        assert mine == lead[..|mine|] && theirs == lead[..|theirs|];
      }
      PrefixTrans(Acked(s, a), mine, theirs);
    } else {
      assert a.term < y && y < u;
      if Acked(s, a) <= s.reigns[y].base {
        BaseReaches(s, a, y, theirs);
      } else {
        assert MissedBy(s, a, y);
      }
    }
  }

  /** A log that ends with an entry of term y has all that the leader of y started with. */
  lemma BaseReaches(s: State, a: Ack, y: int, theirs: seq<Entry>)
    requires LogInv(s) && ValidAck(s, a) && y in s.reigns && Acked(s, a) <= s.reigns[y].base
    requires theirs != [] && theirs <= s.reigns[y].log && LastTerm(theirs) == y
    ensures Acked(s, a) <= theirs
  {
    assert ReignShape(s, y);
    var base := s.reigns[y].base;
    assert |base| < |theirs| by {
      assert s.reigns[y].log[|theirs| - 1].term == y;
    }
    assert base <= theirs;
    PrefixTrans(Acked(s, a), base, theirs);
  }

  /** A candidate with nothing in its log that still passes for up to date: a leader missed what the voter has. */
  lemma EmptyClaimMissed(s: State, a: Ack, voter: Node, n: Node)
    requires LogInv(s) && CrownsInv(s) && Own(s, a) && a.term < n.term && n.term !in s.reigns
    requires Rooted(s, voter.log) && CacheInv(s, voter) && Acked(s, a) <= voter.log
    requires n.log == [] && EmptiedInv(s, n) && !Behind(voter, VoteReq(n.term, "", -1, n.lastLogTerm))
    ensures Missed(s, a, n.term - 1)
  {
    RootedWhole(s, voter.log);
    RootedSorted(s, voter.log);
    assert voter.log[a.index] == Acked(s, a)[a.index];
    assert ReignInv(s, LastTerm(voter.log));
    var t := n.lastLogTerm;
    assert a.term <= LastTerm(voter.log) < t;
    var u :| DroppedBy(s, t, u) && u <= n.term;
    if Acked(s, a) <= s.reigns[t].base {
      assert ReignShape(s, t) && ReignShape(s, u);
      assert Acked(s, a)[0] == s.reigns[t].log[0];
      assert s.reigns[u].base <= s.reigns[u].log && s.reigns[u].log[0].term != Acked(s, a)[0].term;
      assert MissedBy(s, a, u);
    } else {
      assert MissedBy(s, a, t);
    }
  }

  // ----- actions -----

  /** No log, no vote and no leadership changes; no node becomes a candidate. */
  ghost predicate Settled(s: State, s': State) {
    && Still(s, s') && Grows(s, s') && s'.acks == s.acks
    && (forall v, i :: VotesFor(s', v, i) ==> VotesFor(s, v, i) && s'.nodes[i].term == s.nodes[i].term)
  }

  lemma SettledKeeps(s: State, s': State)
    requires AcksValid(s) && AckersInv(s) && CandidatesInv(s) && LeadersInv(s) && Settled(s, s')
    requires VotesInv(s') && CrownsInv(s')
    ensures AcksValid(s') && AckersInv(s') && CandidatesInv(s') && LeadersInv(s')
  {
    assert ReignsGrow(s, s');
    AcksValidKept(s, s');
    AckersKept(s, s');
    CandidatesKept(s, s');
    LeadersKept(s, s');
  }

  lemma StoodKeepsCandidates(s: State, s': State, i: Addr)
    requires AcksValid(s) && AckersInv(s) && CandidatesInv(s) && VotesInv(s)
    requires Stood(s, s', i) && Still(s, s') && s'.acks == s.acks
    ensures CandidatesInv(s')
  {
    assert ReignsGrow(s, s');
    forall k, a | a in s'.acks && VotesFor(s', a.node, k) && s'.nodes[k].term !in s'.reigns
                  && Own(s', a) && a.term < s'.nodes[k].term
      ensures Covered(s', a, s'.nodes[k].log, s'.nodes[k].term - 1)
    {
      AckGrows(s, s', a);
      if k == i {
        assert !VotedFor(s, a.node, s'.nodes[i].term, i);
        assert a.node == i;
        CoveredGrows(s, s', a, s.nodes[i].log, s.nodes[i].term, s'.nodes[i].log, s'.nodes[i].term - 1);
      } else {
        assert VotesFor(s, a.node, k);
        CoveredGrows(s, s', a, s.nodes[k].log, s.nodes[k].term - 1, s'.nodes[k].log, s'.nodes[k].term - 1);
      }
    }
  }

  lemma StoodKeepsCompleteness(s: State, s': State, i: Addr)
    requires AcksValid(s) && AckersInv(s) && CandidatesInv(s) && LeadersInv(s) && VotesInv(s)
    requires Stood(s, s', i) && Still(s, s') && s'.acks == s.acks && VotesInv(s') && CrownsInv(s')
    ensures AcksValid(s') && AckersInv(s') && CandidatesInv(s') && LeadersInv(s')
  {
    assert ReignsGrow(s, s');
    StoodGrows(s, s', i);
    AcksValidKept(s, s');
    AckersKept(s, s');
    StoodKeepsCandidates(s, s', i);
    LeadersKept(s, s');
  }

  /** If the vote is new, the candidate's log is up to date with the voter's. */
  ghost predicate VotedUpToDate(s: State, s': State, j: Addr, req: VoteReq)
    requires j in s.nodes && j in s'.nodes
  {
    s'.nodes[j].voteFor != s.nodes[j].voteFor ==> !Behind(s.nodes[j], req) && s.nodes[j].term <= req.term
  }

  lemma NewVoteCovered(cfg: Config, s: State, s': State, j: Addr, req: VoteReq, i: Addr, a: Ack)
    requires ElectionInv(cfg, s) && LogInv(s) && CompletenessInv(cfg, s)
    requires Answered(s, s', j, req) && VotedUpToDate(s, s', j, req) && s'.acks == s.acks
    requires SameBinlog(s.nodes[j], s'.nodes[j])
    requires a in s.acks && a.node == j && VotesFor(s', j, i) && s.nodes[i].term !in s.reigns
    requires Own(s, a) && a.term < s.nodes[i].term
    requires !VotesFor(s, j, i) && i != j
    ensures Covered(s, a, s.nodes[i].log, s.nodes[i].term - 1)
  {
    var n := s.nodes[j];
    var u: int := s.nodes[i].term;
    assert s'.nodes[i] == s.nodes[i];
    assert !VotedFor(s, j, u, i) && VotedFor(s', j, u, i);
    assert req.candidate == i && req.term == u;
    assert req == BallotOf(i, s.nodes[i]);
    assert CacheInv(s, n) && CacheInv(s, s.nodes[i]);
    assert Covered(s, a, n.log, n.term);
    if Acked(s, a) <= n.log {
      if s.nodes[i].log == [] {
        EmptyClaimMissed(s, a, n, s.nodes[i]);
      } else {
        UpToDate(s, a, n.log, s.nodes[i].log, u);
      }
    } else {
      var w :| MissedBy(s, a, w) && w <= n.term;
      assert MissedBy(s, a, w) && w <= u - 1;
    }
  }

  lemma AnsweredKeepsCandidates(cfg: Config, s: State, s': State, j: Addr, req: VoteReq)
    requires ElectionInv(cfg, s) && LogInv(s) && CompletenessInv(cfg, s)
    requires Answered(s, s', j, req) && VotedUpToDate(s, s', j, req) && s'.acks == s.acks
    requires SameBinlog(s.nodes[j], s'.nodes[j])
    requires ElectionInv(cfg, s')
    ensures CandidatesInv(s')
  {
    assert ReignsGrow(s, s');
    forall i, a | a in s'.acks && VotesFor(s', a.node, i) && s'.nodes[i].term !in s'.reigns
                  && Own(s', a) && a.term < s'.nodes[i].term
      ensures Covered(s', a, s'.nodes[i].log, s'.nodes[i].term - 1)
    {
      AckGrows(s, s', a);
      assert s'.nodes[i].term == s.nodes[i].term && s'.nodes[i].log == s.nodes[i].log;
      if !VotesFor(s, a.node, i) {
        assert a.node == j;
        assert i != j by {
          assert s'.nodes[i].term in s.nodes[i].votePass;
          assert VotedFor(s, i, s.nodes[i].term, i);
        }
        NewVoteCovered(cfg, s, s', j, req, i, a);
      }
      CoveredGrows(s, s', a, s.nodes[i].log, s.nodes[i].term - 1, s'.nodes[i].log, s'.nodes[i].term - 1);
    }
  }

  lemma AnsweredKeepsCompleteness(cfg: Config, s: State, s': State, j: Addr, req: VoteReq)
    requires ElectionInv(cfg, s) && LogInv(s) && CompletenessInv(cfg, s)
    requires Answered(s, s', j, req) && VotedUpToDate(s, s', j, req) && s'.acks == s.acks
    requires SameBinlog(s.nodes[j], s'.nodes[j])
    requires ElectionInv(cfg, s')
    ensures AcksValid(s') && AckersInv(s') && CandidatesInv(s') && LeadersInv(s')
  {
    hide VotesInv, LogInv, Grows;
    assert ReignsGrow(s, s');
    AnsweredGrows(s, s', j, req);
    AcksValidKept(s, s');
    AckersKept(s, s');
    AnsweredKeepsCandidates(cfg, s, s', j, req);
    LeadersKept(s, s');
  }

  /** A leader writes: its own entry is acknowledged by itself. */
  lemma LedAck(s: State, s': State, i: Addr, t: int, e: Entry)
    requires Led(s, s', i, t, e) && s'.acks == s.acks + {Ack(t, i, |s.nodes[i].log|)}
    ensures NewAcksNow(s, s')
  {
    var a := Ack(t, i, |s.nodes[i].log|);
    assert Acked(s', a) == s'.nodes[i].log;
  }

  lemma LedKeepsLeaders(s: State, s': State, i: Addr, t: int, e: Entry)
    requires AcksValid(s) && LeadersInv(s) && CandidatesInv(s) && ReignsGrow(s, s') && NewAcksNow(s, s')
    requires Led(s, s', i, t, e) && VotesInv(s') && CrownsInv(s')
    requires t !in s.reigns ==> s.nodes[i].status == Candidate && s'.reigns[t].voters == Voters(s, i, t)
    ensures LeadersInv(s')
  {
    forall u, a | a in s'.acks && u in s'.reigns && a.node in s'.reigns[u].voters && Own(s', a) && a.term < u
      ensures Covered(s', a, s'.reigns[u].base, u - 1)
    {
      assert ReignInv(s', u) && VotedFor(s', a.node, u, s'.reigns[u].leader);
      assert a in s.acks;
      AckGrows(s, s', a);
      if u in s.reigns {
        CoveredGrows(s, s', a, s.reigns[u].base, u - 1, s'.reigns[u].base, u - 1);
      } else {
        assert u == t && VotesFor(s, a.node, i);
        CoveredGrows(s, s', a, s.nodes[i].log, u - 1, s'.reigns[u].base, u - 1);
      }
    }
  }

  lemma LedKeepsCompleteness(s: State, s': State, i: Addr, t: int, e: Entry)
    requires LogInv(s) && AcksValid(s) && AckersInv(s) && CandidatesInv(s) && LeadersInv(s)
    requires Led(s, s', i, t, e) && ReignsGrow(s, s') && Grows(s, s')
    requires s'.acks == s.acks + {Ack(t, i, |s.nodes[i].log|)}
    requires VotesInv(s') && CrownsInv(s')
    requires forall v, k :: VotesFor(s', v, k) ==> VotesFor(s, v, k)
    requires t !in s.reigns ==> s.nodes[i].status == Candidate && s'.reigns[t].voters == Voters(s, i, t)
    ensures AcksValid(s') && AckersInv(s') && CandidatesInv(s') && LeadersInv(s')
  {
    LedAck(s, s', i, t, e);
    AcksValidKept(s, s');
    AckersKept(s, s');
    CandidatesKept(s, s');
    LedKeepsLeaders(s, s', i, t, e);
  }

  /** A follower that takes entries keeps what it acknowledged, or its leader missed it. */
  lemma FollowedKeepsAcker(r: Repairs, s: State, s': State, f: Addr, req: AppendReq, a: Ack)
    requires r.align && LogInv(s) && AcksValid(s) && AckersInv(s) && Followed(r, s, s', f, req)
    requires a in s.acks && Own(s, a) && a.node == f
    ensures Covered(s, a, s'.nodes[f].log, s'.nodes[f].term)
  {
    var n, n' := s.nodes[f], s'.nodes[f];
    assert Covered(s, a, n.log, n.term);
    if Judge(n, req) != Outdated {
      FollowedTerms(r, n, req);
      if req.entries == [] { HeartBeatKeepsLog(r, n, req); }
      if Acked(s, a) <= n.log && req.entries != [] {
        FollowedRooted(r, s, s', f, req);
        var g := s.reigns[req.term];
        if a.term == req.term {
          assert Common(Acked(s, a), n.log, g.log);
        } else if Acked(s, a) <= g.base {
          assert ReignShape(s, req.term);
          PrefixTrans(Acked(s, a), g.base, g.log);
          assert Common(Acked(s, a), n.log, g.log);
        } else {
          assert MissedBy(s, a, req.term);
        }
      }
    }
  }

  lemma FollowedAcks(r: Repairs, s: State, s': State, f: Addr, req: AppendReq)
    requires r.align && LogInv(s) && Followed(r, s, s', f, req)
    requires s'.acks == (if AppendEntries(r, s.nodes[f], req).1.success && req.entries != []
                         then s.acks + {Ack(req.term, f, req.prevIndex + |req.entries|)} else s.acks)
    ensures NewAcksNow(s, s')
  {
    hide AppendEntries, LogInv, Judge;
    if AppendEntries(r, s.nodes[f], req).1.success && req.entries != [] {
      SuccessIsAccepted(r, s.nodes[f], req);
      FollowedRooted(r, s, s', f, req);
      FollowedTerms(r, s.nodes[f], req);
      var last := req.prevIndex + |req.entries|;
      assert Acked(s', Ack(req.term, f, last)) == s.reigns[req.term].log[..req.prevIndex + 1 + |req.entries|];
    }
  }

  lemma SuccessIsAccepted(r: Repairs, n: Node, req: AppendReq)
    ensures AppendEntries(r, n, req).1.success <==> Judge(n, req) == Accepted
  {
    match Judge(n, req)
    case Accepted => if req.entries == [] {} else {}
    case _ =>
  }

  lemma FollowedKeepsCompleteness(r: Repairs, s: State, s': State, f: Addr, req: AppendReq)
    requires r.align && LogInv(s) && AcksValid(s) && AckersInv(s) && CandidatesInv(s) && LeadersInv(s)
    requires Followed(r, s, s', f, req) && NewAcksNow(s, s') && Grows(s, s') && VotesInv(s') && CrownsInv(s')
    requires forall v, k :: VotesFor(s', v, k) ==> VotesFor(s, v, k) && s'.nodes[k] == s.nodes[k]
    ensures AcksValid(s') && AckersInv(s') && CandidatesInv(s') && LeadersInv(s')
  {
    assert ReignsGrow(s, s');
    AcksValidKept(s, s');
    CandidatesKept(s, s');
    LeadersKept(s, s');
    forall a | a in s'.acks && Own(s', a) && a.node in s'.nodes
      ensures Covered(s', a, s'.nodes[a.node].log, s'.nodes[a.node].term)
    {
      if a in s.acks {
        AckGrows(s, s', a);
        if a.node == f { FollowedKeepsAcker(r, s, s', f, req, a); }
        CoveredGrows(s, s', a, s'.nodes[a.node].log, s'.nodes[a.node].term, s'.nodes[a.node].log,
          s'.nodes[a.node].term);
      }
    }
  }

  // ----- the cached last term and the ballots -----

  lemma WriteEntriesCache(n: Node, es: seq<Entry>)
    requires CacheRight(n)
    ensures CacheRight(WriteEntries(n, es))
  {
    if es != [] {
      assert LastTerm(n.log + es) == LastTerm(es);
    } else {
      assert n.log + es == n.log;
    }
  }

  lemma TruncateCache(r: Repairs, n: Node, slot: int)
    requires CacheRight(n) && slot < |n.log|
    ensures CacheRight(Truncate(r, n, slot))
  {
  }

  lemma AppendEntriesCache(r: Repairs, n: Node, req: AppendReq)
    requires CacheRight(n)
    ensures CacheRight(AppendEntries(r, n, req).0)
  {
    hide AcceptEntries, Truncate, FollowerCommit, CacheRight, Judge, Follow, Refusal;
    var n1 := Follow(n, req);
    FollowCache(n, req);
    match Judge(n, req)
    case Mismatch => TruncateCache(r, n1, req.prevIndex - 1);
    case Accepted =>
      if req.entries != [] { AcceptCache(r, n1, req); }
      var n2 := if req.entries != [] then AcceptEntries(r, n1, req) else n1;
      CommitCache(n2, FollowerCommit(r, n2.log, n.commit, req));
    case _ =>
  }

  lemma FollowCache(n: Node, req: AppendReq)
    requires CacheRight(n)
    ensures CacheRight(Follow(n, req)) && Follow(n, req).log == n.log
  {
  }

  lemma CommitCache(n: Node, commit: int)
    requires CacheRight(n)
    ensures CacheRight(n.(commit := commit))
  {
  }

  lemma AcceptCache(r: Repairs, n: Node, req: AppendReq)
    requires CacheRight(n) && req.prevIndex < |n.log|
    ensures CacheRight(AcceptEntries(r, n, req))
  {
    hide CacheRight, Truncate, WriteEntries;
    if r.align {
      var from := Max(req.prevIndex + 1, 0);
      var k := Agreeing(n.log, from, req.entries);
      if k < |req.entries| {
        TruncateCache(r, n, from + k - 1);
        WriteEntriesCache(Truncate(r, n, from + k - 1), req.entries[k..]);
      }
    } else {
      WriteEntriesCache(n, req.entries);
    }
  }

  lemma AcceptedNotEmpty(r: Repairs, n: Node, req: AppendReq)
    requires req.prevIndex < |n.log| && req.entries != []
    ensures AcceptEntries(r, n, req).log != []
  {
    hide Agreeing;
  }

  /** A request empties a log only by a mismatch at its first entry. */
  lemma EmptiesOnMismatch(r: Repairs, n: Node, req: AppendReq)
    requires AppendEntries(r, n, req).0.log == [] && n.log != []
    ensures Judge(n, req) == Mismatch && req.prevIndex <= 0
    ensures AppendEntries(r, n, req).0.lastLogTerm == -1 || AppendEntries(r, n, req).0.lastLogTerm == n.lastLogTerm
  {
    hide AcceptEntries, FollowerCommit;
    match Judge(n, req)
    case Accepted => if req.entries != [] { AcceptedNotEmpty(r, Follow(n, req), req); }
    case _ =>
  }

  lemma EmptyStays(r: Repairs, n: Node, req: AppendReq)
    requires AppendEntries(r, n, req).0.log == [] && n.log == []
    ensures AppendEntries(r, n, req).0.lastLogTerm == -1 || AppendEntries(r, n, req).0.lastLogTerm == n.lastLogTerm
  {
    hide AcceptEntries, FollowerCommit;
    match Judge(n, req)
    case Accepted => if req.entries != [] { AcceptedNotEmpty(r, Follow(n, req), req); }
    case _ =>
  }

  lemma EmptiedKept(s: State, s': State, n: Node, n': Node)
    requires EmptiedInv(s, n) && ReignsGrow(s, s') && n.term <= n'.term
    requires n'.log == [] ==> n.log == [] && (n'.lastLogTerm == -1 || n'.lastLogTerm == n.lastLogTerm)
    ensures EmptiedInv(s', n')
  {
    if n'.log == [] && n'.lastLogTerm != -1 {
      var u :| DroppedBy(s, n.lastLogTerm, u) && u <= n.term;
      assert DroppedBy(s', n.lastLogTerm, u);
    }
  }

  /** A mismatch at the first entry is with a leader of a later term that has another one. */
  lemma CutDrops(s: State, f: Addr, req: AppendReq)
    requires LogInv(s) && CrownsInv(s) && f in s.nodes && s.nodes[f].log != [] && AppendMsg(f, req) in s.appends
    requires Judge(s.nodes[f], req) == Mismatch && req.prevIndex <= 0
    ensures DroppedBy(s, LastTerm(s.nodes[f].log), req.term)
  {
    var n := s.nodes[f];
    assert MessageInv(s, AppendMsg(f, req));
    RootedWhole(s, n.log);
    assert ReignShape(s, LastTerm(n.log)) && ReignShape(s, req.term);
    assert n.log[|n.log| - 1] in Slots(n);
  }

  lemma NotOutdated(n: Node, req: AppendReq)
    requires Judge(n, req) == Mismatch
    ensures Judge(n, req) != Outdated && req.term >= n.term
  {
  }

  lemma DroppedSame(s: State, s': State, t: int, u: int)
    requires DroppedBy(s, t, u) && s'.reigns == s.reigns
    ensures DroppedBy(s', t, u)
  {
  }

  lemma FollowedEmptied(r: Repairs, s: State, s': State, f: Addr, req: AppendReq)
    requires LogInv(s) && CrownsInv(s) && Followed(r, s, s', f, req) && CacheInv(s, s.nodes[f])
    ensures EmptiedInv(s', s'.nodes[f])
  {
    hide AppendEntries, LogInv, CrownsInv, Judge, DroppedBy, FollowerCommit, LastTerm;
    var n, n' := s.nodes[f], s'.nodes[f];
    AppendCases(r, n, req);
    if n'.log == [] && n.log != [] {
      EmptiesOnMismatch(r, n, req);
      NotOutdated(n, req);
      CutDrops(s, f, req);
      DroppedSame(s, s', LastTerm(n.log), req.term);
    } else {
      if n'.log == [] { EmptyStays(r, n, req); }
      assert ReignsGrow(s, s');
      EmptiedKept(s, s', n, n');
    }
  }

  lemma VoteBackCache(cfg: Config, self: Addr, n: Node, res: Option<VoteRes>)
    requires CacheRight(n)
    ensures CacheRight(VoteCallBack(cfg, self, n, res))
  {
    if Wins(cfg, n, res) {
      WriteEntriesCache(n, [PingEntry(n.term)]);
    }
  }

  lemma ClientWriteCache(n: Node, kind: Kind, key: Bytes, value: Bytes)
    requires CacheRight(n)
    ensures CacheRight(ClientWrite(n, kind, key, value))
  {
    WriteEntriesCache(n, [EntryOf(kind, key, value, n.term)]);
  }

  lemma SameCache(n: Node, n': Node)
    requires CacheRight(n) && SameBinlog(n, n')
    ensures CacheRight(n')
  {
  }

  lemma HandleCache(cfg: Config, n: Node, a: Action)
    requires CacheRight(n)
    ensures CacheRight(Handle(cfg, n, a))
  {
    hide CacheRight, Handle, AppendEntries, VoteCallBack, ClientWrite;
    if WritesNoSlot(a) {
      HandleFrame(cfg, n, a);
      SameCache(n, Handle(cfg, n, a));
    } else {
      WriterHandles(cfg, n, a);
      match a
      case VoteBack(call, res) => VoteBackCache(cfg, call.candidate, n, res);
      case WriteAt(_, kind, key, value) => ClientWriteCache(n, kind, key, value);
      case DeliverTo(_, req) => AppendEntriesCache(cfg.repairs, n, req);
    }
  }

  lemma WriterHandles(cfg: Config, n: Node, a: Action)
    requires !WritesNoSlot(a)
    ensures Handle(cfg, n, a) == match a
                                 case VoteBack(call, res) => VoteCallBack(cfg, call.candidate, n, res)
                                 case WriteAt(_, kind, key, value) => ClientWrite(n, kind, key, value)
                                 case DeliverTo(_, req) => AppendEntries(cfg.repairs, n, req).0
                                 case _ => n
  {
  }

  lemma WriterNotEmpty(cfg: Config, n: Node, a: Action)
    requires a.VoteBack? || a.WriteAt?
    ensures Handle(cfg, n, a).log == [] ==> SameBinlog(n, Handle(cfg, n, a))
  {
    hide VoteCallBack, ClientWrite;
    match a
    case VoteBack(call, res) => VoteBackCases(cfg, call.candidate, n, res);
    case WriteAt(_, kind, key, value) => ClientWriteCases(n, kind, key, value);
  }

  lemma ActorEmptied(cfg: Config, s: State, s': State, a: Action)
    requires LogInv(s) && CrownsInv(s) && ReignsGrow(s, s') && Grows(s, s')
    requires Enabled(cfg, s, a) && s' == Next(cfg, s, a) && OthersSame(s, s', Actor(a))
    requires CacheInv(s, s.nodes[Actor(a)])
    ensures EmptiedInv(s', s'.nodes[Actor(a)])
  {
    hide DoTimeout, DoVote, DoVoteBack, DoWrite, DoReplicateBack, LogInv, CrownsInv, EmptiedInv, Handle;
    var i := Actor(a);
    if a.DeliverTo? {
      DeliverFollows(cfg, s, a.f, a.req);
      FollowedEmptied(cfg.repairs, s, s', a.f, a.req);
    } else {
      ActorHandles(cfg, s, a);
      if WritesNoSlot(a) { HandleFrame(cfg, s.nodes[i], a); } else { WriterNotEmpty(cfg, s.nodes[i], a); }
      EmptiedKept(s, s', s.nodes[i], s'.nodes[i]);
    }
  }

  lemma NextCaches(cfg: Config, s: State, a: Action)
    requires WellFormed(cfg) && cfg.repairs.align && ElectionInv(cfg, s) && LogInv(s) && CachesInv(s)
    ensures CachesInv(Next(cfg, s, a))
  {
    hide Next, Enabled, Handle, LogInv, EmptiedInv, CacheRight;
    var s' := Next(cfg, s, a);
    if Enabled(cfg, s, a) {
      NextLog(cfg, s, a);
      NextGrows(cfg, s, a);
      ActorHandles(cfg, s, a);
      HandleCache(cfg, s.nodes[Actor(a)], a);
      ActorEmptied(cfg, s, s', a);
      forall j {:trigger s'.nodes[j]} | j in s'.nodes ensures CacheInv(s', s'.nodes[j]) {
        if j != Actor(a) { EmptiedKept(s, s', s.nodes[j], s'.nodes[j]); }
      }
    } else {
      NotEnabled(cfg, s, a);
    }
  }

  /** A node that is a candidate still, of the same term and with the same log. */
  ghost predicate StillCandidate(n: Node, n': Node) {
    n.status == Candidate && n'.term == n.term && SameBinlog(n, n')
  }

  lemma BallotsKept(s: State, s': State)
    requires BallotsInv(s) && s'.ballots == s.ballots && s'.nodes.Keys == s.nodes.Keys
    requires forall i {:trigger s'.nodes[i]} :: i in s'.nodes && s'.nodes[i].status == Candidate ==>
               StillCandidate(s.nodes[i], s'.nodes[i])
    ensures BallotsInv(s')
  {
  }

  lemma StoodBallots(s: State, s': State, i: Addr)
    requires BallotsInv(s) && MessagesInv(s) && Stood(s, s', i)
    ensures BallotsInv(s')
  {
  }

  lemma HandleCandidate(cfg: Config, n: Node, a: Action)
    requires !a.TimeoutAt? && Handle(cfg, n, a).status == Candidate
    ensures StillCandidate(n, Handle(cfg, n, a))
  {
    hide VoteLeader, Vote, VoteCallBack, ClientWrite, AppendEntries, ReplicateReply, HeartBeatCallBack;
    match a
    case VoteAt(_, req) => VoteCases(n, req);
    case VoteBack(call, res) => VoteBackCases(cfg, call.candidate, n, res);
    case WriteAt(_, kind, key, value) => ClientWriteCases(n, kind, key, value);
    case DeliverTo(_, req) => AppendCases(cfg.repairs, n, req);
    case ReplicateBack(f, req, res) => ReplyCases(cfg, req.leader, n, f, req, res);
    case HeartBeatBack(_, _, res) => HeartBeatCases(n, res);
    case _ =>
    if !WritesNoSlot(a) {} else { HandleFrame(cfg, n, a); }
  }

  lemma CandidateFrame(cfg: Config, s: State, a: Action, i: Addr)
    requires Enabled(cfg, s, a) && !a.TimeoutAt? && i in s.nodes && i in Next(cfg, s, a).nodes
    requires Next(cfg, s, a).nodes[i].status == Candidate
    ensures StillCandidate(s.nodes[i], Next(cfg, s, a).nodes[i])
  {
    hide Next, Enabled, Handle;
    ActorHandles(cfg, s, a);
    if i == Actor(a) { HandleCandidate(cfg, s.nodes[i], a); }
  }

  lemma BallotsSame(cfg: Config, s: State, a: Action)
    requires VotesInv(s) && MessagesInv(s) && Enabled(cfg, s, a) && !a.TimeoutAt?
    ensures Next(cfg, s, a).ballots == s.ballots
  {
    match a
    case VoteAt(j, req) => VoteIs(s, j, req);
    case VoteBack(call, res) =>
    case _ => OtherIsQuiet(cfg, s, a);
  }

  lemma TimeoutBallots(s: State, i: Addr)
    requires BallotsInv(s) && MessagesInv(s) && i in s.nodes
    ensures BallotsInv(DoTimeout(s, i))
  {
    var s' := DoTimeout(s, i);
    TimeoutIs(s, i);
    if Stands(s.nodes[i]) {
      StoodBallots(s, s', i);
    } else {
      VoteLeaderCases(i, s.nodes[i]);
      BallotsKept(s, s');
    }
  }

  lemma NextBallots(cfg: Config, s: State, a: Action)
    requires VotesInv(s) && MessagesInv(s) && BallotsInv(s)
    ensures BallotsInv(Next(cfg, s, a))
  {
    var s' := Next(cfg, s, a);
    if Enabled(cfg, s, a) {
      if a.TimeoutAt? {
        TimeoutBallots(s, a.i);
      } else {
        CandidatesFramed(cfg, s, a);
        BallotsSame(cfg, s, a);
        BallotsKept(s, s');
      }
    }
  }

  lemma CandidatesFramed(cfg: Config, s: State, a: Action)
    requires VotesInv(s) && MessagesInv(s) && Enabled(cfg, s, a) && !a.TimeoutAt?
    ensures var s' := Next(cfg, s, a);
            && s'.nodes.Keys == s.nodes.Keys
            && (forall i {:trigger s'.nodes[i]} :: i in s'.nodes && s'.nodes[i].status == Candidate ==>
                 StillCandidate(s.nodes[i], s'.nodes[i]))
  {
    hide Next, Enabled;
    var s' := Next(cfg, s, a);
    NextGrows(cfg, s, a);
    forall i {:trigger s'.nodes[i]} | i in s'.nodes && s'.nodes[i].status == Candidate
      ensures StillCandidate(s.nodes[i], s'.nodes[i])
    {
      CandidateFrame(cfg, s, a, i);
    }
  }

  // ----- every action -----

  lemma QuietVotes(s: State, s': State)
    requires Quiet(s, s')
    ensures forall v, i :: VotesFor(s', v, i) ==> VotesFor(s, v, i) && s'.nodes[i].term == s.nodes[i].term
  {
    forall v, i | VotesFor(s', v, i)
      ensures VotesFor(s, v, i) && s'.nodes[i].term == s.nodes[i].term
    {
      assert QuietNode(s.nodes[i], s'.nodes[i]) && QuietNode(s.nodes[v], s'.nodes[v]);
    }
  }

  lemma VoteUpToDate(s: State, j: Addr, req: VoteReq)
    requires j in s.nodes
    ensures VotedUpToDate(s, DoVote(s, j, req), j, req)
  {
  }

  ghost predicate AckPart(s: State) {
    AcksValid(s) && AckersInv(s) && CandidatesInv(s) && LeadersInv(s)
  }

  /** What the lemmas below take for granted of a state. */
  ghost predicate Sound(cfg: Config, s: State) {
    ElectionInv(cfg, s) && LogInv(s) && CompletenessInv(cfg, s)
  }

  lemma VoteAcks(cfg: Config, s: State, j: Addr, req: VoteReq)
    requires Sound(cfg, s)
    requires Enabled(cfg, s, VoteAt(j, req)) && ElectionInv(cfg, DoVote(s, j, req))
    ensures AckPart(DoVote(s, j, req))
  {
    hide LogInv, CompletenessInv, VotesInv, Answered;
    VoteIs(s, j, req);
    VoteUpToDate(s, j, req);
    VoteCases(s.nodes[j], req);
    AnsweredKeepsCompleteness(cfg, s, DoVote(s, j, req), j, req);
  }

  lemma TimeoutAcks(cfg: Config, s: State, i: Addr)
    requires WellFormed(cfg) && Sound(cfg, s) && i in s.nodes && Stands(s.nodes[i])
    requires ElectionInv(cfg, DoTimeout(s, i)) && Still(s, DoTimeout(s, i))
    ensures AckPart(DoTimeout(s, i))
  {
    hide LogInv, Still;
    TimeoutIs(s, i);
    StoodKeepsCompleteness(s, DoTimeout(s, i), i);
  }

  lemma QuietAcks(cfg: Config, s: State, s': State)
    requires Sound(cfg, s) && ElectionInv(cfg, s') && Quiet(s, s') && Still(s, s') && Grows(s, s') && s'.acks == s.acks
    ensures AckPart(s')
  {
    hide LogInv, Still, Grows, Quiet;
    QuietVotes(s, s');
    SettledKeeps(s, s');
  }

  lemma NoSlotAcks(cfg: Config, s: State, a: Action)
    requires WellFormed(cfg) && cfg.repairs.align && Sound(cfg, s)
    requires Enabled(cfg, s, a) && WritesNoSlot(a) && ElectionInv(cfg, Next(cfg, s, a))
    ensures AckPart(Next(cfg, s, a))
  {
    hide DoTimeout, DoVote, DoReplicateBack, DoHeartBeat, LogInv, CompletenessInv, Still, Grows, Quiet;
    var s' := Next(cfg, s, a);
    NoSlotStill(cfg, s, a);
    if a.VoteAt? {
      VoteAcks(cfg, s, a.j, a.ballot);
    } else if a.TimeoutAt? && Stands(s.nodes[a.i]) {
      TimeoutAcks(cfg, s, a.i);
    } else {
      NoSlotFrame(cfg, s, a);
      NextGrows(cfg, s, a);
      if a.TimeoutAt? { NoStand(s, a.i); } else { OtherIsQuiet(cfg, s, a); }
      QuietAcks(cfg, s, s');
    }
  }

  lemma NoStand(s: State, i: Addr)
    requires i in s.nodes && !Stands(s.nodes[i])
    ensures Quiet(s, DoTimeout(s, i))
  {
    TimeoutIs(s, i);
  }

  lemma VoteBackVotes(cfg: Config, s: State, call: VoteCall, res: Option<VoteRes>)
    requires MessagesInv(s) && Enabled(cfg, s, VoteBack(call, res))
    ensures var s' := DoVoteBack(cfg, s, call, res);
            forall v, k :: VotesFor(s', v, k) ==> VotesFor(s, v, k) && s'.nodes[k].term == s.nodes[k].term
  {
    var s' := DoVoteBack(cfg, s, call, res);
    if Counts(s.nodes[call.candidate], res) {
      VoteBackIs(cfg, s, call, res);
      CountedGrows(cfg, s, s', call);
    } else {
      var s0 := s.(pending := s.pending - {call});
      DroppedIs(cfg, s, call, res);
      QuietVotes(s0, s');
      assert forall v, k :: VotesFor(s0, v, k) ==> VotesFor(s, v, k);
    }
  }

  lemma VoteBackAcks(cfg: Config, s: State, call: VoteCall, res: Option<VoteRes>)
    requires WellFormed(cfg) && cfg.repairs.align && Sound(cfg, s)
    requires Enabled(cfg, s, VoteBack(call, res)) && ElectionInv(cfg, DoVoteBack(cfg, s, call, res))
    ensures AckPart(DoVoteBack(cfg, s, call, res))
  {
    var s' := DoVoteBack(cfg, s, call, res);
    var i := call.candidate;
    NextGrows(cfg, s, VoteBack(call, res));
    VoteBackLeads(cfg, s, call, res);
    VoteBackIs(cfg, s, call, res);
    VoteBackVotes(cfg, s, call, res);
    if Wins(cfg, s.nodes[i], res) {
      LedGrows(s, s', i, call.term, PingEntry(call.term));
      LedKeepsCompleteness(s, s', i, call.term, PingEntry(call.term));
    } else {
      SettledKeeps(s, s');
    }
  }

  lemma WriteAcks(cfg: Config, s: State, i: Addr, kind: Kind, key: Bytes, value: Bytes)
    requires WellFormed(cfg) && cfg.repairs.align && Sound(cfg, s)
    requires i in s.nodes && ElectionInv(cfg, DoWrite(s, i, kind, key, value))
    ensures AckPart(DoWrite(s, i, kind, key, value))
  {
    var s' := DoWrite(s, i, kind, key, value);
    var a := WriteAt(i, kind, key, value);
    NextGrows(cfg, s, a);
    WriteLeads(cfg, s, i, kind, key, value);
    OtherIsQuiet(cfg, s, a);
    QuietVotes(s, s');
    if s.nodes[i].status == Leader {
      LedGrows(s, s', i, s.nodes[i].term, EntryOf(kind, key, value, s.nodes[i].term));
      LedKeepsCompleteness(s, s', i, s.nodes[i].term, EntryOf(kind, key, value, s.nodes[i].term));
    } else {
      SettledKeeps(s, s');
    }
  }

  lemma DeliverAcks(cfg: Config, s: State, f: Addr, req: AppendReq)
    requires WellFormed(cfg) && cfg.repairs.align && Sound(cfg, s)
    requires Enabled(cfg, s, DeliverTo(f, req)) && ElectionInv(cfg, DoDeliver(cfg, s, f, req))
    ensures AckPart(DoDeliver(cfg, s, f, req))
  {
    hide LogInv, AppendEntries, Still, Grows, Quiet, Judge, VotesInv;
    hide MessagesInv, CallsInv, TallyInv, CrownsInv, PassInv, StatusInv;
    var s' := DoDeliver(cfg, s, f, req);
    NextGrows(cfg, s, DeliverTo(f, req));
    DeliverFollows(cfg, s, f, req);
    FollowedAcks(cfg.repairs, s, s', f, req);
    OtherIsQuiet(cfg, s, DeliverTo(f, req));
    QuietVotes(s, s');
    FollowedVotes(cfg.repairs, s, s', f, req);
    FollowedKeepsCompleteness(cfg.repairs, s, s', f, req);
  }

  /** Whoever still gathers votes is not the node that followed. */
  lemma FollowedVotes(r: Repairs, s: State, s': State, f: Addr, req: AppendReq)
    requires Followed(r, s, s', f, req)
    ensures forall v, k :: VotesFor(s', v, k) ==> s'.nodes[k] == s.nodes[k]
  {
    hide AppendEntries;
    AppendCases(r, s.nodes[f], req);
  }

  lemma NextCompleteness(cfg: Config, s: State, a: Action)
    requires WellFormed(cfg) && cfg.repairs.align && Sound(cfg, s)
    ensures CompletenessInv(cfg, Next(cfg, s, a))
  {
    hide DoTimeout, DoVote, DoVoteBack, DoWrite, DoDeliver, DoReplicateBack, DoHeartBeat;
    hide LogInv, VotesInv, PassInv, StatusInv, CallsInv, MessagesInv, TallyInv, CrownsInv;
    hide AcksValid, AckersInv, CandidatesInv, LeadersInv, CachesInv, BallotsInv;
    NextElection(cfg, s, a);
    NextCaches(cfg, s, a);
    NextBallots(cfg, s, a);
    if Enabled(cfg, s, a) {
      if WritesNoSlot(a) {
        NoSlotAcks(cfg, s, a);
      } else {
        match a
        case VoteBack(call, res) => VoteBackAcks(cfg, s, call, res);
        case WriteAt(i, kind, key, value) => WriteAcks(cfg, s, i, kind, key, value);
        case DeliverTo(f, req) => DeliverAcks(cfg, s, f, req);
      }
    }
  }

  lemma {:induction false} CompletenessHolds(cfg: Config, run: seq<Action>)
    requires WellFormed(cfg) && cfg.repairs.align
    ensures Sound(cfg, After(cfg, run))
  {
    ElectionHolds(cfg, run);
    LogHolds(cfg, run);
    if run != [] {
      CompletenessHolds(cfg, run[..|run| - 1]);
      NextCompleteness(cfg, After(cfg, run[..|run| - 1]), run[|run| - 1]);
    }
  }

  // ----- leader completeness -----

  /** A majority acknowledged the leader of t up to an entry of its own term. */
  ghost predicate Committed(s: State, t: int, m: int) {
    && Own(s, Ack(t, "", m))
    && exists q :: q <= s.nodes.Keys && 2 * |q| > |s.nodes.Keys| && AckedByAll(s, q, t, m)
  }

  ghost predicate AckedByAll(s: State, q: set<Addr>, t: int, m: int) {
    forall v :: v in q ==> Ack(t, v, m) in s.acks
  }

  lemma {:induction false} CommittedStays(s: State, t: int, m: int, u: int)
    requires CrownsInv(s) && LeadersInv(s) && Committed(s, t, m) && u in s.reigns && t < u
    ensures s.reigns[t].log[..m + 1] <= s.reigns[u].base
    decreases u - t
  {
    var q :| q <= s.nodes.Keys && 2 * |q| > |s.nodes.Keys| && AckedByAll(s, q, t, m);
    assert ReignInv(s, u);
    var v := MajoritiesMeet(s.nodes.Keys, q, s.reigns[u].voters);
    var a := Ack(t, v, m);
    assert Acked(s, a) == s.reigns[t].log[..m + 1];
    if !(Acked(s, a) <= s.reigns[u].base) {
      var w :| MissedBy(s, a, w) && w <= u - 1;
      CommittedStays(s, t, m, w);
    }
  }

  /** Every leader of a later term has what was committed, in every run. */
  lemma LeaderCompleteness(cfg: Config, run: seq<Action>, t: int, m: int, u: int)
    requires WellFormed(cfg) && cfg.repairs.align
    requires Committed(After(cfg, run), t, m) && u in After(cfg, run).reigns && t < u
    ensures After(cfg, run).reigns[t].log[..m + 1] <= After(cfg, run).reigns[u].base
    ensures After(cfg, run).reigns[t].log[..m + 1] <= After(cfg, run).reigns[u].log
  {
    var s := After(cfg, run);
    CompletenessHolds(cfg, run);
    CommittedStays(s, t, m, u);
    assert ReignShape(s, u);
  }
}
