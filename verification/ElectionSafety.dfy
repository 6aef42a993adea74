/**
 Election safety (section 5.2 of the Raft paper), for the handlers as the code has them and for
 every choice of repairs: at most one node is ever leader of a term.
 */
module ElectionSafety {
  import opened Base
  import opened RaftNode
  import opened Cluster
  import opened Frames

  // ----- counting -----

  lemma {:induction false} SubsetSize<T>(a: set<T>, b: set<T>)
    requires a <= b
    ensures |a| <= |b|
  {
    if a != {} {
      var x :| x in a;
      SubsetSize(a - {x}, b - {x});
    }
  }

  /** Two subsets that are both more than half of a set have an element in common. */
  lemma MajoritiesMeet<T>(all: set<T>, a: set<T>, b: set<T>) returns (x: T)
    requires a <= all && b <= all && 2 * |a| > |all| && 2 * |b| > |all|
    ensures x in a && x in b
  {
    if a * b == {} {
      assert |a + b| == |a| + |b|;
      SubsetSize(a + b, all);
    }
    x :| x in a * b;
  }

  lemma {:induction false} SeqSetSize(ms: seq<Addr>)
    requires forall i, j :: 0 <= i < j < |ms| ==> ms[i] != ms[j]
    ensures |set m | m in ms| == |ms|
  {
    if ms != [] {
      var last := |ms| - 1;
      SeqSetSize(ms[..last]);
      assert (set m | m in ms) == (set m | m in ms[..last]) + {ms[last]};
    }
  }

  // ----- the invariant -----

  ghost predicate VotedFor(s: State, v: Addr, t: int, c: Addr) {
    v in s.nodes && t in s.nodes[v].voteFor && s.nodes[v].voteFor[t] == c
  }

  /** A vote names a node that has reached the term of the vote, and so has the voter. */
  ghost predicate VotesInv(s: State) {
    forall v, t, c :: VotedFor(s, v, t, c) ==> 0 <= t <= s.nodes[v].term && c in s.nodes && t <= s.nodes[c].term
  }

  /** Votes are counted only by a node that voted for itself. */
  ghost predicate PassInv(s: State) {
    forall i, t :: i in s.nodes && t in s.nodes[i].votePass ==> VotedFor(s, i, t, i)
  }

  ghost predicate StatusInv(s: State) {
    forall i {:trigger s.nodes[i]} :: i in s.nodes ==>
      && (s.nodes[i].status == Candidate ==>
           s.nodes[i].term in s.nodes[i].votePass && Crown(s.nodes[i].term, i) !in s.crowns)
      && (s.nodes[i].status == Leader ==> Crown(s.nodes[i].term, i) in s.crowns)
  }

  ghost predicate Called(s: State, c: VoteCall) {
    && c.candidate in s.nodes && c.peer in s.nodes && c.peer != c.candidate
    && c.term <= s.nodes[c.candidate].term
  }

  ghost predicate CallsInv(s: State) {
    && (forall c :: c in s.pending ==> Called(s, c) && c !in s.granted)
    && (forall c :: c in s.granted ==> Called(s, c) && VotedFor(s, c.peer, c.term, c.candidate))
  }

  ghost predicate MessagesInv(s: State) {
    && (forall r :: r in s.ballots ==> r.candidate in s.nodes && r.term <= s.nodes[r.candidate].term)
    && (forall r :: r in s.voteReplies && r.res.pass ==>
         r.res.term == r.call.term && VotedFor(s, r.call.peer, r.call.term, r.call.candidate))
  }

  function Tallied(s: State, i: Addr, t: int): set<Addr> {
    set p | p in s.nodes && VoteCall(i, t, p) in s.granted
  }

  /** No more votes are counted than calls came back with a vote, plus the node's own. */
  ghost predicate TallyInv(s: State) {
    forall i, t :: i in s.nodes && t in s.nodes[i].votePass ==>
      s.nodes[i].votePass[t] <= 1 + |Tallied(s, i, t)|
  }

  ghost predicate ReignInv(s: State, t: int)
    requires t in s.reigns
  {
    var g := s.reigns[t];
    && g.leader in s.nodes && 0 <= t <= s.nodes[g.leader].term
    && Crown(t, g.leader) in s.crowns
    && g.voters <= s.nodes.Keys && 2 * |g.voters| > |s.nodes.Keys|
    && (forall v :: v in g.voters ==> VotedFor(s, v, t, g.leader))
  }

  ghost predicate CrownsInv(s: State) {
    && (forall c :: c in s.crowns ==> c.term in s.reigns && s.reigns[c.term].leader == c.leader)
    && (forall t {:trigger ReignInv(s, t)} :: t in s.reigns ==> ReignInv(s, t))
  }

  ghost predicate ElectionInv(cfg: Config, s: State) {
    && s.nodes.Keys == Members(cfg)
    && VotesInv(s) && PassInv(s) && StatusInv(s)
    && CallsInv(s) && MessagesInv(s) && TallyInv(s) && CrownsInv(s)
  }

  // ----- what never shrinks -----

  /** Terms never decrease and a vote once given never changes. */
  ghost predicate Grows(s: State, s': State) {
    && s'.nodes.Keys == s.nodes.Keys
    && (forall i :: i in s.nodes ==> s.nodes[i].term <= s'.nodes[i].term)
    && (forall v, t, c :: VotedFor(s, v, t, c) ==> VotedFor(s', v, t, c))
  }

  lemma CallsKept(s: State, s': State)
    requires CallsInv(s) && Grows(s, s') && s'.pending <= s.pending && s'.granted == s.granted
    ensures CallsInv(s')
  {
    forall c | Called(s, c) ensures Called(s', c) {}
  }

  lemma ReignKept(s: State, s': State, t: int)
    requires t in s.reigns && ReignInv(s, t) && Grows(s, s') && s.crowns <= s'.crowns
    requires t in s'.reigns && s'.reigns[t].leader == s.reigns[t].leader && s'.reigns[t].voters == s.reigns[t].voters
    ensures ReignInv(s', t)
  {
  }

  ghost predicate SameReigns(s: State, s': State) {
    && s'.crowns == s.crowns && s'.reigns.Keys == s.reigns.Keys
    && (forall t :: t in s.reigns ==>
         s'.reigns[t].leader == s.reigns[t].leader && s'.reigns[t].voters == s.reigns[t].voters)
  }

  lemma CrownsKept(s: State, s': State)
    requires CrownsInv(s) && Grows(s, s') && SameReigns(s, s')
    ensures CrownsInv(s')
  {
    forall t {:trigger ReignInv(s', t)} | t in s'.reigns ensures ReignInv(s', t) {
      assert ReignInv(s, t);
      ReignKept(s, s', t);
    }
  }

  lemma TallyKept(s: State, s': State)
    requires TallyInv(s) && s'.nodes.Keys == s.nodes.Keys && s'.granted == s.granted
    requires forall i :: i in s.nodes ==> s'.nodes[i].votePass == s.nodes[i].votePass
    ensures TallyInv(s')
  {
    forall i, t | i in s'.nodes && t in s'.nodes[i].votePass
      ensures s'.nodes[i].votePass[t] <= 1 + |Tallied(s', i, t)|
    {
      assert Tallied(s', i, t) == Tallied(s, i, t);
    }
  }

  // ----- actions that take no part in elections -----

  ghost predicate QuietNode(n: Node, n': Node) {
    && n'.voteFor == n.voteFor && n'.votePass == n.votePass && n'.term >= n.term
    && (n'.status != Follower ==> n'.status == n.status && n'.term == n.term)
  }

  ghost predicate Quiet(s: State, s': State) {
    && s'.nodes.Keys == s.nodes.Keys
    && (forall i :: i in s.nodes ==> QuietNode(s.nodes[i], s'.nodes[i]))
    && s'.pending == s.pending && s'.ballots == s.ballots && s'.voteReplies == s.voteReplies
    && s'.granted == s.granted && SameReigns(s, s')
  }

  lemma QuietKeeps(cfg: Config, s: State, s': State)
    requires ElectionInv(cfg, s) && Quiet(s, s')
    ensures ElectionInv(cfg, s')
  {
    assert Grows(s, s');
    CallsKept(s, s');
    CrownsKept(s, s');
    TallyKept(s, s');
    forall v, t, c | VotedFor(s', v, t, c) ensures VotedFor(s, v, t, c) {}
  }

  // ----- the election actions, by what they change -----

  /** Node i becomes a candidate of its next term, votes for itself and calls its peers. */
  ghost predicate Stood(s: State, s': State, i: Addr) {
    && OthersSame(s, s', i)
    && (var n, n' := s.nodes[i], s'.nodes[i];
        && n'.term == n.term + 1 && n'.status == Candidate
        && n'.voteFor == n.voteFor[n'.term := i]
        && n'.votePass == n.votePass[n'.term := Lookup(n.votePass, n'.term) + 1]
        && s'.pending == s.pending + (set p | p in Peers(s, i) :: VoteCall(i, n'.term, p))
        && s'.ballots == s.ballots + {BallotOf(i, n')})
    && s'.voteReplies == s.voteReplies && s'.granted == s.granted
    && s'.crowns == s.crowns && s'.reigns == s.reigns
  }

  lemma StoodGrows(s: State, s': State, i: Addr)
    requires VotesInv(s) && Stood(s, s', i)
    ensures Grows(s, s')
  {
    assert forall c :: !VotedFor(s, i, s'.nodes[i].term, c);
  }

  lemma StoodKeepsCalls(s: State, s': State, i: Addr)
    requires CallsInv(s) && Stood(s, s', i) && Grows(s, s')
    ensures CallsInv(s')
  {
    forall c | Called(s, c) ensures Called(s', c) {}
    forall c | c in s'.pending && c !in s.pending ensures Called(s', c) && c !in s'.granted {
      assert c.candidate == i && c.term == s.nodes[i].term + 1;
      assert !Called(s, c);
    }
  }

  lemma StoodKeepsTally(s: State, s': State, i: Addr)
    requires TallyInv(s) && PassInv(s) && VotesInv(s) && Stood(s, s', i)
    ensures TallyInv(s')
  {
    assert !VotedFor(s, i, s'.nodes[i].term, i);
    forall k, t | k in s'.nodes && t in s'.nodes[k].votePass
      ensures s'.nodes[k].votePass[t] <= 1 + |Tallied(s', k, t)|
    {
      assert Tallied(s', k, t) == Tallied(s, k, t);
    }
  }

  lemma StoodKeepsStatus(s: State, s': State, i: Addr)
    requires StatusInv(s) && CrownsInv(s) && Stood(s, s', i)
    ensures StatusInv(s')
  {
    var t := s'.nodes[i].term;
    assert Crown(t, i) !in s.crowns by {
      assert t in s.reigns ==> ReignInv(s, t);
    }
  }

  lemma StoodKeepsVotes(s: State, s': State, i: Addr)
    requires VotesInv(s) && PassInv(s) && Stood(s, s', i) && Grows(s, s')
    ensures VotesInv(s') && PassInv(s')
  {
    forall v, t, c | VotedFor(s', v, t, c)
      ensures VotedFor(s, v, t, c) || (v == c == i && t == s'.nodes[i].term) {}
  }

  lemma StoodKeepsMessages(s: State, s': State, i: Addr)
    requires MessagesInv(s) && Stood(s, s', i) && Grows(s, s')
    ensures MessagesInv(s')
  {
  }

  lemma StoodKeeps(cfg: Config, s: State, s': State, i: Addr)
    requires ElectionInv(cfg, s) && Stood(s, s', i)
    ensures ElectionInv(cfg, s')
  {
    hide VotesInv, PassInv, MessagesInv, CallsInv, TallyInv, StatusInv, CrownsInv, Grows;
    StoodGrows(s, s', i);
    StoodKeepsVotes(s, s', i);
    StoodKeepsMessages(s, s', i);
    StoodKeepsCalls(s, s', i);
    StoodKeepsTally(s, s', i);
    StoodKeepsStatus(s, s', i);
    CrownsKept(s, s');
  }

  /** Node j answers a ballot: at most it adopts the term and gives the vote of that term. */
  ghost predicate Answered(s: State, s': State, j: Addr, req: VoteReq) {
    && OthersSame(s, s', j) && req in s.ballots && req.candidate != j
    && (var n, n' := s.nodes[j], s'.nodes[j];
        && n'.votePass == n.votePass && n'.term >= n.term
        && (n'.status != Follower ==> n'.status == n.status && n'.term == n.term)
        && (n'.voteFor == n.voteFor
            || (n'.term == req.term && n'.voteFor == n.voteFor[req.term := req.candidate]
                && (req.term in n.voteFor ==> n.voteFor[req.term] == req.candidate)))
        && (forall r :: r in s'.voteReplies && r !in s.voteReplies && r.res.pass ==>
             r.res.term == r.call.term == req.term && r.call == VoteCall(req.candidate, req.term, j)
             && req.term in n'.voteFor && n'.voteFor[req.term] == req.candidate))
    && s'.pending == s.pending && s'.ballots == s.ballots && s'.granted == s.granted
    && s'.crowns == s.crowns && s'.reigns == s.reigns
  }

  lemma AnsweredGrows(s: State, s': State, j: Addr, req: VoteReq)
    requires Answered(s, s', j, req)
    ensures Grows(s, s')
  {
  }

  lemma AnsweredKeepsVotes(s: State, s': State, j: Addr, req: VoteReq)
    requires VotesInv(s) && MessagesInv(s) && Answered(s, s', j, req) && Grows(s, s')
    ensures VotesInv(s')
  {
    forall v, t, c | VotedFor(s', v, t, c)
      ensures 0 <= t <= s'.nodes[v].term && c in s'.nodes && t <= s'.nodes[c].term
    {
      if !VotedFor(s, v, t, c) {
        assert v == j && t == req.term == s'.nodes[j].term && c == req.candidate;
      }
    }
  }

  lemma AnsweredKeepsMessages(s: State, s': State, j: Addr, req: VoteReq)
    requires MessagesInv(s) && Answered(s, s', j, req) && Grows(s, s')
    ensures MessagesInv(s')
  {
  }

  lemma AnsweredKeepsStatus(s: State, s': State, j: Addr, req: VoteReq)
    requires PassInv(s) && StatusInv(s) && Answered(s, s', j, req) && Grows(s, s')
    ensures PassInv(s') && StatusInv(s')
  {
  }

  lemma AnsweredKeeps(cfg: Config, s: State, s': State, j: Addr, req: VoteReq)
    requires ElectionInv(cfg, s) && Answered(s, s', j, req)
    ensures ElectionInv(cfg, s')
  {
    hide VotesInv, PassInv, MessagesInv, CallsInv, TallyInv, StatusInv, CrownsInv, Grows;
    AnsweredGrows(s, s', j, req);
    AnsweredKeepsVotes(s, s', j, req);
    AnsweredKeepsMessages(s, s', j, req);
    AnsweredKeepsStatus(s, s', j, req);
    CallsKept(s, s');
    CrownsKept(s, s');
    TallyKept(s, s');
  }

  /** A call comes back: the candidate counts the vote, and may become the leader of its term. */
  ghost predicate Counted(cfg: Config, s: State, s': State, call: VoteCall) {
    var i, t := call.candidate, call.term;
    && OthersSame(s, s', i) && call in s.pending
    && VotedFor(s, call.peer, t, i)
    && (var n, n' := s.nodes[i], s'.nodes[i];
        && n.status == Candidate && n.term == t && n'.term == t && n'.voteFor == n.voteFor
        && n'.votePass == n.votePass[t := Lookup(n.votePass, t) + 1]
        && ((n'.status == Candidate && s'.crowns == s.crowns && s'.reigns == s.reigns)
            || (n'.status == Leader && n'.votePass[t] > |cfg.members| / 2
                && s'.crowns == s.crowns + {Crown(t, i)}
                && t in s'.reigns && s'.reigns == s.reigns[t := s'.reigns[t]]
                && s'.reigns[t].leader == i && s'.reigns[t].voters == Voters(s, i, t))))
    && s'.pending == s.pending - {call} && s'.granted == s.granted + {call}
    && s'.ballots == s.ballots && s'.voteReplies == s.voteReplies
  }

  lemma CountedKeepsTally(cfg: Config, s: State, s': State, call: VoteCall)
    requires TallyInv(s) && CallsInv(s) && StatusInv(s) && Counted(cfg, s, s', call)
    ensures TallyInv(s')
  {
    forall k, t | k in s'.nodes && t in s'.nodes[k].votePass
      ensures s'.nodes[k].votePass[t] <= 1 + |Tallied(s', k, t)|
    {
      if k == call.candidate && t == call.term {
        OwnTallyGrows(cfg, s, s', call);
      } else {
        assert t in s.nodes[k].votePass && s'.nodes[k].votePass[t] == s.nodes[k].votePass[t];
        OtherTallySame(s, s', call, k, t);
      }
    }
  }

  lemma OtherTallySame(s: State, s': State, call: VoteCall, k: Addr, t: int)
    requires s'.nodes.Keys == s.nodes.Keys && s'.granted == s.granted + {call}
    requires !(k == call.candidate && t == call.term)
    ensures Tallied(s', k, t) == Tallied(s, k, t)
  {
  }

  /** The call that was counted had not been counted before. */
  lemma OwnTallyGrows(cfg: Config, s: State, s': State, call: VoteCall)
    requires TallyInv(s) && CallsInv(s) && StatusInv(s) && Counted(cfg, s, s', call)
    ensures s'.nodes[call.candidate].votePass[call.term] <= 1 + |Tallied(s', call.candidate, call.term)|
  {
    var i, t := call.candidate, call.term;
    assert Called(s, call) && s.nodes[i].term in s.nodes[i].votePass;
    TallyAdds(s, s', call);
    assert s.nodes[i].votePass[t] <= 1 + |Tallied(s, i, t)|;
  }

  lemma TallyAdds(s: State, s': State, call: VoteCall)
    requires s'.nodes.Keys == s.nodes.Keys && call.peer in s.nodes && call !in s.granted
    requires s'.granted == s.granted + {call}
    ensures |Tallied(s', call.candidate, call.term)| == |Tallied(s, call.candidate, call.term)| + 1
  {
    assert call.peer !in Tallied(s, call.candidate, call.term);
    assert Tallied(s', call.candidate, call.term) == Tallied(s, call.candidate, call.term) + {call.peer};
  }

  /** The votes counted so far, the one that just came in and the candidate's own are distinct voters. */
  lemma WinnerHasMajority(cfg: Config, s: State, s': State, call: VoteCall)
    requires WellFormed(cfg) && ElectionInv(cfg, s) && Counted(cfg, s, s', call)
    requires s'.nodes[call.candidate].status == Leader
    ensures 2 * |Voters(s, call.candidate, call.term)| > |s.nodes.Keys|
  {
    var i, t := call.candidate, call.term;
    assert VotedFor(s, i, t, i) && Called(s, call) && s.nodes[i].term in s.nodes[i].votePass;
    assert s.nodes[i].votePass[t] <= 1 + |Tallied(s, i, t)|;
    VotersBeyondTally(s, call);
    SeqSetSize(cfg.members);
  }

  /** The candidate and the peer whose vote comes back have voted too. */
  lemma VotersBeyondTally(s: State, call: VoteCall)
    requires CallsInv(s) && call in s.pending && VotedFor(s, call.peer, call.term, call.candidate)
    requires VotedFor(s, call.candidate, call.term, call.candidate)
    ensures |Voters(s, call.candidate, call.term)| >= |Tallied(s, call.candidate, call.term)| + 2
  {
    var i, t := call.candidate, call.term;
    var counted := Tallied(s, i, t);
    assert !Called(s, VoteCall(i, t, i)) && i !in counted;
    assert Called(s, call) && call.peer !in counted;
    assert counted <= Voters(s, i, t) by {
      forall p | p in counted ensures p in Voters(s, i, t) {
        assert VotedFor(s, p, t, i);
      }
    }
    SubsetSize(counted + {i} + {call.peer}, Voters(s, i, t));
  }

  /** A node that a majority voted for is the one leader of the term, if the term has a leader. */
  lemma MajorityNamesLeader(s: State, t: int, i: Addr)
    requires CrownsInv(s) && t in s.reigns && 2 * |Voters(s, i, t)| > |s.nodes.Keys|
    ensures s.reigns[t].leader == i
  {
    assert ReignInv(s, t);
    var v := MajoritiesMeet(s.nodes.Keys, s.reigns[t].voters, Voters(s, i, t));
    assert VotedFor(s, v, t, s.reigns[t].leader);
  }

  /** A candidate that wins its term finds the term without a leader. */
  lemma WinnerIsFirst(cfg: Config, s: State, s': State, call: VoteCall)
    requires WellFormed(cfg) && ElectionInv(cfg, s) && Counted(cfg, s, s', call)
    requires s'.nodes[call.candidate].status == Leader
    ensures call.term !in s.reigns
  {
    WinnerHasMajority(cfg, s, s', call);
    assert Crown(call.term, call.candidate) !in s.crowns;
    assert call.term in s.reigns ==> ReignInv(s, call.term);
    if call.term in s.reigns {
      MajorityNamesLeader(s, call.term, call.candidate);
    }
  }

  lemma CountedKeepsCrowns(cfg: Config, s: State, s': State, call: VoteCall)
    requires WellFormed(cfg) && ElectionInv(cfg, s) && Counted(cfg, s, s', call) && Grows(s, s')
    ensures CrownsInv(s')
  {
    if s'.nodes[call.candidate].status == Leader {
      WinnerHasMajority(cfg, s, s', call);
      WinnerIsFirst(cfg, s, s', call);
      NewReign(cfg, s, s', call);
      CrownsWith(s, s', call.term);
    } else {
      CrownsKept(s, s');
    }
  }

  lemma NewReign(cfg: Config, s: State, s': State, call: VoteCall)
    requires VotesInv(s) && Counted(cfg, s, s', call) && Grows(s, s')
    requires s'.nodes[call.candidate].status == Leader
    requires 2 * |Voters(s, call.candidate, call.term)| > |s.nodes.Keys|
    ensures call.term in s'.reigns && ReignInv(s', call.term)
  {
    forall v | v in Voters(s, call.candidate, call.term) ensures VotedFor(s', v, call.term, call.candidate) {
      assert VotedFor(s, v, call.term, call.candidate);
    }
  }

  /** One new leadership of a term that had none. */
  lemma CrownsWith(s: State, s': State, t: int)
    requires CrownsInv(s) && Grows(s, s') && t !in s.reigns && t in s'.reigns && ReignInv(s', t)
    requires s'.reigns == s.reigns[t := s'.reigns[t]] && s'.crowns == s.crowns + {Crown(t, s'.reigns[t].leader)}
    ensures CrownsInv(s')
  {
    forall u {:trigger ReignInv(s', u)} | u in s'.reigns ensures ReignInv(s', u) {
      if u != t {
        assert ReignInv(s, u);
        ReignKept(s, s', u);
      }
    }
  }

  lemma CountedGrows(cfg: Config, s: State, s': State, call: VoteCall)
    requires Counted(cfg, s, s', call)
    ensures Grows(s, s') && forall v, t, c :: VotedFor(s', v, t, c) ==> VotedFor(s, v, t, c)
  {
  }

  lemma CountedKeepsCalls(cfg: Config, s: State, s': State, call: VoteCall)
    requires CallsInv(s) && Counted(cfg, s, s', call) && Grows(s, s')
    ensures CallsInv(s')
  {
    forall c | Called(s, c) ensures Called(s', c) {}
  }

  lemma CountedKeepsStatus(cfg: Config, s: State, s': State, call: VoteCall)
    requires PassInv(s) && StatusInv(s) && Counted(cfg, s, s', call) && Grows(s, s')
    ensures PassInv(s') && StatusInv(s')
  {
  }

  lemma CountedKeeps(cfg: Config, s: State, s': State, call: VoteCall)
    requires WellFormed(cfg) && ElectionInv(cfg, s) && Counted(cfg, s, s', call)
    ensures ElectionInv(cfg, s')
  {
    hide CallsInv, TallyInv, StatusInv, CrownsInv, PassInv;
    CountedGrows(cfg, s, s', call);
    CountedKeepsTally(cfg, s, s', call);
    CountedKeepsCrowns(cfg, s, s', call);
    CountedKeepsCalls(cfg, s, s', call);
    CountedKeepsStatus(cfg, s, s', call);
  }

  // ----- every action -----

  lemma InitElection(cfg: Config)
    ensures ElectionInv(cfg, Init(cfg))
  {
  }

  lemma TimeoutIs(s: State, i: Addr)
    requires i in s.nodes
    ensures Stood(s, DoTimeout(s, i), i) || Quiet(s, DoTimeout(s, i))
  {
  }

  lemma VoteIs(s: State, j: Addr, req: VoteReq)
    requires j in s.nodes && req in s.ballots && req.candidate != j
    ensures Answered(s, DoVote(s, j, req), j, req)
  {
    VoteCases(s.nodes[j], req);
  }

  lemma VoteBackIs(cfg: Config, s: State, call: VoteCall, res: Option<VoteRes>)
    requires MessagesInv(s) && Enabled(cfg, s, VoteBack(call, res))
    ensures Counts(s.nodes[call.candidate], res) ==> Counted(cfg, s, DoVoteBack(cfg, s, call, res), call)
  {
    hide VoteCallBack, PingEntry;
    assert res.Some? ==> VoteReply(call, res.value) in s.voteReplies;
    VoteBackCases(cfg, call.candidate, s.nodes[call.candidate], res);
  }

  lemma DroppedIs(cfg: Config, s: State, call: VoteCall, res: Option<VoteRes>)
    requires call.candidate in s.nodes && !Counts(s.nodes[call.candidate], res)
    ensures Quiet(s.(pending := s.pending - {call}), DoVoteBack(cfg, s, call, res))
  {
  }

  /** A call that brings no vote is dropped. */
  lemma DroppedKeeps(cfg: Config, s: State, s': State, call: VoteCall)
    requires ElectionInv(cfg, s) && Quiet(s.(pending := s.pending - {call}), s')
    ensures ElectionInv(cfg, s')
  {
    var s0 := s.(pending := s.pending - {call});
    assert Grows(s, s0);
    CallsKept(s, s0);
    CrownsKept(s, s0);
    TallyKept(s, s0);
    forall v, t, c | VotedFor(s0, v, t, c) ensures VotedFor(s, v, t, c) {}
    QuietKeeps(cfg, s0, s');
  }

  lemma AppendEntriesQuiet(r: Repairs, n: Node, req: AppendReq)
    ensures QuietNode(n, AppendEntries(r, n, req).0)
  {
    hide AppendEntries;
    AppendCases(r, n, req);
  }

  lemma ReplicateReplyQuiet(cfg: Config, self: Addr, n: Node, f: Addr, req: AppendReq, res: Option<AppendRes>)
    ensures QuietNode(n, ReplicateReply(cfg, self, n, f, req, res))
  {
    hide ReplicateReply;
    ReplyCases(cfg, self, n, f, req, res);
  }

  lemma HandleQuiet(cfg: Config, n: Node, a: Action)
    requires !a.TimeoutAt? && !a.VoteAt? && !a.VoteBack?
    ensures QuietNode(n, Handle(cfg, n, a))
  {
    hide AppendEntries, ReplicateReply, HeartBeatCallBack, ClientWrite;
    match a
    case WriteAt(_, kind, key, value) => ClientWriteCases(n, kind, key, value);
    case DeliverTo(_, req) => AppendEntriesQuiet(cfg.repairs, n, req);
    case ReplicateBack(f, req, res) => ReplicateReplyQuiet(cfg, req.leader, n, f, req, res);
    case HeartBeatBack(_, _, res) => HeartBeatCases(n, res);
    case _ =>
  }

  lemma OtherHistory(cfg: Config, s: State, a: Action)
    requires Enabled(cfg, s, a) && !a.TimeoutAt? && !a.VoteAt? && !a.VoteBack?
    ensures var s' := Next(cfg, s, a);
            && s'.pending == s.pending && s'.ballots == s.ballots && s'.voteReplies == s.voteReplies
            && s'.granted == s.granted && SameReigns(s, s')
  {
    hide AppendEntries, ReplicateReply, HeartBeatCallBack, ClientWrite, ApplyBegin, ApplyEntry, ApplyTag, BuildAppend;
    match a
    case WriteAt(_, _, _, _) =>
    case ReplicateTo(_, _, _) =>
    case DeliverTo(_, _) =>
    case ReplicateBack(_, _, _) =>
    case HeartBeatAt(_) =>
    case HeartBeatBack(_, _, _) =>
    case ApplyBeginAt(_) =>
    case ApplyEntryAt(_) =>
    case ApplyTagAt(_) =>
    case ThreadAt(_, _, _) =>
  }

  lemma OtherIsQuiet(cfg: Config, s: State, a: Action)
    requires Enabled(cfg, s, a) && !a.TimeoutAt? && !a.VoteAt? && !a.VoteBack?
    ensures Quiet(s, Next(cfg, s, a))
  {
    hide Next, Enabled, Handle;
    ActorHandles(cfg, s, a);
    HandleQuiet(cfg, s.nodes[Actor(a)], a);
    OtherHistory(cfg, s, a);
  }

  lemma NextElection(cfg: Config, s: State, a: Action)
    requires WellFormed(cfg) && ElectionInv(cfg, s)
    ensures ElectionInv(cfg, Next(cfg, s, a))
  {
    hide DoTimeout, DoVote, DoVoteBack, DoWrite, DoDeliver, DoReplicateBack, DoHeartBeat;
    hide VotesInv, PassInv, StatusInv, CallsInv, TallyInv, CrownsInv;
    var s' := Next(cfg, s, a);
    if Enabled(cfg, s, a) {
      match a
      case TimeoutAt(i) =>
        TimeoutIs(s, i);
        if Stood(s, s', i) { StoodKeeps(cfg, s, s', i); } else { QuietKeeps(cfg, s, s'); }
      case VoteAt(j, req) =>
        VoteIs(s, j, req);
        AnsweredKeeps(cfg, s, s', j, req);
      case VoteBack(call, res) =>
        VoteBackIs(cfg, s, call, res);
        if Counts(s.nodes[call.candidate], res) {
          CountedKeeps(cfg, s, s', call);
        } else {
          DroppedIs(cfg, s, call, res);
          DroppedKeeps(cfg, s, s', call);
        }
      case _ =>
        OtherIsQuiet(cfg, s, a);
        QuietKeeps(cfg, s, s');
    }
  }

  lemma {:induction false} ElectionHolds(cfg: Config, run: seq<Action>)
    requires WellFormed(cfg)
    ensures ElectionInv(cfg, After(cfg, run))
  {
    if run == [] {
      InitElection(cfg);
    } else {
      ElectionHolds(cfg, run[..|run| - 1]);
      NextElection(cfg, After(cfg, run[..|run| - 1]), run[|run| - 1]);
    }
  }

  // ----- over whole runs -----

  lemma NextGrows(cfg: Config, s: State, a: Action)
    requires VotesInv(s) && MessagesInv(s)
    ensures Grows(s, Next(cfg, s, a)) && s.crowns <= Next(cfg, s, a).crowns
  {
    hide DoTimeout, DoVote, DoVoteBack, DoWrite, DoDeliver, DoReplicateBack, DoHeartBeat;
    var s' := Next(cfg, s, a);
    if Enabled(cfg, s, a) {
      match a
      case TimeoutAt(i) =>
        TimeoutIs(s, i);
        if Stood(s, s', i) { StoodGrows(s, s', i); }
      case VoteAt(j, req) =>
        VoteIs(s, j, req);
        AnsweredGrows(s, s', j, req);
      case VoteBack(call, res) =>
        VoteBackIs(cfg, s, call, res);
        if Counts(s.nodes[call.candidate], res) {
          CountedGrows(cfg, s, s', call);
        } else {
          DroppedIs(cfg, s, call, res);
          QuietGrows(s.(pending := s.pending - {call}), s');
        }
      case _ =>
        OtherIsQuiet(cfg, s, a);
        QuietGrows(s, s');
    }
  }

  lemma QuietGrows(s: State, s': State)
    requires Quiet(s, s')
    ensures Grows(s, s') && s'.crowns == s.crowns
  {
  }

  /** Along a run no term decreases, no vote changes and no leadership is forgotten. */
  lemma {:induction false} RunGrows(cfg: Config, run: seq<Action>, k: nat)
    requires WellFormed(cfg) && k <= |run|
    ensures Grows(After(cfg, run[..k]), After(cfg, run))
    ensures After(cfg, run[..k]).crowns <= After(cfg, run).crowns
  {
    if k == |run| {
      assert run[..k] == run;
    } else {
      var most := run[..|run| - 1];
      assert most[..k] == run[..k];
      RunGrows(cfg, most, k);
      ElectionHolds(cfg, most);
      NextGrows(cfg, After(cfg, most), run[|run| - 1]);
    }
  }

  /** Two nodes that are leader of the same term, at any two moments of a run, are the same node. */
  lemma ElectionSafety(cfg: Config, run: seq<Action>, a: nat, b: nat, i: Addr, j: Addr)
    requires WellFormed(cfg) && a <= |run| && b <= |run|
    requires i in After(cfg, run[..a]).nodes && j in After(cfg, run[..b]).nodes
    requires After(cfg, run[..a]).nodes[i].status == Leader && After(cfg, run[..b]).nodes[j].status == Leader
    requires After(cfg, run[..a]).nodes[i].term == After(cfg, run[..b]).nodes[j].term
    ensures i == j
  {
    var t := After(cfg, run[..a]).nodes[i].term;
    ElectionHolds(cfg, run[..a]);
    ElectionHolds(cfg, run[..b]);
    ElectionHolds(cfg, run);
    RunGrows(cfg, run, a);
    RunGrows(cfg, run, b);
    assert Crown(t, i) in After(cfg, run).crowns && Crown(t, j) in After(cfg, run).crowns;
  }

  /** A node never votes for two candidates of one term, over a whole run. */
  lemma OneVotePerTerm(cfg: Config, run: seq<Action>, a: nat, v: Addr, t: int, c: Addr, d: Addr)
    requires WellFormed(cfg) && a <= |run|
    requires VotedFor(After(cfg, run[..a]), v, t, c) && VotedFor(After(cfg, run), v, t, d)
    ensures c == d
  {
    RunGrows(cfg, run, a);
  }
}
