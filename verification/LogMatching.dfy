/**
 Log matching (section 5.3 of the Raft paper): two logs that hold an entry of the same term at an
 index are equal up to that index. It needs the alignment repair. The invariant behind it: every
 log, cut after any of its entries, is a prefix of the log written by the leader of that entry's
 term.
 */
module LogMatching {
  import opened Base
  import opened RaftNode
  import opened Cluster
  import opened ElectionSafety
  import opened Frames
  import opened Provenance

  // ----- sequences -----

  /** Where two logs agree on a term they agree on everything up to there. */
  ghost predicate Consistent(a: seq<Entry>, b: seq<Entry>) {
    forall k :: 0 <= k < |a| && k < |b| && a[k].term == b[k].term ==> a[..k + 1] == b[..k + 1]
  }

  ghost predicate Sorted(log: seq<Entry>) {
    forall k, l :: 0 <= k <= l < |log| ==> log[k].term <= log[l].term
  }

  ghost predicate Common(p: seq<Entry>, a: seq<Entry>, b: seq<Entry>) {
    p <= a && p <= b
  }

  lemma PrefixTrans(a: seq<Entry>, b: seq<Entry>, c: seq<Entry>)
    requires a <= b && b <= c
    ensures a <= c
  {
  }

  lemma PrefixCut(p: seq<Entry>, lead: seq<Entry>, k: nat, log: seq<Entry>)
    requires p <= lead && |p| <= k <= |log| && log <= lead
    ensures p <= log
  {
  }

  /** A common prefix ends before the first difference. */
  lemma CommonStops(p: seq<Entry>, a: seq<Entry>, b: seq<Entry>, k: nat)
    requires Common(p, a, b) && k < |a| && k < |b| && a[k].term != b[k].term
    ensures |p| <= k
  {
  }

  /** The entries the log already holds are the leader's, and the next one, if any, is not. */
  lemma {:induction false} AgreeingIsCommon(log: seq<Entry>, lead: seq<Entry>, from: nat, es: seq<Entry>)
    requires from <= |log| && from + |es| <= |lead| && es == lead[from..from + |es|]
    requires log[..from] == lead[..from] && Consistent(log, lead)
    ensures var k := Agreeing(log, from, es);
            && log[..from + k] == lead[..from + k]
            && (k < |es| && from + k < |log| ==> log[from + k].term != lead[from + k].term)
    decreases |es|
  {
    if es != [] && from < |log| && log[from].term == es[0].term {
      assert es[0] == lead[from];
      assert es[1..] == lead[from + 1..from + 1 + |es[1..]|];
      AgreeingIsCommon(log, lead, from + 1, es[1..]);
    }
  }

  // ----- the invariant -----

  /** The request carries entries of the leader's log, behind the index and term it names. */
  ghost predicate Slice(lead: seq<Entry>, req: AppendReq) {
    && -1 <= req.prevIndex && req.prevIndex + 1 + |req.entries| <= |lead|
    && req.entries == lead[req.prevIndex + 1..req.prevIndex + 1 + |req.entries|]
    && req.prevTerm == PrevTerm(lead, req.prevIndex)
  }

  ghost predicate MessageInv(s: State, m: AppendMsg) {
    && m.req.term in s.reigns && m.req.leader == s.reigns[m.req.term].leader
    && m.dest != m.req.leader
    && (m.req.entries != [] ==> Slice(s.reigns[m.req.term].log, m.req))
  }

  ghost predicate MessagesSliced(s: State) {
    forall m {:trigger MessageInv(s, m)} :: m in s.appends ==> MessageInv(s, m)
  }

  ghost predicate LeaderLogs(s: State) {
    forall i {:trigger s.nodes[i]} :: i in s.nodes && s.nodes[i].status == Leader ==>
      s.nodes[i].term in s.reigns && s.reigns[s.nodes[i].term].leader == i
      && s.reigns[s.nodes[i].term].log == s.nodes[i].log
  }

  /** A leader's log is the one it was elected with and then only entries of its own term. */
  ghost predicate ReignShape(s: State, t: int)
    requires t in s.reigns
  {
    var g := s.reigns[t];
    && g.base <= g.log && |g.base| < |g.log|
    && (forall k :: |g.base| <= k < |g.log| ==> g.log[k].term == t)
    && (forall k :: 0 <= k < |g.base| ==> g.log[k].term < t)
    && Sorted(g.log)
  }

  ghost predicate ReignShapes(s: State) {
    forall t {:trigger ReignShape(s, t)} :: t in s.reigns ==> ReignShape(s, t)
  }

  /** Cut after its entry k, the log is a prefix of the log of the leader of that entry's term. */
  ghost predicate RootedAt(s: State, log: seq<Entry>, k: nat)
    requires k < |log|
  {
    log[k].term in s.reigns && log[..k + 1] <= s.reigns[log[k].term].log
  }

  ghost predicate Rooted(s: State, log: seq<Entry>) {
    forall k {:trigger RootedAt(s, log, k)} :: 0 <= k < |log| ==> RootedAt(s, log, k)
  }

  ghost predicate AllRooted(s: State) {
    && (forall i {:trigger s.nodes[i]} :: i in s.nodes ==> Rooted(s, s.nodes[i].log))
    && (forall t {:trigger s.reigns[t]} :: t in s.reigns ==> Rooted(s, s.reigns[t].log))
  }

  ghost predicate LogInv(s: State) {
    MessagesSliced(s) && LeaderLogs(s) && ReignShapes(s) && AllRooted(s) && TermsInv(s)
  }

  // ----- consequences of the invariant -----

  /** Log matching. */
  lemma RootedConsistent(s: State, a: seq<Entry>, b: seq<Entry>)
    requires Rooted(s, a) && Rooted(s, b)
    ensures Consistent(a, b)
  {
    forall k | 0 <= k < |a| && k < |b| && a[k].term == b[k].term ensures a[..k + 1] == b[..k + 1] {
      assert RootedAt(s, a, k) && RootedAt(s, b, k);
    }
  }

  lemma RootedPrefix(s: State, a: seq<Entry>, b: seq<Entry>)
    requires Rooted(s, b) && a <= b
    ensures Rooted(s, a)
  {
    forall k {:trigger RootedAt(s, a, k)} | 0 <= k < |a| ensures RootedAt(s, a, k) {
      assert RootedAt(s, b, k);
      assert a[..k + 1] == b[..k + 1];
    }
  }

  /** A non-empty rooted log is a prefix of the log of its last entry's leader. */
  lemma RootedWhole(s: State, a: seq<Entry>)
    requires Rooted(s, a) && a != []
    ensures LastTerm(a) in s.reigns && a <= s.reigns[LastTerm(a)].log
  {
    assert RootedAt(s, a, |a| - 1);
    assert a[..|a|] == a;
  }

  lemma RootedSorted(s: State, a: seq<Entry>)
    requires Rooted(s, a) && ReignShapes(s)
    ensures Sorted(a)
  {
    if a != [] {
      RootedWhole(s, a);
      assert ReignShape(s, LastTerm(a));
    }
  }

  // ----- what a follower's log becomes -----

  /** The log after AppendEntries, measured against the log of the leader that sent the request. */
  ghost predicate FollowsLeader(r: Repairs, n: Node, req: AppendReq, lead: seq<Entry>)
    requires Slice(lead, req)
  {
    var n' := AppendEntries(r, n, req).0;
    var reach := lead[..req.prevIndex + 1 + |req.entries|];
    && (n'.log <= n.log || n'.log == reach)
    && (forall p :: Common(p, n.log, lead) ==> p <= n'.log)
    && (Judge(n, req) == Accepted ==> reach <= n'.log)
  }

  lemma MismatchFollows(r: Repairs, n: Node, req: AppendReq, lead: seq<Entry>)
    requires Slice(lead, req) && Judge(n, req) == Mismatch
    ensures FollowsLeader(r, n, req, lead)
  {
    var n' := AppendEntries(r, n, req).0;
    assert n'.log == n.log[..req.prevIndex];
    forall p | Common(p, n.log, lead) ensures p <= n'.log {
      CommonStops(p, n.log, lead, req.prevIndex);
    }
  }

  lemma AlignLog(r: Repairs, n: Node, from: nat, es: seq<Entry>)
    requires from <= |n.log|
    ensures var k := Agreeing(n.log, from, es);
            Align(r, n, from, es).log == if k == |es| then n.log else n.log[..from + k] + es[k..]
  {
  }

  lemma AlignFollows(r: Repairs, n: Node, from: nat, es: seq<Entry>, lead: seq<Entry>)
    requires from <= |n.log| && from + |es| <= |lead| && es == lead[from..from + |es|]
    requires n.log[..from] == lead[..from] && Consistent(n.log, lead)
    ensures Aligned(n.log, Align(r, n, from, es).log, lead, from + |es|)
  {
    AlignLog(r, n, from, es);
    AlignedLog(n.log, lead, from, es, Align(r, n, from, es).log);
  }

  /** What becomes of a log that is aligned with the leader's up to a length. */
  ghost predicate Aligned(log: seq<Entry>, log': seq<Entry>, lead: seq<Entry>, reach: nat)
    requires reach <= |lead|
  {
    && (log' == log || log' == lead[..reach])
    && lead[..reach] <= log'
    && (forall p :: Common(p, log, lead) ==> p <= log')
  }

  lemma AlignedLog(log: seq<Entry>, lead: seq<Entry>, from: nat, es: seq<Entry>, log': seq<Entry>)
    requires from <= |log| && from + |es| <= |lead| && es == lead[from..from + |es|]
    requires log[..from] == lead[..from] && Consistent(log, lead)
    requires var k := Agreeing(log, from, es);
             log' == if k == |es| then log else log[..from + k] + es[k..]
    ensures Aligned(log, log', lead, from + |es|)
  {
    AgreeingIsCommon(log, lead, from, es);
    var k := Agreeing(log, from, es);
    if k == |es| {
      assert lead[..from + |es|] == log[..from + |es|];
    } else {
      CutAndAppend(log, lead, from, es, k, log');
    }
  }

  lemma CutAndAppend(log: seq<Entry>, lead: seq<Entry>, from: nat, es: seq<Entry>, k: nat, log': seq<Entry>)
    requires k < |es| && from + k <= |log| && from + |es| <= |lead| && es == lead[from..from + |es|]
    requires log[..from + k] == lead[..from + k]
    requires from + k < |log| ==> log[from + k].term != lead[from + k].term
    requires log' == log[..from + k] + es[k..]
    ensures log' == lead[..from + |es|]
    ensures forall p :: Common(p, log, lead) ==> p <= log'
  {
    assert lead[..from + |es|] == lead[..from + k] + es[k..];
    forall p | Common(p, log, lead) ensures p <= log' {
      if from + k < |log| {
        CommonStops(p, log, lead, from + k);
      }
      PrefixCut(p, lead, from + k, log');
    }
  }

  lemma AcceptedLog(r: Repairs, n: Node, req: AppendReq)
    requires r.align && Judge(n, req) == Accepted && req.entries != [] && req.prevIndex >= -1
    ensures AppendEntries(r, n, req).0.log == Align(r, Follow(n, req), req.prevIndex + 1, req.entries).log
  {
    hide Align, FollowerCommit;
  }

  lemma AcceptFollows(r: Repairs, n: Node, req: AppendReq, lead: seq<Entry>)
    requires r.align && Slice(lead, req) && req.entries != [] && Consistent(n.log, lead)
    requires Judge(n, req) == Accepted
    ensures FollowsLeader(r, n, req, lead)
  {
    hide AppendEntries, Align, Consistent, Common;
    AcceptedAt(n, req, lead);
    AcceptedLog(r, n, req);
    AlignFollows(r, Follow(n, req), req.prevIndex + 1, req.entries, lead);
  }

  lemma AcceptedAt(n: Node, req: AppendReq, lead: seq<Entry>)
    requires Slice(lead, req) && req.entries != [] && Consistent(n.log, lead) && Judge(n, req) == Accepted
    ensures req.prevIndex + 1 <= |n.log| && n.log[..req.prevIndex + 1] == lead[..req.prevIndex + 1]
  {
    if req.prevIndex >= 0 {
      assert n.log[req.prevIndex].term == lead[req.prevIndex].term;
    }
  }

  lemma FollowerLog(r: Repairs, n: Node, req: AppendReq, lead: seq<Entry>)
    requires r.align && Slice(lead, req) && req.entries != [] && Consistent(n.log, lead)
    ensures FollowsLeader(r, n, req, lead)
  {
    match Judge(n, req)
    case Mismatch => MismatchFollows(r, n, req, lead);
    case Accepted => AcceptFollows(r, n, req, lead);
    case _ =>
  }

  // ----- preservation, by what an action changes -----

  /** Leaderships are only added, and their logs only extended. */
  ghost predicate ReignsGrow(s: State, s': State) {
    forall t {:trigger s.reigns[t]} {:trigger s'.reigns[t]} :: t in s.reigns ==>
      t in s'.reigns && s'.reigns[t].leader == s.reigns[t].leader && s'.reigns[t].voters == s.reigns[t].voters
      && s'.reigns[t].base == s.reigns[t].base && s.reigns[t].log <= s'.reigns[t].log
  }

  lemma RootedGrows(s: State, s': State, log: seq<Entry>)
    requires Rooted(s, log) && ReignsGrow(s, s')
    ensures Rooted(s', log)
  {
    forall k {:trigger RootedAt(s', log, k)} | 0 <= k < |log| ensures RootedAt(s', log, k) {
      assert RootedAt(s, log, k);
      PrefixTrans(log[..k + 1], s.reigns[log[k].term].log, s'.reigns[log[k].term].log);
    }
  }

  lemma SliceGrows(lead: seq<Entry>, lead': seq<Entry>, req: AppendReq)
    requires Slice(lead, req) && lead <= lead'
    ensures Slice(lead', req)
  {
    var a, b := req.prevIndex + 1, req.prevIndex + 1 + |req.entries|;
    assert lead'[..|lead|] == lead;
    assert lead'[a..b] == lead[a..b];
  }

  lemma MessageGrows(s: State, s': State, m: AppendMsg)
    requires MessageInv(s, m) && ReignsGrow(s, s')
    ensures MessageInv(s', m)
  {
    if m.req.entries != [] {
      SliceGrows(s.reigns[m.req.term].log, s'.reigns[m.req.term].log, m.req);
    }
  }

  /** No log and no leadership changes, no node becomes leader. */
  ghost predicate Still(s: State, s': State) {
    && s'.nodes.Keys == s.nodes.Keys && s'.reigns == s.reigns
    && (forall i {:trigger s'.nodes[i]} :: i in s.nodes ==>
         && s'.nodes[i].log == s.nodes[i].log && s.nodes[i].term <= s'.nodes[i].term
         && (s'.nodes[i].status == Leader ==> s.nodes[i].status == Leader && s'.nodes[i].term == s.nodes[i].term))
  }

  lemma StillKeeps(s: State, s': State)
    requires LogInv(s) && Still(s, s') && TermsInv(s')
    requires forall m :: m in s'.appends ==> m in s.appends || MessageInv(s, m)
    ensures LogInv(s')
  {
    assert ReignsGrow(s, s');
    forall m {:trigger MessageInv(s', m)} | m in s'.appends ensures MessageInv(s', m) {
      MessageGrows(s, s', m);
    }
    forall t {:trigger ReignShape(s', t)} | t in s'.reigns ensures ReignShape(s', t) {
      assert ReignShape(s, t);
    }
    forall i {:trigger s'.nodes[i]} | i in s'.nodes ensures Rooted(s', s'.nodes[i].log) {
      RootedGrows(s, s', s.nodes[i].log);
    }
    forall t {:trigger s'.reigns[t]} | t in s'.reigns ensures Rooted(s', s'.reigns[t].log) {
      RootedGrows(s, s', s.reigns[t].log);
    }
  }

  /** The leader of term t, node i, has this log now: it was elected or wrote one more entry. */
  ghost predicate Led(s: State, s': State, i: Addr, t: int, e: Entry) {
    && OthersSame(s, s', i) && s'.appends == s.appends
    && s'.nodes[i].status == Leader && s'.nodes[i].term == s.nodes[i].term == t && e.term == t
    && s'.nodes[i].log == s.nodes[i].log + [e]
    && t in s'.reigns && s'.reigns == s.reigns[t := s'.reigns[t]]
    && s'.reigns[t].log == s'.nodes[i].log && s'.reigns[t].leader == i
    && (if t in s.reigns
        then s.nodes[i].status == Leader
             && s'.reigns[t].base == s.reigns[t].base && s'.reigns[t].voters == s.reigns[t].voters
        else s'.reigns[t].base == s.nodes[i].log)
  }

  lemma LedGrows(s: State, s': State, i: Addr, t: int, e: Entry)
    requires LogInv(s) && Led(s, s', i, t, e)
    ensures ReignsGrow(s, s')
  {
  }

  lemma LedShape(s: State, s': State, i: Addr, t: int, e: Entry)
    requires LogInv(s) && Led(s, s', i, t, e)
    ensures ReignShapes(s')
  {
    RootedSorted(s, s.nodes[i].log);
    forall u {:trigger ReignShape(s', u)} | u in s'.reigns ensures ReignShape(s', u) {
      if u in s.reigns {
        assert ReignShape(s, u);
      } else {
        forall k | 0 <= k < |s.nodes[i].log| ensures s.nodes[i].log[k].term < t {
          assert RootedAt(s, s.nodes[i].log, k);
        }
      }
    }
  }

  lemma LedRooted(s: State, s': State, i: Addr, t: int, e: Entry)
    requires LogInv(s) && Led(s, s', i, t, e) && ReignsGrow(s, s')
    ensures AllRooted(s')
  {
    var log' := s'.nodes[i].log;
    RootedGrows(s, s', s.nodes[i].log);
    assert Rooted(s', log') by {
      forall k {:trigger RootedAt(s', log', k)} | 0 <= k < |log'| ensures RootedAt(s', log', k) {
        if k < |s.nodes[i].log| {
          assert RootedAt(s', s.nodes[i].log, k);
          assert log'[..k + 1] == s.nodes[i].log[..k + 1];
        }
      }
    }
    forall j {:trigger s'.nodes[j]} | j in s'.nodes ensures Rooted(s', s'.nodes[j].log) {
      if j != i { RootedGrows(s, s', s.nodes[j].log); }
    }
    forall u {:trigger s'.reigns[u]} | u in s'.reigns ensures Rooted(s', s'.reigns[u].log) {
      if u != t { RootedGrows(s, s', s.reigns[u].log); }
    }
  }

  lemma LedLeaders(s: State, s': State, i: Addr, t: int, e: Entry)
    requires LogInv(s) && Led(s, s', i, t, e)
    ensures LeaderLogs(s')
  {
    hide MessagesSliced, ReignShapes, AllRooted, TermsInv;
    forall j {:trigger s'.nodes[j]} | j in s'.nodes && s'.nodes[j].status == Leader
      ensures s'.nodes[j].term in s'.reigns && s'.reigns[s'.nodes[j].term].leader == j
              && s'.reigns[s'.nodes[j].term].log == s'.nodes[j].log
    {
      if j != i {
        assert s.nodes[j].status == Leader;
        assert t in s.reigns ==> s.reigns[t].leader == i;
      }
    }
  }

  lemma LedKeeps(s: State, s': State, i: Addr, t: int, e: Entry)
    requires LogInv(s) && Led(s, s', i, t, e) && TermsInv(s')
    ensures LogInv(s') && ReignsGrow(s, s')
  {
    LedGrows(s, s', i, t, e);
    LedShape(s, s', i, t, e);
    LedRooted(s, s', i, t, e);
    LedLeaders(s, s', i, t, e);
    forall m {:trigger MessageInv(s', m)} | m in s'.appends ensures MessageInv(s', m) {
      MessageGrows(s, s', m);
    }
  }

  /** Node f takes its log from a request. */
  ghost predicate Followed(r: Repairs, s: State, s': State, f: Addr, req: AppendReq) {
    && OthersSame(s, s', f) && s'.reigns == s.reigns && s'.appends == s.appends
    && s'.nodes[f] == AppendEntries(r, s.nodes[f], req).0
    && AppendMsg(f, req) in s.appends
  }

  lemma FollowedRooted(r: Repairs, s: State, s': State, f: Addr, req: AppendReq)
    requires r.align && LogInv(s) && Followed(r, s, s', f, req) && req.entries != []
    ensures Rooted(s, s'.nodes[f].log)
    ensures MessageInv(s, AppendMsg(f, req))
    ensures FollowsLeader(r, s.nodes[f], req, s.reigns[req.term].log)
  {
    var lead := s.reigns[req.term].log;
    assert MessageInv(s, AppendMsg(f, req));
    RootedConsistent(s, s.nodes[f].log, lead);
    FollowerLog(r, s.nodes[f], req, lead);
    if s'.nodes[f].log <= s.nodes[f].log {
      RootedPrefix(s, s'.nodes[f].log, s.nodes[f].log);
    } else {
      RootedPrefix(s, s'.nodes[f].log, lead);
    }
  }

  lemma HeartBeatKeepsLog(r: Repairs, n: Node, req: AppendReq)
    requires req.entries == []
    ensures SameBinlog(n, AppendEntries(r, n, req).0)
  {
    hide AppendEntries;
    AppendCases(r, n, req);
  }

  lemma FollowedTerms(r: Repairs, n: Node, req: AppendReq)
    requires Judge(n, req) != Outdated
    ensures var n' := AppendEntries(r, n, req).0;
            n'.term == req.term && n'.status == Follower && n.term <= n'.term
  {
    hide AppendEntries;
    AppendCases(r, n, req);
  }

  lemma FollowedKeeps(r: Repairs, s: State, s': State, f: Addr, req: AppendReq)
    requires r.align && LogInv(s) && Followed(r, s, s', f, req) && TermsInv(s')
    ensures LogInv(s')
  {
    hide MessagesSliced, ReignShapes, AllRooted, TermsInv;
    FollowedAllRooted(r, s, s', f, req);
    FollowedMessages(s, s');
    if Judge(s.nodes[f], req) != Outdated { FollowedTerms(r, s.nodes[f], req); }
  }

  lemma FollowedMessages(s: State, s': State)
    requires MessagesSliced(s) && ReignShapes(s) && s'.reigns == s.reigns && s'.appends == s.appends
    ensures MessagesSliced(s') && ReignShapes(s')
  {
    forall m {:trigger MessageInv(s', m)} | m in s'.appends ensures MessageInv(s', m) {
      MessageGrows(s, s', m);
    }
    forall t {:trigger ReignShape(s', t)} | t in s'.reigns ensures ReignShape(s', t) {
      assert ReignShape(s, t);
    }
  }

  lemma FollowedAllRooted(r: Repairs, s: State, s': State, f: Addr, req: AppendReq)
    requires r.align && LogInv(s) && Followed(r, s, s', f, req)
    ensures AllRooted(s')
  {
    hide AppendEntries;
    assert ReignsGrow(s, s');
    if req.entries == [] {
      HeartBeatKeepsLog(r, s.nodes[f], req);
    } else {
      FollowedRooted(r, s, s', f, req);
    }
    forall i {:trigger s'.nodes[i]} | i in s'.nodes ensures Rooted(s', s'.nodes[i].log) {
      RootedGrows(s, s', s'.nodes[i].log);
    }
    forall t {:trigger s'.reigns[t]} | t in s'.reigns ensures Rooted(s', s'.reigns[t].log) {
      RootedGrows(s, s', s.reigns[t].log);
    }
  }

  // ----- every action -----

  lemma InitLog(cfg: Config)
    ensures LogInv(Init(cfg))
  {
  }

  lemma BuildAppendSlice(self: Addr, n: Node, f: Addr, single: bool)
    requires CanReplicate(n, f)
    ensures Slice(n.log, BuildAppend(self, n, f, single))
  {
  }

  lemma SentSound(cfg: Config, s: State, a: Action)
    requires LogInv(s) && Enabled(cfg, s, a) && WritesNoSlot(a)
    ensures forall m :: m in Next(cfg, s, a).appends ==> m in s.appends || MessageInv(s, m)
  {
    NoSlotFrame(cfg, s, a);
    if a.ReplicateTo? {
      BuildAppendSlice(a.i, s.nodes[a.i], a.f, a.single);
    }
  }

  ghost predicate StillNode(n: Node, n': Node) {
    n.term <= n'.term && (n'.status == Leader ==> n.status == Leader && n'.term == n.term)
  }

  lemma HandleStill(cfg: Config, n: Node, a: Action)
    requires WritesNoSlot(a)
    ensures StillNode(n, Handle(cfg, n, a))
  {
    hide VoteLeader, Vote, ReplicateReply, HeartBeatCallBack;
    match a
    case TimeoutAt(i) => VoteLeaderCases(i, n);
    case VoteAt(_, req) => VoteCases(n, req);
    case ReplicateBack(f, req, res) => ReplyCases(cfg, req.leader, n, f, req, res);
    case HeartBeatBack(_, _, res) => HeartBeatCases(n, res);
    case _ =>
  }

  lemma NoSlotStill(cfg: Config, s: State, a: Action)
    requires Enabled(cfg, s, a) && WritesNoSlot(a)
    ensures Still(s, Next(cfg, s, a))
  {
    hide Next, Enabled, Handle;
    NoSlotFrame(cfg, s, a);
    ActorHandles(cfg, s, a);
    HandleStill(cfg, s.nodes[Actor(a)], a);
  }

  lemma VoteBackLeads(cfg: Config, s: State, call: VoteCall, res: Option<VoteRes>)
    requires WellFormed(cfg) && ElectionInv(cfg, s) && Enabled(cfg, s, VoteBack(call, res))
    ensures var s' := DoVoteBack(cfg, s, call, res);
            if Wins(cfg, s.nodes[call.candidate], res)
            then Led(s, s', call.candidate, call.term, PingEntry(call.term)) && call.term !in s.reigns
            else Still(s, s') && s'.appends == s.appends
  {
    hide VoteCallBack, ElectionInv;
    var s' := DoVoteBack(cfg, s, call, res);
    var n := s.nodes[call.candidate];
    VoteBackCases(cfg, call.candidate, n, res);
    if Wins(cfg, n, res) { WinsFirst(cfg, s, call, res); }
  }

  lemma WinsFirst(cfg: Config, s: State, call: VoteCall, res: Option<VoteRes>)
    requires WellFormed(cfg) && ElectionInv(cfg, s) && Enabled(cfg, s, VoteBack(call, res))
    requires Wins(cfg, s.nodes[call.candidate], res)
    ensures call.term == s.nodes[call.candidate].term && call.term !in s.reigns
  {
    hide VoteCallBack, PingEntry, CallsInv, TallyInv, CrownsInv, PassInv, StatusInv, VotesInv;
    VoteBackIs(cfg, s, call, res);
    VoteBackCases(cfg, call.candidate, s.nodes[call.candidate], res);
    WinnerIsFirst(cfg, s, DoVoteBack(cfg, s, call, res), call);
  }

  lemma WriteLeads(cfg: Config, s: State, i: Addr, kind: Kind, key: Bytes, value: Bytes)
    requires LogInv(s) && i in s.nodes
    ensures var n := s.nodes[i]; var s' := DoWrite(s, i, kind, key, value);
            if n.status == Leader then Led(s, s', i, n.term, EntryOf(kind, key, value, n.term)) && n.term in s.reigns
            else Still(s, s') && s'.appends == s.appends
  {
  }

  lemma DeliverFollows(cfg: Config, s: State, f: Addr, req: AppendReq)
    requires Enabled(cfg, s, DeliverTo(f, req))
    ensures Followed(cfg.repairs, s, DoDeliver(cfg, s, f, req), f, req)
  {
  }

  lemma SlotWriterLog(cfg: Config, s: State, a: Action)
    requires WellFormed(cfg) && cfg.repairs.align && ElectionInv(cfg, s) && LogInv(s)
    requires Enabled(cfg, s, a) && !WritesNoSlot(a) && TermsInv(Next(cfg, s, a))
    ensures LogInv(Next(cfg, s, a)) && ReignsGrow(s, Next(cfg, s, a))
  {
    hide DoTimeout, DoVote, DoVoteBack, DoWrite, DoDeliver, DoReplicateBack, DoHeartBeat;
    hide ElectionInv, LogInv, TermsInv;
    var s' := Next(cfg, s, a);
    match a
    case VoteBack(call, res) =>
      VoteBackLeads(cfg, s, call, res);
      if Wins(cfg, s.nodes[call.candidate], res) {
        LedKeeps(s, s', call.candidate, call.term, PingEntry(call.term));
      } else {
        StillKeeps(s, s');
      }
    case WriteAt(i, kind, key, value) =>
      WriteLeads(cfg, s, i, kind, key, value);
      if s.nodes[i].status == Leader {
        LedKeeps(s, s', i, s.nodes[i].term, EntryOf(kind, key, value, s.nodes[i].term));
      } else {
        StillKeeps(s, s');
      }
    case DeliverTo(f, req) =>
      DeliverFollows(cfg, s, f, req);
      FollowedKeeps(cfg.repairs, s, s', f, req);
  }

  lemma NextLog(cfg: Config, s: State, a: Action)
    requires WellFormed(cfg) && cfg.repairs.align && ElectionInv(cfg, s) && LogInv(s)
    ensures LogInv(Next(cfg, s, a)) && ReignsGrow(s, Next(cfg, s, a))
  {
    hide Next, Enabled, LogInv, TermsInv, ElectionInv;
    var s' := Next(cfg, s, a);
    if Enabled(cfg, s, a) {
      HasTerms(s);
      NextTerms(cfg, s, a);
      if WritesNoSlot(a) {
        NoSlotStill(cfg, s, a);
        SentSound(cfg, s, a);
        StillKeeps(s, s');
      } else {
        SlotWriterLog(cfg, s, a);
      }
    } else {
      NotEnabled(cfg, s, a);
    }
  }

  lemma HasTerms(s: State)
    requires LogInv(s)
    ensures TermsInv(s)
  {
  }

  lemma {:induction false} LogHolds(cfg: Config, run: seq<Action>)
    requires WellFormed(cfg) && cfg.repairs.align
    ensures LogInv(After(cfg, run))
  {
    if run == [] {
      InitLog(cfg);
    } else {
      ElectionHolds(cfg, run[..|run| - 1]);
      LogHolds(cfg, run[..|run| - 1]);
      NextLog(cfg, After(cfg, run[..|run| - 1]), run[|run| - 1]);
    }
  }

  /** In every run with aligned logs, two logs that hold the same term at an index are equal up to it. */
  lemma LogMatching(cfg: Config, run: seq<Action>, i: Addr, j: Addr, k: nat)
    requires WellFormed(cfg) && cfg.repairs.align
    requires i in After(cfg, run).nodes && j in After(cfg, run).nodes
    requires k < |After(cfg, run).nodes[i].log| && k < |After(cfg, run).nodes[j].log|
    requires After(cfg, run).nodes[i].log[k].term == After(cfg, run).nodes[j].log[k].term
    ensures After(cfg, run).nodes[i].log[..k + 1] == After(cfg, run).nodes[j].log[..k + 1]
  {
    var s := After(cfg, run);
    LogHolds(cfg, run);
    RootedConsistent(s, s.nodes[i].log, s.nodes[j].log);
  }

  /** Along a log terms never decrease. */
  lemma LogTerms(cfg: Config, run: seq<Action>, i: Addr)
    requires WellFormed(cfg) && cfg.repairs.align && i in After(cfg, run).nodes
    ensures Sorted(After(cfg, run).nodes[i].log)
  {
    LogHolds(cfg, run);
    RootedSorted(After(cfg, run), After(cfg, run).nodes[i].log);
  }
}
