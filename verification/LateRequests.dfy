/**
 A run, with any choice of repairs, after which a request that arrives once more makes the follower
 read a slot that collection may have removed.
 */
module LateRequests {
  import opened Base
  import opened DataStore
  import opened RaftNode
  import opened Cluster
  import opened Runs
  import opened BadRuns
  import opened CollectedLogs

  /** The entries behind the first: three times the same put. */
  const PUTS: seq<Entry> := [PUT1, PUT1, PUT1]

  function LateReq(a: Addr): AppendReq {
    AppendReq(1, a, 0, 1, 0, PUTS)
  }

  /** Nothing applied yet. */
  ghost predicate Waits(n: Node, log: seq<Entry>, commit: int) {
    && n.term == 1 && n.log == log && n.stale == [] && n.commit == commit
    && n.applyEnd == n.lastApplied == -1 && !n.inHand
  }

  ghost predicate LeadsPair(n: Node, f: Addr, log: seq<Entry>, next: int, commit: int) {
    n.status == Leader && Waits(n, log, commit) && f in n.nextIndex && n.nextIndex[f] == next
  }

  ghost predicate Pair(cfg: Config, a: Addr, b: Addr) {
    cfg.members == [a, b] && a != b
  }

  lemma PairNodes(cfg: Config, a: Addr, b: Addr)
    requires Pair(cfg, a, b)
    ensures WellFormed(cfg) && Members(cfg) == {a, b} && |cfg.members| / 2 == 1 && a in cfg.members && b in cfg.members
  {
    assert cfg.members[0] == a && cfg.members[1] == b;
  }

  /** Node a leads with its first entry at both nodes, committed. */
  lemma FirstReplicated(cfg: Config, a: Addr, b: Addr) returns (run: seq<Action>, s: State)
    requires Pair(cfg, a, b)
    ensures After(cfg, run) == s && s.nodes.Keys == {a, b}
    ensures LeadsPair(s.nodes[a], b, [PingEntry(1)], 1, 0) && Waits(s.nodes[b], [PingEntry(1)], -1)
  {
    hide After, WouldVote, Blank, Crowned, AppendEntries, ReplicateReply, BuildAppend, CanReplicate, Waits, LeadsPair;
    PairNodes(cfg, a, b);
    var s0 := Start(cfg);
    FreshVotes(s0, a, b);
    var run1, s1 := ElectsByOne(cfg, [], s0, a, b);
    FirstHears(cfg, a, b, s1.nodes[a]);
    Takes(cfg, a, b, s1.nodes[a], s1.nodes[b]);
    run, s := Round(cfg, run1, s1, a, b, false);
  }

  lemma Takes(cfg: Config, a: Addr, b: Addr, na: Node, nb: Node)
    requires Pair(cfg, a, b) && FirstLeader(na, 1) && Unheard(na, b) && nb == Voted(FRESH, a, 1)
    ensures CanReplicate(na, b)
    ensures var req := BuildAppend(a, na, b, false); var (nb', res) := AppendEntries(cfg.repairs, nb, req);
            var na' := ReplicateReply(cfg, a, na, b, req, Some(res));
            LeadsPair(na', b, [PingEntry(1)], 1, 0) && Waits(nb', [PingEntry(1)], -1)
  {
    hide AppendEntries, ReplicateReply;
    PairNodes(cfg, a, b);
    assert na.log[0..1] == na.log;
    var req := BuildAppend(a, na, b, false);
    assert req == AppendReq(1, a, -1, -1, -1, [PingEntry(1)]);
    TakesFirst(cfg.repairs, nb, req);
    KeepsNoStale(cfg.repairs, nb, req);
    AppendCases(cfg.repairs, nb, req);
    MaxTermOne(PingEntry(1));
    CountsPeers(cfg.repairs, a, na.matchIndex[b := 0], 0, cfg.members, {b});
    Commits(cfg, a, na, b, req);
  }

  /** Entries that continue a log with nothing left over behind it are appended, aligned or not. */
  lemma Continues(r: Repairs, n: Node, req: AppendReq)
    requires Judge(n, req) == Accepted && req.entries != [] && n.stale == [] && |n.log| == req.prevIndex + 1
    ensures var (n', res) := AppendEntries(r, n, req);
            n'.log == n.log + req.entries && n'.stale == [] && res == Success(req.term)
  {
    hide FollowerCommit;
    assert n.log[..|n.log|] == n.log && n.log[|n.log|..] == [] && req.entries[0..] == req.entries;
  }

  lemma KeepsNoStale(r: Repairs, n: Node, req: AppendReq)
    requires Judge(n, req) == Accepted && req.entries != [] && n.stale == [] && |n.log| == req.prevIndex + 1
    ensures AppendEntries(r, n, req).0.stale == []
  {
    Continues(r, n, req);
  }

  /** Three puts follow; b holds them, and a has committed them. */
  lemma AllReplicated(cfg: Config, a: Addr, b: Addr) returns (run: seq<Action>, s: State)
    requires Pair(cfg, a, b)
    ensures After(cfg, run) == s && s.nodes.Keys == {a, b} && AppendMsg(b, LateReq(a)) in s.appends
    ensures LeadsPair(s.nodes[a], b, [PingEntry(1)] + PUTS, 4, 3) && Waits(s.nodes[b], [PingEntry(1)] + PUTS, 0)
  {
    hide After, AppendEntries, ReplicateReply, BuildAppend, CanReplicate, ClientWrite, Waits, LeadsPair, LateReq;
    var run1, s1 := FirstReplicated(cfg, a, b);
    var run2, s2 := Puts(cfg, run1, s1, a, [107], [118]);
    var run3, s3 := Puts(cfg, run2, s2, a, [107], [118]);
    var run4, s4 := Puts(cfg, run3, s3, a, [107], [118]);
    WritesThree(s1.nodes[a], b);
    TakesThree(cfg, a, b, s4.nodes[a], s4.nodes[b]);
    var run5, s5 := Arrives(cfg, run4, s4, a, b, false);
    LateReqIs(a);
    run, s := Returns(cfg, run5, s5, b, LateReq(a), Some(Success(1)));
  }

  lemma LateReqIs(a: Addr)
    ensures LateReq(a).leader == a && LateReq(a).entries != []
  {
  }

  lemma WritesThree(n: Node, b: Addr)
    requires LeadsPair(n, b, [PingEntry(1)], 1, 0)
    ensures var n1 := ClientWrite(n, PutReq, [107], [118]); var n2 := ClientWrite(n1, PutReq, [107], [118]);
            LeadsPair(ClientWrite(n2, PutReq, [107], [118]), b, [PingEntry(1)] + PUTS, 1, 0)
  {
    hide ClientWrite;
    var n1 := ClientWrite(n, PutReq, [107], [118]);
    WritesOne(n, b, [PingEntry(1)]);
    var n2 := ClientWrite(n1, PutReq, [107], [118]);
    WritesOne(n1, b, [PingEntry(1)] + [PUT1]);
    WritesOne(n2, b, [PingEntry(1)] + [PUT1] + [PUT1]);
    assert [PingEntry(1)] + [PUT1] + [PUT1] + [PUT1] == [PingEntry(1)] + PUTS;
  }

  lemma WritesOne(n: Node, b: Addr, log: seq<Entry>)
    requires LeadsPair(n, b, log, 1, 0)
    ensures LeadsPair(ClientWrite(n, PutReq, [107], [118]), b, log + [PUT1], 1, 0)
  {
  }

  lemma MaxTermThree(e: Entry)
    requires e.term >= -1
    ensures MaxTerm([e, e, e]) == e.term
  {
    MaxTermTwo(e, e);
    assert [e, e, e][..2] == [e, e];
  }

  lemma TakesThree(cfg: Config, a: Addr, b: Addr, na: Node, nb: Node)
    requires Pair(cfg, a, b) && LeadsPair(na, b, [PingEntry(1)] + PUTS, 1, 0) && Waits(nb, [PingEntry(1)], -1)
    ensures CanReplicate(na, b) && BuildAppend(a, na, b, false) == LateReq(a)
    ensures var (nb', res) := AppendEntries(cfg.repairs, nb, LateReq(a));
            var na' := ReplicateReply(cfg, a, na, b, LateReq(a), Some(Success(1)));
            && res == Success(1) && LeadsPair(na', b, [PingEntry(1)] + PUTS, 4, 3)
            && Waits(nb', [PingEntry(1)] + PUTS, 0)
  {
    hide AppendEntries, ReplicateReply;
    PairNodes(cfg, a, b);
    assert na.log[1..4] == PUTS;
    Continues(cfg.repairs, nb, LateReq(a));
    AppendCases(cfg.repairs, nb, LateReq(a));
    MaxTermThree(PUT1);
    CountsPeers(cfg.repairs, a, na.matchIndex[b := 3], 3, cfg.members, {b});
    Commits(cfg, a, na, b, LateReq(a));
  }

  /** A heartbeat then makes b commit all of them too. */
  lemma BeatThree(cfg: Config, a: Addr, na: Node, nb: Node, f: Addr)
    requires LeadsPair(na, f, [PingEntry(1)] + PUTS, 4, 3) && Waits(nb, [PingEntry(1)] + PUTS, 0)
    ensures Waits(AppendEntries(cfg.repairs, nb, HeartBeat(a, na)).0, [PingEntry(1)] + PUTS, 3)
  {
    assert Judge(nb, HeartBeat(a, na)) == Accepted;
  }

  /** An apply loop that nothing disturbs reaches the end of its pass. */
  lemma AppliesOut(cfg: Config, run: seq<Action>, s: State, i: Addr) returns (run': seq<Action>, s': State)
    requires After(cfg, run) == s && i in s.nodes
    requires var n := s.nodes[i]; !n.inHand && -1 <= n.lastApplied <= n.applyEnd < |n.log|
    ensures After(cfg, run') == s' && Keeps(s, s') && s'.nodes == s.nodes[i := s'.nodes[i]]
    ensures s'.nodes[i].lastApplied == s.nodes[i].applyEnd && AppliedOnly(s.nodes[i], s'.nodes[i])
    decreases s.nodes[i].applyEnd - s.nodes[i].lastApplied
  {
    hide After, ApplyEntry, ApplyTag;
    run', s' := run, s;
    OneRound(s.nodes[i]);
    if s.nodes[i].lastApplied < s.nodes[i].applyEnd {
      var run1, s1 := StoresEntry(cfg, run, s, i);
      var run2, s2 := WritesTag(cfg, run1, s1, i);
      run', s' := AppliesOut(cfg, run2, s2, i);
    }
  }

  ghost predicate AppliedOnly(n: Node, n': Node) {
    n'.term == n.term && n'.status == n.status && n'.log == n.log && n'.commit == n.commit
  }

  lemma OneRound(n: Node)
    requires !n.inHand && -1 <= n.lastApplied <= n.applyEnd < |n.log|
    ensures AppliedOnly(n, n)
    ensures n.lastApplied < n.applyEnd ==>
              && CanApply(n) && ApplyEntry(n).inHand
              && var n' := ApplyTag(ApplyEntry(n));
                 AppliedOnly(n, n') && n'.lastApplied == n.lastApplied + 1 && n'.applyEnd == n.applyEnd && !n'.inHand
  {
    hide StoreEntry, StoreTag, AckEvents;
  }

  lemma Passes(cfg: Config, run: seq<Action>, s: State, i: Addr) returns (run': seq<Action>, s': State)
    requires After(cfg, run) == s && i in s.nodes && Waits(s.nodes[i], [PingEntry(1)] + PUTS, 3)
    ensures After(cfg, run') == s' && Keeps(s, s') && s'.nodes == s.nodes[i := s'.nodes[i]]
    ensures s'.nodes[i].lastApplied == 3 && AppliedOnly(s.nodes[i], s'.nodes[i])
  {
    hide After;
    var run1, s1 := BeginsPass(cfg, run, s, i);
    run', s' := AppliesOut(cfg, run1, s1, i);
  }

  lemma LeadsWaits(n: Node, f: Addr, next: int)
    requires LeadsPair(n, f, [PingEntry(1)] + PUTS, next, 3)
    ensures n.status == Leader && Waits(n, [PingEntry(1)] + PUTS, 3)
  {
  }

  lemma WaitsHolds(n: Node, log: seq<Entry>, commit: int)
    requires Waits(n, log, commit)
    ensures n.term == 1 && n.log == log && n.commit == commit
  {
  }

  lemma ReadsFirst(cfg: Config, s: State, a: Addr, b: Addr, na: Node, nb: Node)
    requires s.nodes.Keys == {a, b} && AppendMsg(b, LateReq(a)) in s.appends
    requires AppliedOnly(na, s.nodes[a]) && AppliedOnly(nb, s.nodes[b])
    requires nb.term == 1 && nb.log == [PingEntry(1)] + PUTS && nb.commit == 3
    requires s.nodes[a].lastApplied == s.nodes[b].lastApplied == 3
    ensures Reads(cfg, s, DeliverTo(b, LateReq(a)), 0) && !Near(s, 0)
  {
    assert Judge(s.nodes[b], LateReq(a)) == Accepted;
  }

  lemma NotReadsNear(cfg: Config, s: State, a: Action, slot: int)
    requires Reads(cfg, s, a, slot) && !Near(s, slot)
    ensures !ReadsNear(cfg, s, a)
  {
  }

  /**
   Two nodes: a's entries reach b in two requests, and both nodes apply all four. When the second
   request arrives again, b reads slot 0 for it, and both have applied three past that.
   */
  lemma LateRequestMisses(cfg: Config, a: Addr, b: Addr) returns (run: seq<Action>)
    requires Pair(cfg, a, b)
    ensures var s := After(cfg, run);
            Reads(cfg, s, DeliverTo(b, LateReq(a)), 0) && !Near(s, 0)
    ensures !AlwaysFinds(cfg, run + [DeliverTo(b, LateReq(a))])
  {
    hide After, AppendEntries, LateReq, Waits, Reads, Near, HeartBeat, AlwaysFinds, LeadsPair, AppliedOnly;
    var run1, s1 := AllReplicated(cfg, a, b);
    LeadsWaits(s1.nodes[a], b, 4);
    BeatThree(cfg, a, s1.nodes[a], s1.nodes[b], b);
    var run2, s2 := BeatArrives(cfg, run1, s1, a, b);
    var run3, s3 := Passes(cfg, run2, s2, a);
    var run4, s4 := Passes(cfg, run3, s3, b);
    run := run4;
    WaitsHolds(s2.nodes[b], [PingEntry(1)] + PUTS, 3);
    WaitsHolds(s2.nodes[a], [PingEntry(1)] + PUTS, 3);
    ReadsFirst(cfg, s4, a, b, s2.nodes[a], s2.nodes[b]);
    var more := run + [DeliverTo(b, LateReq(a))];
    assert more[..|run|] == run;
    NotReadsNear(cfg, s4, DeliverTo(b, LateReq(a)), 0);
    MissedAt(cfg, more, |run|);
  }
}
