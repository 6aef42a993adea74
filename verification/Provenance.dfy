/**
 Entry provenance, for every choice of repairs: each entry of term t in any log, any stale slot or
 any message in flight was written by a node while it was leader of t, so all entries of t have
 one author.
 */
module Provenance {
  import opened Base
  import opened RaftNode
  import opened Cluster
  import opened ElectionSafety
  import opened Frames

  /** Some node wrote this entry as a leader. */
  ghost predicate Traced(s: State, e: Entry) {
    exists a :: Authored(a, e) in s.wrote
  }

  function Slots(n: Node): seq<Entry> {
    n.log + n.stale
  }

  ghost predicate TracedAll(s: State, es: seq<Entry>) {
    forall e :: e in es ==> Traced(s, e)
  }

  ghost predicate ProvenanceInv(s: State) {
    && (forall i :: i in s.nodes ==> TracedAll(s, Slots(s.nodes[i])))
    && (forall m :: m in s.appends ==> TracedAll(s, m.req.entries))
    && (forall w :: w in s.wrote ==> Crown(w.entry.term, w.author) in s.crowns)
  }

  /** The slots of a node after a handler: its old ones and at most some new entries. */
  ghost predicate SlotsWithin(n: Node, n': Node, fresh_: seq<Entry>) {
    forall e :: e in Slots(n') ==> e in Slots(n) || e in fresh_
  }

  lemma TruncateSlots(r: Repairs, n: Node, slot: int)
    requires slot < |n.log|
    ensures Slots(Truncate(r, n, slot)) == Slots(n)
  {
    var k := if slot < -1 then 0 else slot + 1;
    assert n.log == n.log[..k] + n.log[k..];
  }

  lemma WriteEntriesSlots(n: Node, es: seq<Entry>)
    ensures SlotsWithin(n, WriteEntries(n, es), es)
  {
  }

  lemma AlignSlots(r: Repairs, n: Node, from: nat, es: seq<Entry>)
    requires from <= |n.log|
    ensures SlotsWithin(n, Align(r, n, from, es), es)
  {
    var k := Agreeing(n.log, from, es);
    if k < |es| {
      var n1 := Truncate(r, n, from + k - 1);
      TruncateSlots(r, n, from + k - 1);
      WriteEntriesSlots(n1, es[k..]);
    }
  }

  lemma AppendEntriesSlots(r: Repairs, n: Node, req: AppendReq)
    ensures SlotsWithin(n, AppendEntries(r, n, req).0, req.entries)
  {
    var n1 := Follow(n, req);
    match Judge(n, req)
    case Mismatch => TruncateSlots(r, n1, req.prevIndex - 1);
    case Accepted =>
      if req.entries != [] {
        if r.align {
          AlignSlots(r, n1, Max(req.prevIndex + 1, 0), req.entries);
        } else {
          WriteEntriesSlots(n1, req.entries);
        }
      }
    case _ =>
  }

  /** Node i gets at most some new entries, all of them traced; messages carry traced entries. */
  ghost predicate TracedStep(s: State, s': State, i: Addr, fresh_: seq<Entry>) {
    && OthersSame(s, s', i) && s.wrote <= s'.wrote && s.crowns <= s'.crowns
    && SlotsWithin(s.nodes[i], s'.nodes[i], fresh_) && TracedAll(s', fresh_)
    && (forall m :: m in s'.appends ==> m in s.appends || TracedAll(s, m.req.entries))
    && (forall w :: w in s'.wrote ==> w in s.wrote || Crown(w.entry.term, w.author) in s'.crowns)
  }

  lemma TracedStepKeeps(s: State, s': State, i: Addr, fresh_: seq<Entry>)
    requires ProvenanceInv(s) && TracedStep(s, s', i, fresh_)
    ensures ProvenanceInv(s')
  {
    forall e | Traced(s, e) ensures Traced(s', e) {
      var a :| Authored(a, e) in s.wrote;
      assert Authored(a, e) in s'.wrote;
    }
    forall j | j in s'.nodes ensures TracedAll(s', Slots(s'.nodes[j])) {
      assert TracedAll(s, Slots(s.nodes[j]));
    }
    forall m | m in s'.appends ensures TracedAll(s', m.req.entries) {
      assert TracedAll(s, m.req.entries);
    }
  }

  lemma WinSlots(cfg: Config, self: Addr, n: Node, res: Option<VoteRes>)
    requires Wins(cfg, n, res)
    ensures Slots(VoteCallBack(cfg, self, n, res)) == Slots(WriteEntries(n, [PingEntry(n.term)]))
  {
  }

  lemma VoteBackTraced(cfg: Config, s: State, call: VoteCall, res: Option<VoteRes>)
    requires Enabled(cfg, s, VoteBack(call, res))
    ensures TracedStep(s, DoVoteBack(cfg, s, call, res), call.candidate,
                       if Wins(cfg, s.nodes[call.candidate], res)
                       then [PingEntry(s.nodes[call.candidate].term)] else [])
  {
    hide VoteCallBack, WriteEntries;
    var s' := DoVoteBack(cfg, s, call, res);
    var n := s.nodes[call.candidate];
    VoteBackCases(cfg, call.candidate, n, res);
    if Wins(cfg, n, res) {
      assert Authored(call.candidate, PingEntry(n.term)) in s'.wrote;
      WriteEntriesSlots(n, [PingEntry(n.term)]);
      WinSlots(cfg, call.candidate, n, res);
    }
  }

  lemma WriteTraced(cfg: Config, s: State, i: Addr, kind: Kind, key: Bytes, value: Bytes)
    requires StatusInv(s) && i in s.nodes
    ensures TracedStep(s, DoWrite(s, i, kind, key, value), i,
                       if s.nodes[i].status == Leader then [EntryOf(kind, key, value, s.nodes[i].term)] else [])
  {
    var s' := DoWrite(s, i, kind, key, value);
    var n := s.nodes[i];
    if n.status == Leader {
      var e := EntryOf(kind, key, value, n.term);
      assert Authored(i, e) in s'.wrote;
      WriteEntriesSlots(n, [e]);
      assert Slots(s'.nodes[i]) == Slots(WriteEntries(n, [e]));
    }
  }

  lemma NoSlotTraced(cfg: Config, s: State, a: Action)
    requires ProvenanceInv(s) && Enabled(cfg, s, a) && WritesNoSlot(a)
    ensures TracedStep(s, Next(cfg, s, a), Actor(a), [])
  {
    NoSlotFrame(cfg, s, a);
    if a.ReplicateTo? {
      assert TracedAll(s, Slots(s.nodes[a.i]));
    }
  }

  lemma DeliverTraced(cfg: Config, s: State, f: Addr, req: AppendReq)
    requires ProvenanceInv(s) && Enabled(cfg, s, DeliverTo(f, req))
    ensures TracedStep(s, DoDeliver(cfg, s, f, req), f, req.entries)
  {
    AppendEntriesSlots(cfg.repairs, s.nodes[f], req);
    assert TracedAll(s, AppendMsg(f, req).req.entries);
    assert DoDeliver(cfg, s, f, req).wrote == s.wrote;
  }

  lemma NextProvenance(cfg: Config, s: State, a: Action)
    requires StatusInv(s) && ProvenanceInv(s)
    ensures ProvenanceInv(Next(cfg, s, a))
  {
    hide DoTimeout, DoVote, DoVoteBack, DoWrite, DoDeliver, DoReplicateBack, DoHeartBeat, TracedStep, ProvenanceInv;
    var s' := Next(cfg, s, a);
    if Enabled(cfg, s, a) {
      if WritesNoSlot(a) {
        NoSlotTraced(cfg, s, a);
        TracedStepKeeps(s, s', Actor(a), []);
      } else {
        match a
        case VoteBack(call, res) =>
          var t := s.nodes[call.candidate].term;
          VoteBackTraced(cfg, s, call, res);
          TracedStepKeeps(s, s', call.candidate,
                          if Wins(cfg, s.nodes[call.candidate], res) then [PingEntry(t)] else []);
        case WriteAt(i, kind, key, value) =>
          var t := s.nodes[i].term;
          WriteTraced(cfg, s, i, kind, key, value);
          TracedStepKeeps(s, s', i,
                          if s.nodes[i].status == Leader then [EntryOf(kind, key, value, t)] else []);
        case DeliverTo(f, req) =>
          DeliverTraced(cfg, s, f, req);
          TracedStepKeeps(s, s', f, req.entries);
      }
    }
  }

  lemma {:induction false} ProvenanceHolds(cfg: Config, run: seq<Action>)
    requires WellFormed(cfg)
    ensures ProvenanceInv(After(cfg, run))
  {
    if run != [] {
      ElectionHolds(cfg, run[..|run| - 1]);
      ProvenanceHolds(cfg, run[..|run| - 1]);
      NextProvenance(cfg, After(cfg, run[..|run| - 1]), run[|run| - 1]);
    }
  }

  /** The node that was leader of t. */
  ghost predicate Ruled(s: State, a: Addr, t: int) {
    Crown(t, a) in s.crowns
  }

  /** Every entry anywhere was written by a leader of its term. */
  lemma EntryProvenance(cfg: Config, run: seq<Action>, i: Addr, m: AppendMsg, e: Entry)
    requires WellFormed(cfg)
    requires (i in After(cfg, run).nodes && (e in After(cfg, run).nodes[i].log || e in After(cfg, run).nodes[i].stale))
             || (m in After(cfg, run).appends && e in m.req.entries)
    ensures exists a :: Ruled(After(cfg, run), a, e.term) && Authored(a, e) in After(cfg, run).wrote
  {
    var s := After(cfg, run);
    ProvenanceHolds(cfg, run);
    assert Traced(s, e) by {
      if m in s.appends && e in m.req.entries {
        assert TracedAll(s, m.req.entries);
      } else {
        assert TracedAll(s, Slots(s.nodes[i])) && e in Slots(s.nodes[i]);
      }
    }
    var a :| Authored(a, e) in s.wrote;
    assert Ruled(s, a, e.term);
  }

  /** All entries of one term have one author. */
  lemma OneAuthorPerTerm(cfg: Config, run: seq<Action>, w: Authored, x: Authored)
    requires WellFormed(cfg) && w in After(cfg, run).wrote && x in After(cfg, run).wrote
    requires w.entry.term == x.entry.term
    ensures w.author == x.author
  {
    ElectionHolds(cfg, run);
    ProvenanceHolds(cfg, run);
  }

  // ----- terms are bounded -----

  ghost predicate TermsUpTo(es: seq<Entry>, t: int) {
    forall e :: e in es ==> e.term <= t
  }

  ghost predicate TermsInv(s: State) {
    && (forall i {:trigger s.nodes[i]} :: i in s.nodes ==> TermsUpTo(Slots(s.nodes[i]), s.nodes[i].term))
    && (forall m {:trigger m in s.appends} :: m in s.appends ==> TermsUpTo(m.req.entries, m.req.term))
  }

  lemma HandleTerm(cfg: Config, n: Node, a: Action)
    ensures Handle(cfg, n, a).term >= n.term
  {
    hide VoteLeader, Vote, VoteCallBack, ClientWrite, AppendEntries, ReplicateReply, HeartBeatCallBack;
    match a
    case TimeoutAt(i) => VoteLeaderCases(i, n);
    case VoteAt(_, req) => VoteCases(n, req);
    case VoteBack(call, res) => VoteBackCases(cfg, call.candidate, n, res);
    case WriteAt(_, kind, key, value) => ClientWriteCases(n, kind, key, value);
    case DeliverTo(_, req) => AppendCases(cfg.repairs, n, req);
    case ReplicateBack(f, req, res) => ReplyCases(cfg, req.leader, n, f, req, res);
    case HeartBeatBack(_, _, res) => HeartBeatCases(n, res);
    case _ =>
  }

  lemma VoteBackSlots(cfg: Config, self: Addr, n: Node, res: Option<VoteRes>)
    ensures SlotsWithin(n, VoteCallBack(cfg, self, n, res), [PingEntry(n.term)])
  {
    if Wins(cfg, n, res) {
      WinSlots(cfg, self, n, res);
      WriteEntriesSlots(n, [PingEntry(n.term)]);
    } else {
      VoteBackCases(cfg, self, n, res);
    }
  }

  lemma WriteSlots(n: Node, kind: Kind, key: Bytes, value: Bytes)
    ensures SlotsWithin(n, ClientWrite(n, kind, key, value), [EntryOf(kind, key, value, n.term)])
  {
    var e := EntryOf(kind, key, value, n.term);
    WriteEntriesSlots(n, [e]);
    if n.status == Leader { assert Slots(ClientWrite(n, kind, key, value)) == Slots(WriteEntries(n, [e])); }
  }

  lemma HandleTermsUpTo(cfg: Config, n: Node, a: Action)
    requires TermsUpTo(Slots(n), n.term) && (a.DeliverTo? ==> TermsUpTo(a.req.entries, a.req.term))
    ensures TermsUpTo(Slots(Handle(cfg, n, a)), Handle(cfg, n, a).term)
  {
    hide VoteLeader, Vote, VoteCallBack, ClientWrite, AppendEntries, ReplicateReply, HeartBeatCallBack, Slots;
    HandleTerm(cfg, n, a);
    match a
    case VoteBack(call, res) => VoteBackSlots(cfg, call.candidate, n, res);
    case WriteAt(_, kind, key, value) => WriteSlots(n, kind, key, value);
    case DeliverTo(_, req) =>
      AppendCases(cfg.repairs, n, req);
      AppendEntriesSlots(cfg.repairs, n, req);
    case _ =>
      HandleFrame(cfg, n, a);
      SameSlots(n, Handle(cfg, n, a));
  }

  lemma SameSlots(n: Node, n': Node)
    requires SameBinlog(n, n')
    ensures Slots(n') == Slots(n)
  {
  }

  /** What is sent carries the sender's term and no later one. */
  lemma SentUpTo(cfg: Config, s: State, a: Action)
    requires TermsInv(s) && Enabled(cfg, s, a)
    ensures forall m :: m in Next(cfg, s, a).appends ==> m in s.appends || TermsUpTo(m.req.entries, m.req.term)
  {
    if WritesNoSlot(a) {
      NoSlotFrame(cfg, s, a);
      if a.ReplicateTo? { assert TermsUpTo(Slots(s.nodes[a.i]), s.nodes[a.i].term); }
    }
  }

  lemma NextTerms(cfg: Config, s: State, a: Action)
    requires TermsInv(s)
    ensures TermsInv(Next(cfg, s, a))
  {
    hide Next, Enabled, Handle, Slots;
    if Enabled(cfg, s, a) {
      ActorHandles(cfg, s, a);
      if a.DeliverTo? { DeliveredSent(cfg, s, a); }
      HandleTermsUpTo(cfg, s.nodes[Actor(a)], a);
      SentUpTo(cfg, s, a);
    } else {
      NotEnabled(cfg, s, a);
    }
  }

  lemma DeliveredSent(cfg: Config, s: State, a: Action)
    requires TermsInv(s) && Enabled(cfg, s, a) && a.DeliverTo?
    ensures TermsUpTo(a.req.entries, a.req.term)
  {
    assert AppendMsg(a.f, a.req) in s.appends;
  }

  lemma {:induction false} TermsHold(cfg: Config, run: seq<Action>)
    ensures TermsInv(After(cfg, run))
  {
    hide Next;
    if run != [] {
      TermsHold(cfg, run[..|run| - 1]);
      NextTerms(cfg, After(cfg, run[..|run| - 1]), run[|run| - 1]);
    }
  }

  /** No entry in a log, or left behind by a truncation, is of a later term than its node's. */
  lemma TermsBounded(cfg: Config, run: seq<Action>, i: Addr, e: Entry)
    requires i in After(cfg, run).nodes
    requires e in After(cfg, run).nodes[i].log || e in After(cfg, run).nodes[i].stale
    ensures e.term <= After(cfg, run).nodes[i].term
  {
    TermsHold(cfg, run);
    assert TermsUpTo(Slots(After(cfg, run).nodes[i]), After(cfg, run).nodes[i].term);
    assert e in Slots(After(cfg, run).nodes[i]);
  }
}
