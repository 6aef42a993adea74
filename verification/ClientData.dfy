/**
 Where client data comes from. Everything a node ever writes under a key, but for the apply loop's own
 tag, was asked for by a client request that some leader of the run logged: nothing an election or the
 replication adds shows up in the data. With any choice of repairs.
 */
module ClientData {
  import opened Base
  import opened DataStore
  import opened RaftNode
  import opened Cluster
  import opened Frames
  import opened Provenance
  import opened StateMachineSafety
  import opened ClientReads

  /** At step k node i, leading, logs this request of a client. */
  ghost predicate ClientWrote(cfg: Config, run: seq<Action>, k: int, i: Addr, kind: Kind, key: Bytes, value: Bytes) {
    && 0 <= k < |run| && run[k] == WriteAt(i, kind, key, value) && Enabled(cfg, After(cfg, run[..k]), run[k])
    && After(cfg, run[..k]).nodes[i].status == Leader
  }

  /** What the log holds of a request, by the operation codes of proto/airdb_node.proto. */
  predicate LoggedAs(e: Entry, kind: Kind, value: Bytes) {
    match kind
    case PutReq => e.op == 1 && e.value == value
    case DelReq => e.op == 3 && e.value == []
    case LockReq => e.op == 4 && e.value == e.key
    case UnLockReq => e.op == 4 && e.value == e.key
  }

  /** A client of the run asked for the entry. */
  ghost predicate Asked(cfg: Config, run: seq<Action>, e: Entry) {
    exists k, i, kind, value :: ClientWrote(cfg, run, k, i, kind, e.key, value) && LoggedAs(e, kind, value)
  }

  /** The entry a new leader logs for itself: kNop, which is no write of any kind. */
  predicate IsPing(e: Entry) {
    e.op == 6 && e.key == Ascii("Ping") && e.value == []
  }

  lemma AskedLonger(cfg: Config, run: seq<Action>, m: nat, e: Entry)
    requires m <= |run| && Asked(cfg, run[..m], e)
    ensures Asked(cfg, run, e)
  {
    hide After, Enabled;
    var k, i, kind, value :| ClientWrote(cfg, run[..m], k, i, kind, e.key, value) && LoggedAs(e, kind, value);
    assert run[..m][..k] == run[..k];
    assert ClientWrote(cfg, run, k, i, kind, e.key, value);
  }

  lemma Texts()
    ensures APPLIED_TAG == Ascii("#TAG_LAST_APPLIED_INDEX#")
    ensures forall t :: PingEntry(t).key == Ascii("Ping")
  {
  }

  lemma EntryLogged(kind: Kind, key: Bytes, value: Bytes, term: int)
    ensures var e := EntryOf(kind, key, value, term); e.key == key && e.term == term && LoggedAs(e, kind, value)
    ensures IsPing(PingEntry(term)) && PingEntry(term).term == term
  {
  }

  /** By operation code: 1 and 4 write the code and the value under the key, 3 and 5 delete it, others do nothing. */
  lemma EntryWrites(store: Store, e: Entry)
    ensures (e.op == 1 || e.op == 4) ==> StoreEntry(store, e) == store[e.key := [e.op] + e.value]
    ensures (e.op == 3 || e.op == 5) ==> StoreEntry(store, e) == store - {e.key}
    ensures e.op !in {1, 3, 4, 5} ==> StoreEntry(store, e) == store
  {
  }

  /** What is written new: an election's entry, or a client's. */
  lemma NewAuthored(cfg: Config, s: State, a: Action, w: Authored)
    requires w in Next(cfg, s, a).wrote && w !in s.wrote
    ensures Enabled(cfg, s, a) && Actor(a) in s.nodes
    ensures a.VoteBack? || (a.WriteAt? && s.nodes[a.i].status == Leader)
    ensures w.entry == if a.WriteAt? then EntryOf(a.kind, a.key, a.value, s.nodes[a.i].term)
                       else PingEntry(s.nodes[Actor(a)].term)
  {
    hide VoteLeader, Vote, VoteCallBack, ClientWrite, AppendEntries, ReplicateReply, HeartBeatCallBack;
    hide ApplyBegin, ApplyEntry, ApplyTag, BuildAppend, HeartBeat, EntryOf, PingEntry;
  }

  /** Every entry a leader wrote is that of an election or one a client asked for. */
  lemma {:induction false} WroteOrigin(cfg: Config, run: seq<Action>, w: Authored)
    requires w in After(cfg, run).wrote
    ensures IsPing(w.entry) || Asked(cfg, run, w.entry)
  {
    hide Next, Enabled, EntryOf, PingEntry, IsPing, LoggedAs;
    if run == [] {
      assert false;
    } else {
      var most, a := run[..|run| - 1], run[|run| - 1];
      var s := After(cfg, most);
      if w in s.wrote {
        WroteOrigin(cfg, most, w);
        if Asked(cfg, most, w.entry) { AskedLonger(cfg, run, |most|, w.entry); }
      } else {
        NewAuthored(cfg, s, a, w);
        EntryLogged(PutReq, [], [], s.nodes[Actor(a)].term);
        if a.WriteAt? {
          EntryLogged(a.kind, a.key, a.value, s.nodes[a.i].term);
          assert a == WriteAt(a.i, a.kind, a.key, a.value);
          assert ClientWrote(cfg, run, |most|, a.i, a.kind, w.entry.key, a.value);
        }
      }
    }
  }

  lemma NewApplied(cfg: Config, s: State, a: Action, i: Addr, e: Entry)
    requires i in Next(cfg, s, a).nodes && e in Next(cfg, s, a).nodes[i].applied
    ensures i in s.nodes
    ensures e in s.nodes[i].applied || (e in Slots(s.nodes[i]) && a == ApplyEntryAt(i) && Enabled(cfg, s, a))
  {
    hide Next, Enabled, Handle, Slots;
    if Enabled(cfg, s, a) {
      ActorHandles(cfg, s, a);
      if i == Actor(a) { HandleApplied(cfg, s.nodes[i], a, e); }
    } else {
      NotEnabled(cfg, s, a);
    }
  }

  lemma HandleApplied(cfg: Config, n: Node, a: Action, e: Entry)
    requires e in Handle(cfg, n, a).applied
    ensures e in n.applied || (e in Slots(n) && a.ApplyEntryAt?)
  {
    hide Handle, Slots;
    if a.ApplyEntryAt? {
      ApplyReadsSlot(cfg, n, a, e);
    } else if a.ApplyTagAt? {
      TagSameApplied(cfg, n, a);
    } else {
      HandleSameApplied(cfg, n, a);
    }
  }

  lemma TagSameApplied(cfg: Config, n: Node, a: Action)
    requires a.ApplyTagAt?
    ensures Handle(cfg, n, a).applied == n.applied
  {
  }

  lemma ApplyReadsSlot(cfg: Config, n: Node, a: Action, e: Entry)
    requires a.ApplyEntryAt? && e in Handle(cfg, n, a).applied
    ensures e in n.applied || e in Slots(n)
  {
  }

  /** So is every entry a node applied. */
  lemma {:induction false} AppliedOrigin(cfg: Config, run: seq<Action>, i: Addr, e: Entry)
    requires WellFormed(cfg) && i in After(cfg, run).nodes && e in After(cfg, run).nodes[i].applied
    ensures IsPing(e) || Asked(cfg, run, e)
  {
    hide Next, Enabled, IsPing, LoggedAs, Asked;
    if run == [] {
      assert false;
    } else {
      var most, a := run[..|run| - 1], run[|run| - 1];
      var s := After(cfg, most);
      NewApplied(cfg, s, a, i, e);
      if e in s.nodes[i].applied {
        AppliedOrigin(cfg, most, i, e);
      } else {
        ProvenanceHolds(cfg, most);
        assert TracedAll(s, Slots(s.nodes[i]));
        var author :| Authored(author, e) in s.wrote;
        WroteOrigin(cfg, most, Authored(author, e));
      }
      if Asked(cfg, most, e) { AskedLonger(cfg, run, |most|, e); }
    }
  }

  /** A value read back was written by an entry for the key, a put or a lock. */
  lemma {:induction false} LastWriteOf(es: seq<Entry>, tagged: bool, key: Bytes) returns (e: Entry)
    requires key != APPLIED_TAG && LastWrite(es, tagged, key).Some?
    ensures e in es && e.key == key && LastWrite(es, tagged, key) == Some((e.op, e.value))
  {
    e := es[|es| - 1];
    if !(e.key == key && (e.op == PUT_OP || e.op == LOCK_OP)) {
      e := LastWriteOf(es[..|es| - 1], true, key);
    }
  }

  /**
   In every run, whatever a node's data store holds under a key other than the loop's tag is there because
   a leader logged a client's request for it: a put of that value, or a lock or unlock.
   */
  lemma DataWasAsked(cfg: Config, run: seq<Action>, i: Addr, key: Bytes)
    requires WellFormed(cfg) && i in After(cfg, run).nodes
    requires key != Ascii("#TAG_LAST_APPLIED_INDEX#") && key in After(cfg, run).nodes[i].store
    ensures exists k, j, kind, value ::
              && ClientWrote(cfg, run, k, j, kind, key, value) && kind != DelReq
              && After(cfg, run).nodes[i].store[key] == if kind == PutReq then [1] + value else [4] + key
  {
    hide After, ClientWrote, Ascii;
    Texts();
    var n := After(cfg, run).nodes[i];
    ReplayHolds(cfg, run, |run|);
    assert ReplayInv(n);
    StoreReads(n.applied, !n.inHand, key);
    var e := LastWriteOf(n.applied, !n.inHand, key);
    AppliedOrigin(cfg, run, i, e);
    LastWriteKind(n.applied, !n.inHand, key);
    var k, j, kind, value :| ClientWrote(cfg, run, k, j, kind, e.key, value) && LoggedAs(e, kind, value);
  }

  lemma {:induction false} LastWriteKind(es: seq<Entry>, tagged: bool, key: Bytes)
    requires key != APPLIED_TAG && LastWrite(es, tagged, key).Some?
    ensures LastWrite(es, tagged, key).value.0 == 1 || LastWrite(es, tagged, key).value.0 == 4
  {
    var e := es[|es| - 1];
    if !(e.key == key && (e.op == PUT_OP || e.op == LOCK_OP)) {
      LastWriteKind(es[..|es| - 1], true, key);
    }
  }

  /** A leader answers a value only if some leader of the run logged a client's put of just that value. */
  lemma HitWasPut(cfg: Config, run: seq<Action>, i: Addr, key: Bytes, value: Bytes)
    requires WellFormed(cfg) && i in After(cfg, run).nodes && After(cfg, run).nodes[i].status == Leader
    requires key != Ascii("#TAG_LAST_APPLIED_INDEX#") && Get(After(cfg, run).nodes[i], key) == Hit(value)
    ensures exists k, j :: ClientWrote(cfg, run, k, j, PutReq, key, value)
  {
    hide After, ClientWrote, Ascii;
    var n := After(cfg, run).nodes[i];
    DataWasAsked(cfg, run, i, key);
    var k, j, kind, v :|
      && ClientWrote(cfg, run, k, j, kind, key, v) && kind != DelReq
      && n.store[key] == if kind == PutReq then [1] + v else [4] + key;
    assert n.store[key][0] == 1;
  }

  /** Applying an entry that no client of the run asked for leaves a node's data as it was. */
  lemma UnaskedWritesNothing(cfg: Config, run: seq<Action>, k: nat, i: Addr)
    requires WellFormed(cfg) && k < |run| && run[k] == ApplyEntryAt(i) && Enabled(cfg, After(cfg, run[..k]), run[k])
    ensures var n, s' := After(cfg, run[..k]).nodes[i], After(cfg, run[..k + 1]);
            && i in s'.nodes && |s'.nodes[i].applied| == |n.applied| + 1
            && (s'.nodes[i].store == n.store || Asked(cfg, run[..k], s'.nodes[i].applied[|n.applied|]))
  {
    hide After, Asked, Handle;
    var s := After(cfg, run[..k]);
    var n := s.nodes[i];
    assert run[..k + 1] == run[..k] + [run[k]];
    AfterSnoc(cfg, run[..k], run[k]);
    ActorHandles(cfg, s, run[k]);
    ApplyWrites(cfg, s, i);
    var e := Handle(cfg, n, run[k]).applied[|n.applied|];
    ProvenanceHolds(cfg, run[..k]);
    assert TracedAll(s, Slots(n));
    var author :| Authored(author, e) in s.wrote;
    WroteOrigin(cfg, run[..k], Authored(author, e));
  }

  lemma ApplyWrites(cfg: Config, s: State, i: Addr)
    requires Enabled(cfg, s, ApplyEntryAt(i))
    ensures var n, n' := s.nodes[i], Handle(cfg, s.nodes[i], ApplyEntryAt(i));
            && |n'.applied| == |n.applied| + 1 && n'.applied[|n.applied|] in Slots(n)
            && (IsPing(n'.applied[|n.applied|]) ==> n'.store == n.store)
  {
  }
}
