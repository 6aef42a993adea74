/**
 What a client reads: a leader answers `Get` from its data store, which is the fold of the entries
 it has applied and of the tags between them. So the answer is the last write to the key, in every
 run, for every key and every choice of repairs.
 */
module ClientReads {
  import opened Base
  import opened Decimal
  import opened DataStore
  import opened RaftNode
  import opened Cluster
  import opened StateMachineSafety
  import opened Answers
  import ClientSuccess

  /**
   What the last write to the key leaves there, the first byte and the rest. Every entry is followed
   by the tag with its index, the last one only if `tagged`.
   */
  function LastWrite(es: seq<Entry>, tagged: bool, key: Bytes): Option<(byte, Bytes)> {
    if es == [] then None
    else if tagged && key == APPLIED_TAG then
      var index := IntToString(|es| - 1);
      Some((index[0], index[1..]))
    else
      var e := es[|es| - 1];
      if e.key == key && (e.op == PUT_OP || e.op == LOCK_OP) then Some((e.op, e.value))
      else if e.key == key && (e.op == DELETE_OP || e.op == UNLOCK_OP) then None
      else LastWrite(es[..|es| - 1], true, key)
  }

  /** The store of a node whose last entry has its tag, or not yet. */
  function StoreOf(es: seq<Entry>, tagged: bool): Store {
    if tagged || es == [] then Replay(es) else Untagged(es)
  }

  lemma {:induction false} StoreReads(es: seq<Entry>, tagged: bool, key: Bytes)
    ensures key in StoreOf(es, tagged) <==> LastWrite(es, tagged, key).Some?
    ensures key in StoreOf(es, tagged) ==>
              StoreOf(es, tagged)[key] == [LastWrite(es, tagged, key).value.0] + LastWrite(es, tagged, key).value.1
  {
    if es != [] {
      var index := IntToString(|es| - 1);
      assert index == [index[0]] + index[1..];
      StoreReads(es[..|es| - 1], true, key);
    }
  }

  /** A leader's answer, from what it has applied; a key no write has left anything under gets none. */
  lemma GetReturnsLastWrite(cfg: Config, run: seq<Action>, i: Addr, key: Bytes)
    requires i in After(cfg, run).nodes && After(cfg, run).nodes[i].status == Leader
    ensures var n := After(cfg, run).nodes[i];
            Get(n, key) == match LastWrite(n.applied, !n.inHand, key)
                           case None => NoAnswer
                           case Some((op, value)) => if op == PUT_OP then Hit(value) else Miss
  {
    hide After;
    ReplayHolds(cfg, run, |run|);
    ReadsStore(After(cfg, run).nodes[i], key);
  }

  lemma ReadsStore(n: Node, key: Bytes)
    requires ReplayInv(n) && n.status == Leader
    ensures Get(n, key) == match LastWrite(n.applied, !n.inHand, key)
                           case None => NoAnswer
                           case Some((op, value)) => if op == PUT_OP then Hit(value) else Miss
  {
    StoreReads(n.applied, !n.inHand, key);
  }

  lemma {:induction false} LastWriteAt(es: seq<Entry>, tagged: bool, k: nat, key: Bytes)
    requires k < |es| && es[k].key == key && es[k].op in {PUT_OP, LOCK_OP, DELETE_OP}
    requires (k == |es| - 1 ==> tagged) && forall j :: k < j < |es| ==> es[j].key != key
    ensures if key == APPLIED_TAG then LastWrite(es, tagged, key).Some? && IsDigit(LastWrite(es, tagged, key).value.0)
            else LastWrite(es, tagged, key) == if es[k].op == DELETE_OP then None else Some((es[k].op, es[k].value))
  {
    if k < |es| - 1 {
      LastWriteAt(es[..|es| - 1], true, k, key);
    }
  }

  /** What a request leaves to be read under its key; the apply loop's own tag is written over at once. */
  function Reads(kind: Kind, key: Bytes, value: Bytes): Answer {
    if key == APPLIED_TAG then Miss
    else
      match kind
      case PutReq => Hit(value)
      case DelReq => NoAnswer
      case LockReq => Miss
      case UnLockReq => Miss
  }

  /**
   A request that was answered with success in the leadership that accepted it determines what that
   node, whenever it leads later in the run, answers for the key until it applies another entry for
   it. With any choice of repairs, if no slot moved under the apply loop while it answered; with the
   repairs safety needs, always.
   */
  lemma RequestIsRead(cfg: Config, run: seq<Action>, a: nat, i: Addr, e: AckEvent, kind: Kind, key: Bytes, value: Bytes)
    requires a <= |run| && i in After(cfg, run[..a]).nodes && i in After(cfg, run).nodes
    requires (WellFormed(cfg) && Mended(cfg.repairs))
             || (forall k :: 0 <= k < a ==> SlotUnmoved(cfg, After(cfg, run[..k]), run[k], i))
    requires e in After(cfg, run[..a]).nodes[i].acked && e.ticket.term == e.term
    requires e.ticket.entry == EntryOf(kind, key, value, e.term)
    requires After(cfg, run).nodes[i].status == Leader
    requires forall j :: 0 <= j && e.index < j < |After(cfg, run).nodes[i].applied| ==>
               After(cfg, run).nodes[i].applied[j].key != key
    ensures Get(After(cfg, run).nodes[i], key) == Reads(kind, key, value)
  {
    hide After, Get, SlotUnmoved, ReplayInv;
    var n := After(cfg, run).nodes[i];
    AnsweredIsApplied(cfg, run, a, i, e);
    ReplayHolds(cfg, run, a);
    ReplayHolds(cfg, run, |run|);
    assert After(cfg, run[..a]).nodes[i].applied <= n.applied;
    AnsweredIsTagged(cfg, run, a, i, e);
    assert ReplayInv(n);
    ReadAt(n, e.index, kind, key, value, e.term);
  }

  lemma ReadAt(n: Node, k: nat, kind: Kind, key: Bytes, value: Bytes, term: int)
    requires n.status == Leader && ReplayInv(n) && k < |n.applied| && k <= n.lastApplied
    requires n.applied[k] == EntryOf(kind, key, value, term)
    requires forall j :: 0 <= j && k < j < |n.applied| ==> n.applied[j].key != key
    ensures Get(n, key) == Reads(kind, key, value)
  {
    hide Get, Replay, Untagged;
    LastWriteAt(n.applied, !n.inHand, k, key);
    ReadsStore(n, key);
  }

  lemma AnsweredIsApplied(cfg: Config, run: seq<Action>, a: nat, i: Addr, e: AckEvent)
    requires a <= |run| && i in After(cfg, run[..a]).nodes
    requires (WellFormed(cfg) && Mended(cfg.repairs))
             || (forall k :: 0 <= k < a ==> SlotUnmoved(cfg, After(cfg, run[..k]), run[k], i))
    requires e in After(cfg, run[..a]).nodes[i].acked && e.ticket.term == e.term
    ensures var n := After(cfg, run[..a]).nodes[i];
            0 <= e.index < |n.applied| && n.applied[e.index] == e.ticket.entry
  {
    if WellFormed(cfg) && Mended(cfg.repairs) {
      SuccessIsApplied(cfg, run[..a], i, e);
    } else {
      forall k | 0 <= k < a ensures SlotUnmoved(cfg, After(cfg, run[..a][..k]), run[..a][k], i) {
        assert run[..a][..k] == run[..k];
      }
      AppliedExactly(cfg, run[..a], i);
    }
  }

  /** An answer given stays given, and the tag of its index is behind it. */
  lemma AnsweredIsTagged(cfg: Config, run: seq<Action>, a: nat, i: Addr, e: AckEvent)
    requires a <= |run| && i in After(cfg, run[..a]).nodes && i in After(cfg, run).nodes
    requires e in After(cfg, run[..a]).nodes[i].acked && e.ticket.term == e.term
    ensures e.index <= After(cfg, run).nodes[i].lastApplied
  {
    hide After, AckEvents, AnswerStep;
    AckedOrigin(cfg, run[..a], i, e);
    var k :| AnsweredAt(cfg, run[..a], k, i, e);
    AnsweredLonger(cfg, run, a, k, i, e);
    AckedOrigin(cfg, run, i, e);
    ClientSuccess.ClientSuccess(cfg, run, i, e);
  }

  lemma AnsweredLonger(cfg: Config, run: seq<Action>, a: nat, k: int, i: Addr, e: AckEvent)
    requires a <= |run| && AnsweredAt(cfg, run[..a], k, i, e)
    ensures AnsweredAt(cfg, run, k, i, e)
  {
    hide After, AckEvents, Enabled;
    assert run[..a][..k] == run[..k];
  }
}
