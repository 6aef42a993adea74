/**
 Which slots a handler reads, said by what it does: below the lowest slot `CollectedLogs` names for it any
 entry may be put in place of the one there, and the handler gives the same answer and leaves the same
 state, that entry in its slot; for the slot named this is not so. With any choice of repairs.
 */
module SlotReads {
  import opened Base
  import opened DataStore
  import opened RaftNode
  import opened CollectedLogs

  /** The node with this entry in slot p. */
  function WithSlot(n: Node, p: nat, e: Entry): Node
    requires p < |n.log| + |n.stale|
  {
    if p < |n.log| then n.(log := n.log[p := e]) else n.(stale := n.stale[p - |n.log| := e])
  }

  // ----- a follower -----

  /** With this entry in the slot the follower does the same, and the entry stays there. */
  ghost predicate SameWith(r: Repairs, n: Node, req: AppendReq, p: nat, e: Entry)
    requires p < |n.log| + |n.stale|
  {
    var (n', res) := AppendEntries(r, n, req);
    p < |n'.log| + |n'.stale| && AppendEntries(r, WithSlot(n, p, e), req) == (WithSlot(n', p, e), res)
  }

  ghost predicate Ignores(r: Repairs, n: Node, req: AppendReq, p: nat) {
    p < |n.log| + |n.stale| && forall e :: SameWith(r, n, req, p, e)
  }

  lemma JudgeIgnores(n: Node, req: AppendReq, p: nat, e: Entry)
    requires p < |n.log| && p != req.prevIndex
    ensures Judge(WithSlot(n, p, e), req) == Judge(n, req)
  {
  }

  lemma FollowIgnores(n: Node, req: AppendReq, p: nat, e: Entry)
    requires p < |n.log|
    ensures Follow(WithSlot(n, p, e), req) == WithSlot(Follow(n, req), p, e)
  {
  }

  lemma TruncateIgnores(r: Repairs, n: Node, slot: int, p: nat, e: Entry)
    requires slot < |n.log| && p < |n.log| && (p < slot || slot < 0)
    ensures Truncate(r, WithSlot(n, p, e), slot) == WithSlot(Truncate(r, n, slot), p, e)
  {
    var k := if slot < -1 then 0 else slot + 1;
    if p < slot {
      assert n.log[p := e][..k] == n.log[..k][p := e] && n.log[p := e][k..] == n.log[k..];
    } else {
      assert n.log[p := e][k..] + n.stale == (n.log[k..] + n.stale)[p := e];
      assert n.log[p := e][..k] == n.log[..k];
    }
  }

  lemma WriteIgnores(n: Node, es: seq<Entry>, p: nat, e: Entry)
    requires p < |n.log|
    ensures WriteEntries(WithSlot(n, p, e), es) == WithSlot(WriteEntries(n, es), p, e)
  {
    assert n.log[p := e] + es == (n.log + es)[p := e];
  }

  lemma {:induction false} AgreeingIgnores(log: seq<Entry>, from: nat, es: seq<Entry>, p: nat, e: Entry)
    requires p < from <= |log|
    ensures Agreeing(log[p := e], from, es) == Agreeing(log, from, es)
    decreases |es|
  {
    if es != [] && from < |log| {
      AgreeingIgnores(log, from + 1, es[1..], p, e);
    }
  }

  lemma AcceptIgnores(r: Repairs, n: Node, req: AppendReq, p: nat, e: Entry)
    requires req.prevIndex < |n.log| && p < |n.log| && (!r.align || p < req.prevIndex)
    ensures AcceptEntries(r, WithSlot(n, p, e), req) == WithSlot(AcceptEntries(r, n, req), p, e)
  {
    hide Truncate, WriteEntries, Agreeing;
    if r.align {
      var from := req.prevIndex + 1;
      AgreeingIgnores(n.log, from, req.entries, p, e);
      var k := Agreeing(n.log, from, req.entries);
      if k < |req.entries| {
        TruncateIgnores(r, n, from + k - 1, p, e);
        TruncatedLog(r, n, from + k - 1);
        WriteIgnores(Truncate(r, n, from + k - 1), req.entries[k..], p, e);
      }
    } else {
      WriteIgnores(n, req.entries, p, e);
    }
  }

  lemma TruncatedLog(r: Repairs, n: Node, slot: int)
    requires slot < |n.log|
    ensures |Truncate(r, n, slot).log| == Max(slot + 1, 0)
    ensures |Truncate(r, n, slot).log| + |Truncate(r, n, slot).stale| == |n.log| + |n.stale|
  {
  }

  lemma RefusedIgnores(r: Repairs, n: Node, req: AppendReq, p: nat, e: Entry)
    requires Judge(n, req) == Outdated || Judge(n, req) == Beyond || (Judge(n, req) == Busy && p != req.prevIndex)
    requires p < |n.log|
    ensures SameWith(r, n, req, p, e)
  {
    hide Judge, Follow;
    assert Judge(WithSlot(n, p, e), req) == Judge(n, req) by { RefusedSame(n, req, p, e); }
    FollowIgnores(n, req, p, e);
    FollowFrame(n, req);
    SameTerm(n, p, e);
    SameTerm(Follow(n, req), p, e);
  }

  lemma RefusedSame(n: Node, req: AppendReq, p: nat, e: Entry)
    requires Judge(n, req) == Outdated || Judge(n, req) == Beyond || (Judge(n, req) == Busy && p != req.prevIndex)
    requires p < |n.log|
    ensures Judge(WithSlot(n, p, e), req) == Judge(n, req)
  {
  }

  lemma MismatchIgnores(r: Repairs, n: Node, req: AppendReq, p: nat, e: Entry)
    requires Judge(n, req) == Mismatch && p < |n.log| && (p < req.prevIndex - 1 || req.prevIndex < 0)
    ensures SameWith(r, n, req, p, e)
  {
    hide Judge, Truncate, Follow;
    JudgeIgnores(n, req, p, e);
    FollowIgnores(n, req, p, e);
    FollowKeepsLog(n, req);
    TruncateIgnores(r, Follow(n, req), req.prevIndex - 1, p, e);
    TruncatedLog(r, Follow(n, req), req.prevIndex - 1);
    SameTerm(Truncate(r, Follow(n, req), req.prevIndex - 1), p, e);
  }

  lemma SameTerm(n: Node, p: nat, e: Entry)
    requires p < |n.log| + |n.stale|
    ensures var m := WithSlot(n, p, e);
            m.term == n.term && m.commit == n.commit && |m.log| == |n.log|
  {
    if p < |n.log| {
      assert WithSlot(n, p, e) == n.(log := n.log[p := e]);
    } else {
      assert WithSlot(n, p, e) == n.(stale := n.stale[p - |n.log| := e]);
    }
  }

  /** The slot a heartbeat would commit. */
  predicate Commits(r: Repairs, n: Node, req: AppendReq, p: nat) {
    r.commit && req.entries == [] && p == Min(|n.log| - 1, req.leaderCommit) && n.commit < p
  }

  lemma CommitIgnores(r: Repairs, n: Node, n2: Node, req: AppendReq, p: nat, e: Entry)
    requires p < |n2.log| && (req.entries == [] ==> n2.log == n.log) && !Commits(r, n, req, p)
    ensures FollowerCommit(r, n2.log[p := e], n.commit, req) == FollowerCommit(r, n2.log, n.commit, req)
  {
  }

  lemma AcceptedIgnores(r: Repairs, n: Node, req: AppendReq, p: nat, e: Entry)
    requires Judge(n, req) == Accepted && p < |n.log| && !Commits(r, n, req, p)
    requires req.entries != [] ==> p != req.prevIndex && (!r.align || p < req.prevIndex)
    ensures SameWith(r, n, req, p, e)
  {
    hide Judge, Follow, AcceptEntries, FollowerCommit, Commits;
    var n1 := Follow(n, req);
    FollowFrame(n, req);
    FollowIgnores(n, req, p, e);
    if req.entries == [] {
      assert Judge(WithSlot(n, p, e), req) == Accepted by { HeartBeatAccepted(n, req, p, e); }
      CommitIgnores(r, n, n1, req, p, e);
    } else {
      JudgeIgnores(n, req, p, e);
      AcceptIgnores(r, n1, req, p, e);
      AcceptLonger(r, n1, req, p);
      CommitIgnores(r, n, AcceptEntries(r, n1, req), req, p, e);
    }
  }

  lemma HeartBeatAccepted(n: Node, req: AppendReq, p: nat, e: Entry)
    requires p < |n.log| && req.entries == []
    ensures Judge(WithSlot(n, p, e), req) == Judge(n, req)
  {
  }

  lemma FollowFrame(n: Node, req: AppendReq)
    ensures Follow(n, req).log == n.log && Follow(n, req).stale == n.stale && Follow(n, req).term == req.term
  {
  }

  /** What is kept before the entries stays in the log. */
  lemma AcceptLonger(r: Repairs, n: Node, req: AppendReq, p: nat)
    requires req.prevIndex < |n.log| && p < |n.log| && (!r.align || p < req.prevIndex)
    ensures p < |AcceptEntries(r, n, req).log|
  {
    hide Agreeing;
  }

  // ----- the slot that matters -----

  /** An entry of another term than this one. */
  function OtherTerm(term: int): Entry {
    Entry(NOP, [], [], term + 1)
  }

  lemma MismatchReads(r: Repairs, n: Node, req: AppendReq)
    requires Judge(n, req) == Mismatch && req.prevIndex >= 0
    ensures !Ignores(r, n, req, Max(req.prevIndex - 1, 0))
  {
    hide FollowerCommit, AcceptEntries;
    if req.prevIndex == 0 {
      assert !SameWith(r, n, req, 0, OtherTerm(req.prevTerm - 1));
    } else {
      var p := req.prevIndex - 1;
      var e := OtherTerm(n.log[p].term);
      JudgeIgnores(n, req, p, e);
      assert AppendEntries(r, WithSlot(n, p, e), req).0.lastLogTerm == e.term;
      assert !SameWith(r, n, req, p, e);
    }
  }

  lemma PreviousReads(r: Repairs, n: Node, req: AppendReq)
    requires Judge(n, req) == Busy || Judge(n, req) == Accepted
    requires req.entries != [] && req.prevIndex >= 0
    ensures !Ignores(r, n, req, req.prevIndex)
  {
    hide FollowerCommit, AcceptEntries;
    var e := OtherTerm(req.prevTerm);
    assert Judge(WithSlot(n, req.prevIndex, e), req) == Mismatch;
    assert !SameWith(r, n, req, req.prevIndex, e);
  }

  lemma AlignReads(r: Repairs, n: Node, req: AppendReq)
    requires Judge(n, req) == Accepted && req.entries != [] && req.prevIndex < 0 && r.align && n.log != []
    ensures !Ignores(r, n, req, 0)
  {
    hide AppendEntries, Judge, WithSlot;
    var e := OtherTerm(req.entries[0].term);
    var m := WithSlot(n, 0, e);
    JudgeIgnores(n, req, 0, e);
    SlotIs(n, 0, e);
    FirstWritten(r, m, req);
    FirstKept(r, n, req);
    SlotIs(AppendEntries(r, n, req).0, 0, e);
    assert !SameWith(r, n, req, 0, e);
  }

  lemma AcceptedLogIs(r: Repairs, n: Node, req: AppendReq)
    requires Judge(n, req) == Accepted && req.entries != []
    ensures Follow(n, req).log == n.log
    ensures AppendEntries(r, n, req).0.log == AcceptEntries(r, Follow(n, req), req).log
  {
    hide Judge, AcceptEntries, FollowerCommit;
  }

  /** A first slot of another term is written over. */
  lemma FirstWritten(r: Repairs, n: Node, req: AppendReq)
    requires Judge(n, req) == Accepted && req.entries != [] && req.prevIndex < 0 && r.align && n.log != []
    requires n.log[0].term != req.entries[0].term
    ensures AppendEntries(r, n, req).0.log == req.entries
  {
    hide AppendEntries, Judge, Follow;
    AcceptedLogIs(r, n, req);
    assert Agreeing(n.log, 0, req.entries) == 0;
  }

  lemma FirstKept(r: Repairs, n: Node, req: AppendReq)
    requires Judge(n, req) == Accepted && req.entries != [] && req.prevIndex < 0 && r.align
    ensures AppendEntries(r, n, req).0.log != []
  {
    hide AppendEntries, Judge, Follow;
    AcceptedLogIs(r, n, req);
  }

  lemma HeartBeatReads(r: Repairs, n: Node, req: AppendReq)
    requires Judge(n, req) == Accepted && req.entries == [] && r.commit
    requires 0 <= Min(|n.log| - 1, req.leaderCommit) && n.commit < Min(|n.log| - 1, req.leaderCommit)
    ensures !Ignores(r, n, req, Min(|n.log| - 1, req.leaderCommit))
  {
    hide AppendEntries, Judge, WithSlot;
    var c := Min(|n.log| - 1, req.leaderCommit);
    var e := OtherTerm(if n.log[c].term == req.term then req.term else req.term - 1);
    var m := WithSlot(n, c, e);
    HeartBeatAccepted(n, req, c, e);
    AppendCases(r, n, req);
    AppendCases(r, m, req);
    SlotIs(n, c, e);
    CommitReads(r, n, m, req, c);
    SameTerm(AppendEntries(r, n, req).0, c, e);
    assert !SameWith(r, n, req, c, e);
  }

  lemma SlotIs(n: Node, p: nat, e: Entry)
    requires p < |n.log|
    ensures WithSlot(n, p, e).log == n.log[p := e] && WithSlot(n, p, e).commit == n.commit
  {
  }

  lemma CommitReads(r: Repairs, n: Node, m: Node, req: AppendReq, c: nat)
    requires r.commit && req.entries == [] && c == Min(|n.log| - 1, req.leaderCommit) && n.commit < c
    requires |m.log| == |n.log| && m.commit == n.commit
    requires (n.log[c].term == req.term) != (m.log[c].term == req.term)
    ensures FollowerCommit(r, m.log, m.commit, req) != FollowerCommit(r, n.log, n.commit, req)
  {
  }

  /** The slot named is the lowest one on which what a follower does depends; with none named it is on none. */
  lemma FollowerReadsExactly(r: Repairs, n: Node, req: AppendReq)
    ensures match FollowerReads(r, n, req)
            case None => forall p: nat :: p < |n.log| ==> Ignores(r, n, req, p)
            case Some(p) =>
              0 <= p < |n.log| && !Ignores(r, n, req, p) && forall q: nat :: q < p ==> Ignores(r, n, req, q)
  {
    hide SameWith;
    FollowerReadsOne(r, n, req);
    var until := match FollowerReads(r, n, req) case None => |n.log| case Some(p) => p;
    forall q: nat | q < until ensures Ignores(r, n, req, q) {
      forall e ensures SameWith(r, n, req, q, e) {
        match Judge(n, req)
        case Mismatch => MismatchIgnores(r, n, req, q, e);
        case Accepted => AcceptedIgnores(r, n, req, q, e);
        case _ => RefusedIgnores(r, n, req, q, e);
      }
    }
  }

  lemma FollowerReadsOne(r: Repairs, n: Node, req: AppendReq)
    ensures match FollowerReads(r, n, req)
            case None => true
            case Some(p) => 0 <= p < |n.log| && !Ignores(r, n, req, p)
  {
    hide Ignores;
    match Judge(n, req)
    case Mismatch => if req.prevIndex >= 0 { MismatchReads(r, n, req); }
    case Busy => if req.prevIndex >= 0 { PreviousReads(r, n, req); }
    case Accepted =>
      var c := Min(|n.log| - 1, req.leaderCommit);
      if req.entries == [] {
        if r.commit && 0 <= c && n.commit < c { HeartBeatReads(r, n, req); }
      } else if req.prevIndex >= 0 {
        PreviousReads(r, n, req);
      } else if r.align && n.log != [] {
        AlignReads(r, n, req);
      }
    case _ =>
  }

  // ----- a leader, and the apply loop -----

  lemma BuildsFrom(self: Addr, n: Node, m: Node, f: Addr, single: bool, q: nat, e: Entry)
    requires CanReplicate(n, f) && q < |n.log| && m == n.(log := n.log[q := e])
    ensures CanReplicate(m, f)
    ensures q + 1 < Lookup(n.nextIndex, f) ==> BuildAppend(self, m, f, single) == BuildAppend(self, n, f, single)
    ensures q + 1 == Lookup(n.nextIndex, f) ==> BuildAppend(self, m, f, single).prevTerm == e.term
    ensures q == Lookup(n.nextIndex, f) ==>
              BuildAppend(self, m, f, single).entries != [] && BuildAppend(self, m, f, single).entries[0] == e
  {
    var index := Lookup(n.nextIndex, f);
    var batch := if single then 1 else |n.log| - index;
    if q < index {
      assert n.log[q := e][index..index + batch] == n.log[index..index + batch];
    }
  }

  /** A request to a follower depends on the slot before its next index and none below; at 0 on the first it sends. */
  lemma LeaderReadsExactly(self: Addr, n: Node, f: Addr, single: bool, q: nat)
    requires CanReplicate(n, f) && q <= Max(Lookup(n.nextIndex, f) - 1, 0)
    ensures (forall e :: BuildAppend(self, WithSlot(n, q, e), f, single) == BuildAppend(self, n, f, single))
            <==> q < Max(Lookup(n.nextIndex, f) - 1, 0)
  {
    hide BuildAppend;
    var p := Max(Lookup(n.nextIndex, f) - 1, 0);
    if q == p {
      var e := OtherTerm(n.log[p].term);
      BuildsFrom(self, n, WithSlot(n, p, e), f, single, p, e);
      BuildsFrom(self, n, WithSlot(n, p, n.log[p]), f, single, p, n.log[p]);
      assert n.log[p := n.log[p]] == n.log;
      assert BuildAppend(self, WithSlot(n, p, e), f, single) != BuildAppend(self, n, f, single);
    } else {
      forall e ensures BuildAppend(self, WithSlot(n, q, e), f, single) == BuildAppend(self, n, f, single) {
        BuildsFrom(self, n, WithSlot(n, q, e), f, single, q, e);
      }
    }
  }

  lemma OtherApplies(n: Node, p: nat, e: Entry)
    requires CanApply(n) && p < |n.log| + |n.stale| && p != n.lastApplied + 1
    ensures CanApply(WithSlot(n, p, e)) && ApplyEntry(WithSlot(n, p, e)) == WithSlot(ApplyEntry(n), p, e)
  {
    hide StoreEntry;
    if p < |n.log| {
      assert (n.log[p := e] + n.stale)[n.lastApplied + 1] == (n.log + n.stale)[n.lastApplied + 1];
    } else {
      assert (n.log + n.stale[p - |n.log| := e])[n.lastApplied + 1] == (n.log + n.stale)[n.lastApplied + 1];
    }
  }

  lemma ThisApplies(n: Node, p: nat, e: Entry)
    requires CanApply(n) && p == n.lastApplied + 1
    ensures CanApply(WithSlot(n, p, e)) && ApplyEntry(WithSlot(n, p, e)).applied == n.applied + [e]
    ensures WithSlot(ApplyEntry(n), p, e).applied == n.applied + [(n.log + n.stale)[p]]
  {
    hide StoreEntry;
    if p < |n.log| {
      assert (n.log[p := e] + n.stale)[p] == e;
    } else {
      assert (n.log + n.stale[p - |n.log| := e])[p] == e;
    }
  }

  lemma ApplyKeepsSlots(n: Node)
    requires CanApply(n)
    ensures ApplyEntry(n).log == n.log && ApplyEntry(n).stale == n.stale
  {
    hide StoreEntry;
  }

  /** A round of the apply loop depends on the slot after the last one applied, and on no other. */
  lemma ApplyReadsExactly(n: Node, p: nat)
    requires CanApply(n) && p < |n.log| + |n.stale|
    ensures (forall e :: CanApply(WithSlot(n, p, e)) && ApplyEntry(WithSlot(n, p, e)) == WithSlot(ApplyEntry(n), p, e))
            <==> p != n.lastApplied + 1
  {
    hide CanApply, ApplyEntry, WithSlot;
    ApplyKeepsSlots(n);
    if p == n.lastApplied + 1 {
      var e := OtherTerm((n.log + n.stale)[p].term);
      ThisApplies(n, p, e);
      assert (n.applied + [e])[|n.applied|] != (n.applied + [(n.log + n.stale)[p]])[|n.applied|];
      assert ApplyEntry(WithSlot(n, p, e)) != WithSlot(ApplyEntry(n), p, e);
    } else {
      forall e
        ensures CanApply(WithSlot(n, p, e)) && ApplyEntry(WithSlot(n, p, e)) == WithSlot(ApplyEntry(n), p, e)
      {
        OtherApplies(n, p, e);
      }
    }
  }
}
