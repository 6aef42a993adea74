/**
 The node object as the code has it, over a log store in bytes. Each method is one body under `mu_`
 and does to the state exactly what the handler of RaftNode, with no repair, says.
 */
module AirDBNode {
  import opened Base
  import opened Decimal
  import opened Codec
  import opened BinLog
  import opened DataStore
  import opened RaftNode

  lemma {:induction false} MatchesGrows(r: Repairs, self: Addr, m: map<Addr, int>, index: int, ms: seq<Addr>, i: nat)
    requires i < |ms|
    ensures Matches(r, self, m, index, ms[..i + 1])
            == Matches(r, self, m, index, ms[..i])
               + (if Lookup(m, ms[i]) == index && !(r.self && ms[i] == self) then 1 else 0)
  {
    assert ms[..i + 1][..i] == ms[..i];
  }

  /** The resets of the members visited so far. */
  function ResetOver(cfg: Config, self: Addr, n: Node, ms: seq<Addr>, v: int): map<Addr, int> {
    map p | p in ms && Resets(cfg, self, n, p) :: v
  }

  lemma ResetOverGrows(cfg: Config, self: Addr, n: Node, ms: seq<Addr>, p: Addr, v: int, m: map<Addr, int>)
    ensures m + ResetOver(cfg, self, n, ms + [p], v)
            == if Resets(cfg, self, n, p) then (m + ResetOver(cfg, self, n, ms, v))[p := v]
               else m + ResetOver(cfg, self, n, ms, v)
  {
    var rest, more := ResetOver(cfg, self, n, ms, v), ResetOver(cfg, self, n, ms + [p], v);
    assert more == if Resets(cfg, self, n, p) then rest[p := v] else rest;
  }

  lemma {:induction false} MaxTermGrows(es: seq<Entry>, e: Entry)
    ensures MaxTerm(es + [e]) == Max(MaxTerm(es), e.term)
  {
    assert (es + [e])[..|es|] == es;
  }

  lemma NoTerms()
    ensures MaxTerm([]) == -1
  {
  }

  lemma SliceGrows(log: seq<Entry>, from: nat, i: nat)
    requires from <= i < |log|
    ensures log[from..i + 1] == log[from..i] + [log[i]]
  {
  }

  class AirDBImpl {
    const self: Addr
    const members: seq<Addr>
    const binlog: BinLogger

    var status: Status
    var heartbeats: nat
    var term: nat
    var leaderAddr: Addr
    var voteFor: map<int, Addr>
    var votePass: map<int, int>
    var nextIndex: map<Addr, int>
    var matchIndex: map<Addr, int>
    var replicating: set<Addr>
    var commit: int
    var applyEnd: int
    var lastApplied: int
    var inHand: bool
    var store: Store
    var acks: map<int, map<Kind, Ticket>>
    ghost var applied: seq<Entry>
    ghost var acked: set<AckEvent>

    ghost predicate Valid()
      reads this, binlog
    {
      binlog.Valid() && members != []
    }

    ghost function View(): Node
      reads this, binlog
      requires Valid()
    {
      Node(status, heartbeats, term, leaderAddr, voteFor, votePass,
           binlog.Log(), binlog.Stale(), binlog.lastLogTerm, nextIndex, matchIndex, replicating,
           commit, applyEnd, lastApplied, inHand, store, acks, applied, acked)
    }

    ghost function Cfg(): Config {
      Config(members, SHOWN)
    }

    /** A node over empty stores. */
    constructor (self: Addr, members: seq<Addr>, logger: BinLogger)
      requires members != [] && logger.Valid() && logger.slots == [] && logger.lastLogTerm == -1
      ensures Valid() && View() == FRESH && this.self == self && this.members == members && binlog == logger
    {
      this.self, this.members, binlog := self, members, logger;
      status, heartbeats, term, leaderAddr := Follower, 0, 0, "";
      voteFor, votePass, nextIndex, matchIndex, replicating := map[], map[], map[], map[], {};
      commit, applyEnd, lastApplied, inHand := -1, -1, -1, false;
      store, acks, applied, acked := map[], map[], [], {};
    }

    /** The broadcast loop: the message to every member but this one. */
    method ToPeers<T(==)>(msg: T) returns (calls: seq<(Addr, T)>)
      ensures forall p, m :: (p, m) in calls <==> p in members && p != self && m == msg
    {
      calls := [];
      var i := 0;
      while i < |members|
        invariant 0 <= i <= |members|
        invariant forall p, m :: (p, m) in calls <==> p in members[..i] && p != self && m == msg
      {
        assert members[..i + 1] == members[..i] + [members[i]];
        if members[i] != self {
          calls := calls + [(members[i], msg)];
        }
        i := i + 1;
      }
      assert members[..|members|] == members;
    }

    // ----- elections -----

    method VoteLeader() returns (calls: seq<(Addr, VoteReq)>)
      requires Valid()
      modifies this
      ensures Valid() && View() == RaftNode.VoteLeader(self, old(View()))
      ensures forall p, b :: (p, b) in calls <==>
                Stands(old(View())) && p in members && p != self && b == BallotOf(self, View())
    {
      hide Image;
      calls := [];
      if status == Leader {
        return;
      }
      if status == Follower && heartbeats > 0 {
        heartbeats := 0;
        return;
      }
      BecomeCandidate();
      var lastIndex, lastTerm := binlog.GetLastLogIndexAndTerm();
      calls := ToPeers(VoteReq(term, self, lastIndex, lastTerm));
    }

    method BecomeCandidate()
      requires Valid() && Stands(View())
      modifies this`term, this`status, this`voteFor, this`votePass
      ensures Valid() && View() == RaftNode.VoteLeader(self, old(View()))
    {
      hide Image;
      ghost var n := View();
      term := term + 1;
      status := Candidate;
      voteFor := voteFor[term := self];
      votePass := votePass[term := Lookup(votePass, term) + 1];
      assert View() == n.(term := term, status := status, voteFor := voteFor, votePass := votePass);
    }

    method SwitchToFollower(t: nat)
      requires Valid()
      modifies this
      ensures Valid() && View() == RaftNode.SwitchToFollower(old(View()), t)
    {
      hide Image;
      status := Follower;
      term := t;
    }

    method Vote(req: VoteReq) returns (res: Option<VoteRes>)
      requires Valid()
      modifies this
      ensures Valid() && (View(), res) == RaftNode.Vote(old(View()), req)
    {
      hide Image;
      if status == Leader {
        return None;
      }
      if req.term < term {
        return Some(VoteRes(term, false));
      }
      var lastIndex, lastTerm := binlog.GetLastLogIndexAndTerm();
      if req.lastTerm < lastTerm {
        return Some(VoteRes(term, false));
      } else if req.lastTerm == lastTerm && req.lastIndex < lastIndex {
        return Some(VoteRes(term, false));
      }
      if req.term > term {
        SwitchToFollower(req.term);
      }
      if term in voteFor && voteFor[term] != req.candidate {
        return Some(VoteRes(term, false));
      }
      voteFor := voteFor[term := req.candidate];
      return Some(VoteRes(term, true));
    }

    method VoteCallBack(res: Option<VoteRes>)
      requires Valid() && Storable(PingEntry(term))
      modifies this, binlog
      ensures Valid() && View() == RaftNode.VoteCallBack(Cfg(), self, old(View()), res)
    {
      hide Image;
      if status == Candidate && res.Some? {
        if res.value.term == term && res.value.pass {
          votePass := votePass[term := Lookup(votePass, term) + 1];
          if votePass[term] > |members| / 2 {
            SwitchToLeader();
          }
        } else if res.value.term > term {
          SwitchToFollower(res.value.term);
        }
      }
    }

    method SwitchToLeader()
      requires Valid() && Storable(PingEntry(term))
      modifies this, binlog
      ensures Valid() && View() == RaftNode.SwitchToLeader(Cfg(), self, old(View()))
    {
      hide Image;
      status := Leader;
      leaderAddr := self;
      StartReplicaLog();
    }

    /** Resets every peer that no replication thread is running for, then logs an entry of the new term. */
    method StartReplicaLog()
      requires Valid() && Storable(PingEntry(term))
      modifies this, binlog
      ensures Valid()
      ensures View() == RaftNode.StartReplicaLog(Cfg(), self, old(View()))
    {
      hide Image;
      ghost var n := View();
      var length := binlog.GetLength();
      nextIndex, matchIndex := ResetPeers(length);
      binlog.WriteEntry(PingEntry(term));
    }

    /** The loop over the members: the peers to reset get these indices, the others keep theirs. */
    method ResetPeers(length: int) returns (next: map<Addr, int>, match_: map<Addr, int>)
      requires Valid()
      ensures next == nextIndex + Reset(Cfg(), self, View(), length)
      ensures match_ == matchIndex + Reset(Cfg(), self, View(), -1)
    {
      next, match_ := nextIndex, matchIndex;
      ghost var n := View();
      ghost var cfg := Cfg();
      var i := 0;
      while i < |members|
        invariant 0 <= i <= |members|
        invariant next == nextIndex + ResetOver(cfg, self, n, members[..i], length)
        invariant match_ == matchIndex + ResetOver(cfg, self, n, members[..i], -1)
      {
        var p := members[i];
        assert members[..i + 1] == members[..i] + [p];
        ResetOverGrows(cfg, self, n, members[..i], p, length, nextIndex);
        ResetOverGrows(cfg, self, n, members[..i], p, -1, matchIndex);
        if p != self && p !in replicating {
          next, match_ := next[p := length], match_[p := -1];
        }
        i := i + 1;
      }
      assert members[..|members|] == members;
      assert ResetOver(cfg, self, n, members, length) == Reset(cfg, self, n, length);
      assert ResetOver(cfg, self, n, members, -1) == Reset(cfg, self, n, -1);
    }

    // ----- replication, leader side -----

    /** The part of a ReplicateLog round before the call: the request and the largest term in it. */
    method BuildRequest(f: Addr, single: bool) returns (req: AppendReq, maxTerm: int)
      requires Valid() && CanReplicate(View(), f)
      ensures req == BuildAppend(self, View(), f, single) && maxTerm == MaxTerm(req.entries)
    {
      hide Image;
      var index := Lookup(nextIndex, f);
      var length := binlog.GetLength();
      var batch := if single then Min(1, length - index) else length - index;
      var prevTerm := -1;
      if index - 1 > -1 {
        var ok, prev := binlog.ReadSlot(index - 1);
        prevTerm := prev.term;
      }
      var entries;
      entries, maxTerm := ReadEntries(index, index + batch);
      req := AppendReq(term, self, index - 1, prevTerm, commit, entries);
    }

    /** The loop that copies slots into a request. */
    method ReadEntries(from: nat, to: nat) returns (entries: seq<Entry>, maxTerm: int)
      requires Valid() && from <= to <= |binlog.Log()|
      ensures entries == binlog.Log()[from..to] && maxTerm == MaxTerm(entries)
    {
      hide Image, MaxTerm;
      entries := [];
      maxTerm := -1;
      NoTerms();
      var i := from;
      while i < to
        invariant from <= i <= to
        invariant entries == binlog.Log()[from..i] && maxTerm == MaxTerm(entries)
      {
        var ok, e := binlog.ReadSlot(i);
        MaxTermGrows(entries, e);
        SliceGrows(binlog.Log(), from, i);
        entries := entries + [e];
        maxTerm := Max(maxTerm, e.term);
        i := i + 1;
      }
    }

    method BroadCastHeartBeat() returns (calls: seq<(Addr, AppendReq)>)
      requires Valid()
      ensures forall p, r :: (p, r) in calls <==>
                status == Leader && p in members && p != self && r == AppendReq(term, self, 0, 0, commit, [])
    {
      calls := [];
      if status != Leader {
        return;
      }
      calls := ToPeers(AppendReq(term, self, 0, 0, commit, []));
    }

    /** Counts while it goes, and commits as soon as the running count is enough. */
    method UpdateCommitIndex(index: int)
      requires Valid()
      modifies this`commit
      ensures Valid() && View() == RaftNode.UpdateCommitIndex(Cfg(), self, old(View()), index)
    {
      hide Image;
      var count := 0;
      var i := 0;
      while i < |members|
        invariant 0 <= i <= |members|
        invariant count == Matches(SHOWN, self, matchIndex, index, members[..i])
        invariant commit == if i > 0 && count >= |members| / 2 && index > old(commit) then index else old(commit)
      {
        MatchesGrows(SHOWN, self, matchIndex, index, members, i);
        if Lookup(matchIndex, members[i]) == index {
          count := count + 1;
        }
        if count >= |members| / 2 && index > commit {
          commit := index;
        }
        i := i + 1;
      }
      assert members[..|members|] == members;
    }

    /** The part of a ReplicateLog round after the call. */
    method HandleReply(f: Addr, req: AppendReq, maxTerm: int, res: Option<AppendRes>)
      requires Valid() && maxTerm == MaxTerm(req.entries)
      modifies this
      ensures Valid() && View() == ReplicateReply(Cfg(), self, old(View()), f, req, res)
    {
      hide Image, Advance, BackUp, MaxTerm;
      if res.Some? && res.value.term > term {
        SwitchToFollower(res.value.term);
      }
      if status != Leader {
        return;
      }
      if res.Some? {
        if res.value.success {
          NoteAccepted(f, req, maxTerm);
        } else if !res.value.busy {
          NoteRefused(f, res.value.logLength);
        }
      }
    }

    /** Its branch for entries that were accepted. */
    method NoteAccepted(f: Addr, req: AppendReq, maxTerm: int)
      requires Valid() && maxTerm == MaxTerm(req.entries)
      modifies this`nextIndex, this`matchIndex, this`commit
      ensures Valid() && View() == Advance(Cfg(), self, old(View()), f, req)
    {
      hide Image, MaxTerm, Matches;
      var last := req.prevIndex + |req.entries|;
      nextIndex := nextIndex[f := last + 1];
      matchIndex := matchIndex[f := last];
      if maxTerm == term {
        UpdateCommitIndex(last);
      }
    }

    /** Its branch for a refusal. */
    method NoteRefused(f: Addr, logLength: int)
      requires Valid()
      modifies this`nextIndex
      ensures Valid() && View() == BackUp(old(View()), f, logLength)
    {
      hide Image;
      nextIndex := nextIndex[f := Min(Lookup(nextIndex, f) - 1, logLength)];
      if nextIndex[f] < 0 {
        nextIndex := nextIndex[f := 0];
      }
    }

    method HeartBeatCallBack(res: Option<AppendRes>)
      requires Valid()
      modifies this
      ensures Valid() && View() == RaftNode.HeartBeatCallBack(old(View()), res)
    {
      hide Image;
      if status != Leader {
        return;
      }
      if res.Some? && res.value.term > term {
        SwitchToFollower(res.value.term);
      }
    }

    // ----- replication, follower side -----

    method AppendEntriesImpl(req: AppendReq) returns (res: AppendRes)
      requires Valid() && forall e :: e in req.entries ==> Storable(e)
      modifies this, binlog
      ensures Valid() && (View(), res) == AppendEntries(SHOWN, old(View()), req)
    {
      hide Image;
      ghost var n := View();
      var length := binlog.GetLength();
      if req.term < term {
        return AppendRes(term, false, length, false);
      }
      FollowSender(req);
      if req.entries != [] {
        if req.prevIndex >= length {
          return AppendRes(term, false, length, false);
        }
        var prevTerm := -1;
        if req.prevIndex >= 0 {
          var ok, prev := binlog.ReadSlot(req.prevIndex);
          prevTerm := prev.term;
        }
        if prevTerm != req.prevTerm {
          assert Judge(n, req) == Mismatch;
          TruncateLog(req.prevIndex - 1);
          length := binlog.GetLength();
          return AppendRes(term, false, length, false);
        }
        if commit - lastApplied > BUSY_GAP {
          assert Judge(n, req) == Busy;
          return AppendRes(term, false, length, true);
        }
      }
      assert Judge(n, req) == Accepted && View() == Follow(n, req);
      Accept(req);
      res := AppendRes(term, true, 0, false);
    }

    method FollowSender(req: AppendReq)
      requires Valid()
      modifies this`status, this`term, this`leaderAddr, this`heartbeats
      ensures Valid() && View() == Follow(old(View()), req)
    {
      hide Image;
      ghost var n := View();
      status := Follower;
      term := req.term;
      leaderAddr := req.leader;
      heartbeats := heartbeats + 1;
      assert View() == n.(status := status, term := term, leaderAddr := leaderAddr, heartbeats := heartbeats);
    }

    /** Appends the entries, if any, and takes over the leader's commit index. */
    method Accept(req: AppendReq)
      requires Valid() && forall e :: e in req.entries ==> Storable(e)
      modifies this`commit, binlog
      ensures Valid()
      ensures var n := if req.entries != [] then WriteEntries(old(View()), req.entries) else old(View());
              View() == n.(commit := FollowerCommit(SHOWN, n.log, n.commit, req))
    {
      hide Image;
      if req.entries != [] {
        binlog.WriteEntryList(req.entries);
      }
      var length := binlog.GetLength();
      commit := Min(length - 1, req.leaderCommit);
    }

    /** The logger's truncation, as it shows in the node. */
    method TruncateLog(slot: int)
      requires Valid() && slot < |binlog.Log()|
      modifies binlog
      ensures Valid() && View() == Truncate(SHOWN, old(View()), slot)
    {
      ghost var n := View();
      ghost var log, stale := binlog.Log(), binlog.Stale();
      ghost var k := if slot < -1 then 0 else slot + 1;
      binlog.Truncate(slot);
      assert binlog.Log() == log[..k];
      assert binlog.Stale() == log[k..] + stale;
      assert View() == n.(log := log[..k], stale := log[k..] + stale, lastLogTerm := binlog.lastLogTerm);
    }

    // ----- client writes and the apply loop -----

    /** Put, Delete, Lock and UnLock: log the entry and keep the response for the apply loop. */
    method ClientWrite(kind: Kind, key: Bytes, value: Bytes) returns (accepted: bool)
      requires Valid() && Storable(EntryOf(kind, key, value, term))
      modifies this, binlog
      ensures Valid() && View() == RaftNode.ClientWrite(old(View()), kind, key, value)
      ensures accepted <==> old(status) == Leader
    {
      hide Image;
      if status != Leader {
        return false;
      }
      var e := EntryOf(kind, key, value, term);
      binlog.WriteEntry(e);
      var length := binlog.GetLength();
      var waiting := if length - 1 in acks then acks[length - 1] else map[];
      acks := acks[length - 1 := waiting[kind := Ticket(term, e)]];
      return true;
    }

    method Get(key: Bytes) returns (answer: Answer)
      requires Valid()
      ensures answer == RaftNode.Get(View(), key)
    {
      if status != Leader {
        return NotLeader(leaderAddr);
      }
      if key !in store {
        return NoAnswer;
      }
      var value := store[key];
      if |value| >= 1 {
        var op, rest := value[0], value[1..];
        if op == PUT_OP {
          return Hit(rest);
        }
      }
      return Miss;
    }

    /** The part of an apply round without the lock: reads the next slot and writes its data. */
    method ApplyEntry()
      requires Valid() && CanApply(View())
      modifies this
      ensures Valid() && View() == RaftNode.ApplyEntry(old(View()))
    {
      hide Image, StoreEntry;
      var e := NextEntry();
      WriteStore(e);
      inHand := true;
      applied := applied + [e];
    }

    /** The entry after the last one applied. */
    method NextEntry() returns (e: Entry)
      requires Valid() && CanApply(View())
      ensures e == (View().log + View().stale)[lastApplied + 1]
    {
      var ok;
      ok, e := binlog.ReadSlot(lastApplied + 1);
    }

    /** The part under the lock; returns the responses it completes. */
    method ApplyTag() returns (done: set<Kind>)
      requires Valid() && inHand
      modifies this
      ensures Valid() && View() == RaftNode.ApplyTag(old(View()))
      ensures done == if status == Leader && lastApplied in old(acks) then old(acks)[lastApplied].Keys else {}
    {
      hide Image, AckEvents, StoreTag;
      done := Answer(lastApplied + 1);
      MarkApplied();
    }

    /** Moves the applied index and then writes the tag. */
    method MarkApplied()
      requires Valid()
      modifies this`lastApplied, this`inHand, this`store
      ensures lastApplied == old(lastApplied) + 1 && !inHand
      ensures store == StoreTag(old(store), lastApplied)
    {
      hide Image;
      lastApplied := lastApplied + 1;
      inHand := false;
      store := store[APPLIED_TAG := IntToString(lastApplied)];
    }

    /** Completes and forgets the responses waiting for the index. */
    method Answer(i: int) returns (done: set<Kind>)
      requires Valid()
      modifies this`acks, this`acked
      ensures acked == old(acked) + AckEvents(old(View()), i)
      ensures acks == if status == Leader then old(acks) - {i} else old(acks)
      ensures done == if status == Leader && i in old(acks) then old(acks)[i].Keys else {}
    {
      hide Image;
      acked := acked + AckEvents(View(), i);
      done := {};
      if status == Leader && i in acks {
        done := acks[i].Keys;
        acks := acks - {i};
      } else {
        assert i !in acks ==> acks - {i} == acks;
      }
    }

    /** The store write of the entry. */
    method WriteStore(e: Entry)
      modifies this`store
      ensures store == StoreEntry(old(store), e)
    {
      if e.op == PUT_OP || e.op == LOCK_OP {
        store := store[e.key := [e.op] + e.value];
      } else if e.op == DELETE_OP || e.op == UNLOCK_OP {
        store := store - {e.key};
      }
    }

    /** One pass of the loop, undisturbed: a snapshot of the commit index, then every entry up to it. */
    method ApplyPass()
      requires Valid() && !inHand && -1 <= lastApplied == applyEnd < commit < |binlog.Log()| + |binlog.Stale()|
      modifies this
      ensures Valid() && View() == ApplyAll(ApplyBegin(old(View()))) && lastApplied == old(commit)
      ensures applied == old(applied) + old(View().log + View().stale)[old(lastApplied) + 1..old(commit) + 1]
      ensures forall e :: e in acked <==>
                e in old(acked) || (old(lastApplied) < e.index <= old(commit) && e in AckEvents(old(View()), e.index))
    {
      hide Image;
      applyEnd := commit;
      ghost var n := View();
      while lastApplied < applyEnd
        invariant Valid() && !inHand && -1 <= lastApplied <= applyEnd == commit == old(commit)
        invariant binlog.Log() == n.log && binlog.Stale() == n.stale
        invariant ApplyAll(View()) == ApplyAll(n)
        decreases applyEnd - lastApplied
      {
        ApplyEntry();
        var _ := ApplyTag();
      }
      ApplyAllApplies(n);
      forall e
        ensures e in acked <==>
                  e in n.acked || (n.lastApplied < e.index <= n.applyEnd && e in AckEvents(n, e.index))
      {
        ApplyAllAnswers(n, e);
      }
    }
  }
}
