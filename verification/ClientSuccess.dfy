/**
 What a success answer means. If a node accepts a write and acknowledges it in the same leadership,
 its slot at that index holds exactly the entry the request wrote, for every choice of repairs. That
 the entry applied there is the same one needs repairs, because the apply loop reads the slot before
 it takes the lock to answer. The index is committed on that node as long as no request takes a
 follower's commit index below what its apply loop has in hand.
 */
module ClientSuccess {
  import opened Base
  import opened RaftNode
  import opened Cluster
  import opened Frames
  import opened StateMachineSafety

  /** The request of this kind that wrote the ticket's entry. */
  ghost predicate Writes(k: Kind, t: Ticket, key: Bytes, value: Bytes) {
    t.entry == EntryOf(k, key, value, t.term)
  }

  ghost predicate Written(k: Kind, t: Ticket) {
    exists key, value :: Writes(k, t, key, value)
  }

  /** A ticket of the leadership the node is in points at its own entry. */
  ghost predicate TicketInv(n: Node, index: int, k: Kind, t: Ticket) {
    && Written(k, t) && t.term <= n.term
    && (n.status == Candidate ==> t.term < n.term)
    && (n.status == Leader && t.term == n.term ==> 0 <= index < |n.log| && n.log[index] == t.entry)
  }

  ghost predicate TicketsInv(n: Node) {
    forall index, k :: index in n.acks && k in n.acks[index] ==> TicketInv(n, index, k, n.acks[index][k])
  }

  ghost predicate EventInv(n: Node, e: AckEvent) {
    && Written(e.kind, e.ticket) && 0 <= e.index <= n.lastApplied
    && (e.ticket.term == e.term ==> e.slot == Some(e.ticket.entry))
  }

  /** Where the apply loop is. */
  ghost predicate LoopInv(n: Node) {
    |n.applied| == Stored(n) + 1 && -1 <= n.lastApplied && Stored(n) <= n.applyEnd
  }

  ghost predicate ClientInv(n: Node) {
    && TicketsInv(n) && LoopInv(n)
    && (forall e :: e in n.acked ==> EventInv(n, e))
  }

  /** A handler that leaves tickets and answers alone and starts no leadership with old tickets. */
  ghost predicate LeavesTickets(n: Node, n': Node) {
    && n'.acks == n.acks && n'.acked == n.acked && n'.applied == n.applied && n'.lastApplied == n.lastApplied
    && n'.inHand == n.inHand && n'.applyEnd >= n.applyEnd
    && n.term <= n'.term
    && (n'.status == Leader ==> n.status != Follower && n'.term == n.term && n.log <= n'.log)
    && (n'.status == Candidate ==> n.term < n'.term || n.status == Candidate)
  }

  lemma LeavesTicketsKeeps(n: Node, n': Node)
    requires ClientInv(n) && LeavesTickets(n, n')
    ensures ClientInv(n')
  {
    forall index, k | index in n'.acks && k in n'.acks[index] ensures TicketInv(n', index, k, n'.acks[index][k]) {
      assert TicketInv(n, index, k, n.acks[index][k]);
    }
    forall e | e in n'.acked ensures EventInv(n', e) {
      assert EventInv(n, e);
    }
  }

  lemma WriteKeeps(n: Node, kind: Kind, key: Bytes, value: Bytes)
    requires ClientInv(n)
    ensures ClientInv(ClientWrite(n, kind, key, value))
  {
    var n' := ClientWrite(n, kind, key, value);
    if n.status == Leader {
      var mine := Ticket(n.term, EntryOf(kind, key, value, n.term));
      assert Writes(kind, mine, key, value);
      forall index, k | index in n'.acks && k in n'.acks[index]
        ensures TicketInv(n', index, k, n'.acks[index][k])
      {
        if !(index == |n.log| && k == kind) {
          assert index in n.acks && k in n.acks[index];
          assert TicketInv(n, index, k, n.acks[index][k]);
        }
      }
      forall e | e in n'.acked ensures EventInv(n', e) {
        assert EventInv(n, e);
      }
    }
  }

  lemma ApplyEntryKeeps(n: Node)
    requires ClientInv(n) && CanApply(n)
    ensures ClientInv(ApplyEntry(n))
  {
    var n' := ApplyEntry(n);
    forall index, k | index in n'.acks && k in n'.acks[index] ensures TicketInv(n', index, k, n'.acks[index][k]) {
      assert TicketInv(n, index, k, n.acks[index][k]);
    }
    forall e | e in n'.acked ensures EventInv(n', e) {
      assert EventInv(n, e);
    }
  }

  lemma ApplyTagKeeps(n: Node)
    requires ClientInv(n) && n.inHand
    ensures ClientInv(ApplyTag(n))
  {
    var n' := ApplyTag(n);
    var i := n.lastApplied + 1;
    forall index, k | index in n'.acks && k in n'.acks[index] ensures TicketInv(n', index, k, n'.acks[index][k]) {
      assert index in n.acks && TicketInv(n, index, k, n.acks[index][k]);
    }
    forall e | e in n'.acked ensures EventInv(n', e) {
      if e in n.acked {
        assert EventInv(n, e);
      } else {
        assert TicketInv(n, i, e.kind, e.ticket);
      }
    }
  }

  ghost predicate AllClients(s: State) {
    forall i {:trigger s.nodes[i]} :: i in s.nodes ==> ClientInv(s.nodes[i])
  }

  lemma HandleLeaves(cfg: Config, n: Node, a: Action)
    requires !a.WriteAt? && !a.ApplyEntryAt? && !a.ApplyTagAt?
    ensures LeavesTickets(n, Handle(cfg, n, a))
  {
    hide VoteLeader, Vote, VoteCallBack, ClientWrite, AppendEntries, ReplicateReply, HeartBeatCallBack;
    match a
    case TimeoutAt(i) => VoteLeaderCases(i, n);
    case VoteAt(_, req) => VoteCases(n, req);
    case VoteBack(call, res) => VoteBackCases(cfg, call.candidate, n, res);
    case DeliverTo(_, req) => AppendCases(cfg.repairs, n, req);
    case ReplicateBack(f, req, res) => ReplyCases(cfg, req.leader, n, f, req, res);
    case HeartBeatBack(_, _, res) => HeartBeatCases(n, res);
    case _ =>
  }

  lemma HandleClient(cfg: Config, n: Node, a: Action)
    requires ClientInv(n)
    ensures ClientInv(Handle(cfg, n, a))
  {
    hide ClientInv, LeavesTickets;
    match a
    case WriteAt(_, kind, key, value) => WriteKeeps(n, kind, key, value);
    case ApplyEntryAt(_) => if CanApply(n) { ApplyEntryKeeps(n); }
    case ApplyTagAt(_) => if n.inHand { ApplyTagKeeps(n); }
    case _ =>
      HandleLeaves(cfg, n, a);
      LeavesTicketsKeeps(n, Handle(cfg, n, a));
  }

  lemma NextClients(cfg: Config, s: State, a: Action)
    requires AllClients(s)
    ensures AllClients(Next(cfg, s, a))
  {
    hide Next, Enabled, Handle, ClientInv;
    if Enabled(cfg, s, a) {
      ActorHandles(cfg, s, a);
      HandleClient(cfg, s.nodes[Actor(a)], a);
    } else {
      NotEnabled(cfg, s, a);
    }
  }

  lemma {:induction false} ClientsHold(cfg: Config, run: seq<Action>)
    ensures AllClients(After(cfg, run))
  {
    if run != [] {
      ClientsHold(cfg, run[..|run| - 1]);
      NextClients(cfg, After(cfg, run[..|run| - 1]), run[|run| - 1]);
    }
  }

  /** A success answered in the leadership that accepted the request is for a slot with exactly that request's entry. */
  lemma ClientSuccess(cfg: Config, run: seq<Action>, i: Addr, e: AckEvent)
    requires i in After(cfg, run).nodes && e in After(cfg, run).nodes[i].acked && e.ticket.term == e.term
    ensures Written(e.kind, e.ticket) && e.slot == Some(e.ticket.entry)
    ensures 0 <= e.index <= After(cfg, run).nodes[i].lastApplied
  {
    ClientsHold(cfg, run);
    assert ClientInv(After(cfg, run).nodes[i]);
    assert EventInv(After(cfg, run).nodes[i], e);
  }

  // ----- is the acknowledged index committed? -----

  /** The request does not take the commit index below what the apply loop has in hand. */
  predicate KeepsInHand(cfg: Config, s: State, a: Action) {
    Enabled(cfg, s, a) && a.DeliverTo? ==> s.nodes[a.f].applyEnd <= Next(cfg, s, a).nodes[a.f].commit
  }

  ghost predicate RunKeepsInHand(cfg: Config, run: seq<Action>) {
    forall k :: 0 <= k < |run| ==> KeepsInHand(cfg, After(cfg, run[..k]), run[k])
  }

  ghost predicate InHand(n: Node) {
    n.applyEnd <= n.commit && LoopInv(n) && forall e :: e in n.acked ==> e.index <= e.commit
  }

  lemma HandleInHand(cfg: Config, n: Node, a: Action)
    requires InHand(n) && (a.DeliverTo? ==> n.applyEnd <= Handle(cfg, n, a).commit)
    ensures InHand(Handle(cfg, n, a))
  {
    hide VoteLeader, Vote, VoteCallBack, ClientWrite, AppendEntries, ReplicateReply, HeartBeatCallBack;
    match a
    case TimeoutAt(i) => VoteLeaderCases(i, n);
    case VoteAt(_, req) => VoteCases(n, req);
    case VoteBack(call, res) => VoteBackCases(cfg, call.candidate, n, res);
    case WriteAt(_, kind, key, value) => ClientWriteCases(n, kind, key, value);
    case DeliverTo(_, req) => AppendCases(cfg.repairs, n, req);
    case ReplicateBack(f, req, res) => ReplyCases(cfg, req.leader, n, f, req, res);
    case HeartBeatBack(_, _, res) => HeartBeatCases(n, res);
    case _ =>
  }

  lemma {:induction false} InHandHolds(cfg: Config, run: seq<Action>, i: Addr)
    requires RunKeepsInHand(cfg, run) && i in After(cfg, run).nodes
    ensures InHand(After(cfg, run).nodes[i])
  {
    if run != [] {
      hide Next, Enabled, Handle, InHand;
      var most := run[..|run| - 1];
      var a := run[|run| - 1];
      var s := After(cfg, most);
      assert forall k :: 0 <= k < |most| ==> most[..k] == run[..k];
      if Enabled(cfg, s, a) {
        ActorHandles(cfg, s, a);
        InHandHolds(cfg, most, i);
        if i == Actor(a) {
          assert KeepsInHand(cfg, s, a);
          if a.DeliverTo? { DeliversTo(a); }
          HandleInHand(cfg, s.nodes[i], a);
        }
      } else {
        NotEnabled(cfg, s, a);
        InHandHolds(cfg, most, i);
      }
    }
  }

  lemma DeliversTo(a: Action)
    requires a.DeliverTo?
    ensures Actor(a) == a.f
  {
  }

  /** Then every acknowledged index is at or below the commit index of its node at that moment. */
  lemma SuccessIsCommitted(cfg: Config, run: seq<Action>, i: Addr, e: AckEvent)
    requires RunKeepsInHand(cfg, run) && i in After(cfg, run).nodes && e in After(cfg, run).nodes[i].acked
    ensures e.index <= e.commit
  {
    InHandHolds(cfg, run, i);
  }

  lemma RepairedStep(cfg: Config, s: State, a: Action)
    requires cfg.repairs.commit && (Enabled(cfg, s, a) ==> InHand(s.nodes[Actor(a)]))
    ensures KeepsInHand(cfg, s, a)
  {
    if Enabled(cfg, s, a) && a.DeliverTo? {
      CommitNeverFalls(cfg.repairs, s.nodes[a.f], a.req);
    }
  }

  lemma {:induction false} RepairedInHand(cfg: Config, run: seq<Action>)
    requires cfg.repairs.commit
    ensures RunKeepsInHand(cfg, run)
  {
    if run != [] {
      var most := run[..|run| - 1];
      var s, a := After(cfg, most), run[|run| - 1];
      RepairedInHand(cfg, most);
      if Enabled(cfg, s, a) {
        InHandHolds(cfg, most, Actor(a));
      }
      RepairedStep(cfg, s, a);
      forall k | 0 <= k < |run| ensures KeepsInHand(cfg, After(cfg, run[..k]), run[k]) {
        if k < |most| {
          assert KeepsInHand(cfg, After(cfg, most[..k]), most[k]);
          assert most[..k] == run[..k];
        }
      }
    }
  }

  /** The repair of the follower's commit index is enough for it. */
  lemma RepairedSuccessIsCommitted(cfg: Config, run: seq<Action>, i: Addr, e: AckEvent)
    requires cfg.repairs.commit && i in After(cfg, run).nodes && e in After(cfg, run).nodes[i].acked
    ensures e.index <= e.commit
  {
    RepairedInHand(cfg, run);
    InHandHolds(cfg, run, i);
  }
}
