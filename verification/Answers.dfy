/**
 When success answers can be trusted: for every run the exact conditions under which a node's
 answers are for committed indices and for the entries it applied, and for every state of a leader
 the exact condition under which no interleaving of its own work breaks the first.
 */
module Answers {
  import opened Base
  import opened DataStore
  import opened RaftNode
  import opened Cluster
  import opened Frames
  import opened StateMachineSafety
  import opened ClientSuccess

  // ----- where answers come from -----

  /** Action k of the run is a node answering what waits at the index it has just applied. */
  ghost predicate AnswerStep(cfg: Config, run: seq<Action>, k: int, i: Addr) {
    0 <= k < |run| && run[k] == ApplyTagAt(i) && Enabled(cfg, After(cfg, run[..k]), run[k])
  }

  /** The node answering, right before it does. */
  ghost function Answering(cfg: Config, run: seq<Action>, k: int, i: Addr): Node
    requires AnswerStep(cfg, run, k, i)
  {
    After(cfg, run[..k]).nodes[i]
  }

  ghost predicate AnsweredAt(cfg: Config, run: seq<Action>, k: int, i: Addr, e: AckEvent) {
    AnswerStep(cfg, run, k, i)
    && e in AckEvents(Answering(cfg, run, k, i), Answering(cfg, run, k, i).lastApplied + 1)
  }

  lemma HandleAcked(cfg: Config, n: Node, a: Action)
    ensures Handle(cfg, n, a).acked
            == n.acked + (if a.ApplyTagAt? && n.inHand then AckEvents(n, n.lastApplied + 1) else {})
  {
    hide VoteLeader, Vote, VoteCallBack, ClientWrite, AppendEntries, ReplicateReply, HeartBeatCallBack;
    hide AckEvents;
    match a
    case TimeoutAt(i) => VoteLeaderCases(i, n);
    case VoteAt(_, req) => VoteCases(n, req);
    case VoteBack(call, res) => VoteBackCases(cfg, call.candidate, n, res);
    case WriteAt(_, kind, key, value) => ClientWriteCases(n, kind, key, value);
    case DeliverTo(_, req) => AppendCases(cfg.repairs, n, req);
    case ReplicateBack(f, req, res) => ReplyCases(cfg, req.leader, n, f, req, res);
    case HeartBeatBack(_, _, res) => HeartBeatCases(n, res);
    case _ =>
  }

  lemma StepAcked(cfg: Config, s: State, a: Action, i: Addr)
    requires i in s.nodes && i in Next(cfg, s, a).nodes
    ensures Next(cfg, s, a).nodes[i].acked == s.nodes[i].acked
            + (if a == ApplyTagAt(i) && Enabled(cfg, s, a) then AckEvents(s.nodes[i], s.nodes[i].lastApplied + 1)
              else {})
  {
    hide Next, Handle, AckEvents;
    if Enabled(cfg, s, a) {
      ActorHandles(cfg, s, a);
      HandleAcked(cfg, s.nodes[Actor(a)], a);
    } else {
      NotEnabled(cfg, s, a);
    }
  }

  lemma LastAcked(cfg: Config, run: seq<Action>, i: Addr)
    requires run != [] && i in After(cfg, run).nodes && i in After(cfg, run[..|run| - 1]).nodes
    ensures var s, a := After(cfg, run[..|run| - 1]), run[|run| - 1];
            After(cfg, run).nodes[i].acked == s.nodes[i].acked
            + (if a == ApplyTagAt(i) && Enabled(cfg, s, a) then AckEvents(s.nodes[i], s.nodes[i].lastApplied + 1)
              else {})
  {
    hide Next, Enabled, AckEvents;
    StepAcked(cfg, After(cfg, run[..|run| - 1]), run[|run| - 1], i);
  }

  /** The last action of the run aside, answering steps are those of the shorter run. */
  lemma AnsweredEarlier(cfg: Config, run: seq<Action>, k: int, i: Addr, e: AckEvent)
    requires run != [] && k < |run| - 1
    ensures AnsweredAt(cfg, run, k, i, e) <==> AnsweredAt(cfg, run[..|run| - 1], k, i, e)
  {
    hide Enabled, AckEvents, After;
    if 0 <= k { assert run[..|run| - 1][..k] == run[..k]; }
  }

  lemma AnsweredLast(cfg: Config, run: seq<Action>, i: Addr, e: AckEvent)
    requires run != [] && i in After(cfg, run[..|run| - 1]).nodes
    ensures var s, a := After(cfg, run[..|run| - 1]), run[|run| - 1];
            AnsweredAt(cfg, run, |run| - 1, i, e)
            <==> a == ApplyTagAt(i) && Enabled(cfg, s, a) && e in AckEvents(s.nodes[i], s.nodes[i].lastApplied + 1)
  {
    hide Enabled, AckEvents, After;
  }

  /** A node has given exactly the answers of its answering steps. */
  lemma {:induction false} AckedOrigin(cfg: Config, run: seq<Action>, i: Addr, e: AckEvent)
    requires i in After(cfg, run).nodes
    ensures e in After(cfg, run).nodes[i].acked <==> exists k :: AnsweredAt(cfg, run, k, i, e)
  {
    hide Next, Enabled, AckEvents, After, AnsweredAt;
    if run == [] {
      FreshAcked(cfg, i);
    } else {
      var most := run[..|run| - 1];
      ReplayHolds(cfg, run, |run| - 1);
      AckedOrigin(cfg, most, i, e);
      LastAcked(cfg, run, i);
      AnsweredLast(cfg, run, i, e);
      AnsweredByEither(cfg, run, most, i, e);
    }
  }

  lemma AnsweredByEither(cfg: Config, run: seq<Action>, most: seq<Action>, i: Addr, e: AckEvent)
    requires run != [] && most == run[..|run| - 1]
    ensures (exists k :: AnsweredAt(cfg, run, k, i, e))
            <==> AnsweredAt(cfg, run, |run| - 1, i, e) || (exists k :: AnsweredAt(cfg, most, k, i, e))
  {
    hide Enabled, AckEvents, After;
    if k :| AnsweredAt(cfg, run, k, i, e) {
      if k < |run| - 1 { AnsweredEarlier(cfg, run, k, i, e); }
    }
    if k :| AnsweredAt(cfg, most, k, i, e) {
      AnsweredEarlier(cfg, run, k, i, e);
    }
  }

  lemma FreshAcked(cfg: Config, i: Addr)
    requires i in After(cfg, []).nodes
    ensures After(cfg, []).nodes[i].acked == {} && forall k, e :: !AnsweredAt(cfg, [], k, i, e)
  {
  }

  // ----- committed, for every run -----

  predicate Waiting(n: Node, index: int) {
    index in n.acks && n.acks[index] != map[]
  }

  /** If this action answers for node i, the index it answers for is committed there. */
  predicate AnswersInTime(cfg: Config, s: State, a: Action, i: Addr) {
    a == ApplyTagAt(i) && Enabled(cfg, s, a) && s.nodes[i].status == Leader
      && Waiting(s.nodes[i], s.nodes[i].lastApplied + 1)
    ==> s.nodes[i].lastApplied + 1 <= s.nodes[i].commit
  }

  lemma WaitingAnswered(n: Node, index: int)
    requires n.status == Leader && Waiting(n, index)
    ensures exists e :: e in AckEvents(n, index)
  {
    var k :| k in n.acks[index];
    assert AckEvent(index, k, n.acks[index][k], n.term, n.commit, SlotAt(n.log, index)) in AckEvents(n, index);
  }

  lemma AnsweredFields(n: Node, index: int, e: AckEvent)
    requires e in AckEvents(n, index)
    ensures n.status == Leader && Waiting(n, index) && e.kind in n.acks[index] && e.ticket == n.acks[index][e.kind]
    ensures e.index == index && e.term == n.term && e.commit == n.commit && e.slot == SlotAt(n.log, index)
  {
  }

  lemma InTimeIsCommitted(cfg: Config, run: seq<Action>, i: Addr, k: int, e: AckEvent)
    requires AnsweredAt(cfg, run, k, i, e) && AnswersInTime(cfg, After(cfg, run[..k]), run[k], i)
    ensures e.index <= e.commit
  {
    hide Enabled, AckEvents, After;
    AnsweredFields(Answering(cfg, run, k, i), Answering(cfg, run, k, i).lastApplied + 1, e);
  }

  lemma LateIsUncommitted(cfg: Config, run: seq<Action>, i: Addr, k: int) returns (e: AckEvent)
    requires 0 <= k < |run| && !AnswersInTime(cfg, After(cfg, run[..k]), run[k], i)
    ensures AnsweredAt(cfg, run, k, i, e) && e.index > e.commit
  {
    hide AckEvents, After;
    var n := Answering(cfg, run, k, i);
    WaitingAnswered(n, n.lastApplied + 1);
    e :| e in AckEvents(n, n.lastApplied + 1);
    AnsweredFields(n, n.lastApplied + 1, e);
  }

  /**
   In every run, with any choice of repairs, all answers of a node are for indices committed there
   at that moment exactly when every step that answers for it does so in time.
   */
  lemma CommittedExactly(cfg: Config, run: seq<Action>, i: Addr)
    requires i in After(cfg, run).nodes
    ensures (forall e :: e in After(cfg, run).nodes[i].acked ==> e.index <= e.commit)
            <==> (forall k :: 0 <= k < |run| ==> AnswersInTime(cfg, After(cfg, run[..k]), run[k], i))
  {
    hide AnsweredAt, AnswersInTime, After;
    if forall k :: 0 <= k < |run| ==> AnswersInTime(cfg, After(cfg, run[..k]), run[k], i) {
      forall e | e in After(cfg, run).nodes[i].acked ensures e.index <= e.commit {
        AckedOrigin(cfg, run, i, e);
        var k :| AnsweredAt(cfg, run, k, i, e);
        AnsweredInRun(cfg, run, k, i, e);
        InTimeIsCommitted(cfg, run, i, k, e);
      }
    } else {
      var k :| 0 <= k < |run| && !AnswersInTime(cfg, After(cfg, run[..k]), run[k], i);
      var e := LateIsUncommitted(cfg, run, i, k);
      AckedOrigin(cfg, run, i, e);
    }
  }

  lemma AnsweredInRun(cfg: Config, run: seq<Action>, k: int, i: Addr, e: AckEvent)
    requires AnsweredAt(cfg, run, k, i, e)
    ensures 0 <= k < |run|
  {
  }

  // ----- the applied entry, for every run -----

  /** A request of the current leadership waits at the index. */
  predicate OwnWaiting(n: Node, index: int) {
    index in n.acks && exists k :: k in n.acks[index] && n.acks[index][k].term == n.term
  }

  /** If this action answers a request of the current leadership, the slot is still the one the loop read. */
  predicate SlotUnmoved(cfg: Config, s: State, a: Action, i: Addr) {
    a == ApplyTagAt(i) && Enabled(cfg, s, a) && s.nodes[i].status == Leader
    && OwnWaiting(s.nodes[i], s.nodes[i].lastApplied + 1)
    ==> 0 <= s.nodes[i].lastApplied + 1 < |s.nodes[i].applied|
        && SlotAt(s.nodes[i].log, s.nodes[i].lastApplied + 1) == Some(s.nodes[i].applied[s.nodes[i].lastApplied + 1])
  }

  /** The answers of a leadership for its own requests are for the entries the node applied. */
  ghost predicate AnswersApplied(n: Node) {
    forall e :: e in n.acked && e.ticket.term == e.term ==>
      0 <= e.index < |n.applied| && n.applied[e.index] == e.ticket.entry
  }

  /** What an answering step of a run says, about the run's end. */
  lemma AnswerMeans(cfg: Config, run: seq<Action>, k: int, i: Addr, e: AckEvent)
    requires AnsweredAt(cfg, run, k, i, e) && i in After(cfg, run).nodes
    ensures var n, last := Answering(cfg, run, k, i), After(cfg, run).nodes[i];
            && e in last.acked && n.status == Leader && e.index == n.lastApplied + 1 && e.slot == SlotAt(n.log, e.index)
            && 0 <= e.index < |n.applied| && n.applied <= last.applied
            && (e.ticket.term == e.term ==> OwnWaiting(n, e.index) && e.slot == Some(e.ticket.entry))
  {
    var n := Answering(cfg, run, k, i);
    AckedOrigin(cfg, run, i, e);
    AnsweredFields(n, n.lastApplied + 1, e);
    ReplayHolds(cfg, run, k);
    assert n.applied <= After(cfg, run).nodes[i].applied;
    ClientsHold(cfg, run[..k]);
    assert ClientInv(n) && n.inHand;
    if e.ticket.term == e.term { ClientSuccess.ClientSuccess(cfg, run, i, e); }
  }

  /**
   In every run, with any choice of repairs, a node applied exactly the entries of the requests it
   answered in the leadership that accepted them, exactly when at every step that answers such a
   request the slot has not moved since the loop read it.
   */
  lemma AppliedExactly(cfg: Config, run: seq<Action>, i: Addr)
    requires i in After(cfg, run).nodes
    ensures AnswersApplied(After(cfg, run).nodes[i])
            <==> (forall k :: 0 <= k < |run| ==> SlotUnmoved(cfg, After(cfg, run[..k]), run[k], i))
  {
    hide AckEvents, Enabled, AnsweredAt, SlotUnmoved, After;
    if forall k :: 0 <= k < |run| ==> SlotUnmoved(cfg, After(cfg, run[..k]), run[k], i) {
      forall e | e in After(cfg, run).nodes[i].acked && e.ticket.term == e.term
        ensures 0 <= e.index < |After(cfg, run).nodes[i].applied|
        ensures After(cfg, run).nodes[i].applied[e.index] == e.ticket.entry
      {
        AckedOrigin(cfg, run, i, e);
        var k :| AnsweredAt(cfg, run, k, i, e);
        AnsweredInRun(cfg, run, k, i, e);
        UnmovedIsApplied(cfg, run, i, k, e);
      }
    } else {
      var k :| 0 <= k < |run| && !SlotUnmoved(cfg, After(cfg, run[..k]), run[k], i);
      MovedSlotAnswers(cfg, run, k, i);
    }
  }

  lemma UnmovedIsApplied(cfg: Config, run: seq<Action>, i: Addr, k: int, e: AckEvent)
    requires i in After(cfg, run).nodes && AnsweredAt(cfg, run, k, i, e) && e.ticket.term == e.term
    requires SlotUnmoved(cfg, After(cfg, run[..k]), run[k], i)
    ensures 0 <= e.index < |After(cfg, run).nodes[i].applied|
    ensures After(cfg, run).nodes[i].applied[e.index] == e.ticket.entry
  {
    hide AckEvents, Enabled, After;
    AnswerMeans(cfg, run, k, i, e);
    assert After(cfg, run).nodes[i].applied[e.index] == Answering(cfg, run, k, i).applied[e.index];
  }

  lemma MovedSlotAnswers(cfg: Config, run: seq<Action>, k: int, i: Addr)
    requires i in After(cfg, run).nodes && 0 <= k < |run| && !SlotUnmoved(cfg, After(cfg, run[..k]), run[k], i)
    ensures !AnswersApplied(After(cfg, run).nodes[i])
  {
    var n := Answering(cfg, run, k, i);
    var index := n.lastApplied + 1;
    var kind :| kind in n.acks[index] && n.acks[index][kind].term == n.term;
    var e := AckEvent(index, kind, n.acks[index][kind], n.term, n.commit, SlotAt(n.log, index));
    assert e in AckEvents(n, index);
    assert AnsweredAt(cfg, run, k, i, e);
    AnswerMeans(cfg, run, k, i, e);
    assert After(cfg, run).nodes[i].applied[index] == n.applied[index];
  }

  /** With the repairs safety needs no slot moves under the loop: a success is for the entry applied. */
  lemma SuccessIsApplied(cfg: Config, run: seq<Action>, i: Addr, e: AckEvent)
    requires WellFormed(cfg) && Mended(cfg.repairs)
    requires i in After(cfg, run).nodes && e in After(cfg, run).nodes[i].acked && e.ticket.term == e.term
    ensures 0 <= e.index < |After(cfg, run).nodes[i].applied|
    ensures After(cfg, run).nodes[i].applied[e.index] == e.ticket.entry
  {
    hide Next;
    forall k | 0 <= k < |run| ensures SlotUnmoved(cfg, After(cfg, run[..k]), run[k], i) {
      if AnswerStep(cfg, run, k, i) {
        SafetyHolds(cfg, run[..k]);
        ClientsHold(cfg, run[..k]);
        AppliedSlot(After(cfg, run[..k]), i);
      }
    }
    AppliedExactly(cfg, run, i);
  }

  lemma AppliedSlot(s: State, i: Addr)
    requires SafetyInv(s) && i in s.nodes && s.nodes[i].inHand && ClientInv(s.nodes[i])
    ensures var n := s.nodes[i];
            && 0 <= n.lastApplied + 1 < |n.applied|
            && SlotAt(n.log, n.lastApplied + 1) == Some(n.applied[n.lastApplied + 1])
  {
    assert AppliesCommitted(s.nodes[i]);
  }

  /** And it is durable: no node, ever, applies anything else at that index. */
  lemma SuccessIsDurable(cfg: Config, run: seq<Action>, a: nat, i: Addr, e: AckEvent, b: nat, j: Addr)
    requires WellFormed(cfg) && Mended(cfg.repairs) && a <= |run| && b <= |run|
    requires i in After(cfg, run[..a]).nodes && e in After(cfg, run[..a]).nodes[i].acked && e.ticket.term == e.term
    requires j in After(cfg, run[..b]).nodes && e.index < |After(cfg, run[..b]).nodes[j].applied|
    ensures 0 <= e.index && After(cfg, run[..b]).nodes[j].applied[e.index] == e.ticket.entry
  {
    SuccessIsApplied(cfg, run[..a], i, e);
    StateMachineSafety.StateMachineSafety(cfg, run, a, b, i, j, e.index);
  }

  // ----- a leader's own work, in any order -----

  /** What a leader does while it leads, and the replies it gets. */
  datatype Work =
    | Request(kind: Kind, key: Bytes, value: Bytes)
    | Reply(f: Addr, req: AppendReq, res: Option<AppendRes>)
    | HeartBeatReply(beatRes: Option<AppendRes>)
    | BeginPass
    | StoreNext
    | AnswerNext

  function Do(cfg: Config, self: Addr, n: Node, w: Work): Node {
    match w
    case Request(kind, key, value) => ClientWrite(n, kind, key, value)
    case Reply(f, req, res) => ReplicateReply(cfg, self, n, f, req, res)
    case HeartBeatReply(res) => HeartBeatCallBack(n, res)
    case BeginPass => ApplyBegin(n)
    case StoreNext => if CanApply(n) then ApplyEntry(n) else n
    case AnswerNext => if n.inHand then ApplyTag(n) else n
  }

  function DoAll(cfg: Config, self: Addr, n: Node, ws: seq<Work>): Node
    decreases |ws|
  {
    if ws == [] then n else DoAll(cfg, self, Do(cfg, self, n, ws[0]), ws[1..])
  }

  /** A leader as every run has it: its apply loop finds its slots and has answered only what it applied. */
  ghost predicate AtWork(n: Node) {
    && n.status == Leader && -1 <= n.lastApplied && Stored(n) <= n.applyEnd && n.applyEnd < |n.log| + |n.stale|
    && forall e :: e in n.acked ==> e.index <= n.lastApplied
  }

  /** No response waits past the commit index for an entry of the pass. */
  predicate NoneWaitsPastCommit(n: Node) {
    forall i :: i in n.acks && n.lastApplied < i <= n.applyEnd && n.acks[i] != map[] ==> i <= n.commit
  }

  /** The pass is over or within the commit index, or no response waits past it and none can come to. */
  predicate SafeToWork(n: Node) {
    n.applyEnd <= n.lastApplied || n.applyEnd <= n.commit || (n.applyEnd < |n.log| && NoneWaitsPastCommit(n))
  }

  ghost predicate AnswersCommitted(n: Node, n': Node) {
    forall e :: e in n'.acked && e !in n.acked ==> e.index <= e.commit
  }

  /** While it leads, the node stays safe; when it does not, it answers nothing. */
  ghost predicate WorksSafely(n: Node) {
    && -1 <= n.lastApplied && Stored(n) <= n.applyEnd && (n.status == Leader ==> SafeToWork(n))
  }

  lemma DoSafely(cfg: Config, self: Addr, n: Node, w: Work)
    requires WorksSafely(n)
    ensures WorksSafely(Do(cfg, self, n, w)) && n.acked <= Do(cfg, self, n, w).acked
    ensures AnswersCommitted(n, Do(cfg, self, n, w))
  {
    hide ReplicateReply, ClientWrite, HeartBeatCallBack, ApplyBegin, ApplyEntry, ApplyTag, CanApply, WorksSafely;
    match w
    case Request(kind, key, value) => RequestSafely(n, kind, key, value);
    case Reply(f, req, res) =>
      ReplyCases(cfg, self, n, f, req, res);
      TouchedSafely(n, ReplicateReply(cfg, self, n, f, req, res));
    case HeartBeatReply(res) =>
      HeartBeatCases(n, res);
      TouchedSafely(n, HeartBeatCallBack(n, res));
    case BeginPass => BeginSafely(n);
    case StoreNext => if CanApply(n) { StoreSafely(n); }
    case AnswerNext => if n.inHand { AnswerSafely(n); }
  }

  /** Replies only raise the commit index, or end the leadership. */
  lemma TouchedSafely(n: Node, n': Node)
    requires WorksSafely(n)
    requires n' == n.(status := n'.status, term := n'.term,
                      nextIndex := n'.nextIndex, matchIndex := n'.matchIndex, commit := n'.commit)
    requires (n'.status != Follower ==> n'.status == n.status) && n'.commit >= n.commit
    ensures WorksSafely(n')
  {
  }

  lemma BeginSafely(n: Node)
    requires WorksSafely(n)
    ensures WorksSafely(ApplyBegin(n)) && ApplyBegin(n).acked == n.acked
  {
  }

  lemma StoreSafely(n: Node)
    requires WorksSafely(n) && CanApply(n)
    ensures WorksSafely(ApplyEntry(n)) && ApplyEntry(n).acked == n.acked
  {
    hide StoreEntry;
  }

  lemma RequestSafely(n: Node, kind: Kind, key: Bytes, value: Bytes)
    requires WorksSafely(n)
    ensures WorksSafely(ClientWrite(n, kind, key, value)) && ClientWrite(n, kind, key, value).acked == n.acked
  {
    hide EntryOf;
    var n' := ClientWrite(n, kind, key, value);
    if n.status == Leader && n.applyEnd < |n.log| && NoneWaitsPastCommit(n) {
      assert NoneWaitsPastCommit(n');
    }
  }

  lemma AnswerSafely(n: Node)
    requires WorksSafely(n) && n.inHand
    ensures WorksSafely(ApplyTag(n)) && n.acked <= ApplyTag(n).acked && AnswersCommitted(n, ApplyTag(n))
  {
    hide StoreTag;
    forall e | e in ApplyTag(n).acked && e !in n.acked ensures e.index <= e.commit {
      AnsweredFields(n, n.lastApplied + 1, e);
    }
  }

  lemma {:induction false} SafeWorkStays(cfg: Config, self: Addr, n: Node, ws: seq<Work>)
    requires WorksSafely(n)
    ensures n.acked <= DoAll(cfg, self, n, ws).acked && AnswersCommitted(n, DoAll(cfg, self, n, ws))
    decreases |ws|
  {
    hide Do, WorksSafely;
    if ws != [] {
      DoSafely(cfg, self, n, ws[0]);
      SafeWorkStays(cfg, self, Do(cfg, self, n, ws[0]), ws[1..]);
    }
  }

  lemma DoAllMore(cfg: Config, self: Addr, n: Node, w: Work, ws: seq<Work>)
    ensures DoAll(cfg, self, n, [w] + ws) == DoAll(cfg, self, Do(cfg, self, n, w), ws)
  {
    assert ([w] + ws)[1..] == ws;
  }

  /** The work makes an answer past the commit index. */
  ghost predicate Breaks(cfg: Config, self: Addr, n: Node, ws: seq<Work>) {
    !AnswersCommitted(n, DoAll(cfg, self, n, ws))
  }

  /** Work that answers late after one piece of work that answers nothing does so from before it. */
  lemma BreaksLater(cfg: Config, self: Addr, n: Node, w: Work, ws: seq<Work>)
    requires Breaks(cfg, self, Do(cfg, self, n, w), ws) && n.acked <= Do(cfg, self, n, w).acked
    ensures Breaks(cfg, self, n, [w] + ws)
  {
    DoAllMore(cfg, self, n, w, ws);
  }

  /** Applying up to a response that waits past the commit index answers it there. */
  lemma {:induction false} PassBreaks(cfg: Config, self: Addr, n: Node, index: int) returns (ws: seq<Work>)
    requires AtWork(n) && n.lastApplied < index <= n.applyEnd && n.commit < index && Waiting(n, index)
    ensures Breaks(cfg, self, n, ws)
    decreases index - n.lastApplied, if n.inHand then 0 else 1
  {
    if !n.inHand {
      StoresNext(n);
      ws := PassBreaks(cfg, self, ApplyEntry(n), index);
      BreaksLater(cfg, self, n, StoreNext, ws);
      ws := [StoreNext] + ws;
    } else if n.lastApplied + 1 == index {
      AnswersHere(n, index);
      assert DoAll(cfg, self, ApplyTag(n), []) == ApplyTag(n);
      DoAllMore(cfg, self, n, AnswerNext, []);
      ws := [AnswerNext] + [];
    } else {
      AnswersNext(n, index);
      ws := PassBreaks(cfg, self, ApplyTag(n), index);
      BreaksLater(cfg, self, n, AnswerNext, ws);
      ws := [AnswerNext] + ws;
    }
  }

  lemma StoresNext(n: Node)
    requires AtWork(n) && !n.inHand && n.lastApplied < n.applyEnd
    ensures CanApply(n) && AtWork(ApplyEntry(n)) && ApplyEntry(n).inHand && ApplyEntry(n).acked == n.acked
    ensures var n' := ApplyEntry(n);
            n'.lastApplied == n.lastApplied && n'.applyEnd == n.applyEnd && n'.commit == n.commit && n'.acks == n.acks
  {
  }

  lemma AnswersHere(n: Node, index: int)
    requires AtWork(n) && n.inHand && index == n.lastApplied + 1 && n.commit < index && Waiting(n, index)
    ensures !AnswersCommitted(n, ApplyTag(n))
  {
    WaitingAnswered(n, index);
    var e :| e in AckEvents(n, index);
    AnsweredFields(n, index, e);
    assert e in ApplyTag(n).acked;
  }

  lemma AnswersNext(n: Node, index: int)
    requires AtWork(n) && n.inHand && n.lastApplied + 1 < index && Waiting(n, index)
    ensures var n' := ApplyTag(n);
            && AtWork(n') && !n'.inHand && n'.lastApplied == n.lastApplied + 1 && n'.applyEnd == n.applyEnd
            && n'.commit == n.commit && Waiting(n', index) && n.acked <= n'.acked
  {
    hide StoreTag;
    forall e | e in ApplyTag(n).acked ensures e.index <= n.lastApplied + 1 {
      if e !in n.acked { AnsweredFields(n, n.lastApplied + 1, e); }
    }
  }

  /** Requests fill the log up to the end of the pass, and the last of them waits there. */
  lemma {:induction false} RequestsBreak(cfg: Config, self: Addr, n: Node) returns (ws: seq<Work>)
    requires AtWork(n) && n.lastApplied < n.applyEnd && n.commit < n.applyEnd && |n.log| <= n.applyEnd
    ensures Breaks(cfg, self, n, ws)
    decreases n.applyEnd - |n.log|
  {
    var w := Request(PutReq, [], []);
    var n' := ClientWrite(n, PutReq, [], []);
    RequestWaits(n);
    if |n.log| == n.applyEnd {
      ws := PassBreaks(cfg, self, n', n.applyEnd);
    } else {
      ws := RequestsBreak(cfg, self, n');
    }
    BreaksLater(cfg, self, n, w, ws);
    ws := [w] + ws;
  }

  lemma RequestWaits(n: Node)
    requires AtWork(n)
    ensures var n' := ClientWrite(n, PutReq, [], []);
            && AtWork(n') && |n'.log| == |n.log| + 1 && Waiting(n', |n.log|) && n'.acked == n.acked
            && n'.lastApplied == n.lastApplied && n'.applyEnd == n.applyEnd && n'.commit == n.commit
  {
    assert PutReq in ClientWrite(n, PutReq, [], []).acks[|n.log|];
  }

  /**
   From a leader's state, every interleaving of requests, replies and apply work answers committed
   indices only, exactly when the state is safe to work from.
   */
  lemma WorkAnswersCommitted(cfg: Config, self: Addr, n: Node)
    requires AtWork(n)
    ensures (forall ws :: AnswersCommitted(n, DoAll(cfg, self, n, ws))) <==> SafeToWork(n)
  {
    if SafeToWork(n) {
      forall ws ensures AnswersCommitted(n, DoAll(cfg, self, n, ws)) {
        SafeWorkStays(cfg, self, n, ws);
      }
    } else if |n.log| <= n.applyEnd {
      var ws := RequestsBreak(cfg, self, n);
      assert !AnswersCommitted(n, DoAll(cfg, self, n, ws));
    } else {
      var i :| i in n.acks && n.lastApplied < i <= n.applyEnd && n.acks[i] != map[] && i > n.commit;
      var ws := PassBreaks(cfg, self, n, i);
      assert !AnswersCommitted(n, DoAll(cfg, self, n, ws));
    }
  }
}
