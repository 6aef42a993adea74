/**
 The handlers of one AirDBImpl node, as functions of its state: each body under `mu_` is one
 function. `Repairs` switches, one by one, the places where the code departs from Raft: with a
 flag off a handler does what src/airdb_impl.cc does, with the flag on what Raft asks for.
 */
module RaftNode {
  import opened Base
  import opened DataStore

  /**
   align:   cut a follower's conflicting suffix before appending (left commented out in the code)
   commit:  a follower's commit index never decreases and stays within what the request matched
   replies: replies of an older term are dropped, an election resets every peer
   self:    the node's own, never assigned, match index is not counted
   empty:   truncating to the empty log resets the cached last term
   */
  datatype Repairs = Repairs(align: bool, commit: bool, replies: bool, self: bool, empty: bool)

  const SHOWN := Repairs(false, false, false, false, false)
  const REPAIRED := Repairs(true, true, true, true, true)

  /** The repairs that safety needs: all but that of the cached last term. */
  predicate Mended(r: Repairs) {
    r.align && r.commit && r.replies && r.self
  }

  datatype Config = Config(members: seq<Addr>, repairs: Repairs)

  datatype Status = Leader | Candidate | Follower

  /** The four client requests that write the log; each has its own response slot in an SdkAck. */
  datatype Kind = PutReq | DelReq | LockReq | UnLockReq

  /** A request waiting for its acknowledgement: the term it was accepted in and what it logged. */
  datatype Ticket = Ticket(term: int, entry: Entry)

  /** A request answered with success, with the node's term, commit index and slot at that moment. */
  datatype AckEvent = AckEvent(index: int, kind: Kind, ticket: Ticket, term: int, commit: int, slot: Option<Entry>)

  datatype Node = Node(
    status: Status,
    heartbeats: nat,
    term: nat,
    leaderAddr: Addr,
    voteFor: map<int, Addr>,
    votePass: map<int, int>,
    log: seq<Entry>,            // slots below length_
    stale: seq<Entry>,          // slots a truncation left behind in the store
    lastLogTerm: int,           // the logger's cached last_log_term_
    nextIndex: map<Addr, int>,
    matchIndex: map<Addr, int>,
    replicating: set<Addr>,
    commit: int,
    applyEnd: int,              // the apply loop's snapshot of the commit index
    lastApplied: int,
    inHand: bool,               // the data of the entry after that is written, its tag is not
    store: Store,
    acks: map<int, map<Kind, Ticket>>,
    applied: seq<Entry>,        // history: the entries whose data was written, in order
    acked: set<AckEvent>)       // history: the requests answered with success

  datatype VoteReq = VoteReq(term: nat, candidate: Addr, lastIndex: int, lastTerm: int)
  datatype VoteRes = VoteRes(term: nat, pass: bool)
  datatype AppendReq = AppendReq(term: nat, leader: Addr, prevIndex: int, prevTerm: int,
                                 leaderCommit: int, entries: seq<Entry>)
  datatype AppendRes = AppendRes(term: nat, success: bool, logLength: int, busy: bool)

  const BUSY_GAP := 100000

  /** A freshly started node over empty stores. */
  const FRESH := Node(Follower, 0, 0, "", map[], map[], [], [], -1, map[], map[], {}, -1, -1, -1,
                      false, map[], map[], [], {})

  // ----- the binlog as the node sees it -----

  function Truncate(r: Repairs, n: Node, slot: int): Node
    requires slot < |n.log|
  {
    var k := if slot < -1 then 0 else slot + 1;
    n.(log := n.log[..k],
       stale := n.log[k..] + n.stale,
       lastLogTerm := if k > 0 then n.log[k - 1].term else if r.empty then -1 else n.lastLogTerm)
  }

  function WriteEntries(n: Node, es: seq<Entry>): Node {
    n.(log := n.log + es,
       stale := if |es| < |n.stale| then n.stale[|es|..] else [],
       lastLogTerm := if es == [] then n.lastLogTerm else LastTerm(es))
  }

  // ----- elections -----

  predicate Stands(n: Node) {
    n.status == Candidate || (n.status == Follower && n.heartbeats == 0)
  }

  function VoteLeader(self: Addr, n: Node): Node {
    if n.status == Leader then n
    else if !Stands(n) then n.(heartbeats := 0)
    else
      var t := n.term + 1;
      n.(term := t, status := Candidate, voteFor := n.voteFor[t := self],
         votePass := n.votePass[t := Lookup(n.votePass, t) + 1])
  }

  /** The request broadcast by a node that has just become a candidate. */
  function BallotOf(self: Addr, n: Node): VoteReq {
    VoteReq(n.term, self, |n.log| - 1, n.lastLogTerm)
  }

  function SwitchToFollower(n: Node, term: nat): Node {
    n.(status := Follower, term := term)
  }

  predicate Behind(n: Node, req: VoteReq) {
    req.lastTerm < n.lastLogTerm
    || (req.lastTerm == n.lastLogTerm && req.lastIndex < |n.log| - 1)
  }

  /** A leader does not even answer. */
  function Vote(n: Node, req: VoteReq): (Node, Option<VoteRes>) {
    if n.status == Leader then (n, None)
    else if req.term < n.term || Behind(n, req) then (n, Some(VoteRes(n.term, false)))
    else
      var n1 := if req.term > n.term then SwitchToFollower(n, req.term) else n;
      if n1.term in n1.voteFor && n1.voteFor[n1.term] != req.candidate then
        (n1, Some(VoteRes(n1.term, false)))
      else
        (n1.(voteFor := n1.voteFor[n1.term := req.candidate]), Some(VoteRes(n1.term, true)))
  }

  predicate Counts(n: Node, res: Option<VoteRes>) {
    n.status == Candidate && res.Some? && res.value.term == n.term && res.value.pass
  }

  predicate Wins(cfg: Config, n: Node, res: Option<VoteRes>) {
    Counts(n, res) && Lookup(n.votePass, n.term) + 1 > |cfg.members| / 2
  }

  function VoteCallBack(cfg: Config, self: Addr, n: Node, res: Option<VoteRes>): Node {
    if Counts(n, res) then
      var n1 := n.(votePass := n.votePass[n.term := Lookup(n.votePass, n.term) + 1]);
      if Wins(cfg, n, res) then SwitchToLeader(cfg, self, n1) else n1
    else if n.status == Candidate && res.Some? && res.value.term > n.term then
      SwitchToFollower(n, res.value.term)
    else n
  }

  // "Ping"
  function PingEntry(term: int): Entry {
    Entry(NOP, [80, 105, 110, 103], [], term)
  }

  /** The peers whose replication state an election resets. */
  predicate Resets(cfg: Config, self: Addr, n: Node, p: Addr) {
    p in cfg.members && p != self && (cfg.repairs.replies || p !in n.replicating)
  }

  function Reset(cfg: Config, self: Addr, n: Node, v: int): map<Addr, int> {
    map p | p in cfg.members && Resets(cfg, self, n, p) :: v
  }

  function StartReplicaLog(cfg: Config, self: Addr, n: Node): Node {
    WriteEntries(n.(nextIndex := n.nextIndex + Reset(cfg, self, n, |n.log|),
                    matchIndex := n.matchIndex + Reset(cfg, self, n, -1)),
                 [PingEntry(n.term)])
  }

  function SwitchToLeader(cfg: Config, self: Addr, n: Node): Node {
    StartReplicaLog(cfg, self, n.(status := Leader, leaderAddr := self))
  }

  // ----- log replication, leader side -----

  predicate CanReplicate(n: Node, f: Addr) {
    n.status == Leader && 0 <= Lookup(n.nextIndex, f) < |n.log|
  }

  function PrevTerm(log: seq<Entry>, prev: int): int
    requires prev < |log|
  {
    if prev >= 0 then log[prev].term else -1
  }

  /** The request of one round of ReplicateLog; after a failed call it carries a single entry. */
  function BuildAppend(self: Addr, n: Node, f: Addr, single: bool): AppendReq
    requires CanReplicate(n, f)
  {
    var index := Lookup(n.nextIndex, f);
    var batch := if single then 1 else |n.log| - index;
    AppendReq(n.term, self, index - 1, PrevTerm(n.log, index - 1), n.commit,
              n.log[index..index + batch])
  }

  function HeartBeat(self: Addr, n: Node): AppendReq {
    AppendReq(n.term, self, 0, 0, n.commit, [])
  }

  function MaxTerm(es: seq<Entry>): int {
    if es == [] then -1 else Max(MaxTerm(es[..|es| - 1]), es[|es| - 1].term)
  }

  /** How many of ms are counted as holding the log up to index. */
  function Matches(r: Repairs, self: Addr, match_: map<Addr, int>, index: int, ms: seq<Addr>): nat {
    if ms == [] then 0
    else Matches(r, self, match_, index, ms[..|ms| - 1])
         + (var m := ms[|ms| - 1];
            if Lookup(match_, m) == index && !(r.self && m == self) then 1 else 0)
  }

  function UpdateCommitIndex(cfg: Config, self: Addr, n: Node, index: int): Node {
    if Matches(cfg.repairs, self, n.matchIndex, index, cfg.members) >= |cfg.members| / 2 && index > n.commit
    then n.(commit := index)
    else n
  }

  /** The follower accepted the entries. */
  function Advance(cfg: Config, self: Addr, n: Node, f: Addr, req: AppendReq): Node {
    var last := req.prevIndex + |req.entries|;
    var n1 := n.(nextIndex := n.nextIndex[f := last + 1], matchIndex := n.matchIndex[f := last]);
    if MaxTerm(req.entries) == n.term then UpdateCommitIndex(cfg, self, n1, last) else n1
  }

  /** The follower refused: try an earlier index, and none past its length. */
  function BackUp(n: Node, f: Addr, logLength: int): Node {
    n.(nextIndex := n.nextIndex[f := Max(0, Min(Lookup(n.nextIndex, f) - 1, logLength))])
  }

  /** The rest of the round, once the call has returned; None is a failed call. */
  function ReplicateReply(cfg: Config, self: Addr, n: Node, f: Addr, req: AppendReq, res: Option<AppendRes>): Node {
    if res.Some? && res.value.term > n.term then SwitchToFollower(n, res.value.term)
    else if n.status != Leader || res.None? then n
    else if cfg.repairs.replies && req.term != n.term then n
    else if res.value.success then Advance(cfg, self, n, f, req)
    else if res.value.busy then n
    else BackUp(n, f, res.value.logLength)
  }

  function HeartBeatCallBack(n: Node, res: Option<AppendRes>): Node {
    if n.status == Leader && res.Some? && res.value.term > n.term
    then SwitchToFollower(n, res.value.term)
    else n
  }

  // ----- log replication, follower side -----

  /** How many of the entries the log already holds, by term, from position `from` on. */
  function Agreeing(log: seq<Entry>, from: nat, es: seq<Entry>): (k: nat)
    requires from <= |log|
    ensures k <= |es| && from + k <= |log|
    decreases |es|
  {
    if es == [] || from == |log| || log[from].term != es[0].term then 0
    else 1 + Agreeing(log, from + 1, es[1..])
  }

  /** Only the binlog of a node differs. */
  predicate OnlyLog(n: Node, n': Node) {
    n' == n.(log := n'.log, stale := n'.stale, lastLogTerm := n'.lastLogTerm)
  }

  /** Figure 2 of the Raft paper, AppendEntries steps 3 and 4. */
  function Align(r: Repairs, n: Node, from: nat, es: seq<Entry>): (n': Node)
    requires from <= |n.log|
    ensures OnlyLog(n, n')
  {
    var k := Agreeing(n.log, from, es);
    if k == |es| then n else WriteEntries(Truncate(r, n, from + k - 1), es[k..])
  }

  function AcceptEntries(r: Repairs, n: Node, req: AppendReq): (n': Node)
    requires req.prevIndex < |n.log|
    ensures OnlyLog(n, n')
  {
    if r.align then Align(r, n, Max(req.prevIndex + 1, 0), req.entries) else WriteEntries(n, req.entries)
  }

  /** The commit index a node takes from a request it has just accepted, with the log it has then. */
  function FollowerCommit(r: Repairs, log: seq<Entry>, commit: int, req: AppendReq): int {
    var c := Min(|log| - 1, req.leaderCommit);
    if !r.commit then c
    else if req.entries != [] then Max(commit, Min(req.prevIndex + |req.entries|, req.leaderCommit))
    else if 0 <= c && log[c].term == req.term then Max(commit, c)
    else commit
  }

  function Refusal(n: Node, busy: bool): AppendRes {
    AppendRes(n.term, false, |n.log|, busy)
  }

  datatype Verdict = Outdated | Beyond | Mismatch | Busy | Accepted

  /** The branch AppendEntriesImpl takes. */
  function Judge(n: Node, req: AppendReq): (v: Verdict)
    ensures req.entries != [] && (v == Mismatch || v == Accepted) ==> req.prevIndex < |n.log|
    ensures v == Mismatch || v == Beyond ==> req.entries != []
  {
    if req.term < n.term then Outdated
    else if req.entries == [] then Accepted
    else if req.prevIndex >= |n.log| then Beyond
    else if PrevTerm(n.log, req.prevIndex) != req.prevTerm then Mismatch
    else if n.commit - n.lastApplied > BUSY_GAP then Busy
    else Accepted
  }

  /** Any request that is not outdated makes the node a follower of its term. */
  function Follow(n: Node, req: AppendReq): Node {
    n.(status := Follower, term := req.term, leaderAddr := req.leader, heartbeats := n.heartbeats + 1)
  }

  function AppendEntries(r: Repairs, n: Node, req: AppendReq): (Node, AppendRes) {
    var n1 := Follow(n, req);
    match Judge(n, req)
    case Outdated => (n, Refusal(n, false))
    case Beyond => (n1, Refusal(n1, false))
    case Mismatch =>
      var n2 := Truncate(r, n1, req.prevIndex - 1);
      (n2, Refusal(n2, false))
    case Busy => (n1, Refusal(n1, true))
    case Accepted =>
      var n2 := if req.entries != [] then AcceptEntries(r, n1, req) else n1;
      (n2.(commit := FollowerCommit(r, n2.log, n.commit, req)), AppendRes(n1.term, true, 0, false))
  }

  // ----- client writes and the apply loop -----

  function EntryOf(kind: Kind, key: Bytes, value: Bytes, term: int): Entry {
    match kind
    case PutReq => Entry(PUT_OP, key, value, term)
    case DelReq => Entry(DELETE_OP, key, [], term)
    case LockReq => Entry(LOCK_OP, key, key, term)
    case UnLockReq => Entry(LOCK_OP, key, key, term)   // the code logs kLockOp here too
  }

  function ClientWrite(n: Node, kind: Kind, key: Bytes, value: Bytes): Node {
    if n.status != Leader then n
    else
      var e := EntryOf(kind, key, value, n.term);
      var waiting := if |n.log| in n.acks then n.acks[|n.log|] else map[];
      WriteEntries(n.(acks := n.acks[|n.log| := waiting[kind := Ticket(n.term, e)]]), [e])
  }

  /** The last index whose data is written. */
  function Stored(n: Node): int {
    if n.inHand then n.lastApplied + 1 else n.lastApplied
  }

  /** The apply loop takes a snapshot of the commit index when it is done with the last one. */
  function ApplyBegin(n: Node): Node {
    if !n.inHand && n.lastApplied == n.applyEnd && n.lastApplied < n.commit then n.(applyEnd := n.commit) else n
  }

  /** ReadSlot finds the next slot; otherwise the process asserts. Slots past the log may be stale. */
  predicate CanApply(n: Node) {
    !n.inHand && n.lastApplied < n.applyEnd && 0 <= n.lastApplied + 1 < |n.log| + |n.stale|
  }

  /** The part of a round without the lock: reads the next slot and writes its data. */
  function ApplyEntry(n: Node): Node
    requires CanApply(n)
  {
    var e := (n.log + n.stale)[n.lastApplied + 1];
    n.(store := StoreEntry(n.store, e), inHand := true, applied := n.applied + [e])
  }

  function SlotAt(log: seq<Entry>, index: int): Option<Entry> {
    if 0 <= index < |log| then Some(log[index]) else None
  }

  function AckEvents(n: Node, index: int): set<AckEvent> {
    if n.status == Leader && index in n.acks then
      set k | k in n.acks[index] ::
        AckEvent(index, k, n.acks[index][k], n.term, n.commit, SlotAt(n.log, index))
    else {}
  }

  /** The part under the lock: answers the responses waiting at the index and writes the tag. */
  function ApplyTag(n: Node): Node
    requires n.inHand
  {
    var i := n.lastApplied + 1;
    n.(store := StoreTag(n.store, i),
       lastApplied := i,
       inHand := false,
       acks := if n.status == Leader then n.acks - {i} else n.acks,
       acked := n.acked + AckEvents(n, i))
  }

  /** The answer to a Get; an absent key gets none at all. */
  datatype Answer = NotLeader(leader: Addr) | NoAnswer | Hit(value: Bytes) | Miss

  function Get(n: Node, key: Bytes): Answer {
    if n.status != Leader then NotLeader(n.leaderAddr)
    else if key !in n.store then NoAnswer
    else if n.store[key] != [] && n.store[key][0] == PUT_OP then Hit(n.store[key][1..])
    else Miss
  }

  /** The state once the loop has reached its snapshot of the commit index, with nothing in between. */
  function ApplyAll(n: Node): Node
    requires n.applyEnd < |n.log| + |n.stale| && -1 <= n.lastApplied
    decreases n.applyEnd - n.lastApplied
  {
    if CanApply(n) then ApplyAll(ApplyTag(ApplyEntry(n))) else n
  }

  /** Such a pass applies each entry up to the snapshot, once and in order. */
  lemma {:induction false} ApplyAllApplies(n: Node)
    requires !n.inHand && -1 <= n.lastApplied <= n.applyEnd < |n.log| + |n.stale|
    ensures var n' := ApplyAll(n);
            && n'.lastApplied == n.applyEnd && !n'.inHand
            && n'.applied == n.applied + (n.log + n.stale)[n.lastApplied + 1..n.applyEnd + 1]
    decreases n.applyEnd - n.lastApplied
  {
    hide StoreEntry, StoreTag, AckEvents;
    if CanApply(n) {
      var slots, i := n.log + n.stale, n.lastApplied + 1;
      ApplyAllApplies(ApplyTag(ApplyEntry(n)));
      assert [slots[i]] + slots[i + 1..n.applyEnd + 1] == slots[i..n.applyEnd + 1];
    }
  }

  /** It gives exactly the answers waiting for those entries. */
  lemma {:induction false} ApplyAllAnswers(n: Node, e: AckEvent)
    requires !n.inHand && -1 <= n.lastApplied <= n.applyEnd < |n.log| + |n.stale|
    ensures e in ApplyAll(n).acked <==>
              e in n.acked || (n.lastApplied < e.index <= n.applyEnd && e in AckEvents(n, e.index))
    decreases n.applyEnd - n.lastApplied
  {
    hide StoreEntry, StoreTag;
    if CanApply(n) {
      ApplyAllAnswers(ApplyTag(ApplyEntry(n)), e);
    }
  }

  // ----- what each handler touches -----

  lemma FollowKeepsLog(n: Node, req: AppendReq)
    ensures Follow(n, req).log == n.log && Follow(n, req).lastLogTerm == n.lastLogTerm
  {
  }

  /** A vote touches only the status, the term and the votes given. */
  lemma VoteCases(n: Node, req: VoteReq)
    ensures var (n', res) := Vote(n, req);
            && n' == n.(status := n'.status, term := n'.term, voteFor := n'.voteFor)
            && n'.term >= n.term && (n'.status != Follower ==> n'.status == n.status && n'.term == n.term)
            && (res.Some? && res.value.pass ==>
                 n'.term == req.term == res.value.term && n'.voteFor == n.voteFor[req.term := req.candidate]
                 && (req.term in n.voteFor ==> n.voteFor[req.term] == req.candidate))
            && ((res.Some? && res.value.pass) || n'.voteFor == n.voteFor)
  {
    if n.status == Leader {
    } else if req.term < n.term || Behind(n, req) {
    } else if req.term > n.term {
      assert Vote(n, req).0.term == req.term;
    }
  }

  /** A timeout touches the election state, and leaves a leader alone. */
  lemma VoteLeaderCases(self: Addr, n: Node)
    ensures var n' := VoteLeader(self, n);
            && n' == n.(status := n'.status, heartbeats := n'.heartbeats, term := n'.term,
                        voteFor := n'.voteFor, votePass := n'.votePass)
            && n'.term >= n.term && (n'.status == Leader ==> n' == n) && (n'.status == Candidate ==> n.term < n'.term)
  {
    if n.status == Leader {
    } else if !Stands(n) {
    }
  }

  lemma HeartBeatCases(n: Node, res: Option<AppendRes>)
    ensures var n' := HeartBeatCallBack(n, res);
            n' == n.(status := n'.status, term := n'.term) && n'.term >= n.term && (n'.status != Follower ==> n' == n)
  {
    if n.status == Leader && res.Some? && res.value.term > n.term {
    } else {
      assert HeartBeatCallBack(n, res) == n;
    }
  }

  /** A client's write touches a leader's log and the responses waiting. */
  lemma ClientWriteCases(n: Node, kind: Kind, key: Bytes, value: Bytes)
    ensures var n' := ClientWrite(n, kind, key, value);
            && n' == n.(acks := n'.acks, log := n'.log, stale := n'.stale, lastLogTerm := n'.lastLogTerm)
            && (if n.status == Leader then n'.log == n.log + [EntryOf(kind, key, value, n.term)] else n' == n)
  {
    hide EntryOf;
  }

  /** What a request may touch, and what it leaves of the term, the status and the commit index. */
  predicate AppendTouches(r: Repairs, n: Node, req: AppendReq, n': Node) {
    && n' == n.(status := n'.status, term := n'.term, leaderAddr := n'.leaderAddr, heartbeats := n'.heartbeats,
                log := n'.log, stale := n'.stale, lastLogTerm := n'.lastLogTerm, commit := n'.commit)
    && (if Judge(n, req) == Outdated then n' == n else n'.term == req.term >= n.term && n'.status == Follower)
    && (req.entries == [] ==> n'.log == n.log && n'.stale == n.stale && n'.lastLogTerm == n.lastLogTerm)
    && n'.commit == (if Judge(n, req) == Accepted then FollowerCommit(r, n'.log, n.commit, req) else n.commit)
  }

  lemma FollowTouches(r: Repairs, n: Node, req: AppendReq)
    requires Judge(n, req) == Beyond || Judge(n, req) == Busy
    ensures AppendTouches(r, n, req, Follow(n, req))
  {
    hide FollowerCommit;
  }

  lemma OutdatedTouches(r: Repairs, n: Node, req: AppendReq)
    requires Judge(n, req) == Outdated
    ensures AppendTouches(r, n, req, n)
  {
    hide FollowerCommit;
  }

  lemma MismatchTouches(r: Repairs, n: Node, req: AppendReq)
    requires Judge(n, req) == Mismatch
    ensures AppendTouches(r, n, req, Truncate(r, Follow(n, req), req.prevIndex - 1))
  {
    hide FollowerCommit, Truncate;
    TruncateCases(r, Follow(n, req), req.prevIndex - 1);
  }

  lemma AcceptedTouches(r: Repairs, n: Node, req: AppendReq, n2: Node)
    requires Judge(n, req) == Accepted && OnlyLog(Follow(n, req), n2) && (req.entries == [] ==> n2 == Follow(n, req))
    ensures AppendTouches(r, n, req, n2.(commit := FollowerCommit(r, n2.log, n.commit, req)))
  {
    hide FollowerCommit;
  }

  /** A request touches the log, its cached term, the commit index and who leads. */
  lemma AppendCases(r: Repairs, n: Node, req: AppendReq)
    ensures AppendTouches(r, n, req, AppendEntries(r, n, req).0)
  {
    hide FollowerCommit, AcceptEntries, Truncate, Judge, OnlyLog, AppendTouches, Refusal;
    match Judge(n, req)
    case Outdated => OutdatedTouches(r, n, req);
    case Mismatch => MismatchTouches(r, n, req);
    case Accepted =>
      var n1 := Follow(n, req);
      SameLog(n1);
      AcceptedTouches(r, n, req, if req.entries != [] then AcceptEntries(r, n1, req) else n1);
    case _ => FollowTouches(r, n, req);
  }

  lemma SameLog(n: Node)
    ensures OnlyLog(n, n)
  {
  }

  lemma TruncateCases(r: Repairs, n: Node, slot: int)
    requires slot < |n.log|
    ensures OnlyLog(n, Truncate(r, n, slot))
  {
  }

  /** A reply touches a leader's view of the peer and its commit index, or makes it a follower. */
  lemma ReplyCases(cfg: Config, self: Addr, n: Node, f: Addr, req: AppendReq, res: Option<AppendRes>)
    ensures var n' := ReplicateReply(cfg, self, n, f, req, res);
            && n' == n.(status := n'.status, term := n'.term,
                        nextIndex := n'.nextIndex, matchIndex := n'.matchIndex, commit := n'.commit)
            && n'.term >= n.term && (n'.status != Follower ==> n'.status == n.status && n'.term == n.term)
            && n'.commit >= n.commit
  {
    hide Advance, BackUp;
    if res.None? || n.status != Leader || (cfg.repairs.replies && req.term != n.term) || res.value.term > n.term {
    } else if res.value.success {
      AdvanceCases(cfg, self, n, f, req);
    } else {
      BackUpCases(n, f, res.value.logLength);
    }
  }

  lemma AdvanceCases(cfg: Config, self: Addr, n: Node, f: Addr, req: AppendReq)
    ensures var n' := Advance(cfg, self, n, f, req);
            && n' == n.(nextIndex := n'.nextIndex, matchIndex := n'.matchIndex, commit := n'.commit)
            && n'.commit >= n.commit
            && n'.matchIndex == n.matchIndex[f := req.prevIndex + |req.entries|]
            && n'.nextIndex == n.nextIndex[f := req.prevIndex + |req.entries| + 1]
  {
    hide Matches, MaxTerm;
  }

  lemma BackUpCases(n: Node, f: Addr, logLength: int)
    ensures BackUp(n, f, logLength) == n.(nextIndex := BackUp(n, f, logLength).nextIndex)
  {
  }

  lemma SwitchCases(cfg: Config, self: Addr, n: Node)
    ensures var n' := SwitchToLeader(cfg, self, n);
            n' == n.(status := Leader, leaderAddr := self, nextIndex := n'.nextIndex, matchIndex := n'.matchIndex,
                     log := n.log + [PingEntry(n.term)], stale := n'.stale, lastLogTerm := n'.lastLogTerm)
  {
    hide Reset, PingEntry;
  }

  /** What a counted vote, or one that is not, may touch. */
  predicate VoteBackTouches(cfg: Config, n: Node, res: Option<VoteRes>, n': Node) {
    && n' == n.(status := n'.status, term := n'.term, leaderAddr := n'.leaderAddr, votePass := n'.votePass,
                nextIndex := n'.nextIndex, matchIndex := n'.matchIndex,
                log := n'.log, stale := n'.stale, lastLogTerm := n'.lastLogTerm)
    && n'.term >= n.term
    && (Counts(n, res) ==> n'.term == n.term && n'.status == if Wins(cfg, n, res) then Leader else Candidate)
    && n'.votePass == (if Counts(n, res) then n.votePass[n.term := Lookup(n.votePass, n.term) + 1] else n.votePass)
    && (if Wins(cfg, n, res)
        then n'.status == Leader && n'.term == n.term && n'.log == n.log + [PingEntry(n.term)]
        else n'.log == n.log && n'.stale == n.stale && n'.lastLogTerm == n.lastLogTerm
             && (n'.status != Follower ==> n'.status == n.status && n'.term == n.term))
  }

  lemma WonTouches(cfg: Config, self: Addr, n: Node, res: Option<VoteRes>)
    requires Wins(cfg, n, res)
    ensures var n1 := n.(votePass := n.votePass[n.term := Lookup(n.votePass, n.term) + 1]);
            VoteBackTouches(cfg, n, res, SwitchToLeader(cfg, self, n1))
  {
    hide SwitchToLeader, PingEntry;
    SwitchCases(cfg, self, n.(votePass := n.votePass[n.term := Lookup(n.votePass, n.term) + 1]));
  }

  lemma CountedTouches(cfg: Config, n: Node, res: Option<VoteRes>)
    requires Counts(n, res) && !Wins(cfg, n, res)
    ensures VoteBackTouches(cfg, n, res, n.(votePass := n.votePass[n.term := Lookup(n.votePass, n.term) + 1]))
  {
  }

  lemma DroppedTouches(cfg: Config, n: Node, res: Option<VoteRes>)
    requires !Counts(n, res)
    ensures VoteBackTouches(cfg, n, res, n)
    ensures res.Some? && res.value.term > n.term ==> VoteBackTouches(cfg, n, res, SwitchToFollower(n, res.value.term))
  {
  }

  /** A counted vote touches the count, or starts a leadership; a refusal makes a follower. */
  lemma VoteBackCases(cfg: Config, self: Addr, n: Node, res: Option<VoteRes>)
    ensures VoteBackTouches(cfg, n, res, VoteCallBack(cfg, self, n, res))
  {
    hide SwitchToLeader, SwitchToFollower, VoteBackTouches, Counts, Wins;
    if Wins(cfg, n, res) {
      assert Counts(n, res) by { WinsCounts(cfg, n, res); }
      WonTouches(cfg, self, n, res);
    } else if Counts(n, res) {
      CountedTouches(cfg, n, res);
    } else {
      DroppedTouches(cfg, n, res);
    }
  }

  lemma WinsCounts(cfg: Config, n: Node, res: Option<VoteRes>)
    requires Wins(cfg, n, res)
    ensures Counts(n, res)
  {
  }
}
