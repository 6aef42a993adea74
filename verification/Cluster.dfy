/**
 The cluster: every node, the messages sent so far and the history the proofs speak of. An
 `Action` is one handler run on one node; `Next` is its effect and does nothing when the action
 is not enabled, so every sequence of actions is a run. Messages are never removed from the
 network, which covers loss, delay, reordering and duplication.
 */
module Cluster {
  import opened Base
  import opened RaftNode

  /** One asynchronous Vote call; it is called back at most once. */
  datatype VoteCall = VoteCall(candidate: Addr, term: int, peer: Addr)
  datatype VoteReply = VoteReply(call: VoteCall, res: VoteRes)
  datatype AppendMsg = AppendMsg(dest: Addr, req: AppendReq)
  datatype AppendReply = AppendReply(src: Addr, req: AppendReq, res: AppendRes)

  // History.
  datatype Crown = Crown(term: int, leader: Addr)
  /** A leadership: the votes that gave it, the log it started from and the log its leader wrote. */
  datatype Reign = Reign(leader: Addr, voters: set<Addr>, base: seq<Entry>, log: seq<Entry>)
  /** A node accepted, or as leader wrote, entries of this term up to index. */
  datatype Ack = Ack(term: int, node: Addr, index: int)
  /** A leader moved its commit index to this index in this term. */
  datatype Commit = Commit(term: int, index: int)
  datatype Authored = Authored(author: Addr, entry: Entry)

  datatype State = State(
    nodes: map<Addr, Node>,
    pending: set<VoteCall>,
    ballots: set<VoteReq>,
    voteReplies: set<VoteReply>,
    appends: set<AppendMsg>,
    appendReplies: set<AppendReply>,
    granted: set<VoteCall>,      // the calls whose vote was counted
    crowns: set<Crown>,
    reigns: map<int, Reign>,
    acks: set<Ack>,
    commits: set<Commit>,
    wrote: set<Authored>)

  datatype Action =
    | TimeoutAt(i: Addr)
    | VoteAt(j: Addr, ballot: VoteReq)
    | VoteBack(call: VoteCall, voteRes: Option<VoteRes>)
    | WriteAt(i: Addr, kind: Kind, key: Bytes, value: Bytes)
    | ReplicateTo(i: Addr, f: Addr, single: bool)
    | DeliverTo(f: Addr, req: AppendReq)
    | ReplicateBack(f: Addr, req: AppendReq, res: Option<AppendRes>)
    | HeartBeatAt(i: Addr)
    | HeartBeatBack(f: Addr, req: AppendReq, res: Option<AppendRes>)
    | ApplyBeginAt(i: Addr)
    | ApplyEntryAt(i: Addr)
    | ApplyTagAt(i: Addr)
    | ThreadAt(i: Addr, f: Addr, running: bool)   // a ReplicateLog thread starts or ends

  function Members(cfg: Config): set<Addr> {
    set m | m in cfg.members
  }

  ghost predicate WellFormed(cfg: Config) {
    cfg.members != [] && forall i, j :: 0 <= i < j < |cfg.members| ==> cfg.members[i] != cfg.members[j]
  }

  function Init(cfg: Config): State {
    State(map m | m in cfg.members :: FRESH, {}, {}, {}, {}, {}, {}, {}, map[], {}, {}, {})
  }

  predicate Enabled(cfg: Config, s: State, a: Action) {
    match a
    case TimeoutAt(i) => i in s.nodes
    case VoteAt(j, req) => j in s.nodes && req in s.ballots && req.candidate != j
    case VoteBack(call, res) =>
      call.candidate in s.nodes && call in s.pending && (res.Some? ==> VoteReply(call, res.value) in s.voteReplies)
    case WriteAt(i, _, _, _) => i in s.nodes
    case ReplicateTo(i, f, _) => i in s.nodes && f in s.nodes && f != i && CanReplicate(s.nodes[i], f)
    case DeliverTo(f, req) => f in s.nodes && AppendMsg(f, req) in s.appends
    case ReplicateBack(f, req, res) =>
      req.leader in s.nodes && AppendMsg(f, req) in s.appends && req.entries != []
      && (res.Some? ==> AppendReply(f, req, res.value) in s.appendReplies)
    case HeartBeatAt(i) => i in s.nodes && s.nodes[i].status == Leader
    case HeartBeatBack(f, req, res) =>
      req.leader in s.nodes && AppendMsg(f, req) in s.appends && req.entries == []
      && (res.Some? ==> AppendReply(f, req, res.value) in s.appendReplies)
    case ApplyBeginAt(i) => i in s.nodes
    case ApplyEntryAt(i) => i in s.nodes && CanApply(s.nodes[i])
    case ApplyTagAt(i) => i in s.nodes && s.nodes[i].inHand
    case ThreadAt(i, f, _) => i in s.nodes && f in s.nodes
  }

  /** The node an action runs on. */
  function Actor(a: Action): Addr {
    match a
    case TimeoutAt(i) => i
    case VoteAt(j, _) => j
    case VoteBack(call, _) => call.candidate
    case WriteAt(i, _, _, _) => i
    case ReplicateTo(i, _, _) => i
    case DeliverTo(f, _) => f
    case ReplicateBack(_, req, _) => req.leader
    case HeartBeatAt(i) => i
    case HeartBeatBack(_, req, _) => req.leader
    case ApplyBeginAt(i) => i
    case ApplyEntryAt(i) => i
    case ApplyTagAt(i) => i
    case ThreadAt(i, _, _) => i
  }

  function Peers(s: State, i: Addr): set<Addr> {
    s.nodes.Keys - {i}
  }

  function DoTimeout(s: State, i: Addr): State
    requires i in s.nodes
  {
    var n := s.nodes[i];
    var n' := VoteLeader(i, n);
    var s' := s.(nodes := s.nodes[i := n']);
    if Stands(n) then
      s'.(pending := s.pending + (set p | p in Peers(s, i) :: VoteCall(i, n'.term, p)),
          ballots := s.ballots + {BallotOf(i, n')})
    else s'
  }

  function DoVote(s: State, j: Addr, req: VoteReq): State
    requires j in s.nodes
  {
    var (n', res) := Vote(s.nodes[j], req);
    s.(nodes := s.nodes[j := n'],
       voteReplies := if res.Some?
                      then s.voteReplies + {VoteReply(VoteCall(req.candidate, req.term, j), res.value)}
                      else s.voteReplies)
  }

  /** The nodes whose vote of term t went to i. */
  function Voters(s: State, i: Addr, t: int): set<Addr> {
    set v | v in s.nodes && t in s.nodes[v].voteFor && s.nodes[v].voteFor[t] == i
  }

  function DoVoteBack(cfg: Config, s: State, call: VoteCall, res: Option<VoteRes>): State
    requires call.candidate in s.nodes
  {
    var i := call.candidate;
    var n := s.nodes[i];
    var n' := VoteCallBack(cfg, i, n, res);
    var s' := s.(nodes := s.nodes[i := n'], pending := s.pending - {call},
                 granted := if Counts(n, res) then s.granted + {call} else s.granted);
    if Wins(cfg, n, res) then
      s'.(crowns := s.crowns + {Crown(n.term, i)},
          reigns := s.reigns[n.term := Reign(i, Voters(s, i, n.term), n.log, n'.log)],
          acks := s.acks + {Ack(n.term, i, |n.log|)},
          wrote := s.wrote + {Authored(i, PingEntry(n.term))})
    else s'
  }

  function DoWrite(s: State, i: Addr, kind: Kind, key: Bytes, value: Bytes): State
    requires i in s.nodes
  {
    var n := s.nodes[i];
    var n' := ClientWrite(n, kind, key, value);
    var s' := s.(nodes := s.nodes[i := n']);
    if n.status == Leader then
      s'.(reigns := if n.term in s.reigns then s.reigns[n.term := s.reigns[n.term].(log := n'.log)] else s.reigns,
          acks := s.acks + {Ack(n.term, i, |n.log|)},
          wrote := s.wrote + {Authored(i, EntryOf(kind, key, value, n.term))})
    else s'
  }

  function DoReplicate(s: State, i: Addr, f: Addr, single: bool): State
    requires i in s.nodes && CanReplicate(s.nodes[i], f)
  {
    s.(appends := s.appends + {AppendMsg(f, BuildAppend(i, s.nodes[i], f, single))})
  }

  function DoDeliver(cfg: Config, s: State, f: Addr, req: AppendReq): State
    requires f in s.nodes
  {
    var (n', res) := AppendEntries(cfg.repairs, s.nodes[f], req);
    s.(nodes := s.nodes[f := n'],
       appendReplies := s.appendReplies + {AppendReply(f, req, res)},
       acks := if res.success && req.entries != []
               then s.acks + {Ack(req.term, f, req.prevIndex + |req.entries|)} else s.acks)
  }

  function DoReplicateBack(cfg: Config, s: State, f: Addr, req: AppendReq, res: Option<AppendRes>): State
    requires req.leader in s.nodes
  {
    var n := s.nodes[req.leader];
    var n' := ReplicateReply(cfg, req.leader, n, f, req, res);
    s.(nodes := s.nodes[req.leader := n'],
       commits := if n'.commit != n.commit then s.commits + {Commit(n.term, n'.commit)} else s.commits)
  }

  function DoHeartBeat(s: State, i: Addr): State
    requires i in s.nodes
  {
    s.(appends := s.appends + (set p | p in Peers(s, i) :: AppendMsg(p, HeartBeat(i, s.nodes[i]))))
  }

  function SetNode(s: State, i: Addr, n: Node): State {
    s.(nodes := s.nodes[i := n])
  }

  function DoThread(s: State, i: Addr, f: Addr, running: bool): State
    requires i in s.nodes
  {
    var n := s.nodes[i];
    SetNode(s, i, n.(replicating := if running then n.replicating + {f} else n.replicating - {f}))
  }

  function Next(cfg: Config, s: State, a: Action): State {
    if !Enabled(cfg, s, a) then s
    else match a
      case TimeoutAt(i) => DoTimeout(s, i)
      case VoteAt(j, req) => DoVote(s, j, req)
      case VoteBack(call, res) => DoVoteBack(cfg, s, call, res)
      case WriteAt(i, kind, key, value) => DoWrite(s, i, kind, key, value)
      case ReplicateTo(i, f, single) => DoReplicate(s, i, f, single)
      case DeliverTo(f, req) => DoDeliver(cfg, s, f, req)
      case ReplicateBack(f, req, res) => DoReplicateBack(cfg, s, f, req, res)
      case HeartBeatAt(i) => DoHeartBeat(s, i)
      case HeartBeatBack(f, req, res) => SetNode(s, req.leader, HeartBeatCallBack(s.nodes[req.leader], res))
      case ApplyBeginAt(i) => SetNode(s, i, ApplyBegin(s.nodes[i]))
      case ApplyEntryAt(i) => SetNode(s, i, ApplyEntry(s.nodes[i]))
      case ApplyTagAt(i) => SetNode(s, i, ApplyTag(s.nodes[i]))
      case ThreadAt(i, f, running) => DoThread(s, i, f, running)
  }

  lemma NotEnabled(cfg: Config, s: State, a: Action)
    requires !Enabled(cfg, s, a)
    ensures Next(cfg, s, a) == s
  {
  }

  /** The state after a run. */
  function After(cfg: Config, run: seq<Action>): State {
    if run == [] then Init(cfg) else Next(cfg, After(cfg, run[..|run| - 1]), run[|run| - 1])
  }

  /** A prefix of a run is a run; this is what a history invariant is carried along by. */
  lemma AfterSnoc(cfg: Config, run: seq<Action>, a: Action)
    ensures After(cfg, run + [a]) == Next(cfg, After(cfg, run), a)
  {
    assert (run + [a])[..|run|] == run;
  }
}
