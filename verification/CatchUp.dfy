/**
 Follower catch-up: the rounds a leader's replication thread runs for one follower while every call
 returns. `next_index_` goes down by at least one with each refusal, and the rounds end with the
 follower holding the leader's log.
 */
module CatchUp {
  import opened Base
  import opened RaftNode
  import opened Cluster
  import opened LogMatching

  /** A leader that has something to send to a follower that is neither ahead in term nor busy. */
  ghost predicate Ready(leader: Node, f: Addr, follower: Node) {
    && CanReplicate(leader, f) && follower.term <= leader.term
    && follower.commit - follower.lastApplied <= 100000
    && Consistent(follower.log, leader.log)
  }

  /** The first probe finds the follower no longer than the entries it follows, or cuts it. */
  predicate FirstProbeFits(log: seq<Entry>, lead: seq<Entry>, next: nat)
    requires next <= |lead|
  {
    |log| <= next || PrevTerm(log, next - 1) != PrevTerm(lead, next - 1)
  }

  /** What the rounds keep, between the follower's first log and its log now. */
  ghost predicate Probing(log0: seq<Entry>, log: seq<Entry>, lead: seq<Entry>) {
    && log <= log0 && Consistent(log, lead)
    && (forall p :: Common(p, log0, lead) ==> p <= log)
  }

  /** What a refusal does to both sides. */
  ghost predicate Refused(leader: Node, leader': Node, f: Addr, follower: Node, follower': Node)
    requires CanReplicate(leader, f)
  {
    && CanReplicate(leader', f) && leader'.log == leader.log && leader'.term == leader.term
    && Lookup(leader'.nextIndex, f) < Lookup(leader.nextIndex, f)
    && |follower'.log| == Lookup(leader'.nextIndex, f)
    && Ready(leader', f, follower') && Probing(follower.log, follower'.log, leader.log)
  }

  lemma PrefixConsistent(a: seq<Entry>, b: seq<Entry>, lead: seq<Entry>)
    requires a <= b && Consistent(b, lead)
    ensures Consistent(a, lead)
  {
    forall k | 0 <= k < |a| && k < |lead| && a[k].term == lead[k].term ensures a[..k + 1] == lead[..k + 1] {
      assert b[..k + 1] == lead[..k + 1];
    }
  }

  lemma BeyondRound(cfg: Config, self: Addr, leader: Node, f: Addr, follower: Node)
    requires Ready(leader, f, follower) && Judge(follower, BuildAppend(self, leader, f, false)) == Beyond
    ensures var (follower', res) := AppendEntries(cfg.repairs, follower, BuildAppend(self, leader, f, false));
            var leader' := ReplicateReply(cfg, self, leader, f, BuildAppend(self, leader, f, false), Some(res));
            !res.success && Refused(leader, leader', f, follower, follower')
  {
  }

  lemma MismatchRound(cfg: Config, self: Addr, leader: Node, f: Addr, follower: Node)
    requires Ready(leader, f, follower) && Judge(follower, BuildAppend(self, leader, f, false)) == Mismatch
    ensures var (follower', res) := AppendEntries(cfg.repairs, follower, BuildAppend(self, leader, f, false));
            var leader' := ReplicateReply(cfg, self, leader, f, BuildAppend(self, leader, f, false), Some(res));
            !res.success && Refused(leader, leader', f, follower, follower')
  {
    var req := BuildAppend(self, leader, f, false);
    var follower' := AppendEntries(cfg.repairs, follower, req).0;
    assert follower'.log == follower.log[..req.prevIndex];
    PrefixConsistent(follower'.log, follower.log, leader.log);
    forall p | Common(p, follower.log, leader.log) ensures p <= follower'.log {
      CommonStops(p, follower.log, leader.log, req.prevIndex);
    }
  }

  /** With the alignment repair an accepted request leaves the leader's log, or a longer one that starts with it. */
  lemma AlignedRound(cfg: Config, self: Addr, leader: Node, f: Addr, follower: Node)
    requires cfg.repairs.align && Ready(leader, f, follower)
    requires Judge(follower, BuildAppend(self, leader, f, false)) == Accepted
    ensures var log' := AppendEntries(cfg.repairs, follower, BuildAppend(self, leader, f, false)).0.log;
            log' == if leader.log <= follower.log then follower.log else leader.log
  {
    hide AppendEntries, Align, Agreeing, BuildAppend, Judge, Follow, Consistent;
    AcceptedPrefix(self, leader, f, follower);
    var req := BuildAppend(self, leader, f, false);
    FollowKeepsLog(follower, req);
    AcceptedLog(cfg.repairs, follower, req);
    AlignRestores(cfg.repairs, Follow(follower, req), req.prevIndex + 1, req.entries, leader.log);
  }

  lemma AlignRestores(r: Repairs, n: Node, from: nat, es: seq<Entry>, lead: seq<Entry>)
    requires from <= |n.log| && from <= |lead| && es == lead[from..] && n.log[..from] == lead[..from]
    requires Consistent(n.log, lead)
    ensures Align(r, n, from, es).log == if lead <= n.log then n.log else lead
  {
    hide Align, Agreeing;
    assert lead[from..from + |es|] == lead[from..];
    AlignLog(r, n, from, es);
    AgreeingIsCommon(n.log, lead, from, es);
    Realigned(n.log, lead, from, es, Agreeing(n.log, from, es));
  }

  lemma AcceptedPrefix(self: Addr, leader: Node, f: Addr, follower: Node)
    requires Ready(leader, f, follower) && Judge(follower, BuildAppend(self, leader, f, false)) == Accepted
    ensures var req := BuildAppend(self, leader, f, false);
            var from := req.prevIndex + 1;
            && from == Lookup(leader.nextIndex, f) && 0 <= from <= |follower.log| && from < |leader.log|
              && req.entries == leader.log[from..]
            && from + |req.entries| == |leader.log| && req.entries == leader.log[from..from + |req.entries|]
            && follower.log[..from] == leader.log[..from]
  {
    assert BuildAppend(self, leader, f, false).entries != [];
  }

  /** Aligned with the whole rest of the leader's log, a log is the leader's unless it went on from there. */
  lemma Realigned(log: seq<Entry>, lead: seq<Entry>, from: nat, es: seq<Entry>, k: nat)
    requires k <= |es| && from + k <= |log| && from + |es| == |lead| && es == lead[from..]
    requires log[..from + k] == lead[..from + k]
    requires k < |es| && from + k < |log| ==> log[from + k].term != lead[from + k].term
    ensures (if k == |es| then log else log[..from + k] + es[k..]) == if lead <= log then log else lead
  {
    if k == |es| {
      assert lead[..|lead|] == lead;
      assert lead <= log;
    } else {
      assert log[..from + k] + es[k..] == lead;
      assert from + k >= |log| || log[from + k] != lead[from + k];
    }
  }

  /** Without it, it leaves the leader's log exactly when the follower ended where the entries start. */
  lemma AppendedRound(cfg: Config, self: Addr, leader: Node, f: Addr, follower: Node)
    requires !cfg.repairs.align && Ready(leader, f, follower)
    requires Judge(follower, BuildAppend(self, leader, f, false)) == Accepted
    ensures var log' := AppendEntries(cfg.repairs, follower, BuildAppend(self, leader, f, false)).0.log;
            && follower.log <= log'
            && (log' == leader.log <==> |follower.log| == Lookup(leader.nextIndex, f))
  {
    hide AppendEntries, BuildAppend, Judge, Consistent;
    AcceptedPrefix(self, leader, f, follower);
    AppendedLog(cfg.repairs, follower, BuildAppend(self, leader, f, false));
    Appended(follower.log, leader.log, Lookup(leader.nextIndex, f));
  }

  lemma AppendedLog(r: Repairs, n: Node, req: AppendReq)
    requires !r.align && Judge(n, req) == Accepted && req.entries != []
    ensures AppendEntries(r, n, req).0.log == n.log + req.entries
  {
    hide FollowerCommit;
  }

  lemma Appended(log: seq<Entry>, lead: seq<Entry>, next: nat)
    requires next <= |log| && next < |lead| && log[..next] == lead[..next]
    ensures log <= log + lead[next..] && (log + lead[next..] == lead <==> |log| == next)
  {
    if |log| == next { assert log[..next] == log; }
  }

  /** After an accepted request the leader has nothing more to send. */
  lemma AcceptedReply(cfg: Config, self: Addr, leader: Node, f: Addr, follower: Node)
    requires Ready(leader, f, follower) && Judge(follower, BuildAppend(self, leader, f, false)) == Accepted
    ensures var (follower', res) := AppendEntries(cfg.repairs, follower, BuildAppend(self, leader, f, false));
            var leader' := ReplicateReply(cfg, self, leader, f, BuildAppend(self, leader, f, false), Some(res));
            res.success && Done(leader, leader', f)
  {
    var req := BuildAppend(self, leader, f, false);
    AcceptedAnswer(cfg.repairs, follower, req);
    AdvanceCases(cfg, self, leader, f, req);
  }

  lemma AcceptedAnswer(r: Repairs, n: Node, req: AppendReq)
    requires Judge(n, req) == Accepted
    ensures AppendEntries(r, n, req).1 == AppendRes(req.term, true, 0, false)
  {
    hide AcceptEntries, FollowerCommit;
  }

  /** The leader knows that the follower has its whole log. */
  ghost predicate Done(leader: Node, leader': Node, f: Addr) {
    && leader'.log == leader.log && leader'.term == leader.term && leader'.status == leader.status
    && Lookup(leader'.nextIndex, f) == |leader.log| && Lookup(leader'.matchIndex, f) == |leader.log| - 1
  }

  // ----- all the rounds -----

  /** Between two rounds: nothing has been refused yet, or the follower was cut to the next index. */
  ghost predicate Midway(leader0: Node, f: Addr, follower0: Node, leader: Node, follower: Node, refusals: nat)
    requires CanReplicate(leader0, f)
  {
    var next0 := Lookup(leader0.nextIndex, f);
    && leader.log == leader0.log && leader.term == leader0.term
    && Ready(leader, f, follower) && Probing(follower0.log, follower.log, leader0.log)
    && refusals + Lookup(leader.nextIndex, f) <= next0
    && (if refusals == 0 then follower == follower0 && Lookup(leader.nextIndex, f) == next0
        else |follower.log| == Lookup(leader.nextIndex, f) && FirstProbeFits(follower0.log, leader0.log, next0))
  }

  ghost predicate Caught(cfg: Config, leader0: Node, f: Addr, follower0: Node, leader: Node, follower: Node,
                         refusals: nat)
    requires CanReplicate(leader0, f)
  {
    var lead := leader0.log;
    && Done(leader0, leader, f) && refusals <= Lookup(leader0.nextIndex, f)
    && (forall p :: Common(p, follower0.log, lead) ==> p <= follower.log)
    && (cfg.repairs.align ==> follower.log == if lead <= follower0.log then follower0.log else lead)
    && (!cfg.repairs.align ==>
         (follower.log == lead <==> FirstProbeFits(follower0.log, lead, Lookup(leader0.nextIndex, f))))
  }

  lemma RefusedKeeps(leader0: Node, f: Addr, follower0: Node, leader: Node, follower: Node, refusals: nat,
                     leader': Node, follower': Node, req: AppendReq)
    requires CanReplicate(leader0, f) && Midway(leader0, f, follower0, leader, follower, refusals)
    requires Refused(leader, leader', f, follower, follower')
    requires req.prevIndex == Lookup(leader.nextIndex, f) - 1 && req.prevTerm == PrevTerm(leader.log, req.prevIndex)
    requires Judge(follower, req) == Beyond || Judge(follower, req) == Mismatch
    ensures Midway(leader0, f, follower0, leader', follower', refusals + 1)
  {
    PrefixTrans(follower'.log, follower.log, follower0.log);
    forall p | Common(p, follower0.log, leader0.log) ensures p <= follower'.log {
      assert Common(p, follower.log, leader.log);
    }
  }

  lemma AcceptedCatches(cfg: Config, self: Addr, leader0: Node, f: Addr, follower0: Node,
                        leader: Node, follower: Node, refusals: nat)
    requires CanReplicate(leader0, f) && Midway(leader0, f, follower0, leader, follower, refusals)
    requires Judge(follower, BuildAppend(self, leader, f, false)) == Accepted
    ensures var (follower', res) := AppendEntries(cfg.repairs, follower, BuildAppend(self, leader, f, false));
            var leader' := ReplicateReply(cfg, self, leader, f, BuildAppend(self, leader, f, false), Some(res));
            Caught(cfg, leader0, f, follower0, leader', follower', refusals)
  {
    hide AppendEntries, ReplicateReply;
    var req := BuildAppend(self, leader, f, false);
    var log' := AppendEntries(cfg.repairs, follower, req).0.log;
    AcceptedReply(cfg, self, leader, f, follower);
    if cfg.repairs.align {
      AlignedRound(cfg, self, leader, f, follower);
      if leader0.log <= follower0.log {
        assert Common(leader0.log, follower0.log, leader0.log);
      }
    } else {
      AppendedRound(cfg, self, leader, f, follower);
    }
    forall p | Common(p, follower0.log, leader0.log) ensures p <= log' {
      if follower.log <= log' { PrefixTrans(p, follower.log, log'); }
    }
  }

  /** One round: a refusal that moves closer, or the end. */
  lemma Round(cfg: Config, self: Addr, leader0: Node, f: Addr, follower0: Node,
              leader: Node, follower: Node, refusals: nat)
    requires CanReplicate(leader0, f) && Midway(leader0, f, follower0, leader, follower, refusals)
    ensures var (follower', res) := AppendEntries(cfg.repairs, follower, BuildAppend(self, leader, f, false));
            var leader' := ReplicateReply(cfg, self, leader, f, BuildAppend(self, leader, f, false), Some(res));
            if res.success then Caught(cfg, leader0, f, follower0, leader', follower', refusals)
            else Midway(leader0, f, follower0, leader', follower', refusals + 1)
                 && Lookup(leader'.nextIndex, f) < Lookup(leader.nextIndex, f)
  {
    hide AppendEntries, ReplicateReply, Midway, Caught;
    MidwayReady(leader0, f, follower0, leader, follower, refusals);
    var req := BuildAppend(self, leader, f, false);
    var (follower', res) := AppendEntries(cfg.repairs, follower, req);
    var leader' := ReplicateReply(cfg, self, leader, f, req, Some(res));
    match Judge(follower, req)
    case Beyond =>
      BeyondRound(cfg, self, leader, f, follower);
      RefusedKeeps(leader0, f, follower0, leader, follower, refusals, leader', follower', req);
    case Mismatch =>
      MismatchRound(cfg, self, leader, f, follower);
      RefusedKeeps(leader0, f, follower0, leader, follower, refusals, leader', follower', req);
    case Accepted =>
      AcceptedReply(cfg, self, leader, f, follower);
      AcceptedCatches(cfg, self, leader0, f, follower0, leader, follower, refusals);
  }

  lemma MidwayReady(leader0: Node, f: Addr, follower0: Node, leader: Node, follower: Node, refusals: nat)
    requires CanReplicate(leader0, f) && Midway(leader0, f, follower0, leader, follower, refusals)
    ensures Ready(leader, f, follower)
  {
  }

  /**
   The rounds of one replication thread, each call returning its answer. There are at most as many
   refusals as `next_index_` was at the start, after each one the follower is as long as the index
   that comes next, and nothing the two logs agree on is lost. At the end the leader takes the
   follower to have everything. With the alignment repair it has; as the code stands it has the
   leader's log exactly when the first probe fits.
   */
  method Replicate(cfg: Config, self: Addr, leader0: Node, f: Addr, follower0: Node)
    returns (leader: Node, follower: Node, refusals: nat)
    requires Ready(leader0, f, follower0)
    ensures leader.log == leader0.log && leader.status == Leader && leader.term == leader0.term
    ensures Lookup(leader.nextIndex, f) == |leader0.log| && Lookup(leader.matchIndex, f) == |leader0.log| - 1
    ensures refusals <= Lookup(leader0.nextIndex, f)
    ensures forall p :: Common(p, follower0.log, leader0.log) ==> p <= follower.log
    ensures cfg.repairs.align ==>
              follower.log == if leader0.log <= follower0.log then follower0.log else leader0.log
    ensures !cfg.repairs.align ==>
              (follower.log == leader0.log
               <==> FirstProbeFits(follower0.log, leader0.log, Lookup(leader0.nextIndex, f)))
  {
    hide AppendEntries, ReplicateReply, BuildAppend, FirstProbeFits;
    leader, follower, refusals := leader0, follower0, 0;
    while Lookup(leader.nextIndex, f) < |leader.log|
      invariant if Lookup(leader.nextIndex, f) < |leader.log|
                then Midway(leader0, f, follower0, leader, follower, refusals)
                else Caught(cfg, leader0, f, follower0, leader, follower, refusals)
      decreases if Lookup(leader.nextIndex, f) < |leader.log| then Lookup(leader.nextIndex, f) + 1 else 0
    {
      Round(cfg, self, leader0, f, follower0, leader, follower, refusals);
      var req := BuildAppend(self, leader, f, false);
      var (answered, res) := AppendEntries(cfg.repairs, follower, req);
      leader := ReplicateReply(cfg, self, leader, f, req, Some(res));
      follower := answered;
      if !res.success {
        refusals := refusals + 1;
      }
    }
  }

  /** What the rounds need of the two logs holds in every run with aligned logs. */
  lemma ReachableReady(cfg: Config, run: seq<Action>, i: Addr, f: Addr)
    requires WellFormed(cfg) && cfg.repairs.align
    requires i in After(cfg, run).nodes && f in After(cfg, run).nodes
    requires CanReplicate(After(cfg, run).nodes[i], f)
    requires var m, n := After(cfg, run).nodes[i], After(cfg, run).nodes[f];
             n.term <= m.term && n.commit - n.lastApplied <= 100000
    ensures Ready(After(cfg, run).nodes[i], f, After(cfg, run).nodes[f])
  {
    var s := After(cfg, run);
    LogHolds(cfg, run);
    RootedConsistent(s, s.nodes[f].log, s.nodes[i].log);
  }
}
