/**
 What a follower answers to a request, by what it holds and how far its apply loop is behind, and what
 each answer leaves of its log. With any choice of repairs.
 */
module Refusals {
  import opened Base
  import opened RaftNode

  /** The node has the entry before those of the request, with its term; none comes before index 0. */
  predicate HoldsPrevious(n: Node, req: AppendReq) {
    if req.prevIndex < 0 then req.prevTerm == -1
    else req.prevIndex < |n.log| && n.log[req.prevIndex].term == req.prevTerm
  }

  /** A mismatch is cut off with the entry before it. */
  function CutLog(log: seq<Entry>, prev: int): seq<Entry>
    requires prev < |log|
  {
    if prev <= 0 then [] else log[..prev]
  }

  lemma JudgedExactly(n: Node, req: AppendReq)
    ensures var v := Judge(n, req);
            && (v == Outdated <==> req.term < n.term)
            && (v == Accepted <==>
                 req.term >= n.term
                 && (req.entries == [] || (HoldsPrevious(n, req) && n.commit - n.lastApplied <= 100000)))
            && (v == Busy <==>
                 req.term >= n.term && req.entries != [] && HoldsPrevious(n, req)
                 && n.commit - n.lastApplied > 100000)
            && (v == Beyond <==> req.term >= n.term && req.entries != [] && req.prevIndex >= |n.log|)
  {
  }

  /**
   A request is accepted if and only if it is not outdated and carries no entries, or the node holds what
   comes before them and is at most 100000 entries behind with applying. The answer says busy if and only
   if that last condition alone fails.
   */
  lemma AcceptedExactly(r: Repairs, n: Node, req: AppendReq)
    ensures var res := AppendEntries(r, n, req).1;
            && (res.success <==>
                 req.term >= n.term
                 && (req.entries == [] || (HoldsPrevious(n, req) && n.commit - n.lastApplied <= 100000)))
            && (res.busy <==>
                 req.term >= n.term && req.entries != [] && HoldsPrevious(n, req)
                 && n.commit - n.lastApplied > 100000)
  {
    hide Judge, HoldsPrevious, Follow, Truncate, AcceptEntries, FollowerCommit;
    JudgedExactly(n, req);
  }

  /**
   A refusal tells the length the log has after it. The log is then as it was, but for a request whose
   previous entry the node has with another term: that entry and all behind it are gone from the log, and
   stay in the store as slots past its end.
   */
  lemma RefusedLog(r: Repairs, n: Node, req: AppendReq)
    requires !AppendEntries(r, n, req).1.success
    ensures var (n', res) := AppendEntries(r, n, req);
            && res.logLength == |n'.log| && n'.commit == n.commit && n'.log + n'.stale == n.log + n.stale
            && n'.log == if req.term < n.term || res.busy || req.prevIndex >= |n.log| then n.log
                         else CutLog(n.log, req.prevIndex)
  {
    hide HoldsPrevious, FollowerCommit, AcceptEntries;
    JudgedExactly(n, req);
    if Judge(n, req) == Mismatch {
      var k := if req.prevIndex <= 0 then 0 else req.prevIndex;
      assert n.log == n.log[..k] + n.log[k..];
    }
  }

  ghost predicate Follows(n: Node, req: AppendReq, n': Node) {
    && n'.status == Follower && n'.term == req.term && n'.leaderAddr == req.leader
    && n'.heartbeats == n.heartbeats + 1
  }

  lemma OnlyLogFollows(n: Node, req: AppendReq, n': Node, commit: int)
    requires OnlyLog(Follow(n, req), n')
    ensures Follows(n, req, n') && Follows(n, req, n'.(commit := commit))
  {
  }

  /** Exactly the requests that are not outdated make the node follow the sender, and count as a sign of it. */
  lemma FollowsExactly(r: Repairs, n: Node, req: AppendReq)
    ensures var n' := AppendEntries(r, n, req).0;
            if req.term < n.term then n' == n else Follows(n, req, n')
  {
    hide Judge, OnlyLog, Follow, Follows, Truncate, AcceptEntries, FollowerCommit, Refusal;
    var n1 := Follow(n, req);
    JudgedExactly(n, req);
    FollowKeepsLog(n, req);
    SameLog(n1);
    OnlyLogFollows(n, req, n1, FollowerCommit(r, n1.log, n.commit, req));
    match Judge(n, req)
    case Mismatch =>
      TruncateCases(r, n1, req.prevIndex - 1);
      OnlyLogFollows(n, req, Truncate(r, n1, req.prevIndex - 1), 0);
    case Accepted =>
      if req.entries != [] {
        var n2 := AcceptEntries(r, n1, req);
        OnlyLogFollows(n, req, n2, FollowerCommit(r, n2.log, n.commit, req));
      }
    case _ =>
  }

  /** Of a request without entries it makes no difference what it names as the entry before them. */
  lemma HeartBeatNamesNone(r: Repairs, n: Node, req: AppendReq, prev: int, term: int)
    requires req.entries == []
    ensures AppendEntries(r, n, req.(prevIndex := prev, prevTerm := term)) == AppendEntries(r, n, req)
  {
  }
}
