/**
 The requests waiting for their answer at a node, and the answers given, told from the run alone: what
 waits at an index was logged there by a client's request while the node led, and has neither been
 answered since nor given way to another of its kind. With any choice of repairs.
 */
module Waiting {
  import opened Base
  import opened RaftNode
  import opened Cluster
  import opened Frames
  import opened ClientSuccess
  import opened Answers

  /** The request of this kind waits at the index. */
  predicate Waits(n: Node, index: int, k: Kind, t: Ticket) {
    index in n.acks && k in n.acks[index] && n.acks[index][k] == t
  }

  /** On this node the action logs a request of the kind at the index. */
  predicate LogsAt(n: Node, a: Action, index: int, k: Kind, t: Ticket) {
    && a.WriteAt? && a.kind == k && n.status == Leader && |n.log| == index
    && t == Ticket(n.term, EntryOf(k, a.key, a.value, n.term))
  }

  /** On this node the action finishes the index while the node leads, or logs a request of the kind at it. */
  predicate EndsAt(n: Node, a: Action, index: int, k: Kind) {
    n.status == Leader
    && ((a.ApplyTagAt? && n.inHand && n.lastApplied + 1 == index) || (a.WriteAt? && a.kind == k && |n.log| == index))
  }

  lemma HandleWaits(cfg: Config, n: Node, a: Action, index: int, k: Kind, t: Ticket)
    ensures Waits(Handle(cfg, n, a), index, k, t)
            <==> LogsAt(n, a, index, k, t) || (Waits(n, index, k, t) && !EndsAt(n, a, index, k))
  {
    if a.WriteAt? {
      WriteWaits(n, a, index, k, t);
    } else if a.ApplyTagAt? {
      TagWaits(n, a, index, k, t);
    } else if a.ApplyEntryAt? {
      EntryWaits(n);
    } else {
      hide Handle;
      HandleLeaves(cfg, n, a);
    }
  }

  /** What waits at an index. */
  function At(acks: map<int, map<Kind, Ticket>>, index: int): map<Kind, Ticket> {
    if index in acks then acks[index] else map[]
  }

  lemma WriteAcks(n: Node, kind: Kind, key: Bytes, value: Bytes)
    ensures ClientWrite(n, kind, key, value).acks
            == if n.status != Leader then n.acks
               else n.acks[|n.log| := At(n.acks, |n.log|)[kind := Ticket(n.term, EntryOf(kind, key, value, n.term))]]
  {
    hide EntryOf;
  }

  lemma WriteWaits(n: Node, a: Action, index: int, k: Kind, t: Ticket)
    requires a.WriteAt?
    ensures Waits(ClientWrite(n, a.kind, a.key, a.value), index, k, t)
            <==> LogsAt(n, a, index, k, t) || (Waits(n, index, k, t) && !EndsAt(n, a, index, k))
  {
    hide EntryOf, ClientWrite;
    WriteAcks(n, a.kind, a.key, a.value);
  }

  lemma TagWaits(n: Node, a: Action, index: int, k: Kind, t: Ticket)
    requires a.ApplyTagAt?
    ensures Waits(if n.inHand then ApplyTag(n) else n, index, k, t)
            <==> Waits(n, index, k, t) && !EndsAt(n, a, index, k)
  {
    hide AckEvents;
  }

  lemma EntryWaits(n: Node)
    ensures (if CanApply(n) then ApplyEntry(n) else n).acks == n.acks
  {
  }

  // ----- over whole runs -----

  ghost predicate ActsOn(cfg: Config, run: seq<Action>, m: int, i: Addr) {
    0 <= m < |run| && Enabled(cfg, After(cfg, run[..m]), run[m]) && Actor(run[m]) == i
    && i in After(cfg, run[..m]).nodes
  }

  /** At step m node i logs the request. */
  ghost predicate Logged(cfg: Config, run: seq<Action>, m: int, i: Addr, index: int, k: Kind, t: Ticket) {
    ActsOn(cfg, run, m, i) && LogsAt(After(cfg, run[..m]).nodes[i], run[m], index, k, t)
  }

  /** At step m node i answers or replaces what waits. */
  ghost predicate Ended(cfg: Config, run: seq<Action>, m: int, i: Addr, index: int, k: Kind) {
    ActsOn(cfg, run, m, i) && EndsAt(After(cfg, run[..m]).nodes[i], run[m], index, k)
  }

  /** The request was logged and nothing has ended its waiting since. */
  ghost predicate StillWaits(cfg: Config, run: seq<Action>, i: Addr, index: int, k: Kind, t: Ticket) {
    exists m :: Logged(cfg, run, m, i, index, k, t) && forall j :: m < j < |run| ==> !Ended(cfg, run, j, i, index, k)
  }

  lemma EarlierSame(cfg: Config, run: seq<Action>, m: int, i: Addr, index: int, k: Kind, t: Ticket)
    requires run != [] && m < |run| - 1
    ensures Logged(cfg, run, m, i, index, k, t) <==> Logged(cfg, run[..|run| - 1], m, i, index, k, t)
    ensures Ended(cfg, run, m, i, index, k) <==> Ended(cfg, run[..|run| - 1], m, i, index, k)
  {
    hide After, Enabled, LogsAt, EndsAt;
    if 0 <= m { assert run[..|run| - 1][..m] == run[..m]; }
  }

  /** The last step alone decides, or leaves it to those before. */
  lemma StillByLast(cfg: Config, run: seq<Action>, i: Addr, index: int, k: Kind, t: Ticket)
    requires run != []
    ensures var most, last := run[..|run| - 1], |run| - 1;
            StillWaits(cfg, run, i, index, k, t)
            <==> Logged(cfg, run, last, i, index, k, t)
                 || (StillWaits(cfg, most, i, index, k, t) && !Ended(cfg, run, last, i, index, k))
  {
    hide Logged, Ended;
    var most, last := run[..|run| - 1], |run| - 1;
    forall m: int | m < last
      ensures Logged(cfg, run, m, i, index, k, t) <==> Logged(cfg, most, m, i, index, k, t)
      ensures Ended(cfg, run, m, i, index, k) <==> Ended(cfg, most, m, i, index, k)
    {
      EarlierSame(cfg, run, m, i, index, k, t);
    }
    if StillWaits(cfg, run, i, index, k, t) {
      var m :| Logged(cfg, run, m, i, index, k, t) && forall j :: m < j < |run| ==> !Ended(cfg, run, j, i, index, k);
      LoggedWithin(cfg, run, m, i, index, k, t);
      if m < last {
        assert !Ended(cfg, run, last, i, index, k);
        assert Logged(cfg, most, m, i, index, k, t);
      }
    }
    if StillWaits(cfg, most, i, index, k, t) && !Ended(cfg, run, last, i, index, k) {
      var m :| Logged(cfg, most, m, i, index, k, t) && forall j :: m < j < |most| ==> !Ended(cfg, most, j, i, index, k);
      LoggedWithin(cfg, most, m, i, index, k, t);
      assert Logged(cfg, run, m, i, index, k, t);
    }
  }

  lemma LoggedWithin(cfg: Config, run: seq<Action>, m: int, i: Addr, index: int, k: Kind, t: Ticket)
    requires Logged(cfg, run, m, i, index, k, t)
    ensures 0 <= m < |run|
  {
    hide After, Enabled, LogsAt;
  }

  lemma LastWaits(cfg: Config, run: seq<Action>, i: Addr, index: int, k: Kind, t: Ticket)
    requires run != [] && i in After(cfg, run).nodes
    ensures var most, last := run[..|run| - 1], |run| - 1;
            && i in After(cfg, most).nodes
            && (Waits(After(cfg, run).nodes[i], index, k, t)
                <==> Logged(cfg, run, last, i, index, k, t)
                     || (Waits(After(cfg, most).nodes[i], index, k, t) && !Ended(cfg, run, last, i, index, k)))
  {
    hide Next, Enabled, Handle, Waits, LogsAt, EndsAt;
    var most, a := run[..|run| - 1], run[|run| - 1];
    var s := After(cfg, most);
    if Enabled(cfg, s, a) {
      ActorHandles(cfg, s, a);
      if i == Actor(a) { HandleWaits(cfg, s.nodes[i], a, index, k, t); }
    } else {
      NotEnabled(cfg, s, a);
    }
  }

  /**
   In every run a request waits at a node exactly if the node, leading, logged it there and has since
   neither finished that index while leading nor logged another request of the kind at it.
   */
  lemma {:induction false} WaitsExactly(cfg: Config, run: seq<Action>, i: Addr, index: int, k: Kind, t: Ticket)
    requires i in After(cfg, run).nodes
    ensures Waits(After(cfg, run).nodes[i], index, k, t) <==> StillWaits(cfg, run, i, index, k, t)
  {
    if run == [] {
      NothingWaits(cfg, i, index, k, t);
    } else {
      hide After, Waits, StillWaits, Logged, Ended;
      LastWaits(cfg, run, i, index, k, t);
      WaitsExactly(cfg, run[..|run| - 1], i, index, k, t);
      StillByLast(cfg, run, i, index, k, t);
    }
  }

  lemma NothingWaits(cfg: Config, i: Addr, index: int, k: Kind, t: Ticket)
    requires i in After(cfg, []).nodes
    ensures !Waits(After(cfg, []).nodes[i], index, k, t) && !StillWaits(cfg, [], i, index, k, t)
  {
  }

  /** At step m node i, leading, finishes the index, with the request still waiting at it. */
  ghost predicate GivesAnswer(cfg: Config, run: seq<Action>, m: int, i: Addr, e: AckEvent) {
    && ActsOn(cfg, run, m, i) && run[m] == ApplyTagAt(i)
    && var n := After(cfg, run[..m]).nodes[i];
       && n.status == Leader && n.lastApplied + 1 == e.index && n.term == e.term && n.commit == e.commit
       && e.slot == (if 0 <= e.index < |n.log| then Some(n.log[e.index]) else None)
       && StillWaits(cfg, run[..m], i, e.index, e.kind, e.ticket)
  }

  /** In every run a node has answered exactly the requests it logged that still waited when it finished their index. */
  lemma AnswersExactly(cfg: Config, run: seq<Action>, i: Addr, e: AckEvent)
    requires i in After(cfg, run).nodes
    ensures e in After(cfg, run).nodes[i].acked <==> exists m :: GivesAnswer(cfg, run, m, i, e)
  {
    hide After, AnsweredAt, GivesAnswer;
    AckedOrigin(cfg, run, i, e);
    forall m: int ensures AnsweredAt(cfg, run, m, i, e) <==> GivesAnswer(cfg, run, m, i, e) {
      AnswerIs(cfg, run, m, i, e);
    }
  }

  lemma AnswerIs(cfg: Config, run: seq<Action>, m: int, i: Addr, e: AckEvent)
    ensures AnsweredAt(cfg, run, m, i, e) <==> GivesAnswer(cfg, run, m, i, e)
  {
    hide After, AckEvents, StillWaits, Waits;
    if AnswerStep(cfg, run, m, i) {
      var n := After(cfg, run[..m]).nodes[i];
      WaitsExactly(cfg, run[..m], i, e.index, e.kind, e.ticket);
      AckEventIs(n, n.lastApplied + 1, e);
    }
  }

  lemma AckEventIs(n: Node, index: int, e: AckEvent)
    ensures e in AckEvents(n, index)
            <==> n.status == Leader && e.index == index && Waits(n, index, e.kind, e.ticket)
                 && e.term == n.term && e.commit == n.commit
                 && e.slot == (if 0 <= index < |n.log| then Some(n.log[index]) else None)
  {
  }
}
