/**
 Binlog garbage collection: leaders ask every member how far it has applied, and tell every member
 to remove the slots well below the smallest answer. Rounds of several leaders, late answers, late
 clean requests and late removals interleave with the apply loops. Removing slots before an index
 is taken to remove exactly the slots below it.
 */
module GarbageCollection {
  import opened Base

  const INT64_MAX := 0x7FFF_FFFF_FFFF_FFFF

  /** A member: how far it has applied, its first slot, removals scheduled, the last index it cleaned to. */
  datatype Member = Member(applied: int, firstSlot: int, removals: set<int>, lastSafe: int)

  datatype Clean = Clean(dest: Addr, end: int)

  /** The answers a collection round has so far. */
  type Answers = map<Addr, int>

  datatype State = State(nodes: map<Addr, Member>, rounds: map<nat, Answers>, cleans: set<Clean>)

  datatype Event =
    | Apply(i: Addr)                          // the apply loop finishes the next slot
    | Answer(round: nat, i: Addr)             // a member answers ShowStatus for a round
    | Finish(round: nat, leader: Addr)        // a leader has all the answers of its round
    | CleanAt(msg: Clean)                     // a clean request arrives, perhaps again
    | RemoveAt(i: Addr, index: int)           // the cleaner thread runs a scheduled removal
    | RestartAt(i: Addr)                      // scheduled removals are forgotten, what is applied is not

  // ----- the loop over the answers -----

  /** The smallest answer of the members asked. */
  function Smallest(ms: seq<Addr>, answers: Answers): int
    requires forall m :: m in ms ==> m in answers
  {
    if ms == [] then INT64_MAX else Min(Smallest(ms[..|ms| - 1], answers), answers[ms[|ms| - 1]])
  }

  lemma {:induction false} SmallestBounds(ms: seq<Addr>, answers: Answers, m: Addr)
    requires (forall p :: p in ms ==> p in answers) && m in ms
    ensures Smallest(ms, answers) <= answers[m]
  {
    var last := ms[|ms| - 1];
    assert ms == ms[..|ms| - 1] + [last];
    if m != last { SmallestBounds(ms[..|ms| - 1], answers, m); }
  }

  /** It is the answer of some member, unless every answer is beyond 64 bits. */
  lemma {:induction false} SmallestIsAnswer(ms: seq<Addr>, answers: Answers) returns (m: Addr)
    requires ms != [] && forall p :: p in ms ==> p in answers && answers[p] <= INT64_MAX
    ensures m in ms && Smallest(ms, answers) == answers[m]
  {
    var rest, last := ms[..|ms| - 1], ms[|ms| - 1];
    assert ms == rest + [last];
    if rest != [] && Smallest(rest, answers) < answers[last] {
      m := SmallestIsAnswer(rest, answers);
    } else {
      m := last;
    }
  }

  /** The loop as the code runs it; the index it arrives at is one below the smallest answer. */
  method SafeCleanIndex(ms: seq<Addr>, answers: Answers) returns (safe: int)
    requires ms != [] && forall m :: m in ms ==> m in answers && answers[m] <= 0x7FFF_FFFF_FFFF_FFFF
    ensures safe == Smallest(ms, answers) - 1
    ensures forall m :: m in ms ==> safe < answers[m]
    ensures exists m :: m in ms && answers[m] == safe + 1
  {
    var smallest := INT64_MAX;
    var i := 0;
    while i < |ms|
      invariant 0 <= i <= |ms| && smallest == Smallest(ms[..i], answers)
    {
      assert ms[..i + 1][..i] == ms[..i];
      smallest := Min(smallest, answers[ms[i]]);
      i := i + 1;
    }
    assert ms[..|ms|] == ms;
    forall m | m in ms ensures smallest <= answers[m] {
      SmallestBounds(ms, answers, m);
    }
    ghost var m := SmallestIsAnswer(ms, answers);
    safe := smallest - 1;
  }

  // ----- the steps -----

  predicate Complete(ms: seq<Addr>, answers: Answers) {
    forall m :: m in ms ==> m in answers
  }

  function AnswersOf(s: State, round: nat): Answers {
    if round in s.rounds then s.rounds[round] else map[]
  }

  function Init(ms: seq<Addr>): State {
    State(map m | m in ms :: Member(-1, 0, {}, -1), map[], {})
  }

  function SetMember(s: State, i: Addr, n: Member): State {
    s.(nodes := s.nodes[i := n])
  }

  /** The handler of a clean request schedules the removal, unless it has not applied that far itself. */
  function CleanBinlog(n: Member, end: int): Member {
    if n.applied < end then n else n.(removals := n.removals + {end - 1})
  }

  /** The store never gets a slot back. */
  function RemoveSlotsBefore(n: Member, index: int): Member {
    n.(firstSlot := Max(n.firstSlot, index), removals := n.removals - {index})
  }

  function FinishRound(ms: seq<Addr>, s: State, round: nat, leader: Addr): State
    requires leader in s.nodes && Complete(ms, AnswersOf(s, round))
  {
    var safe := Smallest(ms, AnswersOf(s, round)) - 1;
    var n := s.nodes[leader];
    var s' := SetMember(s, leader, n.(lastSafe := safe));
    if n.lastSafe == safe then s' else s'.(cleans := s.cleans + (set m | m in ms :: Clean(m, safe)))
  }

  function Step(ms: seq<Addr>, s: State, ev: Event): State {
    match ev
    case Apply(i) =>
      if i in s.nodes then SetMember(s, i, s.nodes[i].(applied := s.nodes[i].applied + 1)) else s
    case Answer(round, i) =>
      if i in s.nodes && i !in AnswersOf(s, round)
      then s.(rounds := s.rounds[round := AnswersOf(s, round)[i := s.nodes[i].applied]]) else s
    case Finish(round, leader) =>
      if leader in s.nodes && Complete(ms, AnswersOf(s, round)) then FinishRound(ms, s, round, leader) else s
    case CleanAt(msg) =>
      if msg in s.cleans && msg.dest in s.nodes
      then SetMember(s, msg.dest, CleanBinlog(s.nodes[msg.dest], msg.end)) else s
    case RemoveAt(i, index) =>
      if i in s.nodes && index in s.nodes[i].removals
      then SetMember(s, i, RemoveSlotsBefore(s.nodes[i], index)) else s
    case RestartAt(i) =>
      if i in s.nodes then SetMember(s, i, s.nodes[i].(removals := {}, lastSafe := -1)) else s
  }

  function Run(ms: seq<Addr>, evs: seq<Event>): State {
    if evs == [] then Init(ms) else Step(ms, Run(ms, evs[..|evs| - 1]), evs[|evs| - 1])
  }

  // ----- the invariant -----

  /** Every member has applied past this index. */
  ghost predicate AppliedPast(s: State, index: int) {
    forall m {:trigger s.nodes[m]} :: m in s.nodes ==> index < s.nodes[m].applied
  }

  ghost predicate MemberInv(s: State, n: Member) {
    && (n.firstSlot == 0 || AppliedPast(s, n.firstSlot + 1)) && n.firstSlot >= 0
    && (forall k :: k in n.removals ==> AppliedPast(s, k + 1))
  }

  ghost predicate GcInv(ms: seq<Addr>, s: State) {
    && (forall m :: m in ms <==> m in s.nodes)
    && (forall i {:trigger s.nodes[i]} :: i in s.nodes ==> s.nodes[i].applied >= -1 && MemberInv(s, s.nodes[i]))
    && (forall r, m :: r in s.rounds && m in s.rounds[r] ==> m in s.nodes && s.rounds[r][m] <= s.nodes[m].applied)
    && (forall c :: c in s.cleans ==> AppliedPast(s, c.end))
  }

  /** Nothing ever becomes less applied. */
  ghost predicate Later(s: State, s': State) {
    s'.nodes.Keys == s.nodes.Keys
    && forall m {:trigger s'.nodes[m]} :: m in s.nodes ==> s.nodes[m].applied <= s'.nodes[m].applied
  }

  lemma AppliedPastLater(s: State, s': State, index: int)
    requires AppliedPast(s, index) && Later(s, s')
    ensures AppliedPast(s', index)
  {
  }

  lemma MemberLater(s: State, s': State, n: Member, n': Member)
    requires MemberInv(s, n) && Later(s, s')
    requires n'.firstSlot == n.firstSlot && n'.removals <= n.removals
    ensures MemberInv(s', n')
  {
    if n.firstSlot != 0 { AppliedPastLater(s, s', n.firstSlot + 1); }
    forall k | k in n'.removals ensures AppliedPast(s', k + 1) {
      AppliedPastLater(s, s', k + 1);
    }
  }

  lemma StepLater(ms: seq<Addr>, s: State, ev: Event)
    ensures Later(s, Step(ms, s, ev))
  {
  }

  lemma FinishAppliedPast(ms: seq<Addr>, s: State, round: nat)
    requires GcInv(ms, s) && Complete(ms, AnswersOf(s, round))
    ensures AppliedPast(s, Smallest(ms, AnswersOf(s, round)) - 1)
  {
    forall m {:trigger s.nodes[m]} | m in s.nodes
      ensures Smallest(ms, AnswersOf(s, round)) - 1 < s.nodes[m].applied
    {
      SmallestBounds(ms, AnswersOf(s, round), m);
      assert m in AnswersOf(s, round) && round in s.rounds;
    }
  }

  lemma StepCleans(ms: seq<Addr>, s: State, ev: Event)
    requires GcInv(ms, s)
    ensures forall c :: c in Step(ms, s, ev).cleans ==> AppliedPast(Step(ms, s, ev), c.end)
  {
    var s' := Step(ms, s, ev);
    StepLater(ms, s, ev);
    forall c | c in s'.cleans ensures AppliedPast(s', c.end) {
      if c !in s.cleans {
        FinishAppliedPast(ms, s, ev.round);
      }
      AppliedPastLater(s, s', c.end);
    }
  }

  lemma StepMembers(ms: seq<Addr>, s: State, ev: Event, i: Addr)
    requires GcInv(ms, s) && i in s.nodes && i in Step(ms, s, ev).nodes
    ensures MemberInv(Step(ms, s, ev), Step(ms, s, ev).nodes[i])
  {
    var s' := Step(ms, s, ev);
    var n, n' := s.nodes[i], s'.nodes[i];
    StepLater(ms, s, ev);
    match ev
    case CleanAt(msg) =>
      if msg in s.cleans && msg.dest == i && n.applied >= msg.end {
        MemberLater(s, s', n, n);
        AppliedPastLater(s, s', msg.end);
        forall k | k in n'.removals ensures AppliedPast(s', k + 1) {
          if k != msg.end - 1 { assert k in n.removals; }
        }
      } else {
        MemberLater(s, s', n, n');
      }
    case RemoveAt(j, index) =>
      if j == i && index in n.removals {
        MemberLater(s, s', n, n);
        assert AppliedPast(s, index + 1);
        AppliedPastLater(s, s', index + 1);
      } else {
        MemberLater(s, s', n, n');
      }
    case _ => MemberLater(s, s', n, n');
  }

  lemma StepRounds(ms: seq<Addr>, s: State, ev: Event)
    requires GcInv(ms, s)
    ensures var s' := Step(ms, s, ev);
            forall r, m :: r in s'.rounds && m in s'.rounds[r]
              ==> m in s'.nodes && s'.rounds[r][m] <= s'.nodes[m].applied
  {
    StepLater(ms, s, ev);
  }

  lemma StepKeeps(ms: seq<Addr>, s: State, ev: Event)
    requires GcInv(ms, s)
    ensures GcInv(ms, Step(ms, s, ev))
  {
    var s' := Step(ms, s, ev);
    StepLater(ms, s, ev);
    StepCleans(ms, s, ev);
    StepRounds(ms, s, ev);
    forall i {:trigger s'.nodes[i]} | i in s'.nodes ensures MemberInv(s', s'.nodes[i]) {
      StepMembers(ms, s, ev, i);
    }
  }

  lemma {:induction false} GcHolds(ms: seq<Addr>, evs: seq<Event>)
    ensures GcInv(ms, Run(ms, evs))
  {
    if evs != [] {
      GcHolds(ms, evs[..|evs| - 1]);
      StepKeeps(ms, Run(ms, evs[..|evs| - 1]), evs[|evs| - 1]);
    }
  }

  // ----- results -----

  /** A slot removed anywhere has been applied by every member, and so have the two after it. */
  lemma RemovedIsApplied(ms: seq<Addr>, evs: seq<Event>, i: Addr, slot: int, j: Addr)
    requires i in Run(ms, evs).nodes && j in Run(ms, evs).nodes && 0 <= slot < Run(ms, evs).nodes[i].firstSlot
    ensures slot + 2 < Run(ms, evs).nodes[j].applied
  {
    GcHolds(ms, evs);
    assert MemberInv(Run(ms, evs), Run(ms, evs).nodes[i]);
  }

  /** No apply loop ever comes to a slot that has been removed. */
  lemma ApplyFindsItsSlot(ms: seq<Addr>, evs: seq<Event>, i: Addr)
    requires i in Run(ms, evs).nodes
    ensures Run(ms, evs).nodes[i].applied + 1 >= Run(ms, evs).nodes[i].firstSlot
  {
    GcHolds(ms, evs);
    assert MemberInv(Run(ms, evs), Run(ms, evs).nodes[i]);
  }

  /** The handler's own test never refuses: whoever sent the request had an answer of this member. */
  lemma CleanNeverRefused(ms: seq<Addr>, evs: seq<Event>, msg: Clean)
    requires msg in Run(ms, evs).cleans && msg.dest in Run(ms, evs).nodes
    ensures msg.end < Run(ms, evs).nodes[msg.dest].applied
  {
    GcHolds(ms, evs);
  }

  lemma FinishSends(ms: seq<Addr>, s: State, round: nat, leader: Addr, i: Addr)
    requires GcInv(ms, s) && leader in s.nodes && i in s.nodes && Complete(ms, AnswersOf(s, round))
    requires s.nodes[leader].lastSafe != Smallest(ms, AnswersOf(s, round)) - 1
    ensures var safe := Smallest(ms, AnswersOf(s, round)) - 1;
            var s1 := Step(ms, s, Finish(round, leader));
            && Clean(i, safe) in s1.cleans && s1.nodes.Keys == s.nodes.Keys
            && s1.nodes[i].firstSlot == s.nodes[i].firstSlot && s1.nodes[i].applied == s.nodes[i].applied > safe
  {
    hide Smallest;
    FinishAppliedPast(ms, s, round);
    assert i in ms;
  }

  lemma CleanRemoves(ms: seq<Addr>, s: State, i: Addr, end: int)
    requires i in s.nodes && Clean(i, end) in s.cleans && end <= s.nodes[i].applied
    ensures var s' := Step(ms, Step(ms, s, CleanAt(Clean(i, end))), RemoveAt(i, end - 1));
            s'.nodes.Keys == s.nodes.Keys && s'.nodes[i].firstSlot == Max(s.nodes[i].firstSlot, end - 1)
  {
  }

  /** A round does collect: carried out at a member it leaves just the slots from two below the smallest answer. */
  lemma RoundCollects(ms: seq<Addr>, evs: seq<Event>, round: nat, leader: Addr, i: Addr)
    requires var s := Run(ms, evs);
             && leader in s.nodes && i in s.nodes && Complete(ms, AnswersOf(s, round))
             && s.nodes[leader].lastSafe != Smallest(ms, AnswersOf(s, round)) - 1
    ensures var s := Run(ms, evs);
            var smallest := Smallest(ms, AnswersOf(s, round));
            var s1 := Step(ms, s, Finish(round, leader));
            var s2 := Step(ms, s1, CleanAt(Clean(i, smallest - 1)));
            var s3 := Step(ms, s2, RemoveAt(i, smallest - 2));
            s3.nodes.Keys == s.nodes.Keys && s3.nodes[i].firstSlot == Max(s.nodes[i].firstSlot, smallest - 2)
  {
    hide Smallest, Run, Step, GcInv;
    var s := Run(ms, evs);
    GcHolds(ms, evs);
    FinishSends(ms, s, round, leader, i);
    CleanRemoves(ms, Step(ms, s, Finish(round, leader)), i, Smallest(ms, AnswersOf(s, round)) - 1);
  }

  predicate Finishes(ms: seq<Addr>, s: State, ev: Event, i: Addr) {
    ev.Finish? && ev.leader == i && i in s.nodes && Complete(ms, AnswersOf(s, ev.round))
  }

  /** The smallest answer in the last round a member finished since it started; 0 before any. */
  function LastSmallest(ms: seq<Addr>, evs: seq<Event>, i: Addr): int {
    if evs == [] || evs[|evs| - 1] == RestartAt(i) then 0
    else
      var most, ev := evs[..|evs| - 1], evs[|evs| - 1];
      if Finishes(ms, Run(ms, most), ev, i) then Smallest(ms, AnswersOf(Run(ms, most), ev.round))
      else LastSmallest(ms, most, i)
  }

  lemma {:induction false} SafeIs(ms: seq<Addr>, evs: seq<Event>, i: Addr)
    requires i in Run(ms, evs).nodes
    ensures Run(ms, evs).nodes[i].lastSafe == LastSmallest(ms, evs, i) - 1
  {
    if evs != [] {
      var most, ev := evs[..|evs| - 1], evs[|evs| - 1];
      SafeIs(ms, most, i);
      StepSafe(ms, Run(ms, most), ev, i);
    }
  }

  lemma StepSafe(ms: seq<Addr>, s: State, ev: Event, i: Addr)
    requires i in s.nodes && i in Step(ms, s, ev).nodes
    ensures Step(ms, s, ev).nodes[i].lastSafe
            == if ev == RestartAt(i) then -1
               else if Finishes(ms, s, ev, i) then Smallest(ms, AnswersOf(s, ev.round)) - 1
               else s.nodes[i].lastSafe
  {
    hide Smallest, Complete;
  }

  /**
   In every run a round sends clean requests, to every member for one below its smallest answer, exactly if
   that is another smallest than in the leader's last round.
   */
  lemma RoundSendsExactly(ms: seq<Addr>, evs: seq<Event>, round: nat, leader: Addr)
    requires leader in Run(ms, evs).nodes && Complete(ms, AnswersOf(Run(ms, evs), round))
    ensures var s := Run(ms, evs); var smallest := Smallest(ms, AnswersOf(s, round));
            Run(ms, evs + [Finish(round, leader)]).cleans
            == if smallest == LastSmallest(ms, evs, leader) then s.cleans
               else s.cleans + set m | m in ms :: Clean(m, smallest - 1)
  {
    hide Smallest, Complete;
    SafeIs(ms, evs, leader);
    assert (evs + [Finish(round, leader)])[..|evs|] == evs;
  }

  /** What was scheduled is forgotten in a restart: no slot goes until another clean request comes. */
  lemma {:induction false} RestartForgets(ms: seq<Addr>, evs: seq<Event>, k: nat, i: Addr)
    requires k < |evs| && evs[k] == RestartAt(i) && i in Run(ms, evs[..k]).nodes
    requires forall j :: k < j < |evs| ==> !(evs[j].CleanAt? && evs[j].msg.dest == i)
    ensures i in Run(ms, evs).nodes && Run(ms, evs).nodes[i].removals == {}
    ensures Run(ms, evs).nodes[i].firstSlot == Run(ms, evs[..k]).nodes[i].firstSlot
  {
    hide Smallest, Complete;
    var most := evs[..|evs| - 1];
    if k == |evs| - 1 {
      assert most == evs[..k];
    } else {
      assert most[..k] == evs[..k];
      RestartForgets(ms, most, k, i);
    }
  }

  // ----- how far collection can get -----

  /** Whatever a removal leaves out is below the largest index but two. */
  ghost predicate BoundedInv(s: State) {
    && (forall i {:trigger s.nodes[i]} :: i in s.nodes ==>
         s.nodes[i].firstSlot <= INT64_MAX - 2 && forall k :: k in s.nodes[i].removals ==> k <= INT64_MAX - 2)
    && (forall c :: c in s.cleans ==> c.end <= INT64_MAX - 1)
  }

  lemma {:induction false} SmallestAtMost(ms: seq<Addr>, answers: Answers)
    requires forall m :: m in ms ==> m in answers
    ensures Smallest(ms, answers) <= INT64_MAX
  {
    if ms != [] { SmallestAtMost(ms[..|ms| - 1], answers); }
  }

  lemma {:induction false} SmallestAbove(ms: seq<Addr>, answers: Answers, index: int)
    requires index < INT64_MAX && forall m :: m in ms ==> m in answers && index < answers[m]
    ensures Smallest(ms, answers) > index
  {
    if ms != [] { SmallestAbove(ms[..|ms| - 1], answers, index); }
  }

  lemma StepBounded(ms: seq<Addr>, s: State, ev: Event)
    requires BoundedInv(s)
    ensures BoundedInv(Step(ms, s, ev))
  {
    hide Smallest;
    if ev.Finish? && ev.leader in s.nodes && Complete(ms, AnswersOf(s, ev.round)) {
      SmallestAtMost(ms, AnswersOf(s, ev.round));
    }
  }

  lemma {:induction false} BoundedHolds(ms: seq<Addr>, evs: seq<Event>)
    ensures BoundedInv(Run(ms, evs))
  {
    hide Step;
    if evs != [] {
      BoundedHolds(ms, evs[..|evs| - 1]);
      StepBounded(ms, Run(ms, evs[..|evs| - 1]), evs[|evs| - 1]);
    }
  }

  /** A slot that some member has not applied well past, or near the largest index, is there at every member. */
  lemma KeptSlot(ms: seq<Addr>, evs: seq<Event>, i: Addr, slot: int)
    requires i in Run(ms, evs).nodes && slot >= 0
    requires slot + 2 >= INT64_MAX || exists m :: m in Run(ms, evs).nodes && Run(ms, evs).nodes[m].applied <= slot + 2
    ensures Run(ms, evs).nodes[i].firstSlot <= slot
  {
    hide Run;
    BoundedHolds(ms, evs);
    if slot + 2 < INT64_MAX {
      var m :| m in Run(ms, evs).nodes && Run(ms, evs).nodes[m].applied <= slot + 2;
      if slot < Run(ms, evs).nodes[i].firstSlot { RemovedIsApplied(ms, evs, i, slot, m); }
    }
  }

  /** Some steps on from a state. */
  function Steps(ms: seq<Addr>, s: State, evs: seq<Event>): State {
    if evs == [] then s else Step(ms, Steps(ms, s, evs[..|evs| - 1]), evs[|evs| - 1])
  }

  lemma StepsSnoc(ms: seq<Addr>, s: State, evs: seq<Event>, ev: Event)
    ensures Steps(ms, s, evs + [ev]) == Step(ms, Steps(ms, s, evs), ev)
  {
    assert (evs + [ev])[..|evs|] == evs;
  }

  /** Every member answers for round 0. */
  function AskAll(asked: seq<Addr>): seq<Event> {
    if asked == [] then [] else AskAll(asked[..|asked| - 1]) + [Answer(0, asked[|asked| - 1])]
  }

  lemma {:induction false} AllAnswer(ms: seq<Addr>, s: State, asked: seq<Addr>)
    requires s.rounds == map[] && forall m :: m in asked ==> m in s.nodes
    ensures var s' := Steps(ms, s, AskAll(asked));
            && s'.nodes == s.nodes && s'.cleans == s.cleans
            && (forall m :: m in AnswersOf(s', 0) <==> m in asked)
            && (forall m :: m in asked ==> AnswersOf(s', 0)[m] == s.nodes[m].applied)
  {
    if asked != [] {
      var rest, last := asked[..|asked| - 1], asked[|asked| - 1];
      assert asked == rest + [last];
      AllAnswer(ms, s, rest);
      StepsSnoc(ms, s, AskAll(rest), Answer(0, last));
    }
  }

  /** A whole round of a leader that has not collected yet. */
  function WholeRound(ms: seq<Addr>, s: State, i: Addr): seq<Event>
    requires Complete(ms, AnswersOf(Steps(ms, s, AskAll(ms)), 0))
  {
    var smallest := Smallest(ms, AnswersOf(Steps(ms, s, AskAll(ms)), 0));
    AskAll(ms) + [Finish(0, i)] + [CleanAt(Clean(i, smallest - 1))] + [RemoveAt(i, smallest - 2)]
  }

  /** Once every member has applied well past a slot, a round removes it. */
  lemma RoundRemoves(ms: seq<Addr>, s: State, i: Addr, slot: int)
    requires GcInv(ms, s) && s.rounds == map[] && i in s.nodes && s.nodes[i].lastSafe == -1
    requires 0 <= slot && slot + 2 < INT64_MAX
    requires forall m {:trigger s.nodes[m]} :: m in s.nodes ==> s.nodes[m].applied > slot + 2
    ensures Complete(ms, AnswersOf(Steps(ms, s, AskAll(ms)), 0))
    ensures var s' := Steps(ms, s, WholeRound(ms, s, i));
            i in s'.nodes && slot < s'.nodes[i].firstSlot
  {
    hide Smallest, Step, Steps, GcInv;
    Asked(ms, s);
    var asked := Steps(ms, s, AskAll(ms));
    var answers := AnswersOf(asked, 0);
    var smallest := Smallest(ms, answers);
    assert forall m :: m in ms ==> s.nodes[m].applied > slot + 2;
    SmallestAbove(ms, answers, slot + 2);
    FinishSends(ms, asked, 0, i, i);
    var sent := Step(ms, asked, Finish(0, i));
    CleanRemoves(ms, sent, i, smallest - 1);
    StepsSnoc(ms, s, AskAll(ms), Finish(0, i));
    StepsSnoc(ms, s, AskAll(ms) + [Finish(0, i)], CleanAt(Clean(i, smallest - 1)));
    StepsSnoc(ms, s, AskAll(ms) + [Finish(0, i)] + [CleanAt(Clean(i, smallest - 1))], RemoveAt(i, smallest - 2));
  }

  lemma Asked(ms: seq<Addr>, s: State)
    requires GcInv(ms, s) && s.rounds == map[]
    ensures var s' := Steps(ms, s, AskAll(ms));
            && GcInv(ms, s') && s'.nodes == s.nodes && Complete(ms, AnswersOf(s', 0))
            && (forall m :: m in ms ==> m in s.nodes && AnswersOf(s', 0)[m] == s.nodes[m].applied)
  {
    AllAnswer(ms, s, ms);
    StepsKeep(ms, s, AskAll(ms));
  }

  lemma {:induction false} StepsKeep(ms: seq<Addr>, s: State, evs: seq<Event>)
    requires GcInv(ms, s)
    ensures GcInv(ms, Steps(ms, s, evs))
  {
    hide Step, GcInv;
    if evs != [] {
      StepsKeep(ms, s, evs[..|evs| - 1]);
      StepKeeps(ms, Steps(ms, s, evs[..|evs| - 1]), evs[|evs| - 1]);
    }
  }
}
