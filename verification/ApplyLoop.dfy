/**
 The apply loop with process crashes. An entry is applied by two writes to the data store, its own
 and then the tag with its index; the process may stop between any two writes and start again from
 the tag it finds. The log is on disk and does not change here.
 */
module ApplyLoop {
  import opened Base
  import opened Decimal
  import opened DataStore

  /** The loop and its store. `writes` and `restarts` are history. */
  datatype Loop = Loop(store: Store, lastApplied: int, written: bool, writes: seq<int>, restarts: nat)

  datatype Event = WriteEntry | WriteTag | Restart

  /** The index a starting process takes from the store. */
  function Restored(store: Store): int {
    if APPLIED_TAG in store then StringToInt(store[APPLIED_TAG]) else -1
  }

  function Step(log: seq<Entry>, l: Loop, ev: Event): Loop {
    var next := l.lastApplied + 1;
    match ev
    case WriteEntry =>
      if !l.written && 0 <= next < |log|
      then l.(store := StoreEntry(l.store, log[next]), written := true, writes := l.writes + [next])
      else l
    case WriteTag =>
      if l.written then l.(store := StoreTag(l.store, next), lastApplied := next, written := false) else l
    case Restart =>
      l.(lastApplied := Restored(l.store), written := false, restarts := l.restarts + 1)
  }

  function Run(log: seq<Entry>, evs: seq<Event>): Loop {
    if evs == [] then Loop(map[], -1, false, [], 0) else Step(log, Run(log, evs[..|evs| - 1]), evs[|evs| - 1])
  }

  lemma RunSnoc(log: seq<Entry>, evs: seq<Event>, ev: Event)
    ensures Run(log, evs + [ev]) == Step(log, Run(log, evs), ev)
  {
    assert (evs + [ev])[..|evs|] == evs;
  }

  lemma RunNone(log: seq<Entry>)
    ensures Run(log, []) == Loop(map[], -1, false, [], 0)
  {
  }

  // ----- client data: the store without the tag -----

  function Data(store: Store): Store {
    store - {APPLIED_TAG}
  }

  /** The effect of an entry on client data. */
  function DataEntry(data: Store, e: Entry): Store {
    if e.key == APPLIED_TAG then data else StoreEntry(data, e)
  }

  lemma DataOfEntry(store: Store, e: Entry)
    ensures Data(StoreEntry(store, e)) == DataEntry(Data(store), e)
  {
  }

  lemma DataOfTag(store: Store, index: int)
    ensures Data(StoreTag(store, index)) == Data(store)
  {
  }

  /** Applying an entry again changes nothing. */
  lemma Idempotent(data: Store, e: Entry)
    ensures DataEntry(DataEntry(data, e), e) == DataEntry(data, e)
  {
  }

  lemma ReplayData(log: seq<Entry>, k: nat)
    requires k < |log|
    ensures Data(Replay(log[..k + 1])) == DataEntry(Data(Replay(log[..k])), log[k])
  {
    assert log[..k + 1][..k] == log[..k];
    DataOfEntry(Replay(log[..k]), log[k]);
    DataOfTag(StoreEntry(Replay(log[..k]), log[k]), k);
  }

  // ----- what a restart finds -----

  /** The store write of an entry at index k + 1 leaves the tag readable as k. */
  predicate KeepsTag(e: Entry, k: int) {
    e.key != APPLIED_TAG
    || (if e.op == PUT_OP || e.op == LOCK_OP then k == 0
        else if e.op == DELETE_OP || e.op == UNLOCK_OP then k == -1
        else true)
  }

  /** A client's value starts with its operation, which is no digit, so as a tag it reads as 0. */
  lemma ValueReadsAsZero(op: byte, value: Bytes)
    requires op == PUT_OP || op == LOCK_OP
    ensures StringToInt([op] + value) == 0
  {
    var s := [op] + value;
    assert s[0] == op && DigitRun(s) == 0;
    assert s[..0] == [];
  }

  lemma WriteKeepsTag(store: Store, e: Entry)
    ensures Restored(StoreEntry(store, e)) == Restored(store) || !KeepsTag(e, Restored(store))
    ensures KeepsTag(e, Restored(store)) ==> Restored(StoreEntry(store, e)) == Restored(store)
    ensures !KeepsTag(e, Restored(store)) ==> Restored(StoreEntry(store, e)) != Restored(store)
  {
    if e.op == PUT_OP || e.op == LOCK_OP { ValueReadsAsZero(e.op, e.value); }
  }

  lemma TagReadsBack(store: Store, index: int)
    ensures Restored(StoreTag(store, index)) == ClampInt32(index)
    ensures Restored(StoreTag(store, index)) == index <==> INT32_MIN <= index <= INT32_MAX
  {
    StringToIntOfIntToString(index);
  }

  /** Every index fits the parse of the tag, and no client write to the tag's key gets in its way. */
  predicate Recoverable(log: seq<Entry>) {
    |log| - 1 <= INT32_MAX && forall i :: 0 <= i < |log| ==> KeepsTag(log[i], i - 1)
  }

  // ----- the invariant -----

  function LastWrite(l: Loop): int {
    if l.writes == [] then -1 else l.writes[|l.writes| - 1]
  }

  /** Indices are written in order from 0 on, each one again at most once for a restart. */
  ghost predicate InOrder(writes: seq<int>) {
    (writes != [] ==> writes[0] == 0)
    && forall j :: 0 < j < |writes| ==> writes[j - 1] <= writes[j] <= writes[j - 1] + 1
  }

  ghost predicate LoopInv(log: seq<Entry>, l: Loop) {
    var last := LastWrite(l);
    && -1 <= l.lastApplied < |log| && Restored(l.store) == l.lastApplied
    && l.lastApplied <= last <= l.lastApplied + 1 && last < |log| && (l.written ==> last == l.lastApplied + 1)
    && Data(l.store) == Data(Replay(log[..last + 1]))
    && InOrder(l.writes)
    && |l.writes| + (if last > l.lastApplied && !l.written then 1 else 0) <= last + 1 + l.restarts
  }

  lemma WriteEntryKeeps(log: seq<Entry>, l: Loop)
    requires Recoverable(log) && LoopInv(log, l)
    ensures LoopInv(log, Step(log, l, WriteEntry))
  {
    hide Restored, StoreEntry, Replay, KeepsTag, Data, DataEntry;
    var next := l.lastApplied + 1;
    if !l.written && next < |log| {
      assert KeepsTag(log[next], next - 1);
      WriteKeepsTag(l.store, log[next]);
      DataOfEntry(l.store, log[next]);
      ReplayData(log, next);
      Idempotent(Data(Replay(log[..next])), log[next]);
      assert Data(Step(log, l, WriteEntry).store) == Data(Replay(log[..next + 1]));
    }
  }

  lemma WriteTagKeeps(log: seq<Entry>, l: Loop)
    requires Recoverable(log) && LoopInv(log, l)
    ensures LoopInv(log, Step(log, l, WriteTag))
  {
    if l.written {
      TagReadsBack(l.store, l.lastApplied + 1);
      DataOfTag(l.store, l.lastApplied + 1);
    }
  }

  lemma {:induction false} LoopHolds(log: seq<Entry>, evs: seq<Event>)
    requires Recoverable(log)
    ensures LoopInv(log, Run(log, evs))
  {
    if evs != [] {
      var l := Run(log, evs[..|evs| - 1]);
      LoopHolds(log, evs[..|evs| - 1]);
      match evs[|evs| - 1]
      case WriteEntry => WriteEntryKeeps(log, l);
      case WriteTag => WriteTagKeeps(log, l);
      case Restart =>
    } else {
      assert log[..0] == [];
    }
  }

  // ----- results -----

  /** A restart right now would take up the loop where it is. */
  ghost predicate Resumes(log: seq<Entry>, evs: seq<Event>) {
    Restored(Run(log, evs).store) == Run(log, evs).lastApplied
  }

  /** The events that apply the first m entries without a crash. */
  function Straight(m: nat): seq<Event> {
    if m == 0 then [] else Straight(m - 1) + [WriteEntry] + [WriteTag]
  }

  lemma {:induction false} StraightRun(log: seq<Entry>, m: nat)
    requires m <= |log|
    ensures var l := Run(log, Straight(m));
            l.lastApplied == m - 1 && !l.written && l.store == Replay(log[..m]) && l.writes == seq(m, i => i)
  {
    hide StoreEntry, StoreTag, Run;
    if m > 0 {
      StraightRun(log, m - 1);
      RunSnoc(log, Straight(m - 1), WriteEntry);
      RunSnoc(log, Straight(m - 1) + [WriteEntry], WriteTag);
      assert log[..m][..m - 1] == log[..m - 1];
      assert seq(m - 1, i => i) + [m - 1] == seq(m, i => i);
    } else {
      RunNone(log);
      assert log[..0] == [];
    }
  }

  lemma StraightTag(log: seq<Entry>, m: nat)
    requires m <= |log|
    ensures Restored(Replay(log[..m])) == ClampInt32(m - 1)
  {
    hide Restored, StoreEntry;
    if m > 0 {
      assert log[..m][..m - 1] == log[..m - 1];
      TagReadsBack(StoreEntry(Replay(log[..m - 1]), log[m - 1]), m - 1);
    } else {
      assert log[..0] == [];
      NoTag();
    }
  }

  lemma NoTag()
    ensures Restored(map[]) == -1
  {
  }

  lemma LongLogRewinds(log: seq<Entry>)
    requires |log| - 1 > INT32_MAX
    ensures !Resumes(log, Straight(|log|))
  {
    hide Restored, Run, Straight;
    StraightRun(log, |log|);
    StraightTag(log, |log|);
  }

  lemma TagKeyLosesPlace(log: seq<Entry>, i: nat)
    requires i < |log| && i - 1 <= INT32_MAX && !KeepsTag(log[i], i - 1)
    ensures !Resumes(log, Straight(i) + [WriteEntry])
  {
    hide Restored, Run, Straight, StoreEntry, KeepsTag, Replay;
    StraightRun(log, i);
    StraightTag(log, i);
    RunSnoc(log, Straight(i), WriteEntry);
    WriteKeepsTag(Replay(log[..i]), log[i]);
  }

  /** At every point of every run a restart resumes where the loop is exactly for a recoverable log. */
  lemma AlwaysResumes(log: seq<Entry>)
    ensures (forall evs :: Resumes(log, evs)) <==> Recoverable(log)
  {
    hide Run, KeepsTag, Restored;
    if Recoverable(log) {
      forall evs ensures Resumes(log, evs) {
        LoopHolds(log, evs);
      }
    } else if |log| - 1 > INT32_MAX {
      LongLogRewinds(log);
    } else {
      var i :| 0 <= i < |log| && !KeepsTag(log[i], i - 1);
      TagKeyLosesPlace(log, i);
    }
  }

  /**
   Whatever crashes there were, once the tag of an index is written the store is the one an
   undisturbed loop has there: every entry up to it applied, in order.
   */
  lemma CrashesLeaveNoTrace(log: seq<Entry>, evs: seq<Event>)
    requires Recoverable(log) && Run(log, evs).written
    ensures var l := Run(log, evs + [WriteTag]);
            && 0 <= l.lastApplied == Run(log, evs).lastApplied + 1 < |log|
            && l.store == Replay(log[..l.lastApplied + 1]) == Run(log, Straight(l.lastApplied + 1)).store
  {
    var l := Run(log, evs);
    var l' := Run(log, evs + [WriteTag]);
    var k := l'.lastApplied;
    LoopHolds(log, evs);
    RunSnoc(log, evs, WriteTag);
    LoopHolds(log, evs + [WriteTag]);
    StraightRun(log, k + 1);
    assert log[..k + 1][..k] == log[..k];
    SameStore(l'.store, Replay(log[..k + 1]));
  }

  lemma SameStore(a: Store, b: Store)
    requires Data(a) == Data(b) && APPLIED_TAG in a && APPLIED_TAG in b && a[APPLIED_TAG] == b[APPLIED_TAG]
    ensures a == b
  {
    forall k | k in a ensures k in b && b[k] == a[k] {
      if k != APPLIED_TAG { assert k in Data(a); }
    }
    forall k | k in b ensures k in a {
      if k != APPLIED_TAG { assert k in Data(b); }
    }
  }

  /** At every moment client data is the replay of what was written, in order, one repeat a restart at most. */
  lemma EachIndexInOrder(log: seq<Entry>, evs: seq<Event>)
    requires Recoverable(log)
    ensures var l := Run(log, evs);
            && -1 <= LastWrite(l) < |log|
            && Data(l.store) == Data(Replay(log[..LastWrite(l) + 1]))
            && InOrder(l.writes) && |l.writes| <= LastWrite(l) + 1 + l.restarts
            && l.lastApplied <= LastWrite(l) <= l.lastApplied + 1
  {
    LoopHolds(log, evs);
  }

  /** After a restart the entry behind the last tag is written, again if it had been; its tag is not before. */
  lemma RestartRewrites(log: seq<Entry>, evs: seq<Event>)
    requires Recoverable(log) && Run(log, evs).lastApplied + 1 < |log|
    ensures var l := Run(log, evs);
            && Run(log, evs + [Restart] + [WriteEntry]).writes == l.writes + [l.lastApplied + 1]
            && Run(log, evs + [Restart] + [WriteTag]).lastApplied == l.lastApplied
            && Run(log, evs + [Restart] + [WriteTag]).store == l.store
  {
    hide Run, Restored, KeepsTag;
    LoopHolds(log, evs);
    RunSnoc(log, evs, Restart);
    RunSnoc(log, evs + [Restart], WriteEntry);
    RunSnoc(log, evs + [Restart], WriteTag);
  }

  lemma {:induction false} ReplaySnoc(es: seq<Entry>, e: Entry)
    ensures Replay(es + [e]) == StoreTag(StoreEntry(Replay(es), e), |es|)
  {
    assert (es + [e])[..|es|] == es;
  }

  /** A client that may write the tag's key can send the loop back: it then applies over newer data. */
  lemma TagKeyRewinds(a: Bytes, b: Bytes, v: Bytes)
    requires a != b && a != APPLIED_TAG && b != APPLIED_TAG
    ensures var log := [Entry(PUT_OP, a, [1], 1), Entry(PUT_OP, b, [1], 1), Entry(PUT_OP, a, [2], 1),
                        Entry(PUT_OP, APPLIED_TAG, v, 1)];
            var l := Run(log, Straight(3) + [WriteEntry] + [Restart] + [WriteEntry] + [WriteTag]);
            l.lastApplied == 1 && !l.written && l.store != Replay(log[..2])
  {
    hide Run, Straight, Replay;
    var old_, more, new_ := Entry(PUT_OP, a, [1], 1), Entry(PUT_OP, b, [1], 1), Entry(PUT_OP, a, [2], 1);
    var tag := Entry(PUT_OP, APPLIED_TAG, v, 1);
    var log := [old_, more, new_, tag];
    var evs := Straight(3);
    StraightRun(log, 3);
    RunSnoc(log, evs, WriteEntry);
    RunSnoc(log, evs + [WriteEntry], Restart);
    RunSnoc(log, evs + [WriteEntry] + [Restart], WriteEntry);
    RunSnoc(log, evs + [WriteEntry] + [Restart] + [WriteEntry], WriteTag);
    ValueReadsAsZero(PUT_OP, v);
    assert log[..1] == [old_] && log[..2] == [old_] + [more] && log[..3] == [old_] + [more] + [new_];
    ReplaySnoc([old_], more);
    ReplaySnoc([old_] + [more], new_);
    ReplaySnoc([], old_);
    assert [] + [old_] == [old_];
    var l := Run(log, evs + [WriteEntry] + [Restart] + [WriteEntry] + [WriteTag]);
    assert a in l.store && l.store[a] == [PUT_OP, 2];
    assert a in Replay(log[..2]) && Replay(log[..2])[a] == [PUT_OP, 1];
  }
}
