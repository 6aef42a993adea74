/**
 The log store: entries under decimal slot keys in a key-value database, with the length under a
 tag. Truncation only moves the length, so slots past it stay in the store. To its users it is a
 plain sequence of entries.
 */
module BinLog {
  import opened Base
  import opened Decimal
  import opened Codec

  // "#BINLOG_LEN#"
  const LENGTH_TAG: Bytes := [35, 66, 73, 78, 76, 79, 71, 95, 76, 69, 78, 35]

  type Database = map<Bytes, Bytes>

  /** The database holds these slots, and the tag says the log is the first `length` of them. */
  ghost predicate Image(db: Database, slots: seq<Entry>, length: int) {
    && 0 <= length <= |slots|
    && (forall k :: 0 <= k < |slots| ==> HasSlot(db, k, slots[k]))
    && (forall k: int :: k < 0 || k >= |slots| ==> NoSlot(db, k))
    && (if LENGTH_TAG in db then db[LENGTH_TAG] == IntToString(length) else length == 0)
  }

  ghost predicate HasSlot(db: Database, k: int, e: Entry) {
    Storable(e) && IntToString(k) in db && db[IntToString(k)] == Dump(e)
  }

  ghost predicate NoSlot(db: Database, k: int) {
    IntToString(k) !in db
  }

  /** No slot key is the length tag. */
  lemma SlotIsNotTag(k: int)
    ensures IntToString(k) != LENGTH_TAG == Ascii("#BINLOG_LEN#")
  {
    IntToStringFirst(k);
  }

  lemma SlotsAreNotTag()
    ensures forall k: int {:trigger IntToString(k)} :: IntToString(k) != LENGTH_TAG
  {
    forall k: int {:trigger IntToString(k)} ensures IntToString(k) != LENGTH_TAG { SlotIsNotTag(k); }
  }

  /** Entries written at position `at`, over the slots that were there. */
  function Overwrite(slots: seq<Entry>, at: nat, es: seq<Entry>): seq<Entry>
    requires at <= |slots|
  {
    slots[..at] + es + (if at + |es| < |slots| then slots[at + |es|..] else [])
  }

  /** The batch of puts that writes the entries from slot `at` on. */
  function Batch(at: nat, es: seq<Entry>): Database
    requires forall e :: e in es ==> Storable(e)
  {
    if es == [] then map[]
    else Batch(at, es[..|es| - 1])[IntToString(at + |es| - 1) := Dump(es[|es| - 1])]
  }

  lemma {:induction false} BatchSlots(at: nat, es: seq<Entry>, k: int)
    requires forall e :: e in es ==> Storable(e)
    ensures IntToString(k) in Batch(at, es) <==> at <= k < at + |es|
    ensures at <= k < at + |es| ==> Batch(at, es)[IntToString(k)] == Dump(es[k - at])
    ensures LENGTH_TAG !in Batch(at, es)
  {
    if es != [] {
      var last := at + |es| - 1;
      BatchSlots(at, es[..|es| - 1], k);
      SlotIsNotTag(last);
      if k != last && IntToString(k) == IntToString(last) { IntToStringInjective(k, last); }
    }
  }

  lemma BatchOfNone(at: nat)
    ensures Batch(at, []) == map[]
  {
  }

  lemma BatchGrows(at: nat, es: seq<Entry>, i: nat)
    requires i < |es| && forall e :: e in es ==> Storable(e)
    ensures Batch(at, es[..i + 1]) == Batch(at, es[..i])[IntToString(at + i) := Dump(es[i])]
  {
    assert es[..i + 1][..i] == es[..i];
  }

  /** Writing a batch and the new length gives the image of the overwritten slots. */
  lemma WriteImage(db: Database, slots: seq<Entry>, length: int, es: seq<Entry>)
    requires Image(db, slots, length) && forall e :: e in es ==> Storable(e)
    ensures Image(db + Batch(length, es)[LENGTH_TAG := IntToString(length + |es|)],
                  Overwrite(slots, length, es), length + |es|)
  {
    var slots' := Overwrite(slots, length, es);
    var db' := db + Batch(length, es)[LENGTH_TAG := IntToString(length + |es|)];
    forall k | 0 <= k < |slots'| ensures HasSlot(db', k, slots'[k]) {
      if length <= k < length + |es| {
        NewSlot(db, length, es, k);
        assert slots'[k] == es[k - length];
      } else {
        assert slots'[k] == slots[k] && HasSlot(db, k, slots[k]);
        OldSlot(db, length, es, k);
      }
    }
    forall k: int | k < 0 || k >= |slots'| ensures NoSlot(db', k) {
      assert NoSlot(db, k);
      OldSlot(db, length, es, k);
    }
  }

  lemma NewSlot(db: Database, at: nat, es: seq<Entry>, k: int)
    requires at <= k < at + |es| && forall e :: e in es ==> Storable(e)
    ensures HasSlot(db + Batch(at, es)[LENGTH_TAG := IntToString(at + |es|)], k, es[k - at])
  {
    BatchSlots(at, es, k);
    SlotIsNotTag(k);
    assert es[k - at] in es;
  }

  /** A batch leaves the slots outside it as they are. */
  lemma OldSlot(db: Database, at: nat, es: seq<Entry>, k: int)
    requires !(at <= k < at + |es|) && forall e :: e in es ==> Storable(e)
    ensures var db' := db + Batch(at, es)[LENGTH_TAG := IntToString(at + |es|)];
            if IntToString(k) in db then IntToString(k) in db' && db'[IntToString(k)] == db[IntToString(k)]
            else IntToString(k) !in db'
  {
    BatchSlots(at, es, k);
    SlotIsNotTag(k);
  }

  lemma TagImage(db: Database, slots: seq<Entry>, length: int, length': int)
    requires Image(db, slots, length) && 0 <= length' <= |slots|
    ensures Image(db[LENGTH_TAG := IntToString(length')], slots, length')
  {
    SlotsAreNotTag();
    var db' := db[LENGTH_TAG := IntToString(length')];
    forall k | 0 <= k < |slots| ensures HasSlot(db', k, slots[k]) {
      assert HasSlot(db, k, slots[k]);
    }
    forall k: int | k < 0 || k >= |slots| ensures NoSlot(db', k) {
      assert NoSlot(db, k);
    }
  }

  /** Reads a slot that is there. */
  method LoadSlot(db: Database, k: int, ghost slots: seq<Entry>, ghost length: int) returns (e: Entry)
    requires Image(db, slots, length) && 0 <= k < |slots|
    ensures e == slots[k]
  {
    assert HasSlot(db, k, slots[k]);
    LoadOfDump(slots[k], []);
    assert Dump(slots[k]) + [] == db[IntToString(k)];
    e := LoadBinLogEntry(db[IntToString(k)]);
  }

  class BinLogger {
    var db: Database
    var length: int
    var lastLogTerm: int
    ghost var slots: seq<Entry>   // every slot ever written and not overwritten

    ghost predicate Valid()
      reads this
    {
      && Image(db, slots, length)
      && (length > 0 ==> lastLogTerm == slots[length - 1].term)
    }

    ghost function Log(): seq<Entry>
      reads this
      requires Valid()
    {
      slots[..length]
    }

    /** Slots a truncation left behind. */
    ghost function Stale(): seq<Entry>
      reads this
      requires Valid()
    {
      slots[length..]
    }

    /** Opens the database of an earlier logger; a length beyond 32 bits is not read back. */
    constructor (data: Database, ghost old_: seq<Entry>, ghost oldLength: int)
      requires Image(data, old_, oldLength)
      ensures db == data && slots == old_ && length == ClampInt32(oldLength)
      ensures oldLength <= INT32_MAX ==> Valid() && Log() == old_[..oldLength] && Stale() == old_[oldLength..]
      ensures length == 0 ==> lastLogTerm == -1
    {
      db, slots := data, old_;
      StringToIntOfIntToString(oldLength);
      var len := 0;
      var term := -1;
      if LENGTH_TAG in data && data[LENGTH_TAG] != [] {
        len := StringToInt(data[LENGTH_TAG]);
        if len > 0 {
          var e := LoadSlot(data, len - 1, old_, oldLength);
          term := e.term;
        }
      } else {
        IntToStringFirst(oldLength);
      }
      length, lastLogTerm := len, term;
    }

    method GetLength() returns (n: int)
      requires Valid()
      ensures n == |Log()|
    {
      n := length;
    }

    method GetLastLogIndexAndTerm() returns (index: int, term: int)
      requires Valid()
      ensures index == |Log()| - 1 && term == lastLogTerm
      ensures Log() != [] ==> term == LastTerm(Log())
    {
      index, term := length - 1, lastLogTerm;
    }

    /** Finds exactly the slots there are, whether or not a truncation dropped them. */
    method ReadSlot(i: int) returns (ok: bool, e: Entry)
      requires Valid()
      ensures ok <==> 0 <= i < |Log() + Stale()|
      ensures ok ==> e == (Log() + Stale())[i]
      ensures 0 <= i < |Log()| ==> ok && e == Log()[i]
    {
      assert slots == Log() + Stale();
      if IntToString(i) in db {
        assert !NoSlot(db, i);
        e := LoadSlot(db, i, slots, length);
        ok := true;
      } else {
        assert 0 <= i < |slots| ==> HasSlot(db, i, slots[i]);
        ok, e := false, Entry(NOP, [], [], 0);
      }
    }

    /** Keeps the slots up to the index; the store must hold the last one kept. */
    method Truncate(slot: int)
      requires Valid() && slot < |slots|
      modifies this
      ensures Valid() && slots == old(slots) && length == (if slot < -1 then 0 else slot + 1)
      ensures length == 0 ==> lastLogTerm == old(lastLogTerm)
    {
      var keep := if slot < -1 then 0 else slot + 1;
      var db' := db[LENGTH_TAG := IntToString(keep)];
      TagImage(db, slots, length, keep);
      var term := lastLogTerm;
      if keep > 0 {
        var e := LoadSlot(db', keep - 1, slots, keep);
        term := e.term;
      }
      db, length, lastLogTerm := db', keep, term;
    }

    method WriteEntry(e: Entry)
      requires Valid() && Storable(e)
      modifies this
      ensures Valid() && Log() == old(Log()) + [e] && lastLogTerm == e.term
      ensures Stale() == if old(Stale()) == [] then [] else old(Stale())[1..]
    {
      var buf := DumpBinLogEntry(e);
      WriteImage(db, slots, length, [e]);
      assert [e][..0] == [];
      assert Batch(length, [e]) == map[IntToString(length) := Dump(e)];
      var batch := map[IntToString(length) := buf[..]];
      batch := batch[LENGTH_TAG := IntToString(length + 1)];
      db := db + batch;
      slots := Overwrite(slots, length, [e]);
      length := length + 1;
      lastLogTerm := e.term;
    }

    method WriteEntryList(es: seq<Entry>)
      requires Valid() && forall e :: e in es ==> Storable(e)
      modifies this
      ensures Valid() && Log() == old(Log()) + es
      ensures Stale() == if |es| < |old(Stale())| then old(Stale())[|es|..] else []
      ensures lastLogTerm == if es == [] then old(lastLogTerm) else LastTerm(es)
    {
      var batch, term := FillBatch(es);
      WriteImage(db, slots, length, es);
      batch := batch[LENGTH_TAG := IntToString(length + |es|)];
      db := db + batch;
      slots := Overwrite(slots, length, es);
      length, lastLogTerm := length + |es|, term;
    }

    /** The loop that puts the entries into the batch, with the term of the last one. */
    method FillBatch(es: seq<Entry>) returns (batch: Database, term: int)
      requires Valid() && forall e :: e in es ==> Storable(e)
      ensures batch == Batch(length, es)
      ensures term == if es == [] then lastLogTerm else LastTerm(es)
    {
      hide Batch, Dump, Storable;
      batch, term := map[], lastLogTerm;
      BatchOfNone(length);
      assert es[..0] == [];
      var i := 0;
      while i < |es|
        invariant 0 <= i <= |es|
        invariant batch == Batch(length, es[..i])
        invariant term == if i == 0 then lastLogTerm else es[i - 1].term
      {
        term := es[i].term;
        var buf := DumpBinLogEntry(es[i]);
        BatchGrows(length, es, i);
        batch := batch[IntToString(length + i) := buf[..]];
        i := i + 1;
      }
      assert es[..|es|] == es;
    }
  }

  // ----- whole histories -----

  datatype LogOp = Write(e: Entry) | WriteAll(es: seq<Entry>) | Cut(slot: int) | Reopen

  /** What an operation does to a plain sequence; a cut that is out of range is not made. */
  function Effect(log: seq<Entry>, op: LogOp): seq<Entry> {
    match op
    case Write(e) => log + [e]
    case WriteAll(es) => log + es
    case Cut(slot) => if slot >= |log| then log else if slot < -1 then [] else log[..slot + 1]
    case Reopen => log
  }

  function Outcome(ops: seq<LogOp>): seq<Entry> {
    if ops == [] then [] else Effect(Outcome(ops[..|ops| - 1]), ops[|ops| - 1])
  }

  predicate OpStorable(op: LogOp) {
    match op
    case Write(e) => Storable(e)
    case WriteAll(es) => forall e :: e in es ==> Storable(e)
    case _ => true
  }

  /** Every reopening finds a length that fits the 32-bit parse. */
  ghost predicate ReopensFit(ops: seq<LogOp>) {
    forall k :: 0 <= k < |ops| && ops[k].Reopen? ==> |Outcome(ops[..k])| <= INT32_MAX
  }

  method RunOp(logger: BinLogger, op: LogOp) returns (next: BinLogger)
    requires logger.Valid() && OpStorable(op) && (op.Reopen? ==> |logger.Log()| <= INT32_MAX)
    modifies logger
    ensures next.Valid() && next.Log() == Effect(old(logger.Log()), op) && (next == logger || fresh(next))
  {
    next := logger;
    match op {
      case Write(e) => logger.WriteEntry(e);
      case WriteAll(es) => logger.WriteEntryList(es);
      case Cut(slot) =>
        if slot < logger.length {
          ghost var before := logger.slots;
          logger.Truncate(slot);
          assert logger.slots == before;
        }
      case Reopen =>
        next := new BinLogger(logger.db, logger.slots, logger.length);
    }
  }

  /**
   For every sequence of writes, batch writes, truncations and reopenings the logger holds the plain
   sequence: every slot below its length reads as the entry there.
   */
  method RunScript(ops: seq<LogOp>) returns (logger: BinLogger)
    requires ReopensFit(ops) && forall op :: op in ops ==> OpStorable(op)
    ensures fresh(logger) && logger.Valid() && logger.Log() == Outcome(ops)
    ensures Outcome(ops) != [] ==> logger.lastLogTerm == LastTerm(Outcome(ops))
  {
    EmptyImage();
    logger := new BinLogger(map[], [], 0);
    var i := 0;
    while i < |ops|
      invariant 0 <= i <= |ops| && fresh(logger) && logger.Valid() && logger.Log() == Outcome(ops[..i])
    {
      assert ops[..i + 1][..i] == ops[..i] && ops[i] in ops;
      logger := RunOp(logger, ops[i]);
      i := i + 1;
    }
    assert ops[..|ops|] == ops;
  }

  lemma EmptyImage()
    ensures Image(map[], [], 0)
  {
  }
}
