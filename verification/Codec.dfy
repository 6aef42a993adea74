/**
 The byte form of a log entry: BinLogger::DumpBinLogEntry and LoadBinLogEntry on a little-endian
 host: one byte of operation, then key and value each behind a 32-bit length, then a 64-bit term.
 */
module Codec {
  import opened Base

  const INT32_LIMIT := 0x8000_0000
  const INT64_LIMIT := 0x8000_0000_0000_0000
  const HEADER := 17   // 1 + 4 + 4 + 8

  /** The entries whose dumped length and term fit the integer types of the code. */
  predicate Storable(e: Entry) {
    |e.key| + |e.value| + HEADER < INT32_LIMIT && -INT64_LIMIT <= e.term < INT64_LIMIT
  }

  function Pow256(n: nat): (p: nat)
    ensures p > 0
  {
    if n == 0 then 1 else 256 * Pow256(n - 1)
  }

  /** The n low bytes of v, least significant first. */
  function LittleEndian(v: nat, n: nat): (s: Bytes)
    ensures |s| == n
  {
    if n == 0 then [] else [v % 256] + LittleEndian(v / 256, n - 1)
  }

  function Value(s: Bytes): nat {
    if s == [] then 0 else s[0] + 256 * Value(s[1..])
  }

  lemma {:induction false} ValueOfLittleEndian(v: nat, n: nat)
    requires v < Pow256(n)
    ensures Value(LittleEndian(v, n)) == v
  {
    if n > 0 {
      ValueOfLittleEndian(v / 256, n - 1);
      assert LittleEndian(v, n)[1..] == LittleEndian(v / 256, n - 1);
    }
  }

  lemma Widths()
    ensures Pow256(4) == 2 * INT32_LIMIT && Pow256(8) == 2 * INT64_LIMIT
  {
    assert Pow256(1) == 256 && Pow256(2) == 65536 && Pow256(3) == 0x100_0000;
    assert Pow256(5) == 256 * Pow256(4) && Pow256(6) == 256 * Pow256(5) && Pow256(7) == 256 * Pow256(6);
  }

  /** Two's complement of a signed number that fits the width, and back. */
  function Unsigned(v: int, limit: int): nat
    requires -limit <= v < limit
  {
    if v < 0 then v + 2 * limit else v
  }

  function Signed(v: nat, limit: int): int {
    if v < limit then v else v - 2 * limit
  }

  function Int32Bytes(v: int): Bytes
    requires -INT32_LIMIT <= v < INT32_LIMIT
  {
    LittleEndian(Unsigned(v, INT32_LIMIT), 4)
  }

  function Int64Bytes(v: int): Bytes
    requires -INT64_LIMIT <= v < INT64_LIMIT
  {
    LittleEndian(Unsigned(v, INT64_LIMIT), 8)
  }

  lemma Int32RoundTrip(v: int)
    requires -INT32_LIMIT <= v < INT32_LIMIT
    ensures Signed(Value(Int32Bytes(v)), INT32_LIMIT) == v
  {
    Widths();
    ValueOfLittleEndian(Unsigned(v, INT32_LIMIT), 4);
  }

  lemma Int64RoundTrip(v: int)
    requires -INT64_LIMIT <= v < INT64_LIMIT
    ensures Signed(Value(Int64Bytes(v)), INT64_LIMIT) == v
  {
    Widths();
    ValueOfLittleEndian(Unsigned(v, INT64_LIMIT), 8);
  }

  function Dump(e: Entry): Bytes
    requires Storable(e)
  {
    [e.op] + Int32Bytes(|e.key|) + e.key + Int32Bytes(|e.value|) + e.value + Int64Bytes(e.term)
  }

  /** The number four bytes stand for, least significant first. */
  function Word(s: Bytes): nat
    requires |s| >= 4
  {
    s[0] as int + 0x100 * (s[1] as int) + 0x1_0000 * (s[2] as int) + 0x100_0000 * (s[3] as int)
  }

  lemma ValueOfWord(s: Bytes)
    requires |s| == 4
    ensures Value(s) == Word(s)
  {
    assert s[3..][1..] == [] && s[2..][1..] == s[3..] && s[1..][1..] == s[2..];
    assert Value(s[2..]) == s[2] as int + 256 * Value(s[3..]) && Value(s[3..]) == s[3];
  }

  lemma ValueOfTwoWords(s: Bytes)
    requires |s| == 8
    ensures Value(s) == Word(s) + 0x1_0000_0000 * Word(s[4..])
  {
    ValueOfWord(s[4..]);
    assert s[3..][1..] == s[4..] && s[2..][1..] == s[3..] && s[1..][1..] == s[2..];
    assert Value(s[3..]) == s[3] as int + 256 * Value(s[4..]);
    assert Value(s[2..]) == s[2] as int + 256 * Value(s[3..]);
  }

  /**
   Byte for byte: the operation, the key's length in four bytes, the key, the same for the value, and the
   term in eight bytes, a negative one less from 2 to the 64th. Lengths and term have their lowest byte first.
   */
  lemma DumpLayout(e: Entry)
    requires Storable(e)
    ensures var d, p := Dump(e), 5 + |e.key|;
            && |d| == 17 + |e.key| + |e.value| && d[0] == e.op
            && Word(d[1..]) == |e.key| && d[5..p] == e.key
            && Word(d[p..]) == |e.value| && d[p + 4..p + 4 + |e.value|] == e.value
            && Word(d[p + 4 + |e.value|..]) + 0x1_0000_0000 * Word(d[p + 8 + |e.value|..])
               == if e.term < 0 then e.term + 0x1_0000_0000_0000_0000 else e.term
  {
    var d, p := Dump(e), 5 + |e.key|;
    var q := p + 4 + |e.value|;
    var head := [e.op] + Int32Bytes(|e.key|) + e.key;
    Widths();
    ValueOfLittleEndian(|e.key|, 4);
    ValueOfLittleEndian(|e.value|, 4);
    ValueOfLittleEndian(Unsigned(e.term, INT64_LIMIT), 8);
    assert d[1..5] == Int32Bytes(|e.key|);
    assert |head| == p && d[..p] == head;
    assert d[p..p + 4] == Int32Bytes(|e.value|);
    assert d[q..q + 8] == Int64Bytes(e.term);
    ValueOfWord(d[1..5]);
    ValueOfWord(d[p..p + 4]);
    ValueOfTwoWords(d[q..q + 8]);
    assert d[q..q + 8][4..] == d[q + 4..q + 8];
  }

  /** A field behind its 32-bit length at position p; None where the read would leave the buffer. */
  function LoadField(buf: Bytes, p: nat): Option<(Bytes, nat)> {
    if p + 4 > |buf| then None
    else
      var size := Signed(Value(buf[p..p + 4]), INT32_LIMIT);
      if size < 0 || p + 4 + size > |buf| then None
      else Some((buf[p + 4..p + 4 + size], p + 4 + size))
  }

  function Load(buf: Bytes): Option<Entry> {
    if buf == [] then None
    else
      match LoadField(buf, 1)
      case None => None
      case Some((key, p)) =>
        match LoadField(buf, p)
        case None => None
        case Some((value, q)) =>
          if q + 8 > |buf| then None
          else Some(Entry(buf[0], key, value, Signed(Value(buf[q..q + 8]), INT64_LIMIT)))
  }

  lemma LoadFieldBack(before: Bytes, field: Bytes, after: Bytes)
    requires |field| < INT32_LIMIT
    ensures LoadField(before + Int32Bytes(|field|) + field + after, |before|)
            == Some((field, |before| + 4 + |field|))
  {
    var buf := before + Int32Bytes(|field|) + field + after;
    Int32RoundTrip(|field|);
    assert buf[|before|..|before| + 4] == Int32Bytes(|field|);
    assert buf[|before| + 4..|before| + 4 + |field|] == field;
  }

  /** Loading a dumped entry gives it back, whatever bytes follow. */
  lemma LoadOfDump(e: Entry, rest: Bytes)
    requires Storable(e)
    ensures Load(Dump(e) + rest) == Some(e)
  {
    var buf := Dump(e) + rest;
    var tail := Int32Bytes(|e.value|) + e.value + Int64Bytes(e.term) + rest;
    assert buf == [e.op] + Int32Bytes(|e.key|) + e.key + tail;
    LoadFieldBack([e.op], e.key, tail);
    var head := [e.op] + Int32Bytes(|e.key|) + e.key;
    var p := 5 + |e.key|;
    assert |head| == p;
    assert buf == head + Int32Bytes(|e.value|) + e.value + (Int64Bytes(e.term) + rest);
    LoadFieldBack(head, e.value, Int64Bytes(e.term) + rest);
    var q := p + 4 + |e.value|;
    assert buf[q..q + 8] == Int64Bytes(e.term);
    Int64RoundTrip(e.term);
  }

  /** Different entries have different byte forms, none the beginning of another. */
  lemma DumpPrefixFree(e: Entry, f: Entry)
    requires Storable(e) && Storable(f) && Dump(e) <= Dump(f)
    ensures e == f
  {
    LoadOfDump(e, Dump(f)[|Dump(e)|..]);
    LoadOfDump(f, []);
    assert Dump(e) + Dump(f)[|Dump(e)|..] == Dump(f) && Dump(f) + [] == Dump(f);
  }

  // ----- the code's own form: an offset moving through a buffer -----

  /** memcpy to the position p of the buffer. */
  method CopyTo(buf: array<byte>, p: nat, src: Bytes)
    requires p + |src| <= buf.Length
    modifies buf
    ensures buf[..] == old(buf[..p]) + src + old(buf[p + |src|..])
  {
    var i := 0;
    while i < |src|
      invariant 0 <= i <= |src|
      invariant buf[..p] == old(buf[..p]) && buf[p..p + i] == src[..i] && buf[p + i..] == old(buf[p + i..])
    {
      buf[p + i] := src[i];
      i := i + 1;
      assert buf[p..p + i] == src[..i];
    }
    assert buf[..] == buf[..p] + buf[p..p + |src|] + buf[p + |src|..];
  }

  method DumpBinLogEntry(e: Entry) returns (buf: array<byte>)
    requires Storable(e)
    ensures fresh(buf) && buf[..] == Dump(e)
  {
    buf := new byte[HEADER + |e.key| + |e.value|];
    var p := 0;
    buf[p] := e.op;
    p := p + 1;
    assert buf[..p] == [e.op];
    p := Append(buf, p, Int32Bytes(|e.key|));
    p := Append(buf, p, e.key);
    p := Append(buf, p, Int32Bytes(|e.value|));
    p := Append(buf, p, e.value);
    p := Append(buf, p, Int64Bytes(e.term));
    assert buf[..p] == buf[..];
  }

  method Append(buf: array<byte>, p: nat, src: Bytes) returns (q: nat)
    requires p + |src| <= buf.Length
    modifies buf
    ensures q == p + |src| && buf[..q] == old(buf[..p]) + src
  {
    CopyTo(buf, p, src);
    q := p + |src|;
    assert buf[..q] == buf[..][..q];
  }

  method LoadBinLogEntry(buf: Bytes) returns (e: Entry)
    requires Load(buf).Some?
    ensures Load(buf) == Some(e)
  {
    var p := 0;
    var op := buf[p];
    p := p + 1;
    var keySize := Signed(Value(buf[p..p + 4]), INT32_LIMIT);
    p := p + 4;
    var key := buf[p..p + keySize];
    p := p + keySize;
    var valueSize := Signed(Value(buf[p..p + 4]), INT32_LIMIT);
    p := p + 4;
    var value := buf[p..p + valueSize];
    p := p + valueSize;
    e := Entry(op, key, value, Signed(Value(buf[p..p + 8]), INT64_LIMIT));
  }
}
