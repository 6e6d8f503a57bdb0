/**
Trace records on their way to disk: the per-thread buffer, the loop around
write(), and the reader that maps the file back into records.
*/
module Trace {
  import opened Options
  import opened Lcg

  type Byte = x: nat | x < 0x100
  type Word32 = x: nat | x < 0x1_0000_0000

  const MaxInstrSize: nat := 15
  const RecordSize: nat := 48

  /** struct individual_trace_record, packed. */
  datatype Record = Record(time: Word, rip: Word, rsp: Word, code: Word32, mxcsr: Word32,
                           instruction: seq<Byte>, pad: Byte)

  predicate Packed(r: Record) {
    |r.instruction| == MaxInstrSize
  }

  /** All bits set indicates an abort. */
  function AbortRecord(time: Word): (r: Record)
    ensures Packed(r)
  {
    var ff := seq(MaxInstrSize, _ => 0xff as Byte);
    Record(time, 0xffff_ffff_ffff_ffff, 0xffff_ffff_ffff_ffff, 0xffff_ffff, 0xffff_ffff, ff, 0xff)
  }

  /** The n low-order bytes of v, least significant first. */
  function LittleEndian(n: nat, v: nat): (s: seq<Byte>)
    ensures |s| == n
  {
    if n == 0 then [] else [v % 0x100] + LittleEndian(n - 1, v / 0x100)
  }

  function Value(s: seq<Byte>): nat {
    if s == [] then 0 else s[0] + 0x100 * Value(s[1..])
  }

  function Range(n: nat): (r: nat)
    ensures r > 0
  {
    if n == 0 then 1 else 0x100 * Range(n - 1)
  }

  lemma {:induction false} ValueRange(s: seq<Byte>)
    ensures Value(s) < Range(|s|)
  {
    if s != [] {
      ValueRange(s[1..]);
    }
  }

  lemma {:induction false} LittleEndianValue(n: nat, v: nat)
    requires v < Range(n)
    ensures Value(LittleEndian(n, v)) == v
  {
    if n > 0 {
      LittleEndianValue(n - 1, v / 0x100);
      assert LittleEndian(n, v)[1..] == LittleEndian(n - 1, v / 0x100);
    }
  }

  lemma Ranges()
    ensures Range(4) == 0x1_0000_0000
    ensures Range(8) == 0x1_0000_0000_0000_0000
  {
    assert Range(2) == 0x1_0000;
    assert Range(3) == 0x100_0000;
    assert Range(5) == 0x100_0000_0000;
    assert Range(6) == 0x1_0000_0000_0000;
    assert Range(7) == 0x100_0000_0000_0000;
  }

  function Encode(r: Record): (s: seq<Byte>)
    requires Packed(r)
    ensures |s| == RecordSize
  {
    LittleEndian(8, r.time) + LittleEndian(8, r.rip) + LittleEndian(8, r.rsp)
      + LittleEndian(4, r.code) + LittleEndian(4, r.mxcsr) + r.instruction + [r.pad]
  }

  function Word64At(s: seq<Byte>, k: nat): Word
    requires k + 8 <= |s|
  {
    ValueRange(s[k..k + 8]);
    Ranges();
    Value(s[k..k + 8])
  }

  function Word32At(s: seq<Byte>, k: nat): Word32
    requires k + 4 <= |s|
  {
    ValueRange(s[k..k + 4]);
    Ranges();
    Value(s[k..k + 4])
  }

  function Decode(s: seq<Byte>): (r: Record)
    requires |s| == RecordSize
    ensures Packed(r)
  {
    Record(Word64At(s, 0), Word64At(s, 8), Word64At(s, 16), Word32At(s, 24), Word32At(s, 28), s[32..47], s[47])
  }

  lemma DecodeEncode(r: Record)
    requires Packed(r)
    ensures Decode(Encode(r)) == r
  {
    hide LittleEndian, Value, Range;
    Ranges();
    var s := Encode(r);
    LittleEndianValue(8, r.time);
    LittleEndianValue(8, r.rip);
    LittleEndianValue(8, r.rsp);
    LittleEndianValue(4, r.code);
    LittleEndianValue(4, r.mxcsr);
    assert s[0..8] == LittleEndian(8, r.time);
    assert s[8..16] == LittleEndian(8, r.rip);
    assert s[16..24] == LittleEndian(8, r.rsp);
    assert s[24..28] == LittleEndian(4, r.code);
    assert s[28..32] == LittleEndian(4, r.mxcsr);
    assert s[32..47] == r.instruction;
  }

  /** The fields lie where the packed C structure has them. */
  lemma FieldsInPlace(r: Record)
    requires Packed(r)
    ensures var s := Encode(r);
      && Word64At(s, 0) == r.time && Word64At(s, 8) == r.rip && Word64At(s, 16) == r.rsp
      && Word32At(s, 24) == r.code && Word32At(s, 28) == r.mxcsr && s[32..47] == r.instruction && s[47] == r.pad
  {
    DecodeEncode(r);
    hide Encode;
  }

  predicate Ones(s: seq<Byte>) {
    forall k :: 0 <= k < |s| ==> s[k] == 0xff
  }

  lemma {:induction false} AllOnes(n: nat)
    ensures Ones(LittleEndian(n, Range(n) - 1))
  {
    if n > 0 {
      AllOnes(n - 1);
      assert Range(n) - 1 == 0xff + 0x100 * (Range(n - 1) - 1);
      assert LittleEndian(n, Range(n) - 1) == [0xff] + LittleEndian(n - 1, Range(n - 1) - 1);
    }
  }

  /** An abort record is 0xff throughout, but for its time. */
  lemma AbortBytes(time: Word)
    ensures var s := Encode(AbortRecord(time));
      Word64At(s, 0) == time && Ones(s[8..])
  {
    var r := AbortRecord(time);
    FieldsInPlace(r);
    Ranges();
    hide LittleEndian, Range, Word64At, Word32At;
    AllOnes(8);
    AllOnes(4);
  }

  predicate AllPacked(rs: seq<Record>) {
    forall i :: 0 <= i < |rs| ==> Packed(rs[i])
  }

  function EncodeAll(rs: seq<Record>): (s: seq<Byte>)
    requires AllPacked(rs)
    ensures |s| == RecordSize * |rs|
  {
    if rs == [] then [] else EncodeAll(rs[..|rs| - 1]) + Encode(rs[|rs| - 1])
  }

  lemma EncodeAllSnoc(rs: seq<Record>, r: Record)
    requires AllPacked(rs) && Packed(r)
    ensures EncodeAll(rs + [r]) == EncodeAll(rs) + Encode(r)
  {
    assert (rs + [r])[..|rs|] == rs;
  }

  lemma EncodeNothing(rs: seq<Record>)
    requires rs == []
    ensures EncodeAll(rs) == []
  {}

  lemma {:induction false} EncodeAllAt(rs: seq<Record>, i: nat)
    requires AllPacked(rs) && i < |rs|
    ensures EncodeAll(rs)[RecordSize * i..RecordSize * i + RecordSize] == Encode(rs[i])
  {
    var init := rs[..|rs| - 1];
    if i < |rs| - 1 {
      EncodeAllAt(init, i);
    }
  }

  /** What trace_attach() finds in a file; mapping an empty file fails, as does a torn record. */
  function Attach(file: seq<Byte>): Option<nat> {
    if |file| % RecordSize != 0 || |file| == 0 then None else Some(|file| / RecordSize)
  }

  /** The reader sees exactly the records, unless there are none. */
  lemma ReaderSeesRecords(rs: seq<Record>)
    requires AllPacked(rs)
    ensures Attach(EncodeAll(rs)) == if rs == [] then None else Some(|rs|)
    ensures forall i :: 0 <= i < |rs| ==> Decode(EncodeAll(rs)[RecordSize * i..RecordSize * i + RecordSize]) == rs[i]
  {
    hide EncodeAll, Decode, Encode;
    forall i | 0 <= i < |rs| ensures Decode(EncodeAll(rs)[RecordSize * i..RecordSize * i + RecordSize]) == rs[i] {
      EncodeAllAt(rs, i);
      DecodeEncode(rs[i]);
    }
  }

  /** trace_map() with a filter that collects what it is given. */
  method TraceMap(file: seq<Byte>) returns (r: Option<seq<Record>>)
    ensures forall rs :: AllPacked(rs) && rs != [] && file == EncodeAll(rs) ==> r == Some(rs)
    ensures r.None? <==> |file| == 0 || |file| % RecordSize != 0
    ensures r.Some? ==> AllPacked(r.value) && file == EncodeAll(r.value)
  {
    hide EncodeAll, Encode, Decode, Packed;
    EncodeNothing([]);
    var numrecs := Attach(file);
    if numrecs.None? {
      forall rs | AllPacked(rs) && rs != [] ensures file != EncodeAll(rs) {
        ReaderSeesRecords(rs);
      }
      return None;
    }
    var recs: seq<Record> := [];
    var i := 0;
    while i < numrecs.value
      invariant 0 <= i <= numrecs.value && |recs| == i
      invariant AllPacked(recs)
      invariant EncodeAll(recs) == file[..RecordSize * i]
    {
      assert RecordSize * (i + 1) <= |file|;
      var bytes := file[RecordSize * i..RecordSize * i + RecordSize];
      EncodeDecode(bytes);
      EncodeAllSnoc(recs, Decode(bytes));
      assert file[..RecordSize * i] + bytes == file[..RecordSize * (i + 1)];
      recs := recs + [Decode(bytes)];
      i := i + 1;
    }
    assert file[..RecordSize * i] == file;
    forall rs | AllPacked(rs) && rs != [] && file == EncodeAll(rs) ensures recs == rs {
      SameEncoding(rs, recs);
    }
    return Some(recs);
  }

  lemma SameEncoding(rs: seq<Record>, qs: seq<Record>)
    requires AllPacked(rs) && AllPacked(qs) && EncodeAll(rs) == EncodeAll(qs)
    ensures rs == qs
  {
    ReaderSeesRecords(rs);
    ReaderSeesRecords(qs);
  }

  lemma {:induction false} ValueLittleEndian(s: seq<Byte>)
    ensures LittleEndian(|s|, Value(s)) == s
  {
    if s != [] {
      ValueLittleEndian(s[1..]);
      assert Value(s) % 0x100 == s[0] && Value(s) / 0x100 == Value(s[1..]);
    }
  }

  lemma EncodeDecode(s: seq<Byte>)
    requires |s| == RecordSize
    ensures Encode(Decode(s)) == s
  {
    hide LittleEndian, Value, Range;
    ValueLittleEndian(s[0..8]);
    ValueLittleEndian(s[8..16]);
    ValueLittleEndian(s[16..24]);
    ValueLittleEndian(s[24..28]);
    ValueLittleEndian(s[28..32]);
    assert s == s[0..8] + s[8..16] + s[16..24] + s[24..28] + s[28..32] + s[32..47] + [s[47]];
  }

  /** An open file: what it holds, and how the coming calls of write() will go. */
  class File {
    var data: seq<Byte>
    var calls: nat
    const results: nat -> int

    constructor (results: nat -> int)
      ensures data == [] && this.results == results
    {
      data, calls, this.results := [], 0, results;
    }

    /** write(): an error, or at least one byte when there is one. */
    method Write(buf: seq<Byte>) returns (n: int)
      modifies this
      ensures n < 0 ==> data == old(data)
      ensures n >= 0 ==> (buf == [] <==> n == 0) && n <= |buf| && data == old(data) + buf[..n]
    {
      n := results(calls);
      calls := calls + 1;
      if n < 0 {
        return n;
      }
      n := if n > |buf| then |buf| else if n == 0 && buf != [] then 1 else n;
      data := data + buf[..n];
    }

    /** writeall() */
    method WriteAll(buf: seq<Byte>) returns (rc: int)
      modifies this
      ensures rc == 0 || rc == -1
      ensures rc == 0 ==> data == old(data) + buf
      ensures rc == -1 ==> exists k :: 0 <= k <= |buf| && data == old(data) + buf[..k]
    {
      var n := Write(buf);
      if n < 0 {
        assert data == old(data) + buf[..0];
        return -1;
      }
      var done := n;
      while done < |buf|
        invariant 0 <= done <= |buf| && data == old(data) + buf[..done]
        decreases |buf| - done
      {
        n := Write(buf[done..]);
        if n < 0 {
          return -1;
        }
        assert buf[..done] + buf[done..][..n] == buf[..done + n];
        done := done + n;
      }
      return 0;
    }
  }

  /** The trace of one monitored thread: the buffer in front of its file. */
  class Buffer {
    const buflen: nat
    const fd: File
    const records: array<Record>
    var count: nat

    /** Everything pushed so far, and whether some write failed. */
    ghost var pushed: seq<Record>
    ghost var failed: bool

    /** Unless a write failed, the file and the buffer together hold what was pushed. */
    ghost predicate Consistent()
      reads this, fd, records
    {
      && records.Length == buflen && count <= buflen
      && AllPacked(records[..count]) && AllPacked(pushed)
      && (!failed ==> EncodeAll(pushed) == fd.data + EncodeAll(records[..count]))
    }

    ghost predicate Valid()
      reads this, fd, records
    {
      Consistent() && (buflen != 0 ==> count < buflen)
    }

    constructor (buflen: nat, results: nat -> int)
      ensures Valid() && fresh(fd) && fresh(records)
      ensures pushed == [] && !failed && count == 0 && this.buflen == buflen
    {
      this.buflen := buflen;
      fd := new File(results);
      records := new Record[buflen](_ => AbortRecord(0));
      count, pushed, failed := 0, [], false;
    }

    /** The bytes of the buffered records. */
    method Bytes() returns (s: seq<Byte>)
      requires count <= records.Length && AllPacked(records[..count])
      ensures s == EncodeAll(records[..count])
    {
      s := [];
      var i := 0;
      while i < count
        invariant 0 <= i <= count && s == EncodeAll(records[..i])
      {
        assert records[..i + 1] == records[..i] + [records[i]];
        EncodeAllSnoc(records[..i], records[i]);
        s := s + Encode(records[i]);
        i := i + 1;
      }
    }

    /** flush_trace_records() */
    method Flush() returns (rc: int)
      requires Consistent()
      modifies fd, this`count, this`failed
      ensures Valid() && count == 0 && (rc == 0 || rc == -1)
      ensures failed == (old(failed) || rc == -1)
      ensures !failed ==> fd.data == EncodeAll(pushed)
    {
      hide EncodeAll;
      EncodeNothing(records[..0]);
      if buflen == 0 {
        return 0;
      }
      rc := 0;
      if count > 0 {
        var bytes := Bytes();
        rc := fd.WriteAll(bytes);
        count := 0;
        failed := failed || rc == -1;
      }
    }

    /** push_trace_record() */
    method Push(r: Record) returns (rc: int)
      requires Valid() && Packed(r)
      modifies fd, records, this`count, this`pushed, this`failed
      ensures Valid() && pushed == old(pushed) + [r] && (rc == 0 || rc == -1)
      ensures failed == (old(failed) || rc == -1)
    {
      hide EncodeAll, Encode, Packed;
      EncodeAllSnoc(pushed, r);
      EncodeNothing(records[..0]);
      pushed := pushed + [r];
      if buflen == 0 {
        rc := fd.WriteAll(Encode(r));
        failed := failed || rc == -1;
        return;
      }
      EncodeAllSnoc(records[..count], r);
      records[count] := r;
      assert records[..count + 1] == old(records[..count]) + [r];
      count := count + 1;
      if count >= buflen {
        rc := Flush();
      } else {
        rc := 0;
      }
    }
  }
}
