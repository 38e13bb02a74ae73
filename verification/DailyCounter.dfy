/** The daily counter file: fixed records of 288 five-minute values, found through an index
    (internal/db/counter/daily_counter.go). A float64 is its eight bytes. */
module DailyCounter {
  import opened Endian
  import opened DataStream
  import opened Layout
  import opened Results
  import opened KeyFile
  import opened HashBlock
  import opened Chains
  import opened IndexKeyFile

  const BUCKETS_PER_DAY := 288
  const BYTES_PER_BUCKET := 8
  const RECORD_SIZE := 2306

  type Float64 = b: bytes | |b| == 8 witness [0, 0, 0, 0, 0, 0, 0, 0]

  /** The bits of Go's math.NaN(). */
  const NAN: Float64 := [0x7f, 0xf8, 0, 0, 0, 0, 0, 1]

  /** An exponent of ones over a fraction that is not zero (IEEE 754, section 3.4). */
  predicate IsNaN(f: Float64) {
    f[0] as int % 0x80 == 0x7f && f[1] as int / 0x10 == 0xf && (f[1] as int % 0x10 != 0 || exists i :: 2 <= i < 8 && f[i] != 0)
  }

  /** As a number, the bits without the sign lie above those of infinity. */
  lemma NaNBits(f: Float64)
    ensures IsNaN(f) <==> Unsigned(f) % 0x8000_0000_0000_0000 > 0x7ff0_0000_0000_0000
    ensures Unsigned(NAN) == 0x7ff8_0000_0000_0001
  {
    PowValues();
    TwoAndSix(f);
    TwoAndSix(NAN);
    UnsignedZero(f[2..]);
    UnsignedConcat([0, 0, 0, 0, 0], [1]);
    UnsignedZero([0, 0, 0, 0, 0]);
    assert NAN[2..] == [0, 0, 0, 0, 0] + [1];
    assert Unsigned([1]) == 1;
    ExponentAndFraction(f[0], f[1], Unsigned(f[2..]));
    assert (exists i :: 2 <= i < 8 && f[i] != 0) <==> !forall i :: 0 <= i < 6 ==> f[2..][i] == 0 by {
      if i :| 2 <= i < 8 && f[i] != 0 {
        assert f[2..][i - 2] != 0;
      }
    }
  }

  lemma TwoAndSix(f: Float64)
    ensures Unsigned(f) == f[0] as int * 0x100_0000_0000_0000 + f[1] as int * 0x1_0000_0000_0000 + Unsigned(f[2..])
    ensures Unsigned(f[2..]) < 0x1_0000_0000_0000
  {
    assert f == f[..2] + f[2..] && f[..2] == [f[0]] + [f[1]];
    UnsignedConcat(f[..2], f[2..]);
    UnsignedConcat([f[0]], [f[1]]);
    UnsignedBound(f[2..]);
    PowValues();
    assert Pow256(6) == 0x100 * Pow256(5);
  }

  lemma ExponentAndFraction(b0: byte, b1: byte, rest: nat)
    requires rest < 0x1_0000_0000_0000
    ensures b0 as int % 0x80 == 0x7f && b1 as int / 0x10 == 0xf && (b1 as int % 0x10 != 0 || rest != 0) <==>
      (b0 as int * 0x100_0000_0000_0000 + b1 as int * 0x1_0000_0000_0000 + rest) % 0x8000_0000_0000_0000 > 0x7ff0_0000_0000_0000
  {
  }

  function Number(f: Float64): Option<Float64> {
    if IsNaN(f) then None else Some(f)
  }

  // ----- buckets -------------------------------------------------------------------------

  function HHMMToBucket(hhmm: nat): int {
    hhmm / 100 * 12 + hhmm % 100 / 5
  }

  function BucketToHHMM(bucket: nat): int {
    bucket / 12 * 100 + bucket % 12 * 5
  }

  function TimeSecToBucket(sec: nat): int {
    sec / 300
  }

  /** A time of day falls into the bucket that starts at or less than five minutes before it,
      by its clock reading and by its seconds alike. */
  lemma BucketOfTime(h: nat, m: nat, s: nat)
    requires h < 24 && m < 60 && s < 60
    ensures var b := HHMMToBucket(h * 100 + m);
      && 0 <= b < 288 && b == TimeSecToBucket(h * 3600 + m * 60 + s)
      && BucketToHHMM(b) == h * 100 + (m - m % 5) && HHMMToBucket(BucketToHHMM(b)) == b
  {
    assert (h * 100 + m) / 100 == h && (h * 100 + m) % 100 == m;
    var b := h * 12 + m / 5;
    assert b / 12 == h && b % 12 == m / 5;
    var hhmm := h * 100 + m / 5 * 5;
    assert hhmm / 100 == h && hhmm % 100 == m / 5 * 5;
  }

  // ----- keys ----------------------------------------------------------------------------

  function HashStr(s: string): int32 {
    if s == "" then 0 else ToInt32(ToInt32(31 * HashStr(s[..|s| - 1])) + s[|s| - 1] as int)
  }

  function Pow31(n: nat): nat {
    if n == 0 then 1 else 31 * Pow31(n - 1)
  }

  /** The sum of s[i] * 31^(n - 1 - i), as Java's String.hashCode has it. */
  function Weighted(s: string): nat {
    if s == "" then 0 else s[0] as int * Pow31(|s| - 1) + Weighted(s[1..])
  }

  lemma {:induction false} WeightedNext(s: string, c: char)
    ensures Weighted(s + [c]) == 31 * Weighted(s) + c as int
  {
    if s == "" {
      assert [c][1..] == [];
    } else {
      WeightedNext(s[1..], c);
      assert (s + [c])[1..] == s[1..] + [c];
      MoreWeight(s[0] as int, Pow31(|s| - 1));
    }
  }

  lemma MoreWeight(c: nat, p: nat)
    ensures c * (31 * p) == 31 * (c * p)
  {
  }

  /** The hash of a name is that sum in 32 bits. */
  lemma {:induction false} HashStrMeaning(s: string)
    ensures HashStr(s) == (Weighted(s) + 0x8000_0000) % 0x1_0000_0000 - 0x8000_0000
  {
    ToInt32Wraps(Weighted(s), 0);
    if s != "" {
      var init, c := s[..|s| - 1], s[|s| - 1];
      HashStrMeaning(init);
      assert s == init + [c];
      WeightedNext(init, c);
      HashStep(Weighted(init), HashStr(init), c as int);
    }
  }

  lemma HashStep(w: int, h: int32, c: int)
    requires h == (w + 0x8000_0000) % 0x1_0000_0000 - 0x8000_0000
    ensures ToInt32(ToInt32(31 * h) + c) == ToInt32(31 * w + c)
  {
    hide ToInt32;
    var k := (w + 0x8000_0000) / 0x1_0000_0000;
    assert h == w - 0x1_0000_0000 * k;
    ToInt32Wraps(31 * h, 0);
    var j := (31 * h + 0x8000_0000) / 0x1_0000_0000;
    assert ToInt32(31 * h) + c == 31 * w + c + 0x1_0000_0000 * (-31 * k - j);
    ToInt32Wraps(31 * w + c, -31 * k - j);
  }

  function CounterKey(objHash: int32, nameHash: int32): (key: bytes)
    ensures |key| == 8
  {
    Put(4, objHash) + Put(4, nameHash)
  }

  /** Two counters share a key exactly if object and name hash are equal. */
  lemma CounterKeyInjective(o: int32, h: int32, o2: int32, h2: int32)
    ensures CounterKey(o, h) == CounterKey(o2, h2) <==> o == o2 && h == h2
  {
    if CounterKey(o, h) == CounterKey(o2, h2) {
      assert CounterKey(o, h)[..4] == Put(4, o) && CounterKey(o, h)[4..] == Put(4, h);
      assert CounterKey(o2, h2)[..4] == Put(4, o2) && CounterKey(o2, h2)[4..] == Put(4, h2);
      PowValues();
      SignedPut(4, o);
      SignedPut(4, o2);
      SignedPut(4, h);
      SignedPut(4, h2);
    }
  }

  lemma HashOfTwo(c: char, d: char)
    ensures c as int < 0x1_0000 && d as int < 0x1_0000 ==> HashStr([c, d]) == 31 * c as int + d as int
  {
    assert [c, d][..1] == [c] && [c][..0] == [];
    if c as int < 0x1_0000 && d as int < 0x1_0000 {
      assert HashStr([c]) == c as int;
    }
  }

  /** Different names may have one hash, and then share a record. */
  lemma NamesMayCollide()
    ensures HashStr(['A', 'a']) == HashStr(['B', 'B'])
  {
    hide HashStr;
    HashOfTwo('A', 'a');
    HashOfTwo('B', 'B');
  }

  method MakeCounterKey(objHash: int32, counterName: string) returns (key: bytes)
    ensures key == CounterKey(objHash, HashStr(counterName))
  {
    var h: int32 := 0;
    for i := 0 to |counterName|
      invariant h == HashStr(counterName[..i])
    {
      assert counterName[..i + 1][..i] == counterName[..i];
      h := ToInt32(ToInt32(31 * h) + counterName[i] as int);
    }
    assert counterName[..|counterName|] == counterName;
    key := Put(4, objHash) + Put(4, h);
  }

  // ----- records -------------------------------------------------------------------------

  function CellPos(i: nat, b: nat): nat {
    i * RECORD_SIZE + 2 + b * BYTES_PER_BUCKET
  }

  function CellAt(data: bytes, i: nat, b: nat): Float64
    requires b < BUCKETS_PER_DAY && (i + 1) * RECORD_SIZE <= |data|
  {
    data[CellPos(i, b)..CellPos(i, b) + BYTES_PER_BUCKET]
  }

  /** Writing one cell changes that cell and no other. */
  lemma CellWritten(data: bytes, i: nat, b: nat, val: Float64)
    requires b < BUCKETS_PER_DAY && (i + 1) * RECORD_SIZE <= |data|
    ensures |Written(data, CellPos(i, b), val)| == |data|
    ensures forall j: nat, c: nat :: c < BUCKETS_PER_DAY && (j + 1) * RECORD_SIZE <= |data| ==>
      CellAt(Written(data, CellPos(i, b), val), j, c) == (if j == i && c == b then val else CellAt(data, j, c))
  {
    var data2 := Written(data, CellPos(i, b), val);
    forall j: nat, c: nat | c < BUCKETS_PER_DAY && (j + 1) * RECORD_SIZE <= |data|
      ensures CellAt(data2, j, c) == if j == i && c == b then val else CellAt(data, j, c)
    {
      var p, q := CellPos(i, b), CellPos(j, c);
      assert q + BYTES_PER_BUCKET <= |data|;
      if j != i || c != b {
        CellsApart(i, b, j, c);
        Elsewhere(data, p, val, q);
      } else {
        assert data2[p..p + BYTES_PER_BUCKET] == val;
      }
    }
  }

  /** A stretch beside the written one stays. */
  lemma Elsewhere(data: bytes, p: nat, val: Float64, q: nat)
    requires p + 8 <= |data| && q + 8 <= |data| && (p + 8 <= q || q + 8 <= p)
    ensures Written(data, p, val)[q..q + 8] == data[q..q + 8]
  {
  }

  lemma CellsApart(i: nat, b: nat, j: nat, c: nat)
    requires b < BUCKETS_PER_DAY && c < BUCKETS_PER_DAY && !(i == j && b == c)
    ensures CellPos(i, b) + BYTES_PER_BUCKET <= CellPos(j, c) || CellPos(j, c) + BYTES_PER_BUCKET <= CellPos(i, b)
  {
  }

  /** A cell in the bytes of its record. */
  lemma CellOfRecord(data: bytes, i: nat, b: nat)
    requires b < BUCKETS_PER_DAY && (i + 1) * RECORD_SIZE <= |data|
    ensures var record, at := data[i * RECORD_SIZE..(i + 1) * RECORD_SIZE], 2 + b * BYTES_PER_BUCKET;
      at + 8 <= |record| && record[at..at + 8] == CellAt(data, i, b)
  {
    var start, at := i * RECORD_SIZE, 2 + b * BYTES_PER_BUCKET;
    assert at + 8 <= RECORD_SIZE && CellPos(i, b) == start + at;
    assert data[start..start + RECORD_SIZE][at..at + 8] == data[start + at..start + at + 8];
  }

  predicate EmptyRecord(record: bytes) {
    && |record| == RECORD_SIZE && record[0] == 0 && record[1] == 0
    && forall b :: 0 <= b < BUCKETS_PER_DAY ==> CellAt(record, 0, b) == NAN
  }

  /** A record in which every value is absent. */
  method NewRecord() returns (record: bytes)
    ensures EmptyRecord(record)
  {
    record := seq(RECORD_SIZE, _ => 0);
    for i := 0 to BUCKETS_PER_DAY
      invariant |record| == RECORD_SIZE && record[0] == 0 && record[1] == 0
      invariant forall b :: 0 <= b < i ==> CellAt(record, 0, b) == NAN
    {
      CellWritten(record, 0, i, NAN);
      record := Written(record, CellPos(0, i), NAN);
    }
  }

  /** Adding an empty record at the end of the file. */
  lemma RecordAppended(data: bytes, n: nat, record: bytes)
    requires |data| == n * RECORD_SIZE && EmptyRecord(record)
    ensures |Written(data, |data|, record)| == (n + 1) * RECORD_SIZE
    ensures forall i: nat, b: nat :: i <= n && b < BUCKETS_PER_DAY ==>
      CellAt(Written(data, |data|, record), i, b) == (if i == n then NAN else CellAt(data, i, b))
  {
    var data2 := Written(data, |data|, record);
    assert data2 == data + record;
    forall i: nat, b: nat | i <= n && b < BUCKETS_PER_DAY
      ensures CellAt(data2, i, b) == if i == n then NAN else CellAt(data, i, b)
    {
      if i == n {
        assert CellAt(record, 0, b) == NAN;
        assert data2[CellPos(n, b)..CellPos(n, b) + 8] == record[CellPos(0, b)..CellPos(0, b) + 8];
      } else {
        assert CellPos(i, b) + 8 <= |data|;
      }
    }
  }

  // ----- the index over the records ------------------------------------------------------

  /** Each counter has at most one live index record; different counters have different records. */
  ghost predicate Indexed(log: seq<Rec>, where: map<bytes, nat>, n: nat) {
    && AllReadable(log)
    && (forall key: bytes :: |key| == 8 ==> Scan(log, key) == Pointers(where, key))
    && (forall key :: key in where ==> where[key] < n && where[key] * RECORD_SIZE <= LONG5_MAX)
    && (forall k, l :: k in where && l in where && where[k] == where[l] ==> k == l)
  }

  function Pointers(where: map<bytes, nat>, key: bytes): seq<bytes> {
    if key in where then [PutInt5(where[key] * RECORD_SIZE)] else []
  }

  lemma IndexedLookup(log: seq<Rec>, where: map<bytes, nat>, n: nat, h: Bucketing, key: bytes)
    requires Indexed(log, where, n) && |key| == 8
    ensures LookupIn(log, h, key) == if key in where then Lookup.Value(PutInt5(where[key] * RECORD_SIZE)) else Absent
    ensures key in where ==> where[key] < n && where[key] * RECORD_SIZE <= LONG5_MAX
  {
    hide PutInt5, LookupIn, AllReadable, Scan;
    ReadableLookup(log, h, key);
    assert Scan(log, key) == Pointers(where, key);
  }

  lemma IndexedAppend(log: seq<Rec>, where: map<bytes, nat>, n: nat, key: bytes, log2: seq<Rec>)
    requires Indexed(log, where, n) && key !in where && |key| == 8 && n * RECORD_SIZE <= LONG5_MAX
    requires exists p :: log2 == log + [Rec(false, p, key, PutInt5(n * RECORD_SIZE))]
    ensures Indexed(log2, where[key := n], n + 1)
  {
    hide PutInt5;
    assert log2[..|log|] == log;
    FiveBytes(n * RECORD_SIZE);
    PointerRecord(log2[|log|]);
  }

  lemma PointerRecord(r: Rec)
    requires |r.key| == 8 && |r.val| == 5
    ensures Readable(r) && |Enc(r)| == 22
  {
  }

  /** The value in a cell of the file, unless it is absent. */
  function Cell(data: bytes, where: map<bytes, nat>, key: bytes, b: int): Option<Float64> {
    if key in where && 0 <= b < BUCKETS_PER_DAY && (where[key] + 1) * RECORD_SIZE <= |data|
    then Number(CellAt(data, where[key], b)) else None
  }

  class DailyCounterData {
    const index: IndexKeyFile
    const data: OsFile<()>
    ghost var where: map<bytes, nat>   // the record of each counter
    ghost var records: nat

    ghost var Repr: set<object>

    ghost predicate Owns()
      reads this, index.hashBlock`buf
    {
      Repr == {this, index, index.hashBlock, index.hashBlock.buf, index.hashBlock.file, index.keyFile, index.keyFile.raf, data}
    }

    ghost predicate Valid()
      reads this, Repr
      ensures Valid() ==> this in Repr && data in Repr && index in Repr
    {
      && this in Repr && index.hashBlock in Repr && Owns() && data != index.hashBlock.file
      && index.Valid() && index.Writer()
      && |data.data| == records * RECORD_SIZE && Indexed(index.Log(), where, records)
    }

    /** The abstract state: a value per object, name hash and bucket. */
    ghost function Value(objHash: int32, nameHash: int32, b: int): Option<Float64>
      reads this, data
    {
      Cell(data.data, where, CounterKey(objHash, nameHash), b)
    }

    /** Positions are written in five bytes. */
    ghost predicate HasRoom(n: nat)
      reads this, Repr
      requires Valid()
    {
      index.keyFile.Length() + n <= LONG5_MAX && |data.data| + n <= LONG5_MAX
    }

    constructor (memSize: nat, hash: bytes -> int32)
      requires memSize >= KEY_LENGTH
      ensures Valid() && fresh(Repr) && forall n: nat :: 2 + n <= LONG5_MAX ==> HasRoom(n)
      ensures forall o: int32, h: int32, b :: Value(o, h, b) == None
    {
      hide Flat, RecPos, HeadPos, Linked, HeadsIn, BucketOf, IndexKeyFile.Valid, IndexKeyFile.Writer;
      var hfile := new OsFile<()>();
      var kfile := new OsFile<Rec>();
      index := new IndexKeyFile(hfile, kfile, memSize, hash, 0);
      data := new OsFile<()>();
      where, records := map[], 0;
      new;
      Repr := {this, index, index.hashBlock, index.hashBlock.buf, index.hashBlock.file, index.keyFile, index.keyFile.raf, data};
      EmptyIndex(index);
    }

    static lemma EmptyIndex(index: IndexKeyFile)
      requires index.Valid() && index.Writer() && index.Log() == []
      ensures index.keyFile.Length() == 2 && Indexed(index.Log(), map[], 0)
    {
      index.keyFile.LengthIsPos();
      FirstRecord(index.Log());
    }

    /** All index records are readable, so lookups answer from the scan. */
    lemma LookUp(key: bytes)
      requires Valid() && |key| == 8
      ensures index.Seen() == index.Log()
      ensures LookupIn(index.Seen(), index.H(), key) ==
        if key in where then Lookup.Value(PutInt5(where[key] * RECORD_SIZE)) else Absent
      ensures key in where ==> where[key] < records && where[key] * RECORD_SIZE <= LONG5_MAX
    {
      hide PutInt5, LookupIn, Indexed, Linked, HeadPos, HeadsIn, IndexKeyFile.HeadsFor;
      assert index.Seen() == index.Log();
      IndexedLookup(index.Log(), where, records, index.H(), key);
    }

    /** Where the record of the key starts, if it has one. */
    method Find(key: bytes) returns (r: Option<nat>)
      requires Valid() && |key| == 8
      modifies Repr
      ensures Valid() && Repr == old(Repr) && where == old(where) && records == old(records) && data.data == old(data.data)
      ensures index.keyFile.Length() == old(index.keyFile.Length())
      ensures r == if key in where then Some(where[key] * RECORD_SIZE) else None
      ensures key in where ==> where[key] < records
    {
      hide Indexed, LookupIn, PutInt5, Int5, IndexKeyFile.Valid, IndexKeyFile.Writer, RealKeyFile.Log, RealKeyFile.Length;
      LookUp(key);
      var posBytes := index.Get(key);
      if posBytes.value == None {
        return None;
      }
      Int5RoundTrip(where[key] * RECORD_SIZE);
      FiveBytes(where[key] * RECORD_SIZE);
      r := Some(Int5(posBytes.value.value));
    }

    /** The start of the key's record, after adding an empty one for a new key. */
    method Locate(key: bytes) returns (offset: nat)
      requires Valid() && |key| == 8 && HasRoom(0)
      modifies Repr
      ensures Valid() && Repr == old(Repr)
      ensures key in where && offset == where[key] * RECORD_SIZE && where[key] < records
      ensures forall k, b :: Cell(data.data, where, k, b) == old(Cell(data.data, where, k, b))
      ensures forall n: nat :: old(HasRoom(n + RECORD_SIZE)) ==> HasRoom(n)
    {
      hide Indexed, Cell, PutInt5, Enc, EmptyRecord, IndexKeyFile.Valid, IndexKeyFile.Writer, RealKeyFile.Log, RealKeyFile.Length;
      var found := Find(key);
      if found.Some? {
        return found.value;
      }
      offset := |data.data|;
      ghost var log, cells := index.Log(), data.data;
      var record := NewRecord();
      RecordAppended(data.data, records, record);
      data.WriteAt(offset, record);
      FiveBytes(offset);
      PointerRecord(Rec(false, 0, key, PutInt5(offset)));
      index.Put(key, PutInt5(offset));
      IndexedAppend(log, where, records, key, index.Log());
      CellsKept(log, cells, where, records, key, data.data);
      where, records := where[key := records], records + 1;
    }

    static lemma CellsKept(log: seq<Rec>, data: bytes, where: map<bytes, nat>, n: nat, key: bytes, data2: bytes)
      requires Indexed(log, where, n) && key !in where && |data| == n * RECORD_SIZE && |data2| == (n + 1) * RECORD_SIZE
      requires forall i: nat, b: nat :: i <= n && b < BUCKETS_PER_DAY ==>
        CellAt(data2, i, b) == (if i == n then NAN else CellAt(data, i, b))
      ensures forall k, b :: Cell(data2, where[key := n], k, b) == Cell(data, where, k, b)
    {
      hide CellAt, AllReadable, Scan, Pointers, IsNaN;
      forall k: bytes, b: int
        ensures Cell(data2, where[key := n], k, b) == Cell(data, where, k, b)
      {
        if 0 <= b < BUCKETS_PER_DAY {
          if k == key {
            assert CellAt(data2, n, b) == NAN;
            NoNumber();
          } else if k in where {
            assert where[k] < n && CellAt(data2, where[k], b) == CellAt(data, where[k], b);
          }
        }
      }
    }

    static lemma NoNumber()
      ensures Number(NAN) == None
    {
    }

    /** Sets one cell; a bucket outside the day is ignored. */
    method Write(objHash: int32, counterName: string, bucket: int, val: Float64)
      requires Valid() && HasRoom(0)
      modifies Repr
      ensures Valid() && Repr == old(Repr)
      ensures forall o: int32, h: int32, b ::
        Value(o, h, b) == LastWrite(old(Value(o, h, b)), [DailyEntry(objHash, counterName, bucket, val)], o, h, b)
      ensures forall n: nat :: old(HasRoom(n + RECORD_SIZE)) ==> HasRoom(n)
    {
      hide Indexed, Cell, Number, HashStr, CounterKey, IndexKeyFile.Valid, IndexKeyFile.Writer, RealKeyFile.Log, RealKeyFile.Length;
      assert [DailyEntry(objHash, counterName, bucket, val)][..0] == [];
      if bucket < 0 || bucket >= BUCKETS_PER_DAY {
        return;
      }
      var key := MakeCounterKey(objHash, counterName);
      var offset := Locate(key);
      label Located:
      ghost var before := data.data;
      CellWritten(data.data, where[key], bucket, val);
      data.WriteAt(offset + 2 + bucket * BYTES_PER_BUCKET, val);
      OneCell(index.Log(), before, where, records, key, bucket, val, data.data);
      forall o: int32, h: int32
        ensures CounterKey(o, h) == key <==> o == objHash && h == HashStr(counterName)
      {
        CounterKeyInjective(o, h, objHash, HashStr(counterName));
      }
      forall n: nat | old(HasRoom(n + RECORD_SIZE))
        ensures HasRoom(n)
      {
        assert old@Located(HasRoom(n));
      }
    }

    static lemma OneCell(log: seq<Rec>, data: bytes, where: map<bytes, nat>, n: nat, key: bytes, bucket: nat, val: Float64, data2: bytes)
      requires Indexed(log, where, n) && key in where && |data| == |data2| == n * RECORD_SIZE && bucket < BUCKETS_PER_DAY
      requires forall j: nat, c: nat :: c < BUCKETS_PER_DAY && (j + 1) * RECORD_SIZE <= |data| ==>
        CellAt(data2, j, c) == (if j == where[key] && c == bucket then val else CellAt(data, j, c))
      ensures forall k, b :: Cell(data2, where, k, b) == if k == key && b == bucket then Number(val) else Cell(data, where, k, b)
    {
    }

    method Read(objHash: int32, counterName: string, bucket: int) returns (r: Option<Float64>)
      requires Valid()
      modifies Repr
      ensures Valid() && Repr == old(Repr) && where == old(where) && records == old(records) && data.data == old(data.data)
      ensures index.keyFile.Length() == old(index.keyFile.Length())
      ensures r == Value(objHash, HashStr(counterName), bucket)
    {
      hide Indexed, HashStr, CounterKey, IndexKeyFile.Valid, IndexKeyFile.Writer, RealKeyFile.Log, RealKeyFile.Length;
      if bucket < 0 || bucket >= BUCKETS_PER_DAY {
        return None;
      }
      var key := MakeCounterKey(objHash, counterName);
      var offset := Find(key);
      if offset == None {
        return None;
      }
      var buf := data.ReadAt(offset.value + 2 + bucket * BYTES_PER_BUCKET, 8);
      assert buf == CellAt(data.data, where[key], bucket);
      if IsNaN(buf) {
        return None;
      }
      r := Some(buf);
    }

    /** All values of a counter, with NaN for the absent ones; nothing for an unknown counter. */
    method ReadAll(objHash: int32, counterName: string) returns (r: Option<seq<Float64>>)
      requires Valid()
      modifies Repr
      ensures Valid() && Repr == old(Repr) && where == old(where) && records == old(records) && data.data == old(data.data)
      ensures index.keyFile.Length() == old(index.keyFile.Length())
      ensures r.Some? ==> |r.value| == 288
      ensures forall b :: 0 <= b < BUCKETS_PER_DAY ==>
        Value(objHash, HashStr(counterName), b) == (if r.Some? then Number(r.value[b]) else None)
    {
      hide Indexed, HashStr, CounterKey, Number, IndexKeyFile.Valid, IndexKeyFile.Writer, RealKeyFile.Log, RealKeyFile.Length;
      var key := MakeCounterKey(objHash, counterName);
      var offset := Find(key);
      if offset == None {
        return None;
      }
      var record := data.ReadAt(offset.value, RECORD_SIZE);
      ghost var all, rec := data.data, where[key];
      assert record == all[rec * RECORD_SIZE..(rec + 1) * RECORD_SIZE];
      var values: seq<Float64> := [];
      for i := 0 to BUCKETS_PER_DAY
        modifies {}
        invariant |values| == i && forall b :: 0 <= b < i ==> values[b] == CellAt(all, rec, b)
      {
        var at := 2 + i * BYTES_PER_BUCKET;
        CellOfRecord(all, rec, i);
        values := values + [record[at..at + 8]];
      }
      r := Some(values);
    }

    /** The writer's loop over the entries of a day. */
    method WriteAll(entries: seq<DailyEntry>)
      requires Valid() && HasRoom(|entries| * RECORD_SIZE)
      modifies Repr
      ensures Valid() && Repr == old(Repr)
      ensures forall o: int32, h: int32, b :: Value(o, h, b) == LastWrite(old(Value(o, h, b)), entries, o, h, b)
    {
      hide Valid, Value, HasRoom, Number, HashStr, LastWrite;
      NoWrites();
      for i := 0 to |entries|
        invariant Valid() && Repr == old(Repr) && HasRoom((|entries| - i) * RECORD_SIZE)
        invariant forall o: int32, h: int32, b :: Value(o, h, b) == LastWrite(old(Value(o, h, b)), entries[..i], o, h, b)
      {
        var e := entries[i];
        forall before, o: int32, h: int32, b
          ensures LastWrite(LastWrite(before, entries[..i], o, h, b), [e], o, h, b) == LastWrite(before, entries[..i + 1], o, h, b)
        {
          NextWrite(before, entries, i, o, h, b);
        }
        LessRoom(0, (|entries| - i) * RECORD_SIZE);
        assert (|entries| - i) * RECORD_SIZE == (|entries| - (i + 1)) * RECORD_SIZE + RECORD_SIZE;
        Write(e.objHash, e.counterName, e.bucket, e.value);
      }
      assert entries[..|entries|] == entries;
    }

    lemma LessRoom(n: nat, m: nat)
      requires Valid() && n <= m && HasRoom(m)
      ensures HasRoom(n)
    {
    }
  }

  datatype DailyEntry = DailyEntry(objHash: int32, counterName: string, bucket: int, value: Float64)

  /** The reference meaning: the newest write to the cell; NaN erases. */
  function LastWrite(before: Option<Float64>, entries: seq<DailyEntry>, o: int32, h: int32, b: int): Option<Float64> {
    if entries == [] then before
    else
      var e := entries[|entries| - 1];
      if o == e.objHash && h == HashStr(e.counterName) && b == e.bucket && 0 <= b < BUCKETS_PER_DAY then Number(e.value)
      else LastWrite(before, entries[..|entries| - 1], o, h, b)
  }

  predicate Hits(e: DailyEntry, o: int32, h: int32, b: int) {
    e.objHash == o && HashStr(e.counterName) == h && e.bucket == b && 0 <= b < 288
  }

  /** The value of a cell is that of the last entry for it, and stays if there is none. */
  lemma {:induction false} LastWriteMeaning(before: Option<Float64>, entries: seq<DailyEntry>, o: int32, h: int32, b: int, i: nat)
    ensures (forall j :: 0 <= j < |entries| ==> !Hits(entries[j], o, h, b)) ==> LastWrite(before, entries, o, h, b) == before
    ensures i < |entries| && Hits(entries[i], o, h, b) && (forall j :: i < j < |entries| ==> !Hits(entries[j], o, h, b)) ==>
      LastWrite(before, entries, o, h, b) ==
        if Unsigned(entries[i].value) % 0x8000_0000_0000_0000 > 0x7ff0_0000_0000_0000 then None else Some(entries[i].value)
  {
    hide HashStr, IsNaN, Unsigned;
    if entries != [] {
      var n := |entries| - 1;
      NaNBits(entries[n].value);
      LastWriteMeaning(before, entries[..n], o, h, b, i);
      assert forall j :: 0 <= j < n ==> entries[..n][j] == entries[j];
    }
  }

  lemma NoWrites()
    ensures forall before, o: int32, h: int32, b :: LastWrite(before, [], o, h, b) == before
  {
  }

  lemma NextWrite(before: Option<Float64>, entries: seq<DailyEntry>, i: nat, o: int32, h: int32, b: int)
    requires i < |entries|
    ensures LastWrite(LastWrite(before, entries[..i], o, h, b), [entries[i]], o, h, b) == LastWrite(before, entries[..i + 1], o, h, b)
  {
    assert entries[..i + 1][..i] == entries[..i] && [entries[i]][..0] == [];
  }
}
