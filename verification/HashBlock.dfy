/** The in-memory bucket table (internal/db/io/mem_hash_block.go): a 1024-byte head and then
    one five-byte record position per bucket. */
module HashBlock {
  import opened Endian
  import opened Layout

  const MEM_HEAD_RESERVED := 1024
  const KEY_LENGTH := 5

  /** The bucket of a hash: its low 31 bits, modulo the number of buckets. */
  function BucketOf(keyHash: int32, capacity: nat): (b: nat)
    requires capacity > 0
    ensures b < capacity
  {
    keyHash % 0x8000_0000 % capacity
  }

  /** The bucket that a table gives each key. */
  type Bucketing = bytes -> nat

  function Hasher(hash: bytes -> int32, capacity: nat): Bucketing
    requires capacity > 0
  {
    (key: bytes) => BucketOf(hash(key), capacity)
  }

  function CapacityOf(size: nat): nat {
    if size < MEM_HEAD_RESERVED then 0 else (size - MEM_HEAD_RESERVED) / KEY_LENGTH
  }

  /** The position stored for bucket b. */
  function HeadIn(data: bytes, b: nat): int
    requires b < CapacityOf(|data|)
  {
    Int5(data[MEM_HEAD_RESERVED + KEY_LENGTH * b..MEM_HEAD_RESERVED + KEY_LENGTH * b + KEY_LENGTH])
  }

  function HeadsIn(data: bytes): (heads: seq<int>)
    ensures |heads| == CapacityOf(|data|)
  {
    seq(CapacityOf(|data|), b requires 0 <= b < CapacityOf(|data|) => HeadIn(data, b))
  }

  lemma ZeroHeads(data: bytes, b: nat)
    requires b < CapacityOf(|data|)
    requires forall k :: MEM_HEAD_RESERVED <= k < |data| ==> data[k] == 0
    ensures HeadIn(data, b) == 0
  {
  }

  /** Writing five bytes at a bucket's slot replaces that head and no other. */
  lemma HeadWritten(data: bytes, b: nat, value: int)
    requires b < CapacityOf(|data|) && LONG5_MIN <= value <= LONG5_MAX
    ensures HeadsIn(Written(data, MEM_HEAD_RESERVED + KEY_LENGTH * b, PutInt5(value))) == HeadsIn(data)[b := value]
  {
    hide Int5, PutInt5;
    Int5RoundTrip(value);
    var o := MEM_HEAD_RESERVED + KEY_LENGTH * b;
    var s := PutInt5(value);
    var data2 := Written(data, o, s);
    assert |s| == KEY_LENGTH by { FiveBytes(value); }
    assert |data2| == |data|;
    forall c | 0 <= c < CapacityOf(|data|)
      ensures HeadIn(data2, c) == if c == b then value else HeadIn(data, c)
    {
      var p := MEM_HEAD_RESERVED + KEY_LENGTH * c;
      if c == b {
        assert data2[p..p + KEY_LENGTH] == s;
      } else {
        assert p + KEY_LENGTH <= o || o + KEY_LENGTH <= p;
        assert data2[p..p + KEY_LENGTH] == data[p..p + KEY_LENGTH];
      }
    }
  }

  lemma FiveBytes(value: int)
    ensures |PutInt5(value)| == KEY_LENGTH
  {
  }

  lemma CountWritten(data: bytes, s: bytes)
    requires |data| >= MEM_HEAD_RESERVED && |s| == 4
    ensures HeadsIn(Written(data, 4, s)) == HeadsIn(data)
  {
    hide Int5;
    var data2 := Written(data, 4, s);
    forall c | 0 <= c < CapacityOf(|data|)
      ensures HeadIn(data2, c) == HeadIn(data, c)
    {
      var p := MEM_HEAD_RESERVED + KEY_LENGTH * c;
      assert data2[p..p + KEY_LENGTH] == data[p..p + KEY_LENGTH];
    }
  }

  method PutInt5At(buf: array<byte>, o: nat, value: int)
    requires o + KEY_LENGTH <= buf.Length
    modifies buf
    ensures buf[..] == Written(old(buf[..]), o, PutInt5(value))
  {
    var s := PutInt5(value);
    buf[o], buf[o + 1], buf[o + 2], buf[o + 3], buf[o + 4] := s[0], s[1], s[2], s[3], s[4];
  }

  method PutInt32At(buf: array<byte>, o: nat, value: int)
    requires o + 4 <= buf.Length
    modifies buf
    ensures buf[..] == Written(old(buf[..]), o, Endian.Put(4, value))
  {
    var s := Endian.Put(4, value);
    buf[o], buf[o + 1], buf[o + 2], buf[o + 3] := s[0], s[1], s[2], s[3];
  }

  class MemHashBlock {
    const file: OsFile<()>
    var buf: array<byte>
    var bufSize: nat
    var count: int
    var capacity: nat
    var dirty: bool

    ghost predicate Valid()
      reads this, buf
    {
      buf.Length == MEM_HEAD_RESERVED + bufSize && capacity == bufSize / KEY_LENGTH && capacity > 0
    }

    /** The heads of all buckets. */
    ghost function Heads(): (heads: seq<int>)
      requires Valid()
      reads this, buf
      ensures |heads| == capacity
    {
      HeadsIn(buf[..])
    }

    /** A new table, or the one on disk if the file has at least a head. */
    constructor (file: OsFile<()>, memSize: nat)
      requires memSize >= KEY_LENGTH
      requires |file.data| < MEM_HEAD_RESERVED || CapacityOf(|file.data|) > 0
      ensures this.file == file && Valid() && fresh(buf)
      ensures |file.data| < MEM_HEAD_RESERVED ==> capacity == memSize / KEY_LENGTH && Heads() == seq(capacity, b => 0)
      ensures |file.data| >= MEM_HEAD_RESERVED ==> capacity == CapacityOf(|file.data|) && Heads() == HeadsIn(file.data)
    {
      this.file := file;
      bufSize := memSize;
      buf := new byte[0];
      count, capacity, dirty := 0, 0, false;
      new;
      if |file.data| < MEM_HEAD_RESERVED {
        buf := new byte[MEM_HEAD_RESERVED + bufSize](i => 0);
        buf[0] := 0xCA;
        buf[1] := 0xFE;
      } else {
        bufSize := |file.data| - MEM_HEAD_RESERVED;
        buf := new byte[|file.data|](i requires 0 <= i < |file.data| reads file => file.data[i]);
        count := Signed(buf[4..8]);
        assert buf[..] == file.data;
      }
      capacity := bufSize / KEY_LENGTH;
      if |file.data| < MEM_HEAD_RESERVED {
        forall b | 0 <= b < capacity
          ensures Heads()[b] == 0
        {
          ZeroHeads(buf[..], b);
        }
      }
    }

    function Offset(keyHash: int32): (pos: nat)
      requires Valid()
      reads this, buf
      ensures MEM_HEAD_RESERVED <= pos && pos + KEY_LENGTH <= buf.Length
    {
      KEY_LENGTH * BucketOf(keyHash, capacity) + MEM_HEAD_RESERVED
    }

    method Get(keyHash: int32) returns (pos: int)
      requires Valid()
      ensures pos == Heads()[BucketOf(keyHash, capacity)]
    {
      var o := Offset(keyHash);
      pos := Int5(buf[o..o + KEY_LENGTH]);
      assert buf[..][o..o + KEY_LENGTH] == buf[o..o + KEY_LENGTH];
    }

    /** Replaces the head of one bucket; the table counts a bucket when it is first used. */
    method Put(keyHash: int32, value: int)
      requires Valid() && LONG5_MIN <= value <= LONG5_MAX
      modifies this, buf
      ensures Valid() && buf == old(buf) && capacity == old(capacity) && dirty
      ensures Heads() == old(Heads())[BucketOf(keyHash, capacity) := value]
      ensures count == old(count) + if old(Heads())[BucketOf(keyHash, capacity)] == 0 then 1 else 0
    {
      hide HeadsIn, BucketOf;
      var o := Offset(keyHash);
      var head := Get(keyHash);
      if head == 0 {
        AddCount(1);
      }
      HeadWritten(buf[..], BucketOf(keyHash, capacity), value);
      PutInt5At(buf, o, value);
      dirty := true;
    }

    /** Bumps the count and its copy in the head of the table. */
    method AddCount(n: int)
      requires Valid()
      modifies this`count, buf
      ensures Valid() && count == old(count) + n
      ensures Heads() == old(Heads())
    {
      count := count + n;
      CountWritten(buf[..], Endian.Put(4, count));
      PutInt32At(buf, 4, count);
    }

    /** Writes the table to its file; a clean table was written before. */
    method Flush()
      requires Valid()
      modifies file`data, this`dirty
      ensures Valid() && Heads() == old(Heads()) && !dirty
      ensures old(dirty) ==> file.data == buf[..]
      ensures !old(dirty) ==> file.data == old(file.data)
    {
      if !dirty {
        return;
      }
      file.data := buf[..];
      dirty := false;
    }

    /** Re-reads the file without flushing. */
    method Reload()
      requires Valid()
      requires |file.data| < MEM_HEAD_RESERVED || CapacityOf(|file.data|) > 0
      modifies this
      ensures Valid()
      ensures |file.data| < MEM_HEAD_RESERVED ==> buf == old(buf) && Heads() == old(Heads()) && capacity == old(capacity)
      ensures |file.data| >= MEM_HEAD_RESERVED ==>
        fresh(buf) && Heads() == HeadsIn(file.data) && capacity == CapacityOf(|file.data|)
    {
      if |file.data| < MEM_HEAD_RESERVED {
        return;
      }
      buf := new byte[|file.data|](i requires 0 <= i < |file.data| reads file => file.data[i]);
      assert buf[..] == file.data;
      bufSize := |file.data| - MEM_HEAD_RESERVED;
      capacity := bufSize / KEY_LENGTH;
      count := Signed(buf[4..8]);
      dirty := false;
    }
  }
}
