/** The time bucket table (internal/db/io/mem_time_block.go): 172,800 buckets of 500 ms, one
    local day. */
module TimeBlock {
  import opened Endian
  import opened HashBlock

  const TIME_BLOCK_CAPACITY := 3600 * 24 * 2
  const MILLIS_PER_DAY := 86_400_000
  const SLOT_MILLIS := 500

  /** The times of the day that starts at midnight. */
  predicate InDay(midnight: int, timeMs: int) {
    midnight <= timeMs < midnight + MILLIS_PER_DAY
  }

  /** The bucket of a time: half-seconds since local midnight. */
  function BucketOfTime(midnight: int, timeMs: int): (b: nat)
    ensures b < TIME_BLOCK_CAPACITY
  {
    (timeMs - midnight) / SLOT_MILLIS % TIME_BLOCK_CAPACITY
  }

  /** Within one day the modulus never wraps, so buckets are the half-seconds in order. */
  lemma BucketInDay(midnight: int, timeMs: int)
    requires midnight <= timeMs < midnight + 86_400_000
    ensures InDay(midnight, timeMs) && 0 <= BucketOfTime(midnight, timeMs) < 172_800
    ensures BucketOfTime(midnight, timeMs) == (timeMs - midnight) / 500
    ensures forall k: int :: BucketOfTime(midnight, timeMs) == k <==> midnight + 500 * k <= timeMs < midnight + 500 * k + 500
  {
  }

  class MemTimeBlock {
    const midnight: int
    var buf: array<byte>
    var count: int
    var dirty: bool

    ghost predicate Valid()
      reads this, buf
    {
      buf.Length == MEM_HEAD_RESERVED + TIME_BLOCK_CAPACITY * KEY_LENGTH
    }

    ghost function Heads(): (heads: seq<int>)
      requires Valid()
      reads this, buf
      ensures |heads| == TIME_BLOCK_CAPACITY
    {
      HeadsIn(buf[..])
    }

    constructor (midnight: int)
      ensures Valid() && fresh(buf) && this.midnight == midnight
      ensures forall b :: 0 <= b < TIME_BLOCK_CAPACITY ==> Heads()[b] == 0
    {
      this.midnight := midnight;
      buf := new byte[MEM_HEAD_RESERVED + TIME_BLOCK_CAPACITY * KEY_LENGTH](i => 0);
      count, dirty := 0, false;
      new;
      buf[0] := 0xCA;
      buf[1] := 0xFE;
      forall b | 0 <= b < TIME_BLOCK_CAPACITY
        ensures Heads()[b] == 0
      {
        ZeroHeads(buf[..], b);
      }
    }

    function Offset(timeMs: int): (pos: nat)
      ensures MEM_HEAD_RESERVED <= pos <= MEM_HEAD_RESERVED + TIME_BLOCK_CAPACITY * KEY_LENGTH - KEY_LENGTH
    {
      KEY_LENGTH * BucketOfTime(midnight, timeMs) + MEM_HEAD_RESERVED
    }

    method Get(timeMs: int) returns (pos: int)
      requires Valid()
      ensures pos == Heads()[BucketOfTime(midnight, timeMs)]
    {
      var o := Offset(timeMs);
      pos := Int5(buf[o..o + KEY_LENGTH]);
      assert buf[..][o..o + KEY_LENGTH] == buf[o..o + KEY_LENGTH];
    }

    method Put(timeMs: int, value: int)
      requires Valid() && LONG5_MIN <= value <= LONG5_MAX
      modifies this, buf
      ensures Valid() && buf == old(buf)
      ensures Heads() == old(Heads())[BucketOfTime(midnight, timeMs) := value]
    {
      hide HeadsIn, BucketOfTime;
      var o := Offset(timeMs);
      var head := Get(timeMs);
      if head == 0 {
        AddCount(1);
      }
      HeadWritten(buf[..], BucketOfTime(midnight, timeMs), value);
      PutInt5At(buf, o, value);
      dirty := true;
    }

    method AddCount(n: int)
      requires Valid()
      modifies this, buf
      ensures Valid() && buf == old(buf) && Heads() == old(Heads()) && count == old(count) + n
    {
      count := count + n;
      CountWritten(buf[..], Endian.Put(4, count));
      PutInt32At(buf, 4, count);
    }
  }
}
