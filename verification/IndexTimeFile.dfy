/** The time-range index (internal/db/io/index_time_file.go) over one local day. */
module IndexTimeFile {
  import opened Endian
  import opened DataStream
  import opened Layout
  import opened Results
  import opened KeyFile
  import opened Chains
  import opened HashBlock
  import opened TimeBlock

  datatype TimeToData = TimeToData(time: int, dataPos: bytes)

  datatype TimeError = InvalidKey | ReadFailed(e: ReadError) | PositionPanic

  /** The bucket of an eight-byte time key. */
  function Bucketing8(midnight: int): Bucketing {
    (key: bytes) => BucketOfTime(midnight, Signed(key))
  }

  function ItemOf(r: Rec): TimeToData {
    TimeToData(Signed(r.key), r.val)
  }

  /** The undeleted records whose bucket lies in lo..hi, in file order. */
  function Items(log: seq<Rec>, h: Bucketing, lo: int, hi: int): seq<TimeToData> {
    if log == [] then []
    else
      var r := log[|log| - 1];
      Items(log[..|log| - 1], h, lo, hi) + if !r.deleted && lo <= h(r.key) <= hi then [ItemOf(r)] else []
  }

  predicate Ascending(items: seq<TimeToData>) {
    forall i, j :: 0 <= i < j < |items| ==> items[i].time <= items[j].time
  }

  predicate Descending(items: seq<TimeToData>) {
    forall i, j :: 0 <= i < j < |items| ==> items[i].time >= items[j].time
  }

  // ----- chains with cut tails -----------------------------------------------------------

  /** No undeleted record of the bucket. */
  ghost predicate Dead(log: seq<Rec>, h: Bucketing, b: nat) {
    forall k :: 0 <= k < |log| && h(log[k].key) == b ==> log[k].deleted
  }

  /** A position from which a walk meets every undeleted record of the bucket. */
  ghost predicate Entry(p: int, log: seq<Rec>, h: Bucketing, b: nat) {
    p == HeadPos(log, h, b) || (p == 0 && Dead(log, h, b))
  }

  ghost predicate Reaches(log: seq<Rec>, h: Bucketing) {
    forall i :: 0 <= i < |log| ==> Entry(log[i].prev, log[..i], h, h(log[i].key))
  }

  /** One step of a walk; from position 0 nothing undeleted is left. */
  lemma EntryStep(p: int, log: seq<Rec>, h: Bucketing, i: nat, b: nat) returns (j: int)
    requires i <= |log| && Reaches(log, h) && Entry(p, log[..i], h, b)
    ensures -1 <= j < i && p >= 0 && (j == -1 <==> p == 0)
    ensures j >= 0 ==> p == RecPos(log, j) && h(log[j].key) == b && Entry(log[j].prev, log[..j], h, b)
    ensures j >= 0 ==> Items(log[..i], h, b, b) == Items(log[..j], h, b, b) + LiveItem(log[j])
    ensures j == -1 ==> Items(log[..i], h, b, b) == []
    ensures j >= 0 ==> forall k :: j < k < i ==> h(log[k].key) != b
    ensures j == -1 ==> forall k :: 0 <= k < i && h(log[k].key) == b ==> log[k].deleted
  {
    hide RecPos, Slots, HeadPos, Items, ItemOf;
    j := HeadIndex(log[..i], h, b);
    if j >= 0 && p > 0 {
      RecPosPrefix(log[..i], log, j);
      ItemsSkip(log, h, j + 1, i, b);
      ItemsNext(log, h, j, b);
    } else {
      j := -1;
      forall k | 0 <= k < i && h(log[k].key) == b
        ensures log[k].deleted
      {
        assert log[..i][k] == log[k];
      }
      ItemsSkip(log, h, 0, i, b);
      NoItems(h, b);
    }
  }

  function LiveItem(r: Rec): seq<TimeToData> {
    if r.deleted then [] else [ItemOf(r)]
  }

  lemma ItemsNext(log: seq<Rec>, h: Bucketing, j: nat, b: nat)
    requires j < |log| && h(log[j].key) == b
    ensures Items(log[..j + 1], h, b, b) == Items(log[..j], h, b, b) + LiveItem(log[j])
  {
    assert log[..j + 1][..j] == log[..j];
  }

  lemma NoItems(h: Bucketing, b: nat)
    ensures Items([], h, b, b) == []
  {
  }

  lemma {:induction false} ItemsSkip(log: seq<Rec>, h: Bucketing, i: nat, j: nat, b: nat)
    requires i <= j <= |log| && forall k :: i <= k < j ==> h(log[k].key) != b || log[k].deleted
    ensures Items(log[..j], h, b, b) == Items(log[..i], h, b, b)
    decreases j
  {
    if i < j {
      assert log[..j][..j - 1] == log[..j - 1];
      ItemsSkip(log, h, i, j - 1, b);
    }
  }

  /** Neighbouring bucket ranges share no item and lose none. */
  lemma {:induction false} ItemsSplit(log: seq<Rec>, h: Bucketing, lo: int, mid: int, hi: int)
    requires lo - 1 <= mid <= hi
    ensures multiset(Items(log, h, lo, hi)) == multiset(Items(log, h, lo, mid)) + multiset(Items(log, h, mid + 1, hi))
  {
    if log != [] {
      ItemsSplit(log[..|log| - 1], h, lo, mid, hi);
    }
  }

  lemma {:induction false} ItemsNone(log: seq<Rec>, h: Bucketing, lo: int, hi: int)
    requires lo > hi
    ensures Items(log, h, lo, hi) == []
  {
    if log != [] {
      ItemsNone(log[..|log| - 1], h, lo, hi);
    }
  }

  /** Items lie in the buckets they were asked for. */
  lemma {:induction false} ItemsInBuckets(log: seq<Rec>, midnight: int, lo: int, hi: int)
    ensures forall x :: x in Items(log, Bucketing8(midnight), lo, hi) ==> lo <= BucketOfTime(midnight, x.time) <= hi
  {
    hide BucketOfTime;
    if log != [] {
      ItemsInBuckets(log[..|log| - 1], midnight, lo, hi);
    }
  }

  /** Moving one item from the rest of the bucket to the collected ones. */
  lemma CollectItem(items: seq<TimeToData>, rest: seq<TimeToData>, x: seq<TimeToData>)
    ensures multiset(items + x) + multiset(rest) == multiset(items) + multiset(rest + x)
  {
  }

  lemma ReachesAppend(log: seq<Rec>, h: Bucketing, r: Rec)
    requires Reaches(log, h) && Entry(r.prev, log, h, h(r.key))
    ensures Reaches(log + [r], h)
  {
    forall i | 0 <= i < |log| + 1
      ensures Entry((log + [r])[i].prev, (log + [r])[..i], h, h((log + [r])[i].key))
    {
      assert (log + [r])[..i] == if i < |log| then log[..i] else log;
    }
  }

  lemma EntryAppend(p: int, log: seq<Rec>, h: Bucketing, r: Rec, b: nat)
    requires Entry(p, log, h, b)
    ensures Entry(if h(r.key) == b then RecPos(log + [r], |log|) else p, log + [r], h, b)
  {
    HeadAppend(log, h, r, b);
  }

  lemma EntryBelow(p: int, log: seq<Rec>, h: Bucketing, b: nat)
    requires Entry(p, log, h, b)
    ensures 0 <= p <= RecPos(log, |log|)
  {
    hide RecPos, HeadPos;
    HeadBelow(log, h, b);
  }

  /** Time keys are short enough for every record to be readable. */
  lemma TimeRecordsReadable(r: Rec)
    requires |r.key| == 8
    ensures Readable(r)
  {
  }

  // ----- deleting a bucket ---------------------------------------------------------------

  function BucketDeleted(log: seq<Rec>, h: Bucketing, b: nat): (log2: seq<Rec>)
    ensures |log2| == |log|
  {
    seq(|log|, i requires 0 <= i < |log| => if h(log[i].key) == b then log[i].(deleted := true) else log[i])
  }

  /** Flags only ever go up, so entry points stay entry points. */
  ghost predicate MoreDeleted(log: seq<Rec>, log2: seq<Rec>) {
    SameUpToFlags(log, log2) && forall i :: 0 <= i < |log| ==> log[i].deleted ==> log2[i].deleted
  }

  lemma EntryKeeps(p: int, log: seq<Rec>, log2: seq<Rec>, h: Bucketing, b: nat)
    requires MoreDeleted(log, log2) && Entry(p, log, h, b)
    ensures Entry(p, log2, h, b)
  {
    FlagsKeepHeads(log, log2, h, b);
  }

  lemma ReachesKeeps(log: seq<Rec>, log2: seq<Rec>, h: Bucketing)
    requires MoreDeleted(log, log2) && Reaches(log, h)
    ensures Reaches(log2, h)
  {
    forall i | 0 <= i < |log2|
      ensures Entry(log2[i].prev, log2[..i], h, h(log2[i].key))
    {
      EntryKeeps(log[i].prev, log[..i], log2[..i], h, h(log[i].key));
    }
  }

  /** Deleting a bucket removes its items and no others. */
  lemma {:induction false} ItemsAfterDelete(log: seq<Rec>, h: Bucketing, b: nat, lo: int, hi: int)
    ensures !(lo <= b <= hi) ==> Items(BucketDeleted(log, h, b), h, lo, hi) == Items(log, h, lo, hi)
    ensures lo == b == hi ==> Items(BucketDeleted(log, h, b), h, lo, hi) == []
  {
    if log != [] {
      var n := |log| - 1;
      assert BucketDeleted(log, h, b)[..n] == BucketDeleted(log[..n], h, b);
      ItemsAfterDelete(log[..n], h, b, lo, hi);
    }
  }

  // ----- ranges of buckets ---------------------------------------------------------------

  /** The last half-second that a forward read looks at. */
  function LastVisited(stime: int, etime: int): int {
    stime + (etime - stime) / SLOT_MILLIS * SLOT_MILLIS
  }

  /** The first half-second that a backward read looks at last. */
  function FirstVisited(stime: int, etime: int): int {
    etime - (etime - stime) / SLOT_MILLIS * SLOT_MILLIS
  }

  /** What a forward and a backward read over the range can see: the items of the visited buckets. */
  function ForwardItems(log: seq<Rec>, midnight: int, stime: int, etime: int): seq<TimeToData> {
    Items(log, Bucketing8(midnight), BucketOfTime(midnight, stime), BucketOfTime(midnight, LastVisited(stime, etime)))
  }

  function BackwardItems(log: seq<Rec>, midnight: int, stime: int, etime: int): seq<TimeToData> {
    Items(log, Bucketing8(midnight), BucketOfTime(midnight, FirstVisited(stime, etime)), BucketOfTime(midnight, etime))
  }

  /** The k-th half-second after t lies k buckets further. */
  lemma BucketSteps(midnight: int, t: int, k: int)
    requires InDay(midnight, t) && InDay(midnight, t + k * SLOT_MILLIS)
    ensures BucketOfTime(midnight, t + k * SLOT_MILLIS) == BucketOfTime(midnight, t) + k
  {
  }

  lemma VisitedSoFar(midnight: int, stime: int, etime: int, i: nat)
    requires InDay(midnight, stime) && InDay(midnight, etime) && stime + i * SLOT_MILLIS <= etime
    ensures BucketOfTime(midnight, stime) <= BucketOfTime(midnight, stime + i * SLOT_MILLIS) <= BucketOfTime(midnight, LastVisited(stime, etime))
  {
    hide BucketOfTime;
    BucketSteps(midnight, stime, i);
    BucketSteps(midnight, stime, (etime - stime) / SLOT_MILLIS);
  }

  /** Later buckets hold later times. */
  lemma BucketOrder(midnight: int, s: int, t: int)
    requires InDay(midnight, s) && InDay(midnight, t) && BucketOfTime(midnight, s) < BucketOfTime(midnight, t)
    ensures s < t
  {
  }

  function InRange(items: seq<TimeToData>, stime: int, etime: int): seq<TimeToData> {
    if items == [] then []
    else
      var x := items[|items| - 1];
      InRange(items[..|items| - 1], stime, etime) + if stime <= x.time <= etime then [x] else []
  }

  /** The reference meaning of a range read: undeleted records by time, without buckets. */
  function Between(log: seq<Rec>, stime: int, etime: int): seq<TimeToData> {
    if log == [] then []
    else
      var r := log[|log| - 1];
      Between(log[..|log| - 1], stime, etime) + if !r.deleted && stime <= Signed(r.key) <= etime then [ItemOf(r)] else []
  }

  /** The last half-second read reaches the bucket of etime. */
  predicate Aligned(midnight: int, stime: int, etime: int) {
    stime > etime || (stime - midnight) % SLOT_MILLIS <= (etime - midnight) % SLOT_MILLIS
  }

  ghost predicate OfDay(midnight: int, log: seq<Rec>) {
    forall i :: 0 <= i < |log| ==> |log[i].key| == 8 && InDay(midnight, Signed(log[i].key))
  }

  /** Forward and backward reads visit the same number of buckets; they reach every time of the
      range exactly when the range is aligned. */
  lemma VisitedBuckets(midnight: int, stime: int, etime: int, t: int)
    requires InDay(midnight, stime) && InDay(midnight, etime) && stime <= t <= etime
    ensures BucketOfTime(midnight, stime) <= BucketOfTime(midnight, t) <= BucketOfTime(midnight, etime)
    ensures Aligned(midnight, stime, etime) ==>
      && BucketOfTime(midnight, LastVisited(stime, etime)) == BucketOfTime(midnight, etime)
      && BucketOfTime(midnight, FirstVisited(stime, etime)) == BucketOfTime(midnight, stime)
    ensures !Aligned(midnight, stime, etime) ==>
      && BucketOfTime(midnight, LastVisited(stime, etime)) < BucketOfTime(midnight, etime)
      && BucketOfTime(midnight, FirstVisited(stime, etime)) > BucketOfTime(midnight, stime)
  {
    var k := (etime - stime) / SLOT_MILLIS;
    var a, p := (stime - midnight) / SLOT_MILLIS, (stime - midnight) % SLOT_MILLIS;
    var b, q := (etime - midnight) / SLOT_MILLIS, (etime - midnight) % SLOT_MILLIS;
    assert stime - midnight == SLOT_MILLIS * a + p && etime - midnight == SLOT_MILLIS * b + q;
    assert k == if p <= q then b - a else b - a - 1;
    BucketInDay(midnight, stime);
    BucketInDay(midnight, etime);
    BucketInDay(midnight, t);
    BucketSteps(midnight, stime, k);
    BucketSteps(midnight, etime, -k);
  }

  /** On an aligned range the visited buckets hold every record of the range. */
  lemma {:induction false} AlignedIsComplete(log: seq<Rec>, midnight: int, stime: int, etime: int, lo: int, hi: int)
    requires OfDay(midnight, log)
    requires forall t :: InDay(midnight, t) && stime <= t <= etime ==> lo <= BucketOfTime(midnight, t) <= hi
    ensures InRange(Items(log, Bucketing8(midnight), lo, hi), stime, etime) == Between(log, stime, etime)
  {
    hide BucketOfTime;
    if log != [] {
      var n := |log| - 1;
      var h := Bucketing8(midnight);
      AlignedIsComplete(log[..n], midnight, stime, etime, lo, hi);
      if !log[n].deleted && lo <= h(log[n].key) <= hi {
        var items := Items(log, h, lo, hi);
        assert items[..|items| - 1] == Items(log[..n], h, lo, hi) && items[|items| - 1] == ItemOf(log[n]);
      } else {
        assert Items(log, h, lo, hi) == Items(log[..n], h, lo, hi);
      }
    }
  }

  lemma AlignedIs(midnight: int, stime: int, etime: int)
    ensures Aligned(midnight, stime, etime) <==> stime > etime || (stime - midnight) % 500 <= (etime - midnight) % 500
  {
  }

  /** A range read misses nothing, whatever was stored that day, exactly on aligned ranges: so it
      does when stime starts a half-second or etime ends one. */
  lemma CompleteIffAligned(midnight: int, stime: int, etime: int)
    requires InDay(midnight, stime) && InDay(midnight, etime) && stime <= etime
    requires 0 < stime && etime < 0x8000_0000_0000_0000
    ensures (stime - midnight) % 500 <= (etime - midnight) % 500 <==> forall log | OfDay(midnight, log) ::
      InRange(ForwardItems(log, midnight, stime, etime), stime, etime) == Between(log, stime, etime)
    ensures (stime - midnight) % 500 <= (etime - midnight) % 500 <==> forall log | OfDay(midnight, log) ::
      InRange(BackwardItems(log, midnight, stime, etime), stime, etime) == Between(log, stime, etime)
  {
    hide BucketOfTime, Aligned, FirstVisited, LastVisited;
    AlignedIs(midnight, stime, etime);
    var first, last := BucketOfTime(midnight, stime), BucketOfTime(midnight, etime);
    var lo, hi := BucketOfTime(midnight, FirstVisited(stime, etime)), BucketOfTime(midnight, LastVisited(stime, etime));
    VisitedBuckets(midnight, stime, etime, stime);
    VisitedBuckets(midnight, stime, etime, etime);
    if Aligned(midnight, stime, etime) {
      forall t | InDay(midnight, t) && stime <= t <= etime
        ensures first <= BucketOfTime(midnight, t) <= last
      {
        VisitedBuckets(midnight, stime, etime, t);
      }
      forall log | OfDay(midnight, log)
        ensures InRange(ForwardItems(log, midnight, stime, etime), stime, etime) == Between(log, stime, etime)
        ensures InRange(BackwardItems(log, midnight, stime, etime), stime, etime) == Between(log, stime, etime)
      {
        AlignedIsComplete(log, midnight, stime, etime, first, last);
      }
    } else {
      MissedRecord(midnight, etime, stime, etime, first, hi);
      MissedRecord(midnight, stime, stime, etime, lo, last);
      assert OfDay(midnight, [RecordAt(etime)]) && OfDay(midnight, [RecordAt(stime)]);
    }
  }

  function RecordAt(t: int): Rec {
    Rec(false, 0, Endian.Put(8, t), [])
  }

  /** A record outside the visited buckets is not read. */
  lemma MissedRecord(midnight: int, t: int, stime: int, etime: int, lo: int, hi: int)
    requires 0 < t < 0x8000_0000_0000_0000 && InDay(midnight, t)
    requires stime <= t <= etime && !(lo <= BucketOfTime(midnight, t) <= hi)
    ensures OfDay(midnight, [RecordAt(t)])
    ensures InRange(Items([RecordAt(t)], Bucketing8(midnight), lo, hi), stime, etime) != Between([RecordAt(t)], stime, etime)
  {
    hide BucketOfTime;
    PowValues();
    SignedPut(8, t);
    var log := [RecordAt(t)];
    assert log[..0] == [];
    assert Items([], Bucketing8(midnight), lo, hi) == [] && Between([], stime, etime) == [];
    assert Items(log, Bucketing8(midnight), lo, hi) == [];
  }

  // ----- sorting -------------------------------------------------------------------------

  /** sort.Slice promises an ascending permutation and no order among equal times. */
  method SortByTime(items: seq<TimeToData>) returns (sorted: seq<TimeToData>)
    ensures Ascending(sorted) && multiset(sorted) == multiset(items)
  {
    hide Ascending;
    AscendingNothing();
    sorted := [];
    for i := 0 to |items|
      invariant Ascending(sorted) && multiset(sorted) == multiset(items[..i])
    {
      OneMore(items, i);
      sorted := Insert(sorted, items[i]);
    }
    assert items[..|items|] == items;
  }

  lemma OneMore(items: seq<TimeToData>, i: nat)
    requires i < |items|
    ensures multiset(items[..i + 1]) == multiset(items[..i]) + multiset{items[i]}
  {
    assert items[..i + 1] == items[..i] + [items[i]];
  }

  method Insert(items: seq<TimeToData>, x: TimeToData) returns (more: seq<TimeToData>)
    requires Ascending(items)
    ensures Ascending(more) && multiset(more) == multiset(items) + multiset{x}
  {
    hide Ascending;
    var k := |items|;
    while k > 0 && items[k - 1].time > x.time
      invariant 0 <= k <= |items|
      invariant k < |items| ==> items[k].time > x.time
    {
      k := k - 1;
    }
    InsertKeepsOrder(items, k, x);
    more := items[..k] + [x] + items[k..];
  }

  lemma AscendingNothing()
    ensures Ascending([])
  {
  }

  lemma AscendingConcat(a: seq<TimeToData>, b: seq<TimeToData>)
    requires Ascending(a) && Ascending(b) && (a != [] && b != [] ==> a[|a| - 1].time <= b[0].time)
    ensures Ascending(a + b)
  {
    forall i, j | 0 <= i < j < |a + b|
      ensures (a + b)[i].time <= (a + b)[j].time
    {
      if i < |a| <= j {
        assert i == |a| - 1 || a[i].time <= a[|a| - 1].time;
        assert j == |a| || b[0].time <= b[j - |a|].time;
      }
    }
  }

  lemma InsertKeepsOrder(s: seq<TimeToData>, k: nat, x: TimeToData)
    requires Ascending(s) && k <= |s|
    requires k > 0 ==> s[k - 1].time <= x.time
    requires k < |s| ==> s[k].time > x.time
    ensures Ascending(s[..k] + [x] + s[k..])
    ensures multiset(s[..k] + [x] + s[k..]) == multiset(s) + multiset{x}
  {
    hide Ascending;
    var a, b := s[..k], s[k..];
    AscendingParts(s, k, x);
    AscendingConcat(a, [x]);
    AscendingConcat(a + [x], b);
    InsertKeepsItems(s, k, x);
  }

  lemma InsertKeepsItems(s: seq<TimeToData>, k: nat, x: TimeToData)
    requires k <= |s|
    ensures multiset(s[..k] + [x] + s[k..]) == multiset(s) + multiset{x}
  {
    assert s == s[..k] + s[k..];
  }

  lemma AscendingParts(s: seq<TimeToData>, k: nat, x: TimeToData)
    requires Ascending(s) && k <= |s|
    ensures Ascending(s[..k]) && Ascending(s[k..]) && Ascending([x])
  {
  }

  // ----- the index -----------------------------------------------------------------------

  class IndexTimeFile {
    const timeBlockHash: MemTimeBlock
    const keyFile: RealKeyFile

    ghost function H(): Bucketing {
      Bucketing8(timeBlockHash.midnight)
    }

    ghost function Log(): seq<Rec>
      reads keyFile, keyFile.raf
    {
      keyFile.Log()
    }

    /** Every record carries a time as its key. */
    ghost predicate Timed(log: seq<Rec>) {
      forall i :: 0 <= i < |log| ==> |log[i].key| == 8
    }

    ghost predicate OneDay()
      reads keyFile, keyFile.raf
    {
      OfDay(timeBlockHash.midnight, Log())
    }

    ghost predicate HeadsFor(log: seq<Rec>)
      requires timeBlockHash.Valid()
      reads timeBlockHash, timeBlockHash.buf
    {
      forall b :: 0 <= b < TIME_BLOCK_CAPACITY ==> Entry(timeBlockHash.Heads()[b], log, H(), b)
    }

    ghost predicate Valid()
      reads timeBlockHash, timeBlockHash.buf, keyFile, keyFile.raf
    {
      && timeBlockHash.Valid() && keyFile.Valid() && keyFile.UpToDate()
      && Timed(Log()) && Reaches(Log(), H()) && HeadsFor(Log())
    }

    /** The undeleted items of a range of buckets. */
    ghost function Live(lo: int, hi: int): seq<TimeToData>
      reads keyFile, keyFile.raf
    {
      Items(Log(), H(), lo, hi)
    }

    constructor (kfile: OsFile<Rec>, midnight: int)
      requires kfile.data == [] && kfile.log == []
      modifies kfile
      ensures Valid() && Log() == [] && timeBlockHash.midnight == midnight && keyFile.raf == kfile && keyFile.Length() == 2
      ensures fresh(timeBlockHash) && fresh(timeBlockHash.buf) && fresh(keyFile)
    {
      hide RecPos, Slots, HeadsIn, BucketOfTime, RealKeyFile.Valid;
      timeBlockHash := new MemTimeBlock(midnight);
      keyFile := new RealKeyFile(kfile);
      new;
      assert Log() == [];
      StartOfFile();
      keyFile.LengthIsPos();
    }

    static lemma StartOfFile()
      ensures RecPos([], 0) == 2
    {
    }

    method Put(timeMs: int, dataPos: bytes) returns (r: Result<int, TimeError>)
      requires Valid()
      requires -0x8000_0000_0000_0000 <= timeMs < 0x8000_0000_0000_0000
      requires |dataPos| < 0x8000_0000 && keyFile.Length() <= LONG5_MAX
      modifies timeBlockHash, timeBlockHash.buf, keyFile, keyFile.raf
      ensures Valid() && timeBlockHash.buf == old(timeBlockHash.buf)
      ensures r.Ok? <==> timeMs > 0
      ensures r.Err? ==> Log() == old(Log())
      ensures r.Ok? ==> exists p :: Log() == old(Log()) + [Rec(false, p, Endian.Put(8, timeMs), dataPos)]
      ensures keyFile.Length() <= old(keyFile.Length()) + |Enc(Rec(false, 0, Endian.Put(8, timeMs), dataPos))|
    {
      hide RecPos, Slots, HeadPos, HeadsIn, BucketOfTime, Enc, Signed, Reaches, Entry, Endian.Put,
        RealKeyFile.Valid, RealKeyFile.Log, RealKeyFile.UpToDate;
      if timeMs <= 0 {
        return Err(InvalidKey);
      }
      ghost var log, h := Log(), H();
      var key := Endian.Put(8, timeMs);
      PowValues();
      SignedPut(8, timeMs);
      var prevKeyPos := timeBlockHash.Get(timeMs);
      keyFile.LengthIsPos();
      assert Entry(prevKeyPos, log, h, h(key));
      EntryBelow(prevKeyPos, log, h, h(key));
      var newKeyPos := keyFile.Append(prevKeyPos, key, dataPos);
      ghost var rec := Rec(false, prevKeyPos, key, dataPos);
      ReachesAppend(log, h, rec);
      timeBlockHash.Put(timeMs, newKeyPos);
      timeBlockHash.AddCount(1);
      forall b | 0 <= b < TIME_BLOCK_CAPACITY
        ensures Entry(timeBlockHash.Heads()[b], Log(), h, b)
      {
        EntryAppend(old(timeBlockHash.Heads())[b], log, h, rec, b);
      }
      r := Ok(newKeyPos);
    }

    /** The buffered records go to their file. */
    method FlushRecords()
      requires Valid()
      modifies keyFile, keyFile.raf
      ensures Valid() && Log() == old(Log()) && keyFile.Length() == old(keyFile.Length())
    {
      hide RecPos, Slots, HeadPos, HeadsIn, BucketOfTime, Reaches, Entry, Signed, RealKeyFile.Valid, RealKeyFile.Log, RealKeyFile.UpToDate;
      keyFile.Flush();
    }

    /** All undeleted items of the bucket of timeMs, in ascending order. */
    method GetSecAll(timeMs: int) returns (r: Result<seq<TimeToData>, TimeError>)
      requires Valid()
      modifies keyFile, keyFile.raf
      ensures Valid() && Log() == old(Log()) && keyFile.Length() == old(keyFile.Length())
      ensures r.Ok? <==> timeMs > 0
      ensures r.Ok? ==> var b := BucketOfTime(timeBlockHash.midnight, timeMs);
        multiset(r.value) == multiset(Live(b, b)) && Ascending(r.value)
    {
      hide RecPos, Slots, HeadPos, HeadsIn, BucketOfTime, Items, Reaches, Ascending, Bucketing8, Entry, Readable, Signed,
        RealKeyFile.Valid, RealKeyFile.Log, RealKeyFile.UpToDate, RealKeyFile.Length;
      if timeMs <= 0 {
        return Err(InvalidKey);
      }
      ghost var log, h, i: nat := Log(), H(), |Log()|;
      ghost var b := BucketOfTime(timeBlockHash.midnight, timeMs);
      assert log[..i] == log;
      var items: seq<TimeToData> := [];
      var pos := timeBlockHash.Get(timeMs);
      while pos > 0
        invariant keyFile.Valid() && keyFile.UpToDate() && Log() == log && keyFile.Length() == old(keyFile.Length())
        invariant i <= |log| && Entry(pos, log[..i], h, b)
        invariant multiset(items) + multiset(Items(log[..i], h, b, b)) == multiset(Items(log, h, b, b))
        decreases i
      {
        ghost var j := EntryStep(pos, log, h, i, b);
        TimeRecordsReadable(log[j]);
        CollectItem(items, Items(log[..j], h, b, b), LiveItem(log[j]));
        var rec := keyFile.GetRecord(pos, j);
        if !rec.value.deleted {
          items := items + [TimeToData(Signed(rec.value.timeKey), rec.value.dataPos)];
        }
        pos := rec.value.prevPos;
        i := j;
      }
      ghost var j := EntryStep(pos, log, h, i, b);
      var sorted := SortByTime(items);
      r := Ok(sorted);
    }

    /** Marks every undeleted record of the bucket, counts them, and empties the bucket. */
    method Delete(timeMs: int) returns (r: Result<nat, TimeError>)
      requires Valid()
      modifies timeBlockHash, timeBlockHash.buf, keyFile, keyFile.raf
      ensures Valid() && keyFile.Length() == old(keyFile.Length()) && timeBlockHash.buf == old(timeBlockHash.buf)
      ensures r.Ok? <==> timeMs > 0
      ensures r.Err? ==> Log() == old(Log())
      ensures r.Ok? ==> var b := BucketOfTime(timeBlockHash.midnight, timeMs);
        Log() == BucketDeleted(old(Log()), H(), b) && r.value == |old(Live(b, b))|
    {
      hide RecPos, Slots, HeadPos, HeadsIn, BucketOfTime, Items, Reaches, Bucketing8, Entry, Signed,
        RealKeyFile.Valid, RealKeyFile.Log, RealKeyFile.UpToDate, RealKeyFile.Length;
      if timeMs <= 0 {
        return Err(InvalidKey);
      }
      ghost var log, h := Log(), H();
      ghost var i: nat, b := |log|, BucketOfTime(timeBlockHash.midnight, timeMs);
      assert log[..i] == log;
      var deleted: nat := 0;
      var pos := timeBlockHash.Get(timeMs);
      while pos > 0
        invariant keyFile.Valid() && keyFile.UpToDate() && SameUpToFlags(log, Log()) && keyFile.Length() == old(keyFile.Length())
        invariant i <= |log| && Entry(pos, log[..i], h, b)
        invariant forall k :: 0 <= k < |log| ==> Log()[k] == if k >= i then BucketDeleted(log, h, b)[k] else log[k]
        invariant deleted + |Items(log[..i], h, b, b)| == |Items(log, h, b, b)|
        decreases i
        modifies keyFile, keyFile.raf
      {
        ghost var j := EntryStep(pos, log, h, i, b);
        FlagsKeepPositions(log, Log(), j);
        var isDel := keyFile.IsDeleted(pos, j);
        if !isDel {
          keyFile.SetDelete(pos, true, j);
          deleted := deleted + 1;
        }
        FlagsKeepPositions(log, Log(), j);
        pos := keyFile.GetPrevPos(pos, j);
        i := j;
      }
      ghost var j := EntryStep(pos, log, h, i, b);
      assert Log() == BucketDeleted(log, h, b);
      Emptied(log, h, b);
      timeBlockHash.Put(timeMs, 0);
      timeBlockHash.AddCount(-(deleted as int));
      forall c | 0 <= c < TIME_BLOCK_CAPACITY
        ensures Entry(timeBlockHash.Heads()[c], Log(), h, c)
      {
        EntryKeeps(old(timeBlockHash.Heads())[c], log, Log(), h, c);
      }
      r := Ok(deleted);
    }

    lemma Emptied(log: seq<Rec>, h: Bucketing, b: nat)
      requires Reaches(log, h) && Timed(log)
      ensures var log2 := BucketDeleted(log, h, b);
        MoreDeleted(log, log2) && Reaches(log2, h) && Timed(log2) && Entry(0, log2, h, b)
    {
      hide HeadPos, Signed;
      ReachesKeeps(log, BucketDeleted(log, h, b), h);
    }

    /** What a range read gets from one half-second; an empty bucket is passed over. */
    method Visit(t: int) returns (r: Result<seq<TimeToData>, TimeError>)
      requires Valid()
      modifies keyFile, keyFile.raf
      ensures Valid() && Log() == old(Log()) && (t > 0 ==> r.Ok?)
      ensures r.Ok? ==> var b := BucketOfTime(timeBlockHash.midnight, t);
        multiset(r.value) == multiset(Live(b, b)) && Ascending(r.value)
    {
      hide RecPos, Slots, HeadPos, HeadsIn, BucketOfTime, Items, Reaches, Bucketing8, Entry, Signed, Ascending,
        RealKeyFile.Valid, RealKeyFile.Log, RealKeyFile.UpToDate, RealKeyFile.Length;
      var head := timeBlockHash.Get(t);
      if head == 0 {
        EmptyBucket(BucketOfTime(timeBlockHash.midnight, t));
        NothingAscends();
        return Ok([]);
      }
      r := GetSecAll(t);
    }

    /** Emits the items of the visited half-seconds, each once, in ascending order. */
    method Read(stime: int, etime: int) returns (r: Result<seq<TimeToData>, TimeError>)
      requires Valid() && InDay(timeBlockHash.midnight, stime) && InDay(timeBlockHash.midnight, etime)
      modifies keyFile, keyFile.raf
      ensures Valid() && Log() == old(Log())
      ensures stime > 0 ==> r.Ok?
      ensures r.Ok? && OneDay() ==> Ascending(r.value)
      ensures r.Ok? && stime > etime ==> r.value == []
      ensures r.Ok? && stime <= etime ==>
        multiset(r.value) == multiset(ForwardItems(Log(), timeBlockHash.midnight, stime, etime))
    {
      hide RecPos, Slots, HeadPos, HeadsIn, BucketOfTime, IndexTimeFile.Valid, Reversed, Items, Reaches, Bucketing8, Entry, Signed, Ascending,
        RealKeyFile.Valid, RealKeyFile.Log, RealKeyFile.UpToDate, RealKeyFile.Length;
      ghost var midnight, log, h := timeBlockHash.midnight, Log(), H();
      ghost var first: int := BucketOfTime(midnight, stime);
      var t, out, i := stime, [], 0;
      ItemsNone(log, h, first, first - 1);
      NothingAscends();
      while i < TIME_BLOCK_CAPACITY && t <= etime
        invariant Valid() && Log() == log && t == stime + i * SLOT_MILLIS && 0 <= i
        invariant (OneDay() ==> Ascending(out)) && multiset(out) == multiset(Items(log, h, first, first + i - 1))
        invariant t > etime ==> i > 0 ==> i - 1 == (etime - stime) / SLOT_MILLIS
        invariant t > etime ==> i == 0 ==> stime > etime
      {
        BucketSteps(midnight, stime, i);
        ghost var b := BucketOfTime(midnight, t);
        ItemsSplit(log, h, first, first + i - 1, first + i);
        var items := Visit(t);
        if items.Err? {
          return Err(items.error);
        }
        AppendLater(midnight, out, items.value, log, first, first + i - 1, b);
        out := out + items.value;
        t := t + SLOT_MILLIS;
        i := i + 1;
      }
      if stime <= etime {
        BucketSteps(midnight, stime, i - 1);
      }
      r := Ok(out);
    }

    /** Emits the items of the visited half-seconds, each once, in descending order. */
    method ReadFromEnd(stime: int, etime: int) returns (r: Result<seq<TimeToData>, TimeError>)
      requires Valid() && InDay(timeBlockHash.midnight, stime) && InDay(timeBlockHash.midnight, etime)
      modifies keyFile, keyFile.raf
      ensures Valid() && Log() == old(Log())
      ensures stime > 0 ==> r.Ok?
      ensures r.Ok? && OneDay() ==> Descending(r.value)
      ensures r.Ok? && stime > etime ==> r.value == []
      ensures r.Ok? && stime <= etime ==>
        multiset(r.value) == multiset(BackwardItems(Log(), timeBlockHash.midnight, stime, etime))
    {
      hide RecPos, Slots, HeadPos, HeadsIn, BucketOfTime, IndexTimeFile.Valid, Reversed, Items, Reaches, Bucketing8, Entry, Signed, Ascending, Descending,
        RealKeyFile.Valid, RealKeyFile.Log, RealKeyFile.UpToDate, RealKeyFile.Length;
      ghost var midnight, log, h := timeBlockHash.midnight, Log(), H();
      ghost var last: int := BucketOfTime(midnight, etime);
      var t, out, i := etime, [], 0;
      ItemsNone(log, h, last + 1, last);
      NothingAscends();
      while i < TIME_BLOCK_CAPACITY && stime <= t
        invariant Valid() && Log() == log && t == etime - i * SLOT_MILLIS && 0 <= i
        invariant (OneDay() ==> Descending(out)) && multiset(out) == multiset(Items(log, h, last - i + 1, last))
        invariant stime > t ==> i > 0 ==> i - 1 == (etime - stime) / SLOT_MILLIS
        invariant stime > t ==> i == 0 ==> stime > etime
      {
        BucketSteps(midnight, etime, -i);
        ghost var b := BucketOfTime(midnight, t);
        ItemsSplit(log, h, last - i, last - i, last);
        var items := Visit(t);
        if items.Err? {
          return Err(items.error);
        }
        AppendEarlier(midnight, out, items.value, log, last - i + 1, last, b);
        var backward := EmitBackward(items.value);
        out := out + backward;
        t := t - SLOT_MILLIS;
        i := i + 1;
      }
      if stime <= etime {
        BucketSteps(midnight, etime, 1 - i);
      }
      r := Ok(out);
    }

    /** Emits (time, data) for exactly the visited items inside the range, in ascending order; data that is
        too short for a position panics. */
    method ReadWithDataReader(stime: int, etime: int, reader: int -> bytes)
      returns (r: Result<seq<(int, bytes)>, TimeError>, ghost picked: seq<TimeToData>)
      requires Valid() && InDay(timeBlockHash.midnight, stime) && InDay(timeBlockHash.midnight, etime)
      modifies keyFile, keyFile.raf
      ensures Valid() && Log() == old(Log())
      ensures r.Ok? ==> |r.value| == |picked|
      ensures r.Ok? ==> forall i :: 0 <= i < |picked| ==>
        |picked[i].dataPos| >= 5 && r.value[i] == (picked[i].time, reader(Signed(picked[i].dataPos[..5])))
      ensures r.Ok? && OneDay() ==> Ascending(picked)
      ensures r.Err? && stime > 0 ==> r.error == PositionPanic && stime <= etime
      ensures r.Err? && stime > 0 ==>
        exists x :: x in InRange(ForwardItems(Log(), timeBlockHash.midnight, stime, etime), stime, etime) && |x.dataPos| < 5
      ensures r.Ok? && stime > etime ==> picked == []
      ensures r.Ok? && stime <= etime ==>
        multiset(picked) == multiset(InRange(ForwardItems(Log(), timeBlockHash.midnight, stime, etime), stime, etime))
    {
      hide RecPos, Slots, HeadPos, HeadsIn, BucketOfTime, IndexTimeFile.Valid, Reversed, Items, Reaches, Bucketing8, Entry, Signed, Ascending, InRange,
        Resolved, HavePositions, RealKeyFile.Valid, RealKeyFile.Log, RealKeyFile.UpToDate, RealKeyFile.Length;
      ghost var midnight, log, h := timeBlockHash.midnight, Log(), H();
      ghost var first: int := BucketOfTime(midnight, stime);
      ghost var all := [];
      var t, out, i := stime, [], 0;
      picked := [];
      ItemsNone(log, h, first, first - 1);
      NothingAscends();
      while i < TIME_BLOCK_CAPACITY && t <= etime
        invariant Valid() && Log() == log && t == stime + i * SLOT_MILLIS && 0 <= i
        invariant (OneDay() ==> Ascending(all)) && multiset(all) == multiset(Items(log, h, first, first + i - 1))
        invariant picked == InRange(all, stime, etime) && HavePositions(picked) && out == Resolved(picked, reader)
        invariant t > etime ==> i > 0 ==> i - 1 == (etime - stime) / SLOT_MILLIS
        invariant t > etime ==> i == 0 ==> stime > etime
      {
        BucketSteps(midnight, stime, i);
        ghost var b := BucketOfTime(midnight, t);
        ItemsSplit(log, h, first, first + i - 1, first + i);
        var items := Visit(t);
        if items.Err? {
          return Err(items.error), picked;
        }
        AppendLater(midnight, all, items.value, log, first, first + i - 1, b);
        var more := PickAndResolve(items.value, stime, etime, reader);
        if more.None? {
          VisitedSoFar(midnight, stime, etime, i);
          ShortIsSeen(items.value, log, midnight, stime, etime, b);
          return Err(PositionPanic), picked;
        }
        InRangeConcat(all, items.value, stime, etime);
        ResolvedConcat(picked, InRange(items.value, stime, etime), reader);
        all := all + items.value;
        picked, out := picked + InRange(items.value, stime, etime), out + more.value;
        t := t + SLOT_MILLIS;
        i := i + 1;
      }
      if stime <= etime {
        BucketSteps(midnight, stime, i - 1);
        InRangeMultiset(all, ForwardItems(log, midnight, stime, etime), stime, etime);
      }
      if OneDay() {
        InRangeAscending(all, stime, etime);
      }
      ResolvedMeaning(picked, reader);
      r := Ok(out);
    }

    lemma EmptyBucket(b: nat)
      requires Valid() && b < TIME_BLOCK_CAPACITY && timeBlockHash.Heads()[b] == 0
      ensures Live(b, b) == []
    {
      hide RecPos, Slots, HeadPos, HeadsIn, Items, Reaches, Bucketing8, Entry, Signed,
        RealKeyFile.Valid, RealKeyFile.Log, RealKeyFile.UpToDate;
      assert Log()[..|Log()|] == Log();
      var j := EntryStep(0, Log(), H(), |Log()|, b);
    }
  }

  lemma {:induction false} ItemsInDay(log: seq<Rec>, midnight: int, lo: int, hi: int)
    requires OfDay(midnight, log)
    ensures forall x :: x in Items(log, Bucketing8(midnight), lo, hi) ==> InDay(midnight, x.time)
  {
    hide BucketOfTime, Bucketing8;
    if log != [] {
      ItemsInDay(log[..|log| - 1], midnight, lo, hi);
    }
  }

  lemma NothingAscends()
    ensures Ascending([]) && Descending([])
    ensures forall s, e :: InRange([], s, e) == []
    ensures HavePositions([]) && forall reader: int -> bytes :: Resolved([], reader) == []
  {
  }

  /** Items lie in the buckets they were asked for, and in the day. */
  lemma ItemTimes(log: seq<Rec>, midnight: int, lo: int, hi: int, items: seq<TimeToData>)
    requires OfDay(midnight, log) && multiset(items) == multiset(Items(log, Bucketing8(midnight), lo, hi))
    ensures forall x :: x in items ==> InDay(midnight, x.time) && lo <= BucketOfTime(midnight, x.time) <= hi
  {
    hide BucketOfTime, Items, OfDay;
    ItemsInBuckets(log, midnight, lo, hi);
    ItemsInDay(log, midnight, lo, hi);
    forall x | x in items
      ensures x in Items(log, Bucketing8(midnight), lo, hi)
    {
      assert x in multiset(items);
    }
  }

  /** Items of a later bucket follow those of the earlier ones. */
  lemma AppendLater(midnight: int, out: seq<TimeToData>, more: seq<TimeToData>, log: seq<Rec>, lo: int, hi: int, b: int)
    requires (OfDay(midnight, log) ==> Ascending(out)) && Ascending(more) && hi < b
    requires multiset(out) == multiset(Items(log, Bucketing8(midnight), lo, hi))
    requires multiset(more) == multiset(Items(log, Bucketing8(midnight), b, b))
    ensures OfDay(midnight, log) ==> Ascending(out + more)
  {
    hide BucketOfTime, Items, Ascending, OfDay, Bucketing8;
    if OfDay(midnight, log) {
      ItemTimes(log, midnight, lo, hi, out);
      ItemTimes(log, midnight, b, b, more);
      if out != [] && more != [] {
        BucketOrder(midnight, out[|out| - 1].time, more[0].time);
      }
      AscendingConcat(out, more);
    }
  }

  lemma AppendEarlier(midnight: int, out: seq<TimeToData>, more: seq<TimeToData>, log: seq<Rec>, lo: int, hi: int, b: int)
    requires (OfDay(midnight, log) ==> Descending(out)) && Ascending(more) && b < lo
    requires multiset(out) == multiset(Items(log, Bucketing8(midnight), lo, hi))
    requires multiset(more) == multiset(Items(log, Bucketing8(midnight), b, b))
    ensures OfDay(midnight, log) ==> Descending(out + Reversed(more))
    ensures multiset(Reversed(more)) == multiset(more)
  {
    hide BucketOfTime, Items, OfDay, Bucketing8;
    ReversedMultiset(more);
    if OfDay(midnight, log) {
      ItemTimes(log, midnight, lo, hi, out);
      ItemTimes(log, midnight, b, b, more);
      forall k | 0 <= k < |more|
        ensures Reversed(more)[k] == more[|more| - 1 - k]
      {
        ReversedIndex(more, k);
      }
      forall i, j | 0 <= i < j < |out + Reversed(more)|
        ensures (out + Reversed(more))[i].time >= (out + Reversed(more))[j].time
      {
        if i < |out| <= j {
          BucketOrder(midnight, more[|more| - 1 - (j - |out|)].time, out[i].time);
        }
      }
    }
  }

  function Reversed(items: seq<TimeToData>): (r: seq<TimeToData>)
    ensures |r| == |items|
  {
    if items == [] then [] else [items[|items| - 1]] + Reversed(items[..|items| - 1])
  }

  method EmitBackward(items: seq<TimeToData>) returns (out: seq<TimeToData>)
    ensures out == Reversed(items)
  {
    out := [];
    var j := |items|;
    assert items[..j] == items;
    while j > 0
      invariant 0 <= j <= |items|
      invariant out + Reversed(items[..j]) == Reversed(items)
    {
      assert items[..j][..j - 1] == items[..j - 1];
      out := out + [items[j - 1]];
      j := j - 1;
    }
  }

  lemma {:induction false} ReversedIndex(items: seq<TimeToData>, k: nat)
    requires k < |items|
    ensures Reversed(items)[k] == items[|items| - 1 - k]
  {
    if k > 0 {
      ReversedIndex(items[..|items| - 1], k - 1);
    }
  }

  lemma {:induction false} ReversedMultiset(items: seq<TimeToData>)
    ensures multiset(Reversed(items)) == multiset(items)
  {
    if items != [] {
      ReversedMultiset(items[..|items| - 1]);
      assert items == items[..|items| - 1] + [items[|items| - 1]];
    }
  }

  // ----- reading inside the range --------------------------------------------------------

  /** Long enough for the five-byte position that the data reader takes. */
  ghost predicate HavePositions(items: seq<TimeToData>) {
    forall i :: 0 <= i < |items| ==> |items[i].dataPos| >= 5
  }

  function Resolved(items: seq<TimeToData>, reader: int -> bytes): seq<(int, bytes)>
    requires HavePositions(items)
  {
    seq(|items|, i requires 0 <= i < |items| && HavePositions(items) => (items[i].time, reader(Int5(items[i].dataPos))))
  }

  /** Each pair is the time of its item and what the reader finds at the item's position. */
  lemma ResolvedMeaning(items: seq<TimeToData>, reader: int -> bytes)
    requires HavePositions(items)
    ensures |Resolved(items, reader)| == |items|
    ensures forall i :: 0 <= i < |items| ==>
      |items[i].dataPos| >= 5 && Resolved(items, reader)[i] == (items[i].time, reader(Signed(items[i].dataPos[..5])))
  {
    hide Signed, Int5;
    forall i | 0 <= i < |items|
      ensures |items[i].dataPos| >= 5 && Int5(items[i].dataPos) == Signed(items[i].dataPos[..5])
    {
      assert |items[i].dataPos| >= 5;
      IntsAreSigned(items[i].dataPos);
    }
  }

  lemma ResolvedConcat(a: seq<TimeToData>, b: seq<TimeToData>, reader: int -> bytes)
    requires HavePositions(a) && HavePositions(b)
    ensures HavePositions(a + b) && Resolved(a + b, reader) == Resolved(a, reader) + Resolved(b, reader)
  {
  }

  method PickAndResolve(items: seq<TimeToData>, stime: int, etime: int, reader: int -> bytes) returns (r: Option<seq<(int, bytes)>>)
    ensures r.Some? <==> HavePositions(InRange(items, stime, etime))
    ensures r.Some? ==> r.value == Resolved(InRange(items, stime, etime), reader)
  {
    var out := [];
    for i := 0 to |items|
      invariant HavePositions(InRange(items[..i], stime, etime)) && out == Resolved(InRange(items[..i], stime, etime), reader)
    {
      assert items[..i + 1][..i] == items[..i];
      var item := items[i];
      if item.time >= stime && item.time <= etime {
        if |item.dataPos| < 5 {
          InRangePrefix(items, i, stime, etime);
          return None;
        }
        ResolvedConcat(InRange(items[..i], stime, etime), [item], reader);
        out := out + [(item.time, reader(Int5(item.dataPos)))];
      } else {
        assert InRange(items[..i + 1], stime, etime) == InRange(items[..i], stime, etime);
      }
    }
    assert items[..|items|] == items;
    r := Some(out);
  }

  lemma InRangePrefix(items: seq<TimeToData>, i: nat, stime: int, etime: int)
    requires i < |items| && stime <= items[i].time <= etime && |items[i].dataPos| < 5
    ensures !HavePositions(InRange(items, stime, etime))
  {
    InRangeCount(items, stime, etime, items[i]);
    assert items[i] in multiset(items);
    assert items[i] in multiset(InRange(items, stime, etime));
    assert items[i] in InRange(items, stime, etime);
  }

  /** Short data in a visited bucket is in the range read. */
  lemma ShortIsSeen(items: seq<TimeToData>, log: seq<Rec>, midnight: int, stime: int, etime: int, b: int)
    requires multiset(items) == multiset(Items(log, Bucketing8(midnight), b, b)) && !HavePositions(InRange(items, stime, etime))
    requires BucketOfTime(midnight, stime) <= b <= BucketOfTime(midnight, LastVisited(stime, etime))
    ensures exists x :: x in InRange(ForwardItems(log, midnight, stime, etime), stime, etime) && |x.dataPos| < 5
  {
    hide BucketOfTime, Bucketing8, InRange, Items, LastVisited;
    var i :| 0 <= i < |InRange(items, stime, etime)| && |InRange(items, stime, etime)[i].dataPos| < 5;
    var x, h, lo, hi := InRange(items, stime, etime)[i], Bucketing8(midnight), BucketOfTime(midnight, stime), BucketOfTime(midnight, LastVisited(stime, etime));
    ItemsSplit(log, h, lo, b, hi);
    ItemsSplit(log, h, lo, b - 1, b);
    InRangeCount(items, stime, etime, x);
    InRangeCount(Items(log, h, lo, hi), stime, etime, x);
    assert x in multiset(InRange(items, stime, etime));
    assert x in multiset(InRange(Items(log, h, lo, hi), stime, etime));
  }

  lemma {:induction false} InRangeConcat(a: seq<TimeToData>, b: seq<TimeToData>, stime: int, etime: int)
    ensures InRange(a + b, stime, etime) == InRange(a, stime, etime) + InRange(b, stime, etime)
  {
    if b == [] {
      assert a + b == a;
    } else {
      var n := |b| - 1;
      assert (a + b)[..|a| + n] == a + b[..n];
      InRangeConcat(a, b[..n], stime, etime);
    }
  }

  lemma {:induction false} InRangeCount(a: seq<TimeToData>, stime: int, etime: int, x: TimeToData)
    ensures multiset(InRange(a, stime, etime))[x] == if stime <= x.time <= etime then multiset(a)[x] else 0
  {
    if a != [] {
      var n := |a| - 1;
      InRangeCount(a[..n], stime, etime, x);
      OneMore(a, n);
      assert a[..n + 1] == a;
      var last := if stime <= a[n].time <= etime then [a[n]] else [];
      assert multiset(InRange(a, stime, etime)) == multiset(InRange(a[..n], stime, etime)) + multiset(last);
    }
  }

  lemma InRangeMultiset(a: seq<TimeToData>, b: seq<TimeToData>, stime: int, etime: int)
    requires multiset(a) == multiset(b)
    ensures multiset(InRange(a, stime, etime)) == multiset(InRange(b, stime, etime))
  {
    forall x: TimeToData
      ensures multiset(InRange(a, stime, etime))[x] == multiset(InRange(b, stime, etime))[x]
    {
      InRangeCount(a, stime, etime, x);
      InRangeCount(b, stime, etime, x);
    }
  }

  lemma {:induction false} InRangeAscending(a: seq<TimeToData>, stime: int, etime: int)
    requires Ascending(a)
    ensures Ascending(InRange(a, stime, etime))
    ensures forall x :: x in InRange(a, stime, etime) ==> x in a && stime <= x.time <= etime
  {
    if a != [] {
      var n := |a| - 1;
      InRangeAscending(a[..n], stime, etime);
      var pre := InRange(a[..n], stime, etime);
      if pre != [] {
        assert pre[|pre| - 1] in a[..n];
      }
      AscendingConcat(pre, [a[n]]);
      if !(stime <= a[n].time <= etime) {
        assert InRange(a, stime, etime) == pre;
      }
    }
  }
}
