/** Whole runs of the time-range index over one day: a reference meaning that never mentions buckets,
    records or files, and the index against it. */
module TimeRuns {
  import opened Endian
  import opened Layout
  import opened Results
  import opened Selections
  import opened KeyFile
  import opened HashBlock
  import opened TimeBlock
  import opened IndexTimeFile

  datatype Op = Put(timeMs: int, dataPos: bytes) | Delete(timeMs: int) | FlushRecords

  predicate SameHalfSecond(midnight: int, s: int, t: int) {
    (s - midnight) / SLOT_MILLIS == (t - midnight) / SLOT_MILLIS
  }

  function Outside(items: seq<TimeToData>, midnight: int, t: int): seq<TimeToData> {
    if items == [] then []
    else
      var x := items[|items| - 1];
      Outside(items[..|items| - 1], midnight, t) + if SameHalfSecond(midnight, x.time, t) then [] else [x]
  }

  function NextItems(items: seq<TimeToData>, midnight: int, op: Op): seq<TimeToData> {
    match op
    case Put(t, d) => if t > 0 then items + [TimeToData(t, d)] else items
    case Delete(t) => if t > 0 then Outside(items, midnight, t) else items
    case FlushRecords => items
  }

  /** What was put and whose half-second was not deleted since, in the order of the puts. */
  function Remaining(midnight: int, ops: seq<Op>): seq<TimeToData> {
    if ops == [] then [] else NextItems(Remaining(midnight, ops[..|ops| - 1]), midnight, ops[|ops| - 1])
  }

  function FileBound(ops: seq<Op>): nat {
    if ops == [] then 2 else FileBound(ops[..|ops| - 1]) + Growth(ops[|ops| - 1])
  }

  function Growth(op: Op): nat {
    match op case Put(t, d) => |Enc(Rec(false, 0, Endian.Put(8, t), d))| case _ => 0
  }

  predicate Legal(midnight: int, op: Op) {
    match op
    case Put(t, d) => InDay(midnight, t) && -0x8000_0000_0000_0000 <= t < 0x8000_0000_0000_0000 && |d| < 0x8000_0000
    case Delete(t) => InDay(midnight, t)
    case FlushRecords => true
  }

  // ----- the log -------------------------------------------------------------------------

  function Alive(log: seq<Rec>): seq<TimeToData> {
    if log == [] then [] else Alive(log[..|log| - 1]) + LiveItem(log[|log| - 1])
  }

  lemma {:induction false} BetweenIsInRange(log: seq<Rec>, stime: int, etime: int)
    ensures Between(log, stime, etime) == InRange(Alive(log), stime, etime)
  {
    if log != [] {
      var init, r := log[..|log| - 1], log[|log| - 1];
      BetweenIsInRange(init, stime, etime);
      if !r.deleted {
        assert Alive(log)[..|Alive(log)| - 1] == Alive(init);
      } else {
        assert Alive(log) == Alive(init);
      }
    }
  }

  lemma PutAlive(log: seq<Rec>, log2: seq<Rec>, midnight: int, t: int, d: bytes)
    requires OfDay(midnight, log) && InDay(midnight, t) && 0 < t < 0x8000_0000_0000_0000
    requires exists p :: log2 == log + [Rec(false, p, Endian.Put(8, t), d)]
    ensures OfDay(midnight, log2) && Alive(log2) == Alive(log) + [TimeToData(t, d)]
  {
    PowValues();
    SignedPut(8, t);
    assert log2[..|log|] == log;
  }

  lemma {:induction false} DeleteAlive(log: seq<Rec>, midnight: int, t: int)
    requires OfDay(midnight, log) && InDay(midnight, t)
    ensures var b := BucketOfTime(midnight, t);
      var log2 := BucketDeleted(log, Bucketing8(midnight), b);
      && OfDay(midnight, log2) && Alive(log2) == Outside(Alive(log), midnight, t)
      && |Alive(log)| == |Alive(log2)| + |Items(log, Bucketing8(midnight), b, b)|
  {
    hide BucketOfTime, Alive, Outside, Items, Signed;
    NothingAlive(midnight, t);
    if log != [] {
      var n := |log| - 1;
      var h, b := Bucketing8(midnight), BucketOfTime(midnight, t);
      DeleteAlive(log[..n], midnight, t);
      var init2 := BucketDeleted(log[..n], h, b);
      var r2 := if h(log[n].key) == b then log[n].(deleted := true) else log[n];
      assert BucketDeleted(log, h, b) == init2 + [r2];
      assert log == log[..n] + [log[n]];
      OneMoreAlive(log[..n], log[n], h, b);
      OneMoreAlive(init2, r2, h, b);
      BucketInDay(midnight, t);
      BucketInDay(midnight, Signed(log[n].key));
      assert Alive(init2) + [] == Alive(init2) && Alive(log[..n]) + [] == Alive(log[..n]);
      if !log[n].deleted {
        OutsideNext(Alive(log[..n]), ItemOf(log[n]), midnight, t);
      }
    } else {
      assert BucketDeleted([], Bucketing8(midnight), BucketOfTime(midnight, t)) == [];
    }
  }

  lemma NothingAlive(midnight: int, t: int)
    ensures Alive([]) == [] && Outside([], midnight, t) == []
    ensures Items([], Bucketing8(midnight), BucketOfTime(midnight, t), BucketOfTime(midnight, t)) == []
  {
  }

  lemma OneMoreAlive(log: seq<Rec>, r: Rec, h: Bucketing, b: nat)
    ensures Alive(log + [r]) == Alive(log) + LiveItem(r)
    ensures Items(log + [r], h, b, b) == Items(log, h, b, b) + if h(r.key) == b then LiveItem(r) else []
  {
    assert (log + [r])[..|log|] == log;
  }

  lemma OutsideNext(items: seq<TimeToData>, x: TimeToData, midnight: int, t: int)
    ensures Outside(items + [x], midnight, t) == Outside(items, midnight, t) + if SameHalfSecond(midnight, x.time, t) then [] else [x]
  {
    assert (items + [x])[..|items|] == items;
  }

  lemma RunNext(midnight: int, ops: seq<Op>, i: nat)
    requires i < |ops|
    ensures Remaining(midnight, ops[..i + 1]) == NextItems(Remaining(midnight, ops[..i]), midnight, ops[i])
    ensures FileBound(ops[..i + 1]) == FileBound(ops[..i]) + Growth(ops[i])
  {
    assert ops[..i + 1][..i] == ops[..i];
  }

  lemma {:induction false} BoundGrows(midnight: int, ops: seq<Op>, i: nat)
    requires i <= |ops|
    ensures FileBound(ops[..i]) <= FileBound(ops)
    decreases |ops| - i
  {
    if i < |ops| {
      RunNext(midnight, ops, i);
      BoundGrows(midnight, ops, i + 1);
    } else {
      assert ops[..i] == ops;
    }
  }

  // ----- the reference, in milliseconds --------------------------------------------------

  /** Two times go together exactly when one of the intervals of 500 ms that start at midnight has both. */
  lemma SameIff(midnight: int, s: int, t: int)
    ensures SameHalfSecond(midnight, s, t) <==>
      exists k: int :: midnight + 500 * k <= s < midnight + 500 * k + 500 && midnight + 500 * k <= t < midnight + 500 * k + 500
  {
    var k := (t - midnight) / 500;
    assert midnight + 500 * k <= t < midnight + 500 * k + 500;
  }

  /** The items that are not in the k-th interval of 500 ms. */
  function Apart(midnight: int, k: int): TimeToData -> bool {
    (x: TimeToData) => !(midnight + 500 * k <= x.time < midnight + 500 * k + 500)
  }

  lemma ApartIs(midnight: int, t: int, k: int, x: TimeToData)
    requires midnight + 500 * k <= t < midnight + 500 * k + 500
    ensures Apart(midnight, k)(x) <==> !SameHalfSecond(midnight, x.time, t)
  {
  }

  lemma {:induction false} OutsideMeaning(items: seq<TimeToData>, midnight: int, t: int, k: int)
    requires midnight + 500 * k <= t < midnight + 500 * k + 500
    ensures Keeps(items, Apart(midnight, k), Outside(items, midnight, t))
  {
    hide Apart, SameHalfSecond, Keeps;
    if items == [] {
      KeepsNone(Apart(midnight, k));
    } else {
      var init, x := items[..|items| - 1], items[|items| - 1];
      OutsideMeaning(init, midnight, t, k);
      KeepsNext(init, Apart(midnight, k), Outside(init, midnight, t), x);
      ApartIs(midnight, t, k, x);
      assert items == init + [x];
    }
  }

  /** The items of a range of times. */
  function Inside(stime: int, etime: int): TimeToData -> bool {
    (x: TimeToData) => stime <= x.time <= etime
  }

  lemma {:induction false} InRangeMeaning(items: seq<TimeToData>, stime: int, etime: int)
    ensures Keeps(items, Inside(stime, etime), InRange(items, stime, etime))
  {
    hide Keeps;
    if items == [] {
      KeepsNone(Inside(stime, etime));
    } else {
      var init, x := items[..|items| - 1], items[|items| - 1];
      InRangeMeaning(init, stime, etime);
      KeepsNext(init, Inside(stime, etime), InRange(init, stime, etime), x);
      assert items == init + [x];
    }
  }

  /** What remains after one more operation: a put is the last item; a delete at t takes exactly the
      items of the interval of t, with the order and the number of all others kept. */
  lemma OneMoreOperation(midnight: int, ops: seq<Op>, t: int, d: bytes, k: int)
    requires t > 0 && midnight + 500 * k <= t < midnight + 500 * k + 500
    ensures Remaining(midnight, []) == []
    ensures Remaining(midnight, ops + [Put(t, d)]) == Remaining(midnight, ops) + [TimeToData(t, d)]
    ensures Keeps(Remaining(midnight, ops), Apart(midnight, k), Remaining(midnight, ops + [Delete(t)]))
    ensures Remaining(midnight, ops + [FlushRecords]) == Remaining(midnight, ops)
  {
    hide Apart, Keeps;
    OutsideMeaning(Remaining(midnight, ops), midnight, t, k);
    assert (ops + [Put(t, d)])[..|ops|] == ops && (ops + [Delete(t)])[..|ops|] == ops && (ops + [FlushRecords])[..|ops|] == ops;
  }

  // ----- the index -----------------------------------------------------------------------

  method Step(idx: IndexTimeFile, op: Op) returns (deleted: nat)
    requires idx.Valid() && idx.OneDay() && Legal(idx.timeBlockHash.midnight, op) && idx.keyFile.Length() <= LONG5_MAX
    modifies idx.timeBlockHash, idx.timeBlockHash.buf, idx.keyFile, idx.keyFile.raf
    ensures idx.Valid() && idx.OneDay() && idx.timeBlockHash.buf == old(idx.timeBlockHash.buf)
    ensures Alive(idx.Log()) == NextItems(old(Alive(idx.Log())), idx.timeBlockHash.midnight, op)
    ensures deleted == if op.Delete? then |old(Alive(idx.Log()))| - |Alive(idx.Log())| else 0
    ensures idx.keyFile.Length() <= old(idx.keyFile.Length()) + Growth(op)
  {
    hide OfDay, Alive, Enc, BucketOfTime, Bucketing8, Items, IndexTimeFile.Valid, RealKeyFile.Log, RealKeyFile.Length;
    ghost var log, midnight := idx.Log(), idx.timeBlockHash.midnight;
    deleted := 0;
    match op
    case Put(t, d) =>
      var r := idx.Put(t, d);
      if t > 0 {
        PutAlive(log, idx.Log(), midnight, t, d);
      }
    case Delete(t) =>
      var r := idx.Delete(t);
      if t > 0 {
        deleted := r.value;
        DeleteAlive(log, midnight, t);
      }
    case FlushRecords =>
      idx.FlushRecords();
  }

  /** After every run from an empty file: the undeleted records are what remains of the puts. */
  method Run(ops: seq<Op>, midnight: int) returns (idx: IndexTimeFile)
    requires FileBound(ops) <= LONG5_MAX && forall i :: 0 <= i < |ops| ==> Legal(midnight, ops[i])
    ensures idx.Valid() && idx.OneDay() && idx.timeBlockHash.midnight == midnight
    ensures Alive(idx.Log()) == Remaining(midnight, ops)
    ensures fresh(idx.keyFile) && fresh(idx.keyFile.raf)
  {
    hide OfDay, Alive, Growth, NextItems, Remaining, FileBound, IndexTimeFile.Valid, RealKeyFile.Log, RealKeyFile.Length, Legal;
    var kfile := new OsFile<Rec>();
    idx := new IndexTimeFile(kfile, midnight);
    NoRun(midnight);
    for i := 0 to |ops|
      invariant idx.Valid() && idx.OneDay() && idx.timeBlockHash.midnight == midnight
      invariant Alive(idx.Log()) == Remaining(midnight, ops[..i]) && idx.keyFile.Length() <= FileBound(ops[..i])
      invariant fresh(idx.timeBlockHash) && fresh(idx.timeBlockHash.buf) && fresh(idx.keyFile) && fresh(idx.keyFile.raf)
    {
      RunNext(midnight, ops, i);
      BoundGrows(midnight, ops, i);
      var deleted := Step(idx, ops[i]);
    }
    assert ops[..|ops|] == ops;
  }

  lemma NoRun(midnight: int)
    ensures Alive([]) == [] && Remaining(midnight, []) == [] && FileBound([]) == 2 && OfDay(midnight, [])
  {
  }

  /** What range reads of an aligned range answer after a run: all that remains in the range, in order
      of time, and nothing that does not remain. */
  method Ask(ops: seq<Op>, midnight: int, stime: int, etime: int) returns (forward: seq<TimeToData>, backward: seq<TimeToData>)
    requires FileBound(ops) <= LONG5_MAX && forall i :: 0 <= i < |ops| ==> Legal(midnight, ops[i])
    requires InDay(midnight, stime) && InDay(midnight, etime) && 0 < stime <= etime < 0x8000_0000_0000_0000
    requires (stime - midnight) % 500 <= (etime - midnight) % 500
    ensures Ascending(forward) && Descending(backward)
    ensures var items := InRange(Remaining(midnight, ops), stime, etime);
      && multiset(InRange(forward, stime, etime)) == multiset(items)
      && multiset(InRange(backward, stime, etime)) == multiset(items)
    ensures forall x :: x in forward || x in backward ==> x in Remaining(midnight, ops)
  {
    hide OfDay, Alive, Remaining, FileBound, IndexTimeFile.Valid, RealKeyFile.Log, InRange, Between, ForwardItems, BackwardItems, Items,
      Ascending, Descending, Legal;
    var idx := Run(ops, midnight);
    ghost var log := idx.Log();
    var r1 := idx.Read(stime, etime);
    var r2 := idx.ReadFromEnd(stime, etime);
    forward, backward := r1.value, r2.value;
    CompleteIffAligned(midnight, stime, etime);
    BetweenIsInRange(log, stime, etime);
    InRangeMultiset(forward, ForwardItems(log, midnight, stime, etime), stime, etime);
    InRangeMultiset(backward, BackwardItems(log, midnight, stime, etime), stime, etime);
    ReadIsAlive(log, midnight, stime, etime, forward, backward);
  }

  lemma ReadIsAlive(log: seq<Rec>, midnight: int, stime: int, etime: int, forward: seq<TimeToData>, backward: seq<TimeToData>)
    requires multiset(forward) == multiset(ForwardItems(log, midnight, stime, etime))
    requires multiset(backward) == multiset(BackwardItems(log, midnight, stime, etime))
    ensures forall x :: x in forward || x in backward ==> x in Alive(log)
  {
    hide Items, Alive, LastVisited, FirstVisited, BucketOfTime, Bucketing8;
    forall x | x in forward || x in backward
      ensures x in Alive(log)
    {
      var h := Bucketing8(midnight);
      ItemsAreAlive(log, h, BucketOfTime(midnight, stime), BucketOfTime(midnight, LastVisited(stime, etime)), x);
      ItemsAreAlive(log, h, BucketOfTime(midnight, FirstVisited(stime, etime)), BucketOfTime(midnight, etime), x);
      assert x in multiset(forward) || x in multiset(backward);
    }
  }

  lemma {:induction false} ItemsAreAlive(log: seq<Rec>, h: Bucketing, lo: int, hi: int, x: TimeToData)
    ensures x in Items(log, h, lo, hi) ==> x in Alive(log)
  {
    if log != [] {
      ItemsAreAlive(log[..|log| - 1], h, lo, hi, x);
    }
  }
}
