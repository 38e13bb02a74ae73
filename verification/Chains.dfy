/** What the bucket chains of an index mean: a table of heads over a log of records linked
    backward by position. Nothing here looks at the hash beyond the bucket it gives a key. */
module Chains {
  import opened Endian
  import opened HashBlock
  import opened Layout
  import opened KeyFile
  import opened Results

  /** The position of the newest record in bucket b, or 0. */
  function HeadPos(log: seq<Rec>, h: Bucketing, b: nat): (p: nat)
  {
    if log == [] then 0
    else if h(log[|log| - 1].key) == b then RecPos(log, |log| - 1)
    else HeadPos(log[..|log| - 1], h, b)
  }

  /** Every record points at the newest older record of its bucket. */
  ghost predicate Linked(log: seq<Rec>, h: Bucketing) {
    forall i :: 0 <= i < |log| ==> log[i].prev == HeadPos(log[..i], h, h(log[i].key))
  }

  predicate Matches(r: Rec, key: bytes) {
    !r.deleted && r.key == key
  }

  /** The reference meaning of the index: the log, newest first. */
  function Scan(log: seq<Rec>, key: bytes): seq<bytes> {
    if log == [] then []
    else
      var r := log[|log| - 1];
      (if Matches(r, key) then [r.val] else []) + Scan(log[..|log| - 1], key)
  }

  /** The record a bucket head names: the last one of the bucket. */
  lemma {:induction false} HeadIndex(log: seq<Rec>, h: Bucketing, b: nat) returns (j: int)
    ensures -1 <= j < |log|
    ensures j >= 0 ==> h(log[j].key) == b && HeadPos(log, h, b) == RecPos(log, j) > 0
    ensures j == -1 ==> HeadPos(log, h, b) == 0
    ensures forall k :: j < k < |log| ==> h(log[k].key) != b
  {
    var n := |log| - 1;
    if log == [] {
      j := -1;
    } else if h(log[n].key) == b {
      j := n;
    } else {
      j := HeadIndex(log[..n], h, b);
      if j >= 0 {
        RecPosPrefix(log[..n], log, j);
      }
    }
  }

  /** One step of a chain walk that has passed the records from i on. */
  lemma ChainStep(log: seq<Rec>, h: Bucketing, i: nat, b: nat) returns (j: int)
    requires i <= |log| && Linked(log, h)
    ensures -1 <= j < i
    ensures HeadPos(log[..i], h, b) == if j == -1 then 0 else RecPos(log, j)
    ensures j >= 0 ==> RecPos(log, j) > 0 && h(log[j].key) == b && log[j].prev == HeadPos(log[..j], h, b)
    ensures forall k :: j < k < i ==> h(log[k].key) != b
  {
    hide HeadPos, RecPos;
    j := HeadIndex(log[..i], h, b);
    assert forall k :: 0 <= k < i ==> log[..i][k] == log[k];
    if j >= 0 {
      RecPosPrefix(log[..i], log, j);
    }
  }

  /** A head lies inside the file. */
  lemma HeadBelow(log: seq<Rec>, h: Bucketing, b: nat)
    ensures HeadPos(log, h, b) <= RecPos(log, |log|)
  {
    var j := HeadIndex(log, h, b);
    if j >= 0 {
      RecPosOrder(log, j, |log|);
    }
  }

  /** Records that do not match add nothing to a scan. */
  lemma {:induction false} ScanSkips(log: seq<Rec>, i: nat, j: nat, key: bytes)
    requires i <= j <= |log| && forall k :: i <= k < j ==> !Matches(log[k], key)
    ensures Scan(log[..j], key) == Scan(log[..i], key)
    decreases j
  {
    if i < j {
      assert log[..j][..j - 1] == log[..j - 1];
      ScanSkips(log, i, j - 1, key);
    }
  }

  /** A walk from i that stops at j, the newest record of the key's bucket, scans only j. */
  lemma ScanStep(log: seq<Rec>, h: Bucketing, i: nat, j: int, key: bytes)
    requires -1 <= j < i <= |log| || j == -1 <= i <= |log|
    requires forall k :: j < k < i ==> h(log[k].key) != h(key)
    ensures Scan(log[..i], key) ==
      if j == -1 then [] else (if Matches(log[j], key) then [log[j].val] else []) + Scan(log[..j], key)
  {
    ScanSkips(log, j + 1, i, key);
    if j >= 0 {
      assert log[..j + 1][..j] == log[..j];
    }
  }

  /** Collecting the value of record j, if it matches, in front of the rest of the scan. */
  lemma CollectStep(out: seq<bytes>, log: seq<Rec>, h: Bucketing, i: nat, j: nat, key: bytes)
    requires j < i <= |log| && forall k :: j < k < i ==> h(log[k].key) != h(key)
    ensures (if Matches(log[j], key) then out + [log[j].val] else out) + Scan(log[..j], key) == out + Scan(log[..i], key)
  {
    ScanStep(log, h, i, j, key);
  }

  lemma EmptyLog(h: Bucketing)
    ensures Linked([], h) && forall b: nat :: HeadPos([], h, b) == 0
  {
  }

  // ----- appending -----------------------------------------------------------------------

  lemma HeadAppend(log: seq<Rec>, h: Bucketing, r: Rec, b: nat)
    ensures HeadPos(log + [r], h, b) == if h(r.key) == b then RecPos(log + [r], |log|) else HeadPos(log, h, b)
  {
    assert (log + [r])[..|log|] == log;
  }

  lemma LinkedAppend(log: seq<Rec>, h: Bucketing, r: Rec)
    requires Linked(log, h) && r.prev == HeadPos(log, h, h(r.key))
    ensures Linked(log + [r], h)
  {
    forall i | 0 <= i < |log| + 1
      ensures (log + [r])[i].prev == HeadPos((log + [r])[..i], h, h((log + [r])[i].key))
    {
      assert (log + [r])[..i] == if i < |log| then log[..i] else log;
    }
  }

  // ----- deleting ------------------------------------------------------------------------

  /** Only flags differ. */
  ghost predicate SameUpToFlags(log: seq<Rec>, log2: seq<Rec>) {
    |log| == |log2| && forall i :: 0 <= i < |log| ==> log2[i] == log[i].(deleted := log2[i].deleted)
  }

  lemma FlagsKeepPositions(log: seq<Rec>, log2: seq<Rec>, k: nat)
    requires SameUpToFlags(log, log2) && k <= |log|
    ensures RecPos(log, k) == RecPos(log2, k)
  {
    SameLengths(Slots(log), Slots(log2), k);
  }

  lemma {:induction false} FlagsKeepHeads(log: seq<Rec>, log2: seq<Rec>, h: Bucketing, b: nat)
    requires SameUpToFlags(log, log2)
    ensures HeadPos(log, h, b) == HeadPos(log2, h, b)
  {
    if log != [] {
      FlagsKeepPositions(log, log2, |log| - 1);
      FlagsKeepHeads(log[..|log| - 1], log2[..|log| - 1], h, b);
    }
  }

  lemma FlagsKeepLinks(log: seq<Rec>, log2: seq<Rec>, h: Bucketing)
    requires SameUpToFlags(log, log2) && Linked(log, h)
    ensures Linked(log2, h)
  {
    forall i | 0 <= i < |log2|
      ensures log2[i].prev == HeadPos(log2[..i], h, h(log2[i].key))
    {
      FlagsKeepHeads(log[..i], log2[..i], h, h(log[i].key));
    }
  }

  /** What appends and deletes do to a log: it grows, and only flags of older records change. */
  ghost predicate Extends(log: seq<Rec>, more: seq<Rec>) {
    |log| <= |more| && SameUpToFlags(log, more[..|log|])
  }

  lemma ExtendsTransitive(a: seq<Rec>, b: seq<Rec>, c: seq<Rec>)
    requires Extends(a, b) && Extends(b, c)
    ensures Extends(a, c)
  {
    forall i | 0 <= i < |a|
      ensures c[..|a|][i] == a[i].(deleted := c[..|a|][i].deleted)
    {
      assert b[..|a|][i] == b[i] && c[..|b|][i] == c[i];
    }
  }

  /** The log after Delete: every record of the key carries the flag. */
  function Tombstoned(log: seq<Rec>, key: bytes): (log2: seq<Rec>)
    ensures SameUpToFlags(log, log2)
  {
    seq(|log|, i requires 0 <= i < |log| => if log[i].key == key then log[i].(deleted := true) else log[i])
  }

  lemma {:induction false} TombstonedScan(log: seq<Rec>, key: bytes, other: bytes)
    ensures Scan(Tombstoned(log, key), other) == if other == key then [] else Scan(log, other)
  {
    if log != [] {
      var n := |log| - 1;
      assert Tombstoned(log, key)[..n] == Tombstoned(log[..n], key);
      TombstonedScan(log[..n], key, other);
    }
  }

  // ----- lookups and unreadable records --------------------------------------------------

  datatype Lookup = Value(v: bytes) | Absent | Unreadable {
    function ToOption(): Option<bytes> {
      if Value? then Some(v) else None
    }
  }

  /** GetAll reads every record of the bucket, so all of them must be readable. */
  ghost predicate BucketReadable(log: seq<Rec>, h: Bucketing, key: bytes) {
    forall k :: 0 <= k < |log| && h(log[k].key) == h(key) ==> Readable(log[k])
  }

  lemma BucketReadableStep(log: seq<Rec>, h: Bucketing, i: nat, j: int, key: bytes)
    requires -1 <= j < i <= |log| || j == -1 <= i <= |log|
    requires forall k :: j < k < i ==> h(log[k].key) != h(key)
    requires j >= 0 ==> h(log[j].key) == h(key)
    ensures BucketReadable(log[..i], h, key) <==> (j == -1 || (Readable(log[j]) && BucketReadable(log[..j], h, key)))
  {
    if j >= 0 && BucketReadable(log[..i], h, key) {
      assert log[..i][j] == log[j];
      assert forall k :: 0 <= k < j ==> log[..i][k] == log[..j][k];
    }
    if j >= 0 && Readable(log[j]) && BucketReadable(log[..j], h, key) {
      forall k | 0 <= k < i && h(log[..i][k].key) == h(key)
        ensures Readable(log[..i][k])
      {
        if k < j {
          assert log[..j][k] == log[k];
        }
      }
    }
  }

  /** Newest first within the bucket; a record whose header does not fit the read window stops the walk. */
  function LookupIn(log: seq<Rec>, h: Bucketing, key: bytes): Lookup {
    if log == [] then Absent
    else
      var r := log[|log| - 1];
      if h(r.key) == h(key) && !Readable(r) then Unreadable
      else if Matches(r, key) then Value(r.val)
      else LookupIn(log[..|log| - 1], h, key)
  }

  /** Record i stands between the bucket head and the newest readable match. */
  ghost predicate Blocks(log: seq<Rec>, h: Bucketing, key: bytes, i: nat) {
    && i < |log| && h(log[i].key) == h(key) && !Readable(log[i])
    && forall j :: i < j < |log| ==> !(Readable(log[j]) && Matches(log[j], key))
  }

  /** A lookup fails exactly when an unreadable record blocks the bucket, and otherwise gives
      the first value of the scan. */
  lemma {:induction false} LookupMeaning(log: seq<Rec>, h: Bucketing, key: bytes)
    ensures LookupIn(log, h, key).Unreadable? <==> exists i :: Blocks(log, h, key, i)
    ensures !LookupIn(log, h, key).Unreadable? ==>
      LookupIn(log, h, key) == if Scan(log, key) == [] then Absent else Value(Scan(log, key)[0])
  {
    if log != [] {
      var n := |log| - 1;
      LookupMeaning(log[..n], h, key);
      forall i: nat
        ensures Blocks(log, h, key, i) <==> BlocksByStep(log, h, key, i)
      {
        BlocksStep(log, h, key, i);
      }
      if h(log[n].key) == h(key) && !Readable(log[n]) {
        assert Blocks(log, h, key, n);
      } else if !Matches(log[n], key) && LookupIn(log[..n], h, key).Unreadable? {
        var i :| Blocks(log[..n], h, key, i);
        assert BlocksByStep(log, h, key, i);
      }
    }
  }

  /** Blocks, one record at a time from the newest end. */
  ghost predicate BlocksByStep(log: seq<Rec>, h: Bucketing, key: bytes, i: nat)
    requires log != []
  {
    var n := |log| - 1;
    if i == n then h(log[n].key) == h(key) && !Readable(log[n])
    else Blocks(log[..n], h, key, i) && !(Readable(log[n]) && Matches(log[n], key))
  }

  lemma BlocksStep(log: seq<Rec>, h: Bucketing, key: bytes, i: nat)
    requires log != []
    ensures Blocks(log, h, key, i) <==> BlocksByStep(log, h, key, i)
  {
    hide Readable, Matches;
    var n := |log| - 1;
    assert forall j :: 0 <= j < n ==> log[..n][j] == log[j];
    if BlocksByStep(log, h, key, i) && i < n {
      forall j | i < j < |log|
        ensures !(Readable(log[j]) && Matches(log[j], key))
      {
        if j < n {
          assert log[..n][j] == log[j];
        }
      }
    }
  }

  ghost predicate AllReadable(log: seq<Rec>) {
    forall i :: 0 <= i < |log| ==> Readable(log[i])
  }

  /** Without unreadable records every lookup answers, from the scan alone. */
  lemma ReadableLookup(log: seq<Rec>, h: Bucketing, key: bytes)
    requires AllReadable(log)
    ensures BucketReadable(log, h, key)
    ensures LookupIn(log, h, key) == if Scan(log, key) == [] then Absent else Value(Scan(log, key)[0])
  {
    LookupMeaning(log, h, key);
  }

  lemma {:induction false} LookupSkips(log: seq<Rec>, h: Bucketing, key: bytes, i: nat, j: nat)
    requires i <= j <= |log| && forall k :: i <= k < j ==> h(log[k].key) != h(key)
    ensures LookupIn(log[..j], h, key) == LookupIn(log[..i], h, key)
    decreases j
  {
    if i < j {
      assert log[..j][..j - 1] == log[..j - 1];
      LookupSkips(log, h, key, i, j - 1);
    }
  }

  lemma LookupStep(log: seq<Rec>, h: Bucketing, i: nat, j: int, key: bytes)
    requires -1 <= j < i <= |log| || j == -1 <= i <= |log|
    requires forall k :: j < k < i ==> h(log[k].key) != h(key)
    requires j >= 0 ==> h(log[j].key) == h(key)
    ensures LookupIn(log[..i], h, key) ==
      if j == -1 then Absent
      else if !Readable(log[j]) then Unreadable
      else if Matches(log[j], key) then Value(log[j].val)
      else LookupIn(log[..j], h, key)
  {
    LookupSkips(log, h, key, j + 1, i);
    if j >= 0 {
      assert log[..j + 1][..j] == log[..j];
    }
  }
}
