/** Rebuilding an index with another number of buckets (internal/db/text/rehash.go). */
module Rehash {
  import opened Endian
  import opened DataStream
  import opened Layout
  import opened Results
  import opened KeyFile
  import opened HashBlock
  import opened Chains
  import opened IndexKeyFile

  const MB := 1024 * 1024

  datatype Outcome = Skipped | Empty | Rebuilt(records: nat) | Failed(error: ReadError)

  /** The scan, from the undeleted records alone. */
  function ScanEntries(es: seq<(bytes, bytes)>, key: bytes): seq<bytes> {
    if es == [] then []
    else (if es[|es| - 1].0 == key then [es[|es| - 1].1] else []) + ScanEntries(es[..|es| - 1], key)
  }

  function EntriesSize(es: seq<(bytes, bytes)>): nat {
    if es == [] then 0
    else EntriesSize(es[..|es| - 1]) + |Enc(Rec(false, 0, es[|es| - 1].0, es[|es| - 1].1))|
  }

  /** Deleted records and links do not show in a scan. */
  lemma {:induction false} ScanOfLive(log: seq<Rec>, key: bytes)
    ensures Scan(log, key) == ScanEntries(LiveEntries(log), key)
  {
    if log != [] {
      var n := |log| - 1;
      ScanOfLive(log[..n], key);
      if !log[n].deleted {
        assert LiveEntries(log)[..|LiveEntries(log)| - 1] == LiveEntries(log[..n]);
      } else {
        assert LiveEntries(log) == LiveEntries(log[..n]);
      }
    }
  }

  /** The live records fit in a file no longer than the old one. */
  lemma {:induction false} LiveIsSmaller(log: seq<Rec>)
    ensures 2 + EntriesSize(LiveEntries(log)) <= RecPos(log, |log|)
  {
    hide RecPos, Enc;
    if log == [] {
      FirstRecord([]);
    } else {
      var n := |log| - 1;
      var es := LiveEntries(log);
      LiveIsSmaller(log[..n]);
      RecPosPrefix(log[..n], log, n);
      RecPosNext(log, n);
      if log[n].deleted {
        assert es == LiveEntries(log[..n]);
      } else {
        assert es[..|es| - 1] == LiveEntries(log[..n]);
        SameLength(log[n]);
      }
    }
  }

  lemma SameLength(r: Rec)
    ensures |Enc(r)| == |Enc(Rec(false, 0, r.key, r.val))|
  {
  }

  /** A record as the new index stores it, up to its link. */
  ghost predicate Storable(e: (bytes, bytes)) {
    |e.0| < 0x1_0000 && |e.1| < 0x8000_0000 && Readable(Rec(false, 0, e.0, e.1))
  }

  lemma {:induction false} LiveIsStorable(log: seq<Rec>)
    requires AllReadable(log) && forall i :: 0 <= i < |log| ==> Fits(log[i])
    ensures forall i :: 0 <= i < |LiveEntries(log)| ==> Storable(LiveEntries(log)[i])
  {
    if log != [] {
      var n := |log| - 1;
      LiveIsStorable(log[..n]);
      assert Readable(log[n]) ==> Readable(Rec(false, 0, log[n].key, log[n].val));
    }
  }

  lemma {:induction false} SizeGrows(es: seq<(bytes, bytes)>, i: nat)
    requires i < |es|
    ensures EntriesSize(es[..i + 1]) == EntriesSize(es[..i]) + |Enc(Rec(false, 0, es[i].0, es[i].1))|
    ensures EntriesSize(es[..i + 1]) <= EntriesSize(es)
    decreases |es| - i
  {
    assert es[..i + 1][..i] == es[..i];
    if i + 1 < |es| {
      SizeGrows(es, i + 1);
    } else {
      assert es[..i + 1] == es;
    }
  }

  /** One insertion into the new index. */
  lemma InsertedIsLive(log: seq<Rec>, log2: seq<Rec>, es: seq<(bytes, bytes)>, i: nat)
    requires i < |es| && LiveEntries(log) == es[..i] && AllReadable(log)
    requires exists p :: log2 == log + [Rec(false, p, es[i].0, es[i].1)]
    requires Storable(es[i])
    ensures LiveEntries(log2) == es[..i + 1] && AllReadable(log2)
  {
    assert log2[..|log|] == log;
    assert es[..i + 1] == es[..i] + [es[i]];
  }

  /** Both indexes answer every lookup alike. */
  ghost predicate SameAnswers(log: seq<Rec>, h: Bucketing, log2: seq<Rec>, h2: Bucketing) {
    forall key ::
      && Scan(log, key) == Scan(log2, key)
      && LookupIn(log, h, key) == LookupIn(log2, h2, key) && !LookupIn(log2, h2, key).Unreadable?
      && BucketReadable(log, h, key) && BucketReadable(log2, h2, key)
  }

  lemma SameLive(log: seq<Rec>, h: Bucketing, log2: seq<Rec>, h2: Bucketing)
    requires LiveEntries(log) == LiveEntries(log2) && AllReadable(log) && AllReadable(log2)
    ensures SameAnswers(log, h, log2, h2)
  {
    forall key
      ensures Scan(log, key) == Scan(log2, key)
      ensures LookupIn(log, h, key) == LookupIn(log2, h2, key) && !LookupIn(log2, h2, key).Unreadable?
      ensures BucketReadable(log, h, key) && BucketReadable(log2, h2, key)
    {
      ScanOfLive(log, key);
      ScanOfLive(log2, key);
      ReadableLookup(log, h, key);
      ReadableLookup(log2, h2, key);
    }
  }

  /** A new, empty index. */
  method NewIndex(hashSizeMB: nat, hash: bytes -> int32) returns (idx: IndexKeyFile)
    ensures idx.Valid() && idx.Writer() && idx.Log() == [] && idx.keyFile.Length() == 2
    ensures idx.hashBlock.capacity == (if hashSizeMB == 0 then 1 else hashSizeMB) * 1_048_576 / 5 && idx.hash == hash
    ensures fresh(idx) && fresh(idx.hashBlock) && fresh(idx.hashBlock.buf) && fresh(idx.hashBlock.file)
    ensures fresh(idx.keyFile) && fresh(idx.keyFile.raf)
  {
    hide RecPos, Slots, HeadPos, Linked, HeadsIn, BucketOf;
    var hfile := new OsFile<()>();
    var kfile := new OsFile<Rec>();
    idx := new IndexKeyFile(hfile, kfile, (if hashSizeMB == 0 then 1 else hashSizeMB) * MB, hash, 0);
    EmptyLength(idx);
  }

  lemma EmptyLength(idx: IndexKeyFile)
    requires idx.Valid() && idx.Writer() && idx.Log() == []
    ensures idx.keyFile.Length() == 2
  {
    idx.keyFile.LengthIsPos();
    FirstRecord(idx.Log());
  }

  /** Inserts the entries one by one, as the handler of the streaming read does. */
  method InsertAll(idx: IndexKeyFile, es: seq<(bytes, bytes)>) returns (inserted: nat)
    requires idx.Valid() && idx.Writer() && idx.Log() == []
    requires idx.keyFile.Length() + EntriesSize(es) <= LONG5_MAX
    requires forall i :: 0 <= i < |es| ==> Storable(es[i])
    modifies idx, idx.hashBlock, idx.hashBlock.buf, idx.keyFile, idx.keyFile.raf
    ensures idx.Valid() && idx.Writer() && inserted == |es|
    ensures LiveEntries(idx.Log()) == es && AllReadable(idx.Log())
    ensures idx.hashBlock.capacity == old(idx.hashBlock.capacity)
  {
    hide RecPos, Slots, HeadPos, Linked, HeadsIn, HeadIn, BucketOf, Readable, LiveEntries, EntriesSize, Enc,
      IndexKeyFile.Valid, IndexKeyFile.Writer, AllReadable, RealKeyFile.Length, RealKeyFile.Log;
    inserted := 0;
    NothingLive();
    assert es[..0] == [];
    ghost var start := idx.keyFile.Length();
    for i := 0 to |es|
      invariant idx.Valid() && idx.Writer() && inserted == i
      invariant idx.keyFile.Length() == start + EntriesSize(es[..i])
      invariant LiveEntries(idx.Log()) == es[..i] && AllReadable(idx.Log())
      invariant idx.hashBlock.buf == old(idx.hashBlock.buf) && idx.hashBlock.capacity == old(idx.hashBlock.capacity)
    {
      SizeGrows(es, i);
      ghost var before := idx.Log();
      idx.Put(es[i].0, es[i].1);
      InsertedIsLive(before, idx.Log(), es, i);
      inserted := inserted + 1;
    }
    assert es[..|es|] == es;
  }

  /** Streams the live records in file order into a new index with newHashSizeMB of buckets.
      The new index answers every lookup as the old one did, and counts the live records. */
  method RehashDiv(oldIdx: IndexKeyFile, newHashSizeMB: nat) returns (out: Outcome, newIdx: IndexKeyFile?)
    requires oldIdx.Valid() && oldIdx.Writer() && oldIdx.keyFile.Length() <= LONG5_MAX
    modifies oldIdx.keyFile, oldIdx.keyFile.raf, oldIdx.hashBlock`dirty, oldIdx.hashBlock.file`data
    ensures oldIdx.Valid() && oldIdx.Log() == old(oldIdx.Log())
    ensures out.Skipped? <==> old(|oldIdx.hashBlock.file.data|) - 1024 == newHashSizeMB * 1_048_576
    ensures !out.Skipped? ==> (out.Failed? <==> !AllReadable(oldIdx.Log()))
    ensures out.Empty? ==> LiveEntries(oldIdx.Log()) == []
    ensures out.Rebuilt? ==>
      && newIdx != null && newIdx.Valid() && newIdx.Writer()
      && SameAnswers(oldIdx.Log(), oldIdx.H(), newIdx.Log(), newIdx.H())
      && out.records == |LiveEntries(oldIdx.Log())| > 0
      && newIdx.hashBlock.capacity == (if newHashSizeMB == 0 then 1 else newHashSizeMB) * 1_048_576 / 5
  {
    hide RecPos, Slots, HeadPos, Linked, HeadsIn, HeadIn, BucketOf, Readable, LiveEntries, EntriesSize, Enc, Storable,
      IndexKeyFile.Valid, IndexKeyFile.Writer, SameAnswers, AllReadable, RealKeyFile.Length, RealKeyFile.Log;
    newIdx := null;
    var oldBufSize := |oldIdx.hashBlock.file.data| - MEM_HEAD_RESERVED;
    if oldBufSize == newHashSizeMB * MB {
      return Skipped, null;
    }
    UpToDateOf(oldIdx);
    var es := oldIdx.Read();
    if es.Err? {
      return Failed(es.error), null;
    }
    if |es.value| == 0 {
      return Empty, null;
    }
    LiveOf(oldIdx);
    var idx := NewIndex(newHashSizeMB, oldIdx.hash);
    var inserted := InsertAll(idx, es.value);
    UpToDateOf(idx);
    oldIdx.Flush();
    idx.Flush();
    SameLive(oldIdx.Log(), oldIdx.H(), idx.Log(), idx.H());
    return Rebuilt(inserted), idx;
  }

  lemma UpToDateOf(idx: IndexKeyFile)
    requires idx.Valid() && idx.Writer()
    ensures idx.keyFile.UpToDate() && idx.hashBlock.capacity > 0
  {
  }

  lemma NothingLive()
    ensures LiveEntries([]) == [] && EntriesSize([]) == 0 && AllReadable([])
  {
  }

  lemma LiveOf(idx: IndexKeyFile)
    requires idx.Valid() && idx.Writer()
    ensures var es := LiveEntries(idx.Log());
      && 2 + EntriesSize(es) <= idx.keyFile.Length()
      && (AllReadable(idx.Log()) ==> forall i :: 0 <= i < |es| ==> Storable(es[i]))
  {
    hide RecPos, Slots, HeadPos, Linked, HeadsIn, LiveEntries, EntriesSize, Enc, AllReadable, Storable;
    idx.keyFile.LengthIsPos();
    LiveIsSmaller(idx.Log());
    if AllReadable(idx.Log()) {
      LiveIsStorable(idx.Log());
    }
  }
}
