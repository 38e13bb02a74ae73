/** A second handle on the same files (the read-only consumers of an index): bucket heads from
    an earlier moment over a record file that the writer goes on extending. */
module Snapshot {
  import opened Endian
  import opened DataStream
  import opened Layout
  import opened KeyFile
  import opened HashBlock
  import opened Chains
  import opened IndexKeyFile
  import opened IndexRuns

  /** reader and writer share the record file and nothing else that changes. */
  ghost predicate Apart(writer: IndexKeyFile, reader: IndexKeyFile)
    reads writer, writer.hashBlock, reader, reader.hashBlock
  {
    && writer != reader && writer.keyFile != reader.keyFile && writer.keyFile.raf == reader.keyFile.raf
    && writer.hashBlock != reader.hashBlock && writer.hashBlock.buf != reader.hashBlock.buf
    && writer.hash == reader.hash && writer.hashBlock.capacity == reader.hashBlock.capacity
  }

  /** Heads taken from a prefix of the log name the same records after any appends and deletes. */
  lemma HeadsKeepMeaning(log: seq<Rec>, more: seq<Rec>, h: Bucketing, n: nat, b: nat)
    requires Extends(log, more) && n <= |log|
    ensures HeadPos(log[..n], h, b) == HeadPos(more[..n], h, b)
    ensures SameUpToFlags(log[..n], more[..n])
  {
    assert forall i :: 0 <= i < n ==> more[..|log|][i] == more[i];
    FlagsKeepHeads(log[..n], more[..n], h, b);
  }

  lemma PrefixLinked(log: seq<Rec>, h: Bucketing, n: nat)
    requires Linked(log, h) && n <= |log|
    ensures Linked(log[..n], h)
  {
    forall i | 0 <= i < n
      ensures log[..n][i].prev == HeadPos(log[..n][..i], h, h(log[..n][i].key))
    {
      assert log[..n][..i] == log[..i];
    }
  }

  lemma PositionsKeep(log: seq<Rec>, more: seq<Rec>, n: nat)
    requires Extends(log, more) && n <= |log|
    ensures RecPos(log, n) == RecPos(more, n)
  {
    FlagsKeepPositions(log, more[..|log|], n);
    RecPosPrefix(more[..|log|], more, n);
  }

  /** The two ways to see the records on disk. */
  lemma DiskPrefix(disk: seq<Rec>, pending: seq<Rec>, disk2: seq<Rec>, pending2: seq<Rec>)
    requires Extends(disk + pending, disk2 + pending2) && |disk| <= |disk2|
    ensures Extends(disk, disk2)
  {
    var a, b := disk + pending, disk2 + pending2;
    forall i | 0 <= i < |disk|
      ensures disk2[..|disk|][i] == disk[i].(deleted := disk2[..|disk|][i].deleted)
    {
      assert a[i] == disk[i] && b[..|a|][i] == disk2[i];
    }
  }

  /** What a reader's own state says about the records that were on disk at some moment. */
  ghost predicate ReaderOf(reader: IndexKeyFile, disk: seq<Rec>)
    reads reader, reader.hashBlock, reader.hashBlock.buf, reader.keyFile
  {
    && reader.hashBlock.Valid() && reader.seen <= |disk| && Linked(disk, reader.H()) && reader.HeadsFor(disk[..reader.seen])
    && reader.keyFile.pending == [] && reader.keyFile.appendBuf == Flat(Slots([]))
    && reader.keyFile.flushed <= |disk| && reader.keyFile.fileEnd == RecPos(disk, reader.keyFile.flushed)
  }

  lemma ReaderNow(reader: IndexKeyFile)
    requires reader.Valid() && reader.keyFile.pending == []
    ensures ReaderOf(reader, reader.keyFile.raf.log)
    ensures reader.seen <= |reader.keyFile.raf.log| && reader.Log() == reader.keyFile.raf.log
  {
    hide RecPos, Slots, HeadPos, Linked, HeadsIn, BucketOf;
    assert reader.Log() == reader.keyFile.raf.log;
  }

  /** The reader's handle stays valid over the records that are on disk later. */
  lemma ReaderLater(writer: IndexKeyFile, reader: IndexKeyFile, disk: seq<Rec>)
    requires writer.Valid() && Apart(writer, reader)
    requires ReaderOf(reader, disk) && Extends(disk, writer.keyFile.raf.log)
    ensures reader.Valid() && reader.Log() == writer.keyFile.raf.log
    ensures SameUpToFlags(disk[..reader.seen], reader.Seen())
  {
    hide RecPos, Slots, HeadPos, Linked, HeadsIn, BucketOf, Extends;
    var now, h := writer.keyFile.raf.log, reader.H();
    assert reader.Log() == now;
    PositionsKeep(disk, now, reader.keyFile.flushed);
    assert writer.Log()[..|now|] == now;
    PrefixLinked(writer.Log(), h, |now|);
    DiskGrows(disk, now);
    HeadsKeepMeaning(disk, now, h, reader.seen, 0);
    forall b | 0 <= b < reader.hashBlock.capacity
      ensures reader.hashBlock.Heads()[b] == HeadPos(reader.Seen(), h, b)
    {
      HeadsKeepMeaning(disk, now, h, reader.seen, b);
    }
  }

  lemma DiskGrows(disk: seq<Rec>, now: seq<Rec>)
    requires Extends(disk, now)
    ensures |disk| <= |now|
  {
  }

  /** Any run of puts, deletes and flushes by the writer leaves the reader's handle valid. It
      sees exactly the records it saw before, with the flags they carry now. */
  method WriterRuns(writer: IndexKeyFile, reader: IndexKeyFile, ops: seq<Op>, ghost earlier: seq<Op>)
    requires writer.Valid() && writer.Writer() && reader.Valid() && Apart(writer, reader)
    requires reader.keyFile.pending == [] && Agrees(writer.Log(), earlier)
    requires forall i :: 0 <= i < |ops| ==> Legal(ops[i]) && !ops[i].Reopen?
    requires writer.keyFile.Length() + FileBound(ops) <= LONG5_MAX
    modifies writer, writer.hashBlock, writer.hashBlock.buf, writer.hashBlock.file, writer.keyFile, writer.keyFile.raf
    ensures writer.Valid() && writer.Writer() && Agrees(writer.Log(), earlier + ops)
    ensures reader.Valid() && reader.seen == old(reader.seen)
    ensures SameUpToFlags(old(reader.Seen()), reader.Seen())
    ensures reader.Log() <= writer.Log()
  {
    hide RecPos, Slots, HeadPos, Linked, HeadsIn, BucketOf, Enc, IndexKeyFile.Valid, IndexKeyFile.Writer, Agrees, Extends,
      ReaderOf, RealKeyFile.Length;
    ReaderNow(reader);
    ghost var log, disk, pending := writer.Log(), writer.keyFile.raf.log, writer.keyFile.pending;
    ghost var length, snapshot := writer.keyFile.Length(), reader.Seen();
    assert snapshot == disk[..reader.seen];
    ReflexiveExtends(log);
    assert earlier + ops[..0] == earlier;
    for i := 0 to |ops|
      invariant writer.Valid() && writer.Writer() && Agrees(writer.Log(), earlier + ops[..i])
      invariant Extends(log, writer.Log()) && |disk| <= |writer.keyFile.raf.log|
      invariant writer.keyFile.Length() + 2 <= length + FileBound(ops[..i])
      invariant writer.hashBlock.buf == old(writer.hashBlock.buf) && writer.hashBlock.capacity == old(writer.hashBlock.capacity)
    {
      BoundGrows(ops, i);
      BoundGrows(ops, i + 1);
      assert ops[..i + 1][..i] == ops[..i] && (earlier + ops[..i]) + [ops[i]] == earlier + ops[..i + 1];
      ghost var before := writer.Log();
      var next := Step(writer, ops[i], earlier + ops[..i]);
      ExtendsTransitive(log, before, writer.Log());
    }
    assert ops[..|ops|] == ops;
    DiskPrefix(disk, pending, writer.keyFile.raf.log, writer.keyFile.pending);
    ReaderLater(writer, reader, disk);
  }

  /** A table written when the log had n records may be reloaded over the records on disk exactly if all
      its heads lie below their end. Otherwise some head lies at or past the end of the file, where a
      read finds no byte. */
  lemma SafeReload(hash: bytes -> int32, table: bytes, log: seq<Rec>, disk: seq<Rec>, n: nat)
    requires IndexKeyFile.TableFor(hash, table, log, n) && disk <= log
    ensures n <= |disk| <==> IndexKeyFile.TableFor(hash, table, disk, n)
    ensures n <= |disk| <==> forall b :: 0 <= b < CapacityOf(|table|) ==> HeadsIn(table)[b] < |FileOf(Slots(disk))|
  {
    hide HeadsIn, HeadPos, RecPos, Slots, FileOf, Linked, BucketOf;
    var c := CapacityOf(|table|);
    var h, k := Hasher(hash, c), |disk|;
    assert log[..k] == disk;
    PrefixLinked(log, h, k);
    EndOfFile(disk);
    RecPosPrefix(disk, log, k);
    if n <= k {
      assert log[..n] == disk[..n];
      forall b | 0 <= b < c
        ensures HeadsIn(table)[b] < |FileOf(Slots(disk))|
      {
        HeadBefore(log, h, n, k, b);
      }
    } else {
      NewestIsHead(log, h, n);
      assert h(log[n - 1].key) == BucketOf(hash(log[n - 1].key), c);
      assert HeadsIn(table)[h(log[n - 1].key)] == RecPos(log, n - 1);
      if k < n - 1 {
        RecPosOrder(log, k, n - 1);
      }
    }
  }

  lemma EndOfFile(disk: seq<Rec>)
    ensures |FileOf(Slots(disk))| == RecPos(disk, |disk|) > 0
  {
    PosEnd(Slots(disk));
  }

  lemma HeadBefore(log: seq<Rec>, h: Bucketing, n: nat, k: nat, b: nat)
    requires n <= k <= |log|
    ensures HeadPos(log[..n], h, b) < RecPos(log, k)
  {
    hide HeadPos, RecPos;
    var j := HeadIndex(log[..n], h, b);
    if j >= 0 {
      RecPosPrefix(log[..n], log, j);
      RecPosOrder(log, j, k);
    }
  }

  lemma NewestIsHead(log: seq<Rec>, h: Bucketing, n: nat)
    requires 0 < n <= |log|
    ensures HeadPos(log[..n], h, h(log[n - 1].key)) == RecPos(log, n - 1)
  {
    RecPosPrefix(log[..n], log, n - 1);
  }

  lemma ReflexiveExtends(log: seq<Rec>)
    ensures Extends(log, log)
  {
    assert log[..|log|] == log;
  }
}
