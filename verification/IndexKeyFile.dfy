/** The multimap index (internal/db/io/index_key_file.go): a bucket table over a record file. */
module IndexKeyFile {
  import opened Endian
  import opened Layout
  import opened Results
  import opened KeyFile
  import opened HashBlock
  import opened Chains

  class IndexKeyFile {
    const hashBlock: MemHashBlock
    const keyFile: RealKeyFile
    const hash: bytes -> int32
    ghost var seen: nat   // the records that the bucket table knows

    ghost function H(): Bucketing
      requires hashBlock.capacity > 0
      reads hashBlock
    {
      Hasher(hash, hashBlock.capacity)
    }

    ghost function Log(): seq<Rec>
      reads keyFile, keyFile.raf
    {
      keyFile.Log()
    }

    /** The records this handle can find: all of them, unless another handle appended since. */
    ghost function Seen(): seq<Rec>
      requires seen <= |Log()|
      reads this, keyFile, keyFile.raf
    {
      Log()[..seen]
    }

    /** Links lead to the newest older record of the bucket, heads to the newest one seen. */
    ghost predicate Valid()
      reads this, hashBlock, hashBlock.buf, keyFile, keyFile.raf
    {
      && hashBlock.Valid() && keyFile.Valid()
      && seen <= |Log()|
      && Linked(Log(), H())
      && HeadsFor(Seen())
    }

    ghost predicate HeadsFor(log: seq<Rec>)
      requires hashBlock.Valid()
      reads this, hashBlock, hashBlock.buf
    {
      forall b :: 0 <= b < hashBlock.capacity ==> hashBlock.Heads()[b] == HeadPos(log, H(), b)
    }

    /** A clean table is the one on disk. */
    ghost predicate TableSaved()
      requires hashBlock.Valid()
      reads this, hashBlock, hashBlock.buf, hashBlock.file
    {
      !hashBlock.dirty ==>
        if |hashBlock.file.data| < MEM_HEAD_RESERVED then seen == 0
        else CapacityOf(|hashBlock.file.data|) == hashBlock.capacity && HeadsIn(hashBlock.file.data) == hashBlock.Heads()
    }

    /** The handle that appends: it has seen everything, and a clean table is on disk. */
    ghost predicate Writer()
      requires Valid()
      reads this, hashBlock, hashBlock.buf, hashBlock.file, keyFile, keyFile.raf
    {
      seen == |Log()| && keyFile.UpToDate() && TableSaved()
    }

    /** Opens an index whose table was written when the log had n records. */
    constructor (hfile: OsFile<()>, kfile: OsFile<Rec>, memSize: nat, hash: bytes -> int32, ghost n: nat)
      requires memSize >= KEY_LENGTH
      requires if kfile.data == [] then kfile.log == [] else Represents(kfile)
      requires |hfile.data| < MEM_HEAD_RESERVED ==> kfile.log == [] && n == 0
      requires |hfile.data| >= MEM_HEAD_RESERVED ==> TableFor(hash, hfile.data, kfile.log, n)
      modifies kfile
      ensures Valid() && fresh(hashBlock) && fresh(hashBlock.buf) && fresh(keyFile)
      ensures hashBlock.file == hfile && keyFile.raf == kfile && this.hash == hash
      ensures Log() == old(kfile.log) == kfile.log && seen == n && keyFile.pending == []
      ensures n == |kfile.log| ==> Writer()
      ensures hashBlock.capacity ==
        if |hfile.data| < MEM_HEAD_RESERVED then memSize / KEY_LENGTH else CapacityOf(|hfile.data|)
    {
      hide RecPos, Slots, HeadPos, Linked, HeadsIn, HeadIn, BucketOf, Hasher, RealKeyFile.Valid;
      hashBlock := new MemHashBlock(hfile, memSize);
      keyFile := new RealKeyFile(kfile);
      this.hash := hash;
      seen := n;
      new;
      assert Log() == kfile.log;
      EmptyLog(H());
      assert HeadsFor(Seen());
    }

    /** The bytes of a bucket table that was written when the log had n records. */
    static ghost predicate TableFor(hash: bytes -> int32, data: bytes, log: seq<Rec>, n: nat) {
      var c := CapacityOf(|data|);
      && c > 0 && n <= |log|
      && Linked(log, Hasher(hash, c))
      && forall b :: 0 <= b < c ==> HeadsIn(data)[b] == HeadPos(log[..n], Hasher(hash, c), b)
    }

    method Put(key: bytes, val: bytes)
      requires Valid() && Writer()
      requires |key| < 0x1_0000 && |val| < 0x8000_0000 && keyFile.Length() <= LONG5_MAX
      modifies this, hashBlock, hashBlock.buf, keyFile, keyFile.raf
      ensures Valid() && Writer() && hashBlock.buf == old(hashBlock.buf) && hashBlock.capacity == old(hashBlock.capacity)
      ensures exists p :: Log() == old(Log()) + [Rec(false, p, key, val)]
      ensures old(keyFile.raf.log) <= keyFile.raf.log
      ensures keyFile.Length() == old(keyFile.Length()) + |Enc(Rec(false, 0, key, val))|
    {
      hide RecPos, Slots, HeadPos, Linked, HeadsIn, BucketOf, Enc, CapacityOf, RealKeyFile.Valid, RealKeyFile.Log, RealKeyFile.UpToDate;
      ghost var log, h := Log(), H();
      assert log[..|log|] == log;
      var keyHash := hash(key);
      var prevKeyPos := hashBlock.Get(keyHash);
      HeadBelow(log, h, h(key));
      keyFile.LengthIsPos();
      var newKeyPos := keyFile.Append(prevKeyPos, key, val);
      ghost var r := Rec(false, prevKeyPos, key, val);
      LinkedAppend(log, h, r);
      hashBlock.Put(keyHash, newKeyPos);
      seen := seen + 1;
      assert Seen() == Log() == log + [r];
      forall b | 0 <= b < hashBlock.capacity
        ensures hashBlock.Heads()[b] == HeadPos(Log(), h, b)
      {
        HeadAppend(log, h, r, b);
      }
    }

    /** The newest undeleted value, as the chain of the key's bucket finds it. */
    method Get(key: bytes) returns (r: Result<Option<bytes>, ReadError>)
      requires Valid()
      modifies keyFile, keyFile.raf
      ensures Valid() && Log() == old(Log()) && (old(Writer()) ==> Writer())
      ensures old(keyFile.raf.log) <= keyFile.raf.log
      ensures keyFile.Length() == old(keyFile.Length())
      ensures r.Err? <==> LookupIn(Seen(), H(), key) == Unreadable
      ensures r.Ok? ==> r.value == LookupIn(Seen(), H(), key).ToOption()
    {
      hide RecPos, Slots, HeadPos, Linked, HeadsIn, LookupIn, Scan, Readable, TableSaved, CapacityOf, BucketOf,
        RealKeyFile.Valid, RealKeyFile.Log, RealKeyFile.Length, RealKeyFile.UpToDate;
      ghost var log, h, i := Log(), H(), seen;
      var keyHash := hash(key);
      var realKeyPos := hashBlock.Get(keyHash);
      while realKeyPos > 0
        invariant keyFile.Valid() && Log() == log && old(keyFile.raf.log) <= keyFile.raf.log
        invariant old(keyFile.UpToDate()) ==> keyFile.UpToDate()
        invariant keyFile.Length() == old(keyFile.Length())
        invariant 0 <= i <= seen && realKeyPos == HeadPos(log[..i], h, h(key))
        invariant LookupIn(log[..i], h, key) == LookupIn(log[..seen], h, key)
        decreases i
      {
        ghost var j := ChainStep(log, h, i, h(key));
        LookupStep(log, h, i, j, key);
        var rec := keyFile.GetRecord(realKeyPos, j);
        if rec.Err? {
          return Err(rec.error);
        }
        if !rec.value.deleted && rec.value.timeKey == key {
          return Ok(Some(rec.value.dataPos));
        }
        realKeyPos := rec.value.prevPos;
        i := j;
      }
      ghost var j := ChainStep(log, h, i, h(key));
      LookupStep(log, h, i, j, key);
      r := Ok(None);
    }

    method HasKey(key: bytes) returns (r: Result<bool, ReadError>)
      requires Valid()
      modifies keyFile, keyFile.raf
      ensures Valid() && Log() == old(Log()) && (old(Writer()) ==> Writer())
      ensures old(keyFile.raf.log) <= keyFile.raf.log
      ensures keyFile.Length() == old(keyFile.Length())
      ensures r.Err? <==> LookupIn(Seen(), H(), key) == Unreadable
      ensures r.Ok? ==> r.value == LookupIn(Seen(), H(), key).Value?
    {
      hide RecPos, Slots, HeadPos, Linked, HeadsIn, LookupIn, Scan, Readable, TableSaved, CapacityOf, BucketOf,
        RealKeyFile.Valid, RealKeyFile.Log, RealKeyFile.Length, RealKeyFile.UpToDate;
      ghost var log, h, i := Log(), H(), seen;
      var keyHash := hash(key);
      var pos := hashBlock.Get(keyHash);
      while pos > 0
        invariant keyFile.Valid() && Log() == log && old(keyFile.raf.log) <= keyFile.raf.log
        invariant old(keyFile.UpToDate()) ==> keyFile.UpToDate()
        invariant keyFile.Length() == old(keyFile.Length())
        invariant 0 <= i <= seen && pos == HeadPos(log[..i], h, h(key))
        invariant LookupIn(log[..i], h, key) == LookupIn(log[..seen], h, key)
        decreases i
      {
        ghost var j := ChainStep(log, h, i, h(key));
        LookupStep(log, h, i, j, key);
        var rec := keyFile.GetRecord(pos, j);
        if rec.Err? {
          return Err(rec.error);
        }
        if !rec.value.deleted && rec.value.timeKey == key {
          return Ok(true);
        }
        pos := rec.value.prevPos;
        i := j;
      }
      ghost var j := ChainStep(log, h, i, h(key));
      LookupStep(log, h, i, j, key);
      r := Ok(false);
    }

    /** All undeleted values, newest first; every record of the bucket must be readable. */
    method GetAll(key: bytes) returns (r: Result<seq<bytes>, ReadError>)
      requires Valid()
      modifies keyFile, keyFile.raf
      ensures Valid() && Log() == old(Log()) && (old(Writer()) ==> Writer())
      ensures old(keyFile.raf.log) <= keyFile.raf.log
      ensures keyFile.Length() == old(keyFile.Length())
      ensures r.Ok? <==> BucketReadable(Seen(), H(), key)
      ensures r.Ok? ==> r.value == Scan(Seen(), key)
    {
      hide RecPos, Slots, HeadPos, Linked, HeadsIn, LookupIn, Scan, BucketReadable, Readable, TableSaved, CapacityOf, BucketOf,
        RealKeyFile.Valid, RealKeyFile.Log, RealKeyFile.Length, RealKeyFile.UpToDate;
      ghost var log, h, i := Log(), H(), seen;
      var out: seq<bytes> := [];
      var keyHash := hash(key);
      var pos := hashBlock.Get(keyHash);
      while pos > 0
        invariant keyFile.Valid() && Log() == log && old(keyFile.raf.log) <= keyFile.raf.log
        invariant old(keyFile.UpToDate()) ==> keyFile.UpToDate()
        invariant keyFile.Length() == old(keyFile.Length())
        invariant 0 <= i <= seen && pos == HeadPos(log[..i], h, h(key))
        invariant out + Scan(log[..i], key) == Scan(log[..seen], key)
        invariant BucketReadable(log[..seen], h, key) <==> BucketReadable(log[..i], h, key)
        decreases i
      {
        ghost var j := ChainStep(log, h, i, h(key));
        CollectStep(out, log, h, i, j, key);
        BucketReadableStep(log, h, i, j, key);
        var rec := keyFile.GetRecord(pos, j);
        assert rec.Ok? ==> Matches(log[j], key) == (!rec.value.deleted && rec.value.timeKey == key);
        if rec.Err? {
          return Err(rec.error);
        }
        if !rec.value.deleted && rec.value.timeKey == key {
          out := out + [rec.value.dataPos];
        }
        pos := rec.value.prevPos;
        i := j;
      }
      ghost var j := ChainStep(log, h, i, h(key));
      ScanStep(log, h, i, j, key);
      BucketReadableStep(log, h, i, j, key);
      r := Ok(out);
    }

    /** Sets the flag of every undeleted record of the key, and counts them. */
    method Delete(key: bytes) returns (deleted: nat)
      requires Valid() && Writer()
      modifies keyFile, keyFile.raf
      ensures Valid() && Writer()
      ensures Log() == Tombstoned(old(Log()), key) && deleted == |Scan(old(Log()), key)|
      ensures keyFile.Length() == old(keyFile.Length()) && |old(keyFile.raf.log)| <= |keyFile.raf.log|
    {
      hide RecPos, Slots, HeadPos, Linked, HeadsIn, LookupIn, Scan, Readable, TableSaved, CapacityOf, BucketOf,
        RealKeyFile.Valid, RealKeyFile.Log, RealKeyFile.Length, RealKeyFile.UpToDate;
      ghost var log, h, i := Log(), H(), seen;
      assert log[..|log|] == log;
      var keyHash := hash(key);
      var pos := hashBlock.Get(keyHash);
      deleted := 0;
      while pos > 0
        invariant 0 <= i <= |log| && pos == HeadPos(log[..i], h, h(key))
        invariant keyFile.Valid() && keyFile.UpToDate() && keyFile.Length() == old(keyFile.Length())
        invariant |old(keyFile.raf.log)| <= |keyFile.raf.log|
        invariant SameUpToFlags(log, Log())
        invariant forall k :: 0 <= k < |log| ==> Log()[k] == if k >= i then Tombstoned(log, key)[k] else log[k]
        invariant deleted + |Scan(log[..i], key)| == |Scan(log, key)|
        decreases i
      {
        ghost var j := ChainStep(log, h, i, h(key));
        ScanStep(log, h, i, j, key);
        FlagsKeepPositions(log, Log(), j);
        var hit, prev := DeleteRecord(pos, key, j);
        deleted := deleted + if hit then 1 else 0;
        pos := prev;
        i := j;
      }
      ghost var j := ChainStep(log, h, i, h(key));
      ScanStep(log, h, i, j, key);
      assert Log() == Tombstoned(log, key);
      FlagsKeepLinks(log, Log(), h);
      assert Seen() == Log();
      assert HeadsFor(Log()) by {
        forall b | 0 <= b < hashBlock.capacity
          ensures hashBlock.Heads()[b] == HeadPos(Log(), h, b)
        {
          FlagsKeepHeads(log, Log(), h, b);
        }
      }
    }

    /** The work of Delete on one record of the chain. */
    method DeleteRecord(pos: nat, key: bytes, ghost j: nat) returns (hit: bool, prev: int)
      requires keyFile.Valid() && keyFile.UpToDate() && j < |Log()| && pos == RecPos(Log(), j)
      modifies keyFile, keyFile.raf
      ensures keyFile.Valid() && keyFile.UpToDate() && keyFile.Length() == old(keyFile.Length())
      ensures |old(keyFile.raf.log)| <= |keyFile.raf.log|
      ensures hit == Matches(old(Log())[j], key) && prev == old(Log())[j].prev
      ensures Log() == if hit then old(Log())[j := old(Log())[j].(deleted := true)] else old(Log())
    {
      hide RecPos, Slots, RealKeyFile.Valid, RealKeyFile.Log, RealKeyFile.Length, RealKeyFile.UpToDate;
      hit := false;
      var isDel := keyFile.IsDeleted(pos, j);
      if !isDel {
        var oKey := keyFile.GetTimeKey(pos, j);
        if oKey == key {
          keyFile.SetDelete(pos, true, j);
          hit := true;
        }
      }
      prev := keyFile.GetPrevPos(pos, j);
    }

    /** Every undeleted record in file order; the calls that Read makes to its handler. */
    method Read() returns (r: Result<seq<(bytes, bytes)>, ReadError>)
      requires Valid() && keyFile.UpToDate()
      modifies keyFile, keyFile.raf
      ensures Valid() && keyFile.UpToDate() && Log() == old(Log()) && (old(Writer()) ==> Writer())
      ensures keyFile.Length() == old(keyFile.Length())
      ensures r.Ok? <==> AllReadable(Log())
      ensures r.Ok? ==> r.value == LiveEntries(Log())
    {
      hide RecPos, Slots, HeadPos, Linked, HeadsIn, LiveEntries, Readable, TableSaved, CapacityOf, BucketOf,
        RealKeyFile.Valid, RealKeyFile.Log, RealKeyFile.Length, RealKeyFile.UpToDate;
      ghost var log, i: nat := Log(), 0;
      var out: seq<(bytes, bytes)> := [];
      keyFile.LengthIsPos();
      var pos := 2;
      var length := keyFile.Length();
      FirstRecord(log);
      while pos < length && pos > 0
        invariant keyFile.Valid() && Log() == log && keyFile.UpToDate() && keyFile.Length() == length
        invariant i <= |log| && pos == RecPos(log, i)
        invariant out == LiveEntries(log[..i]) && AllReadable(log[..i])
        decreases length - pos
      {
        NextRecord(log, i);
        var rec := keyFile.GetRecord(pos, i);
        if rec.Err? {
          return Err(rec.error);
        }
        if !rec.value.deleted {
          out := out + [(rec.value.timeKey, rec.value.dataPos)];
        }
        pos := rec.value.offset;
        i := i + 1;
      }
      assert i == |log| by {
        if i < |log| {
          NextRecord(log, i);
        }
      }
      assert log[..|log|] == log;
      r := Ok(out);
    }

    /** The background flush of the table. */
    method FlushTable()
      requires Valid() && Writer()
      modifies hashBlock`dirty, hashBlock.file`data
      ensures Valid() && Writer() && !hashBlock.dirty
      ensures |hashBlock.file.data| < MEM_HEAD_RESERVED ==> |old(hashBlock.file.data)| < MEM_HEAD_RESERVED
    {
      hide RecPos, Slots, HeadPos, Linked, HeadIn, RealKeyFile.Valid, RealKeyFile.Log;
      hashBlock.Flush();
    }

    /** The table and the buffered records go to their files, as on Close. */
    method Flush()
      requires Valid() && Writer()
      modifies keyFile, keyFile.raf, hashBlock`dirty, hashBlock.file`data
      ensures Valid() && Writer() && Log() == old(Log())
      ensures keyFile.Length() == old(keyFile.Length()) && keyFile.pending == []
      ensures Log() == keyFile.raf.log && |old(keyFile.raf.log)| <= |keyFile.raf.log|
      ensures if |hashBlock.file.data| < MEM_HEAD_RESERVED then seen == 0
        else TableFor(hash, hashBlock.file.data, Log(), seen) && CapacityOf(|hashBlock.file.data|) == hashBlock.capacity
      ensures |hashBlock.file.data| < MEM_HEAD_RESERVED ==> |old(hashBlock.file.data)| < MEM_HEAD_RESERVED
    {
      hide RecPos, Slots, HeadPos, Linked, HeadIn;
      ghost var log := Log();
      FlushTable();
      keyFile.Flush();
      assert keyFile.raf.log == log;
      assert Seen() == log;
    }

    /** Re-reads the table: a reader catches up with the moment it was written. */
    method Reload(ghost n: nat)
      requires Valid()
      requires |hashBlock.file.data| >= MEM_HEAD_RESERVED && TableFor(hash, hashBlock.file.data, Log(), n)
      modifies this`seen, hashBlock
      ensures Valid() && Log() == old(Log()) && seen == n && fresh(hashBlock.buf)
      ensures hashBlock.capacity == CapacityOf(|hashBlock.file.data|)
    {
      hide RecPos, Slots, HeadPos, Linked, HeadIn, RealKeyFile.Valid, RealKeyFile.Log;
      hashBlock.Reload();
      seen := n;
      assert HeadsFor(Seen());
    }
  }

  // ----- records in file order -----------------------------------------------------------

  function LiveEntries(log: seq<Rec>): seq<(bytes, bytes)> {
    if log == [] then []
    else
      var r := log[|log| - 1];
      LiveEntries(log[..|log| - 1]) + if r.deleted then [] else [(r.key, r.val)]
  }

  lemma FirstRecord(log: seq<Rec>)
    ensures RecPos(log, 0) == 2 && LiveEntries(log[..0]) == []
  {
  }

  lemma NextRecord(log: seq<Rec>, i: nat)
    requires i < |log|
    ensures RecPos(log, i) < RecPos(log, i + 1) <= RecPos(log, |log|)
    ensures LiveEntries(log[..i + 1]) == LiveEntries(log[..i]) + if log[i].deleted then [] else [(log[i].key, log[i].val)]
    ensures AllReadable(log[..i + 1]) <==> AllReadable(log[..i]) && Readable(log[i])
    ensures !Readable(log[i]) ==> !AllReadable(log)
  {
    hide RecPos, Readable;
    assert log[..i + 1][..i] == log[..i];
    RecPosOrder(log, i, i + 1);
    if i + 1 < |log| {
      RecPosOrder(log, i + 1, |log|);
    }
    if AllReadable(log[..i + 1]) {
      assert log[..i + 1][i] == log[i];
      assert forall k :: 0 <= k < i ==> log[..i][k] == log[..i + 1][k];
    }
  }
}
