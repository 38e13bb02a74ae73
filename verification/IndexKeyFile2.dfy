/** The index with expiry times (internal/db/io/index_key_file2.go), against a map from key to
    value and expiry. */
module IndexKeyFile2 {
  import opened Endian
  import opened Layout
  import opened Results
  import opened KeyFile2
  import opened HashBlock

  datatype Entry = Entry(val: bytes, expire: int)

  /** The reference meaning: the newest record of a key decides; a deleted one removes the key. */
  function Entries(log: seq<Slot>): map<bytes, Entry> {
    if log == [] then map[]
    else Bind(Entries(log[..|log| - 1]), log[|log| - 1].rec)
  }

  function Bind(m: map<bytes, Entry>, r: Rec2): map<bytes, Entry> {
    if r.deleted then m - {r.key} else m[r.key := Entry(r.val, r.expire)]
  }

  /** The value of a key at a moment: bound and not expired before it. */
  function LiveValue(m: map<bytes, Entry>, key: bytes, now: int): Option<bytes> {
    if key in m && m[key].expire >= now then Some(m[key].val) else None
  }

  // ----- chains --------------------------------------------------------------------------

  function HeadPos(log: seq<Slot>, h: Bucketing, b: nat): (p: nat)
  {
    if log == [] then 0
    else if h(log[|log| - 1].rec.key) == b then SlotPos(log, |log| - 1)
    else HeadPos(log[..|log| - 1], h, b)
  }

  ghost predicate Linked(log: seq<Slot>, h: Bucketing) {
    forall i :: 0 <= i < |log| ==> log[i].rec.prev == HeadPos(log[..i], h, h(log[i].rec.key))
  }

  lemma {:induction false} HeadIndex(log: seq<Slot>, h: Bucketing, b: nat) returns (j: int)
    ensures -1 <= j < |log|
    ensures j >= 0 ==> h(log[j].rec.key) == b && HeadPos(log, h, b) == SlotPos(log, j) > 0
    ensures j == -1 ==> HeadPos(log, h, b) == 0
    ensures forall k :: j < k < |log| ==> h(log[k].rec.key) != b
  {
    var n := |log| - 1;
    if log == [] {
      j := -1;
    } else if h(log[n].rec.key) == b {
      j := n;
    } else {
      j := HeadIndex(log[..n], h, b);
      if j >= 0 {
        SlotPosPrefix(log[..n], log, j);
      }
    }
  }

  lemma ChainStep(log: seq<Slot>, h: Bucketing, i: nat, b: nat) returns (j: int)
    requires i <= |log| && Linked(log, h)
    ensures -1 <= j < i
    ensures HeadPos(log[..i], h, b) == if j == -1 then 0 else SlotPos(log, j)
    ensures j >= 0 ==> SlotPos(log, j) > 0 && h(log[j].rec.key) == b && log[j].rec.prev == HeadPos(log[..j], h, b)
    ensures forall k :: j < k < i ==> h(log[k].rec.key) != b
  {
    hide SlotPos, HeadPos, Slots;
    j := HeadIndex(log[..i], h, b);
    if j >= 0 {
      SlotPosPrefix(log[..i], log, j);
    }
  }

  lemma EmptyLog(h: Bucketing)
    ensures Linked([], h) && forall b: nat :: HeadPos([], h, b) == 0
  {
  }

  /** Only the empty log leaves every bucket empty. */
  lemma NoHeads(log: seq<Slot>, h: Bucketing, capacity: nat)
    requires log != [] ==> h(log[|log| - 1].rec.key) < capacity
    requires forall b :: 0 <= b < capacity ==> HeadPos(log, h, b) == 0
    ensures log == []
  {
    if log != [] {
      assert HeadPos(log, h, h(log[|log| - 1].rec.key)) > 0;
    }
  }

  lemma HeadBelow(log: seq<Slot>, h: Bucketing, b: nat)
    ensures HeadPos(log, h, b) <= SlotPos(log, |log|)
  {
    var j := HeadIndex(log, h, b);
    if j >= 0 {
      SlotPosOrder(log, j, |log|);
    }
  }

  lemma HeadAppend(log: seq<Slot>, h: Bucketing, s: Slot, b: nat)
    ensures HeadPos(log + [s], h, b) == if h(s.rec.key) == b then SlotPos(log + [s], |log|) else HeadPos(log, h, b)
  {
    assert (log + [s])[..|log|] == log;
  }

  lemma LinkedAppend(log: seq<Slot>, h: Bucketing, s: Slot)
    requires Linked(log, h) && s.rec.prev == HeadPos(log, h, h(s.rec.key))
    ensures Linked(log + [s], h)
  {
    forall i | 0 <= i < |log| + 1
      ensures (log + [s])[i].rec.prev == HeadPos((log + [s])[..i], h, h((log + [s])[i].rec.key))
    {
      assert (log + [s])[..i] == if i < |log| then log[..i] else log;
    }
  }

  /** In-place changes keep every key, link and position. */
  ghost predicate SameLinks(log: seq<Slot>, log2: seq<Slot>) {
    && SameShape(log, log2)
    && forall i :: 0 <= i < |log| ==> log2[i].rec.key == log[i].rec.key && log2[i].rec.prev == log[i].rec.prev
  }

  lemma {:induction false} HeadsKeep(log: seq<Slot>, log2: seq<Slot>, h: Bucketing, n: nat, b: nat)
    requires SameLinks(log, log2) && n <= |log|
    ensures HeadPos(log[..n], h, b) == HeadPos(log2[..n], h, b)
  {
    if n > 0 {
      assert log[..n][..n - 1] == log[..n - 1] && log2[..n][..n - 1] == log2[..n - 1];
      HeadsKeep(log, log2, h, n - 1, b);
      ShapeKeepsPositions(log, log2, n - 1);
      SlotPosPrefix(log[..n], log, n - 1);
      SlotPosPrefix(log2[..n], log2, n - 1);
    }
  }

  lemma LinksKeep(log: seq<Slot>, log2: seq<Slot>, h: Bucketing)
    requires SameLinks(log, log2) && Linked(log, h)
    ensures Linked(log2, h)
  {
    forall i | 0 <= i < |log2|
      ensures log2[i].rec.prev == HeadPos(log2[..i], h, h(log2[i].rec.key))
    {
      HeadsKeep(log, log2, h, i, h(log[i].rec.key));
    }
  }

  // ----- the map and the newest record ---------------------------------------------------

  /** j is the newest record of the key. */
  ghost predicate Newest(log: seq<Slot>, key: bytes, j: nat) {
    j < |log| && log[j].rec.key == key && forall k :: j < k < |log| ==> log[k].rec.key != key
  }

  lemma {:induction false} EntriesAtNewest(log: seq<Slot>, key: bytes, j: nat)
    requires Newest(log, key, j)
    ensures key in Entries(log) <==> !log[j].rec.deleted
    ensures key in Entries(log) ==> Entries(log)[key] == Entry(log[j].rec.val, log[j].rec.expire)
  {
    var n := |log| - 1;
    if j < n {
      EntriesAtNewest(log[..n], key, j);
    }
  }

  lemma {:induction false} EntriesAbsent(log: seq<Slot>, key: bytes)
    requires forall k :: 0 <= k < |log| ==> log[k].rec.key != key
    ensures key !in Entries(log)
  {
    if log != [] {
      EntriesAbsent(log[..|log| - 1], key);
    }
  }

  lemma EntriesAppend(log: seq<Slot>, s: Slot)
    ensures Entries(log + [s]) == Bind(Entries(log), s.rec)
  {
    assert (log + [s])[..|log|] == log;
  }

  /** Changing the newest record of a key in place rebinds that key and no other. */
  lemma {:induction false} EntriesUpdate(log: seq<Slot>, j: nat, s: Slot)
    requires Newest(log, s.rec.key, j)
    ensures Entries(log[j := s]) == Bind(Entries(log), s.rec)
  {
    var n := |log| - 1;
    var log2 := log[j := s];
    if j == n {
      assert log2[..n] == log[..n];
      assert Entries(log2) == Bind(Entries(log[..n]), s.rec);
    } else {
      assert log2[..n] == log[..n][j := s];
      EntriesUpdate(log[..n], j, s);
      BindsCommute(Entries(log[..n]), s.rec, log[n].rec);
    }
  }

  lemma BindsCommute(m: map<bytes, Entry>, r: Rec2, q: Rec2)
    requires r.key != q.key
    ensures Bind(Bind(m, r), q) == Bind(Bind(m, q), r)
  {
  }

  class IndexKeyFile2 {
    const hashBlock: MemHashBlock
    const keyFile: RealKeyFile2
    const hash: bytes -> int32

    ghost function H(): Bucketing
      requires hashBlock.capacity > 0
      reads hashBlock
    {
      Hasher(hash, hashBlock.capacity)
    }

    ghost function Log(): seq<Slot>
      reads keyFile, keyFile.raf
    {
      keyFile.Log()
    }

    ghost predicate Valid()
      reads this, hashBlock, hashBlock.buf, keyFile, keyFile.raf
    {
      hashBlock.Valid() && keyFile.Valid() && Linked(Log(), H()) && HeadsFor(Log())
    }

    ghost predicate HeadsFor(log: seq<Slot>)
      requires hashBlock.Valid()
      reads this, hashBlock, hashBlock.buf
    {
      forall b :: 0 <= b < hashBlock.capacity ==> hashBlock.Heads()[b] == HeadPos(log, H(), b)
    }

    /** The abstract state. */
    ghost function Map(): map<bytes, Entry>
      reads keyFile, keyFile.raf
    {
      Entries(Log())
    }

    /** A clean table is the one on disk. */
    ghost predicate TableSaved()
      reads this, hashBlock, hashBlock.buf, hashBlock.file
    {
      hashBlock.Valid() && !hashBlock.dirty ==>
        if |hashBlock.file.data| < MEM_HEAD_RESERVED then forall b :: 0 <= b < hashBlock.capacity ==> hashBlock.Heads()[b] == 0
        else CapacityOf(|hashBlock.file.data|) == hashBlock.capacity && HeadsIn(hashBlock.file.data) == hashBlock.Heads()
    }

    /** The bytes of a bucket table that was written for this log. */
    static ghost predicate TableFor(hash: bytes -> int32, data: bytes, log: seq<Slot>) {
      var c := CapacityOf(|data|);
      && c > 0 && Linked(log, Hasher(hash, c))
      && forall b :: 0 <= b < c ==> HeadsIn(data)[b] == HeadPos(log, Hasher(hash, c), b)
    }

    /** Opens new files, or those that an earlier handle flushed. */
    constructor (hfile: OsFile<()>, kfile: OsFile<Slot>, memSize: nat, hash: bytes -> int32)
      requires memSize >= KEY_LENGTH && Stored(kfile)
      requires if |hfile.data| < MEM_HEAD_RESERVED then kfile.log == [] else TableFor(hash, hfile.data, kfile.log)
      modifies kfile
      ensures Valid() && TableSaved() && Log() == old(kfile.log) && this.hash == hash
      ensures keyFile.Length() == SlotPos(Log(), |Log()|)
      ensures fresh(hashBlock) && fresh(hashBlock.buf) && fresh(keyFile) && keyFile.raf == kfile && hashBlock.file == hfile
    {
      hide HeadIn, HeadPos, SlotPos, BucketOf, Hasher, RealKeyFile2.Valid, RealKeyFile2.Length;
      hashBlock := new MemHashBlock(hfile, memSize);
      keyFile := new RealKeyFile2(kfile);
      this.hash := hash;
      new;
      EmptyLog(H());
    }

    /** The buffered records go to their file. */
    method FlushRecords()
      requires Valid()
      modifies keyFile, keyFile.raf
      ensures Valid() && Map() == old(Map()) && keyFile.Length() == old(keyFile.Length())
    {
      hide SlotPos, Slots, HeadPos, Linked, HeadsIn, BucketOf, RealKeyFile2.Valid, RealKeyFile2.Log, RealKeyFile2.Length;
      keyFile.Flush();
    }

    method FlushTable()
      requires Valid() && TableSaved()
      modifies hashBlock`dirty, hashBlock.file`data
      ensures Valid() && TableSaved() && !hashBlock.dirty
    {
      hide SlotPos, Slots, HeadPos, Linked, HeadIn, RealKeyFile2.Valid, RealKeyFile2.Log;
      hashBlock.Flush();
    }

    /** Table and records go to their files, as on Close. */
    method Flush()
      requires Valid() && TableSaved()
      modifies keyFile, keyFile.raf, hashBlock`dirty, hashBlock.file`data
      ensures Valid() && Log() == old(Log()) == keyFile.raf.log && Stored(keyFile.raf) && keyFile.Length() == old(keyFile.Length())
      ensures if |hashBlock.file.data| < MEM_HEAD_RESERVED then Log() == [] else TableFor(hash, hashBlock.file.data, Log())
    {
      hide SlotPos, Slots, HeadPos, Linked, HeadsIn, BucketOf, TableFor, RealKeyFile2.Log, RealKeyFile2.Length, TableSaved;
      FlushTable();
      TableIsFor();
      keyFile.Flush();
      StoredAll();
    }

    lemma TableIsFor()
      requires Valid() && TableSaved() && !hashBlock.dirty
      ensures if |hashBlock.file.data| < MEM_HEAD_RESERVED then Log() == [] else TableFor(hash, hashBlock.file.data, Log())
    {
      hide SlotPos, Slots, HeadPos, Linked, HeadIn, BucketOf, RealKeyFile2.Valid, RealKeyFile2.Log;
      if |hashBlock.file.data| < MEM_HEAD_RESERVED {
        assert Log() != [] ==> H()(Log()[|Log()| - 1].rec.key) == BucketOf(hash(Log()[|Log()| - 1].rec.key), hashBlock.capacity);
        NoHeads(Log(), H(), hashBlock.capacity);
      }
    }

    lemma StoredAll()
      requires keyFile.Valid() && Log() == keyFile.raf.log
      ensures Stored(keyFile.raf)
    {
    }

    /** Finds the newest record of the key: the walk that Get, SetTTL, Delete and the others share. */
    method Find(key: bytes) returns (pos: int, ghost j: int)
      requires Valid()
      modifies keyFile, keyFile.raf
      ensures Valid() && Log() == old(Log()) && keyFile.Length() == old(keyFile.Length())
      ensures pos > 0 ==> 0 <= j < |Log()| && Newest(Log(), key, j) && pos == SlotPos(Log(), j)
      ensures pos == 0 ==> key !in Map()
      ensures pos >= 0
    {
      hide SlotPos, Slots, HeadPos, Linked, HeadsIn, BucketOf, Entries,
        RealKeyFile2.Valid, RealKeyFile2.Log, RealKeyFile2.Length;
      ghost var log, h := Log(), H();
      ghost var i := |log|;
      assert log[..i] == log;
      var keyHash := hash(key);
      pos := hashBlock.Get(keyHash);
      j := -1;
      while pos > 0
        invariant keyFile.Valid() && Log() == log && keyFile.Length() == old(keyFile.Length())
        invariant 0 <= i <= |log| && pos == HeadPos(log[..i], h, h(key)) >= 0
        invariant forall k :: i <= k < |log| ==> log[k].rec.key != key
        decreases i
      {
        j := ChainStep(log, h, i, h(key));
        var oKey := keyFile.GetKey(pos, j);
        if oKey == key {
          return;
        }
        pos := keyFile.GetPrevPos(pos, j);
        i := j;
      }
      j := ChainStep(log, h, i, h(key));
      EntriesAbsent(log, key);
    }

    method PutTTL(key: bytes, val: bytes, ttl: int, now: int)
      requires Valid() && |key| < 0x1_0000 && |val| < 0x8000_0000 && keyFile.Length() <= LONG5_MAX
      modifies this, hashBlock, hashBlock.buf, keyFile, keyFile.raf
      ensures Valid() && hashBlock.buf == old(hashBlock.buf)
      ensures Map() == old(Map())[key := Entry(val, Expiry(now, ttl))]
      ensures TableSaved() && hashBlock.capacity == old(hashBlock.capacity)
      ensures keyFile.Length() == old(keyFile.Length()) + |Enc(Rec2(false, 0, 0, key, val))|
    {
      hide SlotPos, Slots, HeadPos, Linked, HeadsIn, BucketOf, Entries, Expiry,
        RealKeyFile2.Valid, RealKeyFile2.Log;
      ghost var log, h := Log(), H();
      var keyHash := hash(key);
      var prevKeyPos := hashBlock.Get(keyHash);
      HeadBelow(log, h, h(key));
      keyFile.LengthIsPos();
      var newKeyPos := keyFile.AppendTTL(prevKeyPos, ttl, key, val, now);
      ghost var s := Slot(Rec2(false, Expiry(now, ttl), prevKeyPos, key, val), []);
      LinkedAppend(log, h, s);
      EntriesAppend(log, s);
      hashBlock.Put(keyHash, newKeyPos);
      forall b | 0 <= b < hashBlock.capacity
        ensures hashBlock.Heads()[b] == HeadPos(Log(), h, b)
      {
        HeadAppend(log, h, s, b);
      }
    }

    /** A record changed in place: links and heads are as before. */
    lemma Keeps(log: seq<Slot>, j: nat, s: Slot)
      requires hashBlock.Valid() && keyFile.Valid() && Linked(log, H()) && HeadsFor(log)
      requires Newest(log, s.rec.key, j) && s.rec.prev == log[j].rec.prev
      requires Log() == log[j := s] && SameShape(log, Log())
      ensures Valid() && Map() == Bind(Entries(log), s.rec)
    {
      hide SlotPos, Slots, HeadPos, Linked, HeadsIn, BucketOf, Entries, SameShape,
        RealKeyFile2.Valid, RealKeyFile2.Log;
      var h := H();
      LinksKeep(log, Log(), h);
      EntriesUpdate(log, j, s);
      assert log[..|log|] == log && Log()[..|log|] == Log();
      forall b | 0 <= b < hashBlock.capacity
        ensures hashBlock.Heads()[b] == HeadPos(Log(), h, b)
      {
        HeadsKeep(log, Log(), h, |log|, b);
      }
    }

    /** Rebinds the key, in place when the new value is no longer than the old one. */
    method UpdateOrPutTTL(key: bytes, val: bytes, ttl: int, now: int)
      requires Valid() && |key| < 0x1_0000 && |val| < 0x8000_0000 && keyFile.Length() <= LONG5_MAX
      modifies this, hashBlock, hashBlock.buf, keyFile, keyFile.raf
      ensures Valid() && hashBlock.buf == old(hashBlock.buf)
      ensures Map() == old(Map())[key := Entry(val, Expiry(now, ttl))]
      ensures old(TableSaved()) ==> TableSaved()
      ensures keyFile.Length() <= old(keyFile.Length()) + |Enc(Rec2(false, 0, 0, key, val))|
    {
      hide SlotPos, Slots, HeadPos, Linked, HeadsIn, BucketOf, Entries, Expiry, Enc,
        RealKeyFile2.Valid, RealKeyFile2.Log, RealKeyFile2.Length;
      ghost var log := Log();
      var pos, j := Find(key);
      if pos > 0 {
        var ok := keyFile.Update(pos, ttl, key, val, now, j);
        if ok {
          ghost var s := Log()[j];
          assert Log() == log[j := s];
          Keeps(log, j, s);
          return;
        }
      }
      PutTTL(key, val, ttl, now);
    }

    method SetTTL(key: bytes, ttl: int, now: int) returns (done: bool)
      requires Valid()
      modifies keyFile, keyFile.raf
      ensures Valid() && keyFile.Length() == old(keyFile.Length())
      ensures done == LiveValue(old(Map()), key, now).Some?
      ensures Map() == if done then old(Map())[key := old(Map())[key].(expire := Expiry(now, ttl))] else old(Map())
    {
      hide SlotPos, Slots, HeadPos, Linked, HeadsIn, BucketOf, Entries, Expiry,
        RealKeyFile2.Valid, RealKeyFile2.Log, RealKeyFile2.Length;
      ghost var log := Log();
      var pos, j := Find(key);
      if pos == 0 {
        return false;
      }
      EntriesAtNewest(log, key, j);
      var gone := keyFile.IsDeletedOrExpired(pos, now, j);
      if gone {
        return false;
      }
      keyFile.SetTTL(pos, ttl, now, j);
      Keeps(log, j, Log()[j]);
      done := true;
    }

    method Get(key: bytes, now: int) returns (r: Option<bytes>)
      requires Valid()
      modifies keyFile, keyFile.raf
      ensures Valid() && Map() == old(Map()) && keyFile.Length() == old(keyFile.Length())
      ensures r == LiveValue(Map(), key, now)
    {
      hide SlotPos, Slots, HeadPos, Linked, HeadsIn, BucketOf, Entries,
        RealKeyFile2.Valid, RealKeyFile2.Log, RealKeyFile2.Length;
      var pos, j := Find(key);
      if pos == 0 {
        return None;
      }
      EntriesAtNewest(Log(), key, j);
      var gone := keyFile.IsDeletedOrExpired(pos, now, j);
      if gone {
        return None;
      }
      var val := keyFile.GetDataPos(pos, j);
      r := Some(val);
    }

    method HasKey(key: bytes, now: int) returns (has: bool)
      requires Valid()
      modifies keyFile, keyFile.raf
      ensures Valid() && Map() == old(Map()) && keyFile.Length() == old(keyFile.Length())
      ensures has == LiveValue(Map(), key, now).Some?
    {
      hide SlotPos, Slots, HeadPos, Linked, HeadsIn, BucketOf, Entries,
        RealKeyFile2.Valid, RealKeyFile2.Log, RealKeyFile2.Length;
      var pos, j := Find(key);
      if pos == 0 {
        return false;
      }
      EntriesAtNewest(Log(), key, j);
      var gone := keyFile.IsDeletedOrExpired(pos, now, j);
      has := !gone;
    }

    /** Marks the newest record of the key, once; older records of the key stay hidden behind it. */
    method Delete(key: bytes) returns (n: nat)
      requires Valid()
      modifies keyFile, keyFile.raf
      ensures Valid() && keyFile.Length() == old(keyFile.Length())
      ensures n == (if key in old(Map()) then 1 else 0) && Map() == old(Map()) - {key}
    {
      hide SlotPos, Slots, HeadPos, Linked, HeadsIn, BucketOf, Entries,
        RealKeyFile2.Valid, RealKeyFile2.Log, RealKeyFile2.Length;
      ghost var log := Log();
      var pos, j := Find(key);
      if pos == 0 {
        return 0;
      }
      EntriesAtNewest(log, key, j);
      var isDel := keyFile.IsDeleted(pos, j);
      if isDel {
        return 0;
      }
      keyFile.SetDelete(pos, true, j);
      Keeps(log, j, Log()[j]);
      n := 1;
    }

    method GetAndRefreshTTL(key: bytes, ttl: int, now: int) returns (r: Option<bytes>)
      requires Valid()
      modifies keyFile, keyFile.raf
      ensures Valid() && keyFile.Length() == old(keyFile.Length())
      ensures r == LiveValue(old(Map()), key, now)
      ensures Map() == if r.Some? then old(Map())[key := old(Map())[key].(expire := Expiry(now, ttl))] else old(Map())
    {
      hide SlotPos, Slots, HeadPos, Linked, HeadsIn, BucketOf, Entries, Expiry,
        RealKeyFile2.Valid, RealKeyFile2.Log, RealKeyFile2.Length;
      ghost var log := Log();
      var pos, j := Find(key);
      if pos == 0 {
        return None;
      }
      EntriesAtNewest(log, key, j);
      var gone := keyFile.IsDeletedOrExpired(pos, now, j);
      if gone {
        return None;
      }
      var val := keyFile.GetDataPos(pos, j);
      keyFile.SetTTL(pos, ttl, now, j);
      Keeps(log, j, Log()[j]);
      r := Some(val);
    }
  }
}
