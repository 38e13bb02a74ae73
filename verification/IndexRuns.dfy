/** Whole runs of the multimap index: a reference meaning that never mentions buckets, records
    or files, and the index against it. */
module IndexRuns {
  import opened Endian
  import opened DataStream
  import opened Layout
  import opened Results
  import opened KeyFile
  import opened HashBlock
  import opened Chains
  import opened IndexKeyFile

  datatype Op = Put(key: bytes, val: bytes) | Delete(key: bytes) | FlushRecords | FlushTable | Reopen(memSize: nat)

  /** The values a key has after a run: those put since its last delete, newest first. */
  function Bindings(ops: seq<Op>, key: bytes): seq<bytes> {
    if ops == [] then []
    else
      var rest := Bindings(ops[..|ops| - 1], key);
      match ops[|ops| - 1]
      case Put(k, v) => if k == key then [v] + rest else rest
      case Delete(k) => if k == key then [] else rest
      case _ => rest
  }

  /** A put of the key that no later delete of the key undoes. */
  ghost predicate Binds(ops: seq<Op>, i: nat, key: bytes) {
    i < |ops| && ops[i].Put? && ops[i].key == key && forall j :: i < j < |ops| ==> ops[j] != Delete(key)
  }

  /** The values are those of just these puts, each once, the newest first. */
  ghost predicate NewestFirst(ops: seq<Op>, key: bytes, idx: seq<nat>, values: seq<bytes>) {
    && |idx| == |values|
    && (forall j, k :: 0 <= j < k < |idx| ==> idx[j] > idx[k])
    && (forall j :: 0 <= j < |idx| ==> idx[j] < |ops| && ops[idx[j]] == Put(key, values[j]))
    && forall i: nat :: i in idx <==> Binds(ops, i, key)
  }

  lemma {:induction false} BindingsMeaning(ops: seq<Op>, key: bytes)
    ensures exists idx :: NewestFirst(ops, key, idx, Bindings(ops, key))
  {
    hide NewestFirst;
    if ops == [] {
      NothingBound(key);
      assert NewestFirst(ops, key, [], Bindings(ops, key));
    } else {
      var init, op := ops[..|ops| - 1], ops[|ops| - 1];
      BindingsMeaning(init, key);
      var idx :| NewestFirst(init, key, idx, Bindings(init, key));
      assert ops == init + [op];
      NewestNext(init, key, idx, Bindings(init, key), op);
      if op == Delete(key) {
        assert NewestFirst(ops, key, [], Bindings(ops, key));
      } else if op.Put? && op.key == key {
        assert NewestFirst(ops, key, [|init| as nat] + idx, Bindings(ops, key));
      } else {
        assert NewestFirst(ops, key, idx, Bindings(ops, key));
      }
    }
  }

  lemma NothingBound(key: bytes)
    ensures NewestFirst([], key, [], [])
  {
  }

  lemma NewestNext(ops: seq<Op>, key: bytes, idx: seq<nat>, values: seq<bytes>, op: Op)
    requires NewestFirst(ops, key, idx, values)
    ensures op == Delete(key) ==> NewestFirst(ops + [op], key, [], [])
    ensures op.Put? && op.key == key ==> NewestFirst(ops + [op], key, [|ops| as nat] + idx, [op.val] + values)
    ensures op != Delete(key) && !(op.Put? && op.key == key) ==> NewestFirst(ops + [op], key, idx, values)
  {
    forall i: nat
      ensures Binds(ops + [op], i, key) <==> (i == |ops| && op.Put? && op.key == key) || (Binds(ops, i, key) && op != Delete(key))
    {
      BindsNext(ops, i, key, op);
    }
    hide Binds;
    assert |ops| !in idx;
  }

  lemma BindsNext(ops: seq<Op>, i: nat, key: bytes, op: Op)
    ensures Binds(ops + [op], i, key) <==> (i == |ops| && op.Put? && op.key == key) || (Binds(ops, i, key) && op != Delete(key))
  {
    var more := ops + [op];
    assert more[|ops|] == op && forall j :: 0 <= j < |ops| ==> more[j] == ops[j];
  }

  /** An upper bound for the record file after a run. */
  function FileBound(ops: seq<Op>): nat {
    if ops == [] then 2
    else
      FileBound(ops[..|ops| - 1]) +
      match ops[|ops| - 1] { case Put(k, v) => |Enc(Rec(false, 0, k, v))| case _ => 0 }
  }

  ghost predicate Legal(op: Op) {
    match op
    case Put(k, v) => |k| < 0x1_0000 && |v| < 0x8000_0000
    case Reopen(m) => m >= KEY_LENGTH
    case _ => true
  }

  lemma BoundGrows(ops: seq<Op>, i: nat)
    requires i <= |ops|
    ensures FileBound(ops[..i]) <= FileBound(ops)
    decreases |ops| - i
  {
    if i < |ops| {
      assert ops[..i + 1][..i] == ops[..i];
      BoundGrows(ops, i + 1);
    } else {
      assert ops[..i] == ops;
    }
  }

  /** Every put of the run fits the read window. */
  ghost predicate PutsReadable(ops: seq<Op>) {
    forall i :: 0 <= i < |ops| && ops[i].Put? ==> Readable(Rec(false, 0, ops[i].key, ops[i].val))
  }

  /** Scanning the log gives every key its bindings. */
  ghost predicate Agrees(log: seq<Rec>, ops: seq<Op>) {
    && (forall key :: Scan(log, key) == Bindings(ops, key))
    && (PutsReadable(ops) ==> AllReadable(log))
  }

  lemma PutsReadablePrefix(ops: seq<Op>, op: Op)
    requires PutsReadable(ops + [op])
    ensures PutsReadable(ops) && (op.Put? ==> Readable(Rec(false, 0, op.key, op.val)))
  {
    assert (ops + [op])[|ops|] == op;
    assert forall i :: 0 <= i < |ops| ==> (ops + [op])[i] == ops[i];
  }

  lemma PutAgrees(log: seq<Rec>, log2: seq<Rec>, ops: seq<Op>, k: bytes, v: bytes)
    requires Agrees(log, ops) && exists p :: log2 == log + [Rec(false, p, k, v)]
    ensures Agrees(log2, ops + [Put(k, v)]) && Extends(log, log2)
  {
    hide PutsReadable, AllReadable, Extends;
    var p :| log2 == log + [Rec(false, p, k, v)];
    assert log2[..|log|] == log && (ops + [Put(k, v)])[..|ops|] == ops;
    forall key
      ensures Scan(log2, key) == Bindings(ops + [Put(k, v)], key)
    {
      assert Scan(log, key) == Bindings(ops, key);
    }
    if PutsReadable(ops + [Put(k, v)]) {
      PutsReadablePrefix(ops, Put(k, v));
      AppendReadable(log, p, k, v);
    }
    AppendExtends(log, log2);
  }

  lemma AppendReadable(log: seq<Rec>, p: nat, k: bytes, v: bytes)
    requires AllReadable(log) && Readable(Rec(false, 0, k, v))
    ensures AllReadable(log + [Rec(false, p, k, v)])
  {
  }

  lemma AppendExtends(log: seq<Rec>, log2: seq<Rec>)
    requires |log| <= |log2| && log2[..|log|] == log
    ensures Extends(log, log2)
  {
  }

  lemma DeleteAgrees(log: seq<Rec>, ops: seq<Op>, k: bytes)
    requires Agrees(log, ops)
    ensures Agrees(Tombstoned(log, k), ops + [Delete(k)]) && Extends(log, Tombstoned(log, k))
  {
    assert (ops + [Delete(k)])[..|ops|] == ops;
    forall key
      ensures Scan(Tombstoned(log, k), key) == Bindings(ops + [Delete(k)], key)
    {
      TombstonedScan(log, k, key);
    }
    if PutsReadable(ops + [Delete(k)]) {
      PutsReadablePrefix(ops, Delete(k));
    }
    assert Tombstoned(log, k)[..|log|] == Tombstoned(log, k);
  }

  lemma QuietAgrees(log: seq<Rec>, ops: seq<Op>, op: Op)
    requires Agrees(log, ops) && !op.Put? && !op.Delete?
    ensures Agrees(log, ops + [op]) && Extends(log, log)
  {
    assert (ops + [op])[..|ops|] == ops && log[..|log|] == log;
    if PutsReadable(ops + [op]) {
      PutsReadablePrefix(ops, op);
    }
  }

  /** Closes an index and opens it again on the same files. */
  method Reopened(idx: IndexKeyFile, memSize: nat) returns (again: IndexKeyFile)
    requires idx.Valid() && idx.Writer() && memSize >= KEY_LENGTH
    modifies idx.keyFile, idx.keyFile.raf, idx.hashBlock`dirty, idx.hashBlock.file`data
    ensures again.Valid() && again.Writer() && again.Log() == old(idx.Log())
    ensures again.keyFile.raf == idx.keyFile.raf && again.hashBlock.file == idx.hashBlock.file && again.hash == idx.hash
    ensures fresh(again) && fresh(again.hashBlock) && fresh(again.hashBlock.buf) && fresh(again.keyFile)
    ensures again.keyFile.Length() == old(idx.keyFile.Length())
    ensures |old(idx.keyFile.raf.log)| <= |again.keyFile.raf.log|
  {
    hide RecPos, Slots, HeadPos, Linked, HeadsIn, HeadIn, BucketOf, RealKeyFile.Length;
    idx.keyFile.LengthIsPos();
    idx.Flush();
    again := Opened(idx.hashBlock.file, idx.keyFile.raf, memSize, idx.hash, idx.seen);
    again.keyFile.LengthIsPos();
  }

  method Opened(hfile: OsFile<()>, kfile: OsFile<Rec>, memSize: nat, hash: bytes -> int32, ghost n: nat) returns (idx: IndexKeyFile)
    requires memSize >= KEY_LENGTH && Represents(kfile) && n == |kfile.log|
    requires if |hfile.data| < MEM_HEAD_RESERVED then n == 0 else IndexKeyFile.TableFor(hash, hfile.data, kfile.log, n)
    modifies kfile
    ensures idx.Valid() && idx.Writer() && idx.Log() == old(kfile.log) == kfile.log
    ensures idx.keyFile.raf == kfile && idx.hashBlock.file == hfile && idx.hash == hash
    ensures fresh(idx) && fresh(idx.hashBlock) && fresh(idx.hashBlock.buf) && fresh(idx.keyFile)
  {
    idx := new IndexKeyFile(hfile, kfile, memSize, hash, n);
  }

  /** One operation of a run. */
  method Step(idx: IndexKeyFile, op: Op, ghost ops: seq<Op>) returns (next: IndexKeyFile)
    requires idx.Valid() && idx.Writer() && Legal(op) && idx.keyFile.Length() <= LONG5_MAX
    requires Agrees(idx.Log(), ops)
    modifies idx, idx.hashBlock, idx.hashBlock.buf, idx.hashBlock.file, idx.keyFile, idx.keyFile.raf
    ensures next.Valid() && next.Writer() && Agrees(next.Log(), ops + [op])
    ensures Extends(old(idx.Log()), next.Log()) && |old(idx.keyFile.raf.log)| <= |next.keyFile.raf.log|
    ensures !op.Reopen? ==>
      next == idx && next.hashBlock.buf == old(idx.hashBlock.buf) && next.hashBlock.capacity == old(idx.hashBlock.capacity)
    ensures next.keyFile.Length() == old(idx.keyFile.Length()) + match op { case Put(k, v) => |Enc(Rec(false, 0, k, v))| case _ => 0 }
    ensures next == idx || (fresh(next) && fresh(next.hashBlock) && fresh(next.keyFile))
    ensures next.hashBlock.buf == old(idx.hashBlock.buf) || fresh(next.hashBlock.buf)
    ensures next.keyFile.raf == idx.keyFile.raf && next.hashBlock.file == idx.hashBlock.file
  {
    hide RecPos, Slots, HeadPos, Linked, HeadsIn, Represents, BucketOf, Enc, Agrees, Extends,
      RealKeyFile.Valid, RealKeyFile.Log, RealKeyFile.Length, RealKeyFile.UpToDate;
    ghost var log := idx.Log();
    next := idx;
    match op
    case Put(k, v) =>
      idx.Put(k, v);
      PutAgrees(log, idx.Log(), ops, k, v);
    case Delete(k) =>
      var n := idx.Delete(k);
      DeleteAgrees(log, ops, k);
    case FlushRecords =>
      idx.keyFile.Flush();
      QuietAgrees(log, ops, op);
    case FlushTable =>
      idx.FlushTable();
      QuietAgrees(log, ops, op);
    case Reopen(memSize) =>
      next := Reopened(idx, memSize);
      QuietAgrees(log, ops, op);
  }

  /** Every run, from new files: each key has exactly its bindings, whatever the hash. */
  method Run(ops: seq<Op>, hash: bytes -> int32, memSize: nat) returns (idx: IndexKeyFile)
    requires memSize >= KEY_LENGTH
    requires forall i :: 0 <= i < |ops| ==> Legal(ops[i])
    requires FileBound(ops) <= LONG5_MAX
    ensures idx.Valid() && idx.Writer() && fresh(idx.keyFile) && fresh(idx.keyFile.raf)
    ensures forall key :: Scan(idx.Log(), key) == Bindings(ops, key)
    ensures PutsReadable(ops) ==> AllReadable(idx.Log())
  {
    hide RecPos, Slots, HeadPos, Linked, HeadsIn, Represents, BucketOf, Enc, IndexKeyFile.Valid, IndexKeyFile.Writer;
    var hfile := new OsFile<()>();
    var kfile := new OsFile<Rec>();
    idx := new IndexKeyFile(hfile, kfile, memSize, hash, 0);
    StartsEmpty(idx);
    for i := 0 to |ops|
      invariant idx.Valid() && idx.Writer() && Agrees(idx.Log(), ops[..i])
      invariant idx.keyFile.Length() <= FileBound(ops[..i])
      invariant fresh(idx) && fresh(idx.hashBlock) && fresh(idx.hashBlock.buf) && fresh(idx.hashBlock.file)
      invariant fresh(idx.keyFile) && fresh(idx.keyFile.raf)
    {
      BoundGrows(ops, i);
      BoundGrows(ops, i + 1);
      assert ops[..i + 1] == ops[..i] + [ops[i]] && ops[..i + 1][..i] == ops[..i];
      idx := Step(idx, ops[i], ops[..i]);
    }
    assert ops[..|ops|] == ops;
  }

  lemma StartsEmpty(idx: IndexKeyFile)
    requires idx.Valid() && idx.Writer() && idx.Log() == []
    ensures idx.keyFile.Length() == 2 && Agrees(idx.Log(), [])
  {
    idx.keyFile.LengthIsPos();
  }

  /** What the three lookups answer after a run: exactly what the reference meaning says, whatever
      buckets the keys share. They fail only after a put of a record that does not fit the read window. */
  method Ask(ops: seq<Op>, hash: bytes -> int32, memSize: nat, key: bytes)
    returns (first: Result<Option<bytes>, ReadError>, has: Result<bool, ReadError>, all: Result<seq<bytes>, ReadError>)
    requires memSize >= KEY_LENGTH
    requires forall i :: 0 <= i < |ops| ==> Legal(ops[i])
    requires FileBound(ops) <= LONG5_MAX
    ensures first.Ok? ==> first.value == if Bindings(ops, key) == [] then None else Some(Bindings(ops, key)[0])
    ensures has.Ok? ==> has.value == (Bindings(ops, key) != [])
    ensures all.Ok? ==> all.value == Bindings(ops, key)
    ensures first.Err? <==> has.Err?
    ensures first.Err? || all.Err? ==> !PutsReadable(ops)
  {
    hide RecPos, Slots, HeadPos, Linked, HeadsIn, Represents, BucketOf, PutsReadable;
    var idx := Run(ops, hash, memSize);
    assert idx.Seen() == idx.Log();
    LookupMeaning(idx.Log(), idx.H(), key);
    if AllReadable(idx.Log()) {
      ReadableLookup(idx.Log(), idx.H(), key);
    }
    first := idx.Get(key);
    assert idx.Seen() == idx.Log();
    has := idx.HasKey(key);
    assert idx.Seen() == idx.Log();
    all := idx.GetAll(key);
  }
}
