/** The permanent text store: data file, per-div table and deduplicating writer
    (internal/db/text/text_perm_data.go, text_perm_table.go, text_wr.go). */
module TextStore {
  import opened Endian
  import opened DataStream
  import opened Layout
  import opened Results
  import opened KeyFile
  import opened HashBlock
  import opened Chains
  import opened IndexKeyFile

  type Div = bytes

  // ----- the data file -------------------------------------------------------------------

  function TextSlots(texts: seq<bytes>): (s: seq<bytes>)
    ensures |s| == |texts|
    ensures forall i :: 0 <= i < |texts| ==> s[i] == Put(4, |texts[i]|) + texts[i]
  {
    seq(|texts|, i requires 0 <= i < |texts| => Put(4, |texts[i]|) + texts[i])
  }

  /** Where text i starts; the file has no header. */
  function TextPos(texts: seq<bytes>, i: nat): nat
    requires i <= |texts|
  {
    |Flat(TextSlots(texts)[..i])|
  }

  lemma TextAt(texts: seq<bytes>, i: nat)
    requires i < |texts|
    ensures At(Flat(TextSlots(texts)), TextPos(texts, i), Put(4, |texts[i]|))
    ensures At(Flat(TextSlots(texts)), TextPos(texts, i) + 4, texts[i])
  {
    hide Flat, Put;
    var s := TextSlots(texts);
    SlotAt(s, i);
    var file := FileOf(s);
    assert file[2..] == Flat(s);
    AtConcat(file, Pos(s, i), Put(4, |texts[i]|), texts[i]);
    Shifted(file, Flat(s), TextPos(texts, i), Put(4, |texts[i]|));
    Shifted(file, Flat(s), TextPos(texts, i) + 4, texts[i]);
  }

  lemma Shifted(file: bytes, rest: bytes, p: nat, s: bytes)
    requires |file| >= 2 && file[2..] == rest && At(file, p + 2, s)
    ensures At(rest, p, s)
  {
    assert rest[p..p + |s|] == file[p + 2..p + 2 + |s|];
  }

  lemma TextAppend(texts: seq<bytes>, t: bytes)
    ensures Flat(TextSlots(texts + [t])) == Flat(TextSlots(texts)) + Put(4, |t|) + t
    ensures TextPos(texts + [t], |texts|) == |Flat(TextSlots(texts))|
  {
    hide Put, Flat, TextSlots;
    var s, x := TextSlots(texts), Put(4, |t|) + t;
    TextSlotsSnoc(texts, t);
    FlatSnoc(s, x);
    assert (s + [x])[..|texts|] == s;
    assert Flat(s) + x == Flat(s) + Put(4, |t|) + t;
  }

  lemma TextSlotsSnoc(texts: seq<bytes>, t: bytes)
    ensures TextSlots(texts + [t]) == TextSlots(texts) + [Put(4, |t|) + t]
  {
    hide Put;
  }

  lemma FlatSnoc(s: seq<bytes>, x: bytes)
    ensures Flat(s + [x]) == Flat(s) + x
  {
    assert (s + [x])[..|s|] == s;
  }

  lemma TextPosKeeps(texts: seq<bytes>, t: bytes, i: nat)
    requires i < |texts|
    ensures TextPos(texts + [t], i) == TextPos(texts, i)
  {
    assert TextSlots(texts + [t])[..i] == TextSlots(texts)[..i];
  }

  class TextPermData {
    const file: OsFile<bytes>

    /** The file is its texts, each behind its four-byte length. */
    ghost predicate Valid()
      reads this, file
    {
      file.data == Flat(TextSlots(file.log)) && forall i :: 0 <= i < |file.log| ==> |file.log[i]| < 0x1_0000_0000
    }

    constructor ()
      ensures Valid() && fresh(file) && file.log == [] && file.data == []
    {
      file := new OsFile<bytes>();
      new;
      assert TextSlots([]) == [];
    }

    method Write(text: bytes) returns (pos: nat)
      requires Valid() && |text| < 0x1_0000_0000
      modifies file
      ensures Valid() && file.log == old(file.log) + [text]
      ensures pos == |old(file.data)| == TextPos(file.log, |old(file.log)|)
      ensures |file.data| == pos + 4 + |text|
    {
      hide Flat, Put;
      TextAppend(file.log, text);
      pos := |file.data|;
      file.WriteAt(pos, Put(4, |text|));
      file.WriteAt(pos + 4, text);
      file.log := file.log + [text];
    }

    method Read(pos: nat, ghost i: nat) returns (text: bytes)
      requires Valid() && i < |file.log| && pos == TextPos(file.log, i)
      ensures text == file.log[i]
    {
      hide Flat, Put, Unsigned;
      TextAt(file.log, i);
      var lenBuf := file.ReadAt(pos, 4);
      Length32(|file.log[i]|);
      assert lenBuf == Put(4, |file.log[i]|);
      text := file.ReadAt(pos + 4, Unsigned(lenBuf));
    }

    lemma Length32(n: nat)
      requires n < 0x1_0000_0000
      ensures Unsigned(Put(4, n)) == n
    {
      PowValues();
      UnsignedPut(4, n);
    }
  }

  // ----- the texts of one div ------------------------------------------------------------

  /** The four-byte key of a text hash; different hashes have different keys. */
  function HashKey(hash: int32): (key: bytes)
    ensures |key| == 4
  {
    Put(4, hash)
  }

  lemma HashKeyInjective(a: int32, b: int32)
    requires HashKey(a) == HashKey(b)
    ensures a == b
  {
    PowValues();
    SignedPut(4, a);
    SignedPut(4, b);
  }

  /** Each stored hash has one live record, which points at its text; other hashes have none. */
  ghost predicate Indexed(log: seq<Rec>, texts: seq<bytes>, where: map<int32, nat>) {
    && AllReadable(log)
    && (forall hash: int32 :: Scan(log, HashKey(hash)) == Pointers(texts, where, hash))
    && (forall hash: int32 :: hash in where ==> where[hash] < |texts| && TextPos(texts, where[hash]) <= LONG5_MAX)
  }

  function Pointers(texts: seq<bytes>, where: map<int32, nat>, hash: int32): seq<bytes> {
    if hash in where && where[hash] < |texts| then [PutInt5(TextPos(texts, where[hash]))] else []
  }

  /** Storing a text under a new hash. */
  lemma IndexedAppend(log: seq<Rec>, texts: seq<bytes>, where: map<int32, nat>, hash: int32, text: bytes, log2: seq<Rec>)
    requires Indexed(log, texts, where) && hash !in where && TextPos(texts + [text], |texts|) <= LONG5_MAX
    requires exists p :: log2 == log + [Rec(false, p, HashKey(hash), PutInt5(TextPos(texts + [text], |texts|)))]
    ensures Indexed(log2, texts + [text], where[hash := |texts|])
  {
    hide TextPos, HashKey;
    var texts2, where2 := texts + [text], where[hash := |texts|];
    assert log2[..|log|] == log;
    forall h: int32
      ensures Scan(log2, HashKey(h)) == Pointers(texts2, where2, h)
      ensures h in where2 ==> where2[h] < |texts2| && TextPos(texts2, where2[h]) <= LONG5_MAX
    {
      if HashKey(h) == HashKey(hash) {
        HashKeyInjective(h, hash);
      }
      if h in where {
        TextPosKeeps(texts, text, where[h]);
      }
    }
    ShortRecord(log2[|log|]);
  }

  lemma ShortRecord(r: Rec)
    requires |r.key| == 4 && |r.val| == 5
    ensures Readable(r) && |Enc(r)| == 18
  {
  }

  class DivStore {
    const index: IndexKeyFile
    const data: TextPermData
    ghost var where: map<int32, nat>   // the text that each hash was first stored with

    ghost var Repr: set<object>

    ghost predicate Owns()
      reads this, index.hashBlock`buf
    {
      Repr == {this, index, index.hashBlock, index.hashBlock.buf, index.hashBlock.file, index.keyFile, index.keyFile.raf, data, data.file}
    }

    ghost predicate Valid()
      reads this, Repr
      ensures Valid() ==> this in Repr && data.file in Repr
    {
      && this in Repr && index.hashBlock in Repr && Owns()
      && index.Valid() && index.Writer() && data.Valid() && Indexed(index.Log(), data.file.log, where)
    }

    /** The abstract state of the div. */
    ghost function Text(hash: int32): Option<bytes>
      reads this, data.file
    {
      if hash in where && where[hash] < |data.file.log| then Some(data.file.log[where[hash]]) else None
    }

    /** Positions are written in five bytes. */
    ghost predicate HasRoom(n: nat)
      reads this, Repr
      requires Valid()
    {
      index.keyFile.Length() + n <= LONG5_MAX && |data.file.data| + n <= LONG5_MAX
    }

    lemma LessRoom(n: nat, m: nat)
      requires Valid() && n <= m && HasRoom(m)
      ensures HasRoom(n)
    {
    }

    constructor (memSize: nat, hash: bytes -> int32)
      requires memSize >= KEY_LENGTH
      ensures Valid() && fresh(Repr) && forall n: nat :: 2 + n <= LONG5_MAX ==> HasRoom(n)
      ensures forall h: int32 :: Text(h) == None
    {
      hide Flat, RecPos, HeadPos, Linked, HeadsIn, BucketOf, Represents, Slots, FileOf, CapacityOf, IndexKeyFile.TableFor,
        IndexKeyFile.Valid, IndexKeyFile.Writer, RealKeyFile.Length;
      var hfile := new OsFile<()>();
      var kfile := new OsFile<Rec>();
      index := new IndexKeyFile(hfile, kfile, memSize, hash, 0);
      data := new TextPermData();
      where := map[];
      new;
      Repr := {this, index, index.hashBlock, index.hashBlock.buf, index.hashBlock.file, index.keyFile, index.keyFile.raf, data, data.file};
      hide Indexed, AllReadable;
      EmptyIndex(index);
    }

    static lemma EmptyIndex(index: IndexKeyFile)
      requires index.Valid() && index.Writer() && index.Log() == []
      ensures index.keyFile.Length() == 2 && Indexed(index.Log(), [], map[])
    {
      index.keyFile.LengthIsPos();
      FirstRecord(index.Log());
    }

    /** All keys are readable, so lookups answer from the scan. */
    lemma LookUp(hash: int32)
      requires Valid()
      ensures index.Seen() == index.Log()
      ensures LookupIn(index.Seen(), index.H(), HashKey(hash)) ==
        if hash in where then Value(PutInt5(TextPos(data.file.log, where[hash]))) else Absent
      ensures hash in where ==> where[hash] < |data.file.log| && TextPos(data.file.log, where[hash]) <= LONG5_MAX
    {
      hide HashKey, TextPos, PutInt5, LookupIn, BucketReadable;
      assert index.Seen() == index.Log();
      ReadableLookup(index.Log(), index.H(), HashKey(hash));
      assert Scan(index.Log(), HashKey(hash)) == Pointers(data.file.log, where, hash);
    }

    method HasKey(hash: int32) returns (has: bool)
      requires Valid()
      modifies Repr
      ensures Valid() && Repr == old(Repr) && where == old(where) && data.file.log == old(data.file.log)
      ensures has == Text(hash).Some?
      ensures index.keyFile.Length() == old(index.keyFile.Length()) && data.file.data == old(data.file.data)
    {
      hide HashKey, TextPos, Indexed, LookupIn, IndexKeyFile.Valid, IndexKeyFile.Writer, RealKeyFile.Log, RealKeyFile.Length;
      LookUp(hash);
      var r := index.HasKey(HashKey(hash));
      has := r.value;
    }

    /** Stores the text unless the hash has one already. */
    method Set(hash: int32, text: bytes)
      requires Valid() && |text| < 0x1_0000_0000 && HasRoom(0)
      modifies Repr
      ensures Valid() && Repr == old(Repr)
      ensures forall h: int32 :: Text(h) == if h == hash && old(Text(h)) == None then Some(text) else old(Text(h))
      ensures forall n: nat :: old(HasRoom(n + 18 + |text|)) ==> HasRoom(n)
    {
      hide HashKey, TextPos, Indexed, LookupIn, PutInt5, Enc, IndexKeyFile.Valid, IndexKeyFile.Writer, RealKeyFile.Log, RealKeyFile.Length;
      LookUp(hash);
      var present := HasKey(hash);
      if present {
        return;
      }
      ghost var log, texts := index.Log(), data.file.log;
      var dataPos := data.Write(text);
      FiveBytes(dataPos);
      ShortRecord(Rec(false, 0, HashKey(hash), PutInt5(dataPos)));
      index.Put(HashKey(hash), PutInt5(dataPos));
      IndexedAppend(log, texts, where, hash, text, index.Log());
      WhereBound(log, texts, where);
      where := where[hash := |texts|];
    }

    static lemma WhereBound(log: seq<Rec>, texts: seq<bytes>, where: map<int32, nat>)
      requires Indexed(log, texts, where)
      ensures forall h: int32 :: h in where ==> where[h] < |texts|
    {
    }

    method Get(hash: int32) returns (r: Option<bytes>)
      requires Valid()
      modifies Repr
      ensures Valid() && Repr == old(Repr) && where == old(where) && data.file.log == old(data.file.log)
      ensures r == Text(hash) && forall h: int32 :: Text(h) == old(Text(h))
      ensures forall n: nat :: HasRoom(n) == old(HasRoom(n))
    {
      hide HashKey, TextPos, Indexed, LookupIn, PutInt5, Int5, IndexKeyFile.Valid, IndexKeyFile.Writer, RealKeyFile.Log, RealKeyFile.Length;
      LookUp(hash);
      var posBytes := index.Get(HashKey(hash));
      if posBytes.value == None {
        return None;
      }
      Int5RoundTrip(TextPos(data.file.log, where[hash]));
      FiveBytes(TextPos(data.file.log, where[hash]));
      var pos := Int5(posBytes.value.value);
      if pos < 0 {
        return None;
      }
      var text := data.Read(pos, where[hash]);
      r := Some(text);
    }
  }

  // ----- the table over all divs ---------------------------------------------------------

  class TextPermTable {
    const hash: bytes -> int32
    const memSize: nat
    var stores: map<Div, DivStore>
    ghost var Repr: set<object>

    /** Every div has files of its own. */
    ghost predicate Valid()
      reads this, Repr
      ensures Valid() ==> this in Repr
    {
      && memSize >= KEY_LENGTH && this in Repr
      && (forall d :: d in stores ==>
        stores[d] in Repr && stores[d].Repr <= Repr && this !in stores[d].Repr && stores[d].Valid())
      && (forall d, e :: d in stores && e in stores && d != e ==> stores[d].Repr !! stores[e].Repr)
    }

    /** The abstract state: a text per div and hash. */
    ghost function Text(div: Div, hash: int32): Option<bytes>
      reads this, Repr
      requires Valid()
    {
      if div in stores then stores[div].Text(hash) else None
    }

    /** Room for n more bytes in each of the two files of a div. */
    ghost predicate HasRoom(div: Div, n: nat)
      reads this, Repr
      requires Valid()
    {
      if div in stores then stores[div].HasRoom(n) else 2 + n <= LONG5_MAX
    }

    constructor (hash: bytes -> int32, memSize: nat)
      requires memSize >= KEY_LENGTH
      ensures Valid() && fresh(Repr) && stores == map[]
    {
      this.hash, this.memSize, stores := hash, memSize, map[];
      Repr := {this};
    }

    /** Opens the files of a div on first use. */
    method GetFiles(div: Div) returns (store: DivStore)
      requires Valid()
      modifies this
      ensures Valid() && div in stores && store == stores[div] && fresh(Repr - old(Repr))
      ensures forall d, k: int32 :: Text(d, k) == old(Text(d, k))
      ensures forall d, n: nat :: old(HasRoom(d, n)) ==> HasRoom(d, n)
    {
      hide DivStore.Valid, DivStore.Text, DivStore.HasRoom;
      if div in stores {
        store := stores[div];
        return;
      }
      store := new DivStore(memSize, hash);
      AddStore(div, store);
    }

    method AddStore(div: Div, store: DivStore)
      requires Valid() && div !in stores && store.Valid() && store.Repr !! Repr
      requires forall h: int32 :: store.Text(h) == None
      requires forall n: nat :: 2 + n <= LONG5_MAX ==> store.HasRoom(n)
      modifies this
      ensures Valid() && div in stores && store == stores[div] && Repr == old(Repr) + store.Repr
      ensures forall d, k: int32 :: Text(d, k) == old(Text(d, k))
      ensures forall d, n: nat :: old(HasRoom(d, n)) ==> HasRoom(d, n)
    {
      hide DivStore.Valid, DivStore.Text, DivStore.HasRoom;
      stores := stores[div := store];
      Repr := Repr + store.Repr;
    }

    method Set(div: Div, h: int32, text: bytes)
      requires Valid() && |text| < 0x1_0000_0000 && HasRoom(div, 0)
      modifies Repr
      ensures Valid() && fresh(Repr - old(Repr))
      ensures forall d, k: int32 :: Text(d, k) == (if d == div && k == h && old(Text(d, k)) == None then Some(text) else old(Text(d, k)))
      ensures forall d, n: nat :: old(HasRoom(d, n + 18 + |text|)) ==> HasRoom(d, n)
    {
      hide Valid, Text, HasRoom, DivStore.Valid, DivStore.Text, DivStore.HasRoom;
      var store := GetFiles(div);
      SetIn(div, store, h, text);
    }

    method SetIn(div: Div, store: DivStore, h: int32, text: bytes)
      requires Valid() && |text| < 0x1_0000_0000 && div in stores && stores[div] == store && HasRoom(div, 0)
      modifies Repr
      ensures Valid() && Repr == old(Repr)
      ensures forall d, k: int32 :: Text(d, k) == (if d == div && k == h && old(Text(d, k)) == None then Some(text) else old(Text(d, k)))
      ensures forall d, n: nat :: old(HasRoom(d, n + 18 + |text|)) ==> HasRoom(d, n)
    {
      hide DivStore.Valid, DivStore.Text, DivStore.HasRoom;
      store.Set(h, text);
      assert forall d :: d in stores && d != div ==> stores[d].Repr !! store.Repr;
      forall d, n: nat | old(HasRoom(d, n + 18 + |text|))
        ensures HasRoom(d, n)
      {
        if d in stores && d != div {
          stores[d].LessRoom(n, n + 18 + |text|);
        }
      }
    }

    method Get(div: Div, h: int32) returns (r: Option<bytes>)
      requires Valid()
      modifies Repr
      ensures Valid() && fresh(Repr - old(Repr))
      ensures r == Text(div, h) && forall d, k: int32 :: Text(d, k) == old(Text(d, k))
    {
      hide Valid, Text, HasRoom, DivStore.Valid, DivStore.Text, DivStore.HasRoom;
      var store := GetFiles(div);
      r := GetIn(div, store, h);
    }

    method GetIn(div: Div, store: DivStore, h: int32) returns (r: Option<bytes>)
      requires Valid() && div in stores && stores[div] == store
      modifies Repr
      ensures Valid() && Repr == old(Repr)
      ensures r == Text(div, h) && forall d, k: int32 :: Text(d, k) == old(Text(d, k))
    {
      hide DivStore.Valid, DivStore.Text, DivStore.HasRoom;
      r := store.Get(h);
      assert forall d :: d in stores && d != div ==> stores[d].Repr !! store.Repr;
    }
  }

  // ----- the deduplicating writer --------------------------------------------------------

  const MAX_DUP_CHECK_SIZE := 100_000

  datatype TextData = TextData(div: Div, hash: int32, text: bytes)

  /** The reference meaning: the first text written for a pair. */
  function FirstText(writes: seq<TextData>, div: Div, hash: int32): Option<bytes> {
    if writes == [] then None
    else
      var rest := FirstText(writes[..|writes| - 1], div, hash);
      var w := writes[|writes| - 1];
      if rest == None && w.div == div && w.hash == hash then Some(w.text) else rest
  }

  /** What is stored after a run: what was stored before it, or else the first text written. */
  function Stored(before: Option<bytes>, writes: seq<TextData>, div: Div, hash: int32): Option<bytes> {
    if before == None then FirstText(writes, div, hash) else before
  }

  /** FirstText is the earliest write of the pair. */
  lemma {:induction false} FirstTextMeaning(writes: seq<TextData>, div: Div, hash: int32)
    ensures match FirstText(writes, div, hash)
      case None => forall i :: 0 <= i < |writes| ==> writes[i].div != div || writes[i].hash != hash
      case Some(t) =>
        exists i :: 0 <= i < |writes| && writes[i] == TextData(div, hash, t)
          && forall j :: 0 <= j < i ==> writes[j].div != div || writes[j].hash != hash
  {
    if writes != [] {
      var n := |writes| - 1;
      FirstTextMeaning(writes[..n], div, hash);
      if FirstText(writes[..n], div, hash) != None {
        var i :| 0 <= i < n && writes[..n][i] == TextData(div, hash, FirstText(writes, div, hash).value)
          && forall j :: 0 <= j < i ==> writes[..n][j].div != div || writes[..n][j].hash != hash;
        assert forall j :: 0 <= j < i ==> writes[..n][j] == writes[j];
      } else {
        assert forall j :: 0 <= j < n ==> writes[..n][j] == writes[j];
      }
    }
  }

  /** An upper bound on the bytes that the writes add to a file. */
  function Volume(writes: seq<TextData>): nat {
    if writes == [] then 0 else Volume(writes[1..]) + 18 + |writes[0].text|
  }

  lemma NoWrites()
    ensures forall d, h: int32 :: FirstText([], d, h) == None
  {
  }

  lemma NextWrite(queue: seq<TextData>, i: nat)
    requires i < |queue|
    ensures Volume(queue[i..]) == Volume(queue[i + 1..]) + 18 + |queue[i].text|
    ensures forall before, d, h: int32 ::
      Stored(Stored(before, queue[..i], d, h), [queue[i]], d, h) == Stored(before, queue[..i + 1], d, h)
  {
    assert queue[i..][1..] == queue[i + 1..];
    forall d, h: int32
      ensures FirstText(queue[..i + 1], d, h) == Stored(FirstText(queue[..i], d, h), [queue[i]], d, h)
    {
      assert queue[..i + 1][..i] == queue[..i];
      OneWrite(queue[i], d, h);
    }
  }

  lemma OneWrite(w: TextData, d: Div, h: int32)
    ensures FirstText([w], d, h) == if w.div == d && w.hash == h then Some(w.text) else None
  {
    assert [w][..0] == [];
    assert FirstText([], d, h) == None;
  }

  class TextWR {
    const table: TextPermTable
    var dupCheck: set<(Div, int32)>

    /** A pair in the cache is stored. */
    ghost predicate Valid()
      reads this, table, table.Repr
    {
      && table.Valid() && this !in table.Repr
      && forall d, h :: (d, h) in dupCheck ==> table.Text(d, h).Some?
    }

    constructor (hash: bytes -> int32, memSize: nat)
      requires memSize >= KEY_LENGTH
      ensures Valid() && dupCheck == {} && fresh(table) && fresh(table.Repr) && table.stores == map[]
    {
      table := new TextPermTable(hash, memSize);
      dupCheck := {};
    }

    /** Drops up to a tenth of the capacity, in the arbitrary order of a Go map. */
    method Evict()
      modifies this
      ensures dupCheck <= old(dupCheck)
      ensures |dupCheck| == if |old(dupCheck)| <= 10_000 then 0 else |old(dupCheck)| - 10_000
    {
      var evictCount := MAX_DUP_CHECK_SIZE / 10;
      while dupCheck != {} && evictCount > 0
        invariant dupCheck <= old(dupCheck) && 0 <= evictCount
        invariant |dupCheck| + MAX_DUP_CHECK_SIZE / 10 == |old(dupCheck)| + evictCount
        decreases evictCount
      {
        var k :| k in dupCheck;
        dupCheck := dupCheck - {k};
        evictCount := evictCount - 1;
      }
    }

    /** A cached pair is skipped; another one is stored unless it has a text, and then cached. */
    method Process(data: TextData)
      requires Valid() && |data.text| < 0x1_0000_0000 && table.HasRoom(data.div, 0)
      modifies this, table.Repr
      ensures Valid() && fresh(table.Repr - old(table.Repr))
      ensures forall d, h: int32 :: table.Text(d, h) == Stored(old(table.Text(d, h)), [data], d, h)
      ensures forall d, n: nat :: old(table.HasRoom(d, n + 18 + |data.text|)) ==> table.HasRoom(d, n)
      ensures (data.div, data.hash) in old(dupCheck) ==> dupCheck == old(dupCheck)
      ensures (data.div, data.hash) !in old(dupCheck) ==>
        && (data.div, data.hash) in dupCheck && dupCheck <= old(dupCheck) + {(data.div, data.hash)}
        && |dupCheck| == 1 + if |old(dupCheck)| < 100_000 then |old(dupCheck)| else |old(dupCheck)| - 10_000
    {
      hide TextPermTable.Valid, TextPermTable.Text, TextPermTable.HasRoom, FirstText;
      forall d, h: int32
        ensures FirstText([data], d, h) == if data.div == d && data.hash == h then Some(data.text) else None
      {
        OneWrite(data, d, h);
      }
      var key := (data.div, data.hash);
      if key in dupCheck {
        FitsLess();
        return;
      }
      table.Set(data.div, data.hash, data.text);
      if |dupCheck| >= MAX_DUP_CHECK_SIZE {
        Evict();
      }
      dupCheck := dupCheck + {key};
    }

    /** Room for more is room for less. */
    lemma FitsLess()
      requires table.Valid()
      ensures forall d, n: nat, m: nat :: m <= n && table.HasRoom(d, n) ==> table.HasRoom(d, m)
    {
    }

    /** The writing loop over what arrives in its queue. */
    method Run(queue: seq<TextData>)
      requires Valid() && forall i :: 0 <= i < |queue| ==> |queue[i].text| < 0x1_0000_0000
      requires forall d :: table.HasRoom(d, Volume(queue))
      modifies this, table.Repr
      ensures Valid() && fresh(table.Repr - old(table.Repr))
      ensures forall d, h: int32 :: table.Text(d, h) == Stored(old(table.Text(d, h)), queue, d, h)
    {
      hide TextPermTable.Valid, TextPermTable.Text, TextPermTable.HasRoom, FirstText, Volume;
      NoWrites();
      var i := 0;
      assert queue[i..] == queue;
      while i < |queue|
        invariant 0 <= i <= |queue| && Valid() && fresh(table.Repr - old(table.Repr))
        invariant forall d :: table.HasRoom(d, Volume(queue[i..]))
        invariant forall d, h: int32 :: table.Text(d, h) == Stored(old(table.Text(d, h)), queue[..i], d, h)
      {
        NextWrite(queue, i);
        FitsLess();
        assert table.HasRoom(queue[i].div, Volume(queue[i..]));
        Process(queue[i]);
        i := i + 1;
      }
      assert queue[..i] == queue;
    }

    /** The text of a pair, or the empty one. */
    method GetString(div: Div, hash: int32) returns (r: bytes)
      requires Valid()
      modifies table.Repr
      ensures Valid() && fresh(table.Repr - old(table.Repr))
      ensures r == match table.Text(div, hash) case Some(text) => text case None => []
      ensures forall d, h: int32 :: table.Text(d, h) == old(table.Text(d, h))
    {
      hide TextPermTable.Valid, TextPermTable.Text;
      var text := table.Get(div, hash);
      r := match text case Some(t) => t case None => [];
    }
  }
}
