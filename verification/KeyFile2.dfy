/** The record file with expiry times (internal/db/io/real_key_file2.go).
    Record: deleted flag (1), expiry (5), previous position (5), key length (2), key, value blob.
    A record may be rewritten in place by a shorter one; the bytes left over stay in its slot. */
module KeyFile2 {
  import opened Endian
  import opened DataStream
  import opened Layout

  const APPEND_BUF_THRESHOLD := 16384

  datatype Rec2 = Rec2(deleted: bool, expire: int, prev: nat, key: bytes, val: bytes)

  /** A record and what an earlier, longer one left behind it. */
  datatype Slot = Slot(rec: Rec2, slack: bytes)

  predicate Fits(r: Rec2) {
    LONG5_MIN <= r.expire <= LONG5_MAX && r.prev <= LONG5_MAX && |r.key| < 0x1_0000 && |r.val| < 0x8000_0000
  }

  function Enc(r: Rec2): (b: bytes)
    ensures |b| == 13 + |r.key| + |BlobHeader(|r.val|)| + |r.val|
  {
    EncBool(r.deleted) + Put(5, r.expire) + Tail(r)
  }

  /** What no flag or expiry change touches. */
  function Tail(r: Rec2): bytes {
    Put(5, r.prev) + Put(2, |r.key|) + r.key + EncBlob(r.val)
  }

  function Slots(log: seq<Slot>): (s: seq<bytes>)
    ensures |s| == |log|
    ensures forall i :: 0 <= i < |log| ==> s[i] == Enc(log[i].rec) + log[i].slack
  {
    seq(|log|, i requires 0 <= i < |log| => Enc(log[i].rec) + log[i].slack)
  }

  function SlotPos(log: seq<Slot>, i: nat): (p: nat)
    requires i <= |log|
    ensures p >= |HEADER|
  {
    Pos(Slots(log), i)
  }

  /** The expiry that a time-to-live gives, as five bytes keep it; negative means for ever. */
  function Expiry(now: int, ttl: int): int {
    if ttl < 0 then LONG5_MAX else Int5(PutInt5(now + ttl))
  }

  // ----- positions -----------------------------------------------------------------------

  lemma SlotPosPrefix(log: seq<Slot>, more: seq<Slot>, i: nat)
    requires i <= |log| <= |more| && more[..|log|] == log
    ensures SlotPos(log, i) == SlotPos(more, i)
  {
    assert forall k :: 0 <= k < |log| ==> more[..|log|][k] == more[k];
    assert Slots(more)[..|log|] == Slots(log);
    PosPrefix(Slots(log), Slots(more), i);
  }

  lemma SlotPosOrder(log: seq<Slot>, i: nat, j: nat)
    requires i < j <= |log|
    ensures SlotPos(log, i) < SlotPos(log, j)
  {
    PosMonotone(Slots(log), i, j);
  }

  lemma AppendedFile(s: seq<Slot>, t: seq<Slot>)
    ensures SlotPos(s, |s|) == |FileOf(Slots(s))|
    ensures Written(FileOf(Slots(s)), SlotPos(s, |s|), Flat(Slots(t))) == FileOf(Slots(s + t))
    ensures SlotPos(s, |s|) + |Flat(Slots(t))| == SlotPos(s + t, |s + t|)
    ensures t == [] ==> Flat(Slots(t)) == []
  {
    hide Flat, Slots, Enc, Pos;
    PosEnd(Slots(s));
    PosEnd(Slots(s + t));
    SlotsAppend(s, t);
  }

  lemma SlotsAppend(s: seq<Slot>, t: seq<Slot>)
    ensures FileOf(Slots(s + t)) == FileOf(Slots(s)) + Flat(Slots(t))
    ensures t == [] ==> Flat(Slots(t)) == []
  {
    hide Enc, Slots, Flat;
    SlotsConcat(s, t);
    FlatAppend(Slots(s), Slots(t));
    FlatNothing();
    assert HEADER + (Flat(Slots(s)) + Flat(Slots(t))) == HEADER + Flat(Slots(s)) + Flat(Slots(t));
  }

  lemma SlotsConcat(s: seq<Slot>, t: seq<Slot>)
    ensures Slots(s + t) == Slots(s) + Slots(t)
    ensures t == [] ==> Slots(t) == []
  {
    hide Enc;
    forall i | 0 <= i < |s + t|
      ensures Slots(s + t)[i] == (Slots(s) + Slots(t))[i]
    {
      if i < |s| {
        assert (s + t)[i] == s[i];
      } else {
        assert (s + t)[i] == t[i - |s|];
      }
    }
  }

  lemma FlatNothing()
    ensures Flat([]) == []
  {
  }

  lemma AppendedBuffer(s: seq<Slot>, r: Rec2)
    ensures Flat(Slots(s + [Slot(r, [])])) == Flat(Slots(s)) + Enc(r)
    ensures Flat(Slots(s + [Slot(r, [])])) != []
  {
    var t := Slots(s + [Slot(r, [])]);
    assert t[|t| - 1] == Enc(r) && t[..|t| - 1] == Slots(s);
  }

  /** Different contents in slots of the same lengths: nothing moves. */
  ghost predicate SameShape(log: seq<Slot>, log2: seq<Slot>) {
    |log| == |log2| && forall i :: 0 <= i < |log| ==> |Slots(log)[i]| == |Slots(log2)[i]|
  }

  lemma ShapeKeepsPositions(log: seq<Slot>, log2: seq<Slot>, k: nat)
    requires SameShape(log, log2) && k <= |log|
    ensures SlotPos(log, k) == SlotPos(log2, k)
  {
    SameLengths(Slots(log), Slots(log2), k);
  }

  /** A write inside slot i changes that slot only. */
  lemma WriteInSlot(log: seq<Slot>, i: nat, off: nat, bs: bytes, s2: Slot)
    requires i < |log| && off + |bs| <= |Slots(log)[i]|
    requires Enc(s2.rec) + s2.slack == Written(Slots(log)[i], off, bs)
    ensures SlotPos(log, i) + off + |bs| <= |FileOf(Slots(log))|
    ensures FileOf(Slots(log[i := s2])) == Written(FileOf(Slots(log)), SlotPos(log, i) + off, bs)
    ensures SameShape(log, log[i := s2])
  {
    hide Enc, Flat;
    var slot := Slots(log)[i];
    SlotAt(Slots(log), i);
    WrittenInside(FileOf(Slots(log)), SlotPos(log, i), slot, off, bs);
    Overwrite(Slots(log), i, Written(slot, off, bs));
    assert Slots(log[i := s2]) == Slots(log)[i := Written(slot, off, bs)];
  }

  lemma FlagInSlot(s: Slot, deleted: bool)
    ensures Enc(s.rec.(deleted := deleted)) + s.slack == Written(Enc(s.rec) + s.slack, 0, EncBool(deleted))
  {
    hide Put, Tail;
    var r := s.rec;
    var rest := Put(5, r.expire) + Tail(r) + s.slack;
    SameTail(r, r.(deleted := deleted));
    assert Enc(r) + s.slack == [] + EncBool(r.deleted) + rest;
    assert Enc(r.(deleted := deleted)) + s.slack == [] + EncBool(deleted) + rest;
    WrittenMiddle([], EncBool(r.deleted), EncBool(deleted), rest);
  }

  lemma ExpireInSlot(s: Slot, expire: int)
    ensures Enc(s.rec.(expire := expire)) + s.slack == Written(Enc(s.rec) + s.slack, 1, Put(5, expire))
  {
    hide Put, Tail;
    var r := s.rec;
    var rest := Tail(r) + s.slack;
    SameTail(r, r.(expire := expire));
    assert Enc(r) + s.slack == EncBool(r.deleted) + Put(5, r.expire) + rest;
    assert Enc(r.(expire := expire)) + s.slack == EncBool(r.deleted) + Put(5, expire) + rest;
    WrittenMiddle(EncBool(r.deleted), Put(5, r.expire), Put(5, expire), rest);
  }

  lemma SameTail(r: Rec2, r2: Rec2)
    requires r.prev == r2.prev && r.key == r2.key && r.val == r2.val
    ensures Tail(r) == Tail(r2)
  {
  }

  lemma WrittenMiddle(a: bytes, b: bytes, c: bytes, rest: bytes)
    requires |b| == |c|
    ensures Written(a + b + rest, |a|, c) == a + c + rest
  {
  }

  /** A record with the same key and no longer value fits where the old one is. */
  lemma ShorterFits(r: Rec2, r2: Rec2)
    requires r2.key == r.key && |r2.val| <= |r.val|
    ensures |Enc(r2)| <= |Enc(r)|
  {
  }

  lemma FieldsAt(data: bytes, p: nat, r: Rec2)
    requires At(data, p, Enc(r))
    ensures At(data, p, EncBool(r.deleted)) && At(data, p + 1, Put(5, r.expire)) && At(data, p + 6, Put(5, r.prev))
    ensures At(data, p + 11, Put(2, |r.key|)) && At(data, p + 13, r.key) && At(data, p + 13 + |r.key|, EncBlob(r.val))
  {
    hide Put, EncBlob;
    var a, b, c, d := EncBool(r.deleted), Put(5, r.expire), Put(5, r.prev), Put(2, |r.key|);
    AtConcat(data, p, a + b, Tail(r));
    AtConcat(data, p, a, b);
    AtConcat(data, p + 6, c + d + r.key, EncBlob(r.val));
    AtConcat(data, p + 6, c + d, r.key);
    AtConcat(data, p + 6, c, d);
  }

  lemma FixedFields(r: Rec2)
    requires Fits(r)
    ensures Int5(Put(5, r.prev)) == r.prev && Int5(Put(5, r.expire)) == r.expire && Unsigned(Put(2, |r.key|)) == |r.key|
  {
    PowValues();
    PutInts(r.prev);
    PutInts(r.expire);
    Int5RoundTrip(r.prev);
    Int5RoundTrip(r.expire);
    UnsignedPut(2, |r.key|);
  }

  /** Five bytes that came from an integer and the integer read back from them are the same bytes. */
  lemma StoredAgain(v: int)
    ensures Put(5, Int5(PutInt5(v))) == Put(5, v)
    ensures LONG5_MIN <= Int5(PutInt5(v)) <= LONG5_MAX
  {
    var b := Put(5, v);
    PutInts(v);
    IntsAreSigned(b);
    assert b[..5] == b;
    PowValues();
    UnsignedBound(b);
    PutUnsigned(b);
    PutWraps(5, Signed(b));
  }

  // ----- the file ------------------------------------------------------------------------

  /** A file as a handle leaves it, or a new one. */
  ghost predicate Stored(raf: OsFile<Slot>)
    reads raf
  {
    && raf.data == (if raf.log == [] && raf.data == [] then [] else FileOf(Slots(raf.log)))
    && forall i :: 0 <= i < |raf.log| ==> Fits(raf.log[i].rec)
  }

  class RealKeyFile2 {
    const raf: OsFile<Slot>
    var appendBuf: bytes
    var fileEnd: nat
    ghost var pending: seq<Slot>

    ghost predicate Valid()
      reads this, raf
    {
      && raf.data == FileOf(Slots(raf.log)) && appendBuf == Flat(Slots(pending))
      && fileEnd == SlotPos(raf.log, |raf.log|)
      && (appendBuf == [] ==> pending == [])
      && forall i :: 0 <= i < |Log()| ==> Fits(Log()[i].rec)
    }

    ghost function Log(): seq<Slot>
      reads this, raf
    {
      raf.log + pending
    }

    function Length(): int
      reads this
    {
      fileEnd + |appendBuf|
    }

    /** Opens a new file, or one that an earlier handle wrote and closed. */
    constructor (raf: OsFile<Slot>)
      requires Stored(raf)
      modifies raf
      ensures this.raf == raf && Valid() && Log() == old(raf.log)
      ensures Length() == SlotPos(Log(), |Log()|)
    {
      this.raf := raf;
      appendBuf, fileEnd, pending := [], 0, [];
      new;
      if |raf.data| == 0 {
        raf.WriteAt(0, HEADER);
        fileEnd := 2;
        assert Slots([]) == [];
      } else {
        fileEnd := |raf.data|;
      }
      AppendedFile(raf.log, []);
      assert raf.log + [] == raf.log;
    }

    lemma LengthIsPos()
      requires Valid()
      ensures Length() == SlotPos(Log(), |Log()|)
    {
      AppendedFile(raf.log, pending);
    }

    method Flush()
      requires Valid()
      modifies this, raf
      ensures Valid() && Log() == old(Log()) == raf.log && Length() == old(Length())
    {
      hide Flat, Slots, FileOf, SlotPos, Enc;
      ghost var log := Log();
      if |appendBuf| == 0 {
        assert raf.log == log;
        return;
      }
      AppendedFile(raf.log, pending);
      AppendedFile(raf.log + pending, []);
      raf.WriteAt(fileEnd, appendBuf);
      fileEnd := fileEnd + |appendBuf|;
      raf.log := raf.log + pending;
      appendBuf, pending := [], [];
      assert Log() == log;
    }

    method AppendTTL(prevPos: nat, ttl: int, key: bytes, dataPos: bytes, now: int) returns (pos: nat)
      requires Valid() && prevPos <= LONG5_MAX && |key| < 0x1_0000 && |dataPos| < 0x8000_0000
      modifies this, raf
      ensures Valid() && Log() == old(Log()) + [Slot(Rec2(false, Expiry(now, ttl), prevPos, key, dataPos), [])]
      ensures pos == old(Length()) == SlotPos(Log(), |old(Log())|)
      ensures Length() == pos + |Enc(Rec2(false, 0, prevPos, key, dataPos))|
      ensures if |old(appendBuf)| + |Enc(Rec2(false, 0, prevPos, key, dataPos))| >= 16_384 then pending == [] && raf.log == Log()
        else raf.log == old(raf.log) && raf.data == old(raf.data) && |pending| == |old(pending)| + 1
    {
      hide Flat, Slots, FileOf, SlotPos, Put, EncBlob, Int5, PutInt5, Enc, BlobHeader;
      ghost var r := Rec2(false, Expiry(now, ttl), prevPos, key, dataPos);
      ghost var log := Log();
      AppendedFile(raf.log, pending);
      pos := fileEnd + |appendBuf|;
      var encoded := Encode(ttl, prevPos, key, dataPos, now);
      AppendedBuffer(pending, r);
      appendBuf, pending := appendBuf + encoded, pending + [Slot(r, [])];
      assert raf.log + pending == log + [Slot(r, [])];
      SlotPosPrefix(log, log + [Slot(r, [])], |log|);
      if |appendBuf| >= APPEND_BUF_THRESHOLD {
        Flush();
      }
    }

    /** The bytes of a live record that expires ttl seconds from now. */
    static method Encode(ttl: int, prevPos: nat, key: bytes, dataPos: bytes, now: int) returns (b: bytes)
      ensures b == Enc(Rec2(false, Expiry(now, ttl), prevPos, key, dataPos))
      ensures LONG5_MIN <= Expiry(now, ttl) <= LONG5_MAX
    {
      hide Put, EncBlob, Int5, PutInt5;
      var expire := if ttl < 0 then LONG5_MAX else now + ttl;
      StoredAgain(now + ttl);
      var o := new DataOutputX();
      o.WriteBoolean(false);
      o.WriteLong5(expire);
      o.WriteLong5(prevPos);
      o.WriteShortBytes(key);
      o.WriteBlob(dataPos);
      b := o.buf;
    }

    lemma RecordIsThere(i: nat)
      requires Valid() && i < |raf.log|
      ensures var r, p := raf.log[i].rec, SlotPos(raf.log, i);
        && At(raf.data, p, EncBool(r.deleted)) && At(raf.data, p + 1, Put(5, r.expire)) && At(raf.data, p + 6, Put(5, r.prev))
        && At(raf.data, p + 11, Put(2, |r.key|)) && At(raf.data, p + 13, r.key) && At(raf.data, p + 13 + |r.key|, EncBlob(r.val))
        && Int5(Put(5, r.prev)) == r.prev && Int5(Put(5, r.expire)) == r.expire && Unsigned(Put(2, |r.key|)) == |r.key|
    {
      hide Put, Enc, Flat;
      SlotAt(Slots(raf.log), i);
      var r, p := raf.log[i].rec, SlotPos(raf.log, i);
      AtConcat(raf.data, p, Enc(r), raf.log[i].slack);
      FieldsAt(raf.data, p, r);
      assert Log()[i] == raf.log[i];
      FixedFields(r);
    }

    method IsDeleted(pos: nat, ghost i: nat) returns (deleted: bool)
      requires Valid() && i < |Log()| && pos == SlotPos(Log(), i)
      modifies this, raf
      ensures Valid() && Log() == old(Log()) && Length() == old(Length())
      ensures deleted == Log()[i].rec.deleted
    {
      hide Put, Slots, FileOf, Flat, SlotPos, Int5, EncBlob;
      Flush();
      RecordIsThere(i);
      var b := raf.ReadAt(pos, 1);
      assert b == EncBool(Log()[i].rec.deleted);
      deleted := b[0] != 0;
    }

    method IsDeletedOrExpired(pos: nat, now: int, ghost i: nat) returns (gone: bool)
      requires Valid() && i < |Log()| && pos == SlotPos(Log(), i)
      modifies this, raf
      ensures Valid() && Log() == old(Log()) && Length() == old(Length())
      ensures gone == (Log()[i].rec.deleted || Log()[i].rec.expire < now)
    {
      hide Put, Slots, FileOf, Flat, SlotPos, Int5, EncBlob;
      Flush();
      RecordIsThere(i);
      var b := raf.ReadAt(pos, 6);
      AtIndex(raf.data, pos, EncBool(Log()[i].rec.deleted), 0);
      assert b == raf.data[pos..pos + 6];
      Subslice(raf.data, pos, 6, 1, 6);
      SliceAt(raf.data, pos + 1, Put(5, Log()[i].rec.expire));
      var deleted := b[0] != 0;
      var expire := Int5(b[1..6]);
      gone := deleted || expire < now;
    }

    method GetPrevPos(pos: nat, ghost i: nat) returns (prev: int)
      requires Valid() && i < |Log()| && pos == SlotPos(Log(), i)
      modifies this, raf
      ensures Valid() && Log() == old(Log()) && Length() == old(Length())
      ensures prev == Log()[i].rec.prev
    {
      hide Put, Slots, FileOf, Flat, SlotPos, Int5, EncBlob;
      Flush();
      RecordIsThere(i);
      var b := raf.ReadAt(pos + 6, 5);
      prev := Int5(b);
    }

    method GetKey(pos: nat, ghost i: nat) returns (key: bytes)
      requires Valid() && i < |Log()| && pos == SlotPos(Log(), i)
      modifies this, raf
      ensures Valid() && Log() == old(Log()) && Length() == old(Length())
      ensures key == Log()[i].rec.key
    {
      hide Put, Slots, FileOf, Flat, SlotPos, Int5, EncBlob, Unsigned;
      Flush();
      RecordIsThere(i);
      var lenBuf := raf.ReadAt(pos + 11, 2);
      var keyLen := Unsigned(lenBuf);
      key := [];
      if keyLen > 0 {
        key := raf.ReadAt(pos + 13, keyLen);
      }
    }

    /** readBlob, positioned after the key of record i. */
    method ReadBlob(p: nat, ghost r: Rec2) returns (val: bytes)
      requires At(raf.data, p, EncBlob(r.val)) && Fits(r)
      ensures val == r.val
    {
      hide Put, Unsigned, BlobHeader, At;
      AtConcat(raf.data, p, BlobHeader(|r.val|), r.val);
      var start, len := ReadBlobLength(p, r);
      val := [];
      if len > 0 {
        val := raf.ReadAt(start, len);
        assert val == r.val by {
          SliceAt(raf.data, start, r.val);
        }
      }
    }

    /** Where the bytes of a blob start, and how many they are. */
    method ReadBlobLength(p: nat, ghost r: Rec2) returns (start: nat, len: nat)
      requires At(raf.data, p, BlobHeader(|r.val|)) && Fits(r)
      ensures start == p + |BlobHeader(|r.val|)| && len == |r.val|
    {
      hide Put, Unsigned, At, BlobHeader;
      HeaderBytes(raf.data, p, |r.val|);
      var b := raf.ReadAt(p, 1);
      start, len := p + 1, b[0];
      if len == 255 {
        var lenBuf := raf.ReadAt(p + 1, 2);
        start, len := p + 3, Unsigned(lenBuf);
      } else if len == 254 {
        var lenBuf := raf.ReadAt(p + 1, 4);
        start, len := p + 5, Unsigned(lenBuf);
      }
    }

    /** The bytes in front of a blob of n bytes, as the reads of its length find them. */
    static lemma HeaderBytes(data: bytes, p: nat, n: nat)
      requires At(data, p, BlobHeader(n)) && n < 0x8000_0000
      ensures p + |BlobHeader(n)| <= |data| && |BlobHeader(n)| > 0
      ensures data[p] == if n <= 253 then n else if n <= 65535 then 255 else 254
      ensures |BlobHeader(n)| == if n <= 253 then 1 else if n <= 65535 then 3 else 5
      ensures 253 < n <= 65535 ==> Unsigned(data[p + 1..p + 3]) == n
      ensures n > 65535 ==> Unsigned(data[p + 1..p + 5]) == n
    {
      hide Put, Unsigned, At;
      PowValues();
      SliceAt(data, p, BlobHeader(n));
      AtIndex(data, p, BlobHeader(n), 0);
      if 253 < n <= 65535 {
        AtConcat(data, p, [255], Put(2, n));
        SliceAt(data, p + 1, Put(2, n));
        UnsignedPut(2, n);
      } else if n > 65535 {
        AtConcat(data, p, [254], Put(4, n));
        SliceAt(data, p + 1, Put(4, n));
        UnsignedPut(4, n);
      }
    }

    method GetDataPos(pos: nat, ghost i: nat) returns (val: bytes)
      requires Valid() && i < |Log()| && pos == SlotPos(Log(), i)
      modifies this, raf
      ensures Valid() && Log() == old(Log()) && Length() == old(Length())
      ensures val == Log()[i].rec.val
    {
      hide Put, Slots, FileOf, Flat, SlotPos, Int5, EncBlob, Unsigned;
      Flush();
      RecordIsThere(i);
      var lenBuf := raf.ReadAt(pos + 11, 2);
      var keyLen := Unsigned(lenBuf);
      val := ReadBlob(pos + 13 + keyLen, raf.log[i].rec);
    }

    /** Writes inside the slot of record i. */
    method WriteInPlace(p: nat, bs: bytes, ghost i: nat, ghost off: nat, ghost s2: Slot)
      requires Valid() && pending == [] && i < |raf.log| && p == SlotPos(raf.log, i) + off
      requires off + |bs| <= |Slots(raf.log)[i]| && Fits(s2.rec)
      requires Enc(s2.rec) + s2.slack == Written(Slots(raf.log)[i], off, bs)
      modifies raf
      ensures Valid() && Log() == old(Log())[i := s2] && SameShape(old(Log()), Log())
      ensures pending == [] && Length() == old(Length())
    {
      hide Put, FileOf, SlotPos, Enc, Written, Flat;
      ghost var log := raf.log;
      assert Log() == log;
      WriteInSlot(log, i, off, bs, s2);
      raf.WriteAt(p, bs);
      raf.log := log[i := s2];
      ShapeKeepsPositions(log, raf.log, |log|);
      assert Log() == raf.log;
    }

    method SetDelete(pos: nat, deleted: bool, ghost i: nat)
      requires Valid() && i < |Log()| && pos == SlotPos(Log(), i)
      modifies this, raf
      ensures Valid() && SameShape(old(Log()), Log()) && Length() == old(Length())
      ensures Log() == old(Log())[i := old(Log())[i].(rec := old(Log())[i].rec.(deleted := deleted))]
    {
      hide Put, FileOf, SlotPos, Enc, Written, Flat, EncBlob;
      Flush();
      NothingPending();
      ghost var s := raf.log[i];
      FlagInSlot(s, deleted);
      SlotIsLong(s);
      WriteInPlace(pos, EncBool(deleted), i, 0, s.(rec := s.rec.(deleted := deleted)));
    }

    lemma NothingPending()
      requires Valid() && Log() == raf.log
      ensures pending == []
    {
      assert |raf.log + pending| == |raf.log| + |pending|;
    }

    static lemma SlotIsLong(s: Slot)
      ensures |Enc(s.rec) + s.slack| >= 14
    {
    }

    /** SetExpire with the expiry of a new time-to-live. */
    method SetTTL(pos: nat, ttl: int, now: int, ghost i: nat)
      requires Valid() && i < |Log()| && pos == SlotPos(Log(), i)
      modifies this, raf
      ensures Valid() && SameShape(old(Log()), Log()) && Length() == old(Length())
      ensures Log() == old(Log())[i := old(Log())[i].(rec := old(Log())[i].rec.(expire := Expiry(now, ttl)))]
    {
      hide Put, FileOf, SlotPos, Enc, Written, Flat, EncBlob, Int5, PutInt5;
      Flush();
      NothingPending();
      var expire := if ttl < 0 then LONG5_MAX else now + ttl;
      StoredAgain(now + ttl);
      PutInts(expire);
      ghost var s := raf.log[i];
      ExpireInSlot(s, Expiry(now, ttl));
      SlotIsLong(s);
      assert Log()[i] == s;
      WriteInPlace(pos + 1, PutInt5(expire), i, 1, s.(rec := s.rec.(expire := Expiry(now, ttl))));
    }

    /** Rewrites record i in place unless the new value is longer. */
    lemma FitsAt(i: nat)
      requires Valid() && i < |raf.log|
      ensures Fits(raf.log[i].rec)
    {
      assert Log()[i] == raf.log[i];
    }

    /** What an update needs of the record that is there. */
    method ReadOriginal(pos: nat, ghost i: nat) returns (prevPos: nat, org: bytes)
      requires Valid() && i < |raf.log| && pos == SlotPos(raf.log, i)
      ensures prevPos == raf.log[i].rec.prev && org == raf.log[i].rec.val
    {
      hide Put, FileOf, SlotPos, Enc, Flat, EncBlob, Int5, PutInt5, Unsigned, At, Fits, Valid;
      RecordIsThere(i);
      FitsAt(i);
      SliceAt(raf.data, pos + 6, Put(5, raf.log[i].rec.prev));
      SliceAt(raf.data, pos + 11, Put(2, |raf.log[i].rec.key|));
      var prevBuf := raf.ReadAt(pos + 6, 5);
      prevPos := Int5(prevBuf);
      var lenBuf := raf.ReadAt(pos + 11, 2);
      var keyLen := Unsigned(lenBuf);
      org := ReadBlob(pos + 13 + keyLen, raf.log[i].rec);
    }

    method Update(pos: nat, ttl: int, key: bytes, value: bytes, now: int, ghost i: nat) returns (ok: bool)
      requires Valid() && i < |Log()| && pos == SlotPos(Log(), i) && key == Log()[i].rec.key
      modifies this, raf
      ensures Valid() && SameShape(old(Log()), Log()) && Length() == old(Length())
      ensures ok <==> |value| <= |old(Log())[i].rec.val|
      ensures !ok ==> Log() == old(Log())
      ensures ok ==> exists slack ::
        Log() == old(Log())[i := Slot(Rec2(false, Expiry(now, ttl), old(Log())[i].rec.prev, key, value), slack)]
    {
      hide Put, FileOf, SlotPos, Enc, Flat, EncBlob, Int5, PutInt5, Unsigned;
      Flush();
      NothingPending();
      ghost var s := raf.log[i];
      assert Log()[i] == s;
      var prevPos, org := ReadOriginal(pos, i);
      RecordIsThere(i);
      if |org| < |value| {
        return false;
      }
      var encoded := Encode(ttl, prevPos, key, value, now);
      ghost var r2 := Rec2(false, Expiry(now, ttl), prevPos, key, value);
      ShorterFits(s.rec, r2);
      ghost var slot := Slots(raf.log)[i];
      WriteInPlace(pos, encoded, i, 0, Slot(r2, slot[|encoded|..]));
      ok := true;
    }
  }
}
