/** The append-only record file under an index (internal/db/io/real_key_file.go).
    Record: deleted flag (1), previous position (5), key length (2), key, value blob. */
module KeyFile {
  import opened Endian
  import opened DataStream
  import opened Layout
  import opened Results

  const APPEND_BUF_THRESHOLD := 16384
  const WINDOW := 128

  datatype Rec = Rec(deleted: bool, prev: nat, key: bytes, val: bytes)

  /** What GetRecord returns. */
  datatype KeyRecord = KeyRecord(deleted: bool, prevPos: int, timeKey: bytes, dataPos: bytes, offset: nat)

  datatype ReadError = HeaderTooShort | BeyondBuffer | BlobHeaderTruncated

  /** The field widths of the format. */
  predicate Fits(r: Rec) {
    r.prev <= LONG5_MAX && |r.key| < 0x1_0000 && |r.val| < 0x8000_0000
  }

  function Enc(r: Rec): (b: bytes)
    ensures |b| == 8 + |r.key| + |BlobHeader(|r.val|)| + |r.val|
  {
    EncBool(r.deleted) + Put(5, r.prev) + Put(2, |r.key|) + r.key + EncBlob(r.val)
  }

  function Slots(log: seq<Rec>): (s: seq<bytes>)
    ensures |s| == |log|
    ensures forall i :: 0 <= i < |log| ==> s[i] == Enc(log[i])
  {
    seq(|log|, i requires 0 <= i < |log| => Enc(log[i]))
  }

  /** Where record i of the log starts. */
  function RecPos(log: seq<Rec>, i: nat): (p: nat)
    requires i <= |log|
    ensures p >= |HEADER|
  {
    Pos(Slots(log), i)
  }

  /** The header and key of a record lie inside the first read of GetRecord. */
  predicate Readable(r: Rec) {
    8 + |r.key| + |BlobHeader(|r.val|)| <= WINDOW
  }

  // ----- positions -----------------------------------------------------------------------

  lemma RecPosNext(log: seq<Rec>, i: nat)
    requires i < |log|
    ensures RecPos(log, i + 1) == RecPos(log, i) + |Enc(log[i])|
  {
    PosNext(Slots(log), i);
  }

  lemma RecPosPrefix(log: seq<Rec>, more: seq<Rec>, i: nat)
    requires i <= |log| <= |more| && more[..|log|] == log
    ensures RecPos(log, i) == RecPos(more, i)
  {
    assert forall k :: 0 <= k < |log| ==> more[..|log|][k] == more[k];
    assert Slots(more)[..|log|] == Slots(log);
    PosPrefix(Slots(log), Slots(more), i);
  }

  /** Later records start later; so a position names one record. */
  lemma RecPosOrder(log: seq<Rec>, i: nat, j: nat)
    requires i < j <= |log|
    ensures RecPos(log, i) < RecPos(log, j)
  {
    PosMonotone(Slots(log), i, j);
  }

  lemma SlotsAppend(s: seq<Rec>, t: seq<Rec>)
    ensures Slots(s + t) == Slots(s) + Slots(t)
    ensures FileOf(Slots(s + t)) == FileOf(Slots(s)) + Flat(Slots(t))
  {
    hide Enc, Slots, Flat;
    SlotsConcat(s, t);
    FlatAppend(Slots(s), Slots(t));
    assert HEADER + (Flat(Slots(s)) + Flat(Slots(t))) == HEADER + Flat(Slots(s)) + Flat(Slots(t));
  }

  lemma SlotsConcat(s: seq<Rec>, t: seq<Rec>)
    ensures Slots(s + t) == Slots(s) + Slots(t)
  {
    hide Enc;
    forall i | 0 <= i < |s + t|
      ensures Slots(s + t)[i] == (Slots(s) + Slots(t))[i]
    {
      if i < |s| {
        assert (s + t)[i] == s[i];
      } else {
        assert (s + t)[i] == t[i - |s|];
      }
    }
  }

  /** Writing encoded records at the end of a file appends the records. */
  lemma AppendedFile(s: seq<Rec>, t: seq<Rec>)
    ensures RecPos(s, |s|) == |FileOf(Slots(s))|
    ensures Written(FileOf(Slots(s)), RecPos(s, |s|), Flat(Slots(t))) == FileOf(Slots(s + t))
    ensures RecPos(s, |s|) + |Flat(Slots(t))| == RecPos(s + t, |s + t|)
  {
    hide Flat, Slots, Enc, Pos;
    PosEnd(Slots(s));
    PosEnd(Slots(s + t));
    SlotsAppend(s, t);
  }

  lemma AppendedBuffer(s: seq<Rec>, r: Rec)
    ensures Flat(Slots(s + [r])) == Flat(Slots(s)) + Enc(r)
  {
    var t := Slots(s + [r]);
    assert t[|t| - 1] == Enc(r) && t[..|t| - 1] == Slots(s);
  }

  lemma FlatNonEmpty(log: seq<Rec>)
    ensures Flat(Slots(log)) == [] <==> log == []
  {
    if log != [] {
      var s := Slots(log);
      assert Flat(s) == Flat(s[..|s| - 1]) + s[|s| - 1] && s[|s| - 1] == Enc(log[|log| - 1]);
    }
  }

  /** The fields of a record inside the file. */
  lemma FieldsAt(data: bytes, p: nat, r: Rec)
    requires At(data, p, Enc(r))
    ensures At(data, p, EncBool(r.deleted)) && At(data, p + 1, Put(5, r.prev)) && At(data, p + 6, Put(2, |r.key|))
    ensures At(data, p + 8, r.key) && At(data, p + 8 + |r.key|, BlobHeader(|r.val|))
    ensures At(data, p + 8 + |r.key| + |BlobHeader(|r.val|)|, r.val)
  {
    var a, b, c := EncBool(r.deleted), Put(5, r.prev), Put(2, |r.key|);
    AtConcat(data, p, a + b + c + r.key, EncBlob(r.val));
    AtConcat(data, p, a + b + c, r.key);
    AtConcat(data, p, a + b, c);
    AtConcat(data, p, a, b);
    AtConcat(data, p + 8 + |r.key|, BlobHeader(|r.val|), r.val);
  }

  /** A piece of the window is that piece of the file. */
  lemma WindowAt(data: bytes, p: nat, window: bytes, off: nat, s: bytes)
    requires p + |window| <= |data| && window == data[p..p + |window|]
    requires At(data, p + off, s) && off + |s| <= |window|
    ensures window[off..off + |s|] == s
  {
    forall k | 0 <= k < |s|
      ensures window[off + k] == s[k]
    {
      AtIndex(data, p + off, s, k);
    }
  }

  lemma FixedFields(r: Rec)
    requires Fits(r)
    ensures Int5(Put(5, r.prev)) == r.prev && Unsigned(Put(2, |r.key|)) == |r.key|
  {
    PowValues();
    PutInts(r.prev);
    Int5RoundTrip(r.prev);
    UnsignedPut(2, |r.key|);
  }

  lemma FlagInSlot(r: Rec, deleted: bool)
    ensures Written(Enc(r), 0, EncBool(deleted)) == Enc(r.(deleted := deleted))
  {
    hide Put, EncBlob;
    var rest := Put(5, r.prev) + Put(2, |r.key|) + r.key + EncBlob(r.val);
    assert Enc(r) == EncBool(r.deleted) + rest;
    assert Enc(r.(deleted := deleted)) == EncBool(deleted) + rest;
  }

  /** Rewriting the flag byte of record i rewrites that record and moves none. */
  lemma FlipFlag(log: seq<Rec>, i: nat, deleted: bool)
    requires i < |log|
    ensures var log2 := log[i := log[i].(deleted := deleted)];
      && RecPos(log, i) < |FileOf(Slots(log))|
      && FileOf(Slots(log2)) == Written(FileOf(Slots(log)), RecPos(log, i), EncBool(deleted))
      && forall k {:trigger RecPos(log, k)} {:trigger RecPos(log2, k)} :: 0 <= k <= |log| ==> RecPos(log2, k) == RecPos(log, k)
  {
    hide Enc, FileOf, Written;
    var r := log[i];
    var c := Enc(r.(deleted := deleted));
    var log2 := log[i := r.(deleted := deleted)];
    SlotAt(Slots(log), i);
    FlagInSlot(r, deleted);
    WrittenInside(FileOf(Slots(log)), RecPos(log, i), Enc(r), 0, EncBool(deleted));
    Overwrite(Slots(log), i, c);
    assert Slots(log2) == Slots(log)[i := c];
    forall k | 0 <= k <= |log|
      ensures RecPos(log2, k) == RecPos(log, k)
    {
      assert Pos(Slots(log), k) == Pos(Slots(log2), k);
    }
  }

  // ----- the file ------------------------------------------------------------------------

  /** The bytes on disk are exactly the records on disk. */
  ghost predicate Represents(raf: OsFile<Rec>)
    reads raf
  {
    raf.data == FileOf(Slots(raf.log)) && forall i :: 0 <= i < |raf.log| ==> Fits(raf.log[i])
  }

  class RealKeyFile {
    const raf: OsFile<Rec>
    var appendBuf: bytes
    var fileEnd: nat
    ghost var pending: seq<Rec>   // the records in appendBuf
    ghost var flushed: nat        // the records below fileEnd

    /** fileEnd is a record boundary, and only an up-to-date handle buffers appends. */
    ghost predicate Valid()
      reads this, raf
    {
      && Represents(raf)
      && appendBuf == Flat(Slots(pending))
      && (forall i :: 0 <= i < |pending| ==> Fits(pending[i]))
      && flushed <= |raf.log| && fileEnd == RecPos(raf.log, flushed)
      && (pending != [] ==> UpToDate())
    }

    /** This handle has seen the whole file: the one handle that appends. */
    ghost predicate UpToDate()
      reads this, raf
    {
      flushed == |raf.log|
    }

    ghost function Log(): seq<Rec>
      reads this, raf
    {
      raf.log + pending
    }

    constructor (raf: OsFile<Rec>)
      requires if raf.data == [] then raf.log == [] else Represents(raf)
      modifies raf
      ensures this.raf == raf && Valid() && UpToDate() && pending == []
      ensures raf.log == old(raf.log)
    {
      this.raf := raf;
      appendBuf, fileEnd, pending, flushed := [], 0, [], |raf.log|;
      new;
      if |raf.data| == 0 {
        raf.WriteAt(0, HEADER);
        fileEnd := 2;
        assert raf.data == FileOf(Slots(raf.log));
      } else {
        fileEnd := |raf.data|;
      }
      PosEnd(Slots(raf.log));
    }

    /** The logical file, buffered records included. */
    function Length(): int
      reads this
    {
      fileEnd + |appendBuf|
    }

    lemma LengthIsPos()
      requires Valid() && UpToDate()
      ensures Length() == RecPos(Log(), |Log()|)
      ensures FileOf(Slots(Log())) == raf.data + appendBuf
    {
      PosEnd(Slots(raf.log));
      SlotsAppend(raf.log, pending);
      PosEnd(Slots(Log()));
    }

    /** Flushing is invisible: the log and the positions of its records stay. */
    method Flush()
      requires Valid()
      modifies this, raf
      ensures Valid() && Log() == old(Log()) && pending == []
      ensures old(UpToDate()) ==> UpToDate()
      ensures old(raf.log) <= raf.log && Length() == old(Length())
    {
      hide Flat, Slots, FileOf, RecPos, Enc;
      FlatNonEmpty(pending);
      FlatNonEmpty([]);
      if |appendBuf| == 0 {
        return;
      }
      AppendedFile(raf.log, pending);
      AppendedFile(raf.log + pending, []);
      raf.WriteAt(fileEnd, appendBuf);
      fileEnd := fileEnd + |appendBuf|;
      raf.log := raf.log + pending;
      appendBuf, pending, flushed := [], [], |raf.log|;
    }

    method Append(prevPos: nat, key: bytes, dataPos: bytes) returns (pos: nat)
      requires Valid() && UpToDate()
      requires Fits(Rec(false, prevPos, key, dataPos))
      modifies this, raf
      ensures Valid() && UpToDate() && old(raf.log) <= raf.log
      ensures Log() == old(Log()) + [Rec(false, prevPos, key, dataPos)]
      ensures pos == old(Length()) == RecPos(Log(), |old(Log())|)
      ensures Length() == pos + |Enc(Rec(false, prevPos, key, dataPos))|
      ensures if |old(appendBuf)| + |Enc(Rec(false, prevPos, key, dataPos))| >= 16_384 then pending == [] && raf.log == Log()
        else raf.log == old(raf.log) && raf.data == old(raf.data) && pending == old(pending) + [Rec(false, prevPos, key, dataPos)]
    {
      hide Flat, Slots, FileOf, RecPos, Put, EncBlob;
      ghost var r := Rec(false, prevPos, key, dataPos);
      ghost var log := Log();
      AppendedFile(raf.log, pending);
      pos := fileEnd + |appendBuf|;
      var o := new DataOutputX();
      o.WriteBoolean(false);
      o.WriteLong5(prevPos);
      o.WriteShortBytes(key);
      o.WriteBlob(dataPos);
      assert o.buf == Enc(r);
      AppendedBuffer(pending, r);
      appendBuf, pending := appendBuf + o.buf, pending + [r];
      assert raf.log + pending == log + [r];
      RecPosPrefix(log, log + [r], |log|);
      if |appendBuf| >= APPEND_BUF_THRESHOLD {
        Flush();
      }
    }

    /** What reading record i returns: the record appended there and the start of the next. */
    ghost function RecordAt(i: nat): KeyRecord
      requires i < |Log()|
      reads this, raf
    {
      var r := Log()[i];
      KeyRecord(r.deleted, r.prev, r.key, r.val, RecPos(Log(), i + 1))
    }

    /** Positions below fileEnd are read without flushing. */
    method GetRecord(pos: nat, ghost i: nat) returns (r: Result<KeyRecord, ReadError>)
      requires Valid() && i < |Log()| && pos == RecPos(Log(), i)
      modifies this, raf
      ensures Valid() && Log() == old(Log()) && old(raf.log) <= raf.log
      ensures old(UpToDate()) ==> UpToDate()
      ensures Length() == old(Length())
      ensures r.Ok? <==> Readable(Log()[i])
      ensures r.Ok? ==> r.value == RecordAt(i)
    {
      if pos < fileEnd {
        OnDisk(i);
        assert raf.log[i] == Log()[i];
        RecPosPrefix(raf.log, Log(), i);
        RecPosPrefix(raf.log, Log(), i + 1);
        r := GetRecordReadAt(pos, i);
      } else {
        Flush();
        assert raf.log == Log();
        r := GetRecordReadAt(pos, i);
      }
    }

    /** The unlocked path only ever meets whole records. */
    lemma OnDisk(i: nat)
      requires Valid() && i < |Log()| && RecPos(Log(), i) < fileEnd
      ensures i < flushed
      ensures RecPos(raf.log, i + 1) <= fileEnd
    {
      if i >= flushed {
        PosMonotone(Slots(Log()), flushed, i);
        RecPosPrefix(raf.log, Log(), flushed);
      }
      PosMonotone(Slots(raf.log), i + 1, flushed);
    }

    /** One read of 128 bytes, and a second one for a value that reaches beyond them. */
    method GetRecordReadAt(pos: nat, ghost i: nat) returns (res: Result<KeyRecord, ReadError>)
      requires Represents(raf) && i < |raf.log| && pos == RecPos(raf.log, i)
      ensures res.Ok? <==> Readable(raf.log[i])
      ensures res.Ok? ==> var r := raf.log[i];
        res.value == KeyRecord(r.deleted, r.prev, r.key, r.val, RecPos(raf.log, i + 1))
    {
      hide Enc, Put, Unsigned, RecPos, Slots, FileOf, Pos, Int5, EncBool, EncBlob, BlobHeader, At, Readable, Represents, Fits;
      ghost var r := raf.log[i];
      RecordIsThere(i);
      FitsAt(i);
      FixedFields(r);
      var buf := raf.ReadAt(pos, WINDOW);
      var n := |buf|;
      HeaderInWindow(i, buf);
      if n < 8 {
        return Err(HeaderTooShort);
      }
      var deleted := buf[0] != 0;
      var prevPos := Int5(buf[1..6]);
      var keyLen := Unsigned(buf[6..8]);
      var off := 8;
      if off + keyLen + 1 > n {
        return Err(BeyondBuffer);
      }
      var timeKey := buf[off..off + keyLen];
      off := off + keyLen;
      var header := DecodeBlobHeader(buf, off, pos, r);
      if header.Err? {
        return Err(header.error);
      }
      var blobLen := header.value.0;
      off := header.value.1;
      var dataPos := ReadBlobData(pos, buf, off, blobLen);
      assert dataPos == r.val by {
        SliceAt(raf.data, pos + off, r.val);
      }
      res := Ok(KeyRecord(deleted, prevPos, timeKey, dataPos, pos + off + blobLen));
    }

    /** The fields that the 128-byte window shows of record i. */
    lemma HeaderInWindow(i: nat, buf: bytes)
      requires Represents(raf) && i < |raf.log|
      requires var p := RecPos(raf.log, i);
        buf == if p >= |raf.data| then [] else if p + WINDOW <= |raf.data| then raf.data[p..p + WINDOW] else raf.data[p..]
      ensures var r, p := raf.log[i], RecPos(raf.log, i);
        && p + |buf| <= |raf.data| && buf == raf.data[p..p + |buf|] && 8 < |buf| <= WINDOW
        && (|buf| == WINDOW || 8 + |r.key| + |BlobHeader(|r.val|)| <= |buf|)
        && buf[0] == (if r.deleted then 1 else 0) && buf[1..6] == Put(5, r.prev) && buf[6..8] == Put(2, |r.key|)
        && (8 + |r.key| < |buf| ==> buf[8..8 + |r.key|] == r.key)
        && (8 + |r.key| >= |buf| ==> !Readable(r))
    {
      hide Put, FileOf, RecPos, BlobHeader, Represents, At;
      var r, p := raf.log[i], RecPos(raf.log, i);
      RecordIsThere(i);
      WindowAt(raf.data, p, buf, 0, EncBool(r.deleted));
      assert buf[0] == buf[0..1][0];
      WindowAt(raf.data, p, buf, 1, Put(5, r.prev));
      WindowAt(raf.data, p, buf, 6, Put(2, |r.key|));
      if 8 + |r.key| < |buf| {
        WindowAt(raf.data, p, buf, 8, r.key);
      }
    }

    /** The length of the value and where it starts; the header must lie inside the window. */
    method DecodeBlobHeader(buf: bytes, start: nat, ghost pos: nat, ghost r: Rec) returns (res: Result<(nat, nat), ReadError>)
      requires pos + |buf| <= |raf.data| && buf == raf.data[pos..pos + |buf|]
      requires Fits(r) && start == 8 + |r.key| < |buf| <= WINDOW
      requires At(raf.data, pos + start, BlobHeader(|r.val|))
      requires |buf| == WINDOW || start + |BlobHeader(|r.val|)| <= |buf|
      ensures res.Ok? <==> Readable(r)
      ensures res.Ok? ==> res.value == (|r.val|, start + |BlobHeader(|r.val|)|) && res.value.1 <= |buf|
    {
      AtIndex(raf.data, pos + start, BlobHeader(|r.val|), 0);
      var blobPrefix, off := buf[start], start + 1;
      if blobPrefix == 0 {
        res := Ok((0, off));
      } else if blobPrefix == 255 {
        if off + 2 > |buf| {
          return Err(BlobHeaderTruncated);
        }
        BlobLength(r, pos, buf);
        res := Ok((Unsigned(buf[off..off + 2]), off + 2));
      } else if blobPrefix == 254 {
        if off + 4 > |buf| {
          return Err(BlobHeaderTruncated);
        }
        BlobLength(r, pos, buf);
        res := Ok((Unsigned(buf[off..off + 4]), off + 4));
      } else {
        res := Ok((blobPrefix, off));
      }
    }

    /** From the window if it reaches far enough, else with a second read. */
    method ReadBlobData(pos: nat, buf: bytes, off: nat, blobLen: nat) returns (dataPos: bytes)
      requires pos + |buf| <= |raf.data| && buf == raf.data[pos..pos + |buf|]
      requires off <= |buf| && pos + off + blobLen <= |raf.data|
      ensures dataPos == raf.data[pos + off..pos + off + blobLen]
    {
      var n := |buf|;
      if off + blobLen <= n {
        dataPos := buf[off..off + blobLen];
        Subslice(raf.data, pos, n, off, off + blobLen);
      } else {
        var rest := raf.ReadAt(pos + n, blobLen - (n - off));
        dataPos := buf[off..n] + rest;
        assert dataPos == raf.data[pos + off..pos + off + blobLen] by {
          Slices(raf.data, pos, off, n, off + blobLen);
        }
      }
    }

    static lemma Slices(data: bytes, pos: nat, a: nat, b: nat, c: nat)
      requires a <= b < c && pos + c <= |data|
      ensures data[pos..pos + b][a..b] + data[pos + b..pos + c] == data[pos + a..pos + c]
    {
      Subslice(data, pos, b, a, b);
      var whole, first, second := data[pos + a..pos + c], data[pos + a..pos + b], data[pos + b..pos + c];
      assert whole[..b - a] == first && whole[b - a..] == second;
    }

    lemma FitsAt(i: nat)
      requires Represents(raf) && i < |raf.log|
      ensures Fits(raf.log[i])
    {
    }

    lemma RecordIsThere(i: nat)
      requires Represents(raf) && i < |raf.log|
      ensures var r, p := raf.log[i], RecPos(raf.log, i);
        && At(raf.data, p, EncBool(r.deleted)) && At(raf.data, p + 1, Put(5, r.prev))
        && At(raf.data, p + 6, Put(2, |r.key|)) && At(raf.data, p + 8, r.key)
        && At(raf.data, p + 8 + |r.key|, BlobHeader(|r.val|))
        && At(raf.data, p + 8 + |r.key| + |BlobHeader(|r.val|)|, r.val)
        && RecPos(raf.log, i + 1) == p + 8 + |r.key| + |BlobHeader(|r.val|)| + |r.val| <= |raf.data|
    {
      hide Flat, Pos, BlobHeader, Put, FileOf;
      SlotAt(Slots(raf.log), i);
      RecPosNext(raf.log, i);
      FieldsAt(raf.data, RecPos(raf.log, i), raf.log[i]);
    }

    lemma BlobLength(r: Rec, pos: nat, buf: bytes)
      requires pos + |buf| <= |raf.data| && buf == raf.data[pos..pos + |buf|]
      requires Fits(r) && Readable(r)
      requires At(raf.data, pos + 8 + |r.key|, BlobHeader(|r.val|))
      requires 8 + |r.key| + |BlobHeader(|r.val|)| <= |buf| && |r.val| > 253
      ensures |r.val| <= 65535 ==> Unsigned(buf[9 + |r.key|..11 + |r.key|]) == |r.val|
      ensures |r.val| > 65535 ==> Unsigned(buf[9 + |r.key|..13 + |r.key|]) == |r.val|
    {
      PowValues();
      var p := 8 + |r.key|;
      if |r.val| <= 65535 {
        AtConcat(raf.data, pos + p, [255], Put(2, |r.val|));
        WindowAt(raf.data, pos, buf, p + 1, Put(2, |r.val|));
        UnsignedPut(2, |r.val|);
      } else {
        AtConcat(raf.data, pos + p, [254], Put(4, |r.val|));
        WindowAt(raf.data, pos, buf, p + 1, Put(4, |r.val|));
        UnsignedPut(4, |r.val|);
      }
    }

    method IsDeleted(pos: nat, ghost i: nat) returns (deleted: bool)
      requires Valid() && i < |Log()| && pos == RecPos(Log(), i)
      modifies this, raf
      ensures Valid() && Log() == old(Log()) && old(raf.log) <= raf.log
      ensures old(UpToDate()) ==> UpToDate()
      ensures deleted == Log()[i].deleted && Length() == old(Length())
    {
      hide Put, Unsigned, Slots, FileOf, Pos, RecPos, Int5, BlobHeader;
      Flush();
      assert raf.log == Log();
      RecordIsThere(i);
      var b := raf.ReadAt(pos, 1);
      assert b == EncBool(Log()[i].deleted);
      deleted := b[0] != 0;
    }

    method GetPrevPos(pos: nat, ghost i: nat) returns (prev: int)
      requires Valid() && i < |Log()| && pos == RecPos(Log(), i)
      modifies this, raf
      ensures Valid() && Log() == old(Log()) && old(raf.log) <= raf.log
      ensures old(UpToDate()) ==> UpToDate()
      ensures prev == Log()[i].prev && Length() == old(Length())
    {
      hide Put, Unsigned, Slots, FileOf, Pos, RecPos, Int5, BlobHeader;
      Flush();
      assert raf.log == Log();
      RecordIsThere(i);
      FixedFields(Log()[i]);
      var b := raf.ReadAt(pos + 1, 5);
      prev := Int5(b);
    }

    method GetTimeKey(pos: nat, ghost i: nat) returns (key: bytes)
      requires Valid() && i < |Log()| && pos == RecPos(Log(), i)
      modifies this, raf
      ensures Valid() && Log() == old(Log()) && old(raf.log) <= raf.log
      ensures old(UpToDate()) ==> UpToDate()
      ensures key == Log()[i].key && Length() == old(Length())
    {
      hide Put, Unsigned, Slots, FileOf, Pos, RecPos, Int5, BlobHeader;
      Flush();
      assert raf.log == Log();
      RecordIsThere(i);
      FixedFields(Log()[i]);
      var lenBuf := raf.ReadAt(pos + 6, 2);
      var keyLen := Unsigned(lenBuf);
      key := [];
      if keyLen > 0 {
        key := raf.ReadAt(pos + 8, keyLen);
      }
    }

    /** Flips the flag in place and nothing else. */
    method SetDelete(pos: nat, deleted: bool, ghost i: nat)
      requires Valid() && i < |Log()| && pos == RecPos(Log(), i)
      modifies this, raf
      ensures Valid() && Log() == old(Log())[i := old(Log())[i].(deleted := deleted)]
      ensures old(UpToDate()) ==> UpToDate()
      ensures |old(raf.log)| <= |raf.log| && Length() == old(Length())
      ensures forall k :: 0 <= k <= |Log()| ==> RecPos(Log(), k) == old(RecPos(Log(), k))
    {
      hide Put, Slots, FileOf, Pos, RecPos, Enc, Written;
      Flush();
      ghost var log := raf.log;
      assert log == Log();
      FlipFlag(log, i, deleted);
      RecordIsThere(i);
      raf.WriteAt(pos, EncBool(deleted));
      raf.log := log[i := log[i].(deleted := deleted)];
      assert Log() == raf.log;
    }
  }
}
