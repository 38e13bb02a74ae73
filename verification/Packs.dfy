/** Packs behind their type code (internal/protocol/pack/pack.go, map_pack.go). */
module Packs {
  import opened Endian
  import opened DataStream
  import opened Results
  import V = Values
  import X = XLogPack

  const PACK_TYPE_MAP: byte := 10
  const PACK_TYPE_XLOG: byte := 21

  datatype Pack = MapPack(table: seq<V.Entry>) | XLog(xlog: X.XLog)

  function PackType(p: Pack): byte {
    if p.MapPack? then PACK_TYPE_MAP else PACK_TYPE_XLOG
  }

  function EncPack(p: Pack): (b: bytes)
    ensures |b| > 0
  {
    match p
    case MapPack(table) => [PACK_TYPE_MAP] + (EncDecimal(|table|) + V.EncEntries(table))
    case XLog(x) => [PACK_TYPE_XLOG] + X.EncXLog(x)
  }

  function PackAt(buf: bytes, off: nat): (p: Parsed<Pack>)
  {
    var (code, o) :- ByteAt(buf, off);
    if code == PACK_TYPE_MAP then
      var (n, o2) :- DecimalAt(buf, o);
      if n < 0 then Parsed(Err(Panicked), o2) else V.EntriesAt(n, buf, o2).Map(t => MapPack(t))
    else if code == PACK_TYPE_XLOG then X.XLogAt(buf, o, X.ZERO).Map(x => XLog(x))
    else Parsed(Err(UnknownType(code)), o)
  }

  predicate WithinLimits(p: Pack) {
    match p
    case MapPack(table) => |table| < 0x8000_0000_0000_0000 && V.EntriesWithin(table)
    case XLog(x) => |X.EncUpTo(x, X.GROUPS)| < 0x8000_0000
  }

  /** What comes back: nil values in a map pack return as nulls. */
  function Norm(p: Pack): Pack {
    if p.MapPack? then MapPack(V.NormEntries(p.table)) else p
  }

  /** Reading a written pack returns it and stops at its end, whatever follows. */
  lemma PackRoundTrip(buf: bytes, off: nat, p: Pack)
    requires WithinLimits(p) && At(buf, off, EncPack(p))
    ensures PackAt(buf, off) == Parsed(Ok(Norm(p)), off + |EncPack(p)|)
  {
    hide At, DecimalAt, EncDecimal, V.EntriesAt, V.EncEntries, V.EntriesWithin, V.NormEntries, X.XLogAt, X.EncXLog, X.EncUpTo;
    var code := [PackType(p)];
    match p
    case MapPack(table) =>
      AtConcat(buf, off, code, EncDecimal(|table|) + V.EncEntries(table));
      AtConcat(buf, off + 1, EncDecimal(|table|), V.EncEntries(table));
      CodeAt(buf, off, PACK_TYPE_MAP);
      DecimalRoundTrip(buf, off + 1, |table|);
      V.EntriesRoundTrip(buf, off + 1 + |EncDecimal(|table|)|, table);
    case XLog(x) =>
      AtConcat(buf, off, code, X.EncXLog(x));
      CodeAt(buf, off, PACK_TYPE_XLOG);
      X.XLogRoundTrip(buf, off + 1, x, X.ZERO);
  }

  lemma CodeAt(buf: bytes, off: nat, code: byte)
    requires At(buf, off, [code])
    ensures ByteAt(buf, off) == Parsed(Ok(code), off + 1)
  {
    AtIndex(buf, off, [code], 0);
  }

  /** The filter of an xlog pack sees the pack's own fields. */
  lemma FilterOfPack(x: X.XLog)
    requires WithinLimits(XLog(x))
    ensures X.FilterAt(EncPack(XLog(x))).result == Ok((x.head.objHash, x.head.elapsed))
  {
    hide At, X.XLogAt, X.EncXLog, X.EncUpTo, X.FilterAt;
    var data := EncPack(XLog(x));
    WholeAt(data);
    AtConcat(data, 0, [PACK_TYPE_XLOG], X.EncXLog(x));
    X.XLogRoundTrip(data, 1, x, X.ZERO);
    X.FilterAgrees(data, X.ZERO);
  }

  lemma WholeAt(data: bytes)
    ensures At(data, 0, data)
  {
  }

  method WriteMapPack(o: DataOutputX, table: seq<V.Entry>)
    requires o.Valid()
    modifies o
    ensures o.Valid() && o.buf == old(o.buf) + (EncDecimal(|table|) + V.EncEntries(table))
  {
    hide EncDecimal, V.EncEntries;
    o.WriteDecimal(|table|);
    V.WriteEntries(o, table);
  }

  method WritePackMap(o: DataOutputX, table: seq<V.Entry>)
    requires o.Valid()
    modifies o
    ensures o.Valid() && o.buf == old(o.buf) + EncPack(MapPack(table))
  {
    hide EncDecimal, V.EncEntries;
    o.WriteByte(PACK_TYPE_MAP);
    WriteMapPack(o, table);
  }

  method WritePackXLog(o: DataOutputX, p: X.XLogPack)
    requires o.Valid()
    modifies o
    ensures o.Valid() && o.buf == old(o.buf) + EncPack(XLog(p.Value()))
  {
    hide X.EncXLog, X.XLogPack.Value;
    o.WriteByte(PACK_TYPE_XLOG);
    p.Write(o);
  }

  method ReadPack(d: DataInputX) returns (r: Result<Pack, Error>)
    modifies d
    ensures r == PackAt(d.buf, old(d.offset)).result
    ensures r.Ok? ==> d.offset == PackAt(d.buf, old(d.offset)).offset
  {
    hide DecimalAt, V.EntriesAt, X.XLogAt, X.XLogPack.Value;
    var code :- d.ReadByte();
    if code == PACK_TYPE_MAP {
      var count :- d.ReadDecimal();
      if count < 0 {
        return Err(Panicked);
      }
      var table :- V.ReadEntries(d, count);
      r := Ok(MapPack(table));
    } else if code == PACK_TYPE_XLOG {
      var p := new X.XLogPack();
      var done :- p.Read(d);
      r := Ok(XLog(p.Value()));
    } else {
      r := Err(UnknownType(code));
    }
  }
}
