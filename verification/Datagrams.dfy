/** Datagrams of the UDP port: one pack, several packs, or a piece of a split pack
    (internal/netio/udp/processor.go). */
module Datagrams {
  import opened Endian
  import opened DataStream
  import opened Results
  import opened Packs

  const UDP_CAFE: int32 := 0x4341_4645
  const UDP_CAFE_N: int32 := 0x4341_464e
  const UDP_CAFE_MTU: int32 := 0x4341_464d
  const UDP_JAVA: int32 := 0x4a41_5641
  const UDP_JAVA_N: int32 := 0x4a41_564e
  const UDP_JAVA_MTU: int32 := 0x4a4d_5455

  datatype Mtu = Mtu(objHash: int32, pkid: int64, total: int16, num: int16, data: bytes)

  // ----- frames --------------------------------------------------------------------------

  function EncMtu(m: Mtu): bytes {
    Put(4, m.objHash) + (Put(8, m.pkid) + (Put(2, m.total) + (Put(2, m.num) + EncBlob(m.data))))
  }

  function MtuAt(buf: bytes, off: nat): Parsed<Mtu> {
    var (objHash, o1) :- Int32At(buf, off);
    var (pkid, o2) :- Int64At(buf, o1);
    var (total, o3) :- Int16At(buf, o2);
    var (num, o4) :- Int16At(buf, o3);
    var (data, o5) :- BlobAt(buf, o4);
    Parsed(Ok(Mtu(objHash, pkid, total, num, data)), o5)
  }

  lemma MtuRoundTrip(buf: bytes, off: nat, m: Mtu)
    requires |m.data| < 0x8000_0000 && At(buf, off, EncMtu(m))
    ensures MtuAt(buf, off) == Parsed(Ok(m), off + |EncMtu(m)|)
  {
    hide At, Put, EncBlob, Int32At, Int64At, Int16At, BlobAt;
    var d := EncBlob(m.data);
    var c := Put(2, m.num) + d;
    var b := Put(2, m.total) + c;
    var a := Put(8, m.pkid) + b;
    AtConcat(buf, off, Put(4, m.objHash), a);
    AtConcat(buf, off + 4, Put(8, m.pkid), b);
    AtConcat(buf, off + 12, Put(2, m.total), c);
    AtConcat(buf, off + 14, Put(2, m.num), d);
    Int32RoundTrip(buf, off, m.objHash);
    Int64RoundTrip(buf, off + 4, m.pkid);
    Int16RoundTrip(buf, off + 12, m.total);
    Int16RoundTrip(buf, off + 14, m.num);
    BlobRoundTrip(buf, off + 16, m.data);
  }

  function EncPacks(packs: seq<Pack>): bytes {
    if packs == [] then [] else EncPack(packs[0]) + EncPacks(packs[1..])
  }

  /** At most n packs, up to the first that cannot be read. */
  function PacksAt(n: nat, buf: bytes, off: nat): seq<Pack> {
    if n == 0 then []
    else
      match PackAt(buf, off)
      case Parsed(Ok(p), o) => [p] + PacksAt(n - 1, buf, o)
      case Parsed(Err(_), _) => []
  }

  function NormAll(packs: seq<Pack>): (r: seq<Pack>)
    ensures |r| == |packs| && forall i :: 0 <= i < |packs| ==> r[i] == Norm(packs[i])
  {
    seq(|packs|, i requires 0 <= i < |packs| => Norm(packs[i]))
  }

  lemma {:induction false} PacksRoundTrip(buf: bytes, off: nat, packs: seq<Pack>)
    requires (forall p :: p in packs ==> WithinLimits(p)) && At(buf, off, EncPacks(packs))
    ensures PacksAt(|packs|, buf, off) == NormAll(packs)
    decreases |packs|
  {
    hide At, EncPack, PackAt, Norm, WithinLimits;
    if packs != [] {
      AtConcat(buf, off, EncPack(packs[0]), EncPacks(packs[1..]));
      PackRoundTrip(buf, off, packs[0]);
      PacksRoundTrip(buf, off + |EncPack(packs[0])|, packs[1..]);
      assert NormAll(packs) == [Norm(packs[0])] + NormAll(packs[1..]);
    }
  }

  /** The packs that a datagram of the first two kinds carries. */
  function Carried(data: bytes): seq<Pack> {
    match Int32At(data, 0)
    case Parsed(Err(_), _) => []
    case Parsed(Ok(cafe), o) =>
      if cafe == UDP_CAFE || cafe == UDP_JAVA then PacksAt(1, data, o)
      else if cafe == UDP_CAFE_N || cafe == UDP_JAVA_N then
        match Int16At(data, o)
        case Parsed(Err(_), _) => []
        case Parsed(Ok(n), o2) => if n < 0 then [] else PacksAt(n, data, o2)
      else []
  }

  predicate IsMtu(data: bytes) {
    var cafe := Int32At(data, 0).result;
    cafe == Ok(UDP_CAFE_MTU) || cafe == Ok(UDP_JAVA_MTU)
  }

  /** A datagram with one pack carries that pack, whatever follows it. */
  lemma OnePack(p: Pack, rest: bytes)
    requires WithinLimits(p)
    ensures Carried(Put(4, 0x4341_4645) + (EncPack(p) + rest)) == [Norm(p)]
    ensures Carried(Put(4, 0x4a41_5641) + (EncPack(p) + rest)) == [Norm(p)]
  {
    PackAfter(0x4341_4645, p, rest);
    PackAfter(0x4a41_5641, p, rest);
  }

  lemma PackAfter(magic: int32, p: Pack, rest: bytes)
    requires WithinLimits(p)
    ensures var data := Put(4, magic) + (EncPack(p) + rest);
      Int32At(data, 0) == Parsed(Ok(magic), 4) && PacksAt(1, data, 4) == [Norm(p)]
  {
    hide At, Put, EncPack, Int32At, PackAt, WithinLimits, Norm;
    var data := Put(4, magic) + (EncPack(p) + rest);
    WholeAt(data);
    AtConcat(data, 0, Put(4, magic), EncPack(p) + rest);
    AtConcat(data, 4, EncPack(p), rest);
    Int32RoundTrip(data, 0, magic);
    PackRoundTrip(data, 4, p);
  }

  /** Up to 32767 packs in one datagram are dispatched in order. */
  lemma ManyPacks(packs: seq<Pack>)
    requires |packs| <= 32767 && forall p :: p in packs ==> WithinLimits(p)
    ensures Carried(Put(4, 0x4341_464e) + (Put(2, |packs|) + EncPacks(packs))) == NormAll(packs)
    ensures Carried(Put(4, 0x4a41_564e) + (Put(2, |packs|) + EncPacks(packs))) == NormAll(packs)
  {
    hide PacksAt, NormAll, EncPacks, Put, Int32At, Int16At, WithinLimits;
    PacksAfter(0x4341_464e, packs);
    PacksAfter(0x4a41_564e, packs);
  }

  lemma PacksAfter(magic: int32, packs: seq<Pack>)
    requires |packs| <= 32767 && forall p :: p in packs ==> WithinLimits(p)
    ensures var data := Put(4, magic) + (Put(2, |packs|) + EncPacks(packs));
      && Int32At(data, 0) == Parsed(Ok(magic), 4) && Int16At(data, 4) == Parsed(Ok(|packs|), 6)
      && PacksAt(|packs|, data, 6) == NormAll(packs)
  {
    hide At, Put, EncPacks, Int32At, Int16At, PacksAt, WithinLimits, Norm, NormAll;
    var data := Put(4, magic) + (Put(2, |packs|) + EncPacks(packs));
    WholeAt(data);
    AtConcat(data, 0, Put(4, magic), Put(2, |packs|) + EncPacks(packs));
    AtConcat(data, 4, Put(2, |packs|), EncPacks(packs));
    Int32RoundTrip(data, 0, magic);
    Int16RoundTrip(data, 4, |packs|);
    PacksRoundTrip(data, 6, packs);
  }

  /** The piece in a datagram of the third kind, unless its header cannot be read. */
  function MtuOf(data: bytes): Option<Mtu> {
    if !IsMtu(data) then None
    else match MtuAt(data, 4).result case Ok(m) => Some(m) case Err(_) => None
  }

  /** A piece of a payload comes out of its datagram. */
  lemma PieceIsRead(m: Mtu)
    requires |m.data| < 0x8000_0000
    ensures MtuOf(Put(4, 0x4341_464d) + EncMtu(m)) == Some(m)
    ensures MtuOf(Put(4, 0x4a4d_5455) + EncMtu(m)) == Some(m)
  {
    hide At, Put, Int32At, EncMtu, MtuAt;
    PieceAfter(0x4341_464d, m);
    PieceAfter(0x4a4d_5455, m);
  }

  lemma PieceAfter(magic: int32, m: Mtu)
    requires |m.data| < 0x8000_0000
    ensures var data := Put(4, magic) + EncMtu(m);
      Int32At(data, 0).result == Ok(magic) && MtuAt(data, 4).result == Ok(m)
  {
    hide At, Put, Int32At, EncMtu, MtuAt;
    var data := Put(4, magic) + EncMtu(m);
    WholeAt(data);
    AtConcat(data, 0, Put(4, magic), EncMtu(m));
    Int32RoundTrip(data, 0, magic);
    MtuRoundTrip(data, 4, m);
  }

  /** The first four bytes as letters. */
  predicate Starts(data: bytes, letters: string) {
    |data| >= 4 && |letters| == 4 && forall i :: 0 <= i < 4 ==> data[i] == letters[i] as int
  }

  /** The kind of a datagram is in its first four bytes; any other datagram carries nothing. */
  lemma Kinds(data: bytes)
    ensures IsMtu(data) <==> Starts(data, "CAFM") || Starts(data, "JMTU")
    ensures Carried(data) != [] ==>
      Starts(data, "CAFE") || Starts(data, "JAVA") || Starts(data, "CAFN") || Starts(data, "JAVN")
  {
    hide PacksAt, Int16At, Int32At, Starts;
    MagicIs(data, UDP_CAFE, "CAFE");
    MagicIs(data, UDP_JAVA, "JAVA");
    MagicIs(data, UDP_CAFE_N, "CAFN");
    MagicIs(data, UDP_JAVA_N, "JAVN");
    MagicIs(data, UDP_CAFE_MTU, "CAFM");
    MagicIs(data, UDP_JAVA_MTU, "JMTU");
  }

  lemma MagicIs(data: bytes, magic: int32, letters: string)
    requires |letters| == 4 && forall i :: 0 <= i < 4 ==> letters[i] as int < 0x80
    requires magic as int
      == letters[0] as int * 0x100_0000 + letters[1] as int * 0x1_0000 + letters[2] as int * 0x100 + letters[3] as int
    ensures Int32At(data, 0).result == Ok(magic) <==> Starts(data, letters)
  {
    if |data| >= 4 {
      FirstFour(data);
      SameDigits(data[0], data[1], data[2], data[3],
        letters[0] as int, letters[1] as int, letters[2] as int, letters[3] as int);
      hide Int32At;
      assert Starts(data, letters) <==>
        data[0] == letters[0] as int && data[1] == letters[1] as int && data[2] == letters[2] as int && data[3] == letters[3] as int;
    }
  }

  lemma FirstFour(data: bytes)
    requires |data| >= 4
    ensures var u := data[0] as int * 0x100_0000 + data[1] as int * 0x1_0000 + data[2] as int * 0x100 + data[3];
      Int32At(data, 0).result == Ok(if u >= 0x8000_0000 then u - 0x1_0000_0000 else u)
  {
    hide Unsigned;
    PowValues();
    UnsignedFour(data);
  }

  lemma SameDigits(a: byte, b: byte, c: byte, d: byte, e: byte, f: byte, g: byte, h: byte)
    ensures a as int * 0x100_0000 + b as int * 0x1_0000 + c as int * 0x100 + d == e as int * 0x100_0000 + f as int * 0x1_0000 + g as int * 0x100 + h
      <==> a == e && b == f && c == g && d == h
  {
  }

  lemma UnsignedFour(data: bytes)
    requires |data| >= 4
    ensures Unsigned(data[0..4]) == data[0] as int * 0x100_0000 + data[1] as int * 0x1_0000 + data[2] as int * 0x100 + data[3]
  {
    assert data[0..4][..3] == data[..3];
    UnsignedThree(data);
  }
}
