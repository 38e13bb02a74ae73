/** The bytes of known records, one per format, with every number written out: the order of the
    fields, their widths and the type codes do not rest on the readers that undo them. */
module KnownBytes {
  import opened Endian
  import opened DataStream
  import opened Layout
  import V = Values
  import X = XLogPack
  import P = Packs
  import D = Datagrams
  import K = KeyFile
  import K2 = KeyFile2
  import H = HashBlock
  import T = TextStore
  import C = DailyCounter

  // ----- integers ------------------------------------------------------------------------

  /** Every byte of a big-endian integer. */
  lemma {:induction false} PutByte(n: nat, v: int, i: nat)
    requires i < n
    ensures Put(n, v)[i] == v / Pow256(n - 1 - i) % 0x100
  {
    if i < n - 1 {
      PutByte(n - 1, v / 0x100, i);
      assert Put(n, v)[i] == Put(n - 1, v / 0x100)[i];
      Quotients(v, Pow256(n - 2 - i));
    } else {
      assert Pow256(0) == 1;
    }
  }

  lemma Quotients(v: int, p: nat)
    requires p > 0
    ensures v / 0x100 / p == v / (0x100 * p)
  {
    var q, r := v / 0x100, v % 0x100;
    var k, s := q / p, q % p;
    assert v == 0x100 * q + r && q == p * k + s;
    var t := 0x100 * s + r;
    assert 0 <= t < 0x100 * p;
    assert 0x100 * (p * k) == 0x100 * p * k;
    Remainder(0x100 * p, k, t);
    var d := 0x100 * p;
    assert v == d * k + t && v == d * (v / d) + v % d;
    assert d * (k - v / d) == d * k - d * (v / d);
    Grows(d, k - v / d);
  }

  lemma Short(v: int)
    ensures Put(0, v) == [] && Put(1, v) == [v % 0x100]
    ensures Put(2, v) == [v / 0x100 % 0x100, v % 0x100]
    ensures Put(3, v) == [v / 0x1_0000 % 0x100, v / 0x100 % 0x100, v % 0x100]
  {
    PutInts(v);
    assert Put(0, v) == [] && Put(0, v / 0x100) == [] && Put(1, v / 0x100) == [v / 0x100 % 0x100];
  }

  lemma Four(v: int)
    ensures Put(4, v) == [v / 0x100_0000 % 0x100, v / 0x1_0000 % 0x100, v / 0x100 % 0x100, v % 0x100]
  {
    Short(v / 0x100);
    assert v / 0x100 / 0x1_0000 == v / 0x100_0000 && v / 0x100 / 0x100 == v / 0x1_0000;
    assert Put(4, v) == Put(3, v / 0x100) + [v % 0x100];
  }

  /** Eight bytes of a number that fits in four. */
  lemma Eight(v: nat)
    requires v < 0x100
    ensures Put(8, v) == [0, 0, 0, 0, 0, 0, 0, v]
  {
    Four(0);
    assert Put(5, 0) == Put(4, 0) + [0] && Put(6, 0) == Put(5, 0) + [0] && Put(7, 0) == Put(6, 0) + [0];
    assert Put(8, v) == Put(7, v / 0x100) + [v % 0x100];
  }

  // ----- decimals and blobs --------------------------------------------------------------

  /** The width byte counts the bytes that follow it; each width begins where the one before ends. */
  lemma Decimals()
    ensures EncDecimal(0) == [0]
    ensures EncDecimal(-128) == [1, 0x80] && EncDecimal(127) == [1, 0x7f]
    ensures EncDecimal(-129) == [2, 0xff, 0x7f] && EncDecimal(128) == [2, 0, 0x80]
    ensures EncDecimal(-0x8000) == [2, 0x80, 0] && EncDecimal(0x7fff) == [2, 0x7f, 0xff]
    ensures EncDecimal(-0x8001) == [3, 0xff, 0x7f, 0xff] && EncDecimal(0x8000) == [3, 0, 0x80, 0]
    ensures EncDecimal(-0x80_0000) == [3, 0x80, 0, 0] && EncDecimal(0x7f_ffff) == [3, 0x7f, 0xff, 0xff]
  {
    hide Put;
    Small(-128);
    Small(127);
    Short(-129);
    Short(128);
    Short(-0x8000);
    Short(0x7fff);
    Short(-0x8001);
    Short(0x8000);
    Short(-0x80_0000);
    Short(0x7f_ffff);
    Short(0);
  }

  lemma LongDecimals()
    ensures EncDecimal(-0x80_0001) == [4, 0xff, 0x7f, 0xff, 0xff] && EncDecimal(0x80_0000) == [4, 0, 0x80, 0, 0]
    ensures EncDecimal(-0x8000_0000) == [4, 0x80, 0, 0, 0] && EncDecimal(0x7fff_ffff) == [4, 0x7f, 0xff, 0xff, 0xff]
  {
    hide Put;
    Four(-0x80_0001);
    Four(0x80_0000);
    Four(-0x8000_0000);
    Four(0x7fff_ffff);
  }

  lemma FiveByteDecimals()
    ensures EncDecimal(-0x8000_0001) == [5, 0xff, 0x7f, 0xff, 0xff, 0xff] && EncDecimal(0x8000_0000) == [5, 0, 0x80, 0, 0, 0]
    ensures EncDecimal(-0x80_0000_0000) == [5, 0x80, 0, 0, 0, 0] && EncDecimal(0x7f_ffff_ffff) == [5, 0x7f, 0xff, 0xff, 0xff, 0xff]
  {
    hide Put;
    Five(-0x8000_0001);
    Five(0x8000_0000);
    Five(-0x80_0000_0000);
    Five(0x7f_ffff_ffff);
  }

  lemma WideDecimals()
    ensures EncDecimal(-0x80_0000_0001) == [8] + ([0xff, 0xff, 0xff] + [0x7f, 0xff, 0xff, 0xff, 0xff])
    ensures EncDecimal(0x80_0000_0000) == [8] + ([0, 0, 0] + [0x80, 0, 0, 0, 0])
  {
    hide Put;
    Seven(-0x80_0000_0001);
    Five(-0x80_0000_0001);
    Seven(0x80_0000_0000);
    Five(0x80_0000_0000);
  }

  lemma Five(v: int)
    ensures Put(5, v) == [v / 0x1_0000_0000 % 0x100, v / 0x100_0000 % 0x100, v / 0x1_0000 % 0x100, v / 0x100 % 0x100, v % 0x100]
  {
    PutInts(v);
  }

  lemma Seven(v: int)
    ensures var w := v / 0x100_0000_0000;
      Put(8, v) == [w / 0x1_0000 % 0x100, w / 0x100 % 0x100, w % 0x100] + Put(5, v)
  {
    var v1, v2, v3, v4, v5 := v / 0x100, v / 0x1_0000, v / 0x100_0000, v / 0x1_0000_0000, v / 0x100_0000_0000;
    assert v1 / 0x100 == v2 && v2 / 0x100 == v3 && v3 / 0x100 == v4 && v4 / 0x100 == v5;
    hide Put;
    Short(v5);
    Last(1, v4);
    Last(2, v3);
    Last(3, v2);
    Last(4, v1);
    Last(5, v);
    Last(4, v4);
    Last(5, v3);
    Last(6, v2);
    Last(7, v1);
    Last(8, v);
    Short(v4);
  }

  lemma Last(n: nat, v: int)
    requires n > 0
    ensures Put(n, v) == Put(n - 1, v / 0x100) + [v % 0x100]
  {
  }

  /** A number that fits in one byte. */
  lemma Small(v: int)
    requires -0x80 <= v < 0x80 && v != 0
    ensures EncDecimal(v) == [1, v % 0x100]
  {
    Short(v);
  }

  lemma BlobHeaders(n: nat)
    ensures n <= 253 ==> BlobHeader(n) == [n]
    ensures 254 <= n <= 65535 ==> BlobHeader(n) == [255, n / 0x100, n % 0x100]
    ensures 65536 <= n < 0x1_0000_0000 ==>
      BlobHeader(n) == [254, n / 0x100_0000, n / 0x1_0000 % 0x100, n / 0x100 % 0x100, n % 0x100]
  {
    hide Put;
    Short(n);
    Four(n);
  }

  lemma Known(b: bytes)
    requires |b| <= 253
    ensures EncBlob(b) == [|b|] + b
  {
    BlobHeaders(|b|);
  }

  // ----- values --------------------------------------------------------------------------

  lemma Scalars()
    ensures V.EncValue(V.Null) == [0] && V.EncValue(V.Nil) == [0]
    ensures V.EncValue(V.Boolean(true)) == [10, 1] && V.EncValue(V.Boolean(false)) == [10, 0]
    ensures V.EncValue(V.Decimal(300)) == [20, 2, 1, 44]
    ensures V.EncValue(V.IP4([127, 0, 0, 1])) == [61, 127, 0, 0, 1]
  {
    hide Put;
    Short(300);
  }

  lemma FixedWidths()
    ensures V.EncValue(V.Float(0x3fc0_0000)) == [30, 0x3f, 0xc0, 0, 0]
    ensures V.EncValue(V.Double(9)) == [40, 0, 0, 0, 0, 0, 0, 0, 9]
    ensures V.EncValue(V.TextHash(0x0102_0304)) == [51, 1, 2, 3, 4]
  {
    hide Put;
    Four(0x3fc0_0000);
    Four(0x0102_0304);
    Eight(9);
  }

  lemma Texts()
    ensures V.EncValue(V.Text([72, 105])) == [50, 2, 72, 105]
    ensures V.EncValue(V.Blob([7])) == [60, 1, 7]
  {
    hide BlobHeader, EncBlob;
    Known([72, 105]);
    Known([7]);
  }

  lemma Summaries()
    ensures V.EncValue(V.DoubleSummary(1, 2, 3, 4)) ==
      [45] + [0, 0, 0, 0, 0, 0, 0, 1] + [0, 0, 0, 2] + [0, 0, 0, 0, 0, 0, 0, 3] + [0, 0, 0, 0, 0, 0, 0, 4]
    ensures V.EncValue(V.LongSummary(1, 2, 3, 4)) ==
      [46] + [0, 0, 0, 0, 0, 0, 0, 1] + [0, 0, 0, 2] + [0, 0, 0, 0, 0, 0, 0, 3] + [0, 0, 0, 0, 0, 0, 0, 4]
  {
    hide Put;
    Eight(1);
    Four(2);
    Eight(3);
    Eight(4);
  }

  lemma ListBytes()
    ensures V.EncValue(V.List([V.Boolean(true), V.Null])) == [70, 1, 2, 10, 1, 0]
  {
    hide Put, EncDecimal;
    Small(2);
    var items := [V.Boolean(true), V.Null];
    assert items[1..] == [V.Null] && [V.Null][1..] == [];
    assert V.EncValues([V.Null]) == [0];
    assert V.EncValues(items) == [10, 1] + [0];
  }

  lemma MapBytes()
    ensures V.EncValue(V.Map([V.Entry([65], V.Boolean(true)), V.Entry([], V.Null)])) == [80, 1, 2, 1, 65, 10, 1, 0, 0]
  {
    hide Put, EncDecimal, EncBlob;
    Small(2);
    Known([65]);
    Known([]);
    var first, second := V.Entry([65], V.Boolean(true)), V.Entry([], V.Null);
    assert [first, second][1..] == [second] && [second][1..] == [];
    assert V.EncEntries([second]) == [0] + [0];
    assert V.EncEntries([first, second]) == [1, 65] + ([10, 1] + [0, 0]);
  }

  /** Arrays have a two-byte count. */
  lemma IntArrays()
    ensures V.EncValue(V.IntArray([5, -1])) == [71, 0, 2, 0, 0, 0, 5, 0xff, 0xff, 0xff, 0xff]
  {
    hide Put, EncArray;
    Short(2);
    Four(5);
    Four(-1);
    TwoOf<int32>(5, -1, PutInt32);
  }

  lemma OtherArrays()
    ensures V.EncValue(V.FloatArray([6])) == [72, 0, 1, 0, 0, 0, 6]
    ensures V.EncValue(V.LongArray([7])) == [74, 0, 1, 0, 0, 0, 0, 0, 0, 0, 7]
  {
    hide Put, EncArray;
    Short(1);
    Four(6);
    Eight(7);
    OneOf<int32>(6, PutInt32);
    OneOf<int64>(7, PutInt64);
  }

  lemma TextArrays()
    ensures V.EncValue(V.TextArray([[65], []])) == [73, 0, 2, 1, 65, 0]
  {
    hide Put, BlobHeader, EncArray, EncBlob;
    Short(2);
    Known([65]);
    Known([]);
    TwoOf<bytes>([65], [], EncBlob);
  }

  lemma OneOf<A>(x: A, enc: A -> bytes)
    ensures EncArray([x], enc) == Put(2, 1) + enc(x)
  {
    assert [x][1..] == [];
    NoneLeft(enc);
    assert EncAll([x], enc) == enc(x) + [];
  }

  lemma NoneLeft<A>(enc: A -> bytes)
    ensures EncAll([], enc) == []
  {
  }

  lemma TwoOf<A>(x: A, y: A, enc: A -> bytes)
    ensures EncArray([x, y], enc) == Put(2, 2) + (enc(x) + enc(y))
  {
    OneOf(y, enc);
    NoneLeft(enc);
    assert [x, y][1..] == [y] && [y][1..] == [];
    assert EncAll([y], enc) == enc(y) + [];
    assert EncAll([x, y], enc) == enc(x) + EncAll([y], enc);
  }

  // ----- a transaction record ------------------------------------------------------------

  /** A record whose fields count through from 1. */
  const XLOG: X.XLog := X.XLog(
    X.Head(1, 2, 3, 4, 5, 6, 7),
    X.Costs(8, 9, 10, 11, [12], 13),
    X.Client(14, 15, 16, 17, 18, 19, 20),
    X.Place([21], 22),
    X.Kind(23),
    X.User(24, 25),
    X.Web(26, 27),
    X.Dump(28),
    X.Thread(29),
    X.Texts([30], [31]),
    X.Queuing(32, 33, 34, 35),
    X.MoreTexts([36], [37], [38]),
    X.Profile(39),
    X.B3(true),
    X.Discard(40, 41, false))

  lemma HeadBytes()
    ensures X.EncHead(X.Head(1, 2, 3, 4, 5, 6, 7)) ==
      [1, 1] + [1, 2] + [1, 3] + [0, 0, 0, 0, 0, 0, 0, 4] + [0, 0, 0, 0, 0, 0, 0, 5] + [0, 0, 0, 0, 0, 0, 0, 6] + [1, 7]
  {
    hide Put, EncDecimal, X.EncHead;
    HeadParts(X.Head(1, 2, 3, 4, 5, 6, 7));
    Small(1);
    Small(2);
    Small(3);
    Eight(4);
    Eight(5);
    Eight(6);
    Small(7);
  }

  lemma HeadParts(h: X.Head)
    ensures X.EncHead(h) == EncDecimal(h.endTime) + EncDecimal(h.objHash) + EncDecimal(h.service) + Put(8, h.txid)
      + Put(8, h.caller) + Put(8, h.gxid) + EncDecimal(h.elapsed)
  {
  }

  lemma CostsBytes()
    ensures X.EncCosts(X.Costs(8, 9, 10, 11, [12], 13)) ==
      [1, 8, 1, 9, 1, 10, 1, 11, 1, 12, 1, 13]
  {
    hide Put, BlobHeader, EncDecimal;
    Small(8);
    Small(9);
    Small(10);
    Small(11);
    Known([12]);
    Small(13);
  }

  lemma ClientBytes()
    ensures X.EncClient(X.Client(14, 15, 16, 17, 18, 19, 20)) ==
      [1, 14, 1, 15, 1, 16, 1, 17, 1, 18, 1, 19, 1, 20]
  {
    hide Put, BlobHeader, EncDecimal;
    Small(14);
    Small(15);
    Small(16);
    Small(17);
    Small(18);
    Small(19);
    Small(20);
  }

  lemma EarlyGroups()
    ensures X.EncPlace(X.Place([21], 22)) ==
      [1, 21, 1, 22]
    ensures X.EncKind(X.Kind(23)) ==
      [23]
    ensures X.EncUser(X.User(24, 25)) ==
      [1, 24, 1, 25]
    ensures X.EncWeb(X.Web(26, 27)) ==
      [1, 26, 1, 27]
    ensures X.EncDump(X.Dump(28)) ==
      [28]
    ensures X.EncThread(X.Thread(29)) ==
      [1, 29]
  {
    hide Put, BlobHeader, EncDecimal;
    Known([21]);
    Small(22);
    Small(24);
    Small(25);
    Small(26);
    Small(27);
    Small(29);
  }

  lemma LateGroups()
    ensures X.EncTexts(X.Texts([30], [31])) ==
      [1, 30, 1, 31]
    ensures X.EncQueuing(X.Queuing(32, 33, 34, 35)) ==
      [1, 32, 1, 33, 1, 34, 1, 35]
    ensures X.EncMoreTexts(X.MoreTexts([36], [37], [38])) ==
      [1, 36, 1, 37, 1, 38]
    ensures X.EncProfile(X.Profile(39)) ==
      [1, 39]
    ensures X.EncB3(X.B3(true)) ==
      [1]
    ensures X.EncDiscard(X.Discard(40, 41, false)) ==
      [1, 40, 41, 0]
  {
    hide Put, BlobHeader, EncDecimal;
    Known([30]);
    Known([31]);
    Small(32);
    Small(33);
    Small(34);
    Small(35);
    Known([36]);
    Known([37]);
    Known([38]);
    Small(39);
    Small(40);
  }

  /** The record is a blob of 99 bytes: the fields in this order. */
  lemma RecordBytes()
    ensures X.EncXLog(XLOG) == [99] + (
      [1, 1] + [1, 2] + [1, 3] + [0, 0, 0, 0, 0, 0, 0, 4] + [0, 0, 0, 0, 0, 0, 0, 5] + [0, 0, 0, 0, 0, 0, 0, 6] + [1, 7]
      + [1, 8, 1, 9, 1, 10, 1, 11, 1, 12, 1, 13]
      + [1, 14, 1, 15, 1, 16, 1, 17, 1, 18, 1, 19, 1, 20]
      + [1, 21, 1, 22]
      + [23]
      + [1, 24, 1, 25]
      + [1, 26, 1, 27]
      + [28]
      + [1, 29]
      + [1, 30, 1, 31]
      + [1, 32, 1, 33, 1, 34, 1, 35]
      + [1, 36, 1, 37, 1, 38]
      + [1, 39]
      + [1]
      + [1, 40, 41, 0])
  {
    hide Put, BlobHeader, EncDecimal, EncBlob, X.EncHead, X.EncCosts, X.EncClient, X.EncPlace, X.EncKind, X.EncUser, X.EncWeb, X.EncDump,
      X.EncThread, X.EncTexts, X.EncQueuing, X.EncMoreTexts, X.EncProfile, X.EncB3, X.EncDiscard;
    HeadBytes();
    CostsBytes();
    ClientBytes();
    EarlyGroups();
    LateGroups();
    GroupOrder(XLOG);
    hide X.EncUpTo, X.EncXLog;
    Known(X.EncUpTo(XLOG, 12));
  }

  lemma GroupOrder(x: X.XLog)
    ensures X.EncUpTo(x, 12) ==
      X.EncHead(x.head) + X.EncCosts(x.costs) + X.EncClient(x.client)
      + X.EncPlace(x.place) + X.EncKind(x.kind) + X.EncUser(x.user) + X.EncWeb(x.web) + X.EncDump(x.dump) + X.EncThread(x.thread)
      + X.EncTexts(x.texts) + X.EncQueuing(x.queuing) + X.EncMoreTexts(x.moreTexts) + X.EncProfile(x.profile) + X.EncB3(x.b3)
      + X.EncDiscard(x.discard)
    ensures X.EncXLog(x) == EncBlob(X.EncUpTo(x, 12))
  {
    hide Put, BlobHeader, EncDecimal, EncBlob, X.EncHead, X.EncCosts, X.EncClient, X.EncPlace, X.EncKind, X.EncUser, X.EncWeb, X.EncDump,
      X.EncThread, X.EncTexts, X.EncQueuing, X.EncMoreTexts, X.EncProfile, X.EncB3, X.EncDiscard;
    NoGroup(x);
    hide X.EncUpTo, X.EncXLog;
    NextGroup(x, 1);
    NextGroup(x, 2);
    NextGroup(x, 3);
    NextGroup(x, 4);
    NextGroup(x, 5);
    NextGroup(x, 6);
    NextGroup(x, 7);
    NextGroup(x, 8);
    NextGroup(x, 9);
    NextGroup(x, 10);
    NextGroup(x, 11);
    NextGroup(x, 12);
  }

  lemma NoGroup(x: X.XLog)
    ensures X.EncUpTo(x, 0) == X.EncHead(x.head) + X.EncCosts(x.costs) + X.EncClient(x.client)
    ensures X.EncXLog(x) == EncBlob(X.EncUpTo(x, 12))
  {
  }

  lemma NextGroup(x: X.XLog, k: nat)
    requires k > 0
    ensures X.EncUpTo(x, k) == X.EncUpTo(x, k - 1) + X.EncGroup(x, k)
  {
  }

  // ----- packs and frames ----------------------------------------------------------------

  lemma PackBytes(x: X.XLog)
    ensures P.EncPack(P.MapPack([V.Entry([65], V.Boolean(true))])) == [10, 1, 1, 1, 65, 10, 1]
    ensures P.EncPack(P.XLog(x)) == [21] + X.EncXLog(x)
  {
    hide Put, EncDecimal, EncBlob, X.EncXLog;
    Small(1);
    Known([65]);
    var e := V.Entry([65], V.Boolean(true));
    assert [e][1..] == [];
    assert V.EncEntries([e]) == [1, 65] + ([10, 1] + []);
  }

  lemma FrameBytes()
    ensures D.EncMtu(D.Mtu(0x0102_0304, 5, 0x0607, 0x0809, [10])) ==
      [1, 2, 3, 4] + [0, 0, 0, 0, 0, 0, 0, 5] + [6, 7] + [8, 9] + [1, 10]
  {
    hide Put, BlobHeader;
    Four(0x0102_0304);
    Eight(5);
    Short(0x0607);
    Short(0x0809);
    Known([10]);
  }

  // ----- files ---------------------------------------------------------------------------

  lemma KeyRecordBytes()
    ensures K.Enc(K.Rec(true, 0x01_0203_0405, [6], [7, 8])) == [1] + [1, 2, 3, 4, 5] + [0, 1] + [6] + [2, 7, 8]
    ensures K.Enc(K.Rec(false, 0, [], [])) == [0] + [0, 0, 0, 0, 0] + [0, 0] + [0]
    ensures FileOf([]) == [0xca, 0xfe]
  {
    hide Put, BlobHeader;
    Five(0x01_0203_0405);
    Five(0);
    Short(0);
    Short(1);
    Known([7, 8]);
    Known([]);
  }

  const TTL_RECORD := K2.Rec2(true, 0x01_0203_0405, 0x06_0708_090a, [11], [12, 13])

  lemma TtlRecordBytes()
    ensures K2.Enc(TTL_RECORD) == [1] + [1, 2, 3, 4, 5] + ([6, 7, 8, 9, 10] + [0, 1] + [11] + [2, 12, 13])
  {
    TtlTailBytes();
    hide Put, EncBlob, K2.Tail;
    Five(0x01_0203_0405);
  }

  lemma TtlTailBytes()
    ensures K2.Tail(TTL_RECORD) == [6, 7, 8, 9, 10] + [0, 1] + [11] + [2, 12, 13]
  {
    hide Put, EncBlob;
    Five(0x06_0708_090a);
    Short(1);
    Known([12, 13]);
  }

  lemma TextBytes(a: bytes, b: bytes)
    requires |a| < 0x100 && |b| < 0x100
    ensures Flat(T.TextSlots([a, b])) == [0, 0, 0, |a|] + a + ([0, 0, 0, |b|] + b)
  {
    hide Put;
    Four(|a|);
    Four(|b|);
    var s: seq<bytes> := T.TextSlots([a, b]);
    assert s[..1][..0] == [] && s[..1] == [s[0]];
    assert Flat(s[..1]) == [] + s[0];
  }

  lemma KeyBytes()
    ensures T.HashKey(0x0102_0304) == [1, 2, 3, 4]
    ensures C.CounterKey(0x0102_0304, 0x0506_0708) == [1, 2, 3, 4, 5, 6, 7, 8]
  {
    hide Put;
    Four(0x0102_0304);
    Four(0x0506_0708);
  }

  /** The tables: where a bucket and a counter's five minutes stand, and which bucket a hash has. */
  lemma Positions(data: bytes, b: nat, i: nat, c: nat, hash: int32, capacity: nat)
    requires capacity > 0
    ensures 1024 + 5 * b + 5 <= |data| ==> b < |H.HeadsIn(data)| && H.HeadsIn(data)[b] == Signed(data[1024 + 5 * b..1024 + 5 * b + 5])
    ensures |H.HeadsIn(data)| == if |data| < 1024 then 0 else (|data| - 1024) / 5
    ensures H.BucketOf(hash, capacity) == (if hash >= 0 then hash else hash + 0x8000_0000) % capacity
    ensures C.CellPos(i, c) == i * 2306 + 2 + c * 8
  {
    hide Signed, Int5;
    if 1024 + 5 * b + 5 <= |data| {
      var head := data[1024 + 5 * b..1024 + 5 * b + 5];
      IntsAreSigned(head);
      assert head[..5] == head;
    }
  }

  /** The first read of a record takes 128 bytes. */
  lemma ReadableIff(r: K.Rec)
    ensures K.Readable(r) <==> 8 + |r.key| + (if |r.val| <= 253 then 1 else if |r.val| <= 65535 then 3 else 5) <= 128
  {
    hide Put;
  }
}
