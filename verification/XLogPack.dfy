/** The transaction record of the wire format (internal/protocol/pack/xlog_pack.go).

    The record is written into a buffer of its own, which then travels as one blob. Its first twenty
    fields are always read; the others come in twelve groups, each read only if bytes are left. */
module XLogPack {
  import opened Endian
  import opened DataStream
  import opened Results

  /** The fields that a filter looks at. */
  datatype Head = Head(
    endTime: int64, objHash: int32, service: int32, txid: int64, caller: int64, gxid: int64, elapsed: int32)

  /** The other mandatory fields. */
  datatype Costs = Costs(error: int32, cpu: int32, sqlCount: int32, sqlTime: int32, ipAddr: bytes, kbytes: int32)
  datatype Client = Client(
    status: int32, userid: int64, userAgent: int32, referer: int32, group: int32, apicallCount: int32,
    apicallTime: int32)
  datatype Place = Place(countryCode: bytes, city: int32)
  datatype Kind = Kind(xType: byte)
  datatype User = User(login: int32, desc: int32)
  datatype Web = Web(webHash: int32, webTime: int32)
  datatype Dump = Dump(hasDump: byte)
  datatype Thread = Thread(threadNameHash: int32)
  datatype Texts = Texts(text1: bytes, text2: bytes)
  datatype Queuing = Queuing(
    queuingHostHash: int32, queuingTime: int32, queuing2ndHostHash: int32, queuing2ndTime: int32)
  datatype MoreTexts = MoreTexts(text3: bytes, text4: bytes, text5: bytes)
  datatype Profile = Profile(profileCount: int32)
  datatype B3 = B3(b3Mode: bool)
  datatype Discard = Discard(profileSize: int32, discardType: byte, ignoreGlobalConsequentSampling: bool)

  /** A record, group by group in wire order. */
  datatype XLog = XLog(
    head: Head, costs: Costs, client: Client, place: Place, kind: Kind, user: User, web: Web, dump: Dump,
    thread: Thread, texts: Texts, queuing: Queuing, moreTexts: MoreTexts, profile: Profile, b3: B3, discard: Discard)

  const GROUPS := 12

  // ----- the format ----------------------------------------------------------------------

  function EncHead(h: Head): bytes {
    EncDecimal(h.endTime) + EncDecimal(h.objHash) + EncDecimal(h.service) + Put(8, h.txid)
    + Put(8, h.caller) + Put(8, h.gxid) + EncDecimal(h.elapsed)
  }

  function EncCosts(c: Costs): bytes {
    EncDecimal(c.error) + EncDecimal(c.cpu) + EncDecimal(c.sqlCount) + EncDecimal(c.sqlTime)
    + EncBlob(c.ipAddr) + EncDecimal(c.kbytes)
  }

  function EncClient(c: Client): bytes {
    EncDecimal(c.status) + EncDecimal(c.userid) + EncDecimal(c.userAgent) + EncDecimal(c.referer)
    + EncDecimal(c.group) + EncDecimal(c.apicallCount) + EncDecimal(c.apicallTime)
  }

  function EncPlace(p: Place): bytes {
    EncBlob(p.countryCode) + EncDecimal(p.city)
  }

  function EncKind(k: Kind): bytes {
    [k.xType]
  }

  function EncUser(u: User): bytes {
    EncDecimal(u.login) + EncDecimal(u.desc)
  }

  function EncWeb(w: Web): bytes {
    EncDecimal(w.webHash) + EncDecimal(w.webTime)
  }

  function EncDump(d: Dump): bytes {
    [d.hasDump]
  }

  function EncThread(t: Thread): bytes {
    EncDecimal(t.threadNameHash)
  }

  function EncTexts(t: Texts): bytes {
    EncBlob(t.text1) + EncBlob(t.text2)
  }

  function EncQueuing(q: Queuing): bytes {
    EncDecimal(q.queuingHostHash) + EncDecimal(q.queuingTime) + EncDecimal(q.queuing2ndHostHash) + EncDecimal(q.queuing2ndTime)
  }

  function EncMoreTexts(m: MoreTexts): bytes {
    EncBlob(m.text3) + EncBlob(m.text4) + EncBlob(m.text5)
  }

  function EncProfile(p: Profile): bytes {
    EncDecimal(p.profileCount)
  }

  function EncB3(b: B3): bytes {
    EncBool(b.b3Mode)
  }

  function EncDiscard(d: Discard): bytes {
    EncDecimal(d.profileSize) + [d.discardType] + EncBool(d.ignoreGlobalConsequentSampling)
  }

  /** Optional group j, counted from one. */
  function EncGroup(x: XLog, j: nat): bytes {
    match j
    case 1 => EncPlace(x.place)
    case 2 => EncKind(x.kind)
    case 3 => EncUser(x.user)
    case 4 => EncWeb(x.web)
    case 5 => EncDump(x.dump)
    case 6 => EncThread(x.thread)
    case 7 => EncTexts(x.texts)
    case 8 => EncQueuing(x.queuing)
    case 9 => EncMoreTexts(x.moreTexts)
    case 10 => EncProfile(x.profile)
    case 11 => EncB3(x.b3)
    case 12 => EncDiscard(x.discard)
    case _ => []
  }

  /** The mandatory fields and the first k optional groups. */
  function EncUpTo(x: XLog, k: nat): bytes {
    if k == 0 then EncHead(x.head) + EncCosts(x.costs) + EncClient(x.client) else EncUpTo(x, k - 1) + EncGroup(x, k)
  }

  function EncXLog(x: XLog): bytes {
    EncBlob(EncUpTo(x, GROUPS))
  }

  // ----- what the read means -------------------------------------------------------------

  function HeadAt(buf: bytes, off: nat): Parsed<Head> {
    var (endTime, o1) :- DecimalAt(buf, off);
    var (objHash, o2) :- DecimalAt(buf, o1);
    var (service, o3) :- DecimalAt(buf, o2);
    var (txid, o4) :- Int64At(buf, o3);
    var (caller, o5) :- Int64At(buf, o4);
    var (gxid, o6) :- Int64At(buf, o5);
    var (elapsed, o7) :- DecimalAt(buf, o6);
    Parsed(Ok(Head(endTime, ToInt32(objHash), ToInt32(service), txid, caller, gxid, ToInt32(elapsed))), o7)
  }

  function CostsAt(buf: bytes, off: nat): Parsed<Costs> {
    var (error, o1) :- DecimalAt(buf, off);
    var (cpu, o2) :- DecimalAt(buf, o1);
    var (sqlCount, o3) :- DecimalAt(buf, o2);
    var (sqlTime, o4) :- DecimalAt(buf, o3);
    var (ipAddr, o5) :- BlobAt(buf, o4);
    var (kbytes, o6) :- DecimalAt(buf, o5);
    Parsed(Ok(Costs(
      ToInt32(error), ToInt32(cpu), ToInt32(sqlCount), ToInt32(sqlTime), ipAddr, ToInt32(kbytes))), o6)
  }

  function ClientAt(buf: bytes, off: nat): Parsed<Client> {
    var (status, o1) :- DecimalAt(buf, off);
    var (userid, o2) :- DecimalAt(buf, o1);
    var (userAgent, o3) :- DecimalAt(buf, o2);
    var (referer, o4) :- DecimalAt(buf, o3);
    var (group, o5) :- DecimalAt(buf, o4);
    var (apicallCount, o6) :- DecimalAt(buf, o5);
    var (apicallTime, o7) :- DecimalAt(buf, o6);
    Parsed(Ok(Client(
      ToInt32(status), userid, ToInt32(userAgent), ToInt32(referer), ToInt32(group), ToInt32(apicallCount),
      ToInt32(apicallTime))), o7)
  }

  function PlaceAt(buf: bytes, off: nat, p: Place): Parsed<Place> {
    if off >= |buf| then Parsed(Ok(p), off)
    else
      var (countryCode, o1) :- BlobAt(buf, off);
      var (city, o2) :- DecimalAt(buf, o1);
      Parsed(Ok(Place(countryCode, ToInt32(city))), o2)
  }

  function KindAt(buf: bytes, off: nat, k: Kind): Parsed<Kind> {
    if off >= |buf| then Parsed(Ok(k), off)
    else
      var (xType, o1) :- ByteAt(buf, off);
      Parsed(Ok(Kind(xType)), o1)
  }

  function UserAt(buf: bytes, off: nat, u: User): Parsed<User> {
    if off >= |buf| then Parsed(Ok(u), off)
    else
      var (login, o1) :- DecimalAt(buf, off);
      var (desc, o2) :- DecimalAt(buf, o1);
      Parsed(Ok(User(ToInt32(login), ToInt32(desc))), o2)
  }

  function WebAt(buf: bytes, off: nat, w: Web): Parsed<Web> {
    if off >= |buf| then Parsed(Ok(w), off)
    else
      var (webHash, o1) :- DecimalAt(buf, off);
      var (webTime, o2) :- DecimalAt(buf, o1);
      Parsed(Ok(Web(ToInt32(webHash), ToInt32(webTime))), o2)
  }

  function DumpAt(buf: bytes, off: nat, d: Dump): Parsed<Dump> {
    if off >= |buf| then Parsed(Ok(d), off)
    else
      var (hasDump, o1) :- ByteAt(buf, off);
      Parsed(Ok(Dump(hasDump)), o1)
  }

  function ThreadAt(buf: bytes, off: nat, t: Thread): Parsed<Thread> {
    if off >= |buf| then Parsed(Ok(t), off)
    else
      var (threadNameHash, o1) :- DecimalAt(buf, off);
      Parsed(Ok(Thread(ToInt32(threadNameHash))), o1)
  }

  function TextsAt(buf: bytes, off: nat, t: Texts): Parsed<Texts> {
    if off >= |buf| then Parsed(Ok(t), off)
    else
      var (text1, o1) :- BlobAt(buf, off);
      var (text2, o2) :- BlobAt(buf, o1);
      Parsed(Ok(Texts(text1, text2)), o2)
  }

  function QueuingAt(buf: bytes, off: nat, q: Queuing): Parsed<Queuing> {
    if off >= |buf| then Parsed(Ok(q), off)
    else
      var (queuingHostHash, o1) :- DecimalAt(buf, off);
      var (queuingTime, o2) :- DecimalAt(buf, o1);
      var (queuing2ndHostHash, o3) :- DecimalAt(buf, o2);
      var (queuing2ndTime, o4) :- DecimalAt(buf, o3);
      Parsed(Ok(Queuing(
        ToInt32(queuingHostHash), ToInt32(queuingTime), ToInt32(queuing2ndHostHash), ToInt32(queuing2ndTime))), o4)
  }

  function MoreTextsAt(buf: bytes, off: nat, m: MoreTexts): Parsed<MoreTexts> {
    if off >= |buf| then Parsed(Ok(m), off)
    else
      var (text3, o1) :- BlobAt(buf, off);
      var (text4, o2) :- BlobAt(buf, o1);
      var (text5, o3) :- BlobAt(buf, o2);
      Parsed(Ok(MoreTexts(text3, text4, text5)), o3)
  }

  function ProfileAt(buf: bytes, off: nat, p: Profile): Parsed<Profile> {
    if off >= |buf| then Parsed(Ok(p), off)
    else
      var (profileCount, o1) :- DecimalAt(buf, off);
      Parsed(Ok(Profile(ToInt32(profileCount))), o1)
  }

  function B3At(buf: bytes, off: nat, b: B3): Parsed<B3> {
    if off >= |buf| then Parsed(Ok(b), off)
    else
      var (b3Mode, o1) :- BoolAt(buf, off);
      Parsed(Ok(B3(b3Mode)), o1)
  }

  function DiscardAt(buf: bytes, off: nat, d: Discard): Parsed<Discard> {
    if off >= |buf| then Parsed(Ok(d), off)
    else
      var (profileSize, o1) :- DecimalAt(buf, off);
      var (discardType, o2) :- ByteAt(buf, o1);
      var (ignoreGlobalConsequentSampling, o3) :- BoolAt(buf, o2);
      Parsed(Ok(Discard(ToInt32(profileSize), discardType, ignoreGlobalConsequentSampling)), o3)
  }

  /** A group that is not there keeps what x has. */
  function InnerAt(buf: bytes, x: XLog): Parsed<XLog> {
    var (head, o1) :- HeadAt(buf, 0);
    var (costs, o2) :- CostsAt(buf, o1);
    var (client, o3) :- ClientAt(buf, o2);
    var (y, o4) :- FirstFourAt(buf, o3, x.(head := head, costs := costs, client := client));
    var (z, o5) :- NextFourAt(buf, o4, y);
    LastFourAt(buf, o5, z)
  }

  function FirstFourAt(buf: bytes, off: nat, x: XLog): (p: Parsed<XLog>)
    ensures p.result.Ok? ==> p.result.value.head == x.head
  {
    var (place, o1) :- PlaceAt(buf, off, x.place);
    var (kind, o2) :- KindAt(buf, o1, x.kind);
    var (user, o3) :- UserAt(buf, o2, x.user);
    var (web, o4) :- WebAt(buf, o3, x.web);
    Parsed(Ok(x.(place := place, kind := kind, user := user, web := web)), o4)
  }

  function NextFourAt(buf: bytes, off: nat, x: XLog): (p: Parsed<XLog>)
    ensures p.result.Ok? ==> p.result.value.head == x.head
  {
    var (dump, o1) :- DumpAt(buf, off, x.dump);
    var (thread, o2) :- ThreadAt(buf, o1, x.thread);
    var (texts, o3) :- TextsAt(buf, o2, x.texts);
    var (queuing, o4) :- QueuingAt(buf, o3, x.queuing);
    Parsed(Ok(x.(dump := dump, thread := thread, texts := texts, queuing := queuing)), o4)
  }

  function LastFourAt(buf: bytes, off: nat, x: XLog): (p: Parsed<XLog>)
    ensures p.result.Ok? ==> p.result.value.head == x.head
  {
    var (moreTexts, o1) :- MoreTextsAt(buf, off, x.moreTexts);
    var (profile, o2) :- ProfileAt(buf, o1, x.profile);
    var (b3, o3) :- B3At(buf, o2, x.b3);
    var (discard, o4) :- DiscardAt(buf, o3, x.discard);
    Parsed(Ok(x.(moreTexts := moreTexts, profile := profile, b3 := b3, discard := discard)), o4)
  }

  function XLogAt(buf: bytes, off: nat, x: XLog): Parsed<XLog> {
    var (blob, o) :- BlobAt(buf, off);
    Parsed(InnerAt(blob, x).result, o)
  }

  // ----- reading inverts writing ---------------------------------------------------------

  lemma DecimalField(buf: bytes, off: nat, l: bytes, v: int64)
    requires At(buf, off, l + EncDecimal(v))
    ensures At(buf, off, l) && DecimalAt(buf, off + |l|) == Parsed(Ok(v), off + |l + EncDecimal(v)|)
    ensures -0x8000_0000 <= v < 0x8000_0000 ==> ToInt32(v) == v
  {
    AtConcat(buf, off, l, EncDecimal(v));
    DecimalRoundTrip(buf, off + |l|, v);
  }

  lemma LongField(buf: bytes, off: nat, l: bytes, v: int64)
    requires At(buf, off, l + Put(8, v))
    ensures At(buf, off, l) && Int64At(buf, off + |l|) == Parsed(Ok(v), off + |l + Put(8, v)|)
  {
    AtConcat(buf, off, l, Put(8, v));
    Int64RoundTrip(buf, off + |l|, v);
  }

  lemma BlobField(buf: bytes, off: nat, l: bytes, b: bytes)
    requires |buf| < 0x8000_0000 && At(buf, off, l + EncBlob(b))
    ensures At(buf, off, l) && BlobAt(buf, off + |l|) == Parsed(Ok(b), off + |l + EncBlob(b)|)
  {
    AtConcat(buf, off, l, EncBlob(b));
    BlobRoundTrip(buf, off + |l|, b);
  }

  lemma ByteField(buf: bytes, off: nat, l: bytes, b: byte)
    requires At(buf, off, l + [b])
    ensures At(buf, off, l) && ByteAt(buf, off + |l|) == Parsed(Ok(b), off + |l + [b]|)
  {
    AtConcat(buf, off, l, [b]);
    AtIndex(buf, off + |l|, [b], 0);
  }

  lemma BoolField(buf: bytes, off: nat, l: bytes, b: bool)
    requires At(buf, off, l + EncBool(b))
    ensures At(buf, off, l) && BoolAt(buf, off + |l|) == Parsed(Ok(b), off + |l + EncBool(b)|)
  {
    ByteField(buf, off, l, EncBool(b)[0]);
  }

  lemma HeadRoundTrip(buf: bytes, off: nat, h: Head)
    requires |buf| < 0x8000_0000 && At(buf, off, EncHead(h))
    ensures HeadAt(buf, off) == Parsed(Ok(h), off + |EncHead(h)|)
  {
    hide At, DecimalAt, Int64At, BlobAt, ByteAt, BoolAt, EncDecimal, Put, EncBlob, EncBool, ToInt32;
    var l1 := EncDecimal(h.endTime);
    var l2 := l1 + EncDecimal(h.objHash);
    var l3 := l2 + EncDecimal(h.service);
    var l4 := l3 + Put(8, h.txid);
    var l5 := l4 + Put(8, h.caller);
    var l6 := l5 + Put(8, h.gxid);
    DecimalField(buf, off, l6, h.elapsed);
    LongField(buf, off, l5, h.gxid);
    LongField(buf, off, l4, h.caller);
    LongField(buf, off, l3, h.txid);
    DecimalField(buf, off, l2, h.service);
    DecimalField(buf, off, l1, h.objHash);
    assert [] + EncDecimal(h.endTime) == EncDecimal(h.endTime);
    DecimalField(buf, off, [], h.endTime);
  }

  lemma CostsRoundTrip(buf: bytes, off: nat, c: Costs)
    requires |buf| < 0x8000_0000 && At(buf, off, EncCosts(c))
    ensures CostsAt(buf, off) == Parsed(Ok(c), off + |EncCosts(c)|)
  {
    hide At, DecimalAt, Int64At, BlobAt, ByteAt, BoolAt, EncDecimal, Put, EncBlob, EncBool, ToInt32;
    var l1 := EncDecimal(c.error);
    var l2 := l1 + EncDecimal(c.cpu);
    var l3 := l2 + EncDecimal(c.sqlCount);
    var l4 := l3 + EncDecimal(c.sqlTime);
    var l5 := l4 + EncBlob(c.ipAddr);
    DecimalField(buf, off, l5, c.kbytes);
    BlobField(buf, off, l4, c.ipAddr);
    DecimalField(buf, off, l3, c.sqlTime);
    DecimalField(buf, off, l2, c.sqlCount);
    DecimalField(buf, off, l1, c.cpu);
    assert [] + EncDecimal(c.error) == EncDecimal(c.error);
    DecimalField(buf, off, [], c.error);
  }

  lemma ClientRoundTrip(buf: bytes, off: nat, c: Client)
    requires |buf| < 0x8000_0000 && At(buf, off, EncClient(c))
    ensures ClientAt(buf, off) == Parsed(Ok(c), off + |EncClient(c)|)
  {
    hide At, DecimalAt, Int64At, BlobAt, ByteAt, BoolAt, EncDecimal, Put, EncBlob, EncBool, ToInt32;
    var l1 := EncDecimal(c.status);
    var l2 := l1 + EncDecimal(c.userid);
    var l3 := l2 + EncDecimal(c.userAgent);
    var l4 := l3 + EncDecimal(c.referer);
    var l5 := l4 + EncDecimal(c.group);
    var l6 := l5 + EncDecimal(c.apicallCount);
    DecimalField(buf, off, l6, c.apicallTime);
    DecimalField(buf, off, l5, c.apicallCount);
    DecimalField(buf, off, l4, c.group);
    DecimalField(buf, off, l3, c.referer);
    DecimalField(buf, off, l2, c.userAgent);
    DecimalField(buf, off, l1, c.userid);
    assert [] + EncDecimal(c.status) == EncDecimal(c.status);
    DecimalField(buf, off, [], c.status);
  }

  /** What a reader that knows x0 ends with if the record stops after k optional groups. */
  function Keep(x: XLog, x0: XLog, k: nat): XLog {
    XLog(x.head, x.costs, x.client,
      if k >= 1 then x.place else x0.place, if k >= 2 then x.kind else x0.kind,
      if k >= 3 then x.user else x0.user, if k >= 4 then x.web else x0.web,
      if k >= 5 then x.dump else x0.dump, if k >= 6 then x.thread else x0.thread,
      if k >= 7 then x.texts else x0.texts, if k >= 8 then x.queuing else x0.queuing,
      if k >= 9 then x.moreTexts else x0.moreTexts, if k >= 10 then x.profile else x0.profile,
      if k >= 11 then x.b3 else x0.b3, if k >= 12 then x.discard else x0.discard)
  }

  /** Where group j + 1 starts, or would, in a record that stops after k groups. */
  function GroupPos(x: XLog, j: nat, k: nat): nat {
    |EncUpTo(x, if j <= k then j else k)|
  }

  lemma {:induction false} GroupStands(x: XLog, j: nat, k: nat)
    requires 1 <= j <= k
    ensures At(EncUpTo(x, k), GroupPos(x, j - 1, k), EncGroup(x, j))
    ensures GroupPos(x, j, k) == GroupPos(x, j - 1, k) + |EncGroup(x, j)|
  {
    hide EncGroup, EncHead, EncCosts;
    if j < k {
      GroupStands(x, j, k - 1);
    }
    var whole, pre, last := EncUpTo(x, k), EncUpTo(x, k - 1), EncGroup(x, k);
    AtConcat(whole, 0, pre, last);
    if j < k {
      Inside(whole, pre, GroupPos(x, j - 1, k), EncGroup(x, j));
    }
  }

  lemma Inside(whole: bytes, pre: bytes, off: nat, s: bytes)
    requires At(whole, 0, pre) && At(pre, off, s)
    ensures At(whole, off, s)
  {
    assert pre[off..off + |s|] == whole[off..off + |s|];
  }

  lemma PlaceCut(x: XLog, place: Place, k: nat)
    requires |EncUpTo(x, k)| < 0x8000_0000
    ensures PlaceAt(EncUpTo(x, k), GroupPos(x, 0, k), place) ==
      Parsed(Ok(if k >= 1 then x.place else place), GroupPos(x, 1, k))
  {
    hide At, DecimalAt, Int64At, BlobAt, ByteAt, BoolAt, EncDecimal, Put, EncBlob, EncBool, ToInt32;
    hide EncUpTo;
    var buf, off := EncUpTo(x, k), GroupPos(x, 0, k);
    if k >= 1 {
      GroupStands(x, 1, k);
      Within(buf, off, EncGroup(x, 1));
      var l1 := EncBlob(x.place.countryCode);
      DecimalField(buf, off, l1, x.place.city);
      assert [] + EncBlob(x.place.countryCode) == EncBlob(x.place.countryCode);
      BlobField(buf, off, [], x.place.countryCode);
    }
  }

  lemma KindCut(x: XLog, kind: Kind, k: nat)
    requires |EncUpTo(x, k)| < 0x8000_0000
    ensures KindAt(EncUpTo(x, k), GroupPos(x, 1, k), kind) ==
      Parsed(Ok(if k >= 2 then x.kind else kind), GroupPos(x, 2, k))
  {
    hide At, DecimalAt, Int64At, BlobAt, ByteAt, BoolAt, EncDecimal, Put, EncBlob, EncBool, ToInt32;
    hide EncUpTo;
    var buf, off := EncUpTo(x, k), GroupPos(x, 1, k);
    if k >= 2 {
      GroupStands(x, 2, k);
      Within(buf, off, EncGroup(x, 2));
      assert [] + [x.kind.xType] == [x.kind.xType];
      ByteField(buf, off, [], x.kind.xType);
    }
  }

  lemma UserCut(x: XLog, user: User, k: nat)
    requires |EncUpTo(x, k)| < 0x8000_0000
    ensures UserAt(EncUpTo(x, k), GroupPos(x, 2, k), user) ==
      Parsed(Ok(if k >= 3 then x.user else user), GroupPos(x, 3, k))
  {
    hide At, DecimalAt, Int64At, BlobAt, ByteAt, BoolAt, EncDecimal, Put, EncBlob, EncBool, ToInt32;
    hide EncUpTo;
    var buf, off := EncUpTo(x, k), GroupPos(x, 2, k);
    if k >= 3 {
      GroupStands(x, 3, k);
      Within(buf, off, EncGroup(x, 3));
      var l1 := EncDecimal(x.user.login);
      DecimalField(buf, off, l1, x.user.desc);
      assert [] + EncDecimal(x.user.login) == EncDecimal(x.user.login);
      DecimalField(buf, off, [], x.user.login);
    }
  }

  lemma WebCut(x: XLog, web: Web, k: nat)
    requires |EncUpTo(x, k)| < 0x8000_0000
    ensures WebAt(EncUpTo(x, k), GroupPos(x, 3, k), web) ==
      Parsed(Ok(if k >= 4 then x.web else web), GroupPos(x, 4, k))
  {
    hide At, DecimalAt, Int64At, BlobAt, ByteAt, BoolAt, EncDecimal, Put, EncBlob, EncBool, ToInt32;
    hide EncUpTo;
    var buf, off := EncUpTo(x, k), GroupPos(x, 3, k);
    if k >= 4 {
      GroupStands(x, 4, k);
      Within(buf, off, EncGroup(x, 4));
      var l1 := EncDecimal(x.web.webHash);
      DecimalField(buf, off, l1, x.web.webTime);
      assert [] + EncDecimal(x.web.webHash) == EncDecimal(x.web.webHash);
      DecimalField(buf, off, [], x.web.webHash);
    }
  }

  lemma DumpCut(x: XLog, dump: Dump, k: nat)
    requires |EncUpTo(x, k)| < 0x8000_0000
    ensures DumpAt(EncUpTo(x, k), GroupPos(x, 4, k), dump) ==
      Parsed(Ok(if k >= 5 then x.dump else dump), GroupPos(x, 5, k))
  {
    hide At, DecimalAt, Int64At, BlobAt, ByteAt, BoolAt, EncDecimal, Put, EncBlob, EncBool, ToInt32;
    hide EncUpTo;
    var buf, off := EncUpTo(x, k), GroupPos(x, 4, k);
    if k >= 5 {
      GroupStands(x, 5, k);
      Within(buf, off, EncGroup(x, 5));
      assert [] + [x.dump.hasDump] == [x.dump.hasDump];
      ByteField(buf, off, [], x.dump.hasDump);
    }
  }

  lemma ThreadCut(x: XLog, thread: Thread, k: nat)
    requires |EncUpTo(x, k)| < 0x8000_0000
    ensures ThreadAt(EncUpTo(x, k), GroupPos(x, 5, k), thread) ==
      Parsed(Ok(if k >= 6 then x.thread else thread), GroupPos(x, 6, k))
  {
    hide At, DecimalAt, Int64At, BlobAt, ByteAt, BoolAt, EncDecimal, Put, EncBlob, EncBool, ToInt32;
    hide EncUpTo;
    var buf, off := EncUpTo(x, k), GroupPos(x, 5, k);
    if k >= 6 {
      GroupStands(x, 6, k);
      Within(buf, off, EncGroup(x, 6));
      assert [] + EncDecimal(x.thread.threadNameHash) == EncDecimal(x.thread.threadNameHash);
      DecimalField(buf, off, [], x.thread.threadNameHash);
    }
  }

  lemma TextsCut(x: XLog, texts: Texts, k: nat)
    requires |EncUpTo(x, k)| < 0x8000_0000
    ensures TextsAt(EncUpTo(x, k), GroupPos(x, 6, k), texts) ==
      Parsed(Ok(if k >= 7 then x.texts else texts), GroupPos(x, 7, k))
  {
    hide At, DecimalAt, Int64At, BlobAt, ByteAt, BoolAt, EncDecimal, Put, EncBlob, EncBool, ToInt32;
    hide EncUpTo;
    var buf, off := EncUpTo(x, k), GroupPos(x, 6, k);
    if k >= 7 {
      GroupStands(x, 7, k);
      Within(buf, off, EncGroup(x, 7));
      var l1 := EncBlob(x.texts.text1);
      BlobField(buf, off, l1, x.texts.text2);
      assert [] + EncBlob(x.texts.text1) == EncBlob(x.texts.text1);
      BlobField(buf, off, [], x.texts.text1);
    }
  }

  lemma QueuingCut(x: XLog, queuing: Queuing, k: nat)
    requires |EncUpTo(x, k)| < 0x8000_0000
    ensures QueuingAt(EncUpTo(x, k), GroupPos(x, 7, k), queuing) ==
      Parsed(Ok(if k >= 8 then x.queuing else queuing), GroupPos(x, 8, k))
  {
    hide At, DecimalAt, Int64At, BlobAt, ByteAt, BoolAt, EncDecimal, Put, EncBlob, EncBool, ToInt32;
    hide EncUpTo;
    var buf, off := EncUpTo(x, k), GroupPos(x, 7, k);
    if k >= 8 {
      GroupStands(x, 8, k);
      Within(buf, off, EncGroup(x, 8));
      var l1 := EncDecimal(x.queuing.queuingHostHash);
      var l2 := l1 + EncDecimal(x.queuing.queuingTime);
      var l3 := l2 + EncDecimal(x.queuing.queuing2ndHostHash);
      DecimalField(buf, off, l3, x.queuing.queuing2ndTime);
      DecimalField(buf, off, l2, x.queuing.queuing2ndHostHash);
      DecimalField(buf, off, l1, x.queuing.queuingTime);
      assert [] + EncDecimal(x.queuing.queuingHostHash) == EncDecimal(x.queuing.queuingHostHash);
      DecimalField(buf, off, [], x.queuing.queuingHostHash);
    }
  }

  lemma MoreTextsCut(x: XLog, moreTexts: MoreTexts, k: nat)
    requires |EncUpTo(x, k)| < 0x8000_0000
    ensures MoreTextsAt(EncUpTo(x, k), GroupPos(x, 8, k), moreTexts) ==
      Parsed(Ok(if k >= 9 then x.moreTexts else moreTexts), GroupPos(x, 9, k))
  {
    hide At, DecimalAt, Int64At, BlobAt, ByteAt, BoolAt, EncDecimal, Put, EncBlob, EncBool, ToInt32;
    hide EncUpTo;
    var buf, off := EncUpTo(x, k), GroupPos(x, 8, k);
    if k >= 9 {
      GroupStands(x, 9, k);
      Within(buf, off, EncGroup(x, 9));
      var l1 := EncBlob(x.moreTexts.text3);
      var l2 := l1 + EncBlob(x.moreTexts.text4);
      BlobField(buf, off, l2, x.moreTexts.text5);
      BlobField(buf, off, l1, x.moreTexts.text4);
      assert [] + EncBlob(x.moreTexts.text3) == EncBlob(x.moreTexts.text3);
      BlobField(buf, off, [], x.moreTexts.text3);
    }
  }

  lemma ProfileCut(x: XLog, profile: Profile, k: nat)
    requires |EncUpTo(x, k)| < 0x8000_0000
    ensures ProfileAt(EncUpTo(x, k), GroupPos(x, 9, k), profile) ==
      Parsed(Ok(if k >= 10 then x.profile else profile), GroupPos(x, 10, k))
  {
    hide At, DecimalAt, Int64At, BlobAt, ByteAt, BoolAt, EncDecimal, Put, EncBlob, EncBool, ToInt32;
    hide EncUpTo;
    var buf, off := EncUpTo(x, k), GroupPos(x, 9, k);
    if k >= 10 {
      GroupStands(x, 10, k);
      Within(buf, off, EncGroup(x, 10));
      assert [] + EncDecimal(x.profile.profileCount) == EncDecimal(x.profile.profileCount);
      DecimalField(buf, off, [], x.profile.profileCount);
    }
  }

  lemma B3Cut(x: XLog, b3: B3, k: nat)
    requires |EncUpTo(x, k)| < 0x8000_0000
    ensures B3At(EncUpTo(x, k), GroupPos(x, 10, k), b3) ==
      Parsed(Ok(if k >= 11 then x.b3 else b3), GroupPos(x, 11, k))
  {
    hide At, DecimalAt, Int64At, BlobAt, ByteAt, BoolAt, EncDecimal, Put, EncBlob, EncBool, ToInt32;
    hide EncUpTo;
    var buf, off := EncUpTo(x, k), GroupPos(x, 10, k);
    if k >= 11 {
      GroupStands(x, 11, k);
      Within(buf, off, EncGroup(x, 11));
      assert [] + EncBool(x.b3.b3Mode) == EncBool(x.b3.b3Mode);
      BoolField(buf, off, [], x.b3.b3Mode);
    }
  }

  lemma DiscardCut(x: XLog, discard: Discard, k: nat)
    requires |EncUpTo(x, k)| < 0x8000_0000
    ensures DiscardAt(EncUpTo(x, k), GroupPos(x, 11, k), discard) ==
      Parsed(Ok(if k >= 12 then x.discard else discard), GroupPos(x, 12, k))
  {
    hide At, DecimalAt, Int64At, BlobAt, ByteAt, BoolAt, EncDecimal, Put, EncBlob, EncBool, ToInt32;
    hide EncUpTo;
    var buf, off := EncUpTo(x, k), GroupPos(x, 11, k);
    if k >= 12 {
      GroupStands(x, 12, k);
      Within(buf, off, EncGroup(x, 12));
      var l1 := EncDecimal(x.discard.profileSize);
      var l2 := l1 + [x.discard.discardType];
      BoolField(buf, off, l2, x.discard.ignoreGlobalConsequentSampling);
      ByteField(buf, off, l1, x.discard.discardType);
      assert [] + EncDecimal(x.discard.profileSize) == EncDecimal(x.discard.profileSize);
      DecimalField(buf, off, [], x.discard.profileSize);
    }
  }

  lemma Within(buf: bytes, off: nat, s: bytes)
    requires At(buf, off, s)
    ensures off + |s| <= |buf|
  {
  }

  /** A record that stops at a group boundary reads as its leading fields; the rest stays as it was. */
  lemma CutAtBoundary(x: XLog, x0: XLog, k: nat)
    requires k <= GROUPS && |EncUpTo(x, k)| < 0x8000_0000
    ensures InnerAt(EncUpTo(x, k), x0) == Parsed(Ok(Keep(x, x0, k)), |EncUpTo(x, k)|)
  {
    hide At, HeadAt, CostsAt, ClientAt, EncUpTo,
      PlaceAt, KindAt, UserAt, WebAt, DumpAt, ThreadAt, TextsAt, QueuingAt, MoreTextsAt, ProfileAt, B3At, DiscardAt;
    Mandatory(x, k);
    PlaceCut(x, x0.place, k);
    KindCut(x, x0.kind, k);
    UserCut(x, x0.user, k);
    WebCut(x, x0.web, k);
    DumpCut(x, x0.dump, k);
    ThreadCut(x, x0.thread, k);
    TextsCut(x, x0.texts, k);
    QueuingCut(x, x0.queuing, k);
    MoreTextsCut(x, x0.moreTexts, k);
    ProfileCut(x, x0.profile, k);
    B3Cut(x, x0.b3, k);
    DiscardCut(x, x0.discard, k);
  }

  lemma Mandatory(x: XLog, k: nat)
    requires |EncUpTo(x, k)| < 0x8000_0000
    ensures var buf, o1 := EncUpTo(x, k), |EncHead(x.head)|;
      var o2 := o1 + |EncCosts(x.costs)|;
      && HeadAt(buf, 0) == Parsed(Ok(x.head), o1)
      && CostsAt(buf, o1) == Parsed(Ok(x.costs), o2)
      && ClientAt(buf, o2) == Parsed(Ok(x.client), GroupPos(x, 0, k))
  {
    hide At, HeadAt, CostsAt, ClientAt, EncHead, EncCosts, EncClient;
    var buf := EncUpTo(x, k);
    Prefix(x, k);
    AtConcat(buf, 0, EncHead(x.head) + EncCosts(x.costs), EncClient(x.client));
    AtConcat(buf, 0, EncHead(x.head), EncCosts(x.costs));
    HeadRoundTrip(buf, 0, x.head);
    CostsRoundTrip(buf, |EncHead(x.head)|, x.costs);
    ClientRoundTrip(buf, |EncHead(x.head)| + |EncCosts(x.costs)|, x.client);
  }

  lemma {:induction false} Prefix(x: XLog, k: nat)
    ensures At(EncUpTo(x, k), 0, EncUpTo(x, 0))
  {
    hide EncGroup, EncHead, EncCosts, EncClient;
    if k > 0 {
      Prefix(x, k - 1);
      AtConcat(EncUpTo(x, k), 0, EncUpTo(x, k - 1), EncGroup(x, k));
      Inside(EncUpTo(x, k), EncUpTo(x, k - 1), 0, EncUpTo(x, 0));
    }
  }

  /** Read inverts Write on all forty-three fields, whatever the reader held before. */
  lemma XLogRoundTrip(buf: bytes, off: nat, x: XLog, x0: XLog)
    requires |EncUpTo(x, GROUPS)| < 0x8000_0000 && At(buf, off, EncXLog(x))
    ensures XLogAt(buf, off, x0) == Parsed(Ok(x), off + |EncXLog(x)|)
  {
    hide At, InnerAt, BlobAt, EncUpTo, EncBlob;
    BlobRoundTrip(buf, off, EncUpTo(x, GROUPS));
    CutAtBoundary(x, x0, GROUPS);
  }

  // ----- the filter ----------------------------------------------------------------------

  /** The two fields that a filter takes from a serialized pack. */
  function FilterAt(data: bytes): Parsed<(int32, int32)> {
    var (code, o) :- ByteAt(data, 0);
    var (blob, o2) :- BlobAt(data, o);
    FilterInnerAt(blob)
  }

  function FilterInnerAt(blob: bytes): Parsed<(int32, int32)> {
    var (endTime, o1) :- DecimalAt(blob, 0);
    var (objHash, o2) :- DecimalAt(blob, o1);
    var (service, o3) :- DecimalAt(blob, o2);
    var (skipped, o4) :- TakeAt(blob, o3, 24);
    var (elapsed, o5) :- DecimalAt(blob, o4);
    Parsed(Ok((ToInt32(objHash), ToInt32(elapsed))), o5)
  }

  /** On every input that reads in full, the filter sees the fields of the full read. */
  lemma FilterAgrees(data: bytes, x0: XLog)
    requires |data| > 0 && XLogAt(data, 1, x0).result.Ok?
    ensures var x := XLogAt(data, 1, x0).result.value;
      FilterAt(data).result == Ok((x.head.objHash, x.head.elapsed))
  {
    hide DecimalAt, BlobAt, FirstFourAt, NextFourAt, LastFourAt, CostsAt, ClientAt, ToInt32;
    var blob := BlobAt(data, 1).result.value;
    assert HeadAt(blob, 0).result.Ok?;
  }

  /** The filter succeeds exactly if the first seven fields can be read, even if the full read fails later,
      and then gives two of them. */
  lemma FilterIff(data: bytes)
    ensures FilterAt(data).result.Ok? <==>
      |data| > 0 && BlobAt(data, 1).result.Ok? && HeadAt(BlobAt(data, 1).result.value, 0).result.Ok?
    ensures FilterAt(data).result.Ok? ==>
      var head := HeadAt(BlobAt(data, 1).result.value, 0).result.value;
      FilterAt(data).result == Ok((head.objHash, head.elapsed))
  {
    hide DecimalAt, BlobAt, ToInt32;
  }

  // ----- the writer and the reader -------------------------------------------------------

  class XLogPack {
    var head: Head
    var costs: Costs
    var client: Client
    var place: Place
    var kind: Kind
    var user: User
    var web: Web
    var dump: Dump
    var thread: Thread
    var texts: Texts
    var queuing: Queuing
    var moreTexts: MoreTexts
    var profile: Profile
    var b3: B3
    var discard: Discard

    /** The abstract value. */
    function Value(): XLog
      reads this
    {
      XLog(head, costs, client, place, kind, user, web, dump, thread, texts, queuing, moreTexts, profile, b3, discard)
    }

    /** Go's zero value, in which the reader of a pack finds the fields. */
    constructor ()
      ensures Value() == ZERO
    {
      head, costs, client, place, kind := ZERO.head, ZERO.costs, ZERO.client, ZERO.place, ZERO.kind;
      user, web, dump, thread, texts := ZERO.user, ZERO.web, ZERO.dump, ZERO.thread, ZERO.texts;
      queuing, moreTexts, profile, b3, discard := ZERO.queuing, ZERO.moreTexts, ZERO.profile, ZERO.b3, ZERO.discard;
    }

    /** buf has grown from start by l and then by e. */
    static lemma Grown(start: bytes, l: bytes, e: bytes, buf: bytes) returns (l2: bytes)
      requires buf == start + l + e
      ensures l2 == l + e && buf == start + l2
    {
      l2 := l + e;
    }

    method WriteHead(inner: DataOutputX)
      requires inner.Valid()
      modifies inner
      ensures inner.Valid() && inner.buf == old(inner.buf) + EncHead(head)
    {
      hide EncDecimal, EncBlob, EncBool, Put;
      inner.WriteDecimal(head.endTime);
      ghost var l := EncDecimal(head.endTime);
      inner.WriteDecimal(head.objHash);
      l := Grown(old(inner.buf), l, EncDecimal(head.objHash), inner.buf);
      inner.WriteDecimal(head.service);
      l := Grown(old(inner.buf), l, EncDecimal(head.service), inner.buf);
      inner.WriteInt(8, head.txid);
      l := Grown(old(inner.buf), l, Put(8, head.txid), inner.buf);
      inner.WriteInt(8, head.caller);
      l := Grown(old(inner.buf), l, Put(8, head.caller), inner.buf);
      inner.WriteInt(8, head.gxid);
      l := Grown(old(inner.buf), l, Put(8, head.gxid), inner.buf);
      inner.WriteDecimal(head.elapsed);
      l := Grown(old(inner.buf), l, EncDecimal(head.elapsed), inner.buf);
    }

    method WriteCosts(inner: DataOutputX)
      requires inner.Valid()
      modifies inner
      ensures inner.Valid() && inner.buf == old(inner.buf) + EncCosts(costs)
    {
      hide EncDecimal, EncBlob, EncBool, Put;
      inner.WriteDecimal(costs.error);
      ghost var l := EncDecimal(costs.error);
      inner.WriteDecimal(costs.cpu);
      l := Grown(old(inner.buf), l, EncDecimal(costs.cpu), inner.buf);
      inner.WriteDecimal(costs.sqlCount);
      l := Grown(old(inner.buf), l, EncDecimal(costs.sqlCount), inner.buf);
      inner.WriteDecimal(costs.sqlTime);
      l := Grown(old(inner.buf), l, EncDecimal(costs.sqlTime), inner.buf);
      inner.WriteBlob(costs.ipAddr);
      l := Grown(old(inner.buf), l, EncBlob(costs.ipAddr), inner.buf);
      inner.WriteDecimal(costs.kbytes);
      l := Grown(old(inner.buf), l, EncDecimal(costs.kbytes), inner.buf);
    }

    method WriteClient(inner: DataOutputX)
      requires inner.Valid()
      modifies inner
      ensures inner.Valid() && inner.buf == old(inner.buf) + EncClient(client)
    {
      hide EncDecimal, EncBlob, EncBool, Put;
      inner.WriteDecimal(client.status);
      ghost var l := EncDecimal(client.status);
      inner.WriteDecimal(client.userid);
      l := Grown(old(inner.buf), l, EncDecimal(client.userid), inner.buf);
      inner.WriteDecimal(client.userAgent);
      l := Grown(old(inner.buf), l, EncDecimal(client.userAgent), inner.buf);
      inner.WriteDecimal(client.referer);
      l := Grown(old(inner.buf), l, EncDecimal(client.referer), inner.buf);
      inner.WriteDecimal(client.group);
      l := Grown(old(inner.buf), l, EncDecimal(client.group), inner.buf);
      inner.WriteDecimal(client.apicallCount);
      l := Grown(old(inner.buf), l, EncDecimal(client.apicallCount), inner.buf);
      inner.WriteDecimal(client.apicallTime);
      l := Grown(old(inner.buf), l, EncDecimal(client.apicallTime), inner.buf);
    }

    method WritePlace(inner: DataOutputX)
      requires inner.Valid()
      modifies inner
      ensures inner.Valid() && inner.buf == old(inner.buf) + EncPlace(place)
    {
      hide EncDecimal, EncBlob, EncBool, Put;
      inner.WriteText(place.countryCode);
      ghost var l := EncBlob(place.countryCode);
      inner.WriteDecimal(place.city);
      l := Grown(old(inner.buf), l, EncDecimal(place.city), inner.buf);
    }

    method WriteKind(inner: DataOutputX)
      requires inner.Valid()
      modifies inner
      ensures inner.Valid() && inner.buf == old(inner.buf) + EncKind(kind)
    {
      hide EncDecimal, EncBlob, EncBool, Put;
      inner.WriteByte(kind.xType);
    }

    method WriteUser(inner: DataOutputX)
      requires inner.Valid()
      modifies inner
      ensures inner.Valid() && inner.buf == old(inner.buf) + EncUser(user)
    {
      hide EncDecimal, EncBlob, EncBool, Put;
      inner.WriteDecimal(user.login);
      ghost var l := EncDecimal(user.login);
      inner.WriteDecimal(user.desc);
      l := Grown(old(inner.buf), l, EncDecimal(user.desc), inner.buf);
    }

    method WriteWeb(inner: DataOutputX)
      requires inner.Valid()
      modifies inner
      ensures inner.Valid() && inner.buf == old(inner.buf) + EncWeb(web)
    {
      hide EncDecimal, EncBlob, EncBool, Put;
      inner.WriteDecimal(web.webHash);
      ghost var l := EncDecimal(web.webHash);
      inner.WriteDecimal(web.webTime);
      l := Grown(old(inner.buf), l, EncDecimal(web.webTime), inner.buf);
    }

    method WriteDump(inner: DataOutputX)
      requires inner.Valid()
      modifies inner
      ensures inner.Valid() && inner.buf == old(inner.buf) + EncDump(dump)
    {
      hide EncDecimal, EncBlob, EncBool, Put;
      inner.WriteByte(dump.hasDump);
    }

    method WriteThread(inner: DataOutputX)
      requires inner.Valid()
      modifies inner
      ensures inner.Valid() && inner.buf == old(inner.buf) + EncThread(thread)
    {
      hide EncDecimal, EncBlob, EncBool, Put;
      inner.WriteDecimal(thread.threadNameHash);
    }

    method WriteTexts(inner: DataOutputX)
      requires inner.Valid()
      modifies inner
      ensures inner.Valid() && inner.buf == old(inner.buf) + EncTexts(texts)
    {
      hide EncDecimal, EncBlob, EncBool, Put;
      inner.WriteText(texts.text1);
      ghost var l := EncBlob(texts.text1);
      inner.WriteText(texts.text2);
      l := Grown(old(inner.buf), l, EncBlob(texts.text2), inner.buf);
    }

    method WriteQueuing(inner: DataOutputX)
      requires inner.Valid()
      modifies inner
      ensures inner.Valid() && inner.buf == old(inner.buf) + EncQueuing(queuing)
    {
      hide EncDecimal, EncBlob, EncBool, Put;
      inner.WriteDecimal(queuing.queuingHostHash);
      ghost var l := EncDecimal(queuing.queuingHostHash);
      inner.WriteDecimal(queuing.queuingTime);
      l := Grown(old(inner.buf), l, EncDecimal(queuing.queuingTime), inner.buf);
      inner.WriteDecimal(queuing.queuing2ndHostHash);
      l := Grown(old(inner.buf), l, EncDecimal(queuing.queuing2ndHostHash), inner.buf);
      inner.WriteDecimal(queuing.queuing2ndTime);
      l := Grown(old(inner.buf), l, EncDecimal(queuing.queuing2ndTime), inner.buf);
    }

    method WriteMoreTexts(inner: DataOutputX)
      requires inner.Valid()
      modifies inner
      ensures inner.Valid() && inner.buf == old(inner.buf) + EncMoreTexts(moreTexts)
    {
      hide EncDecimal, EncBlob, EncBool, Put;
      inner.WriteText(moreTexts.text3);
      ghost var l := EncBlob(moreTexts.text3);
      inner.WriteText(moreTexts.text4);
      l := Grown(old(inner.buf), l, EncBlob(moreTexts.text4), inner.buf);
      inner.WriteText(moreTexts.text5);
      l := Grown(old(inner.buf), l, EncBlob(moreTexts.text5), inner.buf);
    }

    method WriteProfile(inner: DataOutputX)
      requires inner.Valid()
      modifies inner
      ensures inner.Valid() && inner.buf == old(inner.buf) + EncProfile(profile)
    {
      hide EncDecimal, EncBlob, EncBool, Put;
      inner.WriteDecimal(profile.profileCount);
    }

    method WriteB3(inner: DataOutputX)
      requires inner.Valid()
      modifies inner
      ensures inner.Valid() && inner.buf == old(inner.buf) + EncB3(b3)
    {
      hide EncDecimal, EncBlob, EncBool, Put;
      inner.WriteBoolean(b3.b3Mode);
    }

    method WriteDiscard(inner: DataOutputX)
      requires inner.Valid()
      modifies inner
      ensures inner.Valid() && inner.buf == old(inner.buf) + EncDiscard(discard)
    {
      hide EncDecimal, EncBlob, EncBool, Put;
      inner.WriteDecimal(discard.profileSize);
      ghost var l := EncDecimal(discard.profileSize);
      inner.WriteByte(discard.discardType);
      l := Grown(old(inner.buf), l, [discard.discardType], inner.buf);
      inner.WriteBoolean(discard.ignoreGlobalConsequentSampling);
      l := Grown(old(inner.buf), l, EncBool(discard.ignoreGlobalConsequentSampling), inner.buf);
    }

    /** The pooled inner buffer is one of its own. */
    method Write(o: DataOutputX)
      requires o.Valid()
      modifies o
      ensures o.Valid() && o.buf == old(o.buf) + EncXLog(Value())
    {
      hide EncUpTo, EncBlob, XLogPack.Value;
      var inner := new DataOutputX();
      WriteMandatory(inner);
      WriteFirstFour(inner);
      WriteNextFour(inner);
      WriteLastFour(inner);
      o.WriteBlob(inner.buf);
    }

    method WriteMandatory(inner: DataOutputX)
      requires inner.Valid() && inner.buf == []
      modifies inner
      ensures inner.Valid() && inner.buf == EncUpTo(Value(), 0)
    {
      hide EncHead, EncCosts, EncClient, EncGroup;
      WriteHead(inner);
      assert [] + EncHead(head) == EncHead(head);
      WriteCosts(inner);
      WriteClient(inner);
    }

    method WriteFirstFour(inner: DataOutputX)
      requires inner.Valid() && inner.buf == EncUpTo(Value(), 0)
      modifies inner
      ensures inner.Valid() && inner.buf == EncUpTo(Value(), 4)
    {
      hide EncUpTo, EncPlace, EncKind, EncUser, EncWeb;
      ghost var x := Value();
      WritePlace(inner);
      Next(x, 1);
      WriteKind(inner);
      Next(x, 2);
      WriteUser(inner);
      Next(x, 3);
      WriteWeb(inner);
      Next(x, 4);
    }

    method WriteNextFour(inner: DataOutputX)
      requires inner.Valid() && inner.buf == EncUpTo(Value(), 4)
      modifies inner
      ensures inner.Valid() && inner.buf == EncUpTo(Value(), 8)
    {
      hide EncUpTo, EncDump, EncThread, EncTexts, EncQueuing;
      ghost var x := Value();
      WriteDump(inner);
      Next(x, 5);
      WriteThread(inner);
      Next(x, 6);
      WriteTexts(inner);
      Next(x, 7);
      WriteQueuing(inner);
      Next(x, 8);
    }

    method WriteLastFour(inner: DataOutputX)
      requires inner.Valid() && inner.buf == EncUpTo(Value(), 8)
      modifies inner
      ensures inner.Valid() && inner.buf == EncUpTo(Value(), 12)
    {
      hide EncUpTo, EncMoreTexts, EncProfile, EncB3, EncDiscard;
      ghost var x := Value();
      WriteMoreTexts(inner);
      Next(x, 9);
      WriteProfile(inner);
      Next(x, 10);
      WriteB3(inner);
      Next(x, 11);
      WriteDiscard(inner);
      Next(x, 12);
    }

    static lemma Next(x: XLog, j: nat)
      requires 1 <= j
      ensures EncUpTo(x, j) == EncUpTo(x, j - 1) + EncGroup(x, j)
    {
    }

    method ReadHead(d: DataInputX) returns (r: Result<(), Error>)
      modifies this`head, d
      ensures r.Ok? ==> HeadAt(d.buf, old(d.offset)) == Parsed(Ok(head), d.offset)
      ensures r.Err? ==> HeadAt(d.buf, old(d.offset)).result == Err(r.error)
    {
      hide DecimalAt, Int64At, BlobAt, ByteAt, BoolAt, ToInt32;
      var endTime :- d.ReadDecimal();
      head := head.(endTime := endTime);
      var objHash :- d.ReadDecimal();
      head := head.(objHash := ToInt32(objHash));
      var service :- d.ReadDecimal();
      head := head.(service := ToInt32(service));
      var txid :- d.ReadInt64();
      head := head.(txid := txid);
      var caller :- d.ReadInt64();
      head := head.(caller := caller);
      var gxid :- d.ReadInt64();
      head := head.(gxid := gxid);
      var elapsed :- d.ReadDecimal();
      head := head.(elapsed := ToInt32(elapsed));
      r := Ok(());
    }

    method ReadCosts(d: DataInputX) returns (r: Result<(), Error>)
      modifies this`costs, d
      ensures r.Ok? ==> CostsAt(d.buf, old(d.offset)) == Parsed(Ok(costs), d.offset)
      ensures r.Err? ==> CostsAt(d.buf, old(d.offset)).result == Err(r.error)
    {
      hide DecimalAt, Int64At, BlobAt, ByteAt, BoolAt, ToInt32;
      var error :- d.ReadDecimal();
      costs := costs.(error := ToInt32(error));
      var cpu :- d.ReadDecimal();
      costs := costs.(cpu := ToInt32(cpu));
      var sqlCount :- d.ReadDecimal();
      costs := costs.(sqlCount := ToInt32(sqlCount));
      var sqlTime :- d.ReadDecimal();
      costs := costs.(sqlTime := ToInt32(sqlTime));
      var ipAddr :- d.ReadBlob();
      costs := costs.(ipAddr := ipAddr);
      var kbytes :- d.ReadDecimal();
      costs := costs.(kbytes := ToInt32(kbytes));
      r := Ok(());
    }

    method ReadClient(d: DataInputX) returns (r: Result<(), Error>)
      modifies this`client, d
      ensures r.Ok? ==> ClientAt(d.buf, old(d.offset)) == Parsed(Ok(client), d.offset)
      ensures r.Err? ==> ClientAt(d.buf, old(d.offset)).result == Err(r.error)
    {
      hide DecimalAt, Int64At, BlobAt, ByteAt, BoolAt, ToInt32;
      var status :- d.ReadDecimal();
      client := client.(status := ToInt32(status));
      var userid :- d.ReadDecimal();
      client := client.(userid := userid);
      var userAgent :- d.ReadDecimal();
      client := client.(userAgent := ToInt32(userAgent));
      var referer :- d.ReadDecimal();
      client := client.(referer := ToInt32(referer));
      var group :- d.ReadDecimal();
      client := client.(group := ToInt32(group));
      var apicallCount :- d.ReadDecimal();
      client := client.(apicallCount := ToInt32(apicallCount));
      var apicallTime :- d.ReadDecimal();
      client := client.(apicallTime := ToInt32(apicallTime));
      r := Ok(());
    }

    method ReadPlace(d: DataInputX) returns (r: Result<(), Error>)
      modifies this`place, d
      ensures r.Ok? ==> PlaceAt(d.buf, old(d.offset), old(place)) == Parsed(Ok(place), d.offset)
      ensures r.Err? ==> PlaceAt(d.buf, old(d.offset), old(place)).result == Err(r.error)
    {
      hide DecimalAt, Int64At, BlobAt, ByteAt, BoolAt, ToInt32;
      if d.Available() > 0 {
        var countryCode :- d.ReadText();
        place := place.(countryCode := countryCode);
        var city :- d.ReadDecimal();
        place := place.(city := ToInt32(city));
      }
      r := Ok(());
    }

    method ReadKind(d: DataInputX) returns (r: Result<(), Error>)
      modifies this`kind, d
      ensures r.Ok? ==> KindAt(d.buf, old(d.offset), old(kind)) == Parsed(Ok(kind), d.offset)
      ensures r.Err? ==> KindAt(d.buf, old(d.offset), old(kind)).result == Err(r.error)
    {
      hide DecimalAt, Int64At, BlobAt, ByteAt, BoolAt, ToInt32;
      if d.Available() > 0 {
        var xType :- d.ReadByte();
        kind := kind.(xType := xType);
      }
      r := Ok(());
    }

    method ReadUser(d: DataInputX) returns (r: Result<(), Error>)
      modifies this`user, d
      ensures r.Ok? ==> UserAt(d.buf, old(d.offset), old(user)) == Parsed(Ok(user), d.offset)
      ensures r.Err? ==> UserAt(d.buf, old(d.offset), old(user)).result == Err(r.error)
    {
      hide DecimalAt, Int64At, BlobAt, ByteAt, BoolAt, ToInt32;
      if d.Available() > 0 {
        var login :- d.ReadDecimal();
        user := user.(login := ToInt32(login));
        var desc :- d.ReadDecimal();
        user := user.(desc := ToInt32(desc));
      }
      r := Ok(());
    }

    method ReadWeb(d: DataInputX) returns (r: Result<(), Error>)
      modifies this`web, d
      ensures r.Ok? ==> WebAt(d.buf, old(d.offset), old(web)) == Parsed(Ok(web), d.offset)
      ensures r.Err? ==> WebAt(d.buf, old(d.offset), old(web)).result == Err(r.error)
    {
      hide DecimalAt, Int64At, BlobAt, ByteAt, BoolAt, ToInt32;
      if d.Available() > 0 {
        var webHash :- d.ReadDecimal();
        web := web.(webHash := ToInt32(webHash));
        var webTime :- d.ReadDecimal();
        web := web.(webTime := ToInt32(webTime));
      }
      r := Ok(());
    }

    method ReadDump(d: DataInputX) returns (r: Result<(), Error>)
      modifies this`dump, d
      ensures r.Ok? ==> DumpAt(d.buf, old(d.offset), old(dump)) == Parsed(Ok(dump), d.offset)
      ensures r.Err? ==> DumpAt(d.buf, old(d.offset), old(dump)).result == Err(r.error)
    {
      hide DecimalAt, Int64At, BlobAt, ByteAt, BoolAt, ToInt32;
      if d.Available() > 0 {
        var hasDump :- d.ReadByte();
        dump := dump.(hasDump := hasDump);
      }
      r := Ok(());
    }

    method ReadThread(d: DataInputX) returns (r: Result<(), Error>)
      modifies this`thread, d
      ensures r.Ok? ==> ThreadAt(d.buf, old(d.offset), old(thread)) == Parsed(Ok(thread), d.offset)
      ensures r.Err? ==> ThreadAt(d.buf, old(d.offset), old(thread)).result == Err(r.error)
    {
      hide DecimalAt, Int64At, BlobAt, ByteAt, BoolAt, ToInt32;
      if d.Available() > 0 {
        var threadNameHash :- d.ReadDecimal();
        thread := thread.(threadNameHash := ToInt32(threadNameHash));
      }
      r := Ok(());
    }

    method ReadTexts(d: DataInputX) returns (r: Result<(), Error>)
      modifies this`texts, d
      ensures r.Ok? ==> TextsAt(d.buf, old(d.offset), old(texts)) == Parsed(Ok(texts), d.offset)
      ensures r.Err? ==> TextsAt(d.buf, old(d.offset), old(texts)).result == Err(r.error)
    {
      hide DecimalAt, Int64At, BlobAt, ByteAt, BoolAt, ToInt32;
      if d.Available() > 0 {
        var text1 :- d.ReadText();
        texts := texts.(text1 := text1);
        var text2 :- d.ReadText();
        texts := texts.(text2 := text2);
      }
      r := Ok(());
    }

    method ReadQueuing(d: DataInputX) returns (r: Result<(), Error>)
      modifies this`queuing, d
      ensures r.Ok? ==> QueuingAt(d.buf, old(d.offset), old(queuing)) == Parsed(Ok(queuing), d.offset)
      ensures r.Err? ==> QueuingAt(d.buf, old(d.offset), old(queuing)).result == Err(r.error)
    {
      hide DecimalAt, Int64At, BlobAt, ByteAt, BoolAt, ToInt32;
      if d.Available() > 0 {
        var queuingHostHash :- d.ReadDecimal();
        queuing := queuing.(queuingHostHash := ToInt32(queuingHostHash));
        var queuingTime :- d.ReadDecimal();
        queuing := queuing.(queuingTime := ToInt32(queuingTime));
        var queuing2ndHostHash :- d.ReadDecimal();
        queuing := queuing.(queuing2ndHostHash := ToInt32(queuing2ndHostHash));
        var queuing2ndTime :- d.ReadDecimal();
        queuing := queuing.(queuing2ndTime := ToInt32(queuing2ndTime));
      }
      r := Ok(());
    }

    method ReadMoreTexts(d: DataInputX) returns (r: Result<(), Error>)
      modifies this`moreTexts, d
      ensures r.Ok? ==> MoreTextsAt(d.buf, old(d.offset), old(moreTexts)) == Parsed(Ok(moreTexts), d.offset)
      ensures r.Err? ==> MoreTextsAt(d.buf, old(d.offset), old(moreTexts)).result == Err(r.error)
    {
      hide DecimalAt, Int64At, BlobAt, ByteAt, BoolAt, ToInt32;
      if d.Available() > 0 {
        var text3 :- d.ReadText();
        moreTexts := moreTexts.(text3 := text3);
        var text4 :- d.ReadText();
        moreTexts := moreTexts.(text4 := text4);
        var text5 :- d.ReadText();
        moreTexts := moreTexts.(text5 := text5);
      }
      r := Ok(());
    }

    method ReadProfile(d: DataInputX) returns (r: Result<(), Error>)
      modifies this`profile, d
      ensures r.Ok? ==> ProfileAt(d.buf, old(d.offset), old(profile)) == Parsed(Ok(profile), d.offset)
      ensures r.Err? ==> ProfileAt(d.buf, old(d.offset), old(profile)).result == Err(r.error)
    {
      hide DecimalAt, Int64At, BlobAt, ByteAt, BoolAt, ToInt32;
      if d.Available() > 0 {
        var profileCount :- d.ReadDecimal();
        profile := profile.(profileCount := ToInt32(profileCount));
      }
      r := Ok(());
    }

    method ReadB3(d: DataInputX) returns (r: Result<(), Error>)
      modifies this`b3, d
      ensures r.Ok? ==> B3At(d.buf, old(d.offset), old(b3)) == Parsed(Ok(b3), d.offset)
      ensures r.Err? ==> B3At(d.buf, old(d.offset), old(b3)).result == Err(r.error)
    {
      hide DecimalAt, Int64At, BlobAt, ByteAt, BoolAt, ToInt32;
      if d.Available() > 0 {
        var b3Mode :- d.ReadBoolean();
        b3 := b3.(b3Mode := b3Mode);
      }
      r := Ok(());
    }

    method ReadDiscard(d: DataInputX) returns (r: Result<(), Error>)
      modifies this`discard, d
      ensures r.Ok? ==> DiscardAt(d.buf, old(d.offset), old(discard)) == Parsed(Ok(discard), d.offset)
      ensures r.Err? ==> DiscardAt(d.buf, old(d.offset), old(discard)).result == Err(r.error)
    {
      hide DecimalAt, Int64At, BlobAt, ByteAt, BoolAt, ToInt32;
      if d.Available() > 0 {
        var profileSize :- d.ReadDecimal();
        discard := discard.(profileSize := ToInt32(profileSize));
        var discardType :- d.ReadByte();
        discard := discard.(discardType := discardType);
        var ignoreGlobalConsequentSampling :- d.ReadBoolean();
        discard := discard.(ignoreGlobalConsequentSampling := ignoreGlobalConsequentSampling);
      }
      r := Ok(());
    }

    method Read(din: DataInputX) returns (r: Result<(), Error>)
      modifies this, din
      ensures r.Ok? ==> XLogAt(din.buf, old(din.offset), old(Value())) == Parsed(Ok(Value()), din.offset)
      ensures r.Err? ==> XLogAt(din.buf, old(din.offset), old(Value())).result == Err(r.error)
    {
      hide BlobAt, InnerAt, XLogPack.Value;
      var blob :- din.ReadBlob();
      var d := new DataInputX(blob);
      r := ReadInner(d);
    }

    method ReadInner(d: DataInputX) returns (r: Result<(), Error>)
      requires d.offset == 0
      modifies this, d
      ensures r.Ok? ==> InnerAt(d.buf, old(Value())) == Parsed(Ok(Value()), d.offset)
      ensures r.Err? ==> InnerAt(d.buf, old(Value())).result == Err(r.error)
    {
      hide HeadAt, CostsAt, ClientAt, FirstFourAt, NextFourAt, LastFourAt;
      var _ :- ReadHead(d);
      var _ :- ReadCosts(d);
      var _ :- ReadClient(d);
      var _ :- ReadFirstFour(d);
      var _ :- ReadNextFour(d);
      r := ReadLastFour(d);
    }

    method ReadFirstFour(d: DataInputX) returns (r: Result<(), Error>)
      modifies this`place, this`kind, this`user, this`web, d
      ensures r.Ok? ==> FirstFourAt(d.buf, old(d.offset), old(Value())) == Parsed(Ok(Value()), d.offset)
      ensures r.Err? ==> FirstFourAt(d.buf, old(d.offset), old(Value())).result == Err(r.error)
    {
      hide PlaceAt, KindAt, UserAt, WebAt;
      var _ :- ReadPlace(d);
      var _ :- ReadKind(d);
      var _ :- ReadUser(d);
      var _ :- ReadWeb(d);
      r := Ok(());
    }

    method ReadNextFour(d: DataInputX) returns (r: Result<(), Error>)
      modifies this`dump, this`thread, this`texts, this`queuing, d
      ensures r.Ok? ==> NextFourAt(d.buf, old(d.offset), old(Value())) == Parsed(Ok(Value()), d.offset)
      ensures r.Err? ==> NextFourAt(d.buf, old(d.offset), old(Value())).result == Err(r.error)
    {
      hide DumpAt, ThreadAt, TextsAt, QueuingAt;
      var _ :- ReadDump(d);
      var _ :- ReadThread(d);
      var _ :- ReadTexts(d);
      var _ :- ReadQueuing(d);
      r := Ok(());
    }

    method ReadLastFour(d: DataInputX) returns (r: Result<(), Error>)
      modifies this`moreTexts, this`profile, this`b3, this`discard, d
      ensures r.Ok? ==> LastFourAt(d.buf, old(d.offset), old(Value())) == Parsed(Ok(Value()), d.offset)
      ensures r.Err? ==> LastFourAt(d.buf, old(d.offset), old(Value())).result == Err(r.error)
    {
      hide MoreTextsAt, ProfileAt, B3At, DiscardAt;
      var _ :- ReadMoreTexts(d);
      var _ :- ReadProfile(d);
      var _ :- ReadB3(d);
      var _ :- ReadDiscard(d);
      r := Ok(());
    }
  }

  const ZERO := XLog(
    Head(0, 0, 0, 0, 0, 0, 0), Costs(0, 0, 0, 0, [], 0), Client(0, 0, 0, 0, 0, 0, 0), Place([], 0),
    Kind(0), User(0, 0), Web(0, 0), Dump(0),
    Thread(0), Texts([], []), Queuing(0, 0, 0, 0), MoreTexts([], [], []),
    Profile(0), B3(false), Discard(0, 0, false))

  method ReadXLogFilterFields(data: bytes) returns (r: Result<(int32, int32), Error>)
    ensures r == FilterAt(data).result
  {
    hide DecimalAt, BlobAt, ToInt32;
    var din := new DataInputX(data);
    var code :- din.ReadByte();
    var blob :- din.ReadBlobRef();
    var d := new DataInputX(blob);
    var endTime :- d.ReadDecimal();
    var objHash :- d.ReadDecimal();
    var service :- d.ReadDecimal();
    var skipped :- d.SkipBytes(24);
    var elapsed :- d.ReadDecimal();
    r := Ok((ToInt32(objHash), ToInt32(elapsed)));
  }
}
