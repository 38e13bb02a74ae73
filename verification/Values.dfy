/** The self-describing values of the wire format (internal/protocol/value). */
module Values {
  import opened Endian
  import opened DataStream
  import opened Results

  /** A Go string is its bytes and a float its bits. Nil is a nil interface or pointer. */
  datatype Value =
    | Nil
    | Null
    | Boolean(b: bool)
    | Decimal(n: int64)
    | Float(bits: int32)
    | Double(bits64: int64)
    | DoubleSummary(sumBits: int64, samples: int32, minBits: int64, maxBits: int64)
    | LongSummary(sum: int64, count: int32, min: int64, max: int64)
    | Text(text: bytes)
    | TextHash(hash: int32)
    | Blob(blob: bytes)
    | IP4(address: Address)
    | List(items: seq<Value>)
    | IntArray(ints: seq<int32>)
    | FloatArray(floats: seq<int32>)
    | TextArray(texts: seq<bytes>)
    | LongArray(longs: seq<int64>)
    | Map(entries: seq<Entry>)

  datatype Entry = Entry(key: bytes, value: Value)

  type Address = a: bytes | |a| == 4 witness [0, 0, 0, 0]

  // ----- the format ----------------------------------------------------------------------

  /** A nil is written as a null. */
  function Code(v: Value): byte {
    match v
    case Nil => 0
    case Null => 0
    case Boolean(_) => 10
    case Decimal(_) => 20
    case Float(_) => 30
    case Double(_) => 40
    case DoubleSummary(_, _, _, _) => 45
    case LongSummary(_, _, _, _) => 46
    case Text(_) => 50
    case TextHash(_) => 51
    case Blob(_) => 60
    case IP4(_) => 61
    case List(_) => 70
    case IntArray(_) => 71
    case FloatArray(_) => 72
    case TextArray(_) => 73
    case LongArray(_) => 74
    case Map(_) => 80
  }

  function EncSummary(sum: int64, count: int32, min: int64, max: int64): bytes {
    Put(8, sum) + (Put(4, count) + (Put(8, min) + Put(8, max)))
  }

  function EncValue(v: Value): bytes
    decreases v, 1
  {
    [Code(v)] + EncBody(v)
  }

  function EncBody(v: Value): bytes
    decreases v, 0
  {
    match v
    case Nil => []
    case Null => []
    case Boolean(b) => EncBool(b)
    case Decimal(n) => EncDecimal(n)
    case Float(bits) => Put(4, bits)
    case Double(bits) => Put(8, bits)
    case DoubleSummary(sum, count, min, max) => EncSummary(sum, count, min, max)
    case LongSummary(sum, count, min, max) => EncSummary(sum, count, min, max)
    case Text(t) => EncBlob(t)
    case TextHash(h) => Put(4, h)
    case Blob(b) => EncBlob(b)
    case IP4(a) => a
    case List(items) => EncDecimal(|items|) + EncValues(items)
    case IntArray(xs) => EncArray(xs, PutInt32)
    case FloatArray(xs) => EncArray(xs, PutInt32)
    case TextArray(xs) => EncArray(xs, EncBlob)
    case LongArray(xs) => EncArray(xs, PutInt64)
    case Map(entries) => EncDecimal(|entries|) + EncEntries(entries)
  }

  function EncValues(vs: seq<Value>): bytes
    decreases vs, 2
  {
    if vs == [] then [] else EncValue(vs[0]) + EncValues(vs[1..])
  }

  function EncEntries(es: seq<Entry>): bytes
    decreases es, 2
  {
    if es == [] then [] else EncBlob(es[0].key) + (EncValue(es[0].value) + EncEntries(es[1..]))
  }

  // ----- what the reads mean -------------------------------------------------------------

  datatype Summary = Summary(sum: int64, count: int32, min: int64, max: int64)

  function SummaryAt(buf: bytes, off: nat): (p: Parsed<Summary>)
    ensures p.offset >= off
  {
    match Int64At(buf, off)
    case Parsed(Err(e), o) => Parsed(Err(e), o)
    case Parsed(Ok(sum), o1) =>
      match Int32At(buf, o1)
      case Parsed(Err(e), o) => Parsed(Err(e), o)
      case Parsed(Ok(count), o2) =>
        match Int64At(buf, o2)
        case Parsed(Err(e), o) => Parsed(Err(e), o)
        case Parsed(Ok(min), o3) => Int64At(buf, o3).Map(max => Summary(sum, count, min, max))
  }

  function AddressAt(buf: bytes, off: nat): Parsed<Address> {
    if off + 4 > |buf| then Parsed(Err(EndOfData), off) else Parsed(Ok(buf[off..off + 4]), off + 4)
  }

  function Left(buf: bytes, off: nat): nat {
    if off <= |buf| then |buf| - off else 0
  }

  function ValueAt(buf: bytes, off: nat): (p: Parsed<Value>)
    ensures p.offset >= off
    decreases Left(buf, off), 0
  {
    match ByteAt(buf, off)
    case Parsed(Ok(code), o) => BodyAt(code, buf, o)
    case Parsed(Err(e), o) => Parsed(Err(e), o)
  }

  /** The values without values inside. */
  function LeafAt(code: byte, buf: bytes, off: nat): (p: Parsed<Value>) {
    if code == 0 then Parsed(Ok(Null), off)
    else if code == 10 then BoolAt(buf, off).Map(x => Boolean(x))
    else if code == 20 then DecimalAt(buf, off).Map(x => Decimal(x))
    else if code == 30 then Int32At(buf, off).Map(x => Float(x))
    else if code == 40 then Int64At(buf, off).Map(x => Double(x))
    else if code == 45 then SummaryAt(buf, off).Map((s: Summary) => DoubleSummary(s.sum, s.count, s.min, s.max))
    else if code == 46 then SummaryAt(buf, off).Map((s: Summary) => LongSummary(s.sum, s.count, s.min, s.max))
    else if code == 50 then BlobAt(buf, off).Map(x => Text(x))
    else if code == 51 then Int32At(buf, off).Map(x => TextHash(x))
    else if code == 60 then BlobAt(buf, off).Map(x => Blob(x))
    else if code == 61 then AddressAt(buf, off).Map(x => IP4(x))
    else if code == 71 then ArrayAt(buf, off, Int32At).Map(x => IntArray(x))
    else if code == 72 then ArrayAt(buf, off, Int32At).Map(x => FloatArray(x))
    else if code == 73 then ArrayAt(buf, off, BlobAt).Map(x => TextArray(x))
    else if code == 74 then ArrayAt(buf, off, Int64At).Map(x => LongArray(x))
    else Parsed(Err(UnknownType(code)), off)
  }

  function BodyAt(code: byte, buf: bytes, off: nat): (p: Parsed<Value>)
    ensures p.offset >= off
    decreases Left(buf, off), 2
  {
    if code == 70 then
      match DecimalAt(buf, off)
      case Parsed(Ok(n), o) =>
        if n < 0 then Parsed(Err(Panicked), o) else ValuesAt(n, buf, o).Map(x => List(x))
      case Parsed(Err(e), o) => Parsed(Err(e), o)
    else if code == 80 then
      match DecimalAt(buf, off)
      case Parsed(Ok(n), o) =>
        if n < 0 then Parsed(Err(Panicked), o) else EntriesAt(n, buf, o).Map(x => Map(x))
      case Parsed(Err(e), o) => Parsed(Err(e), o)
    else
      LeafForward(code, buf, off);
      LeafAt(code, buf, off)
  }

  function ValuesAt(n: nat, buf: bytes, off: nat): (p: Parsed<seq<Value>>)
    ensures p.offset >= off
    decreases Left(buf, off), 1, n
  {
    if n == 0 then Parsed(Ok([]), off)
    else
      match ValueAt(buf, off)
      case Parsed(Ok(v), o) => Prepend([v], ValuesAt(n - 1, buf, o))
      case Parsed(Err(e), o) => Parsed(Err(e), o)
  }

  function EntriesAt(n: nat, buf: bytes, off: nat): (p: Parsed<seq<Entry>>)
    ensures p.offset >= off
    decreases Left(buf, off), 1, n
  {
    if n == 0 then Parsed(Ok([]), off)
    else
      match BlobAt(buf, off)
      case Parsed(Ok(k), o) =>
        (match ValueAt(buf, o)
         case Parsed(Ok(v), o2) => Prepend([Entry(k, v)], EntriesAt(n - 1, buf, o2))
         case Parsed(Err(e), o2) => Parsed(Err(e), o2))
      case Parsed(Err(e), o) => Parsed(Err(e), o)
  }

  lemma LeafForward(code: byte, buf: bytes, off: nat)
    ensures LeafAt(code, buf, off).offset >= off
  {
    hide ArrayAt, SummaryAt, BoolAt, DecimalAt, Int32At, Int64At, BlobAt;
    ArrayForward(buf, off, Int32At);
    ArrayForward(buf, off, Int64At);
    ArrayForward(buf, off, BlobAt);
  }

  // ----- reading inverts writing ---------------------------------------------------------

  /** What comes back: a nil returns as a null. */
  function Norm(v: Value): Value {
    match v
    case Nil => Null
    case List(items) => List(NormAll(items))
    case Map(entries) => Map(NormEntries(entries))
    case _ => v
  }

  function NormAll(vs: seq<Value>): (r: seq<Value>)
    ensures |r| == |vs|
  {
    if vs == [] then [] else [Norm(vs[0])] + NormAll(vs[1..])
  }

  function NormEntries(es: seq<Entry>): (r: seq<Entry>)
    ensures |r| == |es|
  {
    if es == [] then [] else [Entry(es[0].key, Norm(es[0].value))] + NormEntries(es[1..])
  }

  /** The lengths that the counts and length prefixes of the format can state. */
  predicate WithinLimits(v: Value) {
    match v
    case Text(t) => |t| < 0x8000_0000
    case Blob(b) => |b| < 0x8000_0000
    case List(items) => |items| < 0x8000_0000_0000_0000 && AllWithin(items)
    case IntArray(xs) => |xs| <= 32767
    case FloatArray(xs) => |xs| <= 32767
    case TextArray(xs) => |xs| <= 32767 && forall t :: t in xs ==> |t| < 0x8000_0000
    case LongArray(xs) => |xs| <= 32767
    case Map(entries) => |entries| < 0x8000_0000_0000_0000 && EntriesWithin(entries)
    case _ => true
  }

  predicate AllWithin(vs: seq<Value>) {
    vs != [] ==> WithinLimits(vs[0]) && AllWithin(vs[1..])
  }

  predicate EntriesWithin(es: seq<Entry>) {
    es != [] ==> |es[0].key| < 0x8000_0000 && WithinLimits(es[0].value) && EntriesWithin(es[1..])
  }

  lemma SummaryRoundTrip(buf: bytes, off: nat, s: Summary)
    requires At(buf, off, EncSummary(s.sum, s.count, s.min, s.max))
    ensures SummaryAt(buf, off) == Parsed(Ok(s), off + 28)
  {
    hide Int64At, Int32At, At, Put;
    AtConcat(buf, off, Put(8, s.sum), Put(4, s.count) + (Put(8, s.min) + Put(8, s.max)));
    AtConcat(buf, off + 8, Put(4, s.count), Put(8, s.min) + Put(8, s.max));
    AtConcat(buf, off + 12, Put(8, s.min), Put(8, s.max));
    Int64RoundTrip(buf, off, s.sum);
    Int32RoundTrip(buf, off + 8, s.count);
    Int64RoundTrip(buf, off + 12, s.min);
    Int64RoundTrip(buf, off + 20, s.max);
  }

  lemma ArraysRoundTrip(buf: bytes, off: nat, v: Value)
    requires (v.IntArray? || v.FloatArray? || v.LongArray? || v.TextArray?) && WithinLimits(v) && At(buf, off, EncBody(v))
    ensures LeafAt(Code(v), buf, off) == Parsed(Ok(v), off + |EncBody(v)|)
  {
    hide At, ArrayAt, EncArray, Int32At, Int64At, BlobAt, PutInt32, PutInt64, EncBlob;
    forall x: int32 ensures Inverse(x, PutInt32, Int32At, buf) {
      forall o: nat | At(buf, o, PutInt32(x)) ensures Int32At(buf, o) == Parsed(Ok(x), o + |PutInt32(x)|) {
        Int32RoundTrip(buf, o, x);
        Widths(x);
      }
    }
    forall x: int64 ensures Inverse(x, PutInt64, Int64At, buf) {
      forall o: nat | At(buf, o, PutInt64(x)) ensures Int64At(buf, o) == Parsed(Ok(x), o + |PutInt64(x)|) {
        Int64RoundTrip(buf, o, x);
        Widths(x);
      }
    }
    forall t: bytes | |t| < 0x8000_0000 ensures Inverse(t, EncBlob, BlobAt, buf) {
      forall o: nat | At(buf, o, EncBlob(t)) ensures BlobAt(buf, o) == Parsed(Ok(t), o + |EncBlob(t)|) {
        BlobRoundTrip(buf, o, t);
      }
    }
    match v
    case IntArray(xs) => ArrayRoundTrip(xs, PutInt32, Int32At, buf, off);
    case FloatArray(xs) => ArrayRoundTrip(xs, PutInt32, Int32At, buf, off);
    case LongArray(xs) => ArrayRoundTrip(xs, PutInt64, Int64At, buf, off);
    case TextArray(xs) => ArrayRoundTrip(xs, EncBlob, BlobAt, buf, off);
  }

  lemma Widths(x: int64)
    ensures |PutInt64(x)| == 8 && (-0x8000_0000 <= x < 0x8000_0000 ==> |PutInt32(x)| == 4)
  {
  }

  lemma LeafRoundTrip(buf: bytes, off: nat, v: Value)
    requires !v.List? && !v.Map? && WithinLimits(v) && At(buf, off, EncBody(v))
    ensures LeafAt(Code(v), buf, off) == Parsed(Ok(Norm(v)), off + |EncBody(v)|)
  {
    hide ArrayAt, EncArray, Int32At, Int64At, BlobAt, DecimalAt, EncBlob, EncDecimal, SummaryAt, EncSummary, Put;
    match v
    case Boolean(b) => AtIndex(buf, off, EncBool(b), 0);
    case Decimal(n) => DecimalRoundTrip(buf, off, n);
    case Float(bits) => Int32RoundTrip(buf, off, bits);
    case Double(bits) => Int64RoundTrip(buf, off, bits);
    case DoubleSummary(sum, count, min, max) =>
      SummaryRoundTrip(buf, off, Summary(sum, count, min, max));
      SummaryLength(Summary(sum, count, min, max));
    case LongSummary(sum, count, min, max) =>
      SummaryRoundTrip(buf, off, Summary(sum, count, min, max));
      SummaryLength(Summary(sum, count, min, max));
    case Text(t) => BlobRoundTrip(buf, off, t);
    case TextHash(h) => Int32RoundTrip(buf, off, h);
    case Blob(b) => BlobRoundTrip(buf, off, b);
    case IntArray(_) => ArraysRoundTrip(buf, off, v);
    case FloatArray(_) => ArraysRoundTrip(buf, off, v);
    case TextArray(_) => ArraysRoundTrip(buf, off, v);
    case LongArray(_) => ArraysRoundTrip(buf, off, v);
    case _ =>
  }

  lemma SummaryLength(s: Summary)
    ensures |EncSummary(s.sum, s.count, s.min, s.max)| == 28
  {
  }

  /** Reading a written value returns it and stops at its end, whatever follows. */
  lemma {:induction false} ValueRoundTrip(buf: bytes, off: nat, v: Value)
    requires WithinLimits(v) && At(buf, off, EncValue(v))
    ensures ValueAt(buf, off) == Parsed(Ok(Norm(v)), off + |EncValue(v)|)
    decreases v, 1
  {
    hide At, BodyAt, EncBody, WithinLimits, Norm;
    AtConcat(buf, off, [Code(v)], EncBody(v));
    CodeAt(buf, off, v);
    BodyRoundTrip(buf, off + 1, v);
  }

  lemma {:induction false} BodyRoundTrip(buf: bytes, off: nat, v: Value)
    requires WithinLimits(v) && At(buf, off, EncBody(v))
    ensures BodyAt(Code(v), buf, off) == Parsed(Ok(Norm(v)), off + |EncBody(v)|)
    decreases v, 0
  {
    hide At, LeafAt, DecimalAt, EncDecimal, EncValues, EncEntries, ValuesAt, EntriesAt, AllWithin, EntriesWithin, NormAll, NormEntries;
    match v
    case List(items) =>
      AtConcat(buf, off, EncDecimal(|items|), EncValues(items));
      DecimalRoundTrip(buf, off, |items|);
      ValuesRoundTrip(buf, off + |EncDecimal(|items|)|, items);
    case Map(entries) =>
      AtConcat(buf, off, EncDecimal(|entries|), EncEntries(entries));
      DecimalRoundTrip(buf, off, |entries|);
      EntriesRoundTrip(buf, off + |EncDecimal(|entries|)|, entries);
    case _ => LeafRoundTrip(buf, off, v);
  }

  lemma CodeAt(buf: bytes, off: nat, v: Value)
    requires At(buf, off, [Code(v)])
    ensures ByteAt(buf, off) == Parsed(Ok(Code(v)), off + 1)
  {
    AtIndex(buf, off, [Code(v)], 0);
  }

  lemma {:induction false} ValuesRoundTrip(buf: bytes, off: nat, vs: seq<Value>)
    requires AllWithin(vs) && At(buf, off, EncValues(vs))
    ensures ValuesAt(|vs|, buf, off) == Parsed(Ok(NormAll(vs)), off + |EncValues(vs)|)
    decreases vs, 2
  {
    hide At, EncValue, ValueAt;
    if vs != [] {
      AtConcat(buf, off, EncValue(vs[0]), EncValues(vs[1..]));
      ValueRoundTrip(buf, off, vs[0]);
      ValuesRoundTrip(buf, off + |EncValue(vs[0])|, vs[1..]);
    }
  }

  lemma {:induction false} EntriesRoundTrip(buf: bytes, off: nat, es: seq<Entry>)
    requires EntriesWithin(es) && At(buf, off, EncEntries(es))
    ensures EntriesAt(|es|, buf, off) == Parsed(Ok(NormEntries(es)), off + |EncEntries(es)|)
    decreases es, 2
  {
    hide At, EncValue, ValueAt, BlobAt, EncBlob;
    if es != [] {
      var k, v := es[0].key, es[0].value;
      AtConcat(buf, off, EncBlob(k), EncValue(v) + EncEntries(es[1..]));
      AtConcat(buf, off + |EncBlob(k)|, EncValue(v), EncEntries(es[1..]));
      BlobRoundTrip(buf, off, k);
      ValueRoundTrip(buf, off + |EncBlob(k)|, v);
      EntriesRoundTrip(buf, off + |EncBlob(k)| + |EncValue(v)|, es[1..]);
    }
  }

  // ----- what can be read at all ---------------------------------------------------------

  /** Every value that is read is within the limits and without a nil, whatever the bytes. */
  lemma {:induction false} ReadsWithinLimits(buf: bytes, off: nat)
    ensures match ValueAt(buf, off).result case Ok(v) => WithinLimits(v) && Norm(v) == v case Err(_) => true
    decreases Left(buf, off), 0
  {
    hide LeafAt, WithinLimits, Norm;
    if off < |buf| {
      BodyWithinLimits(buf[off], buf, off + 1);
    }
  }

  lemma {:induction false} BodyWithinLimits(code: byte, buf: bytes, off: nat)
    ensures match BodyAt(code, buf, off).result case Ok(v) => WithinLimits(v) && Norm(v) == v case Err(_) => true
    decreases Left(buf, off), 2
  {
    hide LeafAt, DecimalAt, AllWithin, EntriesWithin, NormAll, NormEntries;
    if code == 70 || code == 80 {
      var d := DecimalAt(buf, off);
      if d.result.Ok? && d.result.value >= 0 {
        DecimalAdvances(buf, off);
        ValuesWithinLimits(d.result.value, buf, d.offset);
        EntriesWithinLimits(d.result.value, buf, d.offset);
      }
    } else {
      LeafWithinLimits(code, buf, off);
    }
  }

  lemma DecimalAdvances(buf: bytes, off: nat)
    ensures DecimalAt(buf, off).result.Ok? ==> DecimalAt(buf, off).offset > off && Left(buf, DecimalAt(buf, off).offset) < Left(buf, off)
  {
  }

  lemma LeafWithinLimits(code: byte, buf: bytes, off: nat)
    ensures match LeafAt(code, buf, off).result case Ok(v) => WithinLimits(v) && Norm(v) == v case Err(_) => true
  {
    hide ArrayAt, SummaryAt, BoolAt, DecimalAt, Int32At, Int64At, BlobAt;
    ArrayWithinLimits(buf, off, Int32At);
    ArrayWithinLimits(buf, off, Int64At);
    ArrayWithinLimits(buf, off, BlobAt);
    TextsWithinLimits(buf, off);
    BlobWithinLimits(buf, off);
  }

  lemma BlobWithinLimits(buf: bytes, off: nat)
    ensures BlobAt(buf, off).result.Ok? ==> |BlobAt(buf, off).result.value| < 0x8000_0000
  {
    PowValues();
    if off < |buf| && buf[off] == 255 && off + 3 <= |buf| {
      UnsignedBound(buf[off + 1..off + 3]);
    }
  }

  lemma TextsWithinLimits(buf: bytes, off: nat)
    ensures match ArrayAt(buf, off, BlobAt).result
      case Ok(xs) => forall t :: t in xs ==> |t| < 0x8000_0000
      case Err(_) => true
  {
    hide BlobAt;
    var c := SignedAt(buf, off, 2);
    if c.result.Ok? && c.result.value >= 0 {
      BlobsWithinLimits(c.result.value, buf, c.offset);
    }
  }

  lemma {:induction false} BlobsWithinLimits(n: nat, buf: bytes, off: nat)
    ensures match RepeatAt(n, buf, off, BlobAt).result
      case Ok(xs) => forall t :: t in xs ==> |t| < 0x8000_0000
      case Err(_) => true
  {
    hide BlobAt;
    if n > 0 {
      BlobWithinLimits(buf, off);
      BlobsWithinLimits(n - 1, buf, BlobAt(buf, off).offset);
    }
  }

  lemma {:induction false} ValuesWithinLimits(n: nat, buf: bytes, off: nat)
    ensures match ValuesAt(n, buf, off).result case Ok(vs) => |vs| == n && AllWithin(vs) && NormAll(vs) == vs case Err(_) => true
    decreases Left(buf, off), 1, n
  {
    hide ValueAt, WithinLimits, Norm;
    if n > 0 {
      ReadsWithinLimits(buf, off);
      ValuesWithinLimits(n - 1, buf, ValueAt(buf, off).offset);
    }
  }

  lemma {:induction false} EntriesWithinLimits(n: nat, buf: bytes, off: nat)
    ensures match EntriesAt(n, buf, off).result case Ok(es) => |es| == n && EntriesWithin(es) && NormEntries(es) == es case Err(_) => true
    decreases Left(buf, off), 1, n
  {
    hide ValueAt, BlobAt, WithinLimits, Norm;
    if n > 0 {
      var k := BlobAt(buf, off);
      if k.result.Ok? {
        BlobWithinLimits(buf, off);
        ReadsWithinLimits(buf, k.offset);
        EntriesWithinLimits(n - 1, buf, ValueAt(buf, k.offset).offset);
      }
    }
  }

  lemma {:induction false} NormKeepsLimits(v: Value)
    ensures WithinLimits(Norm(v)) == WithinLimits(v)
    decreases v, 1
  {
    match v
    case List(items) => NormAllKeepsLimits(items);
    case Map(entries) => NormEntriesKeepsLimits(entries);
    case _ =>
  }

  lemma {:induction false} NormAllKeepsLimits(vs: seq<Value>)
    ensures AllWithin(NormAll(vs)) == AllWithin(vs)
    decreases vs, 2
  {
    if vs != [] {
      NormKeepsLimits(vs[0]);
      NormAllKeepsLimits(vs[1..]);
      assert NormAll(vs)[1..] == NormAll(vs[1..]);
    }
  }

  lemma {:induction false} NormEntriesKeepsLimits(es: seq<Entry>)
    ensures EntriesWithin(NormEntries(es)) == EntriesWithin(es)
    decreases es, 2
  {
    if es != [] {
      NormKeepsLimits(es[0].value);
      NormEntriesKeepsLimits(es[1..]);
      assert NormEntries(es)[1..] == NormEntries(es[1..]);
    }
  }

  /** The limits are exact: a written value comes back if and only if it keeps them. */
  lemma RoundTripIff(buf: bytes, off: nat, v: Value)
    requires At(buf, off, EncValue(v))
    ensures ValueAt(buf, off).result == Ok(Norm(v)) <==> WithinLimits(v)
  {
    hide At, EncValue, ValueAt, WithinLimits, Norm;
    if WithinLimits(v) {
      ValueRoundTrip(buf, off, v);
    }
    ReadsWithinLimits(buf, off);
    NormKeepsLimits(v);
  }

  // ----- the writer and the reader -------------------------------------------------------

  method WriteValue(o: DataOutputX, v: Value)
    requires o.Valid()
    modifies o
    ensures o.Valid() && o.buf == old(o.buf) + EncValue(v)
    decreases v, 1
  {
    if v.Nil? {
      o.WriteByte(Code(Null));
      return;
    }
    o.WriteByte(Code(v));
    WriteBody(o, v);
    assert old(o.buf) + [Code(v)] + EncBody(v) == old(o.buf) + ([Code(v)] + EncBody(v));
  }

  method WriteSummary(o: DataOutputX, sum: int64, count: int32, min: int64, max: int64)
    requires o.Valid()
    modifies o
    ensures o.Valid() && o.buf == old(o.buf) + EncSummary(sum, count, min, max)
  {
    hide Put;
    o.WriteInt(8, sum);
    o.WriteInt(4, count);
    o.WriteInt(8, min);
    o.WriteInt(8, max);
  }

  /** The Write methods of the value types. */
  method WriteBody(o: DataOutputX, v: Value)
    requires o.Valid() && !v.Nil?
    modifies o
    ensures o.Valid() && o.buf == old(o.buf) + EncBody(v)
    decreases v, 0
  {
    hide Put, EncBlob, EncDecimal, EncArray, EncSummary, EncBool, EncValues, EncEntries;
    match v
    case Null =>
      assert o.buf + [] == o.buf;
    case Boolean(b) => o.WriteBoolean(b);
    case Decimal(n) => o.WriteDecimal(n);
    case Float(bits) => o.WriteInt(4, bits);
    case Double(bits) => o.WriteInt(8, bits);
    case DoubleSummary(sum, count, min, max) => WriteSummary(o, sum, count, min, max);
    case LongSummary(sum, count, min, max) => WriteSummary(o, sum, count, min, max);
    case Text(t) => o.WriteText(t);
    case TextHash(h) => o.WriteInt(4, h);
    case Blob(b) => o.WriteBlob(b);
    case IP4(a) => o.Write(a);
    case List(items) =>
      o.WriteDecimal(|items|);
      WriteValues(o, items);
      assert old(o.buf) + EncDecimal(|items|) + EncValues(items) == old(o.buf) + (EncDecimal(|items|) + EncValues(items));
    case IntArray(xs) => o.WriteArrayInt(xs);
    case FloatArray(xs) => o.WriteArrayInt(xs);
    case TextArray(xs) => o.WriteArrayText(xs);
    case LongArray(xs) => o.WriteArrayLong(xs);
    case Map(entries) =>
      o.WriteDecimal(|entries|);
      WriteEntries(o, entries);
      assert old(o.buf) + EncDecimal(|entries|) + EncEntries(entries)
          == old(o.buf) + (EncDecimal(|entries|) + EncEntries(entries));
  }

  /** The loop over a list. */
  method WriteValues(o: DataOutputX, vs: seq<Value>)
    requires o.Valid()
    modifies o
    ensures o.Valid() && o.buf == old(o.buf) + EncValues(vs)
    decreases vs, 2
  {
    hide EncValue;
    assert vs[0..] == vs;
    for i := 0 to |vs|
      invariant o.Valid() && o.buf + EncValues(vs[i..]) == old(o.buf) + EncValues(vs)
    {
      assert vs[i..][0] == vs[i] && vs[i..][1..] == vs[i + 1..];
      assert o.buf + (EncValue(vs[i]) + EncValues(vs[i + 1..])) == o.buf + EncValue(vs[i]) + EncValues(vs[i + 1..]);
      WriteValue(o, vs[i]);
    }
    assert o.buf + [] == o.buf;
  }

  /** The loop over a map. */
  method WriteEntries(o: DataOutputX, es: seq<Entry>)
    requires o.Valid()
    modifies o
    ensures o.Valid() && o.buf == old(o.buf) + EncEntries(es)
    decreases es, 2
  {
    hide EncValue, EncBlob;
    assert es[0..] == es;
    for i := 0 to |es|
      invariant o.Valid() && o.buf + EncEntries(es[i..]) == old(o.buf) + EncEntries(es)
    {
      var e := es[i];
      assert es[i..][0] == e && es[i..][1..] == es[i + 1..];
      assert o.buf + (EncBlob(e.key) + (EncValue(e.value) + EncEntries(es[i + 1..])))
          == o.buf + EncBlob(e.key) + EncValue(e.value) + EncEntries(es[i + 1..]);
      o.WriteText(e.key);
      WriteValue(o, e.value);
    }
    assert o.buf + [] == o.buf;
  }

  method ReadValue(d: DataInputX) returns (r: Result<Value, Error>)
    modifies d
    ensures Parsed(r, d.offset) == ValueAt(d.buf, old(d.offset))
    decreases Left(d.buf, d.offset), 0
  {
    hide BodyAt;
    var code := d.ReadByte();
    if code.Err? {
      return Err(code.error);
    }
    r := ReadBody(d, code.value);
  }

  method ReadSummary(d: DataInputX) returns (r: Result<Summary, Error>)
    modifies d
    ensures Parsed(r, d.offset) == SummaryAt(d.buf, old(d.offset))
  {
    hide Int64At, Int32At;
    var sum := d.ReadInt64();
    if sum.Err? {
      return Err(sum.error);
    }
    var count := d.ReadInt32();
    if count.Err? {
      return Err(count.error);
    }
    var min := d.ReadInt64();
    if min.Err? {
      return Err(min.error);
    }
    var max := d.ReadInt64();
    if max.Err? {
      return Err(max.error);
    }
    r := Ok(Summary(sum.value, count.value, min.value, max.value));
  }

  /** What `x, err := read(); v.Value = x` leaves behind. */
  function Made<T>(r: Result<T, Error>, f: T -> Value): Result<Value, Error> {
    match r
    case Ok(x) => Ok(f(x))
    case Err(e) => Err(e)
  }

  /** CreateValue and the Read methods of the value types. */
  method ReadBody(d: DataInputX, code: byte) returns (r: Result<Value, Error>)
    modifies d
    ensures Parsed(r, d.offset) == BodyAt(code, d.buf, old(d.offset))
    decreases Left(d.buf, d.offset), 2
  {
    hide LeafAt, DecimalAt;
    if code == 70 {
      var count := d.ReadDecimal();
      if count.Err? {
        return Err(count.error);
      }
      if count.value < 0 {
        return Err(Panicked);
      }
      DecimalAdvances(d.buf, old(d.offset));
      var items := ReadValues(d, count.value);
      r := Made(items, x => List(x));
    } else if code == 80 {
      var count := d.ReadDecimal();
      if count.Err? {
        return Err(count.error);
      }
      if count.value < 0 {
        return Err(Panicked);
      }
      DecimalAdvances(d.buf, old(d.offset));
      var entries := ReadEntries(d, count.value);
      r := Made(entries, x => Map(x));
    } else {
      r := ReadLeaf(d, code);
    }
  }

  method ReadLeaf(d: DataInputX, code: byte) returns (r: Result<Value, Error>)
    modifies d
    ensures Parsed(r, d.offset) == LeafAt(code, d.buf, old(d.offset))
  {
    hide ArrayAt, SummaryAt, BoolAt, DecimalAt, Int32At, Int64At, BlobAt;
    match code {
      case 0 => r := Ok(Null);
      case 10 =>
        var x := d.ReadBoolean();
        r := Made(x, b => Boolean(b));
      case 20 =>
        var x := d.ReadDecimal();
        r := Made(x, n => Decimal(n));
      case 30 =>
        var x := d.ReadInt32();
        r := Made(x, bits => Float(bits));
      case 40 =>
        var x := d.ReadInt64();
        r := Made(x, bits => Double(bits));
      case 45 =>
        var x := ReadSummary(d);
        r := Made(x, (s: Summary) => DoubleSummary(s.sum, s.count, s.min, s.max));
      case 46 =>
        var x := ReadSummary(d);
        r := Made(x, (s: Summary) => LongSummary(s.sum, s.count, s.min, s.max));
      case 50 =>
        var x := d.ReadText();
        r := Made(x, t => Text(t));
      case 51 =>
        var x := d.ReadInt32();
        r := Made(x, h => TextHash(h));
      case 60 =>
        var x := d.ReadBlob();
        r := Made(x, b => Blob(b));
      case 61 =>
        var x := d.Read(4);
        if x.Err? {
          return Err(x.error);
        }
        r := Ok(IP4(x.value));
      case 71 =>
        var x := d.ReadArrayInt();
        r := Made(x, xs => IntArray(xs));
      case 72 =>
        var x := d.ReadArrayInt();
        r := Made(x, xs => FloatArray(xs));
      case 73 =>
        var x := d.ReadArrayText();
        r := Made(x, xs => TextArray(xs));
      case 74 =>
        var x := d.ReadArrayLong();
        r := Made(x, xs => LongArray(xs));
      case _ => r := Err(UnknownType(code));
    }
  }

  method ReadValues(d: DataInputX, count: nat) returns (r: Result<seq<Value>, Error>)
    modifies d
    ensures Parsed(r, d.offset) == ValuesAt(count, d.buf, old(d.offset))
    decreases Left(d.buf, d.offset), 1
  {
    hide ValueAt, Prepend;
    var values: seq<Value> := [];
    PrependNothing(ValuesAt(count, d.buf, d.offset));
    for i := 0 to count
      invariant d.offset >= old(d.offset)
      invariant ValuesAt(count, d.buf, old(d.offset)) == Prepend(values, ValuesAt(count - i, d.buf, d.offset))
    {
      var element := ReadValue(d);
      if element.Err? {
        PrependErr(values, element.error, d.offset);
        return Err(element.error);
      }
      PrependTwice(values, element.value, ValuesAt(count - i - 1, d.buf, d.offset));
      values := values + [element.value];
    }
    PrependToNothing(values, d.offset);
    r := Ok(values);
  }

  method ReadEntries(d: DataInputX, count: nat) returns (r: Result<seq<Entry>, Error>)
    modifies d
    ensures Parsed(r, d.offset) == EntriesAt(count, d.buf, old(d.offset))
    decreases Left(d.buf, d.offset), 1
  {
    hide ValueAt, BlobAt, Prepend;
    var entries: seq<Entry> := [];
    PrependNothing(EntriesAt(count, d.buf, d.offset));
    for i := 0 to count
      invariant d.offset >= old(d.offset)
      invariant EntriesAt(count, d.buf, old(d.offset)) == Prepend(entries, EntriesAt(count - i, d.buf, d.offset))
    {
      var key := d.ReadText();
      if key.Err? {
        PrependErr(entries, key.error, d.offset);
        return Err(key.error);
      }
      var val := ReadValue(d);
      if val.Err? {
        PrependErr(entries, val.error, d.offset);
        return Err(val.error);
      }
      PrependTwice(entries, Entry(key.value, val.value), EntriesAt(count - i - 1, d.buf, d.offset));
      entries := entries + [Entry(key.value, val.value)];
    }
    PrependToNothing(entries, d.offset);
    r := Ok(entries);
  }
}
