/** The buffer-mode writer and reader of the wire format
    (internal/protocol/dataoutx.go, internal/protocol/datainx.go). */
module DataStream {
  import opened Endian
  import opened Results

  datatype Error = EndOfData | UnknownType(code: byte) | Panicked

  /** What a read returns and where it leaves the cursor. */
  datatype Parsed<+T> = Parsed(result: Result<T, Error>, offset: nat) {
    function Map<U>(f: T -> U): Parsed<U> {
      match result
      case Ok(v) => Parsed(Ok(f(v)), offset)
      case Err(e) => Parsed(Err(e), offset)
    }

    predicate IsFailure() {
      result.Err?
    }

    function PropagateFailure<U>(): Parsed<U>
      requires result.Err?
    {
      Parsed(Err(result.error), offset)
    }

    function Extract(): (T, nat)
      requires result.Ok?
    {
      (result.value, offset)
    }
  }

  // ----- the format ----------------------------------------------------------------------

  /** Bytes that follow the width byte of a decimal. */
  function DecimalWidth(v: int): nat {
    if v == 0 then 0
    else if -128 <= v <= 127 then 1
    else if -32768 <= v <= 32767 then 2
    else if -0x80_0000 <= v <= 0x7f_ffff then 3
    else if -0x8000_0000 <= v <= 0x7fff_ffff then 4
    else if LONG5_MIN <= v <= LONG5_MAX then 5
    else 8
  }

  function EncDecimal(v: int): (b: bytes)
    ensures |b| >= 1
  {
    [DecimalWidth(v)] + Put(DecimalWidth(v), v)
  }

  /** The length prefix of a blob: one byte, or a mark and two or four bytes. */
  function BlobHeader(n: nat): (h: bytes)
    ensures 1 <= |h| <= 5
  {
    if n <= 253 then [n]
    else if n <= 65535 then [255] + Put(2, n)
    else [254] + Put(4, n)
  }

  function EncBlob(b: bytes): (e: bytes)
    ensures |e| > |b|
  {
    BlobHeader(|b|) + b
  }

  function EncBool(v: bool): (b: bytes)
    ensures |b| == 1
  {
    [if v then 1 else 0]
  }

  function PutInt32(x: int32): bytes {
    Put(4, x)
  }

  function PutInt64(x: int64): bytes {
    Put(8, x)
  }

  /** The encodings of the elements one after the other. */
  function EncAll<T>(xs: seq<T>, enc: T -> bytes): bytes {
    if xs == [] then [] else enc(xs[0]) + EncAll(xs[1..], enc)
  }

  /** An array has a two-byte count. */
  function EncArray<T>(xs: seq<T>, enc: T -> bytes): bytes {
    Put(2, |xs|) + EncAll(xs, enc)
  }

  /** s stands in buf at off. */
  ghost predicate At(buf: bytes, off: nat, s: bytes) {
    off + |s| <= |buf| && buf[off..off + |s|] == s
  }

  lemma AtConcat(buf: bytes, off: nat, s: bytes, t: bytes)
    ensures At(buf, off, s + t) <==> At(buf, off, s) && At(buf, off + |s|, t)
  {
    if off + |s| + |t| <= |buf| {
      var whole := buf[off..off + |s| + |t|];
      assert whole[..|s|] == buf[off..off + |s|] && whole[|s|..] == buf[off + |s|..off + |s| + |t|];
      assert (s + t)[..|s|] == s && (s + t)[|s|..] == t;
      assert whole == whole[..|s|] + whole[|s|..];
    }
  }

  lemma SliceAt(buf: bytes, off: nat, s: bytes)
    requires At(buf, off, s)
    ensures off + |s| <= |buf| && buf[off..off + |s|] == s
  {
  }

  lemma Subslice(buf: bytes, off: nat, n: nat, a: nat, b: nat)
    requires a <= b <= n && off + n <= |buf|
    ensures buf[off..off + n][a..b] == buf[off + a..off + b]
  {
    var s, t := buf[off..off + n][a..b], buf[off + a..off + b];
    forall i | 0 <= i < b - a
      ensures s[i] == t[i]
    {
      assert s[i] == buf[off..off + n][a + i];
    }
  }

  lemma AtIndex(buf: bytes, off: nat, s: bytes, k: nat)
    requires At(buf, off, s) && k < |s|
    ensures buf[off + k] == s[k]
  {
    assert buf[off..off + |s|][k] == buf[off + k];
  }

  // ----- what the reads mean -------------------------------------------------------------

  function ByteAt(buf: bytes, off: nat): (p: Parsed<byte>)
    ensures p.offset >= off
  {
    if off >= |buf| then Parsed(Err(EndOfData), off) else Parsed(Ok(buf[off]), off + 1)
  }

  /** A negative count passes the bounds test of the source and then fails to allocate. */
  function TakeAt(buf: bytes, off: nat, n: int): (p: Parsed<bytes>)
    ensures p.offset >= off
  {
    if off + n > |buf| then Parsed(Err(EndOfData), off)
    else if n < 0 then Parsed(Err(Panicked), off)
    else Parsed(Ok(buf[off..off + n]), off + n)
  }

  function SignedAt(buf: bytes, off: nat, n: nat): (p: Parsed<int>)
    ensures p.offset >= off
    ensures p.result.Ok? ==> 0 <= Pow256(n) + 2 * p.result.value && 2 * p.result.value < Pow256(n)
  {
    if off + n <= |buf| then
      UnsignedBound(buf[off..off + n]);
      Parsed(Ok(Signed(buf[off..off + n])), off + n)
    else Parsed(Err(EndOfData), off)
  }

  function Int16At(buf: bytes, off: nat): (p: Parsed<int16>)
    ensures p.offset >= off
  {
    PowValues();
    match SignedAt(buf, off, 2)
    case Parsed(Ok(v), o) => Parsed(Ok(v), o)
    case Parsed(Err(e), o) => Parsed(Err(e), o)
  }

  function Int32At(buf: bytes, off: nat): (p: Parsed<int32>)
    ensures p.offset >= off
  {
    PowValues();
    match SignedAt(buf, off, 4)
    case Parsed(Ok(v), o) => Parsed(Ok(v), o)
    case Parsed(Err(e), o) => Parsed(Err(e), o)
  }

  function Int64At(buf: bytes, off: nat): (p: Parsed<int64>)
    ensures p.offset >= off
  {
    PowValues();
    match SignedAt(buf, off, 8)
    case Parsed(Ok(v), o) => Parsed(Ok(v), o)
    case Parsed(Err(e), o) => Parsed(Err(e), o)
  }

  function UnsignedAt(buf: bytes, off: nat, n: nat): (p: Parsed<nat>)
    ensures p.offset >= off
  {
    TakeAt(buf, off, n).Map(b => Unsigned(b))
  }

  function BoolAt(buf: bytes, off: nat): (p: Parsed<bool>)
    ensures p.offset >= off
  {
    ByteAt(buf, off).Map(b => b != 0)
  }

  function DecimalAt(buf: bytes, off: nat): (p: Parsed<int64>)
    ensures p.offset >= off
  {
    PowValues();
    match ByteAt(buf, off)
    case Parsed(Err(e), o) => Parsed(Err(e), o)
    case Parsed(Ok(w), o) =>
      if w == 0 then Parsed(Ok(0), o)
      else
        match SignedAt(buf, o, if w <= 5 then w else 8)
        case Parsed(Ok(v), o2) => Parsed(Ok(v), o2)
        case Parsed(Err(e), o2) => Parsed(Err(e), o2)
  }

  /** The length a blob announces. */
  function BlobLengthAt(buf: bytes, off: nat): (p: Parsed<int>)
    ensures p.offset >= off
  {
    match ByteAt(buf, off)
    case Parsed(Err(e), o) => Parsed(Err(e), o)
    case Parsed(Ok(b), o) =>
      if b == 255 then UnsignedAt(buf, o, 2)
      else if b == 254 then SignedAt(buf, o, 4)
      else Parsed(Ok(b), o)
  }

  function BlobAt(buf: bytes, off: nat): (p: Parsed<bytes>)
    ensures p.offset >= off
  {
    match BlobLengthAt(buf, off)
    case Parsed(Err(e), o) => Parsed(Err(e), o)
    case Parsed(Ok(n), o) => TakeAt(buf, o, n)
  }

  function Prepend<T>(xs: seq<T>, p: Parsed<seq<T>>): Parsed<seq<T>> {
    match p
    case Parsed(Ok(ys), o) => Parsed(Ok(xs + ys), o)
    case Parsed(Err(e), o) => Parsed(Err(e), o)
  }

  /** n elements one after the other. */
  function RepeatAt<T>(n: nat, buf: bytes, off: nat, at: (bytes, nat) -> Parsed<T>): Parsed<seq<T>> {
    if n == 0 then Parsed(Ok([]), off)
    else
      match at(buf, off)
      case Parsed(Ok(x), o) => Prepend([x], RepeatAt(n - 1, buf, o, at))
      case Parsed(Err(e), o) => Parsed(Err(e), o)
  }

  function ArrayAt<T>(buf: bytes, off: nat, at: (bytes, nat) -> Parsed<T>): Parsed<seq<T>> {
    match SignedAt(buf, off, 2)
    case Parsed(Ok(n), o) => if n < 0 then Parsed(Err(Panicked), o) else RepeatAt(n, buf, o, at)
    case Parsed(Err(e), o) => Parsed(Err(e), o)
  }

  lemma {:induction false} RepeatForward<T>(n: nat, buf: bytes, off: nat, at: (bytes, nat) -> Parsed<T>)
    requires forall o: nat :: at(buf, o).offset >= o
    ensures RepeatAt(n, buf, off, at).offset >= off
  {
    if n > 0 {
      RepeatForward(n - 1, buf, at(buf, off).offset, at);
    }
  }

  lemma ArrayForward<T>(buf: bytes, off: nat, at: (bytes, nat) -> Parsed<T>)
    requires forall o: nat :: at(buf, o).offset >= o
    ensures ArrayAt(buf, off, at).offset >= off
  {
    var c := SignedAt(buf, off, 2);
    if c.result.Ok? && c.result.value >= 0 {
      RepeatForward(c.result.value, buf, c.offset, at);
    }
  }

  // ----- reading inverts writing ---------------------------------------------------------

  lemma TakeRoundTrip(buf: bytes, off: nat, s: bytes)
    requires At(buf, off, s)
    ensures TakeAt(buf, off, |s|) == Parsed(Ok(s), off + |s|)
  {
  }

  lemma SignedRoundTrip(buf: bytes, off: nat, n: nat, v: int)
    requires 0 <= Pow256(n) + 2 * v && 2 * v < Pow256(n)
    requires At(buf, off, Put(n, v))
    ensures SignedAt(buf, off, n) == Parsed(Ok(v), off + n)
  {
    TakeRoundTrip(buf, off, Put(n, v));
    SignedPut(n, v);
  }

  /** ReadDecimal inverts WriteDecimal on every 64-bit value. */
  lemma DecimalRoundTrip(buf: bytes, off: nat, v: int64)
    requires At(buf, off, EncDecimal(v))
    ensures DecimalAt(buf, off) == Parsed(Ok(v), off + |EncDecimal(v)|)
  {
    var w := DecimalWidth(v);
    AtConcat(buf, off, [w], Put(w, v));
    AtIndex(buf, off, [w], 0);
    PowValues();
    if w != 0 {
      SignedRoundTrip(buf, off + 1, w, v);
    }
  }

  /** No bytes from which ReadDecimal gets v are fewer than those WriteDecimal writes. */
  lemma DecimalShortest(buf: bytes, off: nat, v: int64)
    requires DecimalAt(buf, off).result == Ok(v)
    ensures DecimalAt(buf, off).offset - off >= |EncDecimal(v)|
  {
    var w := buf[off];
    if w != 0 {
      var n := if w <= 5 then w as int else 8;
      var b := buf[off + 1..off + 1 + n];
      UnsignedBound(b);
      PowValues();
      assert 0 <= Pow256(n) + 2 * v && 2 * v < Pow256(n);
    }
  }

  lemma BlobLengthRoundTrip(buf: bytes, off: nat, n: nat)
    requires n < 0x8000_0000
    requires At(buf, off, BlobHeader(n))
    ensures BlobLengthAt(buf, off) == Parsed(Ok(n), off + |BlobHeader(n)|)
  {
    PowValues();
    AtIndex(buf, off, BlobHeader(n), 0);
    if 253 < n <= 65535 {
      AtConcat(buf, off, [255], Put(2, n));
      TakeRoundTrip(buf, off + 1, Put(2, n));
      UnsignedPut(2, n);
    } else if n > 65535 {
      AtConcat(buf, off, [254], Put(4, n));
      SignedRoundTrip(buf, off + 1, 4, n);
    }
  }

  lemma BlobRoundTrip(buf: bytes, off: nat, b: bytes)
    requires |b| < 0x8000_0000
    requires At(buf, off, EncBlob(b))
    ensures BlobAt(buf, off) == Parsed(Ok(b), off + |EncBlob(b)|)
  {
    AtConcat(buf, off, BlobHeader(|b|), b);
    BlobLengthRoundTrip(buf, off, |b|);
    TakeRoundTrip(buf, off + |BlobHeader(|b|)|, b);
  }

  lemma Int16RoundTrip(buf: bytes, off: nat, x: int16)
    requires At(buf, off, Put(2, x))
    ensures Int16At(buf, off) == Parsed(Ok(x), off + 2)
  {
    PowValues();
    SignedRoundTrip(buf, off, 2, x);
  }

  lemma Int32RoundTrip(buf: bytes, off: nat, x: int32)
    requires At(buf, off, PutInt32(x))
    ensures Int32At(buf, off) == Parsed(Ok(x), off + 4)
  {
    PowValues();
    SignedRoundTrip(buf, off, 4, x);
  }

  lemma Int64RoundTrip(buf: bytes, off: nat, x: int64)
    requires At(buf, off, PutInt64(x))
    ensures Int64At(buf, off) == Parsed(Ok(x), off + 8)
  {
    PowValues();
    SignedRoundTrip(buf, off, 8, x);
  }

  /** Reading inverts writing on x, wherever it stands. */
  ghost predicate Inverse<T>(x: T, enc: T -> bytes, at: (bytes, nat) -> Parsed<T>, buf: bytes) {
    forall o: nat :: At(buf, o, enc(x)) ==> at(buf, o) == Parsed(Ok(x), o + |enc(x)|)
  }

  /** What each element keeps, a run of them keeps. */
  lemma {:induction false} RepeatRoundTrip<T>(xs: seq<T>, enc: T -> bytes, at: (bytes, nat) -> Parsed<T>, buf: bytes, off: nat)
    requires forall x :: x in xs ==> Inverse(x, enc, at, buf)
    requires At(buf, off, EncAll(xs, enc))
    ensures RepeatAt(|xs|, buf, off, at) == Parsed(Ok(xs), off + |EncAll(xs, enc)|)
  {
    if xs != [] {
      AtConcat(buf, off, enc(xs[0]), EncAll(xs[1..], enc));
      assert Inverse(xs[0], enc, at, buf);
      RepeatRoundTrip(xs[1..], enc, at, buf, off + |enc(xs[0])|);
      assert [xs[0]] + xs[1..] == xs;
    }
  }

  /** Arrays of at most 32767 elements come back. */
  lemma ArrayRoundTrip<T>(xs: seq<T>, enc: T -> bytes, at: (bytes, nat) -> Parsed<T>, buf: bytes, off: nat)
    requires forall x :: x in xs ==> Inverse(x, enc, at, buf)
    requires At(buf, off, EncArray(xs, enc)) && |xs| <= 32767
    ensures ArrayAt(buf, off, at) == Parsed(Ok(xs), off + |EncArray(xs, enc)|)
  {
    PowValues();
    AtConcat(buf, off, Put(2, |xs|), EncAll(xs, enc));
    SignedRoundTrip(buf, off, 2, |xs|);
    RepeatRoundTrip(xs, enc, at, buf, off + 2);
  }

  /** No array that is read is longer. */
  lemma ArrayWithinLimits<T>(buf: bytes, off: nat, at: (bytes, nat) -> Parsed<T>)
    ensures ArrayAt(buf, off, at).result.Ok? ==> |ArrayAt(buf, off, at).result.value| <= 32767
  {
    PowValues();
    var c := SignedAt(buf, off, 2);
    if c.result.Ok? && c.result.value >= 0 {
      RepeatLength(c.result.value, buf, c.offset, at);
    }
  }

  lemma {:induction false} RepeatLength<T>(n: nat, buf: bytes, off: nat, at: (bytes, nat) -> Parsed<T>)
    ensures RepeatAt(n, buf, off, at).result.Ok? ==> |RepeatAt(n, buf, off, at).result.value| == n
  {
    if n > 0 {
      RepeatLength(n - 1, buf, at(buf, off).offset, at);
    }
  }

  // ----- the writer ----------------------------------------------------------------------

  class DataOutputX {
    var buf: bytes
    var written: nat

    ghost predicate Valid()
      reads this
    {
      written == |buf|
    }

    constructor ()
      ensures Valid() && buf == []
    {
      buf, written := [], 0;
    }

    method Reset()
      modifies this
      ensures Valid() && buf == []
    {
      buf, written := [], 0;
    }

    method Write(b: bytes)
      requires Valid()
      modifies this
      ensures Valid() && buf == old(buf) + b
    {
      buf := buf + b;
      written := written + |b|;
    }

    method WriteByte(v: byte)
      requires Valid()
      modifies this
      ensures Valid() && buf == old(buf) + [v]
    {
      Write([v]);
    }

    method WriteBoolean(v: bool)
      requires Valid()
      modifies this
      ensures Valid() && buf == old(buf) + EncBool(v)
    {
      if v {
        WriteByte(1);
      } else {
        WriteByte(0);
      }
    }

    /** WriteInt16, WriteUint16, WriteInt32 and WriteInt64: n bytes, most significant first. */
    method WriteInt(n: nat, v: int)
      requires Valid()
      modifies this
      ensures Valid() && buf == old(buf) + Put(n, v)
    {
      Write(Put(n, v));
    }

    method WriteInt3(v: int)
      requires Valid()
      modifies this
      ensures Valid() && buf == old(buf) + Put(3, v)
    {
      PutInts(v);
      Write(PutInt3(v));
    }

    method WriteLong5(v: int)
      requires Valid()
      modifies this
      ensures Valid() && buf == old(buf) + Put(5, v)
    {
      PutInts(v);
      Write(PutInt5(v));
    }

    method WriteDecimal(v: int)
      requires Valid()
      modifies this
      ensures Valid() && buf == old(buf) + EncDecimal(v)
    {
      if v == 0 {
        WriteByte(0);
      } else if -128 <= v <= 127 {
        WriteByte(1);
        WriteByte(v % 0x100);
        assert Put(1, v) == [v % 0x100];
      } else if -32768 <= v <= 32767 {
        WriteByte(2);
        WriteInt(2, v);
      } else if -0x80_0000 <= v <= 0x7f_ffff {
        WriteByte(3);
        WriteInt3(v);
      } else if -0x8000_0000 <= v <= 0x7fff_ffff {
        WriteByte(4);
        WriteInt(4, v);
      } else if LONG5_MIN <= v <= LONG5_MAX {
        WriteByte(5);
        WriteLong5(v);
      } else {
        WriteByte(8);
        WriteInt(8, v);
      }
    }

    method WriteBlob(value: bytes)
      requires Valid()
      modifies this
      ensures Valid() && buf == old(buf) + EncBlob(value)
    {
      hide Put;
      if |value| == 0 {
        WriteByte(0);
      } else if |value| <= 253 {
        WriteByte(|value|);
        Write(value);
      } else if |value| <= 65535 {
        WriteByte(255);
        WriteInt(2, |value|);
        Write(value);
      } else {
        WriteByte(254);
        WriteInt(4, |value|);
        Write(value);
      }
    }

    /** A Go string is its bytes. */
    method WriteText(s: bytes)
      requires Valid()
      modifies this
      ensures Valid() && buf == old(buf) + EncBlob(s)
    {
      if s == [] {
        WriteByte(0);
      } else {
        WriteBlob(s);
      }
    }

    /** WriteArrayInt, and WriteArrayFloat on the bits of the floats. */
    method WriteArrayInt(xs: seq<int32>)
      requires Valid()
      modifies this
      ensures Valid() && buf == old(buf) + EncArray(xs, PutInt32)
    {
      WriteInt(2, |xs|);
      ghost var start := buf;
      assert xs[0..] == xs;
      for i := 0 to |xs|
        invariant Valid() && buf + EncAll(xs[i..], PutInt32) == start + EncAll(xs, PutInt32)
      {
        EncAllStep(xs, i, PutInt32, buf);
        WriteInt(4, xs[i]);
      }
      assert old(buf) + Put(2, |xs|) + EncAll(xs, PutInt32) == old(buf) + (Put(2, |xs|) + EncAll(xs, PutInt32));
      assert buf + [] == buf;
    }

    method WriteArrayLong(xs: seq<int64>)
      requires Valid()
      modifies this
      ensures Valid() && buf == old(buf) + EncArray(xs, PutInt64)
    {
      WriteInt(2, |xs|);
      ghost var start := buf;
      assert xs[0..] == xs;
      for i := 0 to |xs|
        invariant Valid() && buf + EncAll(xs[i..], PutInt64) == start + EncAll(xs, PutInt64)
      {
        EncAllStep(xs, i, PutInt64, buf);
        WriteInt(8, xs[i]);
      }
      assert old(buf) + Put(2, |xs|) + EncAll(xs, PutInt64) == old(buf) + (Put(2, |xs|) + EncAll(xs, PutInt64));
      assert buf + [] == buf;
    }

    /** The write loop of a text array (internal/protocol/value/text_array.go). */
    method WriteArrayText(xs: seq<bytes>)
      requires Valid()
      modifies this
      ensures Valid() && buf == old(buf) + EncArray(xs, EncBlob)
    {
      hide EncBlob, Put;
      WriteInt(2, |xs|);
      ghost var start := buf;
      assert xs[0..] == xs;
      for i := 0 to |xs|
        invariant Valid() && buf + EncAll(xs[i..], EncBlob) == start + EncAll(xs, EncBlob)
      {
        EncAllStep(xs, i, EncBlob, buf);
        WriteText(xs[i]);
      }
      assert old(buf) + Put(2, |xs|) + EncAll(xs, EncBlob) == old(buf) + (Put(2, |xs|) + EncAll(xs, EncBlob));
      assert buf + [] == buf;
    }

    static lemma EncAllStep<T>(xs: seq<T>, i: nat, enc: T -> bytes, before: bytes)
      requires i < |xs|
      ensures before + EncAll(xs[i..], enc) == before + enc(xs[i]) + EncAll(xs[i + 1..], enc)
    {
      assert xs[i..][1..] == xs[i + 1..];
    }

    method WriteShortBytes(b: bytes)
      requires Valid()
      modifies this
      ensures Valid() && buf == old(buf) + Put(2, |b|) + b
    {
      WriteInt(2, |b|);
      Write(b);
    }
  }

  lemma PrependNothing<T>(p: Parsed<seq<T>>)
    ensures Prepend([], p) == p
  {
    if p.result.Ok? {
      assert [] + p.result.value == p.result.value;
    }
  }

  lemma PrependErr<T>(xs: seq<T>, e: Error, off: nat)
    ensures Prepend(xs, Parsed(Err(e), off)) == Parsed(Err(e), off)
  {
  }

  lemma PrependToNothing<T>(xs: seq<T>, off: nat)
    ensures Prepend(xs, Parsed(Ok([]), off)) == Parsed(Ok(xs), off)
  {
    assert xs + [] == xs;
  }

  lemma PrependTwice<T>(xs: seq<T>, x: T, p: Parsed<seq<T>>)
    ensures Prepend(xs, Prepend([x], p)) == Prepend(xs + [x], p)
  {
    if p.result.Ok? {
      assert xs + ([x] + p.result.value) == xs + [x] + p.result.value;
    }
  }

  // ----- the reader ----------------------------------------------------------------------

  class DataInputX {
    const buf: bytes
    var offset: nat

    constructor (buf: bytes)
      ensures this.buf == buf && offset == 0
    {
      this.buf, offset := buf, 0;
    }

    function Available(): int
      reads this
    {
      |buf| - offset
    }

    method Read(n: int) returns (r: Result<bytes, Error>)
      modifies this
      ensures Parsed(r, offset) == TakeAt(buf, old(offset), n)
    {
      if offset + n > |buf| {
        return Err(EndOfData);
      }
      if n < 0 {
        return Err(Panicked);
      }
      r := Ok(buf[offset..offset + n]);
      offset := offset + n;
    }

    method ReadByte() returns (r: Result<byte, Error>)
      modifies this
      ensures Parsed(r, offset) == ByteAt(buf, old(offset))
    {
      if offset >= |buf| {
        return Err(EndOfData);
      }
      r := Ok(buf[offset]);
      offset := offset + 1;
    }

    method ReadBoolean() returns (r: Result<bool, Error>)
      modifies this
      ensures Parsed(r, offset) == BoolAt(buf, old(offset))
    {
      var b := ReadByte();
      match b
      case Ok(v) => r := Ok(v != 0);
      case Err(e) => r := Err(e);
    }

    /** ReadInt16, ReadInt32 and ReadInt64. */
    method ReadInt(n: nat) returns (r: Result<int, Error>)
      modifies this
      ensures Parsed(r, offset) == SignedAt(buf, old(offset), n)
    {
      if offset + n > |buf| {
        return Err(EndOfData);
      }
      r := Ok(Signed(buf[offset..offset + n]));
      offset := offset + n;
    }

    method ReadInt16() returns (r: Result<int16, Error>)
      modifies this
      ensures Parsed(r, offset) == Int16At(buf, old(offset))
    {
      PowValues();
      var v := ReadInt(2);
      match v
      case Ok(x) => r := Ok(x);
      case Err(e) => r := Err(e);
    }

    method ReadInt32() returns (r: Result<int32, Error>)
      modifies this
      ensures Parsed(r, offset) == Int32At(buf, old(offset))
    {
      PowValues();
      var v := ReadInt(4);
      match v
      case Ok(x) => r := Ok(x);
      case Err(e) => r := Err(e);
    }

    method ReadInt64() returns (r: Result<int64, Error>)
      modifies this
      ensures Parsed(r, offset) == Int64At(buf, old(offset))
    {
      PowValues();
      var v := ReadInt(8);
      match v
      case Ok(x) => r := Ok(x);
      case Err(e) => r := Err(e);
    }

    method ReadUint16() returns (r: Result<nat, Error>)
      modifies this
      ensures Parsed(r, offset) == UnsignedAt(buf, old(offset), 2)
    {
      if offset + 2 > |buf| {
        return Err(EndOfData);
      }
      r := Ok(Unsigned(buf[offset..offset + 2]));
      offset := offset + 2;
    }

    method ReadInt3() returns (r: Result<int, Error>)
      modifies this
      ensures Parsed(r, offset) == SignedAt(buf, old(offset), 3)
    {
      var b := Read(3);
      match b
      case Ok(v) =>
        IntsAreSigned(v);
        assert v[..3] == v;
        r := Ok(Int3(v));
      case Err(e) => r := Err(e);
    }

    method ReadLong5() returns (r: Result<int, Error>)
      modifies this
      ensures Parsed(r, offset) == SignedAt(buf, old(offset), 5)
    {
      var b := Read(5);
      match b
      case Ok(v) =>
        IntsAreSigned(v);
        assert v[..5] == v;
        r := Ok(Int5(v));
      case Err(e) => r := Err(e);
    }

    method ReadDecimal() returns (r: Result<int64, Error>)
      modifies this
      ensures Parsed(r, offset) == DecimalAt(buf, old(offset))
    {
      var w := ReadByte();
      if w.Err? {
        return Err(w.error);
      }
      PowValues();
      var v: Result<int, Error>;
      match ToInt8(w.value) {
        case 0 => return Ok(0);
        case 1 =>
          var b := ReadByte();
          match b {
            case Ok(x) =>
              assert buf[old(offset) + 1..offset] == [x] && Unsigned([x]) == x;
              v := Ok(ToInt8(x));
            case Err(e) => v := Err(e);
          }
        case 2 => v := ReadInt(2);
        case 3 => v := ReadInt3();
        case 4 => v := ReadInt(4);
        case 5 => v := ReadLong5();
        case _ => v := ReadInt(8);
      }
      match v
      case Ok(x) => r := Ok(x);
      case Err(e) => r := Err(e);
    }

    method ReadBlob() returns (r: Result<bytes, Error>)
      modifies this
      ensures Parsed(r, offset) == BlobAt(buf, old(offset))
    {
      var b := ReadByte();
      if b.Err? {
        return Err(b.error);
      }
      assert buf[offset..offset] == [];
      match b.value
      case 0 => r := Ok([]);
      case 255 =>
        var n := ReadUint16();
        match n {
          case Ok(v) => r := Read(v);
          case Err(e) => r := Err(e);
        }
      case 254 =>
        var n := ReadInt(4);
        match n {
          case Ok(v) => r := Read(v);
          case Err(e) => r := Err(e);
        }
      case _ => r := Read(b.value);
    }

    /** The zero-copy form: the length first, then a slice of the same buffer. */
    method ReadBlobRef() returns (r: Result<bytes, Error>)
      modifies this
      ensures Parsed(r, offset) == BlobAt(buf, old(offset))
    {
      var b := ReadByte();
      if b.Err? {
        return Err(b.error);
      }
      assert buf[offset..offset] == [];
      var length: int;
      match b.value {
        case 0 => return Ok([]);
        case 255 =>
          var n := ReadUint16();
          if n.Err? {
            return Err(n.error);
          }
          length := n.value;
        case 254 =>
          var n := ReadInt(4);
          if n.Err? {
            return Err(n.error);
          }
          length := n.value;
        case _ => length := b.value;
      }
      if offset + length > |buf| {
        return Err(EndOfData);
      }
      if length < 0 {
        return Err(Panicked);
      }
      r := Ok(buf[offset..offset + length]);
      offset := offset + length;
    }

    method ReadText() returns (r: Result<bytes, Error>)
      modifies this
      ensures Parsed(r, offset) == BlobAt(buf, old(offset))
    {
      r := ReadBlob();
    }

    /** ReadArrayInt, and ReadArrayFloat on the bits of the floats. */
    method ReadArrayInt() returns (r: Result<seq<int32>, Error>)
      modifies this
      ensures Parsed(r, offset) == ArrayAt(buf, old(offset), Int32At)
    {
      hide Int32At, Int64At, BlobAt, Prepend;
      var length := ReadInt(2);
      if length.Err? {
        return Err(length.error);
      }
      if length.value < 0 {
        return Err(Panicked);
      }
      var n := length.value;
      var data: seq<int32> := [];
      ghost var start := offset;
      PrependNothing(RepeatAt(n, buf, start, Int32At));
      for i := 0 to n
        invariant RepeatAt(n, buf, start, Int32At) == Prepend(data, RepeatAt(n - i, buf, offset, Int32At))
      {
        var v := ReadInt32();
        if v.Err? {
          PrependErr(data, v.error, offset);
          return Err(v.error);
        }
        PrependTwice(data, v.value, RepeatAt(n - i - 1, buf, offset, Int32At));
        data := data + [v.value];
      }
      PrependToNothing(data, offset);
      r := Ok(data);
    }

    method ReadArrayLong() returns (r: Result<seq<int64>, Error>)
      modifies this
      ensures Parsed(r, offset) == ArrayAt(buf, old(offset), Int64At)
    {
      hide Int32At, Int64At, BlobAt, Prepend;
      var length := ReadInt(2);
      if length.Err? {
        return Err(length.error);
      }
      if length.value < 0 {
        return Err(Panicked);
      }
      var n := length.value;
      var data: seq<int64> := [];
      ghost var start := offset;
      PrependNothing(RepeatAt(n, buf, start, Int64At));
      for i := 0 to n
        invariant RepeatAt(n, buf, start, Int64At) == Prepend(data, RepeatAt(n - i, buf, offset, Int64At))
      {
        var v := ReadInt64();
        if v.Err? {
          PrependErr(data, v.error, offset);
          return Err(v.error);
        }
        PrependTwice(data, v.value, RepeatAt(n - i - 1, buf, offset, Int64At));
        data := data + [v.value];
      }
      PrependToNothing(data, offset);
      r := Ok(data);
    }

    /** The read loop of a text array (internal/protocol/value/text_array.go). */
    method ReadArrayText() returns (r: Result<seq<bytes>, Error>)
      modifies this
      ensures Parsed(r, offset) == ArrayAt(buf, old(offset), BlobAt)
    {
      hide Int32At, Int64At, BlobAt, Prepend;
      var length := ReadInt(2);
      if length.Err? {
        return Err(length.error);
      }
      if length.value < 0 {
        return Err(Panicked);
      }
      var n := length.value;
      var data: seq<bytes> := [];
      ghost var start := offset;
      PrependNothing(RepeatAt(n, buf, start, BlobAt));
      for i := 0 to n
        invariant RepeatAt(n, buf, start, BlobAt) == Prepend(data, RepeatAt(n - i, buf, offset, BlobAt))
      {
        var v := ReadText();
        if v.Err? {
          PrependErr(data, v.error, offset);
          return Err(v.error);
        }
        PrependTwice(data, v.value, RepeatAt(n - i - 1, buf, offset, BlobAt));
        data := data + [v.value];
      }
      PrependToNothing(data, offset);
      r := Ok(data);
    }

    method SkipBytes(n: nat) returns (r: Result<(), Error>)
      modifies this
      ensures Parsed(r, offset) == TakeAt(buf, old(offset), n).Map(b => ())
    {
      if offset + n > |buf| {
        return Err(EndOfData);
      }
      offset := offset + n;
      r := Ok(());
    }
  }
}
