/** Reading input that was cut short: what a successful read returns does not depend on what follows,
    so the prefix of an encoding can never be taken for a shorter value. */
module Prefixes {
  import opened Endian
  import opened DataStream
  import opened Results
  import V = Values
  import X = XLogPack
  import P = Packs
  import D = Datagrams

  /** The read of the longer buffer goes as that of the shorter one, if that succeeds within its n bytes. */
  predicate Stable<T(==)>(p: Parsed<T>, q: Parsed<T>, n: nat) {
    p.result.Ok? ==> p == q && p.offset <= n
  }

  // ----- the primitive reads -------------------------------------------------------------

  lemma ByteLonger(buf: bytes, more: bytes, off: nat)
    ensures Stable(ByteAt(buf, off), ByteAt(buf + more, off), |buf|)
  {
  }

  lemma SameSlice(buf: bytes, more: bytes, off: nat, n: nat)
    requires off + n <= |buf|
    ensures (buf + more)[off..off + n] == buf[off..off + n]
  {
  }

  lemma TakeLonger(buf: bytes, more: bytes, off: nat, n: int)
    ensures Stable(TakeAt(buf, off, n), TakeAt(buf + more, off, n), |buf|)
  {
    if 0 <= n && off + n <= |buf| {
      SameSlice(buf, more, off, n);
    }
  }

  lemma SignedLonger(buf: bytes, more: bytes, off: nat, n: nat)
    ensures Stable(SignedAt(buf, off, n), SignedAt(buf + more, off, n), |buf|)
  {
    hide Signed;
    if off + n <= |buf| {
      SameSlice(buf, more, off, n);
    }
  }

  lemma IntsLonger(buf: bytes, more: bytes, off: nat)
    ensures Stable(Int16At(buf, off), Int16At(buf + more, off), |buf|)
    ensures Stable(Int32At(buf, off), Int32At(buf + more, off), |buf|)
    ensures Stable(Int64At(buf, off), Int64At(buf + more, off), |buf|)
  {
    hide SignedAt;
    SignedLonger(buf, more, off, 2);
    SignedLonger(buf, more, off, 4);
    SignedLonger(buf, more, off, 8);
  }

  lemma DecimalLonger(buf: bytes, more: bytes, off: nat)
    requires off <= |buf|
    ensures Stable(DecimalAt(buf, off), DecimalAt(buf + more, off), |buf|)
  {
    hide SignedAt;
    ByteLonger(buf, more, off);
    if off < |buf| && buf[off] > 0 {
      SignedLonger(buf, more, off + 1, if buf[off] <= 5 then buf[off] else 8);
    }
  }

  lemma BlobLonger(buf: bytes, more: bytes, off: nat)
    requires off <= |buf|
    ensures Stable(BlobAt(buf, off), BlobAt(buf + more, off), |buf|)
  {
    hide SignedAt, TakeAt, Unsigned;
    ByteLonger(buf, more, off);
    TakeLonger(buf, more, off + 1, 2);
    SignedLonger(buf, more, off + 1, 4);
    assert Stable(BlobLengthAt(buf, off), BlobLengthAt(buf + more, off), |buf|);
    var p := BlobLengthAt(buf, off);
    hide BlobLengthAt;
    if p.result.Ok? {
      TakeLonger(buf, more, p.offset, p.result.value);
    }
  }

  lemma {:induction false} RepeatLonger<T>(n: nat, buf: bytes, more: bytes, off: nat, at: (bytes, nat) -> Parsed<T>)
    requires off <= |buf| && forall o: nat :: o <= |buf| ==> Stable(at(buf, o), at(buf + more, o), |buf|)
    ensures Stable(RepeatAt(n, buf, off, at), RepeatAt(n, buf + more, off, at), |buf|)
  {
    if n > 0 {
      var p := at(buf, off);
      if p.result.Ok? {
        RepeatLonger(n - 1, buf, more, p.offset, at);
      }
    }
  }

  lemma ArrayLonger<T>(buf: bytes, more: bytes, off: nat, at: (bytes, nat) -> Parsed<T>)
    requires forall o: nat :: o <= |buf| ==> Stable(at(buf, o), at(buf + more, o), |buf|)
    ensures Stable(ArrayAt(buf, off, at), ArrayAt(buf + more, off, at), |buf|)
  {
    hide SignedAt;
    SignedLonger(buf, more, off, 2);
    var p := SignedAt(buf, off, 2);
    if p.result.Ok? && p.result.value >= 0 {
      RepeatLonger(p.result.value, buf, more, p.offset, at);
    }
  }

  // ----- values --------------------------------------------------------------------------

  lemma SummaryLonger(buf: bytes, more: bytes, off: nat)
    ensures Stable(V.SummaryAt(buf, off), V.SummaryAt(buf + more, off), |buf|)
  {
    hide Int32At, Int64At;
    IntsLonger(buf, more, off);
    IntsLonger(buf, more, Int64At(buf, off).offset);
    IntsLonger(buf, more, Int32At(buf, Int64At(buf, off).offset).offset);
    IntsLonger(buf, more, Int64At(buf, Int32At(buf, Int64At(buf, off).offset).offset).offset);
  }

  lemma ArraysLonger(buf: bytes, more: bytes, off: nat)
    requires off <= |buf|
    ensures Stable(ArrayAt(buf, off, Int32At), ArrayAt(buf + more, off, Int32At), |buf|)
    ensures Stable(ArrayAt(buf, off, BlobAt), ArrayAt(buf + more, off, BlobAt), |buf|)
    ensures Stable(ArrayAt(buf, off, Int64At), ArrayAt(buf + more, off, Int64At), |buf|)
  {
    hide ArrayAt, Int32At, Int64At, BlobAt;
    forall o: nat | o <= |buf|
      ensures Stable(Int32At(buf, o), Int32At(buf + more, o), |buf|)
      ensures Stable(Int64At(buf, o), Int64At(buf + more, o), |buf|)
      ensures Stable(BlobAt(buf, o), BlobAt(buf + more, o), |buf|)
    {
      IntsLonger(buf, more, o);
      BlobLonger(buf, more, o);
    }
    ArrayLonger(buf, more, off, Int32At);
    ArrayLonger(buf, more, off, BlobAt);
    ArrayLonger(buf, more, off, Int64At);
  }

  lemma LeafLonger(code: byte, buf: bytes, more: bytes, off: nat)
    requires off <= |buf|
    ensures Stable(V.LeafAt(code, buf, off), V.LeafAt(code, buf + more, off), |buf|)
  {
    hide ArrayAt, V.SummaryAt, DecimalAt, Int32At, Int64At, BlobAt;
    if 71 <= code <= 74 {
      ArraysLonger(buf, more, off);
    } else if code == 45 || code == 46 {
      SummaryLonger(buf, more, off);
    } else if code == 50 || code == 60 {
      BlobLonger(buf, more, off);
    } else if code == 61 {
      if off + 4 <= |buf| {
        SameSlice(buf, more, off, 4);
      }
    } else {
      ByteLonger(buf, more, off);
      IntsLonger(buf, more, off);
      DecimalLonger(buf, more, off);
    }
  }

  lemma {:induction false} ValueLonger(buf: bytes, more: bytes, off: nat)
    requires off <= |buf|
    ensures Stable(V.ValueAt(buf, off), V.ValueAt(buf + more, off), |buf|)
    decreases V.Left(buf, off), 0
  {
    hide V.BodyAt;
    ByteLonger(buf, more, off);
    if off < |buf| {
      BodyLonger(buf[off], buf, more, off + 1);
    }
  }

  lemma {:induction false} BodyLonger(code: byte, buf: bytes, more: bytes, off: nat)
    requires off <= |buf|
    ensures Stable(V.BodyAt(code, buf, off), V.BodyAt(code, buf + more, off), |buf|)
    decreases V.Left(buf, off), 2
  {
    hide V.LeafAt, DecimalAt, V.ValuesAt, V.EntriesAt;
    DecimalLonger(buf, more, off);
    var p := DecimalAt(buf, off);
    if code != 70 && code != 80 {
      LeafLonger(code, buf, more, off);
    } else if p.result.Ok? && p.result.value >= 0 {
      V.DecimalAdvances(buf, off);
      if code == 70 {
        ValuesLonger(p.result.value, buf, more, p.offset);
      } else {
        EntriesLonger(p.result.value, buf, more, p.offset);
      }
    }
  }

  lemma {:induction false} ValuesLonger(n: nat, buf: bytes, more: bytes, off: nat)
    requires off <= |buf|
    ensures Stable(V.ValuesAt(n, buf, off), V.ValuesAt(n, buf + more, off), |buf|)
    decreases V.Left(buf, off), 1, n
  {
    hide V.ValueAt;
    if n > 0 {
      ValueLonger(buf, more, off);
      var p := V.ValueAt(buf, off);
      if p.result.Ok? {
        ValuesLonger(n - 1, buf, more, p.offset);
      }
    }
  }

  lemma {:induction false} EntriesLonger(n: nat, buf: bytes, more: bytes, off: nat)
    requires off <= |buf|
    ensures Stable(V.EntriesAt(n, buf, off), V.EntriesAt(n, buf + more, off), |buf|)
    decreases V.Left(buf, off), 1, n
  {
    hide V.ValueAt, BlobAt;
    if n > 0 {
      BlobLonger(buf, more, off);
      var k := BlobAt(buf, off);
      if k.result.Ok? {
        ValueLonger(buf, more, k.offset);
        var p := V.ValueAt(buf, k.offset);
        if p.result.Ok? {
          EntriesLonger(n - 1, buf, more, p.offset);
        }
      }
    }
  }

  // ----- packs and pieces ----------------------------------------------------------------

  lemma PackLonger(buf: bytes, more: bytes, off: nat)
    requires off <= |buf|
    ensures Stable(P.PackAt(buf, off), P.PackAt(buf + more, off), |buf|)
  {
    hide V.EntriesAt, DecimalAt, BlobAt, X.InnerAt;
    ByteLonger(buf, more, off);
    if off < |buf| {
      DecimalLonger(buf, more, off + 1);
      BlobLonger(buf, more, off + 1);
      var p := DecimalAt(buf, off + 1);
      if p.result.Ok? && p.result.value >= 0 {
        EntriesLonger(p.result.value, buf, more, p.offset);
      }
    }
  }

  lemma MtuLonger(buf: bytes, more: bytes, off: nat)
    requires off <= |buf|
    ensures Stable(D.MtuAt(buf, off), D.MtuAt(buf + more, off), |buf|)
  {
    hide Int16At, Int32At, Int64At, BlobAt;
    IntsLonger(buf, more, off);
    var o1 := Int32At(buf, off).offset;
    IntsLonger(buf, more, o1);
    var o2 := Int64At(buf, o1).offset;
    IntsLonger(buf, more, o2);
    var o3 := Int16At(buf, o2).offset;
    IntsLonger(buf, more, o3);
    var o4 := Int16At(buf, o3).offset;
    if o4 <= |buf| {
      BlobLonger(buf, more, o4);
    }
  }

  // ----- cut encodings -------------------------------------------------------------------

  /** No proper prefix of a value can be read: whatever came before it. */
  lemma CutValue(before: bytes, v: V.Value, cut: bytes, rest: bytes)
    requires V.WithinLimits(v) && V.EncValue(v) == cut + rest && rest != []
    ensures V.ValueAt(before + cut, |before|).result.Err?
  {
    hide V.ValueAt, V.EncValue, V.WithinLimits, At;
    ValueLonger(before + cut, rest, |before|);
    Standing(before, cut, rest, V.EncValue(v));
    V.ValueRoundTrip(before + cut + rest, |before|, v);
  }

  lemma Standing(before: bytes, cut: bytes, rest: bytes, whole: bytes)
    requires whole == cut + rest
    ensures At(before + cut + rest, |before|, whole) && |before + cut| == |before| + |cut|
  {
    assert before + cut + rest == before + whole;
  }

  /** Nor of a pack. */
  lemma CutPack(before: bytes, p: P.Pack, cut: bytes, rest: bytes)
    requires P.WithinLimits(p) && P.EncPack(p) == cut + rest && rest != []
    ensures P.PackAt(before + cut, |before|).result.Err?
  {
    hide P.PackAt, P.EncPack, P.WithinLimits, P.Norm, At;
    PackLonger(before + cut, rest, |before|);
    Standing(before, cut, rest, P.EncPack(p));
    P.PackRoundTrip(before + cut + rest, |before|, p);
  }

  /** A piece that is cut short is not taken for a piece. */
  lemma CutPiece(m: D.Mtu, cut: bytes, rest: bytes)
    requires |m.data| < 0x8000_0000 && D.EncMtu(m) == cut + rest && rest != []
    ensures D.MtuOf(Put(4, 0x4341_464d) + cut) == None
    ensures D.MtuOf(Put(4, 0x4a4d_5455) + cut) == None
  {
    hide D.MtuAt, D.EncMtu, D.IsMtu;
    CutFrame(Put(4, 0x4341_464d), m, cut, rest);
    CutFrame(Put(4, 0x4a4d_5455), m, cut, rest);
  }

  lemma CutFrame(before: bytes, m: D.Mtu, cut: bytes, rest: bytes)
    requires |m.data| < 0x8000_0000 && D.EncMtu(m) == cut + rest && rest != []
    ensures D.MtuAt(before + cut, |before|).result.Err?
  {
    hide D.MtuAt, D.EncMtu, At;
    MtuLonger(before + cut, rest, |before|);
    Standing(before, cut, rest, D.EncMtu(m));
    D.MtuRoundTrip(before + cut + rest, |before|, m);
  }

  /** A datagram that announces n packs and ends in the middle of one: the packs before that one are
      dispatched, in order, and nothing else. */
  lemma CutDatagram(packs: seq<P.Pack>, n: nat, p: P.Pack, cut: bytes, rest: bytes)
    requires |packs| < n <= 32767 && (forall q :: q in packs ==> P.WithinLimits(q)) && P.WithinLimits(p)
    requires P.EncPack(p) == cut + rest && rest != []
    ensures D.Carried(Put(4, 0x4341_464e) + Put(2, n) + D.EncPacks(packs) + cut) == D.NormAll(packs)
    ensures D.Carried(Put(4, 0x4a41_564e) + Put(2, n) + D.EncPacks(packs) + cut) == D.NormAll(packs)
  {
    hide D.PacksAt, D.NormAll, D.EncPacks, Put, Int32At, Int16At, P.WithinLimits, P.EncPack;
    CutPacks(0x4341_464e, packs, n, p, cut, rest);
    CutPacks(0x4a41_564e, packs, n, p, cut, rest);
  }

  lemma CutPacks(magic: int32, packs: seq<P.Pack>, n: nat, p: P.Pack, cut: bytes, rest: bytes)
    requires |packs| < n <= 32767 && (forall q :: q in packs ==> P.WithinLimits(q)) && P.WithinLimits(p)
    requires P.EncPack(p) == cut + rest && rest != []
    ensures var data := Put(4, magic) + Put(2, n) + D.EncPacks(packs) + cut;
      Int32At(data, 0) == Parsed(Ok(magic), 4) && Int16At(data, 4) == Parsed(Ok(n), 6) && D.PacksAt(n, data, 6) == D.NormAll(packs)
  {
    hide At, Put, D.EncPacks, Int32At, Int16At, D.PacksAt, P.WithinLimits, P.EncPack, D.NormAll;
    var before := Put(4, magic) + Put(2, n);
    var data := before + D.EncPacks(packs) + cut;
    P.WholeAt(data);
    AtConcat(data, 0, before + D.EncPacks(packs), cut);
    AtConcat(data, 0, before, D.EncPacks(packs));
    AtConcat(data, 0, Put(4, magic), Put(2, n));
    Int32RoundTrip(data, 0, magic);
    Int16RoundTrip(data, 4, n);
    PacksThenCut(before, packs, n, p, cut, rest);
  }

  lemma {:induction false} PacksThenCut(before: bytes, packs: seq<P.Pack>, n: nat, p: P.Pack, cut: bytes, rest: bytes)
    requires |packs| < n && (forall q :: q in packs ==> P.WithinLimits(q)) && P.WithinLimits(p)
    requires P.EncPack(p) == cut + rest && rest != []
    ensures D.PacksAt(n, before + D.EncPacks(packs) + cut, |before|) == D.NormAll(packs)
    decreases |packs|
  {
    hide At, P.EncPack, P.PackAt, P.Norm, P.WithinLimits;
    var data := before + D.EncPacks(packs) + cut;
    if packs == [] {
      assert before + [] == before;
      CutPack(before, p, cut, rest);
    } else {
      var e := P.EncPack(packs[0]);
      P.WholeAt(data);
      AtConcat(data, 0, before + D.EncPacks(packs), cut);
      AtConcat(data, 0, before, D.EncPacks(packs));
      AtConcat(data, |before|, e, D.EncPacks(packs[1..]));
      P.PackRoundTrip(data, |before|, packs[0]);
      PacksThenCut(before + e, packs[1..], n - 1, p, cut, rest);
      assert before + e + D.EncPacks(packs[1..]) == before + D.EncPacks(packs);
      assert D.NormAll(packs) == [P.Norm(packs[0])] + D.NormAll(packs[1..]);
    }
  }

  // ----- cut records ---------------------------------------------------------------------

  lemma HeadLonger(buf: bytes, more: bytes, off: nat)
    requires off <= |buf|
    ensures Stable(X.HeadAt(buf, off), X.HeadAt(buf + more, off), |buf|)
  {
    hide DecimalAt, Int64At, ToInt32;
    DecimalLonger(buf, more, off);
    var o1 := DecimalAt(buf, off).offset;
    if o1 <= |buf| {
      DecimalLonger(buf, more, o1);
    }
    var o2 := DecimalAt(buf, o1).offset;
    if o2 <= |buf| {
      DecimalLonger(buf, more, o2);
    }
    var o3 := DecimalAt(buf, o2).offset;
    IntsLonger(buf, more, o3);
    var o4 := Int64At(buf, o3).offset;
    IntsLonger(buf, more, o4);
    var o5 := Int64At(buf, o4).offset;
    IntsLonger(buf, more, o5);
    var o6 := Int64At(buf, o5).offset;
    if o6 <= |buf| {
      DecimalLonger(buf, more, o6);
    }
  }

  lemma CostsLonger(buf: bytes, more: bytes, off: nat)
    requires off <= |buf|
    ensures Stable(X.CostsAt(buf, off), X.CostsAt(buf + more, off), |buf|)
  {
    hide DecimalAt, BlobAt, ToInt32;
    DecimalLonger(buf, more, off);
    var o1 := DecimalAt(buf, off).offset;
    if o1 <= |buf| {
      DecimalLonger(buf, more, o1);
    }
    var o2 := DecimalAt(buf, o1).offset;
    if o2 <= |buf| {
      DecimalLonger(buf, more, o2);
    }
    var o3 := DecimalAt(buf, o2).offset;
    if o3 <= |buf| {
      DecimalLonger(buf, more, o3);
    }
    var o4 := DecimalAt(buf, o3).offset;
    if o4 <= |buf| {
      BlobLonger(buf, more, o4);
    }
    var o5 := BlobAt(buf, o4).offset;
    if o5 <= |buf| {
      DecimalLonger(buf, more, o5);
    }
  }

  lemma ClientLonger(buf: bytes, more: bytes, off: nat)
    requires off <= |buf|
    ensures Stable(X.ClientAt(buf, off), X.ClientAt(buf + more, off), |buf|)
  {
    hide DecimalAt, ToInt32;
    DecimalLonger(buf, more, off);
    var o1 := DecimalAt(buf, off).offset;
    if o1 <= |buf| {
      DecimalLonger(buf, more, o1);
    }
    var o2 := DecimalAt(buf, o1).offset;
    if o2 <= |buf| {
      DecimalLonger(buf, more, o2);
    }
    var o3 := DecimalAt(buf, o2).offset;
    if o3 <= |buf| {
      DecimalLonger(buf, more, o3);
    }
    var o4 := DecimalAt(buf, o3).offset;
    if o4 <= |buf| {
      DecimalLonger(buf, more, o4);
    }
    var o5 := DecimalAt(buf, o4).offset;
    if o5 <= |buf| {
      DecimalLonger(buf, more, o5);
    }
    var o6 := DecimalAt(buf, o5).offset;
    if o6 <= |buf| {
      DecimalLonger(buf, more, o6);
    }
  }

  lemma PlaceLonger(buf: bytes, more: bytes, off: nat, p: X.Place)
    requires off < |buf|
    ensures Stable(X.PlaceAt(buf, off, p), X.PlaceAt(buf + more, off, p), |buf|)
  {
    hide DecimalAt, BlobAt, ToInt32;
    BlobLonger(buf, more, off);
    var o1 := BlobAt(buf, off).offset;
    if o1 <= |buf| {
      DecimalLonger(buf, more, o1);
    }
  }

  lemma KindLonger(buf: bytes, more: bytes, off: nat, k: X.Kind)
    requires off < |buf|
    ensures Stable(X.KindAt(buf, off, k), X.KindAt(buf + more, off, k), |buf|)
  {
    hide ToInt32;
    ByteLonger(buf, more, off);
  }

  lemma UserLonger(buf: bytes, more: bytes, off: nat, u: X.User)
    requires off < |buf|
    ensures Stable(X.UserAt(buf, off, u), X.UserAt(buf + more, off, u), |buf|)
  {
    hide DecimalAt, ToInt32;
    DecimalLonger(buf, more, off);
    var o1 := DecimalAt(buf, off).offset;
    if o1 <= |buf| {
      DecimalLonger(buf, more, o1);
    }
  }

  lemma WebLonger(buf: bytes, more: bytes, off: nat, w: X.Web)
    requires off < |buf|
    ensures Stable(X.WebAt(buf, off, w), X.WebAt(buf + more, off, w), |buf|)
  {
    hide DecimalAt, ToInt32;
    DecimalLonger(buf, more, off);
    var o1 := DecimalAt(buf, off).offset;
    if o1 <= |buf| {
      DecimalLonger(buf, more, o1);
    }
  }

  lemma DumpLonger(buf: bytes, more: bytes, off: nat, d: X.Dump)
    requires off < |buf|
    ensures Stable(X.DumpAt(buf, off, d), X.DumpAt(buf + more, off, d), |buf|)
  {
    hide ToInt32;
    ByteLonger(buf, more, off);
  }

  lemma ThreadLonger(buf: bytes, more: bytes, off: nat, t: X.Thread)
    requires off < |buf|
    ensures Stable(X.ThreadAt(buf, off, t), X.ThreadAt(buf + more, off, t), |buf|)
  {
    hide DecimalAt, ToInt32;
    DecimalLonger(buf, more, off);
  }

  lemma TextsLonger(buf: bytes, more: bytes, off: nat, t: X.Texts)
    requires off < |buf|
    ensures Stable(X.TextsAt(buf, off, t), X.TextsAt(buf + more, off, t), |buf|)
  {
    hide BlobAt, ToInt32;
    BlobLonger(buf, more, off);
    var o1 := BlobAt(buf, off).offset;
    if o1 <= |buf| {
      BlobLonger(buf, more, o1);
    }
  }

  lemma QueuingLonger(buf: bytes, more: bytes, off: nat, q: X.Queuing)
    requires off < |buf|
    ensures Stable(X.QueuingAt(buf, off, q), X.QueuingAt(buf + more, off, q), |buf|)
  {
    hide DecimalAt, ToInt32;
    DecimalLonger(buf, more, off);
    var o1 := DecimalAt(buf, off).offset;
    if o1 <= |buf| {
      DecimalLonger(buf, more, o1);
    }
    var o2 := DecimalAt(buf, o1).offset;
    if o2 <= |buf| {
      DecimalLonger(buf, more, o2);
    }
    var o3 := DecimalAt(buf, o2).offset;
    if o3 <= |buf| {
      DecimalLonger(buf, more, o3);
    }
  }

  lemma MoreTextsLonger(buf: bytes, more: bytes, off: nat, m: X.MoreTexts)
    requires off < |buf|
    ensures Stable(X.MoreTextsAt(buf, off, m), X.MoreTextsAt(buf + more, off, m), |buf|)
  {
    hide BlobAt, ToInt32;
    BlobLonger(buf, more, off);
    var o1 := BlobAt(buf, off).offset;
    if o1 <= |buf| {
      BlobLonger(buf, more, o1);
    }
    var o2 := BlobAt(buf, o1).offset;
    if o2 <= |buf| {
      BlobLonger(buf, more, o2);
    }
  }

  lemma ProfileLonger(buf: bytes, more: bytes, off: nat, p: X.Profile)
    requires off < |buf|
    ensures Stable(X.ProfileAt(buf, off, p), X.ProfileAt(buf + more, off, p), |buf|)
  {
    hide DecimalAt, ToInt32;
    DecimalLonger(buf, more, off);
  }

  lemma B3Longer(buf: bytes, more: bytes, off: nat, b: X.B3)
    requires off < |buf|
    ensures Stable(X.B3At(buf, off, b), X.B3At(buf + more, off, b), |buf|)
  {
    hide ToInt32;
    ByteLonger(buf, more, off);
  }

  lemma DiscardLonger(buf: bytes, more: bytes, off: nat, d: X.Discard)
    requires off < |buf|
    ensures Stable(X.DiscardAt(buf, off, d), X.DiscardAt(buf + more, off, d), |buf|)
  {
    hide DecimalAt, ToInt32;
    DecimalLonger(buf, more, off);
    var o1 := DecimalAt(buf, off).offset;
    ByteLonger(buf, more, o1);
    var o2 := ByteAt(buf, o1).offset;
    ByteLonger(buf, more, o2);
  }

  lemma {:induction false} Growing(x: X.XLog, i: nat, j: nat)
    requires i <= j
    ensures |X.EncUpTo(x, i)| <= |X.EncUpTo(x, j)|
  {
    hide X.EncGroup, X.EncHead, X.EncCosts, X.EncClient;
    if i < j {
      Growing(x, i, j - 1);
    }
  }

  /** The first offset past the groups that a cut record has whole. */
  lemma CutMandatory(x: X.XLog, x0: X.XLog, cut: bytes, rest: bytes)
    requires |X.EncUpTo(x, 0)| < 0x8000_0000 && X.EncUpTo(x, 0) == cut + rest && rest != []
    ensures X.InnerAt(cut, x0).result.Err?
  {
    hide X.EncUpTo, X.HeadAt, X.CostsAt, X.ClientAt, X.FirstFourAt, X.NextFourAt, X.LastFourAt;
    X.Mandatory(x, 0);
    HeadLonger(cut, rest, 0);
    var o1 := |X.EncHead(x.head)|;
    var o2 := o1 + |X.EncCosts(x.costs)|;
    if o1 <= |cut| {
      CostsLonger(cut, rest, o1);
      if o2 <= |cut| {
        ClientLonger(cut, rest, o2);
      }
    }
  }

  lemma MandatoryPart(x: X.XLog, k: nat, cut: bytes, rest: bytes)
    requires |X.EncUpTo(x, k)| < 0x8000_0000 && X.EncUpTo(x, k) == cut + rest && |X.EncUpTo(x, 0)| <= |cut|
    ensures var o1 := |X.EncHead(x.head)|;
      var o2 := o1 + |X.EncCosts(x.costs)|;
      && (X.HeadAt(cut, 0).result.Ok? ==> X.HeadAt(cut, 0).offset == o1)
      && (X.CostsAt(cut, o1).result.Ok? ==> X.CostsAt(cut, o1).offset == o2)
      && (X.ClientAt(cut, o2).result.Ok? ==> X.ClientAt(cut, o2).offset == |X.EncUpTo(x, 0)|)
  {
    Lengths(x);
    hide X.EncUpTo, X.HeadAt, X.CostsAt, X.ClientAt, X.EncHead, X.EncCosts, X.EncClient;
    X.Mandatory(x, k);
    HeadLonger(cut, rest, 0);
    CostsLonger(cut, rest, |X.EncHead(x.head)|);
    ClientLonger(cut, rest, |X.EncHead(x.head)| + |X.EncCosts(x.costs)|);
  }

  lemma Lengths(x: X.XLog)
    ensures |X.EncHead(x.head)| + |X.EncCosts(x.costs)| <= |X.EncUpTo(x, 0)|
  {
    hide X.EncHead, X.EncCosts, X.EncClient;
  }

  /** Inside group k the cut record cannot be read on; before it every group ends where it ends. */
  lemma FirstFourCut(x: X.XLog, x0: X.XLog, k: nat, cut: bytes, rest: bytes)
    requires 0 < k <= 12 && |X.EncUpTo(x, k)| < 0x8000_0000 && X.EncUpTo(x, k) == cut + rest
    requires |X.EncUpTo(x, k - 1)| < |cut| < |X.EncUpTo(x, k)|
    ensures var p := X.FirstFourAt(cut, |X.EncUpTo(x, 0)|, x0);
      p.result.Ok? ==> k > 4 && p.offset == |X.EncUpTo(x, 4)|
  {
    hide X.EncUpTo, X.PlaceAt, X.KindAt, X.UserAt, X.WebAt;
    X.PlaceCut(x, x0.place, k);
    X.KindCut(x, x0.kind, k);
    X.UserCut(x, x0.user, k);
    X.WebCut(x, x0.web, k);
    Growing(x, 0, k - 1);
    PlaceLonger(cut, rest, |X.EncUpTo(x, 0)|, x0.place);
    if k > 1 {
      Growing(x, 1, k - 1);
      KindLonger(cut, rest, |X.EncUpTo(x, 1)|, x0.kind);
    }
    if k > 2 {
      Growing(x, 2, k - 1);
      UserLonger(cut, rest, |X.EncUpTo(x, 2)|, x0.user);
    }
    if k > 3 {
      Growing(x, 3, k - 1);
      WebLonger(cut, rest, |X.EncUpTo(x, 3)|, x0.web);
    }
  }

  /** Inside group k the cut record cannot be read on; before it every group ends where it ends. */
  lemma NextFourCut(x: X.XLog, x0: X.XLog, k: nat, cut: bytes, rest: bytes)
    requires 4 < k <= 12 && |X.EncUpTo(x, k)| < 0x8000_0000 && X.EncUpTo(x, k) == cut + rest
    requires |X.EncUpTo(x, k - 1)| < |cut| < |X.EncUpTo(x, k)|
    ensures var p := X.NextFourAt(cut, |X.EncUpTo(x, 4)|, x0);
      p.result.Ok? ==> k > 8 && p.offset == |X.EncUpTo(x, 8)|
  {
    hide X.EncUpTo, X.DumpAt, X.ThreadAt, X.TextsAt, X.QueuingAt;
    X.DumpCut(x, x0.dump, k);
    X.ThreadCut(x, x0.thread, k);
    X.TextsCut(x, x0.texts, k);
    X.QueuingCut(x, x0.queuing, k);
    Growing(x, 4, k - 1);
    DumpLonger(cut, rest, |X.EncUpTo(x, 4)|, x0.dump);
    if k > 5 {
      Growing(x, 5, k - 1);
      ThreadLonger(cut, rest, |X.EncUpTo(x, 5)|, x0.thread);
    }
    if k > 6 {
      Growing(x, 6, k - 1);
      TextsLonger(cut, rest, |X.EncUpTo(x, 6)|, x0.texts);
    }
    if k > 7 {
      Growing(x, 7, k - 1);
      QueuingLonger(cut, rest, |X.EncUpTo(x, 7)|, x0.queuing);
    }
  }

  /** Inside group k the cut record cannot be read on; before it every group ends where it ends. */
  lemma LastFourCut(x: X.XLog, x0: X.XLog, k: nat, cut: bytes, rest: bytes)
    requires 8 < k <= 12 && |X.EncUpTo(x, k)| < 0x8000_0000 && X.EncUpTo(x, k) == cut + rest
    requires |X.EncUpTo(x, k - 1)| < |cut| < |X.EncUpTo(x, k)|
    ensures X.LastFourAt(cut, |X.EncUpTo(x, 8)|, x0).result.Err?
  {
    hide X.EncUpTo, X.MoreTextsAt, X.ProfileAt, X.B3At, X.DiscardAt;
    X.MoreTextsCut(x, x0.moreTexts, k);
    X.ProfileCut(x, x0.profile, k);
    X.B3Cut(x, x0.b3, k);
    X.DiscardCut(x, x0.discard, k);
    Growing(x, 8, k - 1);
    MoreTextsLonger(cut, rest, |X.EncUpTo(x, 8)|, x0.moreTexts);
    if k > 9 {
      Growing(x, 9, k - 1);
      ProfileLonger(cut, rest, |X.EncUpTo(x, 9)|, x0.profile);
    }
    if k > 10 {
      Growing(x, 10, k - 1);
      B3Longer(cut, rest, |X.EncUpTo(x, 10)|, x0.b3);
    }
    if k > 11 {
      Growing(x, 11, k - 1);
      DiscardLonger(cut, rest, |X.EncUpTo(x, 11)|, x0.discard);
    }
  }

  /** No record can be read that ends inside a group. */
  lemma CutInside(x: X.XLog, x0: X.XLog, k: nat, cut: bytes, rest: bytes)
    requires 1 <= k <= 12 && |X.EncUpTo(x, k)| < 0x8000_0000 && X.EncUpTo(x, k) == cut + rest
    requires |X.EncUpTo(x, k - 1)| < |cut| < |X.EncUpTo(x, k)|
    ensures X.InnerAt(cut, x0).result.Err?
  {
    hide X.EncUpTo, X.HeadAt, X.CostsAt, X.ClientAt, X.FirstFourAt, X.NextFourAt, X.LastFourAt;
    Growing(x, 0, k - 1);
    MandatoryPart(x, k, cut, rest);
    var p0, p1, p2 := X.HeadAt(cut, 0), X.CostsAt(cut, |X.EncHead(x.head)|), X.ClientAt(cut, |X.EncHead(x.head)| + |X.EncCosts(x.costs)|);
    if p0.result.Ok? && p1.result.Ok? && p2.result.Ok? {
      var x1 := x0.(head := p0.result.value, costs := p1.result.value, client := p2.result.value);
      FirstFourCut(x, x1, k, cut, rest);
      var q := X.FirstFourAt(cut, |X.EncUpTo(x, 0)|, x1);
      if q.result.Ok? {
        NextFourCut(x, q.result.value, k, cut, rest);
        var r := X.NextFourAt(cut, |X.EncUpTo(x, 4)|, q.result.value);
        if r.result.Ok? {
          LastFourCut(x, r.result.value, k, cut, rest);
        }
      }
    }
  }

  /** A cut record can be read exactly if it was cut where a group ends. */
  lemma ReadableIffBoundary(x: X.XLog, x0: X.XLog, n: nat)
    requires |X.EncUpTo(x, 12)| < 0x8000_0000 && n <= |X.EncUpTo(x, 12)|
    ensures X.InnerAt(X.EncUpTo(x, 12)[..n], x0).result.Ok? <==> exists k: nat :: k <= 12 && n == |X.EncUpTo(x, k)|
  {
    hide X.EncUpTo, X.InnerAt;
    if n < |X.EncUpTo(x, 0)| {
      Leading(x, 0, 12);
      Growing(x, 0, 12);
      var cut := X.EncUpTo(x, 0)[..n];
      assert cut == X.EncUpTo(x, 12)[..n];
      CutMandatory(x, x0, cut, X.EncUpTo(x, 0)[n..]);
      forall k: nat | k <= 12
        ensures n != |X.EncUpTo(x, k)|
      {
        Growing(x, 0, k);
      }
    } else {
      var k := Group(x, 12, n);
      Leading(x, k, 12);
      Growing(x, k, 12);
      var cut := X.EncUpTo(x, k)[..n];
      assert cut == X.EncUpTo(x, 12)[..n];
      if n == |X.EncUpTo(x, k)| {
        assert cut == X.EncUpTo(x, k);
        X.CutAtBoundary(x, x0, k);
      } else {
        CutInside(x, x0, k, cut, X.EncUpTo(x, k)[n..]);
        forall i: nat | i <= 12
          ensures n != |X.EncUpTo(x, i)|
        {
          if i < k {
            Growing(x, i, k - 1);
          } else {
            Growing(x, k, i);
          }
        }
      }
    }
  }

  /** The first group that reaches n. */
  lemma {:induction false} Group(x: X.XLog, m: nat, n: nat) returns (k: nat)
    requires |X.EncUpTo(x, 0)| <= n <= |X.EncUpTo(x, m)|
    ensures k <= m && n <= |X.EncUpTo(x, k)| && (k == 0 ==> n == |X.EncUpTo(x, 0)|)
    ensures k > 0 ==> |X.EncUpTo(x, k - 1)| < n
  {
    hide X.EncUpTo;
    if m == 0 {
      k := 0;
    } else if n <= |X.EncUpTo(x, m - 1)| {
      k := Group(x, m - 1, n);
    } else {
      k := m;
    }
  }

  /** A record with fewer groups is a prefix of one with more. */
  lemma {:induction false} Leading(x: X.XLog, i: nat, j: nat)
    requires i <= j
    ensures |X.EncUpTo(x, i)| <= |X.EncUpTo(x, j)| && X.EncUpTo(x, j)[..|X.EncUpTo(x, i)|] == X.EncUpTo(x, i)
  {
    hide X.EncGroup, X.EncHead, X.EncCosts, X.EncClient;
    if i < j {
      Leading(x, i, j - 1);
      var pre, n := X.EncUpTo(x, j - 1), |X.EncUpTo(x, i)|;
      assert X.EncUpTo(x, j) == pre + X.EncGroup(x, j);
      assert (pre + X.EncGroup(x, j))[..n] == pre[..n];
    }
  }

  // ----- what no writer writes -----------------------------------------------------------

  /** A decimal on any input: the width byte is the number of bytes up to five and means eight above. */
  lemma DecimalOf(buf: bytes, off: nat)
    requires off < |buf|
    ensures var w := if buf[off] <= 5 then buf[off] as int else 8;
      DecimalAt(buf, off).result ==
        if off + 1 + w > |buf| then Err(EndOfData) else Ok(Signed(buf[off + 1..off + 1 + w]))
  {
    if buf[off] == 0 {
      assert buf[off + 1..off + 1] == [];
      assert Signed([]) == 0;
    }
  }

  /** A blob on any input. */
  lemma BlobOf(buf: bytes, off: nat)
    requires off < |buf|
    ensures var w := if buf[off] == 255 then 2 else if buf[off] == 254 then 4 else 0;
      var start := off + 1 + w;
      if start > |buf| then BlobAt(buf, off).result == Err(EndOfData)
      else
        var n := if w == 2 then Unsigned(buf[off + 1..off + 3]) else if w == 4 then Signed(buf[off + 1..off + 5]) else buf[off] as int;
        BlobAt(buf, off).result ==
          if start + n > |buf| then Err(EndOfData) else if n < 0 then Err(Panicked) else Ok(buf[start..start + n])
  {
    hide Unsigned, Signed;
  }

  predicate KnownCode(code: byte) {
    || code == 0 || code == 10 || code == 20 || code == 30 || code == 40 || code == 45 || code == 46 || code == 50 || code == 51
    || code == 60 || code == 61 || code == 70 || code == 71 || code == 72 || code == 73 || code == 74 || code == 80
  }

  /** Unknown codes are errors, and so are negative counts; the end of the input is one, too. */
  lemma Rejected(buf: bytes, off: nat)
    ensures off >= |buf| ==> V.ValueAt(buf, off).result == Err(EndOfData) && P.PackAt(buf, off).result == Err(EndOfData)
    ensures off < |buf| && !KnownCode(buf[off]) ==> V.ValueAt(buf, off).result == Err(UnknownType(buf[off]))
    ensures off < |buf| && buf[off] != 10 && buf[off] != 21 ==> P.PackAt(buf, off).result == Err(UnknownType(buf[off]))
    ensures off < |buf| && (buf[off] == 70 || buf[off] == 80) && DecimalAt(buf, off + 1).result.Ok? && DecimalAt(buf, off + 1).result.value < 0 ==>
      V.ValueAt(buf, off).result == Err(Panicked)
    ensures off < |buf| && buf[off] == 10 && DecimalAt(buf, off + 1).result.Ok? && DecimalAt(buf, off + 1).result.value < 0 ==>
      P.PackAt(buf, off).result == Err(Panicked)
    ensures off + 2 < |buf| && 71 <= buf[off] <= 74 && buf[off + 1] >= 0x80 ==> V.ValueAt(buf, off).result == Err(Panicked)
  {
    hide DecimalAt, BlobAt, X.XLogAt, V.EntriesAt, V.ValuesAt, V.SummaryAt;
    if off + 2 < |buf| && 71 <= buf[off] <= 74 && buf[off + 1] >= 0x80 {
      NegativeCount(buf, off + 1);
    }
  }

  lemma NegativeCount(buf: bytes, off: nat)
    requires off + 1 < |buf| && buf[off] >= 0x80
    ensures SignedAt(buf, off, 2).result.Ok? && SignedAt(buf, off, 2).result.value < 0
  {
    PowValues();
    var b := buf[off..off + 2];
    assert b[..1] == [buf[off]] && b[..1][..0] == [];
    assert Unsigned(b[..1]) == buf[off];
  }
}
