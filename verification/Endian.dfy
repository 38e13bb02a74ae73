/** Big-endian integers of the wire and file formats (internal/protocol/endian.go).

    A Go byte is an integer below 256 and an integer keeps its mathematical value; what a
    conversion such as `byte(v >> 8)` or `int32(v)` cuts off is written out. */
module Endian {
  type byte = x: int | 0 <= x < 0x100
  type bytes = seq<byte>

  type int8 = x: int | -0x80 <= x < 0x80
  type int16 = x: int | -0x8000 <= x < 0x8000
  type int32 = x: int | -0x8000_0000 <= x < 0x8000_0000
  type int64 = x: int | -0x8000_0000_0000_0000 <= x < 0x8000_0000_0000_0000

  /** The largest value of the signed five-byte format. */
  const LONG5_MAX := 0x7f_ffff_ffff
  const LONG5_MIN := -0x80_0000_0000

  function Pow256(n: nat): (p: nat)
    ensures p > 0
  {
    if n == 0 then 1 else 0x100 * Pow256(n - 1)
  }

  /** The low n bytes of v in two's complement, most significant first. */
  function Put(n: nat, v: int): (b: bytes)
    ensures |b| == n
  {
    if n == 0 then [] else Put(n - 1, v / 0x100) + [v % 0x100]
  }

  function Unsigned(b: bytes): (v: nat)
  {
    if b == [] then 0 else Unsigned(b[..|b| - 1]) * 0x100 + b[|b| - 1]
  }

  function Signed(b: bytes): int
  {
    var u, p := Unsigned(b), Pow256(|b|);
    if 2 * u >= p then u - p else u
  }

  /** Go's `int32(v)` and `int8(b)`. */
  function ToInt32(v: int): int32 {
    var u := v % 0x1_0000_0000;
    if u >= 0x8000_0000 then u - 0x1_0000_0000 else u
  }

  function ToInt8(b: byte): int8 {
    if b >= 0x80 then b - 0x100 else b
  }

  lemma UnsignedFive(b: bytes)
    requires |b| >= 5
    ensures Unsigned(b[..4]) == b[0] as int * 0x100_0000 + b[1] as int * 0x1_0000 + b[2] as int * 0x100 + b[3]
    ensures Unsigned(b[..5]) == Unsigned(b[..4]) * 0x100 + b[4]
  {
    UnsignedThree(b);
    assert b[..5][..4] == b[..4] && b[..4][..3] == b[..3];
  }

  lemma UnsignedThree(b: bytes)
    requires |b| >= 3
    ensures Unsigned(b[..3]) == b[0] as int * 0x1_0000 + b[1] as int * 0x100 + b[2]
  {
    assert b[..3][..2] == b[..2] && b[..2][..1] == b[..1] && b[..1][..0] == [];
    assert Unsigned(b[..1]) == b[0];
    assert Unsigned(b[..2]) == b[0] as int * 0x100 + b[1];
  }

  /** Three bytes placed in the high part of an int32, then an arithmetic shift right by 8. */
  function Int3(b: bytes): (v: int)
    requires |b| >= 3
  {
    ToInt32(b[0] as int * 0x100_0000 + b[1] as int * 0x1_0000 + b[2] as int * 0x100) / 0x100
  }

  /** The first byte carries the sign; the four others are added below it. */
  function Int5(b: bytes): (v: int)
    requires |b| >= 5
  {
    ToInt8(b[0]) as int * 0x1_0000_0000 + b[1] as int * 0x100_0000 + b[2] as int * 0x1_0000 + b[3] as int * 0x100 + b[4]
  }

  /** Both readers sign-extend the big-endian number they are given. */
  lemma IntsAreSigned(b: bytes)
    ensures |b| >= 3 ==> Int3(b) == Signed(b[..3])
    ensures |b| >= 5 ==> Int5(b) == Signed(b[..5])
  {
    PowValues();
    if |b| >= 3 {
      UnsignedThree(b);
    }
    if |b| >= 5 {
      UnsignedFive(b);
    }
  }

  function PutInt3(v: int): bytes {
    [v / 0x1_0000 % 0x100, v / 0x100 % 0x100, v % 0x100]
  }

  function PutInt5(v: int): (b: bytes)
    ensures |b| == 5
  {
    [v / 0x1_0000_0000 % 0x100, v / 0x100_0000 % 0x100, v / 0x1_0000 % 0x100, v / 0x100 % 0x100, v % 0x100]
  }

  lemma {:induction false} UnsignedBound(b: bytes)
    ensures Unsigned(b) < Pow256(|b|)
  {
    if b != [] {
      UnsignedBound(b[..|b| - 1]);
    }
  }

  lemma {:induction false} UnsignedPut(n: nat, v: nat)
    requires v < Pow256(n)
    ensures Unsigned(Put(n, v)) == v
  {
    if n > 0 {
      UnsignedPut(n - 1, v / 0x100);
      assert Put(n, v)[..n - 1] == Put(n - 1, v / 0x100);
    }
  }

  lemma {:induction false} PutUnsigned(b: bytes)
    ensures Put(|b|, Unsigned(b)) == b
  {
    if b != [] {
      PutUnsigned(b[..|b| - 1]);
      assert b == b[..|b| - 1] + [b[|b| - 1]];
    }
  }

  /** Adding a multiple of the modulus does not show in the low n bytes. */
  lemma {:induction false} PutWraps(n: nat, v: int)
    ensures Put(n, v) == Put(n, v + Pow256(n))
  {
    if n > 0 {
      PutWraps(n - 1, v / 0x100);
      assert (v + Pow256(n)) / 0x100 == v / 0x100 + Pow256(n - 1);
      assert (v + Pow256(n)) % 0x100 == v % 0x100;
    }
  }

  lemma Grows(d: nat, m: int)
    ensures m >= 1 ==> d * m >= d
    ensures m <= -1 ==> d * m + d <= 0
  {
  }

  lemma Remainder(d: nat, k: int, r: nat)
    requires r < d
    ensures (d * k + r) % d == r
  {
    var v := d * k + r;
    var q := v / d;
    assert v == d * q + v % d;
    assert d * (k - q) == d * k - d * q;
    Grows(d, k - q);
  }

  lemma LowDigit(p: nat, v: int)
    requires p > 0
    ensures v / 0x100 % p * 0x100 + v % 0x100 == v % (0x100 * p)
  {
    var q, d := v / 0x100, 0x100 * p;
    var k, r := q / p, q % p * 0x100 + v % 0x100;
    assert q == p * k + q % p;
    assert d * k == 0x100 * (p * k);
    assert v == d * k + r;
    Remainder(d, k, r);
  }

  /** Writing any number in n bytes keeps its remainder by 256^n. */
  lemma {:induction false} PutKeeps(n: nat, v: int)
    ensures Unsigned(Put(n, v)) == v % Pow256(n)
  {
    if n > 0 {
      PutKeeps(n - 1, v / 0x100);
      assert Put(n, v)[..n - 1] == Put(n - 1, v / 0x100);
      LowDigit(Pow256(n - 1), v);
    }
  }

  lemma HalfTurn(v: int, u: int)
    requires u == v % 0x100_0000_0000
    ensures (v + 0x80_0000_0000) % 0x100_0000_0000 - 0x80_0000_0000 == if 2 * u >= 0x100_0000_0000 then u - 0x100_0000_0000 else u
  {
  }

  /** The five-byte format wraps around at 2^39. */
  lemma Int5Wraps(v: int)
    ensures Int5(PutInt5(v)) == (v + 0x80_0000_0000) % 0x100_0000_0000 - 0x80_0000_0000
  {
    hide Int5, PutInt5, Put, Unsigned, Pow256;
    PutInts(v);
    PowValues();
    IntsAreSigned(PutInt5(v));
    assert PutInt5(v)[..5] == PutInt5(v);
    PutKeeps(5, v);
    HalfTurn(v, Unsigned(PutInt5(v)));
  }

  /** An int32 conversion wraps around at 2^31. */
  lemma ToInt32Wraps(v: int, k: int)
    ensures ToInt32(v) == (v + 0x8000_0000) % 0x1_0000_0000 - 0x8000_0000
    ensures ToInt32(v + 0x1_0000_0000 * k) == ToInt32(v)
  {
  }

  lemma {:induction false} UnsignedConcat(a: bytes, b: bytes)
    ensures Unsigned(a + b) == Unsigned(a) * Pow256(|b|) + Unsigned(b)
  {
    if b == [] {
      assert a + b == a;
    } else {
      UnsignedConcat(a, b[..|b| - 1]);
      assert (a + b)[..|a + b| - 1] == a + b[..|b| - 1];
      Shifted(Unsigned(a), Pow256(|b| - 1));
    }
  }

  lemma Shifted(u: nat, p: nat)
    ensures u * p * 0x100 == u * (0x100 * p)
  {
  }

  lemma {:induction false} UnsignedZero(b: bytes)
    ensures Unsigned(b) == 0 <==> forall i :: 0 <= i < |b| ==> b[i] == 0
  {
    if b != [] {
      UnsignedZero(b[..|b| - 1]);
      assert forall i :: 0 <= i < |b| - 1 ==> b[..|b| - 1][i] == b[i];
    }
  }

  lemma SignedPut(n: nat, v: int)
    requires 0 <= Pow256(n) + 2 * v && 2 * v < Pow256(n)
    ensures Signed(Put(n, v)) == v
  {
    if v >= 0 {
      UnsignedPut(n, v);
    } else {
      PutWraps(n, v);
      UnsignedPut(n, v + Pow256(n));
    }
  }

  lemma PowValues()
    ensures Pow256(1) == 0x100 && Pow256(2) == 0x1_0000 && Pow256(3) == 0x100_0000
    ensures Pow256(4) == 0x1_0000_0000 && Pow256(5) == 0x100_0000_0000
    ensures Pow256(8) == 0x1_0000_0000_0000_0000
  {
    assert Pow256(2) == 0x100 * Pow256(1) && Pow256(3) == 0x100 * Pow256(2);
    assert Pow256(4) == 0x100 * Pow256(3) && Pow256(5) == 0x100 * Pow256(4);
    assert Pow256(6) == 0x100 * Pow256(5) && Pow256(7) == 0x100 * Pow256(6) && Pow256(8) == 0x100 * Pow256(7);
  }

  /** The Put forms of the three- and five-byte formats write two's complement. */
  lemma PutInts(v: int)
    ensures PutInt3(v) == Put(3, v)
    ensures PutInt5(v) == Put(5, v)
  {
    var v1, v2, v3, v4 := v / 0x100, v / 0x1_0000, v / 0x100_0000, v / 0x1_0000_0000;
    assert v1 / 0x100 == v2 && v2 / 0x100 == v3 && v3 / 0x100 == v4;
    assert Put(0, v4 / 0x100) == [] && Put(1, v4) == [v4 % 0x100];
    assert Put(2, v3) == [v4 % 0x100, v3 % 0x100];
    assert Put(3, v2) == [v4 % 0x100, v3 % 0x100, v2 % 0x100];
    assert Put(4, v1) == [v4 % 0x100, v3 % 0x100, v2 % 0x100, v1 % 0x100];
    assert Put(1, v2) == [v2 % 0x100];
    assert Put(2, v1) == [v2 % 0x100, v1 % 0x100];
  }

  /** Five bytes hold exactly the values of the LONG5 range. */
  lemma Int5RoundTrip(v: int)
    ensures Int5(PutInt5(v)) == v <==> LONG5_MIN <= v <= LONG5_MAX
  {
    PutInts(v);
    PowValues();
    IntsAreSigned(PutInt5(v));
    assert PutInt5(v)[..5] == PutInt5(v);
    UnsignedBound(PutInt5(v));
    if LONG5_MIN <= v <= LONG5_MAX {
      SignedPut(5, v);
    }
  }

  lemma Int3RoundTrip(v: int)
    ensures Int3(PutInt3(v)) == v <==> -0x80_0000 <= v <= 0x7f_ffff
  {
    PutInts(v);
    PowValues();
    IntsAreSigned(PutInt3(v));
    assert PutInt3(v)[..3] == PutInt3(v);
    UnsignedBound(PutInt3(v));
    if -0x80_0000 <= v <= 0x7f_ffff {
      SignedPut(3, v);
    }
  }
}
