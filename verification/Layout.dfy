/** Files, and the arrangement shared by the key files: a two-byte header followed by records
    of varying length (internal/db/io/real_key_file.go, internal/db/io/real_key_file2.go). */
module Layout {
  import opened Endian
  import opened DataStream

  /** The content after writing bs at p; p is at most one past the end. */
  function Written(data: bytes, p: nat, bs: bytes): bytes
    requires p <= |data|
  {
    data[..p] + bs + if p + |bs| <= |data| then data[p + |bs|..] else []
  }

  /** An open file. Several handles may share one; the ghost log names the records in it. */
  class OsFile<R> {
    var data: bytes
    ghost var log: seq<R>

    constructor ()
      ensures data == [] && log == []
    {
      data, log := [], [];
    }

    /** At most n bytes from pos, fewer at the end of the file. */
    method ReadAt(pos: nat, n: nat) returns (b: bytes)
      ensures b == if pos >= |data| then [] else if pos + n <= |data| then data[pos..pos + n] else data[pos..]
    {
      b := if pos >= |data| then [] else if pos + n <= |data| then data[pos..pos + n] else data[pos..];
    }

    method WriteAt(pos: nat, b: bytes)
      requires pos <= |data|
      modifies this`data
      ensures data == Written(old(data), pos, b)
    {
      data := Written(data, pos, b);
    }
  }

  const HEADER: bytes := [0xCA, 0xFE]

  function Flat(slots: seq<bytes>): bytes {
    if slots == [] then [] else Flat(slots[..|slots| - 1]) + slots[|slots| - 1]
  }

  function FileOf(slots: seq<bytes>): bytes {
    HEADER + Flat(slots)
  }

  /** Where slot i starts; for i == |slots|, the length of the file. */
  function Pos(slots: seq<bytes>, i: nat): (p: nat)
    requires i <= |slots|
    ensures p >= |HEADER|
  {
    |HEADER| + |Flat(slots[..i])|
  }

  lemma PosNext(slots: seq<bytes>, i: nat)
    requires i < |slots|
    ensures Pos(slots, i + 1) == Pos(slots, i) + |slots[i]|
  {
    assert slots[..i + 1][..i] == slots[..i];
  }

  lemma PosPrefix(slots: seq<bytes>, more: seq<bytes>, i: nat)
    requires i <= |slots| <= |more| && more[..|slots|] == slots
    ensures Pos(slots, i) == Pos(more, i)
  {
    assert slots[..i] == more[..i];
  }

  lemma PosEnd(slots: seq<bytes>)
    ensures Pos(slots, |slots|) == |FileOf(slots)|
  {
    assert slots[..|slots|] == slots;
  }

  lemma {:induction false} PosMonotone(slots: seq<bytes>, i: nat, j: nat)
    requires i <= j <= |slots|
    ensures Pos(slots, i) <= Pos(slots, j)
    ensures i < j && slots[i] != [] ==> Pos(slots, i) < Pos(slots, j)
    decreases j - i
  {
    if i < j {
      PosNext(slots, i);
      PosMonotone(slots, i + 1, j);
    }
  }

  lemma {:induction false} FlatAppend(s: seq<bytes>, t: seq<bytes>)
    ensures Flat(s + t) == Flat(s) + Flat(t)
  {
    if t == [] {
      assert s + t == s;
    } else {
      FlatAppend(s, t[..|t| - 1]);
      assert (s + t)[..|s + t| - 1] == s + t[..|t| - 1];
      assert Flat(s) + (Flat(t[..|t| - 1]) + t[|t| - 1]) == Flat(s) + Flat(t[..|t| - 1]) + t[|t| - 1];
    }
  }

  /** The file around slot i. */
  lemma SlotAt(slots: seq<bytes>, i: nat)
    requires i < |slots|
    ensures FileOf(slots) == FileOf(slots[..i]) + slots[i] + Flat(slots[i + 1..])
    ensures |FileOf(slots[..i])| == Pos(slots, i)
    ensures At(FileOf(slots), Pos(slots, i), slots[i])
  {
    var pre, mid, post := slots[..i], [slots[i]], slots[i + 1..];
    assert slots == pre + mid + post;
    FlatAppend(pre + mid, post);
    FlatAppend(pre, mid);
    assert Flat(mid[..0]) == [] && Flat(mid) == slots[i];
    assert HEADER + (Flat(pre) + slots[i] + Flat(post)) == FileOf(pre) + slots[i] + Flat(post);
    AtMiddle(FileOf(pre), slots[i], Flat(post));
  }

  lemma AtMiddle(a: bytes, b: bytes, c: bytes)
    ensures At(a + b + c, |a|, b)
  {
  }

  /** Overwriting a slot by one of the same length changes nothing else. */
  lemma Overwrite(slots: seq<bytes>, i: nat, c: bytes)
    requires i < |slots| && |c| == |slots[i]|
    ensures Pos(slots, i) + |c| <= |FileOf(slots)|
    ensures FileOf(slots[i := c]) == Written(FileOf(slots), Pos(slots, i), c)
    ensures forall k {:trigger Pos(slots, k)} :: 0 <= k <= |slots| ==> Pos(slots[i := c], k) == Pos(slots, k)
  {
    hide FileOf, Flat, Pos, Written;
    var s2 := slots[i := c];
    SlotAt(slots, i);
    SlotAt(s2, i);
    assert s2[..i] == slots[..i] && s2[i + 1..] == slots[i + 1..];
    WrittenMiddle(FileOf(slots[..i]), slots[i], c, Flat(slots[i + 1..]));
    forall k | 0 <= k <= |slots|
      ensures Pos(s2, k) == Pos(slots, k)
    {
      SameLengths(slots, s2, k);
    }
  }

  lemma WrittenMiddle(a: bytes, b: bytes, c: bytes, d: bytes)
    requires |c| == |b|
    ensures |a| + |c| <= |a + b + d| && Written(a + b + d, |a|, c) == a + c + d
  {
    assert (a + b + d)[..|a|] == a && (a + b + d)[|a| + |b|..] == d;
  }

  lemma {:induction false} SameLengths(s: seq<bytes>, t: seq<bytes>, k: nat)
    requires k <= |s| == |t| && forall i :: 0 <= i < |s| ==> |s[i]| == |t[i]|
    ensures Pos(s, k) == Pos(t, k)
  {
    if k > 0 {
      SameLengths(s, t, k - 1);
      PosNext(s, k - 1);
      PosNext(t, k - 1);
    }
  }

  /** A write inside a slot is a write of the whole slot. */
  lemma WrittenInside(data: bytes, p: nat, slot: bytes, off: nat, bs: bytes)
    requires At(data, p, slot) && off + |bs| <= |slot|
    ensures Written(data, p + off, bs) == Written(data, p, Written(slot, off, bs))
  {
    var c := Written(slot, off, bs);
    assert data[p..p + |slot|] == slot;
    assert data == data[..p] + slot + data[p + |slot|..];
    assert data[..p + off] == data[..p] + slot[..off];
    assert data[p + off + |bs|..] == slot[off + |bs|..] + data[p + |slot|..];
    assert c == slot[..off] + bs + slot[off + |bs|..];
  }
}
