/** The ring of recent alerts (internal/core/cache/alert_cache.go). */
module AlertCache {
  import opened Endian
  import opened Results

  datatype Alerts = Alerts(data: seq<bytes>, loop: int, index: nat)

  /** Slot p holds the newest alert written there. */
  ghost predicate Ring(buf: seq<Option<bytes>>, history: seq<bytes>, base: nat, index: nat) {
    && index < |buf| && |history| == base + index && (base == 0 || base >= |buf|)
    && forall p :: 0 <= p < |buf| ==>
      buf[p] == if p < index then Some(history[base + p]) else if base > 0 then Some(history[base - |buf| + p]) else None
  }

  lemma RingAdd(buf: seq<Option<bytes>>, history: seq<bytes>, base: nat, index: nat, data: bytes)
    requires Ring(buf, history, base, index)
    ensures var buf2 := buf[index := Some(data)];
      if index + 1 < |buf| then Ring(buf2, history + [data], base, index + 1)
      else Ring(buf2, history + [data], base + |buf|, 0)
  {
  }

  /** The values of the filled slots, in order. */
  function Filled(slots: seq<Option<bytes>>): seq<bytes> {
    if slots == [] then []
    else Filled(slots[..|slots| - 1]) + match slots[|slots| - 1] case Some(v) => [v] case None => []
  }

  lemma {:induction false} AllFilled(slots: seq<Option<bytes>>, values: seq<bytes>)
    requires |slots| == |values| && forall i :: 0 <= i < |slots| ==> slots[i] == Some(values[i])
    ensures Filled(slots) == values
  {
    if slots != [] {
      AllFilled(slots[..|slots| - 1], values[..|values| - 1]);
    }
  }

  lemma {:induction false} NoneFilled(slots: seq<Option<bytes>>)
    requires forall i :: 0 <= i < |slots| ==> slots[i] == None
    ensures Filled(slots) == []
  {
    if slots != [] {
      NoneFilled(slots[..|slots| - 1]);
    }
  }

  /** What a client gets that asks after each batch: all of it, or nothing if it fills the ring. */
  function Delivered(batches: seq<seq<bytes>>, size: nat): seq<bytes> {
    if batches == [] then []
    else
      var b := batches[|batches| - 1];
      Delivered(batches[..|batches| - 1], size) + if |b| < size then b else []
  }

  class AlertCache {
    const size: nat
    const buf: array<Option<bytes>>
    var loop: nat
    var index: nat
    ghost var history: seq<bytes>

    ghost predicate Valid()
      reads this, buf
    {
      size > 0 && buf.Length == size && Ring(buf[..], history, loop * size, index)
    }

    constructor (size: nat)
      requires size > 0
      ensures Valid() && history == [] && this.size == size && loop == 0 && index == 0 && fresh(buf)
    {
      this.size, loop, index, history := size, 0, 0, [];
      buf := new Option<bytes>[size](_ => None);
    }

    method Add(data: bytes)
      requires Valid()
      modifies this, buf
      ensures Valid() && history == old(history) + [data]
    {
      hide Ring;
      Parts();
      RingAdd(buf[..], history, loop * size, index, data);
      ghost var slots := buf[..];
      buf[index] := Some(data);
      assert buf[..] == slots[index := Some(data)];
      history := history + [data];
      index := index + 1;
      if index >= size {
        assert (loop + 1) * size == loop * size + size;
        index := 0;
        loop := loop + 1;
      }
    }

    lemma Parts()
      requires Valid()
      ensures index < size == buf.Length && |history| == loop * size + index && (if loop == 0 then loop * size == 0 else loop * size >= size)
      ensures Filled(buf[..index]) == history[loop * size..]
      ensures forall p :: index <= p <= size ==>
        Filled(buf[p..]) == if loop > 0 then history[loop * size - size + p..loop * size] else []
    {
      BaseOf(size, loop);
      StretchesOf(buf[..], history, loop * size, index);
      assert buf[..][..index] == buf[..index];
      forall p | index <= p <= size
        ensures buf[..][p..] == buf[p..]
      {
      }
    }

    /** The two stretches of a ring, as parts of the history. */
    static lemma StretchesOf(slots: seq<Option<bytes>>, history: seq<bytes>, base: nat, index: nat)
      requires Ring(slots, history, base, index)
      ensures Filled(slots[..index]) == history[base..]
      ensures forall p :: index <= p <= |slots| ==>
        Filled(slots[p..]) == if base > 0 then history[base - |slots| + p..base] else []
    {
      hide Filled;
      AllFilled(slots[..index], history[base..]);
      forall p | index <= p <= |slots|
        ensures Filled(slots[p..]) == if base > 0 then history[base - |slots| + p..base] else []
      {
        if base > 0 {
          AllFilled(slots[p..], history[base - |slots| + p..base]);
        } else {
          NoneFilled(slots[p..]);
        }
      }
    }

    /** The alerts of a stretch of slots. */
    method Copy(result: seq<bytes>, from: nat, to: nat) returns (r: seq<bytes>)
      requires from <= to <= buf.Length
      ensures r == result + Filled(buf[from..to])
    {
      r := result;
      assert result + [] == result;
      for i := from to to
        invariant r == result + Filled(buf[from..i])
      {
        assert buf[from..i + 1][..i - from] == buf[from..i];
        if buf[i].Some? {
          r := r + [buf[i].value];
        }
      }
    }

    /** A client that is less than a ring behind gets exactly what was added since its cursor; any
        other gets nothing. Both get the current cursor. The cursor (-1, i) is before the first
        alert: it gets all alerts as long as there are fewer than i. */
    method GetSince(clientLoop: int, clientIndex: nat) returns (r: Alerts)
      requires Valid() && clientIndex <= size
      ensures r.loop == loop && r.index == index && r.loop * size + r.index == |history|
      ensures var seen := clientLoop * size + clientIndex;
        r.data == if seen >= 0 then (if seen <= |history| && |history| - seen < size then history[seen..] else [])
          else if clientLoop == -1 && |history| < clientIndex then history else []
    {
      hide Ring, Filled;
      Parts();
      Cursor(size, loop, clientLoop, clientIndex);
      assert clientIndex >= index ==> buf[clientIndex..] == buf[clientIndex..size];
      assert buf[..index] == buf[0..index];
      var result: seq<bytes> := [];
      if clientLoop < loop - 1 {
        return Alerts([], loop, index);
      }
      if clientLoop == loop && clientIndex == index {
        return Alerts([], loop, index);
      }
      if clientLoop == loop {
        if clientIndex < index {
          AllFrom(clientIndex);
          result := Copy(result, clientIndex, index);
        }
      } else if clientLoop == loop - 1 && clientIndex > index {
        result := Copy(result, clientIndex, size);
        result := Copy(result, 0, index);
      } else {
        return Alerts([], loop, index);
      }
      r := Alerts(result, loop, index);
    }

    /** A client that asks after each batch, with the cursor of its last answer. */
    method Stream(batches: seq<seq<bytes>>) returns (got: seq<bytes>)
      requires Valid()
      modifies this, buf
      ensures Valid() && got == Delivered(batches, size)
    {
      hide Ring, Delivered;
      got := [];
      NothingYet(size);
      Parts();
      var now := GetSince(loop, index);
      var l, i := now.loop, now.index;
      for k := 0 to |batches|
        invariant Valid() && l == loop && i == index && i <= size && loop * size + index == |history|
        invariant got == Delivered(batches[..k], size)
      {
        NextBatch(batches, k, size);
        ghost var n0 := |history|;
        AddAll(batches[k]);
        Parts();
        var r := GetSince(l, i);
        assert history[n0..] == batches[k];
        got := got + r.data;
        l, i := r.loop, r.index;
      }
      assert batches[..|batches|] == batches;
    }

    method AddAll(batch: seq<bytes>)
      requires Valid()
      modifies this, buf
      ensures Valid() && history == old(history) + batch
    {
      hide Valid;
      assert history + [] == history;
      for i := 0 to |batch|
        invariant Valid() && history == old(history) + batch[..i]
      {
        assert old(history) + batch[..i + 1] == old(history) + batch[..i] + [batch[i]];
        Add(batch[i]);
      }
      assert batch[..|batch|] == batch;
    }

    static lemma NothingYet(size: nat)
      ensures Delivered([], size) == []
    {
    }

    static lemma NextBatch(batches: seq<seq<bytes>>, k: nat, size: nat)
      requires k < |batches|
      ensures Delivered(batches[..k + 1], size) == Delivered(batches[..k], size) + if |batches[k]| < size then batches[k] else []
    {
      assert batches[..k + 1][..k] == batches[..k];
    }

    lemma AllFrom(from: nat)
      requires Valid() && from <= index
      ensures Filled(buf[from..index]) == history[loop * size + from..]
    {
      AllFilled(buf[from..index], history[loop * size + from..]);
    }
  }

  lemma {:induction false} NonNegative(k: nat, size: nat)
    ensures k * size >= 0
  {
    if k > 0 {
      NonNegative(k - 1, size);
      assert k * size == (k - 1) * size + size;
    }
  }

  /** Where a cursor stands, before or after the current loop. */
  lemma Cursor(size: nat, loop: nat, clientLoop: int, clientIndex: nat)
    requires clientIndex <= size
    ensures var seen, base := clientLoop * size + clientIndex, loop * size;
      && (clientLoop == loop ==> seen == base + clientIndex)
      && (clientLoop == loop - 1 ==> seen == base - size + clientIndex)
      && (clientLoop < loop - 1 ==> seen <= base - size)
      && (clientLoop > loop ==> seen >= base + size)
      && (clientLoop < -1 ==> seen + size <= 0) && (clientLoop == -1 ==> seen + size == clientIndex)
  {
    var c, l := clientLoop * size, loop * size;
    if clientLoop == loop - 1 {
      assert c == l - size;
    } else if clientLoop < loop - 1 {
      var k := loop - 2 - clientLoop;
      NonNegative(k, size);
      assert k * size == l - 2 * size - c;
    } else if clientLoop > loop {
      var k := clientLoop - loop - 1;
      NonNegative(k, size);
      assert k * size == c - l - size;
    }
    if clientLoop < -1 {
      var k := -2 - clientLoop;
      NonNegative(k, size);
      assert k * size + 2 * size + c == 0;
    }
  }

  /** Before the first loop there is nothing, after it at least one ring. */
  lemma BaseOf(size: nat, loop: nat)
    ensures loop == 0 ==> loop * size == 0
    ensures loop > 0 ==> loop * size >= size
  {
    if loop > 0 {
      NonNegative(loop - 1, size);
      assert (loop - 1) * size == loop * size - size;
    }
  }
}
