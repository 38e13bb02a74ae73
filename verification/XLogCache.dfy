/** The ring of recent transactions with its per-object index (internal/core/cache/xlog_cache.go). */
module XLogCache {
  import opened Endian
  import opened Results
  import opened Selections

  /** The data is never nil, so a slot without data is a slot without entry. */
  datatype XLogEntry = XLogEntry(objHash: int32, elapsed: int32, isError: bool, data: bytes)

  datatype Answer = Answer(loop: int, index: nat, data: seq<XLogEntry>)

  // ----- what was put --------------------------------------------------------------------

  predicate Passes(e: XLogEntry, minElapsed: int32) {
    e.elapsed >= minElapsed || e.isError
  }

  /** The entries that pass, in order. */
  function Passing(es: seq<XLogEntry>, minElapsed: int32): seq<XLogEntry> {
    if es == [] then []
    else
      var e := es[|es| - 1];
      Passing(es[..|es| - 1], minElapsed) + if Passes(e, minElapsed) then [e] else []
  }

  /** The entries of one object, in order. */
  function OfObject(es: seq<XLogEntry>, obj: int32): seq<XLogEntry> {
    if es == [] then []
    else
      var e := es[|es| - 1];
      OfObject(es[..|es| - 1], obj) + if e.objHash == obj then [e] else []
  }

  function Max(a: int, b: int): int {
    if a >= b then a else b
  }

  function Min(a: int, b: int): int {
    if a <= b then a else b
  }

  /** The first entry that the ring still holds. */
  function Oldest(n: nat, size: nat): nat {
    Max(0, n - size)
  }

  /** The first entry that a client at the cursor has not seen and the ring still holds. A cursor
      from a later loop, as one from before a restart, counts as knowing nothing. */
  function Start(n: nat, size: nat, loop: int, lastLoop: int, lastIndex: nat): (s: nat)
    ensures s >= Oldest(n, size) || s == n
  {
    if lastLoop > loop then Oldest(n, size)
    else Min(n, Max(lastLoop * size + lastIndex, Oldest(n, size)))
  }

  /** The entries from Start on are those that the ring still holds and, unless the cursor comes from a
      later loop, that were put at or after the cursor. */
  lemma StartMeaning(n: nat, size: nat, loop: int, lastLoop: int, lastIndex: nat, i: nat)
    requires i < n
    ensures Start(n, size, loop, lastLoop, lastIndex) <= i <==>
      n <= i + size && (lastLoop > loop || lastLoop * size + lastIndex <= i)
  {
  }

  /** A cursor that was current after n0 puts asks for what came since, or for the last size entries. */
  lemma StartOfCursor(n: nat, size: nat, loop: nat, n0: nat, loop0: nat, index0: nat)
    requires size > 0 && n0 <= n && loop * size <= n < loop * size + size
    requires n0 == loop0 * size + index0 && index0 < size
    ensures Start(n, size, loop, loop0, index0) == Max(n0, n - size)
  {
    if loop0 > loop {
      LoopsApart(loop0, loop, size);
    }
  }

  lemma LoopsApart(a: int, b: int, size: nat)
    requires a > b
    ensures a * size >= b * size + size
  {
    assert (a - b - 1) * size >= 0;
  }

  // ----- filters -------------------------------------------------------------------------

  lemma {:induction false} PassingConcat(s: seq<XLogEntry>, t: seq<XLogEntry>, minElapsed: int32)
    ensures Passing(s + t, minElapsed) == Passing(s, minElapsed) + Passing(t, minElapsed)
  {
    if t == [] {
      assert s + t == s;
    } else {
      PassingConcat(s, t[..|t| - 1], minElapsed);
      assert (s + t)[..|s + t| - 1] == s + t[..|t| - 1];
    }
  }

  lemma {:induction false} OfObjectConcat(s: seq<XLogEntry>, t: seq<XLogEntry>, obj: int32)
    ensures OfObject(s + t, obj) == OfObject(s, obj) + OfObject(t, obj)
  {
    if t == [] {
      assert s + t == s;
    } else {
      OfObjectConcat(s, t[..|t| - 1], obj);
      assert (s + t)[..|s + t| - 1] == s + t[..|t| - 1];
    }
  }

  /** An entry is of interest if it failed or took at least as long as asked for. */
  function Wanted(minElapsed: int32): XLogEntry -> bool {
    (e: XLogEntry) => e.isError || e.elapsed >= minElapsed
  }

  function WantedFrom(minElapsed: int32, objs: set<int32>): XLogEntry -> bool {
    (e: XLogEntry) => (e.isError || e.elapsed >= minElapsed) && e.objHash in objs
  }

  function IsOf(obj: int32): XLogEntry -> bool {
    (e: XLogEntry) => e.objHash == obj
  }

  lemma {:induction false} PassingMeaning(es: seq<XLogEntry>, minElapsed: int32)
    ensures Keeps(es, Wanted(minElapsed), Passing(es, minElapsed))
  {
    hide Keeps;
    if es == [] {
      KeepsNone(Wanted(minElapsed));
    } else {
      var init, e := es[..|es| - 1], es[|es| - 1];
      PassingMeaning(init, minElapsed);
      KeepsNext(init, Wanted(minElapsed), Passing(init, minElapsed), e);
      assert es == init + [e];
    }
  }

  lemma {:induction false} OfObjectMeaning(es: seq<XLogEntry>, obj: int32)
    ensures Keeps(es, IsOf(obj), OfObject(es, obj))
  {
    hide Keeps;
    if es == [] {
      KeepsNone(IsOf(obj));
    } else {
      var init, e := es[..|es| - 1], es[|es| - 1];
      OfObjectMeaning(init, obj);
      KeepsNext(init, IsOf(obj), OfObject(init, obj), e);
      assert es == init + [e];
    }
  }

  lemma {:induction false} DueMeaning(es: seq<XLogEntry>, minElapsed: int32, objs: set<int32>)
    ensures Keeps(es, WantedFrom(minElapsed, objs), OfObjects(Passing(es, minElapsed), objs))
  {
    hide Keeps;
    if es == [] {
      KeepsNone(WantedFrom(minElapsed, objs));
    } else {
      var init, e := es[..|es| - 1], es[|es| - 1];
      var before := Passing(init, minElapsed);
      DueMeaning(init, minElapsed, objs);
      KeepsNext(init, WantedFrom(minElapsed, objs), OfObjects(before, objs), e);
      assert es == init + [e];
      assert (before + [e])[..|before|] == before && before + [] == before;
      assert OfObjects(before, objs) + [] == OfObjects(before, objs);
    }
  }

  /** What a client gets that asks after each batch: of each batch the last size entries. */
  function Delivered(batches: seq<seq<XLogEntry>>, size: nat, minElapsed: int32): seq<XLogEntry> {
    if batches == [] then []
    else
      var b := batches[|batches| - 1];
      Delivered(batches[..|batches| - 1], size, minElapsed) + Passing(b[Oldest(|b|, size)..], minElapsed)
  }

  function Flatten(batches: seq<seq<XLogEntry>>): seq<XLogEntry> {
    if batches == [] then [] else Flatten(batches[..|batches| - 1]) + batches[|batches| - 1]
  }

  /** A client that is never more than size entries behind gets every entry once and in order. */
  lemma {:induction false} NothingLost(batches: seq<seq<XLogEntry>>, size: nat, minElapsed: int32)
    requires forall b :: b in batches ==> |b| <= size
    ensures Delivered(batches, size, minElapsed) == Passing(Flatten(batches), minElapsed)
  {
    if batches != [] {
      var init, b := batches[..|batches| - 1], batches[|batches| - 1];
      NothingLost(init, size, minElapsed);
      PassingConcat(Flatten(init), b, minElapsed);
      assert b[Oldest(|b|, size)..] == b;
    }
  }

  /** If each object has the same entries in both, both have the same entries. */
  lemma {:induction false} SameMultiset(s: seq<XLogEntry>, t: seq<XLogEntry>)
    requires forall obj: int32 :: OfObject(s, obj) == OfObject(t, obj)
    ensures multiset(s) == multiset(t)
  {
    forall e: XLogEntry
      ensures multiset(s)[e] == multiset(t)[e]
    {
      CountOfObject(s, e);
      CountOfObject(t, e);
    }
  }

  /** The entries of some objects, in order. */
  function OfObjects(es: seq<XLogEntry>, objs: set<int32>): seq<XLogEntry> {
    if es == [] then []
    else
      var e := es[|es| - 1];
      OfObjects(es[..|es| - 1], objs) + if e.objHash in objs then [e] else []
  }

  lemma {:induction false} OfObjectsOfObject(es: seq<XLogEntry>, objs: set<int32>, obj: int32)
    ensures OfObject(OfObjects(es, objs), obj) == if obj in objs then OfObject(es, obj) else []
  {
    if es != [] {
      var init, e := es[..|es| - 1], es[|es| - 1];
      OfObjectsOfObject(init, objs, obj);
      if e.objHash in objs {
        assert (OfObjects(init, objs) + [e])[..|OfObjects(init, objs)|] == OfObjects(init, objs);
      } else {
        assert OfObjects(init, objs) + [] == OfObjects(init, objs);
      }
    }
  }

  /** Picking the objects one by one brings what filtering brings, up to the order between objects. */
  lemma ObjectByObject(data: seq<XLogEntry>, es: seq<XLogEntry>, objs: set<int32>)
    requires forall obj: int32 :: OfObject(data, obj) == if obj in objs then OfObject(es, obj) else []
    ensures multiset(data) == multiset(OfObjects(es, objs))
  {
    forall obj: int32
      ensures OfObject(data, obj) == OfObject(OfObjects(es, objs), obj)
    {
      OfObjectsOfObject(es, objs, obj);
    }
    SameMultiset(data, OfObjects(es, objs));
  }

  lemma {:induction false} CountOfObject(s: seq<XLogEntry>, e: XLogEntry)
    ensures multiset(OfObject(s, e.objHash))[e] == multiset(s)[e]
  {
    if s != [] {
      CountOfObject(s[..|s| - 1], e);
      assert s == s[..|s| - 1] + [s[|s| - 1]];
    }
  }

  // ----- the ring ------------------------------------------------------------------------

  /** Slot p holds the newest entry that was written there; entry k of the history went to places[k]. */
  ghost predicate Ring(entries: seq<Option<XLogEntry>>, history: seq<XLogEntry>, places: seq<nat>, base: nat, pos: nat) {
    && pos < |entries| && |history| == |places| == base + pos && (base == 0 || base >= |entries|)
    && (forall k :: base <= k < |history| ==> places[k] == k - base)
    && (forall k :: Max(0, base - |entries|) <= k < base ==> places[k] == k - base + |entries|)
    && (forall p :: 0 <= p < |entries| ==>
      entries[p] == if p < pos then Some(history[base + p]) else if base > 0 then Some(history[base - |entries| + p]) else None)
  }

  /** The slots of an object's entries between from and to, in the order of writing. */
  function Index(history: seq<XLogEntry>, places: seq<nat>, from: nat, to: nat, obj: int32): seq<nat>
    requires to <= |history| == |places|
  {
    if from >= to then []
    else Index(history, places, from, to - 1, obj) + if history[to - 1].objHash == obj then [places[to - 1]] else []
  }

  lemma {:induction false} IndexFirst(history: seq<XLogEntry>, places: seq<nat>, from: nat, to: nat, obj: int32)
    requires from < to <= |history| == |places|
    ensures Index(history, places, from, to, obj) ==
      (if history[from].objHash == obj then [places[from]] else []) + Index(history, places, from + 1, to, obj)
  {
    if from + 1 < to {
      IndexFirst(history, places, from, to - 1, obj);
    }
  }

  lemma {:induction false} IndexKeeps(history: seq<XLogEntry>, places: seq<nat>, e: XLogEntry, p: nat, from: nat, to: nat, obj: int32)
    requires to <= |history| == |places|
    ensures Index(history + [e], places + [p], from, to, obj) == Index(history, places, from, to, obj)
  {
    if from < to {
      IndexKeeps(history, places, e, p, from, to - 1, obj);
    }
  }

  /** The index lists, for each object that the ring holds entries of, their slots in write order. */
  ghost predicate Indexed(objIndex: map<int32, seq<nat>>, history: seq<XLogEntry>, places: seq<nat>, from: nat)
    requires |history| == |places|
  {
    forall obj: int32 :: Slots(objIndex, obj) == Index(history, places, from, |history|, obj)
  }

  /** Go reads a missing list as the empty one. */
  function Slots(objIndex: map<int32, seq<nat>>, obj: int32): seq<nat> {
    if obj in objIndex then objIndex[obj] else []
  }

  /** Takes the overwritten slot off its object's list, if it is the head of it. */
  function Dropped(objIndex: map<int32, seq<nat>>, obj: int32, pos: nat): map<int32, seq<nat>> {
    var list := Slots(objIndex, obj);
    if list != [] && list[0] == pos then
      if |list| == 1 then objIndex - {obj} else objIndex[obj := list[1..]]
    else objIndex
  }

  lemma DroppedSlots(objIndex: map<int32, seq<nat>>, obj: int32, pos: nat, o: int32)
    requires Slots(objIndex, obj) != [] && Slots(objIndex, obj)[0] == pos
    ensures Slots(Dropped(objIndex, obj, pos), o) == if o == obj then Slots(objIndex, obj)[1..] else Slots(objIndex, o)
  {
  }

  /** Putting one entry: the ring, the index and the window move on together. */
  lemma RingPut(entries: seq<Option<XLogEntry>>, history: seq<XLogEntry>, places: seq<nat>, base: nat, pos: nat, e: XLogEntry)
    requires Ring(entries, history, places, base, pos)
    ensures var entries2 := entries[pos := Some(e)];
      if pos + 1 < |entries| then Ring(entries2, history + [e], places + [pos], base, pos + 1)
      else Ring(entries2, history + [e], places + [pos], base + |entries|, 0)
  {
  }

  /** The slot to be written next holds the oldest entry of a full ring. */
  lemma NextSlot(entries: seq<Option<XLogEntry>>, history: seq<XLogEntry>, places: seq<nat>, base: nat, pos: nat)
    requires Ring(entries, history, places, base, pos)
    ensures pos < |entries| && |history| == |places|
    ensures var n, size := |history|, |entries|;
      if n >= size then entries[pos] == Some(history[n - size]) && places[n - size] == pos else entries[pos] == None
  {
  }

  /** The overwritten slot is the head of its object's list, so dropping it leaves the newer ones. */
  lemma DropHead(objIndex: map<int32, seq<nat>>, history: seq<XLogEntry>, places: seq<nat>, from: nat)
    requires from < |history| == |places| && Indexed(objIndex, history, places, from)
    ensures var list := Slots(objIndex, history[from].objHash);
      list != [] && list[0] == places[from]
    ensures Indexed(Dropped(objIndex, history[from].objHash, places[from]), history, places, from + 1)
  {
    hide Index, Slots, Dropped;
    var e := history[from];
    IndexFirst(history, places, from, |history|, e.objHash);
    assert Slots(objIndex, e.objHash) == Index(history, places, from, |history|, e.objHash);
    forall obj: int32
      ensures Slots(Dropped(objIndex, e.objHash, places[from]), obj) == Index(history, places, from + 1, |history|, obj)
    {
      IndexFirst(history, places, from, |history|, obj);
      DroppedSlots(objIndex, e.objHash, places[from], obj);
      assert Slots(objIndex, obj) == Index(history, places, from, |history|, obj);
    }
  }

  lemma AddTail(objIndex: map<int32, seq<nat>>, history: seq<XLogEntry>, places: seq<nat>, from: nat, e: XLogEntry, p: nat)
    requires from <= |history| == |places| && Indexed(objIndex, history, places, from)
    ensures Indexed(objIndex[e.objHash := Slots(objIndex, e.objHash) + [p]], history + [e], places + [p], from)
  {
    var objIndex2 := objIndex[e.objHash := Slots(objIndex, e.objHash) + [p]];
    forall obj: int32
      ensures Slots(objIndex2, obj) == Index(history + [e], places + [p], from, |history| + 1, obj)
    {
      IndexKeeps(history, places, e, p, from, |history|, obj);
      assert Slots(objIndex, obj) == Index(history, places, from, |history|, obj);
    }
  }

  // ----- reading -------------------------------------------------------------------------

  /** The slots of a client's range, newest rounds last. */
  predicate InRange(pos: nat, lastLoop: int, lastIndex: nat, endLoop: int, endIndex: nat) {
    if endLoop == lastLoop then lastIndex <= pos < endIndex
    else if endLoop - lastLoop == 1 then lastIndex <= endIndex || pos >= lastIndex || pos < endIndex
    else true
  }

  /** The filled slots from lo on and below hi that pass. */
  function Copied(entries: seq<Option<XLogEntry>>, lo: nat, hi: nat, minElapsed: int32): seq<XLogEntry>
    requires hi <= |entries|
  {
    if lo >= hi then []
    else
      Copied(entries, lo, hi - 1, minElapsed) +
      match entries[hi - 1]
      case Some(e) => if Passes(e, minElapsed) then [e] else []
      case None => []
  }

  /** A stretch of slots that was written in one go holds that stretch of the history. */
  lemma {:induction false} CopiedIs(entries: seq<Option<XLogEntry>>, history: seq<XLogEntry>, lo: nat, hi: nat, shift: int, minElapsed: int32)
    requires lo <= hi <= |entries| && 0 <= lo + shift && hi + shift <= |history|
    requires forall p :: lo <= p < hi ==> entries[p] == Some(history[p + shift])
    ensures Copied(entries, lo, hi, minElapsed) == Passing(history[lo + shift..hi + shift], minElapsed)
  {
    hide Passes;
    if lo < hi {
      CopiedIs(entries, history, lo, hi - 1, shift, minElapsed);
      assert history[lo + shift..hi + shift][..hi - lo - 1] == history[lo + shift..hi - 1 + shift];
    }
  }

  lemma {:induction false} CopiedNothing(entries: seq<Option<XLogEntry>>, lo: nat, hi: nat, minElapsed: int32)
    requires hi <= |entries| && forall p :: lo <= p < hi ==> entries[p] == None
    ensures Copied(entries, lo, hi, minElapsed) == []
  {
    if lo < hi {
      CopiedNothing(entries, lo, hi - 1, minElapsed);
    }
  }

  /** The end of the ring from slot lo on, and then its beginning: the last round's newer part. */
  lemma WrappedIs(entries: seq<Option<XLogEntry>>, history: seq<XLogEntry>, places: seq<nat>, base: nat, pos: nat, lo: nat, minElapsed: int32)
    requires Ring(entries, history, places, base, pos) && pos <= lo <= |entries|
    ensures Copied(entries, lo, |entries|, minElapsed) + Copied(entries, 0, pos, minElapsed) ==
      Passing(history[Max(0, base - |entries| + lo)..], minElapsed)
  {
    hide Ring, Copied, Passing;
    RingParts(entries, history, places, base, pos);
    CopiedIs(entries, history, 0, pos, base, minElapsed);
    if base == 0 {
      CopiedNothing(entries, lo, |entries|, minElapsed);
      assert history[0..pos] == history[0..];
      assert [] + Passing(history[0..], minElapsed) == Passing(history[0..], minElapsed);
    } else {
      var older, newer := history[base - |entries| + lo..base], history[base..base + pos];
      CopiedIs(entries, history, lo, |entries|, base - |entries|, minElapsed);
      PassingConcat(older, newer, minElapsed);
      assert history[base - |entries| + lo..] == older + newer;
    }
  }

  lemma RingParts(entries: seq<Option<XLogEntry>>, history: seq<XLogEntry>, places: seq<nat>, base: nat, pos: nat)
    requires Ring(entries, history, places, base, pos)
    ensures pos < |entries| && |history| == |places| == base + pos && (base == 0 || base >= |entries|)
    ensures forall p :: 0 <= p < pos ==> entries[p] == Some(history[p + base])
    ensures forall p :: pos <= p < |entries| ==>
      entries[p] == if base > 0 then Some(history[p + (base - |entries|)]) else None
  {
  }

  /** The three cases of the scan, as places in the history. */
  lemma StartCases(n: nat, size: nat, loop: nat, pos: nat, lastLoop: int, lastIndex: nat)
    requires n == loop * size + pos && pos < size && lastIndex <= size
    ensures var s, base := Start(n, size, loop, lastLoop, lastIndex), loop * size;
      && (lastLoop == loop ==> s == if lastIndex < pos then base + lastIndex else n)
      && (lastLoop == loop - 1 ==> s == Max(0, base - size + if lastIndex <= pos then pos else lastIndex))
      && (lastLoop != loop && lastLoop != loop - 1 ==> s == Max(0, base - size + pos))
  {
    if lastLoop == loop - 1 {
      assert lastLoop * size == loop * size - size;
    } else if lastLoop < loop - 1 {
      LoopsApart(loop - 1, lastLoop, size);
      assert (loop - 1) * size == loop * size - size;
    }
    if loop > 0 {
      LoopsApart(loop, 0, size);
    }
  }

  /** A slot of a live entry is in range exactly if the entry is new to the client. */
  lemma RangeIs(entries: seq<Option<XLogEntry>>, history: seq<XLogEntry>, places: seq<nat>, loop: nat, pos: nat,
      lastLoop: int, lastIndex: nat, k: nat)
    requires Ring(entries, history, places, loop * |entries|, pos) && lastIndex <= |entries|
    requires Oldest(|history|, |entries|) <= k < |history|
    ensures places[k] < |entries| && entries[places[k]] == Some(history[k])
    ensures InRange(places[k], lastLoop, lastIndex, loop, pos) <==>
      k >= Start(|history|, |entries|, loop, lastLoop, lastIndex)
  {
    StartCases(|history|, |entries|, loop, pos, lastLoop, lastIndex);
  }

  /** What the copy takes from a list of slots. */
  function Picked(entries: seq<Option<XLogEntry>>, list: seq<nat>, lastLoop: int, lastIndex: nat, endLoop: int, endIndex: nat,
      minElapsed: int32): seq<XLogEntry>
  {
    if list == [] then []
    else
      var p := list[|list| - 1];
      Picked(entries, list[..|list| - 1], lastLoop, lastIndex, endLoop, endIndex, minElapsed) +
      if InRange(p, lastLoop, lastIndex, endLoop, endIndex) && p < |entries| && entries[p].Some? && Passes(entries[p].value, minElapsed)
      then [entries[p].value] else []
  }

  function From(history: seq<XLogEntry>, s: nat, to: nat): seq<XLogEntry>
    requires to <= |history|
  {
    if s <= to then history[s..to] else []
  }

  lemma {:induction false} PickedIs(entries: seq<Option<XLogEntry>>, history: seq<XLogEntry>, places: seq<nat>, loop: nat, pos: nat,
      lastLoop: int, lastIndex: nat, minElapsed: int32, obj: int32, to: nat)
    requires Ring(entries, history, places, loop * |entries|, pos) && lastIndex <= |entries| && to <= |history|
    ensures Picked(entries, Index(history, places, Oldest(|history|, |entries|), to, obj), lastLoop, lastIndex, loop, pos, minElapsed) ==
      OfObject(Passing(From(history, Start(|history|, |entries|, loop, lastLoop, lastIndex), to), minElapsed), obj)
  {
    hide Ring, Start, InRange, Passes, Picked, Passing, OfObject, From, Oldest;
    RingParts(entries, history, places, loop * |entries|, pos);
    var from, s := Oldest(|history|, |entries|), Start(|history|, |entries|, loop, lastLoop, lastIndex);
    Nothing(entries, lastLoop, lastIndex, loop, pos, minElapsed, obj);
    if to > from {
      var init, p, e := Index(history, places, from, to - 1, obj), places[to - 1], history[to - 1];
      var before := From(history, s, to - 1);
      PickedIs(entries, history, places, loop, pos, lastLoop, lastIndex, minElapsed, obj, to - 1);
      RangeIs(entries, history, places, loop, pos, lastLoop, lastIndex, to - 1);
      PickedSnoc(entries, init, p, lastLoop, lastIndex, loop, pos, minElapsed);
      FromNext(history, s, to);
      ChosenSnoc(before, e, minElapsed, obj);
      var chosen := OfObject(Passing(before, minElapsed), obj);
      assert before + [] == before && init + [] == init && chosen + [] == chosen;
    } else {
      StartNotBefore(|history|, |entries|, loop, lastLoop, lastIndex);
      FromLater(history, s, to);
    }
  }

  lemma FromNext(history: seq<XLogEntry>, s: nat, to: nat)
    requires 0 < to <= |history|
    ensures From(history, s, to) == From(history, s, to - 1) + if to - 1 >= s then [history[to - 1]] else []
  {
  }

  lemma FromLater(history: seq<XLogEntry>, s: nat, to: nat)
    requires to <= s && to <= |history|
    ensures From(history, s, to) == []
  {
  }

  lemma StartNotBefore(n: nat, size: nat, loop: int, lastLoop: int, lastIndex: nat)
    ensures Start(n, size, loop, lastLoop, lastIndex) >= Oldest(n, size)
  {
  }

  lemma Nothing(entries: seq<Option<XLogEntry>>, lastLoop: int, lastIndex: nat, endLoop: int, endIndex: nat, minElapsed: int32, obj: int32)
    ensures Picked(entries, [], lastLoop, lastIndex, endLoop, endIndex, minElapsed) == []
    ensures OfObject(Passing([], minElapsed), obj) == []
  {
  }

  lemma PickedSnoc(entries: seq<Option<XLogEntry>>, list: seq<nat>, p: nat, lastLoop: int, lastIndex: nat, endLoop: int, endIndex: nat,
      minElapsed: int32)
    ensures Picked(entries, list + [p], lastLoop, lastIndex, endLoop, endIndex, minElapsed) ==
      Picked(entries, list, lastLoop, lastIndex, endLoop, endIndex, minElapsed) +
      if InRange(p, lastLoop, lastIndex, endLoop, endIndex) && p < |entries| && entries[p].Some? && Passes(entries[p].value, minElapsed)
      then [entries[p].value] else []
  {
    assert (list + [p])[..|list|] == list;
  }

  lemma ChosenSnoc(es: seq<XLogEntry>, e: XLogEntry, minElapsed: int32, obj: int32)
    ensures OfObject(Passing(es + [e], minElapsed), obj) ==
      OfObject(Passing(es, minElapsed), obj) + if Passes(e, minElapsed) && e.objHash == obj then [e] else []
  {
    assert (es + [e])[..|es|] == es;
    var before := Passing(es, minElapsed);
    assert (before + [e])[..|before|] == before;
    assert before + [] == before;
  }

  /** A list of one object's entries. */
  lemma {:induction false} OfObjectTwice(es: seq<XLogEntry>, o: int32, obj: int32)
    ensures OfObject(OfObject(es, o), obj) == if obj == o then OfObject(es, o) else []
  {
    if es != [] {
      var init, e := es[..|es| - 1], es[|es| - 1];
      OfObjectTwice(init, o, obj);
      OfObjectConcat(OfObject(init, o), if e.objHash == o then [e] else [], obj);
      assert OfObject([e], obj) == if e.objHash == obj then [e] else [] by {
        assert [e][..0] == [];
      }
    }
  }

  class XLogCache {
    const size: nat
    const entries: array<Option<XLogEntry>>
    var pos: nat
    var loop: nat
    var count: nat
    var objIndex: map<int32, seq<nat>>
    ghost var history: seq<XLogEntry>   // everything that was put
    ghost var places: seq<nat>

    ghost predicate Valid()
      reads this, entries
    {
      && size > 0 && entries.Length == size
      && Ring(entries[..], history, places, loop * size, pos)
      && count == Min(|history|, size)
      && Indexed(objIndex, history, places, Oldest(|history|, size))
    }

    constructor (size: nat)
      requires size > 0
      ensures Valid() && history == [] && loop == 0 && pos == 0 && this.size == size && fresh(entries)
    {
      this.size, pos, loop, count := size, 0, 0, 0;
      entries := new Option<XLogEntry>[size](_ => None);
      objIndex, history, places := map[], [], [];
    }

    /** The slot and the index of Put, before the position moves on. */
    method PutEntry(e: XLogEntry)
      requires Valid()
      modifies this`objIndex, this`history, this`places, entries
      ensures history == old(history) + [e] && |history| == |places| == |old(history)| + 1
      ensures Indexed(objIndex, history, places, Oldest(|history|, size))
      ensures if pos + 1 < size then Ring(entries[..], history, places, loop * size, pos + 1)
        else Ring(entries[..], history, places, loop * size + size, 0)
    {
      hide Ring, Indexed, Dropped, Slots;
      ghost var n, from := |history|, Oldest(|history|, size);
      NextSlot(entries[..], history, places, loop * size, pos);
      RingPut(entries[..], history, places, loop * size, pos, e);
      var overwritten := entries[pos];
      if overwritten.Some? {
        DropHead(objIndex, history, places, from);
        objIndex := Dropped(objIndex, overwritten.value.objHash, pos);
        from := from + 1;
      }
      AddTail(objIndex, history, places, from, e, pos);
      ghost var slots := entries[..];
      entries[pos] := Some(e);
      assert entries[..] == slots[pos := Some(e)];
      objIndex := objIndex[e.objHash := Slots(objIndex, e.objHash) + [pos]];
      history, places := history + [e], places + [pos];
    }

    method Put(objHash: int32, elapsed: int32, isError: bool, data: bytes)
      requires Valid()
      modifies this, entries
      ensures Valid() && history == old(history) + [XLogEntry(objHash, elapsed, isError, data)]
    {
      hide Ring, Indexed;
      PutEntry(XLogEntry(objHash, elapsed, isError, data));
      pos := pos + 1;
      if pos >= size {
        assert (loop + 1) * size == loop * size + size;
        loop := loop + 1;
        pos := 0;
      }
      if count < size {
        count := count + 1;
      }
    }

    method CopyFiltered(buf: seq<XLogEntry>, from: nat, to: nat, minElapsed: int32) returns (r: seq<XLogEntry>)
      requires Valid() && from <= to <= size
      ensures r == buf + Copied(entries[..], from, to, minElapsed)
    {
      hide Valid;
      assert entries.Length == size by { Sizes(); }
      r := buf;
      assert buf + [] == buf;
      for i := from to to
        invariant r == buf + Copied(entries[..], from, i, minElapsed)
      {
        var e := entries[i];
        assert entries[..][i] == e;
        if e.None? {
          continue;
        }
        if e.value.elapsed < minElapsed && !e.value.isError {
          continue;
        }
        r := r + [e.value];
      }
    }

    lemma Sizes()
      requires Valid()
      ensures entries.Length == size && |history| == |places|
    {
    }

    /** The positions in the lists of the requested objects, object by object in an arbitrary order. */
    method CopyFromIndex(lastLoop: int, lastIndex: nat, minElapsed: int32, objHashSet: set<int32>) returns (buf: seq<XLogEntry>)
      requires Valid() && lastIndex <= size
      ensures forall obj: int32 :: OfObject(buf, obj) == (if obj in objHashSet then OfObject(Fresh(lastLoop, lastIndex, minElapsed), obj) else [])
    {
      hide Valid, Fresh, OfObject;
      var todo := objHashSet;
      buf := [];
      NoEntries();
      while todo != {}
        invariant todo <= objHashSet
        invariant forall obj: int32 ::
          OfObject(buf, obj) == if obj in objHashSet - todo then OfObject(Fresh(lastLoop, lastIndex, minElapsed), obj) else []
        decreases |todo|
      {
        var objHash :| objHash in todo;
        todo := todo - {objHash};
        var block := CopyObject(lastLoop, lastIndex, minElapsed, objHash);
        forall obj: int32
          ensures OfObject(buf + block, obj) == OfObject(buf, obj) + if obj == objHash then block else []
        {
          OfObjectConcat(buf, block, obj);
          OfObjectTwice(Fresh(lastLoop, lastIndex, minElapsed), objHash, obj);
        }
        buf := buf + block;
      }
    }

    static lemma NoEntries()
      ensures forall obj: int32 :: OfObject([], obj) == []
    {
    }

    /** What a client at the cursor is due. */
    ghost function Fresh(lastLoop: int, lastIndex: nat, minElapsed: int32): seq<XLogEntry>
      reads this
    {
      var s := Start(|history|, size, loop, lastLoop, lastIndex);
      if s <= |history| then Passing(history[s..], minElapsed) else []
    }

    method CopyObject(lastLoop: int, lastIndex: nat, minElapsed: int32, objHash: int32) returns (block: seq<XLogEntry>)
      requires Valid() && lastIndex <= size
      ensures block == OfObject(Fresh(lastLoop, lastIndex, minElapsed), objHash)
    {
      hide Ring, Start, InRange, Passing, OfObject;
      var list := Slots(objIndex, objHash);
      ghost var from := Oldest(|history|, size);
      Sizes();
      assert list == Index(history, places, from, |history|, objHash);
      ghost var slots := entries[..];
      block := [];
      for i := 0 to |list|
        invariant block == Picked(slots, list[..i], lastLoop, lastIndex, loop, pos, minElapsed)
      {
        assert list[..i + 1][..i] == list[..i];
        SlotsInside(i, objHash);
        var p := list[i];
        if !InRange(p, lastLoop, lastIndex, loop, pos) {
          continue;
        }
        var e := entries[p];
        if e.None? {
          continue;
        }
        if e.value.elapsed < minElapsed && !e.value.isError {
          continue;
        }
        block := block + [e.value];
      }
      assert list[..|list|] == list;
      PickedIs(slots, history, places, loop, pos, lastLoop, lastIndex, minElapsed, objHash, |history|);
      StartInside(lastLoop, lastIndex);
    }

    /** The range that starts there. */
    lemma StartInside(lastLoop: int, lastIndex: nat)
      requires Valid() && lastIndex <= size
      ensures var s := Start(|history|, size, loop, lastLoop, lastIndex);
        s <= |history| && From(history, s, |history|) == history[s..]
    {
      hide Ring;
      RingParts(entries[..], history, places, loop * size, pos);
    }

    lemma SlotsInside(i: nat, objHash: int32)
      requires Valid() && i < |Slots(objIndex, objHash)|
      ensures Slots(objIndex, objHash)[i] < size
    {
      hide Ring, Index, Slots, Oldest;
      Sizes();
      IndexInside(entries[..], history, places, loop, pos, objHash, |history|);
      assert Slots(objIndex, objHash) == Index(history, places, Oldest(|history|, size), |history|, objHash);
      assert Slots(objIndex, objHash)[i] in Slots(objIndex, objHash);
    }

    static lemma {:induction false} IndexInside(entries: seq<Option<XLogEntry>>, history: seq<XLogEntry>, places: seq<nat>, loop: nat, pos: nat, obj: int32, to: nat)
      requires Ring(entries, history, places, loop * |entries|, pos) && to <= |history|
      ensures forall p :: p in Index(history, places, Oldest(|history|, |entries|), to, obj) ==> p < |entries|
    {
      if to > Oldest(|history|, |entries|) {
        IndexInside(entries, history, places, loop, pos, obj, to - 1);
        RangeIs(entries, history, places, loop, pos, 0, 0, to - 1);
      }
    }

    /** A client at the cursor is due the entries of interest from Start on. */
    lemma FreshMeaning(lastLoop: int, lastIndex: nat, minElapsed: int32, objs: Option<set<int32>>)
      requires Valid() && lastIndex <= size
      ensures Start(|history|, size, loop, lastLoop, lastIndex) <= |history|
      ensures Keeps(history[Start(|history|, size, loop, lastLoop, lastIndex)..], Wanted(minElapsed), Fresh(lastLoop, lastIndex, minElapsed))
      ensures objs.Some? ==> Keeps(history[Start(|history|, size, loop, lastLoop, lastIndex)..],
        WantedFrom(minElapsed, objs.value), OfObjects(Fresh(lastLoop, lastIndex, minElapsed), objs.value))
    {
      StartInside(lastLoop, lastIndex);
      hide Valid, Start, Keeps, Wanted, WantedFrom, Passing, OfObjects;
      var es := history[Start(|history|, size, loop, lastLoop, lastIndex)..];
      PassingMeaning(es, minElapsed);
      if objs.Some? {
        DueMeaning(es, minElapsed, objs.value);
      }
    }

    /** The scan, or the walk along the index for some objects: either way the client gets what it
        is due, and each object's entries in order. */
    method Get(lastLoop: int, lastIndex: nat, minElapsed: int32, objHashSet: Option<set<int32>>) returns (r: Answer)
      requires Valid() && lastIndex <= size
      ensures r.loop == loop && r.index == pos
      ensures Start(|history|, size, loop, lastLoop, lastIndex) <= |history|
      ensures objHashSet == None ==>
        Keeps(history[Start(|history|, size, loop, lastLoop, lastIndex)..], Wanted(minElapsed), r.data)
      ensures objHashSet.Some? ==> exists due ::
        Keeps(history[Start(|history|, size, loop, lastLoop, lastIndex)..], WantedFrom(minElapsed, objHashSet.value), due) &&
        multiset(r.data) == multiset(due)
      ensures objHashSet == None ==> r.data == Fresh(lastLoop, lastIndex, minElapsed)
      ensures objHashSet.Some? ==>
        forall obj: int32 :: OfObject(r.data, obj) == if obj in objHashSet.value then OfObject(Fresh(lastLoop, lastIndex, minElapsed), obj) else []
      ensures objHashSet.Some? ==>
        multiset(r.data) == multiset(OfObjects(Fresh(lastLoop, lastIndex, minElapsed), objHashSet.value))
    {
      FreshMeaning(lastLoop, lastIndex, minElapsed, objHashSet);
      hide Valid, Fresh, OfObject, OfObjects, Keeps, Wanted, WantedFrom, Start;
      var data: seq<XLogEntry>;
      if objHashSet.Some? {
        data := CopyFromIndex(lastLoop, lastIndex, minElapsed, objHashSet.value);
        ObjectByObject(data, Fresh(lastLoop, lastIndex, minElapsed), objHashSet.value);
      } else {
        data := Scan(lastLoop, lastIndex, minElapsed);
      }
      r := Answer(loop, pos, data);
    }

    /** The three cases of the scan. */
    method Scan(lastLoop: int, lastIndex: nat, minElapsed: int32) returns (data: seq<XLogEntry>)
      requires Valid() && lastIndex <= size
      ensures data == Fresh(lastLoop, lastIndex, minElapsed)
    {
      hide Ring, Start, Passing, OfObject, Copied, Indexed, Oldest;
      data := [];
      StartInside(lastLoop, lastIndex);
      ghost var slots, base := entries[..], loop * size;
      RingParts(slots, history, places, base, pos);
      StartCases(|history|, size, loop, pos, lastLoop, lastIndex);
      if loop == lastLoop {
        if lastIndex < pos {
          CopiedIs(slots, history, lastIndex, pos, base, minElapsed);
          data := CopyFiltered(data, lastIndex, pos, minElapsed);
          assert history[base + lastIndex..base + pos] == history[base + lastIndex..];
        } else {
          NonePass(minElapsed);
        }
      } else if loop - lastLoop == 1 && lastIndex > pos {
        WrappedIs(slots, history, places, base, pos, lastIndex, minElapsed);
        data := CopyFiltered(data, lastIndex, size, minElapsed);
        data := CopyFiltered(data, 0, pos, minElapsed);
      } else {
        WrappedIs(slots, history, places, base, pos, pos, minElapsed);
        data := CopyFiltered(data, pos, size, minElapsed);
        data := CopyFiltered(data, 0, pos, minElapsed);
      }
    }

    static lemma NonePass(minElapsed: int32)
      ensures Passing([], minElapsed) == []
    {
    }

    /** A client that follows the cache through all batches gets what Delivered says. */
    method Stream(batches: seq<seq<XLogEntry>>, minElapsed: int32) returns (got: seq<XLogEntry>)
      requires Valid()
      modifies this, entries
      ensures Valid() && history == old(history) + Flatten(batches)
      ensures got == Delivered(batches, size, minElapsed)
    {
      hide Valid, Passing, Flatten, Delivered, Oldest;
      NothingYet(minElapsed, size);
      got := [];
      var l, i := loop, pos;
      assert history + [] == history;
      for k := 0 to |batches|
        invariant Valid() && history == old(history) + Flatten(batches[..k]) && l == loop && i == pos
        invariant got == Delivered(batches[..k], size, minElapsed)
      {
        NextBatch(batches, k, size, minElapsed);
        assert old(history) + Flatten(batches[..k]) + batches[k] == old(history) + (Flatten(batches[..k]) + batches[k]);
        var r := PutAndPoll(batches[k], l, i, minElapsed);
        got := got + r.data;
        l, i := r.loop, r.index;
      }
      assert batches[..|batches|] == batches;
    }

    /** A batch, and a poll with the cursor from before it. */
    method PutAndPoll(batch: seq<XLogEntry>, l: nat, i: nat, minElapsed: int32) returns (r: Answer)
      requires Valid() && l == loop && i == pos
      modifies this, entries
      ensures Valid() && history == old(history) + batch && r.loop == loop && r.index == pos
      ensures r.data == Passing(batch[Oldest(|batch|, size)..], minElapsed)
    {
      hide Valid, Start, Passing;
      Cursor();
      ghost var n0 := |history|;
      PutAll(batch);
      Cursor();
      r := Get(l, i, minElapsed, None);
      StartOfCursor(|history|, size, loop, n0, l, i);
      assert history[Max(n0, |history| - size)..] == batch[Oldest(|batch|, size)..];
    }

    lemma Cursor()
      requires Valid()
      ensures |history| == loop * size + pos && pos < size && loop * size <= |history| < loop * size + size
    {
    }

    static lemma NothingYet(minElapsed: int32, size: nat)
      ensures Flatten([]) == [] && Delivered([], size, minElapsed) == []
    {
    }

    static lemma NextBatch(batches: seq<seq<XLogEntry>>, k: nat, size: nat, minElapsed: int32)
      requires k < |batches|
      ensures Flatten(batches[..k + 1]) == Flatten(batches[..k]) + batches[k]
      ensures Delivered(batches[..k + 1], size, minElapsed) ==
        Delivered(batches[..k], size, minElapsed) + Passing(batches[k][Oldest(|batches[k]|, size)..], minElapsed)
    {
      assert batches[..k + 1][..k] == batches[..k];
    }

    method PutAll(batch: seq<XLogEntry>)
      requires Valid()
      modifies this, entries
      ensures Valid() && history == old(history) + batch
    {
      hide Valid;
      assert history + [] == history;
      for i := 0 to |batch|
        invariant Valid() && history == old(history) + batch[..i]
      {
        var e := batch[i];
        assert old(history) + batch[..i + 1] == old(history) + batch[..i] + [e];
        Put(e.objHash, e.elapsed, e.isError, e.data);
      }
      assert batch[..|batch|] == batch;
    }

    /** The newest entries, oldest first. */
    method GetRecent(maxCount: nat) returns (result: seq<XLogEntry>)
      requires Valid()
      ensures result == history[Max(Oldest(|history|, size), |history| - maxCount)..]
    {
      Held();
      hide Valid;
      var n := count;
      if n > maxCount {
        n := maxCount;
      }
      var start := RecentStart(n);
      result := [];
      ghost var live := history[|history| - n..];
      for i := 0 to n
        modifies {}
        invariant result == live[..i]
      {
        var e := Recent(start, n, i);
        assert live[i] == e;
        result := result + [e];
      }
      assert live[..n] == live;
    }

    /** Named for recent entries as well, it starts at the oldest and stops at the limit. */
    method GetRecentByObjHash(objHash: int32, maxCount: nat) returns (result: seq<XLogEntry>)
      requires Valid()
      ensures var all := OfObject(history[Oldest(|history|, size)..], objHash);
        result == if |all| <= maxCount then all else all[..maxCount]
    {
      Held();
      hide Valid, OfObject;
      var n := count;
      var start := RecentStart(n);
      result := [];
      NoEntries();
      ghost var live := history[|history| - n..];
      var i := 0;
      while i < n && |result| < maxCount
        modifies {}
        invariant 0 <= i <= n && |result| <= maxCount
        invariant result == OfObject(live[..i], objHash)
      {
        var entry := Recent(start, n, i);
        assert live[i] == entry;
        OneMore(live, i, objHash);
        if entry.objHash == objHash {
          result := result + [entry];
        }
        i := i + 1;
      }
      Stopped(live, i, objHash);
    }

    lemma Held()
      requires Valid()
      ensures size > 0 && count == |history| - Oldest(|history|, size) && entries.Length == size
    {
    }

    /** The slot of the oldest of the last n entries. */
    method RecentStart(n: nat) returns (start: nat)
      requires Valid() && n <= count
      ensures start == if pos >= n then pos - n else pos - n + size
    {
      hide Ring, Indexed;
      RingParts(entries[..], history, places, loop * size, pos);
      start := (pos - n + size) % size;
      SmallMod(pos - n + size, size);
    }

    /** The i-th of the last n entries. */
    method Recent(start: nat, n: nat, i: nat) returns (e: XLogEntry)
      requires Valid() && i < n <= count && start == if pos >= n then pos - n else pos - n + size
      ensures |history| - n + i >= 0 && e == history[|history| - n + i]
    {
      hide Ring, Indexed;
      RecentAt(start, n, i);
      SmallMod(start + i, size);
      e := entries[(start + i) % size].value;
    }

    static lemma OneMore(live: seq<XLogEntry>, i: nat, obj: int32)
      requires i < |live|
      ensures OfObject(live[..i + 1], obj) == OfObject(live[..i], obj) + if live[i].objHash == obj then [live[i]] else []
    {
      assert live[..i + 1][..i] == live[..i];
    }

    static lemma Stopped(live: seq<XLogEntry>, i: nat, obj: int32)
      requires i <= |live|
      ensures OfObject(live[..i], obj) <= OfObject(live, obj)
      ensures i == |live| ==> OfObject(live[..i], obj) == OfObject(live, obj)
    {
      assert live == live[..i] + live[i..];
      OfObjectConcat(live[..i], live[i..], obj);
      if i == |live| {
        assert live[..i] == live;
      }
    }

    static lemma SmallMod(x: int, size: nat)
      requires size > 0 && 0 <= x < 2 * size
      ensures x % size == if x < size then x else x - size
    {
      if x >= size {
        assert x == size + (x - size);
        assert x / size == 1;
      }
    }

    lemma RecentAt(start: nat, n: nat, i: nat)
      requires Valid() && i < n <= count && start == if pos >= n then pos - n else pos - n + size
      ensures start < size && |history| >= n
      ensures var p := if start + i < size then start + i else start + i - size;
        0 <= p < entries.Length && entries[p] == Some(history[|history| - n + i])
    {
      hide Ring, Indexed;
      RingParts(entries[..], history, places, loop * size, pos);
      var p := if start + i < size then start + i else start + i - size;
      assert entries[..][p] == entries[p];
    }

    function Count(): nat
      reads this
    {
      count
    }
  }
}
