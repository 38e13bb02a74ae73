/** Per-second counters and the statistics per service group (internal/core/xlog_group_perf.go).
    The clock is an input in seconds that does not run backward. */
module Meter {
  import opened Endian
  import opened Maps
  import opened Results
  import opened Selections

  const METER_BUCKET_COUNT := 600
  const DEFAULT_PERF_STAT_PERIOD := 30
  const MAX_METER_ENTRIES := 2000

  datatype PerfStat = PerfStat(count: int, error: int, elapsed: int) {
    function Add(o: PerfStat): PerfStat {
      PerfStat(count + o.count, error + o.error, elapsed + o.elapsed)
    }
  }

  const NONE := PerfStat(0, 0, 0)

  datatype Event = Event(sec: int, elapsed: int32, isError: bool) {
    function Stat(): PerfStat {
      PerfStat(1, if isError then 1 else 0, elapsed)
    }
  }

  datatype Bucket = Bucket(timeSec: int, stat: PerfStat)

  // ----- what was recorded ---------------------------------------------------------------

  /** The sums over the events from lo to hi, both included. */
  function Sum(events: seq<Event>, lo: int, hi: int): PerfStat {
    if events == [] then NONE
    else
      var e := events[|events| - 1];
      Sum(events[..|events| - 1], lo, hi).Add(if lo <= e.sec <= hi then e.Stat() else NONE)
  }

  lemma {:induction false} SumNothing(events: seq<Event>, lo: int, hi: int)
    requires forall e :: e in events ==> !(lo <= e.sec <= hi)
    ensures Sum(events, lo, hi) == NONE
  {
    if events != [] {
      SumNothing(events[..|events| - 1], lo, hi);
    }
  }

  lemma {:induction false} SumSplit(events: seq<Event>, lo: int, mid: int, hi: int)
    requires lo <= mid <= hi + 1
    ensures Sum(events, lo, hi) == Sum(events, lo, mid - 1).Add(Sum(events, mid, hi))
  {
    hide Sum;
    if events == [] {
      SumNothing([], lo, hi);
      SumNothing([], lo, mid - 1);
      SumNothing([], mid, hi);
    } else {
      var init, e := events[..|events| - 1], events[|events| - 1];
      SumSplit(init, lo, mid, hi);
      assert events == init + [e];
      SumSnoc(init, e, lo, hi);
      SumSnoc(init, e, lo, mid - 1);
      SumSnoc(init, e, mid, hi);
    }
  }

  lemma SumSnoc(events: seq<Event>, e: Event, lo: int, hi: int)
    ensures Sum(events + [e], lo, hi) == Sum(events, lo, hi).Add(if lo <= e.sec <= hi then e.Stat() else NONE)
  {
    assert (events + [e])[..|events|] == events;
  }

  /** The events of some seconds. */
  function Within(lo: int, hi: int): Event -> bool {
    (e: Event) => lo <= e.sec <= hi
  }

  function ErrorPlaces(events: seq<Event>): set<int> {
    set i | 0 <= i < |events| && events[i].isError
  }

  function TotalElapsed(events: seq<Event>): int {
    if events == [] then 0 else TotalElapsed(events[..|events| - 1]) + events[|events| - 1].elapsed
  }

  /** What the sums say of the events of the window: how many they are, how many of them failed, and
      how long they took together. */
  ghost predicate Summed(part: seq<Event>, stat: PerfStat) {
    stat.count == |part| && stat.error == |ErrorPlaces(part)| && stat.elapsed == TotalElapsed(part)
  }

  lemma {:induction false} SumMeaning(events: seq<Event>, lo: int, hi: int)
    ensures exists part :: Keeps(events, Within(lo, hi), part) && Summed(part, Sum(events, lo, hi))
  {
    hide Keeps, Sum, Summed;
    if events == [] {
      KeepsNone(Within(lo, hi));
      NothingSummed(lo, hi);
    } else {
      var init, e := events[..|events| - 1], events[|events| - 1];
      SumMeaning(init, lo, hi);
      var part :| Keeps(init, Within(lo, hi), part) && Summed(part, Sum(init, lo, hi));
      KeepsNext(init, Within(lo, hi), part, e);
      SumSnoc(init, e, lo, hi);
      SummedNext(part, Sum(init, lo, hi), e);
      assert events == init + [e];
      assert Keeps(events, Within(lo, hi), part + if Within(lo, hi)(e) then [e] else []);
    }
  }

  lemma NothingSummed(lo: int, hi: int)
    ensures Summed([], Sum([], lo, hi))
  {
    assert ErrorPlaces([]) == {};
  }

  lemma SummedNext(part: seq<Event>, stat: PerfStat, e: Event)
    requires Summed(part, stat)
    ensures Summed(part + [e], stat.Add(e.Stat())) && Summed(part + [], stat.Add(NONE))
  {
    assert (part + [e])[..|part|] == part && part + [] == part;
    assert ErrorPlaces(part + [e]) == ErrorPlaces(part) + if e.isError then {|part|} else {};
  }

  /** The ring slot of a second. */
  function Slot(sec: int): (i: nat)
    ensures i < METER_BUCKET_COUNT
  {
    sec % METER_BUCKET_COUNT
  }

  lemma SameSlot(s: int, t: int)
    requires Slot(s) == Slot(t) && s < t
    ensures t >= s + METER_BUCKET_COUNT
  {
  }

  // ----- one meter -----------------------------------------------------------------------

  /** A bucket holds the sums of the newest second that fell into it, or nothing has. */
  ghost predicate Holds(b: Bucket, idx: int, events: seq<Event>, last: int) {
    || (b.timeSec == 0 && b.stat == NONE && forall e :: e in events ==> Slot(e.sec) != idx)
    || (&& Slot(b.timeSec) == idx && b.timeSec <= last && b.stat == Sum(events, b.timeSec, b.timeSec)
        && forall e :: e in events && Slot(e.sec) == idx ==> e.sec <= b.timeSec)
  }

  /** The Go array of buckets is part of its struct, as a seq is part of its object. */
  class MeterService {
    var buckets: seq<Bucket>
    ghost const key: Key                // what the aggregator uses it for
    ghost var events: seq<Event>
    ghost var last: int

    ghost predicate Valid()
      reads this
    {
      && |buckets| == METER_BUCKET_COUNT && 0 <= last && (forall e :: e in events ==> 0 <= e.sec <= last)
      && forall i :: 0 <= i < METER_BUCKET_COUNT ==> Holds(buckets[i], i, events, last)
    }

    constructor (ghost key: Key)
      ensures Valid() && events == [] && last == 0 && this.key == key
    {
      buckets := seq(METER_BUCKET_COUNT, _ => Bucket(0, NONE));
      this.key, events, last := key, [], 0;
    }

    method Add(sec: int, elapsed: int32, isError: bool)
      requires Valid() && last <= sec
      modifies this
      ensures Valid() && last == sec && events == old(events) + [Event(sec, elapsed, isError)]
    {
      hide Holds, Sum, Slot;
      ghost var e := Event(sec, elapsed, isError);
      var idx := Slot(sec);
      var b := buckets[idx];
      if b.timeSec != sec {
        b := Bucket(sec, NONE);
      }
      var stat := PerfStat(b.stat.count + 1, if isError then b.stat.error + 1 else b.stat.error, b.stat.elapsed + elapsed);
      forall i | 0 <= i < METER_BUCKET_COUNT
        ensures Holds(if i == idx then Bucket(sec, stat) else buckets[i], i, events + [e], sec)
      {
        Record(buckets[i], i, events, last, e);
      }
      buckets := buckets[idx := Bucket(sec, stat)];
      events, last := events + [e], sec;
    }

    /** What an event does to its bucket, and that it leaves the others alone. */
    static lemma Record(b: Bucket, i: int, events: seq<Event>, last: int, e: Event)
      requires Holds(b, i, events, last) && last <= e.sec && forall f :: f in events ==> 0 <= f.sec <= last
      ensures Holds(
        if i == Slot(e.sec) then Bucket(e.sec, (if b.timeSec != e.sec then NONE else b.stat).Add(e.Stat())) else b,
        i, events + [e], e.sec)
    {
      hide Sum, Slot;
      SumSnoc(events, e, b.timeSec, b.timeSec);
      SumSnoc(events, e, e.sec, e.sec);
      if i == Slot(e.sec) && (b.timeSec != e.sec || forall f :: f in events ==> Slot(f.sec) != i) {
        SumNothing(events, e.sec, e.sec);
      }
    }

    /** The sums over the last periodSec seconds, the current one included; at most ten minutes. */
    method GetPerfStat(now: int, periodSec: nat) returns (stat: PerfStat)
      requires Valid() && last <= now && 599 <= now
      ensures stat == Sum(events, now - (if periodSec < 600 then periodSec else 600) + 1, now)
      ensures stat == Window(events, now, periodSec)
    {
      hide Holds, Sum, Slot;
      stat := NONE;
      SumNothing(events, now + 1, now);
      var i := 0;
      while i < periodSec && i < METER_BUCKET_COUNT
        invariant 0 <= i <= METER_BUCKET_COUNT && i <= periodSec
        invariant stat == Sum(events, now - i + 1, now)
      {
        var sec := now - i;
        var idx := Slot(sec);
        var b := buckets[idx];
        Lookup(b, sec, events, last, now);
        SumSplit(events, sec, sec + 1, now);
        if b.timeSec == sec {
          stat := stat.Add(b.stat);
        }
        i := i + 1;
      }
    }

    /** A second of the window is in its bucket or was idle. */
    static lemma Lookup(b: Bucket, sec: int, events: seq<Event>, last: int, now: int)
      requires Holds(b, Slot(sec), events, last) && last <= now && now - METER_BUCKET_COUNT < sec <= now
      requires forall e :: e in events ==> 0 <= e.sec <= last
      ensures Sum(events, sec, sec) == if b.timeSec == sec then b.stat else NONE
    {
      hide Sum, Slot;
      if b.timeSec != sec || forall f :: f in events ==> Slot(f.sec) != Slot(sec) {
        if b.timeSec > sec && Slot(b.timeSec) == Slot(sec) {
          SameSlot(sec, b.timeSec);
        }
        SumNothing(events, sec, sec);
      }
    }
  }

  function Window(events: seq<Event>, now: int, periodSec: nat): PerfStat {
    Sum(events, now - (if periodSec < METER_BUCKET_COUNT then periodSec else METER_BUCKET_COUNT) + 1, now)
  }

  // ----- statistics per group ------------------------------------------------------------

  datatype Key = Key(objHash: int32, group: int32)

  datatype Call = Call(key: Key, event: Event)

  /** The events of one key. */
  function OfKey(calls: seq<Call>, k: Key): seq<Event> {
    if calls == [] then []
    else
      var c := calls[|calls| - 1];
      OfKey(calls[..|calls| - 1], k) + if c.key == k then [c.event] else []
  }

  /** The events of a group on the objects that the filter selects. */
  function OfGroup(calls: seq<Call>, group: int32, filter: map<int32, bool>): seq<Event> {
    if calls == [] then []
    else
      var c := calls[|calls| - 1];
      OfGroup(calls[..|calls| - 1], group, filter) +
      if c.key.group == group && Selects(filter, c.key.objHash) then [c.event] else []
  }

  /** An empty filter selects every object. */
  predicate Selects(filter: map<int32, bool>, obj: int32) {
    |filter| > 0 ==> obj in filter && filter[obj]
  }

  /** The statistics of a group that are due at a time. */
  function GroupStat(calls: seq<Call>, group: int32, filter: map<int32, bool>, now: int): PerfStat {
    Window(OfGroup(calls, group, filter), now, DEFAULT_PERF_STAT_PERIOD)
  }

  /** The calls of a group on the objects that the filter names with true; an empty filter names them all. */
  function InGroup(group: int32, filter: map<int32, bool>): Call -> bool {
    (c: Call) => c.key.group == group && (filter == map[] || (c.key.objHash in filter && filter[c.key.objHash]))
  }

  function EventsOf(calls: seq<Call>): seq<Event> {
    seq(|calls|, i requires 0 <= i < |calls| => calls[i].event)
  }

  lemma {:induction false} OfGroupMeaning(calls: seq<Call>, group: int32, filter: map<int32, bool>)
    ensures exists part :: Keeps(calls, InGroup(group, filter), part) && OfGroup(calls, group, filter) == EventsOf(part)
  {
    hide Keeps, Selects, InGroup;
    if calls == [] {
      KeepsNone(InGroup(group, filter));
      assert EventsOf([]) == [];
    } else {
      var init, c := calls[..|calls| - 1], calls[|calls| - 1];
      OfGroupMeaning(init, group, filter);
      var part :| Keeps(init, InGroup(group, filter), part) && OfGroup(init, group, filter) == EventsOf(part);
      KeepsNext(init, InGroup(group, filter), part, c);
      SelectsIs(c, group, filter);
      assert calls == init + [c];
      assert EventsOf(part + [c]) == EventsOf(part) + [c.event] && EventsOf(part + []) == EventsOf(part) + [];
    }
  }

  lemma SelectsIs(c: Call, group: int32, filter: map<int32, bool>)
    ensures InGroup(group, filter)(c) <==> c.key.group == group && Selects(filter, c.key.objHash)
  {
  }

  /** The statistics cover thirty seconds, the current one included. */
  lemma ThirtySeconds(calls: seq<Call>, group: int32, filter: map<int32, bool>, now: int)
    ensures GroupStat(calls, group, filter, now) == Sum(OfGroup(calls, group, filter), now - 29, now)
  {
  }

  /** The groups with events in the period, and their sums. */
  ghost predicate Correct(result: map<int32, PerfStat>, calls: seq<Call>, filter: map<int32, bool>, now: int) {
    forall g: int32 :: Covers(result, g, GroupStat(calls, g, filter, now))
  }

  /** The calls by their age at the moment at which the clock is read for their meter. */
  function Aged(calls: seq<Call>, at: Key -> int): seq<Call> {
    if calls == [] then []
    else
      var c := calls[|calls| - 1];
      Aged(calls[..|calls| - 1], at) + [c.(event := c.event.(sec := c.event.sec - at(c.key)))]
  }

  lemma AgedNext(calls: seq<Call>, c: Call, at: Key -> int)
    ensures Aged(calls + [c], at) == Aged(calls, at) + [c.(event := c.event.(sec := c.event.sec - at(c.key)))]
  {
    assert (calls + [c])[..|calls|] == calls;
  }

  lemma OfKeyNext(calls: seq<Call>, c: Call, k: Key)
    ensures OfKey(calls + [c], k) == OfKey(calls, k) + if c.key == k then [c.event] else []
  {
    assert (calls + [c])[..|calls|] == calls;
  }

  lemma OfGroupNext(calls: seq<Call>, c: Call, group: int32, filter: map<int32, bool>)
    ensures OfGroup(calls + [c], group, filter) ==
      OfGroup(calls, group, filter) + if c.key.group == group && Selects(filter, c.key.objHash) then [c.event] else []
  {
    assert (calls + [c])[..|calls|] == calls;
  }

  lemma NoCallsAged(at: Key -> int, k: Key)
    ensures Aged([], at) == [] && OfKey([], k) == []
  {
  }

  lemma NoGroupAged(at: Key -> int, group: int32, filter: map<int32, bool>)
    ensures Aged([], at) == [] && OfGroup([], group, filter) == []
  {
  }

  lemma AlwaysNow(now: int, k: Key)
    ensures Always(now)(k) == now
  {
  }

  /** An event and the same event by its age count alike. */
  lemma OneOlder(aged: seq<Event>, events: seq<Event>, e: Event, at: int, lo: int, hi: int)
    requires Sum(aged, lo, hi) == Sum(events, lo + at, hi + at)
    ensures Sum(aged + [e.(sec := e.sec - at)], lo, hi) == Sum(events + [e], lo + at, hi + at)
    ensures aged + [] == aged && events + [] == events
  {
    hide Sum;
    assert e.(sec := e.sec - at).Stat() == e.Stat();
    SumSnoc(aged, e.(sec := e.sec - at), lo, hi);
    SumSnoc(events, e, lo + at, hi + at);
  }

  lemma {:induction false} AgedOfKey(calls: seq<Call>, at: Key -> int, k: Key, lo: int, hi: int)
    ensures Sum(OfKey(Aged(calls, at), k), lo, hi) == Sum(OfKey(calls, k), lo + at(k), hi + at(k))
  {
    hide Sum, Aged, OfKey, PerfStat.Add, Event.Stat;
    if calls == [] {
      NoCallsAged(at, k);
      SumNothing([], lo, hi);
      SumNothing([], lo + at(k), hi + at(k));
    } else {
      var init, c := calls[..|calls| - 1], calls[|calls| - 1];
      var e := c.event.(sec := c.event.sec - at(c.key));
      assert calls == init + [c];
      AgedOfKey(init, at, k, lo, hi);
      AgedNext(init, c, at);
      OfKeyNext(init, c, k);
      OfKeyNext(Aged(init, at), c.(event := e), k);
      var older, events := OfKey(Aged(init, at), k), OfKey(init, k);
      if c.key == k {
        OneOlder(older, events, c.event, at(k), lo, hi);
      } else {
        assert older + [] == older && events + [] == events;
      }
    }
  }

  lemma AgedWindow(calls: seq<Call>, at: Key -> int, k: Key)
    ensures Window(OfKey(Aged(calls, at), k), 0, DEFAULT_PERF_STAT_PERIOD) == Window(OfKey(calls, k), at(k), DEFAULT_PERF_STAT_PERIOD)
  {
    hide Sum, Aged, OfKey;
    AgedOfKey(calls, at, k, -29, 0);
  }

  function Always(now: int): Key -> int {
    _ => now
  }

  lemma {:induction false} AgedOfGroup(calls: seq<Call>, now: int, group: int32, filter: map<int32, bool>, lo: int, hi: int)
    ensures Sum(OfGroup(Aged(calls, Always(now)), group, filter), lo, hi) == Sum(OfGroup(calls, group, filter), lo + now, hi + now)
  {
    hide Sum, Selects, Aged, OfGroup, PerfStat.Add, Event.Stat, Always;
    if calls == [] {
      NoGroupAged(Always(now), group, filter);
      SumNothing([], lo, hi);
      SumNothing([], lo + now, hi + now);
    } else {
      AlwaysNow(now, calls[|calls| - 1].key);
      var init, c := calls[..|calls| - 1], calls[|calls| - 1];
      var e := c.event.(sec := c.event.sec - now);
      assert calls == init + [c];
      AgedOfGroup(init, now, group, filter, lo, hi);
      AgedNext(init, c, Always(now));
      OfGroupNext(init, c, group, filter);
      OfGroupNext(Aged(init, Always(now)), c.(event := e), group, filter);
      OneOlder(OfGroup(Aged(init, Always(now)), group, filter), OfGroup(init, group, filter), c.event, now, lo, hi);
    }
  }

  /** If the second does not change while the meters are read, the statistics are those of that second. */
  lemma SteadyClock(result: map<int32, PerfStat>, calls: seq<Call>, filter: map<int32, bool>, now: int)
    ensures Correct(result, Aged(calls, Always(now)), filter, 0) <==> Correct(result, calls, filter, now)
  {
    hide Sum, OfGroup, Covers;
    forall g: int32
      ensures Covers(result, g, GroupStat(Aged(calls, Always(now)), g, filter, 0)) <==> Covers(result, g, GroupStat(calls, g, filter, now))
    {
      AgedOfGroup(calls, now, g, filter, -29, 0);
    }
  }

  lemma {:induction false} AgedKeys(calls: seq<Call>, at: Key -> int, keys: set<Key>)
    requires forall c :: c in calls ==> c.key in keys
    ensures forall c :: c in Aged(calls, at) ==> c.key in keys
  {
    if calls != [] {
      AgedKeys(calls[..|calls| - 1], at, keys);
    }
  }

  /** The same restricted to some keys. */
  function OfKeys(calls: seq<Call>, keys: set<Key>, group: int32, filter: map<int32, bool>): seq<Event> {
    if calls == [] then []
    else
      var c := calls[|calls| - 1];
      OfKeys(calls[..|calls| - 1], keys, group, filter) +
      if c.key in keys && c.key.group == group && Selects(filter, c.key.objHash) then [c.event] else []
  }

  lemma {:induction false} OneKeyMore(calls: seq<Call>, keys: set<Key>, k: Key, group: int32, filter: map<int32, bool>, lo: int, hi: int)
    requires k !in keys
    ensures Sum(OfKeys(calls, keys + {k}, group, filter), lo, hi) ==
      Sum(OfKeys(calls, keys, group, filter), lo, hi).Add(
        if k.group == group && Selects(filter, k.objHash) then Sum(OfKey(calls, k), lo, hi) else NONE)
  {
    hide Sum, Selects;
    SumNothing([], lo, hi);
    if calls != [] {
      var init, c := calls[..|calls| - 1], calls[|calls| - 1];
      OneKeyMore(init, keys, k, group, filter, lo, hi);
      OrNothing(OfKeys(init, keys + {k}, group, filter), c.event, lo, hi);
      OrNothing(OfKeys(init, keys, group, filter), c.event, lo, hi);
      OrNothing(OfKey(init, k), c.event, lo, hi);
    }
  }

  lemma OrNothing(events: seq<Event>, e: Event, lo: int, hi: int)
    ensures Sum(events + [e], lo, hi) == Sum(events, lo, hi).Add(if lo <= e.sec <= hi then e.Stat() else NONE)
    ensures events + [] == events
  {
    SumSnoc(events, e, lo, hi);
  }

  /** The sum of a group over some keys. */
  function Part(calls: seq<Call>, keys: set<Key>, group: int32, filter: map<int32, bool>, now: int): PerfStat {
    Window(OfKeys(calls, keys, group, filter), now, DEFAULT_PERF_STAT_PERIOD)
  }

  /** A result that covers some keys. */
  ghost predicate Partial(result: map<int32, PerfStat>, calls: seq<Call>, keys: set<Key>, filter: map<int32, bool>, now: int) {
    forall g: int32 :: Covers(result, g, Part(calls, keys, g, filter, now))
  }

  /** The result has the group exactly if its sum counts something, and then that sum. */
  predicate Covers(result: map<int32, PerfStat>, g: int32, part: PerfStat) {
    (g in result <==> part.count > 0) && (g in result ==> result[g] == part)
  }

  /** What the aggregation does with the sums of one more key. */
  function Merged(result: map<int32, PerfStat>, group: int32, stat: PerfStat): map<int32, PerfStat> {
    if stat.count == 0 then result
    else if group in result then result[group := result[group].Add(stat)]
    else result[group := stat]
  }

  /** What the sums of one more key do to one group. */
  lemma MergedCovers(result: map<int32, PerfStat>, group: int32, stat: PerfStat, g: int32, part: PerfStat)
    requires Covers(result, g, part)
    requires stat.count >= 0 && (stat.count == 0 ==> stat == NONE)
    requires part.count >= 0 && (part.count == 0 ==> part == NONE)
    ensures Covers(Merged(result, group, stat), g, if g == group then part.Add(stat) else part)
  {
  }

  lemma NextKey(result: map<int32, PerfStat>, calls: seq<Call>, keys: set<Key>, k: Key, filter: map<int32, bool>, now: int)
    requires Partial(result, calls, keys, filter, now) && k !in keys
    ensures var stat := Window(OfKey(calls, k), now, DEFAULT_PERF_STAT_PERIOD);
      Partial(if Selects(filter, k.objHash) then Merged(result, k.group, stat) else result, calls, keys + {k}, filter, now)
  {
    hide Window, OfKey, Selects, Covers, Merged, Part;
    var stat := Window(OfKey(calls, k), now, DEFAULT_PERF_STAT_PERIOD);
    var result2 := if Selects(filter, k.objHash) then Merged(result, k.group, stat) else result;
    WindowCounts(OfKey(calls, k), now);
    forall g: int32
      ensures Covers(result2, g, Part(calls, keys + {k}, g, filter, now))
    {
      var part := Part(calls, keys, g, filter, now);
      assert Covers(result, g, part);
      PartStep(calls, keys, k, g, filter, now);
      AddNothing(part);
      MergedCovers(result, k.group, stat, g, part);
    }
  }

  lemma WindowCounts(events: seq<Event>, now: int)
    ensures var stat := Window(events, now, DEFAULT_PERF_STAT_PERIOD);
      stat.count >= 0 && (stat.count == 0 ==> stat == NONE)
  {
    CountDecides(events, now - 29, now);
  }

  lemma PartStep(calls: seq<Call>, keys: set<Key>, k: Key, g: int32, filter: map<int32, bool>, now: int)
    requires k !in keys
    ensures var part := Part(calls, keys, g, filter, now);
      && part.count >= 0 && (part.count == 0 ==> part == NONE)
      && Part(calls, keys + {k}, g, filter, now) == part.Add(
        if k.group == g && Selects(filter, k.objHash) then Window(OfKey(calls, k), now, DEFAULT_PERF_STAT_PERIOD) else NONE)
  {
    hide OfKey, OfKeys, Sum, Selects;
    OneKeyMore(calls, keys, k, g, filter, now - 29, now);
    CountDecides(OfKeys(calls, keys, g, filter), now - 29, now);
  }

  lemma AddNothing(part: PerfStat)
    ensures part.Add(NONE) == part
  {
  }

  lemma FirstKey(calls: seq<Call>, filter: map<int32, bool>, now: int)
    ensures Partial(map[], calls, {}, filter, now)
  {
    hide OfKeys, Sum;
    SumNothing([], now - 29, now);
    forall g: int32
      ensures Part(calls, {}, g, filter, now) == NONE
    {
      NoKeys(calls, g, filter);
    }
  }

  lemma LastKey(result: map<int32, PerfStat>, calls: seq<Call>, keys: set<Key>, filter: map<int32, bool>, now: int)
    requires Partial(result, calls, keys, filter, now) && forall c :: c in calls ==> c.key in keys
    ensures Correct(result, calls, filter, now)
  {
    hide OfKeys, OfGroup, Sum;
    forall g: int32
      ensures Covers(result, g, GroupStat(calls, g, filter, now))
    {
      AllKeys(calls, keys, g, filter);
      assert Covers(result, g, Part(calls, keys, g, filter, now));
    }
  }

  lemma {:induction false} NoKeys(calls: seq<Call>, group: int32, filter: map<int32, bool>)
    ensures OfKeys(calls, {}, group, filter) == []
  {
    if calls != [] {
      NoKeys(calls[..|calls| - 1], group, filter);
    }
  }

  lemma {:induction false} AllKeys(calls: seq<Call>, keys: set<Key>, group: int32, filter: map<int32, bool>)
    requires forall c :: c in calls ==> c.key in keys
    ensures OfKeys(calls, keys, group, filter) == OfGroup(calls, group, filter)
  {
    if calls != [] {
      AllKeys(calls[..|calls| - 1], keys, group, filter);
    }
  }

  /** A sum without a count is empty. */
  lemma {:induction false} CountDecides(events: seq<Event>, lo: int, hi: int)
    ensures Sum(events, lo, hi).count >= 0 && (Sum(events, lo, hi).count == 0 ==> Sum(events, lo, hi) == NONE)
  {
    hide Sum, PerfStat.Add, Event.Stat;
    if events == [] {
      SumNothing([], lo, hi);
    } else {
      var init, e := events[..|events| - 1], events[|events| - 1];
      CountDecides(init, lo, hi);
      SumSnoc(init, e, lo, hi);
      assert events == init + [e];
      CountOfOne(e);
      AddCounts(Sum(init, lo, hi), if lo <= e.sec <= hi then e.Stat() else NONE);
    }
  }

  lemma AddCounts(s: PerfStat, t: PerfStat)
    ensures s.Add(t).count == s.count + t.count && s.Add(NONE) == s
  {
  }

  lemma CountOfOne(e: Event)
    ensures e.Stat().count == 1
  {
  }
  /** The calls without those of an evicted key. */
  function Forget(calls: seq<Call>, k: Key): seq<Call> {
    if calls == [] then []
    else
      var c := calls[|calls| - 1];
      Forget(calls[..|calls| - 1], k) + if c.key == k then [] else [c]
  }

  lemma {:induction false} ForgetKey(calls: seq<Call>, k: Key, l: Key)
    ensures OfKey(Forget(calls, k), l) == if l == k then [] else OfKey(calls, l)
  {
    if calls != [] {
      var init, c := calls[..|calls| - 1], calls[|calls| - 1];
      ForgetKey(init, k, l);
      var rest := Forget(init, k);
      if c.key != k {
        assert (rest + [c])[..|rest|] == rest;
      } else {
        assert rest + [] == rest && OfKey(init, l) + [] == OfKey(init, l);
      }
    }
  }

  lemma {:induction false} ForgetIn(calls: seq<Call>, k: Key)
    ensures forall c :: c in Forget(calls, k) ==> c in calls && c.key != k
  {
    if calls != [] {
      ForgetIn(calls[..|calls| - 1], k);
    }
  }

  // ----- the filter of a cached result ---------------------------------------------------

  predicate MapsEqual(a: map<int32, bool>, b: map<int32, bool>) {
    |a| == |b| && forall k :: k in a ==> k in b && b[k]
  }

  /** Filters that compare equal select the same objects exactly if the first has no false entry. */
  lemma MapsEqualMeaning(a: map<int32, bool>, b: map<int32, bool>)
    requires MapsEqual(a, b)
    ensures (forall obj: int32 :: Selects(a, obj) == Selects(b, obj)) <==> forall k :: k in a ==> a[k]
  {
    assert a.Keys == b.Keys by {
      SubsetOfSameSize(a.Keys, b.Keys);
    }
    if k :| k in a && !a[k] {
      assert Selects(b, k) && !Selects(a, k);
    }
  }

  lemma {:induction false} SubsetOfSameSize(s: set<int32>, t: set<int32>)
    requires s <= t && |s| == |t|
    ensures s == t
  {
    if s != {} {
      var x :| x in s;
      SubsetOfSameSize(s - {x}, t - {x});
    }
  }

  /** Such filters exist. */
  lemma FalseEntry()
    ensures MapsEqual(map[1 := false], map[1 := true])
    ensures !Selects(map[1 := false], 1) && Selects(map[1 := true], 1)
  {
    var a: map<int32, bool>, b: map<int32, bool> := map[1 := false], map[1 := true];
    assert |a| == |b| == 1;
  }

  method CompareMaps(a: map<int32, bool>, b: map<int32, bool>) returns (r: bool)
    ensures r == MapsEqual(a, b)
  {
    if |a| != |b| {
      return false;
    }
    var todo := a.Keys;
    while todo != {}
      invariant todo <= a.Keys && forall k :: k in a && k !in todo ==> k in b && b[k]
      decreases |todo|
    {
      var k :| k in todo;
      todo := todo - {k};
      if k !in b || !b[k] {
        return false;
      }
    }
    r := true;
  }

  // ----- the aggregator ------------------------------------------------------------------

  class XLogGroupPerf {
    var meters: map<Key, MeterService>
    var cachedResult: Option<map<int32, PerfStat>>
    var cachedObjFilter: map<int32, bool>
    var cacheTime: int                // milliseconds
    ghost var calls: seq<Call>        // the calls that no eviction has lost
    ghost var cachedCalls: seq<Call>  // calls at cacheTime
    ghost var clock: int              // the second of the newest call
    ghost var Repr: set<object>

    /** A cached result was correct when it was made. */
    ghost predicate Valid()
      reads this, Repr
    {
      && this !in Repr && ValidMeters()
      && (cachedResult.Some? ==> Correct(cachedResult.value, cachedCalls, cachedObjFilter, 0))
    }

    /** Each meter is its own and has recorded the calls of its key. */
    ghost predicate ValidMeters()
      reads this`meters, this`calls, this`clock, this`Repr, Repr
    {
      && |meters| <= MAX_METER_ENTRIES && clock >= 0
      && (forall k :: k in meters ==> Owns(k))
      && (forall c :: c in calls ==> c.key in meters)
    }

    ghost predicate Owns(k: Key)
      reads this`meters, this`calls, this`clock, this`Repr, Repr
      requires k in meters
    {
      var m := meters[k];
      && m in Repr && m.key == k
      && m.Valid() && m.last <= clock && m.events == OfKey(calls, k)
    }

    constructor ()
      ensures Valid() && calls == [] && clock == 0 && cachedResult == None && fresh(Repr)
    {
      meters, cachedResult, cachedObjFilter, cacheTime := map[], None, map[], 0;
      calls, cachedCalls, clock, Repr := [], [], 0, {};
    }

    /** A call without group is dropped. A new key that meets a full table costs an arbitrary key
        its history. */
    method Add(objHash: int32, group: int32, elapsed: int32, error: int32, sec: int) returns (ghost evicted: Option<Key>)
      requires Valid() && clock <= sec
      modifies this`meters, this`calls, this`clock, this`Repr, Repr
      ensures Valid() && fresh(Repr - old(Repr))
      ensures group == 0 ==> calls == old(calls) && evicted == None
      ensures group != 0 ==>
        calls == (if evicted.Some? then Forget(old(calls), evicted.value) else old(calls))
          + [Call(Key(objHash, group), Event(sec, elapsed, error != 0))]
      ensures evicted.Some? <==> group != 0 && |old(meters)| == 2000 && Key(objHash, group) !in old(meters)
      ensures forall k :: k in meters <==> (k in old(meters) && evicted != Some(k)) || (group != 0 && k == Key(objHash, group))
    {
      hide ValidMeters, With, Without, Correct, Forget, OfKey, MeterService.Valid;
      evicted := None;
      if group == 0 {
        return;
      }
      var key := Key(objHash, group);
      if key !in meters {
        evicted := MakeRoom(key);
        NewMeter(key);
      }
      MeterOf(key);
      Record(key, sec, elapsed, error != 0);
    }

    method MakeRoom(key: Key) returns (ghost evicted: Option<Key>)
      requires this !in Repr && ValidMeters() && key !in meters
      modifies this`meters, this`calls
      ensures ValidMeters() && key !in meters && |meters| < MAX_METER_ENTRIES
      ensures evicted.Some? <==> |old(meters)| == MAX_METER_ENTRIES
      ensures forall k :: k in meters <==> k in old(meters) && evicted != Some(k)
      ensures calls == if evicted.Some? then Forget(old(calls), evicted.value) else old(calls)
    {
      hide With, Without, Correct, Forget, OfKey, MeterService.Valid;
      evicted := None;
      if |meters| >= MAX_METER_ENTRIES {
        assert meters.Keys != {};
        var k :| k in meters;
        forall l: Key
          ensures OfKey(Forget(calls, k), l) == if l == k then [] else OfKey(calls, l)
        {
          ForgetKey(calls, k, l);
        }
        ForgetIn(calls, k);
        meters := Without(meters, k);
        calls := Forget(calls, k);
        evicted := Some(k);
      }
    }

    method NewMeter(key: Key)
      requires this !in Repr && ValidMeters() && key !in meters && |meters| < MAX_METER_ENTRIES
      modifies this`meters, this`Repr
      ensures this !in Repr && ValidMeters() && key in meters && fresh(Repr - old(Repr))
      ensures forall k :: k in meters <==> k in old(meters) || k == key
    {
      hide With, Without, Correct, Forget, OfKey, MeterService.Valid;
      var m := new MeterService(key);
      NoCalls(calls, key);
      meters := With(meters, key, m);
      Repr := Repr + {m};
    }

    static lemma {:induction false} NoCalls(calls: seq<Call>, k: Key)
      requires forall c :: c in calls ==> c.key != k
      ensures OfKey(calls, k) == []
    {
      if calls != [] {
        NoCalls(calls[..|calls| - 1], k);
      }
    }

    method Record(key: Key, sec: int, elapsed: int32, isError: bool)
      requires this !in Repr && ValidMeters() && key in meters && clock <= sec
      modifies this`calls, this`clock, meters[key]
      ensures ValidMeters() && calls == old(calls) + [Call(key, Event(sec, elapsed, isError))]
    {
      hide With, Without, Correct, OfKey, MeterService.Valid;
      var m := meters[key];
      m.Add(sec, elapsed, isError);
      ghost var c := Call(key, Event(sec, elapsed, isError));
      forall k: Key
        ensures OfKey(calls + [c], k) == OfKey(calls, k) + if k == key then [c.event] else []
      {
        OfKeyNext(calls, c, k);
      }
      calls, clock := calls + [c], sec;
    }

    /** The sums per group over the last thirty seconds, or a result less than a second old for a
        filter that compares equal. */
    method GetGroupPerfStat(objHashes: map<int32, bool>, now: int, at: Key -> int) returns (result: map<int32, PerfStat>)
      requires Valid() && clock <= now / 1000 && METER_BUCKET_COUNT - 1 <= now / 1000
      requires forall k :: now / 1000 <= at(k)
      modifies this`cachedResult, this`cachedObjFilter, this`cacheTime, this`cachedCalls
      ensures Valid() && cachedResult == Some(result)
      ensures Correct(result, cachedCalls, cachedObjFilter, 0)
      ensures if old(cachedResult).Some? && now - old(cacheTime) < 1000 && MapsEqual(old(cachedObjFilter), objHashes)
        then result == old(cachedResult).value
          && cachedCalls == old(cachedCalls) && cachedObjFilter == old(cachedObjFilter) && cacheTime == old(cacheTime)
        else cachedCalls == Aged(calls, at) && cachedObjFilter == objHashes && cacheTime == now
    {
      hide ValidMeters, Correct, OfKey, MeterService.Valid;
      if cachedResult.Some? && now - cacheTime < 1000 {
        var same := CompareMaps(cachedObjFilter, objHashes);
        if same {
          return cachedResult.value;
        }
      }
      result := Aggregate(objHashes, at);
      cachedResult, cachedObjFilter, cacheTime, cachedCalls := Some(result), objHashes, now, Aged(calls, at);
    }

    /** Every meter reads the clock anew. */
    method Aggregate(objHashes: map<int32, bool>, at: Key -> int) returns (result: map<int32, PerfStat>)
      requires Valid() && forall k :: clock <= at(k) && METER_BUCKET_COUNT - 1 <= at(k)
      ensures Correct(result, Aged(calls, at), objHashes, 0)
    {
      hide ValidMeters, OfKey, Partial, Merged, Correct, Sum, Window, Aged, MeterService.Valid;
      KeysKnown();
      ghost var aged := Aged(calls, at);
      AgedKeys(calls, at, meters.Keys);
      result := map[];
      var todo := meters.Keys;
      ghost var done: set<Key> := {};
      FirstKey(aged, objHashes, 0);
      while todo != {}
        invariant todo <= meters.Keys && done == meters.Keys - todo
        invariant Partial(result, aged, done, objHashes, 0)
        decreases |todo|
      {
        var key :| key in todo;
        todo := todo - {key};
        NextKey(result, aged, done, key, objHashes, 0);
        AgedWindow(calls, at, key);
        done := done + {key};
        if |objHashes| > 0 && !(key.objHash in objHashes && objHashes[key.objHash]) {
          continue;
        }
        MeterOf(key);
        var stat := meters[key].GetPerfStat(at(key), DEFAULT_PERF_STAT_PERIOD);
        result := Merge(result, key.group, stat);
      }
      LastKey(result, aged, done, objHashes, 0);
    }

    lemma KeysKnown()
      requires ValidMeters()
      ensures forall c :: c in calls ==> c.key in meters.Keys
    {
    }

    lemma MeterOf(key: Key)
      requires ValidMeters() && key in meters
      ensures meters[key].Valid() && meters[key].last <= clock && meters[key].events == OfKey(calls, key)
      ensures meters[key] in Repr
    {
      assert Owns(key);
    }

    static method Merge(result: map<int32, PerfStat>, group: int32, stat: PerfStat) returns (r: map<int32, PerfStat>)
      ensures r == Merged(result, group, stat)
    {
      r := result;
      if stat.count == 0 {
        return;
      }
      if group in result {
        r := result[group := result[group].Add(stat)];
      } else {
        r := result[group := stat];
      }
    }
  }
}
