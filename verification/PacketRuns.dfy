/** Histories of the UDP port: what the table of split packets knows and what the dispatcher is given
    after any mixture of datagrams and rounds of the cleanup
    (internal/netio/udp/processor.go, internal/netio/udp/multipacket.go). */
module PacketRuns {
  import opened Endian
  import opened Results
  import opened Packs
  import opened MultiPackets
  import opened Datagrams

  datatype Event = Datagram(data: bytes, now: int) | Cleanup(now: int)

  /** An event, and the packet that a full table lost to it. */
  datatype Step = Step(event: Event, dropped: Option<int64>)

  // ----- one packet at a time ------------------------------------------------------------

  /** What a piece and the loss to a full table make of the knowledge about packet k. */
  function Told(e: Option<Entry>, k: int64, m: Mtu, now: int, dropped: Option<int64>): Option<Entry> {
    if k == m.pkid then Kept(Registered(e, m.total, Fragment(m.num, m.data), now))
    else if dropped == Some(k) then None
    else e
  }

  function Next(e: Option<Entry>, k: int64, s: Step): Option<Entry> {
    match s.event
    case Cleanup(now) => Aged(e, now)
    case Datagram(data, now) => match MtuOf(data) case None => e case Some(m) => Told(e, k, m, now, s.dropped)
  }

  /** What is known of packet k. */
  function Known(log: seq<Step>, k: int64): Option<Entry> {
    if log == [] then None else Next(Known(log[..|log| - 1], k), k, log[|log| - 1])
  }

  /** What a piece dispatches: the pack read from all pieces, if it is the last one. */
  function Completing(e: Option<Entry>, m: Mtu, now: int): seq<Pack> {
    match Registered(e, m.total, Fragment(m.num, m.data), now)
    case None => []
    case Some(x) =>
      if !Complete(x.total, x.came) then []
      else match PackAt(Assembled(FirstArrived(x.total, x.came)), 0).result case Ok(p) => [p] case Err(_) => []
  }

  /** What an event dispatches after a history. */
  function Dispatches(log: seq<Step>, e: Event): seq<Pack> {
    match e
    case Cleanup(_) => []
    case Datagram(data, now) =>
      match MtuOf(data)
      case None => if IsMtu(data) then [] else Carried(data)
      case Some(m) => Completing(Known(log, m.pkid), m, now)
  }

  function Dispatched(log: seq<Step>): seq<Pack> {
    if log == [] then [] else Dispatched(log[..|log| - 1]) + Dispatches(log[..|log| - 1], log[|log| - 1].event)
  }

  lemma Logged(log: seq<Step>, e: Event, dropped: Option<int64>)
    ensures Dispatched(log + [Step(e, dropped)]) == Dispatched(log) + Dispatches(log, e)
    ensures forall k: int64 :: Known(log + [Step(e, dropped)], k) == Next(Known(log, k), k, Step(e, dropped))
  {
    assert (log + [Step(e, dropped)])[..|log|] == log;
  }

  // ----- the loss to a full table --------------------------------------------------------

  ghost predicate Waiting(log: seq<Step>, ids: set<int64>) {
    forall k: int64 :: k in ids <==> Known(log, k).Some?
  }

  ghost predicate Full(log: seq<Step>) {
    exists ids :: Waiting(log, ids) && |ids| == 1000
  }

  /** A packet is lost exactly if a piece of a new one comes to a full table. */
  ghost predicate Loses(log: seq<Step>, s: Step) {
    if s.event.Cleanup? || MtuOf(s.event.data) == None then s.dropped == None
    else
      && (s.dropped.Some? <==> Known(log, MtuOf(s.event.data).value.pkid).None? && Full(log))
      && (s.dropped.Some? ==> Known(log, s.dropped.value).Some?)
  }

  ghost predicate Lawful(log: seq<Step>) {
    forall i :: 0 <= i < |log| ==> Loses(log[..i], log[i])
  }

  lemma LawfulNext(log: seq<Step>, s: Step)
    requires Lawful(log) && Loses(log, s)
    ensures Lawful(log + [s])
  {
    hide Loses;
    var more := log + [s];
    forall i | 0 <= i < |more|
      ensures Loses(more[..i], more[i])
    {
      if i < |log| {
        assert more[..i] == log[..i] && more[i] == log[i];
      } else {
        assert more[..i] == log;
      }
    }
  }

  lemma FullIs(log: seq<Step>, waiting: set<int64>)
    requires Waiting(log, waiting)
    ensures Full(log) <==> |waiting| == 1000
  {
    hide Known;
    if Full(log) {
      var ids :| Waiting(log, ids) && |ids| == 1000;
      assert ids == waiting;
    }
  }

  lemma StaysLawful(log: seq<Step>, data: bytes, now: int, dropped: Option<int64>, waiting: set<int64>)
    requires Lawful(log) && Waiting(log, waiting)
    requires match MtuOf(data)
      case None => dropped == None
      case Some(m) =>
        && (dropped.Some? <==> Known(log, m.pkid).None? && |waiting| == 1000)
        && (dropped.Some? ==> Known(log, dropped.value).Some?)
    ensures Lawful(log + [Step(Datagram(data, now), dropped)])
  {
    hide Known, Full, Lawful, MtuOf;
    FullIs(log, waiting);
    LawfulNext(log, Step(Datagram(data, now), dropped));
  }

  lemma CleanupLawful(log: seq<Step>, now: int)
    requires Lawful(log)
    ensures Lawful(log + [Step(Cleanup(now), None)])
  {
    LawfulNext(log, Step(Cleanup(now), None));
  }

  /** As long as pieces of at most 1000 packets come, no packet is lost. */
  lemma NeverFull(log: seq<Step>, ids: set<int64>)
    requires Lawful(log) && |ids| <= 1000
    requires forall i, m :: 0 <= i < |log| && PieceIn(log[i].event) == Some(m) ==> m.pkid in ids
    ensures forall i :: 0 <= i < |log| ==> log[i].dropped == None
  {
    hide Known, MtuOf;
    forall i | 0 <= i < |log|
      ensures log[i].dropped == None
    {
      assert Loses(log[..i], log[i]);
      if log[i].dropped.Some? {
        var waiting :| Waiting(log[..i], waiting) && |waiting| == 1000;
        var m := PieceIn(log[i].event).value;
        KnownCame(log[..i], ids);
        Smaller(waiting + {m.pkid}, ids);
      }
    }
  }

  lemma {:induction false} KnownCame(log: seq<Step>, ids: set<int64>)
    requires forall i, m :: 0 <= i < |log| && PieceIn(log[i].event) == Some(m) ==> m.pkid in ids
    ensures forall k: int64 :: Known(log, k).Some? ==> k in ids
  {
    hide MtuOf;
    if log != [] {
      KnownCame(log[..|log| - 1], ids);
      assert PieceIn(log[|log| - 1].event).Some? ==> PieceIn(log[|log| - 1].event).value.pkid in ids;
    }
  }

  lemma {:induction false} Smaller(s: set<int64>, t: set<int64>)
    requires s <= t
    ensures |s| <= |t|
    decreases s
  {
    if s != {} {
      var x :| x in s;
      Smaller(s - {x}, t - {x});
    }
  }

  // ----- a split pack --------------------------------------------------------------------

  function PieceIn(e: Event): Option<Mtu> {
    if e.Datagram? then MtuOf(e.data) else None
  }

  function PieceOf(e: Event, pkid: int64): Option<Mtu> {
    if PieceIn(e).Some? && PieceIn(e).value.pkid == pkid then PieceIn(e) else None
  }

  /** Everything that comes under the packet's id is a piece of the payload. */
  ghost predicate Brings(steps: seq<Step>, pkid: int64, pieces: seq<bytes>) {
    forall i, m :: 0 <= i < |steps| && PieceOf(steps[i].event, pkid) == Some(m) ==> Fits(m, pieces)
  }

  predicate Fits(m: Mtu, pieces: seq<bytes>) {
    m.total as int == |pieces| && 0 <= m.num < |pieces| && m.data == pieces[m.num]
  }

  /** The numbers seen since the pack was last complete or lost, and when the first of them came. */
  datatype Progress = Progress(seen: set<nat>, since: int)

  const NOTHING := Progress({}, 0)

  predicate All(seen: set<nat>, n: nat) {
    forall j: nat :: j < n ==> j in seen
  }

  function Advanced(b: Progress, s: Step, pkid: int64, n: nat): Progress {
    match s.event
    case Cleanup(now) => if b.seen != {} && now - b.since > 10_000 then NOTHING else b
    case Datagram(_, now) =>
      match PieceOf(s.event, pkid)
      case None => if PieceIn(s.event).Some? && s.dropped == Some(pkid) then NOTHING else b
      case Some(m) =>
        if m.num < 0 then b
        else if All(b.seen + {m.num as nat}, n) then NOTHING
        else Progress(b.seen + {m.num as nat}, if b.seen == {} then now else b.since)
  }

  function Follow(steps: seq<Step>, pkid: int64, n: nat): Progress {
    if steps == [] then NOTHING else Advanced(Follow(steps[..|steps| - 1], pkid, n), steps[|steps| - 1], pkid, n)
  }

  /** This event brings the last missing number. */
  predicate Completes(steps: seq<Step>, e: Event, pkid: int64, n: nat) {
    match PieceOf(e, pkid)
    case None => false
    case Some(m) => m.num >= 0 && All(Follow(steps, pkid, n).seen + {m.num as nat}, n)
  }

  /** What the table knows of the packet is what its pieces have brought. */
  ghost predicate Tracks(e: Option<Entry>, b: Progress, pieces: seq<bytes>) {
    match e
    case None => b.seen == {}
    case Some(x) =>
      && b.seen != {} && x.total == |pieces| && x.created == b.since && From(pieces, x.came)
      && forall j: nat :: j < |pieces| ==> (Came(x.came, j) <==> j in b.seen)
  }

  function CameTo(e: Option<Entry>): seq<Fragment> {
    if e.Some? then e.value.came else []
  }

  lemma PieceStep(e: Option<Entry>, b: Progress, pieces: seq<bytes>, m: Mtu, now: int)
    requires Tracks(e, b, pieces) && Fits(m, pieces)
    ensures var f, seen := Fragment(m.num, m.data), b.seen + {m.num as nat};
      && Registered(e, m.total, f, now) == Some(Entry(|pieces|, CameTo(e) + [f], if b.seen == {} then now else b.since))
      && From(pieces, CameTo(e) + [f])
      && (forall j: nat :: j < |pieces| ==> (Came(CameTo(e) + [f], j) <==> j in seen))
      && (Complete(|pieces|, CameTo(e) + [f]) <==> All(seen, |pieces|))
      && (Complete(|pieces|, CameTo(e) + [f]) ==> Assembled(FirstArrived(|pieces|, CameTo(e) + [f])) == Joined(pieces))
  {
    hide Complete, Assembled, FirstArrived, Joined;
    var f := Fragment(m.num, m.data);
    var before, after, seen := CameTo(e), CameTo(e) + [f], b.seen + {m.num as nat};
    assert f in after;
    forall j: nat | j < |pieces|
      ensures Came(after, j) <==> j in seen
    {
      if Came(before, j) {
        var g :| g in before && g.num as int == j;
        assert g in after;
      }
    }
    CompleteIff(|pieces|, after);
    if Complete(|pieces|, after) {
      Reassembly(pieces, after);
    }
  }

  lemma TracksNext(e: Option<Entry>, b: Progress, pieces: seq<bytes>, s: Step, pkid: int64)
    requires Tracks(e, b, pieces)
    requires PieceOf(s.event, pkid).Some? ==> Fits(PieceOf(s.event, pkid).value, pieces)
    ensures Tracks(Next(e, pkid, s), Advanced(b, s, pkid, |pieces|), pieces)
  {
    hide Complete, Assembled, FirstArrived, Joined, MtuOf;
    if PieceOf(s.event, pkid).Some? {
      PieceStep(e, b, pieces, PieceOf(s.event, pkid).value, s.event.now);
    }
  }

  lemma {:induction false} Tracked(before: seq<Step>, steps: seq<Step>, pieces: seq<bytes>, pkid: int64)
    requires Known(before, pkid) == None && Brings(steps, pkid, pieces)
    ensures Tracks(Known(before + steps, pkid), Follow(steps, pkid, |pieces|), pieces)
  {
    hide Tracks, Advanced, Next, MtuOf;
    if steps == [] {
      assert before + steps == before;
      NothingTracked(pieces);
    } else {
      var init, last := steps[..|steps| - 1], steps[|steps| - 1];
      Tracked(before, init, pieces, pkid);
      assert (before + steps)[..|before + steps| - 1] == before + init;
      TracksNext(Known(before + init, pkid), Follow(init, pkid, |pieces|), pieces, last, pkid);
    }
  }

  lemma NothingTracked(pieces: seq<bytes>)
    ensures Tracks(None, NOTHING, pieces)
  {
  }

  /** After any history that does not know the packet, and any mixture of its pieces, in any order and
      with repetitions, with other datagrams, losses and cleanups: a piece dispatches the pack exactly
      if it brings the last missing number, and nothing otherwise. */
  lemma SplitPack(before: seq<Step>, steps: seq<Step>, e: Event, p: Pack, pieces: seq<bytes>, pkid: int64)
    requires Known(before, pkid) == None && Brings(steps, pkid, pieces)
    requires PieceOf(e, pkid).Some? && Fits(PieceOf(e, pkid).value, pieces)
    requires WithinLimits(p) && Joined(pieces) == EncPack(p)
    ensures Dispatches(before + steps, e) == if Completes(steps, e, pkid, |pieces|) then [Norm(p)] else []
  {
    hide Known, Follow, Brings, Tracks, Complete, Assembled, FirstArrived, Joined, Norm, EncPack, WithinLimits, PackAt, MtuOf;
    Tracked(before, steps, pieces, pkid);
    PieceStep(Known(before + steps, pkid), Follow(steps, pkid, |pieces|), pieces, PieceOf(e, pkid).value, e.now);
    Payload(p);
  }

  lemma Payload(p: Pack)
    requires WithinLimits(p)
    ensures PackAt(EncPack(p), 0).result == Ok(Norm(p))
  {
    hide EncPack, PackAt, Norm, WithinLimits;
    WholeAt(EncPack(p));
    PackRoundTrip(EncPack(p), 0, p);
  }

  /** A full table never loses the packet, and no cleanup comes too long after a piece of it. */
  ghost predicate Undisturbed(steps: seq<Step>, pkid: int64) {
    && (forall i :: 0 <= i < |steps| ==> steps[i].dropped != Some(pkid))
    && (forall i, j :: 0 <= i < j < |steps| && PieceOf(steps[i].event, pkid).Some? && steps[j].event.Cleanup? ==>
          steps[j].event.now - steps[i].event.now <= 10_000)
  }

  ghost predicate Brought(steps: seq<Step>, pkid: int64, k: nat) {
    exists i :: 0 <= i < |steps| && NumberIs(steps[i].event, pkid, k)
  }

  predicate NumberIs(e: Event, pkid: int64, k: nat) {
    PieceOf(e, pkid).Some? && PieceOf(e, pkid).value.num as int == k
  }

  /** The progress is what was brought, and its time is that of one of the pieces. */
  ghost predicate Gathered(steps: seq<Step>, b: Progress, pkid: int64) {
    && (forall k: nat :: k in b.seen <==> Brought(steps, pkid, k))
    && (b.seen != {} ==> CameAt(steps, pkid, b.since))
  }

  ghost predicate CameAt(steps: seq<Step>, pkid: int64, now: int) {
    exists i :: 0 <= i < |steps| && PieceOf(steps[i].event, pkid).Some? && steps[i].event.now == now
  }

  /** While a number is missing, what was brought adds up. */
  lemma {:induction false} Gathers(steps: seq<Step>, pieces: seq<bytes>, pkid: int64, missing: nat)
    requires missing < |pieces| && Brings(steps, pkid, pieces) && Undisturbed(steps, pkid) && !Brought(steps, pkid, missing)
    ensures Gathered(steps, Follow(steps, pkid, |pieces|), pkid)
  {
    if steps != [] {
      var init, last := steps[..|steps| - 1], steps[|steps| - 1];
      assert steps == init + [last];
      Shorter(init, last, pieces, pkid, missing);
      Gathers(init, pieces, pkid, missing);
      var b := Follow(init, pkid, |pieces|);
      hide Gathered, Advanced, Follow, Brings, Undisturbed, Brought, PieceOf;
      if PieceOf(last.event, pkid).Some? {
        PieceGathers(init, last, b, pieces, pkid, missing);
      } else {
        OtherGathers(init, last, b, pieces, pkid);
      }
      FollowNext(init, last, pkid, |pieces|);
    } else {
      NothingGathered(pkid, |pieces|);
    }
  }

  lemma FollowNext(steps: seq<Step>, last: Step, pkid: int64, n: nat)
    ensures Follow(steps + [last], pkid, n) == Advanced(Follow(steps, pkid, n), last, pkid, n)
  {
    assert (steps + [last])[..|steps|] == steps;
  }

  lemma NothingGathered(pkid: int64, n: nat)
    ensures Gathered([], Follow([], pkid, n), pkid)
  {
  }

  lemma Shorter(init: seq<Step>, last: Step, pieces: seq<bytes>, pkid: int64, missing: nat)
    requires var steps := init + [last];
      Brings(steps, pkid, pieces) && Undisturbed(steps, pkid) && !Brought(steps, pkid, missing)
    ensures Brings(init, pkid, pieces) && Undisturbed(init, pkid) && !Brought(init, pkid, missing)
    ensures last.dropped != Some(pkid) && !NumberIs(last.event, pkid, missing)
    ensures forall m :: PieceOf(last.event, pkid) == Some(m) ==> Fits(m, pieces)
  {
    hide PieceOf, Fits, NumberIs;
    BroughtNext(init, last, pkid);
    hide Brought;
    var steps := init + [last];
    assert steps[|init|] == last && forall i :: 0 <= i < |init| ==> steps[i] == init[i];
  }

  /** A piece adds its number. */
  lemma PieceGathers(init: seq<Step>, last: Step, b: Progress, pieces: seq<bytes>, pkid: int64, missing: nat)
    requires Gathered(init, b, pkid) && PieceOf(last.event, pkid).Some? && Fits(PieceOf(last.event, pkid).value, pieces)
    requires missing < |pieces| && !Brought(init, pkid, missing) && !NumberIs(last.event, pkid, missing)
    ensures Gathered(init + [last], Advanced(b, last, pkid, |pieces|), pkid)
  {
    hide Brought, CameAt, MtuOf;
    BroughtNext(init, last, pkid);
    CameNext(init, last, pkid, b.since);
    CameNext(init, last, pkid, last.event.now);
    var m := PieceOf(last.event, pkid).value;
    assert missing !in b.seen + {m.num as nat};
  }

  /** Anything else leaves it: no loss, and no cleanup too late. */
  lemma OtherGathers(init: seq<Step>, last: Step, b: Progress, pieces: seq<bytes>, pkid: int64)
    requires Gathered(init, b, pkid) && PieceOf(last.event, pkid) == None
    requires Undisturbed(init + [last], pkid) && last.dropped != Some(pkid)
    ensures Gathered(init + [last], Advanced(b, last, pkid, |pieces|), pkid)
  {
    if b.seen != {} && last.event.Cleanup? {
      InTime(init, last, pkid, b.since);
    }
    hide Brought, CameAt, PieceOf, Undisturbed;
    BroughtNext(init, last, pkid);
    CameNext(init, last, pkid, b.since);
  }

  lemma InTime(init: seq<Step>, last: Step, pkid: int64, since: int)
    requires Undisturbed(init + [last], pkid) && CameAt(init, pkid, since) && last.event.Cleanup?
    ensures last.event.now - since <= 10_000
  {
    hide PieceOf;
    var steps := init + [last];
    var i :| 0 <= i < |init| && PieceOf(init[i].event, pkid).Some? && init[i].event.now == since;
    var j := |init|;
    assert steps[i] == init[i] && steps[j] == last;
    assert PieceOf(steps[i].event, pkid).Some? && steps[j].event.Cleanup?;
    assert steps[j].event.now - steps[i].event.now <= 10_000;
  }

  lemma CameNext(init: seq<Step>, last: Step, pkid: int64, now: int)
    ensures CameAt(init, pkid, now) ==> CameAt(init + [last], pkid, now)
    ensures PieceOf(last.event, pkid).Some? && last.event.now == now ==> CameAt(init + [last], pkid, now)
  {
    hide PieceOf;
    var steps := init + [last];
    assert steps[|init|] == last && forall i :: 0 <= i < |init| ==> steps[i] == init[i];
  }

  lemma BroughtNext(steps: seq<Step>, last: Step, pkid: int64)
    ensures forall k: nat :: Brought(steps + [last], pkid, k) <==> Brought(steps, pkid, k) || NumberIs(last.event, pkid, k)
  {
    hide NumberIs;
    var more := steps + [last];
    forall k: nat
      ensures Brought(more, pkid, k) <==> Brought(steps, pkid, k) || NumberIs(last.event, pkid, k)
    {
      if Brought(steps, pkid, k) {
        var i :| 0 <= i < |steps| && NumberIs(steps[i].event, pkid, k);
        assert NumberIs(more[i].event, pkid, k);
      }
      if NumberIs(last.event, pkid, k) {
        assert more[|steps|] == last;
      }
    }
  }

  /** With the last missing number an undisturbed pack is complete, and not before, however the others
      are ordered, repeated and mixed. */
  lemma OneRound(steps: seq<Step>, e: Event, pieces: seq<bytes>, pkid: int64, missing: nat)
    requires Brings(steps, pkid, pieces) && Undisturbed(steps, pkid)
    requires missing < |pieces| && !Brought(steps, pkid, missing)
    requires NumberIs(e, pkid, missing) && forall k: nat :: k < |pieces| && k != missing ==> Brought(steps, pkid, k)
    ensures Completes(steps, e, pkid, |pieces|)
    ensures forall i :: 0 <= i < |steps| ==> !Completes(steps[..i], steps[i].event, pkid, |pieces|)
  {
    hide MtuOf, Follow, Fits, Brought;
    Gathers(steps, pieces, pkid, missing);
    forall i | 0 <= i < |steps|
      ensures !Completes(steps[..i], steps[i].event, pkid, |pieces|)
    {
      Prefix(steps, i, pkid, missing);
      assert Brings(steps[..i], pkid, pieces);
      Gathers(steps[..i], pieces, pkid, missing);
      if PieceOf(steps[i].event, pkid).Some? {
        assert missing !in Follow(steps[..i], pkid, |pieces|).seen + {PieceOf(steps[i].event, pkid).value.num as int};
      }
    }
  }

  lemma Prefix(steps: seq<Step>, i: nat, pkid: int64, missing: nat)
    requires i < |steps| && Undisturbed(steps, pkid) && !Brought(steps, pkid, missing)
    ensures Undisturbed(steps[..i], pkid) && !Brought(steps[..i], pkid, missing) && !NumberIs(steps[i].event, pkid, missing)
  {
  }
}
