/** Reassembly of split UDP packets (internal/netio/udp/multipacket.go). */
module MultiPackets {
  import opened Endian
  import opened Maps
  import opened Results

  const MAX_ITEMS := 1000
  const EXPIRY := 10_000   // milliseconds

  datatype MultiPacket =
    MultiPacket(total: nat, objHash: int32, fragments: seq<Option<bytes>>, received: nat, created: int)

  datatype Fragment = Fragment(num: int16, data: bytes)

  /** A negative total makes the allocation of the fragments panic. */
  datatype Outcome = Incomplete | Done(data: bytes) | Panicked

  // ----- what has arrived ----------------------------------------------------------------

  /** The data of the first arrival with number i. */
  function First(arrivals: seq<Fragment>, i: nat): Option<bytes> {
    if arrivals == [] then None
    else
      var earlier, last := First(arrivals[..|arrivals| - 1], i), arrivals[|arrivals| - 1];
      if earlier == None && last.num as int == i then Some(last.data) else earlier
  }

  function FirstArrived(total: nat, arrivals: seq<Fragment>): (fs: seq<Option<bytes>>)
    ensures |fs| == total
    ensures forall i :: 0 <= i < total ==> fs[i] == First(arrivals, i)
  {
    seq(total, i requires 0 <= i < total => First(arrivals, i))
  }

  /** Every number below total has arrived. */
  predicate Complete(total: nat, arrivals: seq<Fragment>) {
    forall i :: 0 <= i < total ==> First(arrivals, i).Some?
  }

  function Filled(fs: seq<Option<bytes>>): (n: nat)
    ensures n <= |fs|
  {
    if fs == [] then 0 else Filled(fs[..|fs| - 1]) + if fs[|fs| - 1].Some? then 1 else 0
  }

  /** The fragments one after the other. */
  function Assembled(fs: seq<Option<bytes>>): bytes {
    if fs == [] then []
    else Assembled(fs[..|fs| - 1]) + match fs[|fs| - 1] case Some(data) => data case None => []
  }

  function Joined(pieces: seq<bytes>): bytes {
    if pieces == [] then [] else Joined(pieces[..|pieces| - 1]) + pieces[|pieces| - 1]
  }

  /** Joining is concatenation. */
  lemma {:induction false} JoinedMeaning(a: seq<bytes>, b: seq<bytes>, piece: bytes)
    ensures Joined([]) == [] && Joined([piece]) == piece
    ensures Joined(a + b) == Joined(a) + Joined(b)
  {
    assert [piece][..0] == [];
    if b == [] {
      assert a + b == a;
    } else {
      JoinedMeaning(a, b[..|b| - 1], piece);
      assert (a + b)[..|a + b| - 1] == a + b[..|b| - 1];
    }
  }

  /** Counting the filled slots decides whether all are. */
  lemma {:induction false} AllFilled(fs: seq<Option<bytes>>)
    ensures Filled(fs) == |fs| <==> forall i :: 0 <= i < |fs| ==> fs[i].Some?
  {
    if fs != [] {
      var init := fs[..|fs| - 1];
      AllFilled(init);
      if forall i :: 0 <= i < |fs| ==> fs[i].Some? {
        assert forall i :: 0 <= i < |init| ==> init[i] == fs[i];
      }
    }
  }

  lemma {:induction false} FillOne(fs: seq<Option<bytes>>, i: nat, data: bytes)
    requires i < |fs| && fs[i] == None
    ensures Filled(fs[i := Some(data)]) == Filled(fs) + 1
  {
    var n, gs := |fs| - 1, fs[i := Some(data)];
    if i < n {
      FillOne(fs[..n], i, data);
      assert gs[..n] == fs[..n][i := Some(data)];
    } else {
      assert gs[..n] == fs[..n];
    }
  }

  lemma {:induction false} NoneFilled(total: nat)
    ensures Filled(FirstArrived(total, [])) == 0
  {
    if total > 0 {
      NoneFilled(total - 1);
      assert FirstArrived(total, [])[..total - 1] == FirstArrived(total - 1, []);
    }
  }

  /** One more arrival fills the slot of its number if that is free, and nothing else. */
  lemma Arrive(total: nat, arrivals: seq<Fragment>, f: Fragment)
    ensures FirstArrived(total, arrivals + [f]) ==
      var fs := FirstArrived(total, arrivals);
      if 0 <= f.num < total && fs[f.num] == None then fs[f.num := Some(f.data)] else fs
  {
    assert (arrivals + [f])[..|arrivals|] == arrivals;
  }

  // ----- what the table knows of one packet ---------------------------------------------

  /** A waiting packet: the total that its first fragment announced, all that came since, and when. */
  datatype Entry = Entry(total: nat, came: seq<Fragment>, created: int)

  /** The entry after one more fragment; none if a negative total makes the allocation panic. */
  function Registered(e: Option<Entry>, total: int16, f: Fragment, now: int): Option<Entry> {
    match e
    case Some(x) => Some(x.(came := x.came + [f]))
    case None => if total < 0 then None else Some(Entry(total, [f], now))
  }

  /** Total and time are those of the first fragment; every fragment counts as come. */
  function RegisteredAll(total: int16, now: int, f: Fragment, later: seq<(int16, int, Fragment)>): Option<Entry> {
    if later == [] then Registered(None, total, f, now)
    else
      var (t, n, g) := later[|later| - 1];
      Registered(RegisteredAll(total, now, f, later[..|later| - 1]), t, g, n)
  }

  lemma {:induction false} FirstDecides(total: int16, now: int, f: Fragment, later: seq<(int16, int, Fragment)>)
    requires total >= 0
    ensures var e := RegisteredAll(total, now, f, later);
      && e.Some? && e.value.total as int == total as int && e.value.created == now
      && |e.value.came| == 1 + |later| && e.value.came[0] == f && forall i :: 0 <= i < |later| ==> e.value.came[1 + i] == later[i].2
  {
    if later != [] {
      FirstDecides(total, now, f, later[..|later| - 1]);
    }
  }

  /** A complete packet is forgotten. */
  function Kept(e: Option<Entry>): Option<Entry> {
    if e.Some? && Complete(e.value.total, e.value.came) then None else e
  }

  function Aged(e: Option<Entry>, now: int): Option<Entry> {
    if e.Some? && now - e.value.created > 10_000 then None else e
  }

  // ----- the payload ---------------------------------------------------------------------

  /** Each number in range brought that piece, any number of times and in any order. */
  ghost predicate From(pieces: seq<bytes>, arrivals: seq<Fragment>) {
    forall f :: f in arrivals && 0 <= f.num < |pieces| ==> f.data == pieces[f.num]
  }

  lemma {:induction false} FirstMeaning(arrivals: seq<Fragment>, i: nat)
    ensures match First(arrivals, i)
      case None => forall f :: f in arrivals ==> f.num as int != i
      case Some(data) => exists f :: f in arrivals && f.num as int == i && f.data == data
  {
    if arrivals != [] {
      FirstMeaning(arrivals[..|arrivals| - 1], i);
    }
  }

  ghost predicate Came(arrivals: seq<Fragment>, i: nat) {
    exists f :: f in arrivals && f.num as int == i
  }

  /** All numbers have arrived if and only if the slots are all filled. */
  lemma CompleteIff(total: nat, arrivals: seq<Fragment>)
    ensures Complete(total, arrivals) <==> forall i: nat :: i < total ==> Came(arrivals, i)
    ensures Complete(total, arrivals) <==> Filled(FirstArrived(total, arrivals)) == total
  {
    AllFilled(FirstArrived(total, arrivals));
    forall i: nat | i < total
      ensures First(arrivals, i).Some? <==> Came(arrivals, i)
    {
      FirstMeaning(arrivals, i);
    }
    if Complete(total, arrivals) {
      assert forall i :: 0 <= i < total ==> FirstArrived(total, arrivals)[i].Some?;
    }
    if forall i :: 0 <= i < total ==> FirstArrived(total, arrivals)[i].Some? {
      assert forall i :: 0 <= i < total ==> First(arrivals, i) == FirstArrived(total, arrivals)[i];
    }
  }

  /** A complete set of fragments of a payload reassembles to the payload. */
  lemma Reassembly(pieces: seq<bytes>, arrivals: seq<Fragment>)
    requires From(pieces, arrivals) && Complete(|pieces|, arrivals)
    ensures Assembled(FirstArrived(|pieces|, arrivals)) == Joined(pieces)
  {
    forall i | 0 <= i < |pieces|
      ensures FirstArrived(|pieces|, arrivals)[i] == Some(pieces[i])
    {
      FirstMeaning(arrivals, i);
    }
    Join(pieces, FirstArrived(|pieces|, arrivals));
  }

  lemma {:induction false} Join(pieces: seq<bytes>, fs: seq<Option<bytes>>)
    requires |fs| == |pieces| && forall i :: 0 <= i < |pieces| ==> fs[i] == Some(pieces[i])
    ensures Assembled(fs) == Joined(pieces)
  {
    if pieces != [] {
      Join(pieces[..|pieces| - 1], fs[..|fs| - 1]);
    }
  }

  // ----- the table -----------------------------------------------------------------------

  predicate IsDone(mp: MultiPacket) {
    mp.received >= mp.total
  }

  method ToBytes(mp: MultiPacket) returns (buf: bytes)
    ensures buf == Assembled(mp.fragments)
  {
    buf := [];
    for i := 0 to |mp.fragments|
      invariant buf == Assembled(mp.fragments[..i])
    {
      assert mp.fragments[..i + 1][..i] == mp.fragments[..i];
      buf := buf + match mp.fragments[i] case Some(data) => data case None => [];
    }
    assert mp.fragments[..|mp.fragments|] == mp.fragments;
  }

  /** The packet's fragments and count after these arrivals. */
  ghost predicate Holds(mp: MultiPacket, arrivals: seq<Fragment>) {
    mp.fragments == FirstArrived(mp.total, arrivals) && mp.received == Filled(mp.fragments)
  }

  /** What a fragment does to its packet. */
  method Receive(mp: MultiPacket, num: int16, data: bytes, ghost arrivals: seq<Fragment>) returns (r: MultiPacket)
    requires Holds(mp, arrivals)
    ensures Holds(r, arrivals + [Fragment(num, data)])
    ensures r.total == mp.total && r.objHash == mp.objHash && r.created == mp.created
    ensures IsDone(r) <==> Complete(mp.total, arrivals + [Fragment(num, data)])
  {
    hide Complete, FirstArrived, Filled;
    Arrive(mp.total, arrivals, Fragment(num, data));
    r := mp;
    if 0 <= num && num as int < mp.total && mp.fragments[num] == None {
      FillOne(mp.fragments, num, data);
      r := mp.(fragments := mp.fragments[num := Some(data)], received := mp.received + 1);
    }
    CompleteIff(mp.total, arrivals + [Fragment(num, data)]);
  }

  lemma Opened(total: nat, objHash: int32, now: int)
    ensures Holds(MultiPacket(total, objHash, seq(total, _ => None), 0, now), [])
  {
    NoneFilled(total);
    assert seq(total, _ => None) == FirstArrived(total, []);
  }

  /** A waiting packet holds the first arrival of each number, counted, with one missing. */
  ghost predicate Sound(mp: MultiPacket, arrivals: seq<Fragment>) {
    Holds(mp, arrivals) && !IsDone(mp)
  }

  lemma Waits(mp: MultiPacket, arrivals: seq<Fragment>)
    requires Holds(mp, arrivals)
    ensures Sound(mp, arrivals) <==> !IsDone(mp)
    ensures mp.fragments == FirstArrived(mp.total, arrivals)
  {
  }

  /** At most 1000 packets, all of them waiting but perhaps some. */
  ghost predicate SoundBut(packets: map<int64, MultiPacket>, arrivals: map<int64, seq<Fragment>>, but: set<int64>) {
    && |packets| <= 1000 && (forall k :: k in packets <==> k in arrivals)
    && forall k :: k in packets && k !in but ==> Sound(packets[k], arrivals[k])
  }

  lemma Stored(packets: map<int64, MultiPacket>, arrivals: map<int64, seq<Fragment>>, pkid: int64, mp: MultiPacket, came: seq<Fragment>)
    requires SoundBut(packets, arrivals, {pkid}) && pkid in packets && Sound(mp, came)
    ensures SoundBut(With(packets, pkid, mp), With(arrivals, pkid, came), {})
  {
    hide Sound, Holds, IsDone, Filled, FirstArrived, With;
    var packets2, arrivals2 := With(packets, pkid, mp), With(arrivals, pkid, came);
    assert |packets2| == |packets|;
    forall k: int64
      ensures (k in packets2 <==> k in arrivals2) && (k in packets2 ==> Sound(packets2[k], arrivals2[k]))
    {
      if k != pkid {
        assert k in packets2 <==> k in packets;
      }
    }
  }

  lemma Forgotten(packets: map<int64, MultiPacket>, arrivals: map<int64, seq<Fragment>>, pkid: int64)
    requires SoundBut(packets, arrivals, {pkid})
    ensures SoundBut(Without(packets, pkid), Without(arrivals, pkid), {}) && forall k :: k in packets <==> k in arrivals
  {
    hide Sound, Without;
  }

  class MultiPacketProcessor {
    var packets: map<int64, MultiPacket>
    ghost var arrivals: map<int64, seq<Fragment>>   // for each waiting packet, what came since it was opened

    ghost predicate Valid()
      reads this
    {
      SoundBut(packets, arrivals, {})
    }

    constructor ()
      ensures Valid() && packets == map[]
    {
      packets, arrivals := map[], map[];
    }

    /** What is known of a packet. */
    ghost function Known(k: int64): Option<Entry>
      reads this
    {
      if k in packets && k in arrivals then Some(Entry(packets[k].total, arrivals[k], packets[k].created)) else None
    }

    lemma KnownIsWaiting()
      requires Valid()
      ensures (forall k :: Known(k).Some? <==> k in packets.Keys) && |packets.Keys| <= 1000
      ensures forall k :: k in packets ==> Almost(k)
    {
    }

    /** Valid, but that the packet may be complete. */
    ghost predicate Almost(pkid: int64)
      reads this
    {
      SoundBut(packets, arrivals, {pkid}) && pkid in packets && Holds(packets[pkid], arrivals[pkid])
    }

    /** Registers a fragment; the payload comes back exactly when the last number is in. A full
        table loses one entry, whichever the map iteration meets first, to a new one. */
    method Add(pkid: int64, total: int16, num: int16, data: bytes, objHash: int32, now: int)
        returns (r: Outcome, ghost dropped: Option<int64>)
      requires Valid()
      modifies this
      ensures Valid()
      ensures dropped.Some? <==> old(Known(pkid)).None? && |old(packets)| == 1000
      ensures dropped.Some? ==> old(Known(dropped.value)).Some?
      ensures forall k :: k != pkid ==> Known(k) == if dropped == Some(k) then None else old(Known(k))
      ensures var e := Registered(old(Known(pkid)), total, Fragment(num, data), now);
        && Known(pkid) == Kept(e)
        && match e
          case None => r == Panicked
          case Some(x) => r == if Complete(x.total, x.came) then Done(Assembled(FirstArrived(x.total, x.came))) else Incomplete
    {
      hide Complete, Assembled, FirstArrived, Valid, Almost, Known;
      KnownIsWaiting();
      assert [] + [Fragment(num, data)] == [Fragment(num, data)];
      dropped := None;
      if pkid !in packets {
        if total < 0 {
          dropped := MakeRoom();
          return Panicked, dropped;
        }
        dropped := Open(pkid, total, objHash, now);
      }
      r := Place(pkid, num, data);
    }

    /** A new entry, without fragments. */
    method Open(pkid: int64, total: nat, objHash: int32, now: int) returns (ghost dropped: Option<int64>)
      requires Valid() && pkid !in packets
      modifies this
      ensures Almost(pkid) && Known(pkid) == Some(Entry(total, [], now))
      ensures dropped.Some? <==> |old(packets)| == 1000
      ensures dropped.Some? ==> old(Known(dropped.value)).Some?
      ensures forall k :: k != pkid ==> Known(k) == if dropped == Some(k) then None else old(Known(k))
    {
      hide With, Sound, Holds;
      dropped := MakeRoom();
      Opened(total, objHash, now);
      packets := With(packets, pkid, MultiPacket(total, objHash, seq(total, _ => None), 0, now));
      arrivals := With(arrivals, pkid, []);
    }

    /** Drops an arbitrary entry from a full table. */
    method MakeRoom() returns (ghost dropped: Option<int64>)
      requires Valid()
      modifies this
      ensures dropped.Some? <==> |old(packets)| == 1000
      ensures dropped.Some? ==> old(Known(dropped.value)).Some?
      ensures forall k: int64 :: Known(k) == if dropped == Some(k) then None else old(Known(k))
      ensures |packets| < 1000 && Valid()
    {
      hide Sound, Without, Holds;
      dropped := None;
      if |packets| >= MAX_ITEMS {
        assert packets.Keys != {};
        var k :| k in packets;
        packets := Without(packets, k);
        arrivals := Without(arrivals, k);
        dropped := Some(k);
      }
    }

    /** The work of Add on an entry that is there. */
    method Place(pkid: int64, num: int16, data: bytes) returns (r: Outcome)
      requires Almost(pkid)
      modifies this
      ensures Valid() && forall k :: k != pkid ==> Known(k) == old(Known(k))
      ensures old(Known(pkid)).Some? && var x := old(Known(pkid)).value;
        var e := x.(came := x.came + [Fragment(num, data)]);
        && Known(pkid) == Kept(Some(e))
        && r == if Complete(e.total, e.came) then Done(Assembled(FirstArrived(e.total, e.came))) else Incomplete
    {
      hide Complete, Assembled, Sound, Holds, IsDone, FirstArrived;
      var mp := Receive(packets[pkid], num, data, arrivals[pkid]);
      ghost var came := arrivals[pkid] + [Fragment(num, data)];
      Waits(mp, came);
      if IsDone(mp) {
        var result := ToBytes(mp);
        Remove(pkid);
        return Done(result);
      }
      Store(pkid, mp, came);
      r := Incomplete;
    }

    method Store(pkid: int64, mp: MultiPacket, ghost came: seq<Fragment>)
      requires Almost(pkid) && Sound(mp, came)
      modifies this
      ensures Valid() && Known(pkid) == Some(Entry(mp.total, came, mp.created))
      ensures forall k: int64 :: k != pkid ==> Known(k) == old(Known(k))
    {
      hide Sound, Holds, SoundBut, With;
      Stored(packets, arrivals, pkid, mp, came);
      packets := With(packets, pkid, mp);
      arrivals := With(arrivals, pkid, came);
    }

    method Remove(pkid: int64)
      requires Almost(pkid)
      modifies this
      ensures Valid() && packets.Keys == old(packets).Keys - {pkid}
      ensures forall k: int64 :: Known(k) == if k == pkid then None else old(Known(k))
    {
      hide Sound, Holds, SoundBut, Without;
      Forgotten(packets, arrivals, pkid);
      packets := Without(packets, pkid);
      arrivals := Without(arrivals, pkid);
    }

    /** One round of the cleanup: exactly the entries older than the expiry go. */
    method Cleanup(now: int)
      requires Valid()
      modifies this
      ensures Valid() && forall k: int64 :: Known(k) == Aged(old(Known(k)), now)
    {
      hide Valid, Known, Sound, Without;
      KnownIsWaiting();
      var todo := packets.Keys;
      while todo != {}
        invariant Valid() && todo <= packets.Keys
        invariant forall k: int64 :: Known(k) == if k in todo then old(Known(k)) else Aged(old(Known(k)), now)
        decreases |todo|
      {
        var k :| k in todo;
        todo := todo - {k};
        Expire(k, now);
      }
    }

    method Expire(k: int64, now: int)
      requires Valid() && k in packets
      modifies this
      ensures Valid() && packets.Keys <= old(packets).Keys <= packets.Keys + {k}
      ensures Known(k) == Aged(old(Known(k)), now) && forall j :: j != k ==> Known(j) == old(Known(j))
    {
      hide Sound, Holds;
      KnownIsWaiting();
      if now - packets[k].created > EXPIRY {
        Remove(k);
      }
    }
  }
}
