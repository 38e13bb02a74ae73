/** The worker of the UDP port (internal/netio/udp/processor.go), proved against the history of
    what it has worked on. */
module Processor {
  import opened Endian
  import opened DataStream
  import opened Results
  import opened Packs
  import opened MultiPackets
  import opened Datagrams
  import opened PacketRuns

  // ----- the processor -------------------------------------------------------------------

  class NetDataProcessor {
    const multiPacket: MultiPacketProcessor
    var dispatched: seq<Pack>   // what the dispatcher has been given
    ghost var log: seq<Step>    // the datagrams worked on and the rounds of the cleanup

    /** After every run: the table knows of each packet what the history says, and the dispatcher
        was given what the history says. */
    ghost predicate Valid()
      reads this, multiPacket
    {
      multiPacket.Valid() && Lawful(log) && dispatched == Dispatched(log) && forall k: int64 :: multiPacket.Known(k) == Known(log, k)
    }

    constructor ()
      ensures Valid() && log == [] && fresh(multiPacket)
    {
      multiPacket := new MultiPacketProcessor();
      dispatched, log := [], [];
    }

    method ProcessCafe(d: DataInputX)
      modifies this`dispatched, d
      ensures dispatched == old(dispatched) + PacksAt(1, d.buf, old(d.offset))
    {
      hide PackAt;
      var pk := ReadPack(d);
      if pk.Err? {
        assert dispatched + [] == dispatched;
        return;
      }
      assert [pk.value] + [] == [pk.value];
      dispatched := dispatched + [pk.value];
    }

    method ProcessCafeN(d: DataInputX)
      modifies this`dispatched, d
      ensures dispatched == old(dispatched) +
        match Int16At(d.buf, old(d.offset))
        case Parsed(Err(_), _) => []
        case Parsed(Ok(n), o) => if n < 0 then [] else PacksAt(n, d.buf, o)
    {
      hide PackAt, Int16At;
      assert dispatched + [] == dispatched;
      var n := d.ReadInt16();
      if n.Err? || n.value <= 0 {
        return;
      }
      ghost var all := PacksAt(n.value, d.buf, d.offset);
      var i := 0;
      while i < n.value
        invariant 0 <= i <= n.value
        invariant dispatched + PacksAt(n.value - i, d.buf, d.offset) == old(dispatched) + all
      {
        var pk := ReadPack(d);
        if pk.Err? {
          assert dispatched + [] == dispatched;
          return;
        }
        assert dispatched + ([pk.value] + PacksAt(n.value - i - 1, d.buf, d.offset))
            == dispatched + [pk.value] + PacksAt(n.value - i - 1, d.buf, d.offset);
        dispatched := dispatched + [pk.value];
        i := i + 1;
      }
      assert dispatched + [] == dispatched;
    }

    /** The piece goes to the table; what comes back complete is read as one pack. */
    method ProcessCafeMTU(d: DataInputX, now: int) returns (ghost dropped: Option<int64>)
      requires multiPacket.Valid()
      modifies this`dispatched, multiPacket, d
      ensures multiPacket.Valid()
      ensures match MtuAt(d.buf, old(d.offset)).result
        case Err(_) => dropped == None && dispatched == old(dispatched) && forall k: int64 :: multiPacket.Known(k) == old(multiPacket.Known(k))
        case Ok(m) =>
          && dispatched == old(dispatched) + Completing(old(multiPacket.Known(m.pkid)), m, now)
          && (dropped.Some? <==> old(multiPacket.Known(m.pkid)).None? && |old(multiPacket.packets)| == 1000)
          && (dropped.Some? ==> old(multiPacket.Known(dropped.value)).Some?)
          && forall k: int64 :: multiPacket.Known(k) == Told(old(multiPacket.Known(k)), k, m, now, dropped)
    {
      hide Int32At, Int64At, Int16At, BlobAt, PackAt, Complete, FirstArrived, Assembled, MultiPacketProcessor.Valid, MultiPacketProcessor.Known;
      dropped := None;
      var objHash := d.ReadInt32();
      if objHash.Err? {
        return;
      }
      var pkid := d.ReadInt64();
      if pkid.Err? {
        return;
      }
      var total := d.ReadInt16();
      if total.Err? {
        return;
      }
      var num := d.ReadInt16();
      if num.Err? {
        return;
      }
      var data := d.ReadBlob();
      if data.Err? {
        return;
      }
      dropped := Register(Mtu(objHash.value, pkid.value, total.value, num.value, data.value), now);
    }

    /** The work on a piece whose header is read. */
    method Register(m: Mtu, now: int) returns (ghost dropped: Option<int64>)
      requires multiPacket.Valid()
      modifies this`dispatched, multiPacket
      ensures multiPacket.Valid()
      ensures dispatched == old(dispatched) + Completing(old(multiPacket.Known(m.pkid)), m, now)
      ensures dropped.Some? <==> old(multiPacket.Known(m.pkid)).None? && |old(multiPacket.packets)| == 1000
      ensures dropped.Some? ==> old(multiPacket.Known(dropped.value)).Some?
      ensures forall k: int64 :: multiPacket.Known(k) == Told(old(multiPacket.Known(k)), k, m, now, dropped)
    {
      hide PackAt, Complete, FirstArrived, Assembled, MultiPacketProcessor.Valid, MultiPacketProcessor.Known;
      assert dispatched + [] == dispatched;
      var done;
      done, dropped := multiPacket.Add(m.pkid, m.total, m.num, m.data, m.objHash, now);
      if done.Done? {
        var rd := new DataInputX(done.data);
        var pk := ReadPack(rd);
        if pk.Err? {
          return;
        }
        dispatched := dispatched + [pk.value];
      }
    }

    /** One datagram; the history of all datagrams says what it dispatches. */
    method Process(data: bytes, now: int)
      requires Valid()
      modifies this, multiPacket
      ensures Valid() && dispatched == old(dispatched) + Dispatches(old(log), Datagram(data, now))
      ensures exists dropped :: log == old(log) + [Step(Datagram(data, now), dropped)]
    {
      hide PacksAt, MtuAt, Dispatched, Lawful, Known, Told, Completing, MultiPacketProcessor.Valid, MultiPacketProcessor.Known;
      assert dispatched + [] == dispatched;
      ghost var before := log;
      multiPacket.KnownIsWaiting();
      ghost var waiting := multiPacket.packets.Keys;
      ghost var dropped := Work(data, now);
      log := log + [Step(Datagram(data, now), dropped)];
      Logged(before, Datagram(data, now), dropped);
      StaysLawful(before, data, now, dropped, waiting);
    }

    method Work(data: bytes, now: int) returns (ghost dropped: Option<int64>)
      requires multiPacket.Valid()
      modifies this`dispatched, multiPacket
      ensures multiPacket.Valid()
      ensures match MtuOf(data)
        case None =>
          && dispatched == old(dispatched) + (if IsMtu(data) then [] else Carried(data))
          && dropped == None && forall k: int64 :: multiPacket.Known(k) == old(multiPacket.Known(k))
        case Some(m) =>
          && dispatched == old(dispatched) + Completing(old(multiPacket.Known(m.pkid)), m, now)
          && (dropped.Some? <==> old(multiPacket.Known(m.pkid)).None? && |old(multiPacket.packets)| == 1000)
          && (dropped.Some? ==> old(multiPacket.Known(dropped.value)).Some?)
          && forall k: int64 :: multiPacket.Known(k) == Told(old(multiPacket.Known(k)), k, m, now, dropped)
    {
      hide PacksAt, MtuAt, Told, Completing, MultiPacketProcessor.Valid, MultiPacketProcessor.Known;
      dropped := None;
      assert dispatched + [] == dispatched;
      var d := new DataInputX(data);
      var cafe := d.ReadInt32();
      if cafe.Err? {
        return;
      }
      if cafe.value == UDP_CAFE || cafe.value == UDP_JAVA {
        ProcessCafe(d);
      } else if cafe.value == UDP_CAFE_N || cafe.value == UDP_JAVA_N {
        ProcessCafeN(d);
      } else if cafe.value == UDP_CAFE_MTU || cafe.value == UDP_JAVA_MTU {
        dropped := ProcessCafeMTU(d, now);
      }
    }

    /** A round of the cleanup between two datagrams. */
    method CleanupRound(now: int)
      requires Valid()
      modifies this`log, multiPacket
      ensures Valid() && dispatched == old(dispatched) && log == old(log) + [Step(Cleanup(now), None)]
    {
      hide Dispatched, Lawful, Known, MultiPacketProcessor.Valid, MultiPacketProcessor.Known;
      ghost var before := log;
      multiPacket.Cleanup(now);
      log := log + [Step(Cleanup(now), None)];
      assert dispatched + [] == dispatched;
      Logged(before, Cleanup(now), None);
      CleanupLawful(before, now);
    }

    /** The worker and the cleanup on everything that comes, in any mixture. */
    method WorkerLoop(events: seq<Event>)
      requires Valid()
      modifies this, multiPacket
      ensures Valid() && |log| == |old(log)| + |events| && log[..|old(log)|] == old(log)
      ensures forall i :: 0 <= i < |events| ==> log[|old(log)| + i].event == events[i]
    {
      hide Valid, Dispatches, PackAt, MultiPacketProcessor.Valid, MultiPacketProcessor.Known;
      for i := 0 to |events|
        invariant Valid() && |log| == |old(log)| + i && log[..|old(log)|] == old(log)
        invariant forall j :: 0 <= j < i ==> log[|old(log)| + j].event == events[j]
      {
        match events[i]
        case Datagram(data, now) => Process(data, now);
        case Cleanup(now) => CleanupRound(now);
      }
    }
  }
}
