/** The retrying writer of one channel, in place over the queue's bytes. */
module RetryingDataWriter {
  import opened Wrappers
  import opened Varint
  import opened Packing
  import opened PackedQueue
  import opened BufferQueues
  import opened RetryingWriter

  /** When a buffer was last sent, and its bytes. */
  datatype Flight = Flight(sentAt: real, buffer: ByteString)

  const IN_FLIGHT_TIMEOUT_S: real := 5.0

  /** The flights are those of `packs`, as bytes. */
  ghost predicate SameFlights(channelId: ByteString, flights: map<nat, Flight>, packs: map<nat, Pack>)
    requires |channelId| <= CHANNEL_ID_HEADER_LENGTH
  {
    && |flights| == |packs|
    && (forall id :: id in flights <==> id in packs)
    && (forall id | id in flights :: flights[id].buffer == PackBytes(channelId, packs[id]))
  }

  lemma Renewed(channelId: ChannelId, flights: map<nat, Flight>, packs: map<nat, Pack>, id: nat, t: real)
    requires SameFlights(channelId, flights, packs) && id in flights
    ensures SameFlights(channelId, flights[id := Flight(t, flights[id].buffer)], packs)
    ensures id in packs && flights[id].buffer == PackBytes(channelId, packs[id])
  {
    hide PackBytes;
    var more := flights[id := Flight(t, flights[id].buffer)];
    assert more.Keys == flights.Keys;
    assert |more| == |more.Keys| && |flights| == |flights.Keys|;
  }

  lemma Launched(channelId: ChannelId, flights: map<nat, Flight>, packs: map<nat, Pack>, p: Pack, t: real)
    requires SameFlights(channelId, flights, packs) && p.id !in packs
    ensures p.id !in flights
    ensures SameFlights(channelId, flights[p.id := Flight(t, PackBytes(channelId, p))], packs[p.id := p])
  {
    hide PackBytes;
  }

  lemma Landed(channelId: ChannelId, flights: map<nat, Flight>, packs: map<nat, Pack>, id: nat)
    requires SameFlights(channelId, flights, packs) && id in flights
    ensures SameFlights(channelId, flights - {id}, packs - {id})
  {
    hide PackBytes;
    assert (flights - {id}).Keys == flights.Keys - {id} && (packs - {id}).Keys == packs.Keys - {id};
    assert flights.Keys == packs.Keys;
    assert |flights - {id}| == |(flights - {id}).Keys| && |packs - {id}| == |(packs - {id}).Keys|;
  }

  /** A buffer in flight went out. */
  ghost predicate SentAgain(channelId: ChannelId, w: Writer, sent: Option<ByteString>) {
    exists id | id in w.inFlight :: sent == Some(PackBytes(channelId, w.inFlight[id]))
  }

  /** Either nothing was handed out and nothing sent, or one buffer was, and was sent. */
  ghost predicate SentNext(channelId: ChannelId, before: Writer, after: Writer, sent: Option<ByteString>) {
    if after.h.scheduled == before.h.scheduled then sent == None
    else
      && |after.h.scheduled| == |before.h.scheduled| + 1
      && sent == Some(PackBytes(channelId, after.h.scheduled[|before.h.scheduled|]))
  }

  /** One buffer that had timed out was sent again at time `t`: its time is renewed, and
      nothing else changes. */
  ghost predicate Renews(before: map<nat, Flight>, after: map<nat, Flight>, t: real, sent: ByteString) {
    exists id ::
      && id in before && t - before[id].sentAt > IN_FLIGHT_TIMEOUT_S
      && sent == before[id].buffer && after == before[id := Flight(t, sent)]
  }

  /** What was sent, if anything, was not in flight and is so since time `t`. */
  ghost predicate Launches(before: map<nat, Flight>, after: map<nat, Flight>, t: real, sent: Option<ByteString>) {
    if sent.None? then after == before
    else exists id: nat :: id !in before && after == before[id := Flight(t, sent.value)]
  }

  lemma FlightOf(channelId: ChannelId, flights: map<nat, Flight>, packs: map<nat, Pack>, id: nat)
    requires SameFlights(channelId, flights, packs)
    ensures id in flights <==> id in packs
    ensures id in packs ==> flights[id].buffer == PackBytes(channelId, packs[id])
    ensures id in packs ==>
              var bufferId := BufferIdAt(flights[id].buffer);
              bufferId.Some? && bufferId.value.number == packs[id].id
  {
    if id in packs {
      PackLayout(channelId, packs[id]);
      hide PackBytes, Encode, Decode, Body;
    }
  }

  lemma InFlightSize(channelId: ChannelId, flights: map<nat, Flight>, packs: map<nat, Pack>)
    requires SameFlights(channelId, flights, packs)
    ensures |flights| == |packs|
  {
  }

  lemma WriterIndex(cfg: Config, w: Writer)
    requires WriterInv(cfg, w)
    ensures 0 <= w.h.q.index
  {
    IndexInRange(w.h);
  }

  /** What sending the next buffer comes to. */
  lemma SendNextIs(cfg: Config, w: Writer, quiet: bool)
    requires WriterInv(cfg, w) && |w.inFlight| <= IN_FLIGHT_LIMIT_PER_CHANNEL
    ensures w.h.q.index >= 0 && Schedule(cfg, w.h.q, quiet).Done? && SendFrom(cfg, w, false, quiet).Fine?
    ensures var (q, p) := Schedule(cfg, w.h.q, quiet).value;
            var next := SendFrom(cfg, w, false, quiet).w;
            && WriterInv(cfg, next) && next.h.q == q
            && (p.None? ==> next.inFlight == w.inFlight && next.h.scheduled == w.h.scheduled)
            && (p.Some? ==> p.value.id !in w.inFlight && next.inFlight == w.inFlight[p.value.id := p.value]
                            && next.h.scheduled == w.h.scheduled + [p.value])
  {
    StepKeeps(cfg, w, Send(false, quiet));
    ScheduleKeeps(cfg, w.h, quiet);
    hide WriterInv;
  }

  lemma WriteIs(cfg: Config, w: Writer, data: ByteString)
    requires WriterInv(cfg, w)
    ensures var next := WriteTo(cfg, w, data);
            WriterInv(cfg, next) && next.h.q == Append(cfg, w.h.q, data).0 && next.inFlight == w.inFlight
  {
    hide WriterInv, Append;
    StepKeeps(cfg, w, Write(data));
  }

  lemma AckIs(cfg: Config, w: Writer, id: nat)
    requires WriterInv(cfg, w)
    ensures AckOne(w, id).Fine? && WriterInv(cfg, AckOne(w, id).w)
    ensures id !in w.inFlight ==> AckOne(w, id).w == w
    ensures id in w.inFlight ==>
              && w.inFlight[id].id == id && Pop(w.h.q, id).Done?
              && AckOne(w, id).w.h.q == Pop(w.h.q, id).value
              && AckOne(w, id).w.inFlight == w.inFlight - {id}
  {
    AckKeeps(cfg, w, id);
    hide QueueInv, CutInv, MemoryInv, Pop;
  }

  lemma LandIs(cfg: Config, channelId: ChannelId, flights: map<nat, Flight>, w: Writer, id: nat)
    requires WriterInv(cfg, w) && SameFlights(channelId, flights, w.inFlight) && id in flights
    ensures AckOne(w, id).Fine? && WriterInv(cfg, AckOne(w, id).w)
    ensures Pop(w.h.q, id).Done? && AckOne(w, id).w.h.q == Pop(w.h.q, id).value
    ensures SameFlights(channelId, flights - {id}, AckOne(w, id).w.inFlight)
  {
    hide WriterInv, SameFlights, AckOne, Pop;
    FlightOf(channelId, flights, w.inFlight, id);
    AckIs(cfg, w, id);
    Landed(channelId, flights, w.inFlight, id);
  }

  class DataWriter {
    const queue: ChannelQueue
    var inFlight: map<nat, Flight>
    // The history of the channel, with the buffers in flight as packs.
    ghost var w: Writer

    ghost predicate Matches()
      reads this, queue, queue.tracker
    {
      queue.Valid() && w.h.q == queue.Contents() && SameFlights(queue.channelId, inFlight, w.inFlight)
    }

    ghost predicate Valid()
      reads this, queue, queue.tracker
    {
      Matches() && WriterInv(queue.Cfg(), w)
    }

    constructor (queue: ChannelQueue)
      requires queue.Valid() && queue.Contents() == InitQueue()
      ensures Valid() && this.queue == queue && w == InitWriter()
    {
      this.queue := queue;
      inFlight := map[];
      w := InitWriter();
      new;
      NoFaultAndMemoryConserved(queue.Cfg(), []);
    }

    method WriteMessage(data: ByteString) returns (r: AppendOutcome)
      requires Valid()
      modifies this`w, queue, queue.tracker
      ensures Valid() && w == WriteTo(queue.Cfg(), old(w), data)
      ensures r == Append(queue.Cfg(), old(w.h.q), data).1
    {
      ghost var next := WriteTo(queue.Cfg(), w, data);
      WriteIs(queue.Cfg(), w, data);
      hide WriterInv, Append, WriteTo, PackBytes, SameFlights;
      hide ChannelQueue.Contents, ChannelQueue.Valid, ChannelQueue.Cfg;
      r := queue.AppendMsg(data);
      w := next;
    }

    predicate TimedOut(t: real)
      reads this
    {
      exists id | id in inFlight :: t - inFlight[id].sentAt > IN_FLIGHT_TIMEOUT_S
    }

    /** Some buffer that timed out goes out again, unchanged. */
    method Resend(t: real) returns (sent: ByteString)
      requires Valid() && TimedOut(t)
      modifies this`inFlight
      ensures Valid()
      ensures SentAgain(queue.channelId, w, Some(sent)) && Renews(old(inFlight), inFlight, t, sent)
    {
      hide WriterInv, PackBytes, SameFlights;
      var id :| id in inFlight && t - inFlight[id].sentAt > IN_FLIGHT_TIMEOUT_S;
      sent := inFlight[id].buffer;
      Renewed(queue.channelId, inFlight, w.inFlight, id, t);
      inFlight := inFlight[id := Flight(t, sent)];
    }

    /** Asks the queue for its next buffer, which is not in flight yet. */
    method Take(quiet: bool) returns (raised: bool, buffer: Option<ByteString>, ghost p: Option<Pack>)
      requires Valid() && |inFlight| <= IN_FLIGHT_LIMIT_PER_CHANNEL
      modifies this`w, queue
      ensures !raised && queue.Valid() && w.h.q == queue.Contents() && WriterInv(queue.Cfg(), w)
      ensures 0 <= old(w).h.q.index && Fine(w) == SendFrom(queue.Cfg(), old(w), false, quiet)
      ensures buffer == if p.None? then None else Some(PackBytes(queue.channelId, p.value))
      ensures p.None? ==> w.inFlight == old(w).inFlight && w.h.scheduled == old(w).h.scheduled
      ensures p.Some? ==> p.value.id !in old(w).inFlight && w.inFlight == old(w).inFlight[p.value.id := p.value]
      ensures p.Some? ==> w.h.scheduled == old(w).h.scheduled + [p.value]
    {
      SendNextIs(queue.Cfg(), w, quiet);
      assert queue.scheduleIndex >= 0;
      ghost var next := SendFrom(queue.Cfg(), w, false, quiet).w;
      p := Schedule(queue.Cfg(), w.h.q, quiet).value.1;
      hide WriterInv, PackBytes, SameFlights, Schedule, SendFrom, ChannelQueue.Contents, ChannelQueue.Valid;
      var r := queue.ScheduleNext(quiet);
      w := next;
      raised := r.Raised?;
      buffer := if raised then None else r.value;
    }

    /** The next buffer that the queue hands out, if any, goes into flight; no error is
        raised. */
    method SendNext(t: real, quiet: bool) returns (raised: bool, sent: Option<ByteString>)
      requires Valid() && |inFlight| <= IN_FLIGHT_LIMIT_PER_CHANNEL
      modifies this`inFlight, this`w, queue
      ensures !raised && Valid()
      ensures 0 <= old(w).h.q.index && Fine(w) == SendFrom(queue.Cfg(), old(w), false, quiet)
      ensures SentNext(queue.channelId, old(w), w, sent) && Launches(old(inFlight), inFlight, t, sent)
    {
      hide WriterInv, PackBytes, SameFlights, SendFrom, ChannelQueue.Contents, ChannelQueue.Valid;
      ghost var packs := w.inFlight;
      var buffer;
      ghost var p;
      raised, buffer, p := Take(quiet);
      sent := None;
      if buffer.Some? {
        raised, sent := Launch(t, packs, p.value, buffer.value);
      }
    }

    /** Sends a timed-out buffer again if there is one; or else, below the limit of
        buffers in flight, the next buffer of the queue. */
    method Send(t: real, quiet: bool) returns (raised: bool, sent: Option<ByteString>)
      requires Valid()
      modifies this`inFlight, this`w, queue
      ensures !raised && Valid()
      ensures 0 <= old(w).h.q.index && Fine(w) == SendFrom(queue.Cfg(), old(w), old(TimedOut(t)), quiet)
      ensures old(TimedOut(t)) ==> SentAgain(queue.channelId, w, sent) && Renews(old(inFlight), inFlight, t, sent.value)
      ensures !old(TimedOut(t)) ==> SentNext(queue.channelId, old(w), w, sent)
      ensures !old(TimedOut(t)) ==> Launches(old(inFlight), inFlight, t, sent)
    {
      hide WriterInv, PackBytes, SameFlights, ChannelQueue.Contents, ChannelQueue.Valid, Renews;
      InFlightSize(queue.channelId, inFlight, w.inFlight);
      WriterIndex(queue.Cfg(), w);
      if TimedOut(t) {
        var again := Resend(t);
        return false, Some(again);
      }
      if |inFlight| > IN_FLIGHT_LIMIT_PER_CHANNEL {
        return false, None;
      }
      hide SentNext, Launches;
      raised, sent := SendNext(t, quiet);
    }

    /** Puts a buffer in flight; `raised` tells that its id was in flight already. */
    method Launch(t: real, ghost packs: map<nat, Pack>, ghost p: Pack, buffer: ByteString)
      returns (raised: bool, sent: Option<ByteString>)
      requires buffer == PackBytes(queue.channelId, p)
      requires SameFlights(queue.channelId, inFlight, packs) && p.id !in packs
      modifies this`inFlight
      ensures !raised && sent == Some(buffer) && SameFlights(queue.channelId, inFlight, packs[p.id := p])
      ensures Launches(old(inFlight), inFlight, t, sent)
    {
      PackLayout(queue.channelId, p);
      hide PackBytes, SameFlights, Encode, Body;
      sent := None;
      Launched(queue.channelId, inFlight, packs, p, t);
      var bufferId := BufferIdAt(buffer).value.number;
      raised := bufferId in inFlight;
      if !raised {
        inFlight := inFlight[bufferId := Flight(t, buffer)];
        sent := Some(buffer);
      }
    }

    /** Takes a buffer out of flight and pops it. */
    method Land(id: nat) returns (raised: bool)
      requires Valid() && id in inFlight
      modifies this`inFlight, this`w, queue, queue.tracker
      ensures !raised && Valid() && Fine(w) == AckOne(old(w), id)
    {
      hide WriterInv, PackBytes, SameFlights, AckOne, PackedQueue.Pop, ChannelQueue.Contents, ChannelQueue.Valid;
      hide ChannelQueue.Cfg;
      LandIs(queue.Cfg(), queue.channelId, inFlight, w, id);
      ghost var next := AckOne(w, id).w;
      inFlight := inFlight - {id};
      var fault := queue.Pop(id);
      w := next;
      raised := fault.Some?;
    }

    /** One ack: a buffer in flight leaves it and is popped; any other ack is ignored. */
    method Acknowledge(id: nat) returns (raised: bool)
      requires Valid()
      modifies this`inFlight, this`w, queue, queue.tracker
      ensures !raised && Valid() && Fine(w) == AckOne(old(w), id)
    {
      AckIs(queue.Cfg(), w, id);
      raised := false;
      FlightOf(queue.channelId, inFlight, w.inFlight, id);
      hide WriterInv, PackBytes, SameFlights, AckOne, PackedQueue.Pop, ChannelQueue.Contents, ChannelQueue.Valid;
      hide ChannelQueue.Cfg;
      if id in inFlight {
        var bufferId := BufferIdAt(inFlight[id].buffer).value.number;
        raised := id != bufferId;
        if !raised {
          raised := Land(id);
        }
      }
    }

    /** A batch of acks, whatever ids it names. */
    method Rcv(acks: seq<nat>) returns (raised: bool)
      requires Valid()
      modifies this`inFlight, this`w, queue, queue.tracker
      ensures !raised && Valid() && Fine(w) == AckAll(old(w), acks)
    {
      hide WriterInv, SameFlights, AckOne, ChannelQueue.Contents, ChannelQueue.Valid;
      raised := false;
      var i := 0;
      while i < |acks| && !raised
        invariant i <= |acks| && !raised && Valid()
        invariant AckAll(w, acks[i..]) == AckAll(old(w), acks)
      {
        raised := Acknowledge(acks[i]);
        i := i + 1;
      }
    }
  }
}
