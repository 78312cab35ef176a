/** Remote channels: the transfer protocol over the shared peer link, data one way and acks
    the other, on bytes. For each channel the link is lossless and keeps order, so the
    system refines the protocol over FIFO links, and all accepted buffers get through. */
module RemoteLink {
  import opened Wrappers
  import opened Varint
  import opened Framing
  import opened SendQueue
  import opened Dispatcher
  import opened Protocol
  import opened LosslessLink
  import opened Multiplexing
  import opened MuxPipe

  /** The encoding of acks, which is only known to round-trip. */
  datatype Codec = Codec(encode: Ack -> ByteString, decode: ByteString -> Option<Ack>)

  ghost predicate RoundTrips(k: Codec) {
    forall a :: k.decode(k.encode(a)) == Some(a)
  }

  /** The channels with their writers and readers, the pipes for data and acks, and the
      output queue with its record. */
  datatype Remote = Remote(
    chans: seq<Channel<ByteString>>,
    data: Mux,
    acks: Mux,
    out: seq<(nat, ByteString)>,
    outCap: nat,
    tape: seq<(nat, ByteString)>,
    numRead: nat)

  datatype RemoteAction =
    | RemoteOffer(c: nat, payload: ByteString)
    | RemoteSend(c: nat)
    | MoveData(a: MuxAction)
    | RemoteDeliver(c: nat)
    | MoveAck(a: MuxAction)
    | RemoteAck(c: nat)
    | RemoteConsume

  function Body(b: Buffer<ByteString>): ByteString {
    Encode(b.id) + b.payload
  }

  ghost predicate RemoteShape(r: Remote) {
    && Shape(r.data) && Shape(r.acks) && r.data.names == r.acks.names && |r.chans| == |r.data.names|
  }

  /** The buffer at the end of the data pipe of a channel, taken apart. */
  ghost function Arrived(r: Remote, c: nat): Option<Buffer<ByteString>>
    requires RemoteShape(r) && c < |r.chans|
  {
    if r.data.localSend[c] == [] || !Framed(r.data.localSend[c][0]) then None
    else Some(Unframe(r.data.localSend[c][0]))
  }

  /** The ack at the end of the ack pipe of a channel. */
  ghost function ArrivedAck(k: Codec, r: Remote, c: nat): Option<Ack>
    requires RemoteShape(r) && c < |r.chans|
  {
    if r.acks.localSend[c] == [] then None else DeserializeAck(k.decode, r.acks.localSend[c][0])
  }

  /** Sends wait for room in the pipe, the dispatcher for room in the output queue and for
      its acks. */
  ghost predicate RemoteEnabled(k: Codec, r: Remote, a: RemoteAction)
    requires RemoteShape(r)
  {
    match a
    case RemoteOffer(c, _) => c < |r.chans|
    case RemoteSend(c) =>
      && c < |r.chans| && r.chans[c].queue.index < |r.chans[c].queue.v|
      && |r.data.localRecv[c]| < r.data.size
    case MoveData(b) => CanMove(r.data, b)
    case RemoteDeliver(c) =>
      && c < |r.chans| && Arrived(r, c).Some? && |r.out| < r.outCap && |r.acks.localRecv[c]| < r.acks.size
    case MoveAck(b) => CanMove(r.acks, b)
    case RemoteAck(c) => c < |r.chans| && ArrivedAck(k, r, c).Some?
    case RemoteConsume => r.out != []
  }

  /** The dispatcher's acks enter the ack pipe one after the other. */
  ghost function EnterAcks(k: Codec, m: Mux, c: nat, ids: seq<nat>): Mux
    requires Shape(m) && c < |m.names|
    decreases |ids|
  {
    if ids == [] then m
    else EnterAcks(k, EnterStep(m, c, k.encode(Ack(m.names[c], ids[0]))), c, ids[1..])
  }

  ghost function EnterStep(m: Mux, c: nat, body: ByteString): (m': Mux)
    requires Shape(m) && c < |m.names|
    ensures Shape(m') && m'.names == m.names
  {
    MuxStep(m, Enter(c, body)).m
  }

  ghost function LeaveStep(m: Mux, c: nat): (m': Mux)
    requires Shape(m) && c < |m.names|
    ensures Shape(m') && m'.names == m.names
  {
    MuxStep(m, Leave(c)).m
  }

  /** Whether a delivery kills the dispatcher. */
  ghost predicate RemoteKills(k: Codec, r: Remote, a: RemoteAction)
    requires RemoteShape(r) && RemoteEnabled(k, r, a)
  {
    a.RemoteDeliver? && Overflows(r.chans[a.c].reader, Arrived(r, a.c).value, r.outCap - |r.out|)
  }

  ghost function RemoteStep(k: Codec, r: Remote, a: RemoteAction): Remote
    requires RemoteShape(r) && RemoteEnabled(k, r, a)
  {
    match a
    case RemoteOffer(c, payload) => r.(chans := r.chans[c := PushOn(r.chans[c], payload)])
    case RemoteSend(c) =>
      var ch := r.chans[c];
      r.(chans := r.chans[c := ScheduleOn(ch)], data := EnterStep(r.data, c, Body(ch.queue.v[ch.queue.index])))
    case MoveData(b) => if MuxStep(r.data, b).Running? then r.(data := MuxStep(r.data, b).m) else r
    case RemoteDeliver(c) =>
      var b, room := Arrived(r, c).value, r.outCap - |r.out|;
      var (ch, out) := ReceiveOn(r.chans[c], b, room);
      r.(chans := r.chans[c := ch],
         data := LeaveStep(r.data, c),
         acks := EnterAcks(k, r.acks, c, Dispatch(r.chans[c].reader, b, room).acks),
         out := r.out + Tagged(c, out),
         tape := r.tape + Tagged(c, out))
    case MoveAck(b) => if MuxStep(r.acks, b).Running? then r.(acks := MuxStep(r.acks, b).m) else r
    case RemoteAck(c) =>
      (match AckOn(r.chans[c], ArrivedAck(k, r, c).value.bufferId)
       case None => r
       case Some(ch) => r.(chans := r.chans[c := ch], acks := LeaveStep(r.acks, c)))
    case RemoteConsume => r.(out := r.out[1..], numRead := r.numRead + 1)
  }

  // ------------------------------------------------------------------ the simulation

  ghost function Frames(name: ByteString, bs: seq<Buffer<ByteString>>): (r: seq<ByteString>)
    requires |name| <= CHANNEL_ID_META_BYTES_LENGTH
    ensures |r| == |bs| && forall i | 0 <= i < |bs| :: r[i] == Frame(name, bs[i].id, bs[i].payload)
  {
    seq(|bs|, i requires 0 <= i < |bs| => Frame(name, bs[i].id, bs[i].payload))
  }

  ghost function AckFrames(k: Codec, name: ByteString, ids: seq<nat>): (r: seq<ByteString>)
    requires |name| <= CHANNEL_ID_META_BYTES_LENGTH
    ensures |r| == |ids| && forall i | 0 <= i < |ids| :: r[i] == Header(name) + k.encode(Ack(name, ids[i]))
  {
    seq(|ids|, i requires 0 <= i < |ids| => Header(name) + k.encode(Ack(name, ids[i])))
  }

  /** What channel `c` has in the pipes is what the FIFO links carry. */
  ghost predicate SameLinks(k: Codec, r: Remote, f: FifoSystem<ByteString>, c: nat)
    requires RemoteShape(r) && c < |r.chans| && |f.chans| == |r.chans|
  {
    && f.chans[c].ch == r.chans[c]
    && Pending(r.data, c) == Frames(r.data.names[c], f.chans[c].link)
    && Pending(r.acks, c) == AckFrames(k, r.acks.names[c], f.chans[c].ackLink)
  }

  ghost predicate Simulates(k: Codec, r: Remote, f: FifoSystem<ByteString>) {
    && RemoteShape(r) && MuxInv(r.data) && MuxInv(r.acks) && RoundTrips(k)
    && |f.chans| == |r.chans| && f.out == r.out && f.outCap == r.outCap && f.tape == r.tape && f.numRead == r.numRead
    && forall c | 0 <= c < |r.chans| :: SameLinks(k, r, f, c)
  }

  /** The FIFO step that a remote step is; moves within the pipes are none. */
  ghost function FifoImage(a: RemoteAction): Option<FifoAction<ByteString>> {
    match a
    case RemoteOffer(c, payload) => Some(Offer(c, payload))
    case RemoteSend(c) => Some(Send(c))
    case RemoteDeliver(c) => Some(Deliver(c))
    case RemoteAck(c) => Some(Acknowledge(c))
    case RemoteConsume => Some(Consume)
    case MoveData(_) => None
    case MoveAck(_) => None
  }

  lemma MoveKeepsInv(m: Mux, a: MuxAction)
    requires MuxInv(m) && CanMove(m, a)
    ensures MuxStep(m, a).Running? && MuxInv(MuxStep(m, a).m) && MuxStep(m, a).m.names == m.names
    ensures Shape(MuxStep(m, a).m)
  {
    MuxStepKeeps(m, a);
  }

  lemma MoveSimulates(k: Codec, r: Remote, f: FifoSystem<ByteString>, a: RemoteAction)
    requires Simulates(k, r, f) && (a.MoveData? || a.MoveAck?) && RemoteEnabled(k, r, a)
    ensures Simulates(k, RemoteStep(k, r, a), f)
  {
    hide MuxInv, Pending, MuxStep, CanMove, RoundTrips;
    var m, r' := if a.MoveData? then r.data else r.acks, RemoteStep(k, r, a);
    MoveKeepsInv(m, a.a);
    forall c | 0 <= c < |r.chans|
      ensures SameLinks(k, r', f, c)
    {
      assert SameLinks(k, r, f, c);
      MoveKeepsPending(m, a.a, c);
    }
  }

  /** A step of one channel: it decides which links differ. */
  lemma ReplaceSimulates(k: Codec, r: Remote, f: FifoSystem<ByteString>, c: nat, r': Remote,
                         fc: FifoChannel<ByteString>, out: seq<ByteString>)
    requires Simulates(k, r, f) && c < |r.chans|
    requires RemoteShape(r') && MuxInv(r'.data) && MuxInv(r'.acks) && r'.data.names == r.data.names
    requires r'.chans == r.chans[c := fc.ch] && r'.outCap == r.outCap && r'.numRead == r.numRead
    requires r'.out == r.out + Tagged(c, out) && r'.tape == r.tape + Tagged(c, out)
    requires Pending(r'.data, c) == Frames(r.data.names[c], fc.link)
    requires Pending(r'.acks, c) == AckFrames(k, r.acks.names[c], fc.ackLink)
    requires forall d | 0 <= d < |r.chans| && d != c ::
               Pending(r'.data, d) == Pending(r.data, d) && Pending(r'.acks, d) == Pending(r.acks, d)
    ensures Simulates(k, r', Place(f, c, fc, out))
  {
    hide MuxInv, Pending, Frames, AckFrames, RoundTrips;
    var f' := Place(f, c, fc, out);
    forall d | 0 <= d < |r'.chans|
      ensures SameLinks(k, r', f', d)
    {
      assert SameLinks(k, r, f, d);
    }
  }

  lemma NoOutput(r: Remote, c: nat)
    ensures r.out + Tagged<ByteString>(c, []) == r.out && r.tape + Tagged<ByteString>(c, []) == r.tape
  {
  }

  lemma OfferSimulates(k: Codec, r: Remote, f: FifoSystem<ByteString>, c: nat, payload: ByteString)
    requires Simulates(k, r, f) && RemoteEnabled(k, r, RemoteOffer(c, payload))
    ensures Enabled(f, Offer(c, payload))
    ensures Simulates(k, RemoteStep(k, r, RemoteOffer(c, payload)), FifoStep(f, Offer(c, payload)))
  {
    hide MuxInv, Pending, Frames, AckFrames, RoundTrips;
    assert SameLinks(k, r, f, c);
    NoOutput(r, c);
    ReplaceSimulates(k, r, f, c, RemoteStep(k, r, RemoteOffer(c, payload)),
                     f.chans[c].(ch := PushOn(f.chans[c].ch, payload)), []);
  }

  lemma FrameIs(name: ByteString, b: Buffer<ByteString>)
    requires |name| <= CHANNEL_ID_META_BYTES_LENGTH
    ensures Header(name) + Body(b) == Frame(name, b.id, b.payload)
  {
  }

  lemma FramesAppend(name: ByteString, bs: seq<Buffer<ByteString>>, b: Buffer<ByteString>)
    requires |name| <= CHANNEL_ID_META_BYTES_LENGTH
    ensures Frames(name, bs + [b]) == Frames(name, bs) + [Header(name) + Body(b)]
  {
    FrameIs(name, b);
    hide Header, Frame;
  }

  lemma AckFramesAppend(k: Codec, name: ByteString, ids: seq<nat>, id: nat)
    requires |name| <= CHANNEL_ID_META_BYTES_LENGTH
    ensures AckFrames(k, name, ids + [id]) == AckFrames(k, name, ids) + [Header(name) + k.encode(Ack(name, id))]
  {
  }

  lemma SendSimulates(k: Codec, r: Remote, f: FifoSystem<ByteString>, c: nat)
    requires Simulates(k, r, f) && RemoteEnabled(k, r, RemoteSend(c))
    ensures Enabled(f, Send(c))
    ensures Simulates(k, RemoteStep(k, r, RemoteSend(c)), FifoStep(f, Send(c)))
  {
    hide MuxInv, Pending, Frames, AckFrames, RoundTrips, MuxStep;
    assert SameLinks(k, r, f, c);
    var b, r' := r.chans[c].queue.v[r.chans[c].queue.index], RemoteStep(k, r, RemoteSend(c));
    forall d | 0 <= d < |r.chans|
      ensures MuxInv(r'.data)
      ensures Pending(r'.data, d) == if d == c then Pending(r.data, c) + [Header(r.data.names[c]) + Body(b)]
                                     else Pending(r.data, d)
    {
      EnterAdds(r.data, c, Body(b), d);
    }
    FramesAppend(r.data.names[c], f.chans[c].link, b);
    NoOutput(r, c);
    hide Header, Body;
    assert MuxInv(r'.data);
    ReplaceSimulates(k, r, f, c, r', SendOn(f.chans[c]), []);
  }

  // ------------------------------------------------------------------ deliveries and acks

  /** The frame at the end of the data pipe is that of the buffer at the head of the link. */
  lemma HeadFrame(k: Codec, r: Remote, f: FifoSystem<ByteString>, c: nat)
    requires Simulates(k, r, f) && c < |r.chans| && r.data.localSend[c] != []
    ensures f.chans[c].link != [] && Arrived(r, c) == Some(f.chans[c].link[0])
    ensures Pending(LeaveStep(r.data, c), c) == Frames(r.data.names[c], f.chans[c].link[1..])
  {
    hide MuxInv, RoundTrips, Pending, MuxStep, Framed, Unframe;
    assert SameLinks(k, r, f, c);
    var name, link := r.data.names[c], f.chans[c].link;
    LeaveTakes(r.data, c, c);
    var head, rest := r.data.localSend[c][0], Pending(LeaveStep(r.data, c), c);
    assert [head] + rest == Frames(name, link);
    assert |link| == 1 + |rest| && head == Frames(name, link)[0] == Frame(name, link[0].id, link[0].payload);
    assert rest == ([head] + rest)[1..] == Frames(name, link)[1..] == Frames(name, link[1..]);
    Unframed(name, link[0]);
  }

  lemma Unframed(name: ByteString, b: Buffer<ByteString>)
    requires |name| <= CHANNEL_ID_META_BYTES_LENGTH
    ensures Framed(Frame(name, b.id, b.payload)) && Unframe(Frame(name, b.id, b.payload)) == b
  {
    FrameRoundTrip(name, b.id, b.payload);
  }

  lemma DeliverSimulates(k: Codec, r: Remote, f: FifoSystem<ByteString>, c: nat)
    requires Simulates(k, r, f) && AllFifo(f) && RemoteEnabled(k, r, RemoteDeliver(c))
    requires !RemoteKills(k, r, RemoteDeliver(c))
    ensures Enabled(f, Deliver(c)) && !Kills(f, Deliver(c))
    ensures Simulates(k, RemoteStep(k, r, RemoteDeliver(c)), FifoStep(f, Deliver(c)))
  {
    hide MuxInv, RoundTrips, Pending, MuxStep, Framed, Unframe, Frames, AckFrames, FifoInv;
    hide ReceiveOn, Dispatch, Overflows, Delivered, DeliverOn;
    assert SameLinks(k, r, f, c);
    HeadFrame(k, r, f, c);
    var fc, room, r' := f.chans[c], r.outCap - |r.out|, RemoteStep(k, r, RemoteDeliver(c));
    DeliversAs(fc, room);
    DeliverPipes(k, r, c, |fc.ch.delivered|, r');
    AckFramesAppend(k, r.acks.names[c], fc.ackLink, |fc.ch.delivered|);
    hide Header;
    ReplaceSimulates(k, r, f, c, r', Delivered(fc), [fc.link[0].payload]);
  }

  /** What a delivery does to the channel, without the links. */
  lemma DeliversAs(fc: FifoChannel<ByteString>, room: nat)
    requires FifoInv(fc) && fc.link != [] && room > 0 && !Overflows(fc.ch.reader, fc.link[0], room)
    ensures Dispatch(fc.ch.reader, fc.link[0], room).acks == [|fc.ch.delivered|]
    ensures ReceiveOn(fc.ch, fc.link[0], room) == (Delivered(fc).ch, [fc.link[0].payload])
    ensures DeliverOn(fc, room) == Delivered(fc)
    ensures Delivered(fc).link == fc.link[1..] && Delivered(fc).ackLink == fc.ackLink + [|fc.ch.delivered|]
  {
    HeadKillsIff(fc, room);
    hide FifoInv, Overflows, ReceiveOn, Dispatch;
    DispatchHead(fc, room);
    DeliverIs(fc, room);
    ReceivedChannel(fc, room);
  }

  lemma ReceivedChannel(fc: FifoChannel<ByteString>, room: nat)
    requires fc.link != [] && DeliverOn(fc, room) == Delivered(fc)
    ensures ReceiveOn(fc.ch, fc.link[0], room).0 == Delivered(fc).ch
  {
    hide ReceiveOn, Dispatch;
  }

  /** What a delivery with one ack does to the pipes. */
  lemma DeliverPipes(k: Codec, r: Remote, c: nat, id: nat, r': Remote)
    requires RemoteShape(r) && MuxInv(r.data) && MuxInv(r.acks) && c < |r.chans|
    requires r.data.localSend[c] != [] && |r.acks.localRecv[c]| < r.acks.size
    requires r'.data == LeaveStep(r.data, c) && r'.acks == EnterAcks(k, r.acks, c, [id])
    ensures MuxInv(r'.data) && MuxInv(r'.acks) && Shape(r'.data) && Shape(r'.acks)
    ensures r'.data.names == r'.acks.names == r.data.names
    ensures Pending(r'.acks, c) == Pending(r.acks, c) + [Header(r.acks.names[c]) + k.encode(Ack(r.acks.names[c], id))]
    ensures forall d | 0 <= d < |r.chans| && d != c ::
              Pending(r'.data, d) == Pending(r.data, d) && Pending(r'.acks, d) == Pending(r.acks, d)
  {
    hide MuxInv, Pending, MuxStep;
    var body := k.encode(Ack(r.acks.names[c], id));
    OneAck(k, r.acks, c, id);
    LeaveTakes(r.data, c, c);
    EnterAdds(r.acks, c, body, c);
    forall d | 0 <= d < |r.chans| && d != c
      ensures Pending(r'.data, d) == Pending(r.data, d) && Pending(r'.acks, d) == Pending(r.acks, d)
    {
      LeaveTakes(r.data, c, d);
      EnterAdds(r.acks, c, body, d);
    }
  }

  lemma OneAck(k: Codec, m: Mux, c: nat, id: nat)
    requires Shape(m) && c < |m.names|
    ensures EnterAcks(k, m, c, [id]) == EnterStep(m, c, k.encode(Ack(m.names[c], id)))
  {
    hide EnterStep;
    assert [id][1..] == [];
  }

  /** The ack at the end of the ack pipe is the oldest on the link. */
  lemma HeadAck(k: Codec, r: Remote, f: FifoSystem<ByteString>, c: nat)
    requires Simulates(k, r, f) && c < |r.chans| && r.acks.localSend[c] != []
    ensures f.chans[c].ackLink != [] && ArrivedAck(k, r, c) == Some(Ack(r.acks.names[c], f.chans[c].ackLink[0]))
    ensures Pending(LeaveStep(r.acks, c), c) == AckFrames(k, r.acks.names[c], f.chans[c].ackLink[1..])
  {
    hide MuxInv, Pending, MuxStep, Header, DeserializeAck;
    assert SameLinks(k, r, f, c);
    var name, link := r.acks.names[c], f.chans[c].ackLink;
    LeaveTakes(r.acks, c, c);
    var head, rest := r.acks.localSend[c][0], Pending(LeaveStep(r.acks, c), c);
    assert [head] + rest == AckFrames(k, name, link);
    assert |link| == 1 + |rest| && head == AckFrames(k, name, link)[0];
    assert rest == ([head] + rest)[1..] == AckFrames(k, name, link)[1..] == AckFrames(k, name, link[1..]);
    AckRoundTrip(k.encode, k.decode, Ack(name, link[0]));
  }

  lemma AckSimulates(k: Codec, r: Remote, f: FifoSystem<ByteString>, c: nat)
    requires Simulates(k, r, f) && AllFifo(f) && RemoteEnabled(k, r, RemoteAck(c))
    ensures Enabled(f, Acknowledge(c))
    ensures Simulates(k, RemoteStep(k, r, RemoteAck(c)), FifoStep(f, Acknowledge(c)))
  {
    hide MuxInv, RoundTrips, Pending, MuxStep, Frames, AckFrames, FifoInv, AckOn;
    assert SameLinks(k, r, f, c);
    HeadAck(k, r, f, c);
    AcknowledgeKeeps(f.chans[c]);
    var r' := RemoteStep(k, r, RemoteAck(c));
    LeaveTakes(r.acks, c, c);
    forall d | 0 <= d < |r.chans| && d != c
      ensures Pending(r'.acks, d) == Pending(r.acks, d)
    {
      LeaveTakes(r.acks, c, d);
    }
    NoOutput(r, c);
    ReplaceSimulates(k, r, f, c, r', AcknowledgeOn(f.chans[c]), []);
  }

  lemma ConsumeSimulates(k: Codec, r: Remote, f: FifoSystem<ByteString>)
    requires Simulates(k, r, f) && RemoteEnabled(k, r, RemoteConsume)
    ensures Enabled(f, Consume) && Simulates(k, RemoteStep(k, r, RemoteConsume), FifoStep(f, Consume))
  {
    hide MuxInv, RoundTrips, Pending, Frames, AckFrames;
    var r', f' := RemoteStep(k, r, RemoteConsume), FifoStep(f, Consume);
    forall c | 0 <= c < |r.chans|
      ensures SameLinks(k, r', f', c)
    {
      assert SameLinks(k, r, f, c);
    }
  }

  /** Every remote step is a step over FIFO links, or none that shows there. */
  lemma StepSimulates(k: Codec, r: Remote, f: FifoSystem<ByteString>, a: RemoteAction)
    requires Simulates(k, r, f) && AllFifo(f) && RemoteEnabled(k, r, a) && !RemoteKills(k, r, a)
    ensures match FifoImage(a)
            case None => Simulates(k, RemoteStep(k, r, a), f)
            case Some(b) =>
              Enabled(f, b) && !Kills(f, b) && Simulates(k, RemoteStep(k, r, a), FifoStep(f, b))
  {
    hide Simulates, AllFifo, RemoteStep, FifoStep, RemoteEnabled, RemoteKills, Enabled;
    match a
    case RemoteOffer(c, payload) => OfferSimulates(k, r, f, c, payload);
    case RemoteSend(c) => SendSimulates(k, r, f, c);
    case MoveData(_) => MoveSimulates(k, r, f, a);
    case RemoteDeliver(c) => DeliverSimulates(k, r, f, c);
    case MoveAck(_) => MoveSimulates(k, r, f, a);
    case RemoteAck(c) => AckSimulates(k, r, f, c);
    case RemoteConsume => ConsumeSimulates(k, r, f);
  }
}
