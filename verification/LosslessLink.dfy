/** The protocol over links that keep order and lose nothing, as between a writer and a
    reader on one node.  Every such run is a run of the general protocol; in addition
    nothing is ever out of order, and all accepted buffers get through. */
module LosslessLink {
  import opened Wrappers
  import opened SendQueue
  import opened Dispatcher
  import opened Protocol
  import opened ProtocolTheorems

  /** A channel together with the order of what its two links carry. */
  datatype FifoChannel<+P(==)> = FifoChannel(ch: Channel<P>, link: seq<Buffer<P>>, ackLink: seq<nat>)

  datatype FifoSystem<+P(==)> = FifoSystem(
    chans: seq<FifoChannel<P>>,
    out: seq<(nat, P)>,
    outCap: nat,
    tape: seq<(nat, P)>,
    numRead: nat)

  datatype FifoAction<+P> =
    | Offer(c: nat, payload: P)
    | Send(c: nat)
    | Deliver(c: nat)
    | Acknowledge(c: nat)
    | Consume

  ghost function Erase<P>(f: FifoSystem<P>): System<P> {
    System(seq(|f.chans|, i requires 0 <= i < |f.chans| => f.chans[i].ch), f.out, f.outCap, f.tape, f.numRead)
  }

  function FifoInit<P(==)>(n: nat, capacity: nat, outCap: nat): FifoSystem<P> {
    FifoSystem(seq(n, _ => FifoChannel(InitChannel(capacity), [], [])), [], outCap, [], 0)
  }

  /** Whether an action makes a difference; an offer always may. */
  ghost predicate Enabled<P>(f: FifoSystem<P>, a: FifoAction<P>) {
    match a
    case Consume => f.out != []
    case Offer(c, _) => c < |f.chans|
    case Send(c) => c < |f.chans| && f.chans[c].ch.queue.index < |f.chans[c].ch.queue.v|
    case Deliver(c) => c < |f.chans| && f.chans[c].link != [] && |f.out| < f.outCap
    case Acknowledge(c) => c < |f.chans| && f.chans[c].ackLink != []
  }

  ghost function SendOn<P>(fc: FifoChannel<P>): FifoChannel<P>
    requires fc.ch.queue.index < |fc.ch.queue.v|
  {
    FifoChannel(ScheduleOn(fc.ch), fc.link + [fc.ch.queue.v[fc.ch.queue.index]], fc.ackLink)
  }

  ghost function DeliverOn<P>(fc: FifoChannel<P>, room: nat): FifoChannel<P>
    requires fc.link != []
  {
    FifoChannel(
      ReceiveOn(fc.ch, fc.link[0], room).0,
      fc.link[1..],
      fc.ackLink + Dispatch(fc.ch.reader, fc.link[0], room).acks)
  }

  ghost function AcknowledgeOn<P>(fc: FifoChannel<P>): FifoChannel<P>
    requires fc.ackLink != []
  {
    match AckOn(fc.ch, fc.ackLink[0])
    case None => fc
    case Some(ch) => FifoChannel(ch, fc.link, fc.ackLink[1..])
  }

  ghost function Place<P>(f: FifoSystem<P>, c: nat, fc: FifoChannel<P>, out: seq<P>): FifoSystem<P>
    requires c < |f.chans|
  {
    f.(chans := f.chans[c := fc], out := f.out + Tagged(c, out), tape := f.tape + Tagged(c, out))
  }

  ghost function FifoStep<P>(f: FifoSystem<P>, a: FifoAction<P>): FifoSystem<P>
    requires Enabled(f, a)
  {
    match a
    case Consume => f.(out := f.out[1..], numRead := f.numRead + 1)
    case Offer(c, payload) => Place(f, c, f.chans[c].(ch := PushOn(f.chans[c].ch, payload)), [])
    case Send(c) => Place(f, c, SendOn(f.chans[c]), [])
    case Acknowledge(c) => Place(f, c, AcknowledgeOn(f.chans[c]), [])
    case Deliver(c) =>
      var room := f.outCap - |f.out|;
      Place(f, c, DeliverOn(f.chans[c], room), ReceiveOn(f.chans[c].ch, f.chans[c].link[0], room).1)
  }

  /** Whether an action kills the dispatcher. */
  ghost predicate Kills<P>(f: FifoSystem<P>, a: FifoAction<P>)
    requires Enabled(f, a)
  {
    a.Deliver? && Overflows(f.chans[a.c].ch.reader, f.chans[a.c].link[0], f.outCap - |f.out|)
  }

  // ------------------------------------------------------------------ invariant

  /** The links carry exactly the ids between delivery and scheduling, and between
      popping and delivery, in order; nothing is out of order. */
  ghost predicate LinkInv<P>(fc: FifoChannel<P>) {
    var ch := fc.ch;
    var D := |ch.delivered|;
    && 0 <= ch.popped <= D <= ch.scheduled <= |ch.accepted|
    && ch.reader.held == map[] && ch.queue.pops == {}
    && ch.data == multiset(fc.link) && ch.acks == multiset(fc.ackLink)
    && |fc.link| == ch.scheduled - D
    && (forall i | 0 <= i < |fc.link| :: fc.link[i] == Buffer(D + i, ch.accepted[D + i]))
    && |fc.ackLink| == D - ch.popped
    && (forall i | 0 <= i < |fc.ackLink| :: fc.ackLink[i] == ch.popped + i)
  }

  ghost predicate FifoInv<P>(fc: FifoChannel<P>) {
    ChannelInv(fc.ch) && LinkInv(fc) && |fc.ch.delivered| < ID_LIMIT
  }

  /** Steps a channel still needs: four for a queued buffer (send, deliver, consume,
      acknowledge), three for one on the link, one for an ack. */
  ghost function ChannelRank<P>(fc: FifoChannel<P>): int {
    4 * (|fc.ch.queue.v| - fc.ch.queue.index) + 3 * |fc.link| + |fc.ackLink|
  }

  lemma OfferKeeps<P>(fc: FifoChannel<P>, payload: P)
    requires FifoInv(fc)
    ensures FifoInv(fc.(ch := PushOn(fc.ch, payload)))
  {
    PushKeeps(fc.ch, payload);
  }

  lemma SendKeeps<P>(fc: FifoChannel<P>)
    requires FifoInv(fc) && fc.ch.queue.index < |fc.ch.queue.v|
    ensures FifoInv(SendOn(fc)) && ChannelRank(SendOn(fc)) == ChannelRank(fc) - 1
    ensures SendOn(fc).ch.delivered == fc.ch.delivered
  {
    ScheduleKeeps(fc.ch);
  }

  /** The channel once the buffer at the head of the link has gone straight to the
      output queue and been acknowledged. */
  ghost function Delivered<P>(fc: FifoChannel<P>): FifoChannel<P>
    requires fc.link != []
  {
    var D := |fc.ch.delivered|;
    FifoChannel(
      fc.ch.(data := fc.ch.data - multiset{fc.link[0]},
             reader := Reader(D, map[]),
             acks := fc.ch.acks + multiset{D},
             delivered := fc.ch.delivered + [fc.link[0].payload]),
      fc.link[1..],
      fc.ackLink + [D])
  }

  lemma DispatchHead<P>(fc: FifoChannel<P>, room: nat)
    requires FifoInv(fc) && fc.link != [] && room > 0 && |fc.ch.delivered| < ID_LIMIT - 1
    ensures Dispatch(fc.ch.reader, fc.link[0], room)
            == Dispatched(Reader(|fc.ch.delivered|, map[]), [fc.link[0].payload], [|fc.ch.delivered|])
  {
    hide ChannelInv;
    var b, D := fc.link[0], |fc.ch.delivered|;
    ReaderIs(fc);
    DispatchNew(fc.ch.reader, b, room);
    HeadDrains(b, room);
    hide Dispatch, Drain, Without;
    assert fc.ch.reader.held[b.id as int := b] == map[b.id as int := b];
  }

  lemma ReaderIs<P>(fc: FifoChannel<P>)
    requires FifoInv(fc)
    ensures fc.ch.reader == Reader(|fc.ch.delivered| - 1, map[])
  {
  }

  lemma HeadDrains<P>(b: Buffer<P>, room: nat)
    requires room > 0
    ensures var held := map[b.id as int := b];
            Drain(held, b.id, room) == [b] && Without(held, b.id, b.id + 1) == map[]
  {
    var held := map[b.id as int := b];
    assert Drain(held, b.id + 1, room - 1) == [];
  }

  /** Delivering the head of the link kills the dispatcher exactly if its id is the last. */
  lemma HeadKillsIff<P>(fc: FifoChannel<P>, room: nat)
    requires FifoInv(fc) && fc.link != [] && room > 0
    ensures Overflows(fc.ch.reader, fc.link[0], room) <==> |fc.ch.delivered| == ID_LIMIT - 1
  {
    hide ChannelInv;
    var b := fc.link[0];
    ReaderIs(fc);
    HeadDrains(b, room);
    assert AsI32(b.id) == b.id;
    hide Drain;
    assert fc.ch.reader.held[b.id as int := b] == map[b.id as int := b];
  }

  lemma HeadLives<P>(fc: FifoChannel<P>, room: nat)
    requires FifoInv(fc) && fc.link != [] && room > 0 && !Overflows(fc.ch.reader, fc.link[0], room)
    ensures |fc.ch.delivered| < ID_LIMIT - 1
  {
    hide Overflows, ChannelInv, LinkInv;
    HeadKillsIff(fc, room);
  }

  lemma DeliverIs<P>(fc: FifoChannel<P>, room: nat)
    requires FifoInv(fc) && fc.link != [] && room > 0 && |fc.ch.delivered| < ID_LIMIT - 1
    ensures DeliverOn(fc, room) == Delivered(fc)
    ensures ReceiveOn(fc.ch, fc.link[0], room).1 == [fc.link[0].payload]
  {
    DispatchHead(fc, room);
    assert multiset([|fc.ch.delivered|]) == multiset{|fc.ch.delivered|};
  }

  lemma DeliverKeepsLink<P>(fc: FifoChannel<P>)
    requires LinkInv(fc) && fc.link != []
    ensures LinkInv(Delivered(fc)) && ChannelRank(Delivered(fc)) == ChannelRank(fc) - 2
  {
    TailBag(fc.link);
    var D := |fc.ch.delivered|;
    assert multiset(fc.ackLink + [D]) == multiset(fc.ackLink) + multiset{D};
    forall i | 0 <= i < |fc.link| - 1
      ensures fc.link[1..][i] == Buffer(D + 1 + i, fc.ch.accepted[D + 1 + i])
    {
      assert fc.link[1..][i] == fc.link[i + 1];
    }
  }

  lemma TailBag<T>(s: seq<T>)
    requires s != []
    ensures multiset(s) - multiset{s[0]} == multiset(s[1..])
  {
    assert s == [s[0]] + s[1..];
  }

  lemma DeliverKeeps<P>(fc: FifoChannel<P>, room: nat)
    requires FifoInv(fc) && fc.link != [] && room > 0 && |fc.ch.delivered| < ID_LIMIT - 1
    ensures FifoInv(DeliverOn(fc, room)) && ChannelRank(DeliverOn(fc, room)) == ChannelRank(fc) - 2
  {
    DeliverIs(fc, room);
    DeliverKeepsLink(fc);
    assert fc.link[0] in fc.ch.data;
    ReceiveKeeps(fc.ch, fc.link[0], room);
  }

  lemma AcknowledgeIs<P>(fc: FifoChannel<P>)
    requires FifoInv(fc) && fc.ackLink != []
    ensures var q := fc.ch.queue;
            PopRequested(q, fc.ackLink[0]) == Some(q.(v := q.v[1..], index := q.index - 1)) && |q.v| > 0 && q.index > 0
  {
    var q, id := fc.ch.queue, fc.ackLink[0];
    var q' := q.(v := q.v[1..], pops := {}, index := q.index - 1);
    assert q.v[0].id == id && q.pops + {id} == {id} && {id} - {id} == {};
    assert PopAcked(q') == Some(q');
  }

  lemma AcknowledgeKeeps<P>(fc: FifoChannel<P>)
    requires FifoInv(fc) && fc.ackLink != []
    ensures AckOn(fc.ch, fc.ackLink[0]).Some?
    ensures FifoInv(AcknowledgeOn(fc)) && ChannelRank(AcknowledgeOn(fc)) == ChannelRank(fc) - 1
    ensures AcknowledgeOn(fc).ch.delivered == fc.ch.delivered
  {
    assert fc.ackLink[0] in fc.ch.acks;
    AckKeeps(fc.ch, fc.ackLink[0]);
    AcknowledgeIs(fc);
    TailBag(fc.ackLink);
  }

  // ------------------------------------------------------------------ the system

  ghost predicate AllFifo<P>(f: FifoSystem<P>) {
    && |f.out| <= f.outCap
    && (forall c | 0 <= c < |f.chans| :: FifoInv(f.chans[c]))
  }

  /** Every channel has accepted fewer than 2^31 buffers. */
  ghost predicate SmallIds<P>(f: FifoSystem<P>) {
    forall c | 0 <= c < |f.chans| :: |f.chans[c].ch.accepted| < ID_LIMIT
  }

  /** Then no step kills the dispatcher. */
  lemma NothingKills<P>(f: FifoSystem<P>, a: FifoAction<P>)
    requires AllFifo(f) && SmallIds(f) && Enabled(f, a)
    ensures !Kills(f, a)
  {
    hide Overflows;
    if a.Deliver? {
      HeadKillsIff(f.chans[a.c], f.outCap - |f.out|);
    }
  }

  ghost function SumRank<P>(s: seq<FifoChannel<P>>): int {
    if s == [] then 0 else SumRank(s[..|s| - 1]) + ChannelRank(s[|s| - 1])
  }

  /** The number of steps, other than offers, that the system can still take. */
  ghost function Rank<P>(f: FifoSystem<P>): int {
    SumRank(f.chans) + |f.out|
  }

  lemma {:induction false} SumRankUpdate<P>(s: seq<FifoChannel<P>>, c: nat, x: FifoChannel<P>)
    requires c < |s|
    ensures SumRank(s[c := x]) == SumRank(s) - ChannelRank(s[c]) + ChannelRank(x)
    decreases |s|
  {
    var n := |s| - 1;
    if c == n {
      assert s[c := x][..n] == s[..n];
    } else {
      assert s[c := x][..n] == s[..n][c := x];
      SumRankUpdate(s[..n], c, x);
    }
  }

  lemma {:induction false} SumRankPositive<P>(s: seq<FifoChannel<P>>)
    requires forall c | 0 <= c < |s| :: ChannelRank(s[c]) >= 0
    ensures SumRank(s) >= 0
    ensures SumRank(s) > 0 <==> exists c :: 0 <= c < |s| && ChannelRank(s[c]) > 0
    decreases |s|
  {
    if s != [] {
      var n := |s| - 1;
      SumRankPositive(s[..n]);
      if c :| 0 <= c < n && ChannelRank(s[..n][c]) > 0 {
        assert ChannelRank(s[c]) > 0;
      }
      if c :| 0 <= c < |s| && ChannelRank(s[c]) > 0 {
        if c < n {
          assert ChannelRank(s[..n][c]) > 0;
        }
      }
    }
  }

  lemma PlaceKeeps<P>(f: FifoSystem<P>, c: nat, fc: FifoChannel<P>, out: seq<P>)
    requires AllFifo(f) && c < |f.chans| && FifoInv(fc) && |f.out| + |out| <= f.outCap
    ensures AllFifo(Place(f, c, fc, out))
    ensures Rank(Place(f, c, fc, out)) == Rank(f) - ChannelRank(f.chans[c]) + ChannelRank(fc) + |out|
  {
    SumRankUpdate(f.chans, c, fc);
  }

  lemma DeliverPlaces<P>(f: FifoSystem<P>, c: nat)
    requires AllFifo(f) && Enabled(f, Deliver(c)) && !Kills(f, Deliver(c))
    ensures FifoStep(f, Deliver(c)) == Place(f, c, Delivered(f.chans[c]), [f.chans[c].link[0].payload])
    ensures FifoInv(Delivered(f.chans[c]))
    ensures ChannelRank(Delivered(f.chans[c])) == ChannelRank(f.chans[c]) - 2
  {
    hide FifoInv, ReceiveOn, DeliverOn, Delivered, ChannelRank, Overflows;
    HeadLives(f.chans[c], f.outCap - |f.out|);
    DeliverIs(f.chans[c], f.outCap - |f.out|);
    DeliverKeeps(f.chans[c], f.outCap - |f.out|);
  }

  lemma DeliverLowersRank<P>(f: FifoSystem<P>, c: nat, f': FifoSystem<P>)
    requires AllFifo(f) && Enabled(f, Deliver(c))
    requires f' == Place(f, c, Delivered(f.chans[c]), [f.chans[c].link[0].payload])
    requires FifoInv(Delivered(f.chans[c]))
    requires ChannelRank(Delivered(f.chans[c])) == ChannelRank(f.chans[c]) - 2
    ensures AllFifo(f') && Rank(f') == Rank(f) - 1
  {
    PlaceKeeps(f, c, Delivered(f.chans[c]), [f.chans[c].link[0].payload]);
  }

  /** Every step other than an offer lowers the rank by exactly one and keeps the links
      in order. */
  lemma StepLowersRank<P>(f: FifoSystem<P>, a: FifoAction<P>)
    requires AllFifo(f) && Enabled(f, a) && !Kills(f, a) && !a.Offer?
    ensures AllFifo(FifoStep(f, a))
    ensures Rank(FifoStep(f, a)) == Rank(f) - 1
  {
    match a
    case Consume =>
    case Send(c) =>
      SendKeeps(f.chans[c]);
      PlaceKeeps(f, c, SendOn(f.chans[c]), []);
    case Acknowledge(c) =>
      AcknowledgeKeeps(f.chans[c]);
      PlaceKeeps(f, c, AcknowledgeOn(f.chans[c]), []);
    case Deliver(c) =>
      DeliverPlaces(f, c);
      DeliverLowersRank(f, c, FifoStep(f, a));
  }

  // ------------------------------------------------------------------ runs

  /** `None` as soon as an action is not enabled or kills the dispatcher. */
  ghost function FifoRun<P>(f: FifoSystem<P>, actions: seq<FifoAction<P>>): Option<FifoSystem<P>>
    decreases |actions|
  {
    if actions == [] then Some(f)
    else
      match FifoRun(f, actions[..|actions| - 1])
      case None => None
      case Some(f') =>
        var a := actions[|actions| - 1];
        if Enabled(f', a) && !Kills(f', a) then Some(FifoStep(f', a)) else None
  }

  /** The action of the general protocol that a step over an ordered link is. */
  ghost function Image<P>(f: FifoSystem<P>, a: FifoAction<P>): Action<P>
    requires Enabled(f, a)
  {
    match a
    case Offer(c, payload) => Push(c, payload)
    case Send(c) => Schedule(c)
    case Deliver(c) => Receive(c, f.chans[c].link[0])
    case Acknowledge(c) => AckArrives(c, f.chans[c].ackLink[0])
    case Consume => Read
  }

  lemma EraseReplace<P>(f: FifoSystem<P>, c: nat, fc: FifoChannel<P>, out: seq<P>)
    requires c < |f.chans|
    ensures Erase(Place(f, c, fc, out))
            == Erase(f).(chans := Erase(f).chans[c := fc.ch],
                         out := f.out + Tagged(c, out),
                         tape := f.tape + Tagged(c, out))
  {
    assert Erase(Place(f, c, fc, out)).chans == Erase(f).chans[c := fc.ch];
  }

  lemma QuietErases<P>(f: FifoSystem<P>, c: nat, fc: FifoChannel<P>)
    requires c < |f.chans|
    ensures Erase(Place(f, c, fc, [])) == Erase(f).(chans := Erase(f).chans[c := fc.ch])
  {
    EraseReplace(f, c, fc, []);
    assert f.out + Tagged<P>(c, []) == f.out && f.tape + Tagged<P>(c, []) == f.tape;
  }

  lemma AcknowledgeErases<P>(f: FifoSystem<P>, c: nat)
    requires Enabled(f, Acknowledge(c))
    requires f.chans[c].ackLink[0] in f.chans[c].ch.acks && AckOn(f.chans[c].ch, f.chans[c].ackLink[0]).Some?
    ensures Apply(Erase(f), Image(f, Acknowledge(c))) == Running(Erase(FifoStep(f, Acknowledge(c))))
  {
    assert Erase(f).chans[c] == f.chans[c].ch;
    QuietErases(f, c, AcknowledgeOn(f.chans[c]));
  }

  lemma DeliverErases<P>(f: FifoSystem<P>, c: nat)
    requires Enabled(f, Deliver(c)) && f.chans[c].link[0] in f.chans[c].ch.data
    ensures ReceiveInto(Erase(f), c, f.chans[c].link[0]) == Erase(FifoStep(f, Deliver(c)))
  {
    var room := f.outCap - |f.out|;
    var r := ReceiveOn(f.chans[c].ch, f.chans[c].link[0], room);
    assert Erase(f).chans[c] == f.chans[c].ch;
    assert ReceiveInto(Erase(f), c, f.chans[c].link[0]) == Emit(Erase(f), c, r.0, r.1);
    EraseReplace(f, c, DeliverOn(f.chans[c], room), r.1);
  }

  /** A step over an ordered link is a step of the general protocol, which panics exactly if
      the step kills the dispatcher. */
  lemma StepErases<P>(f: FifoSystem<P>, a: FifoAction<P>)
    requires AllFifo(f) && Enabled(f, a)
    ensures Apply(Erase(f), Image(f, a)) == if Kills(f, a) then Panic else Running(Erase(FifoStep(f, a)))
  {
    hide ChannelInv, ReceiveInto, AckOn, Overflows;
    match a
    case Consume =>
    case Offer(c, payload) => QuietErases(f, c, f.chans[c].(ch := PushOn(f.chans[c].ch, payload)));
    case Send(c) => QuietErases(f, c, SendOn(f.chans[c]));
    case Acknowledge(c) =>
      AcknowledgeKeeps(f.chans[c]);
      assert f.chans[c].ackLink[0] in f.chans[c].ch.acks;
      AcknowledgeErases(f, c);
    case Deliver(c) =>
      assert f.chans[c].link[0] in f.chans[c].ch.data;
      DeliverErases(f, c);
  }

  lemma OfferKeepsAll<P>(f: FifoSystem<P>, c: nat, payload: P)
    requires AllFifo(f) && c < |f.chans|
    ensures AllFifo(FifoStep(f, Offer(c, payload)))
  {
    OfferKeeps(f.chans[c], payload);
  }

  lemma StepKeepsFifo<P>(f: FifoSystem<P>, a: FifoAction<P>)
    requires AllFifo(f) && Enabled(f, a) && !Kills(f, a)
    ensures AllFifo(FifoStep(f, a))
  {
    if a.Offer? {
      OfferKeepsAll(f, a.c, a.payload);
    } else {
      StepLowersRank(f, a);
    }
  }

  /** Every run over ordered links that does not kill the dispatcher is a run of the general
      protocol, so all its guarantees hold here too; moreover the links stay in order and
      nothing is ever held back. */
  lemma {:induction false} FifoRefines<P>(n: nat, capacity: nat, outCap: nat, actions: seq<FifoAction<P>>,
                                          f: FifoSystem<P>)
    returns (bs: seq<Action<P>>)
    requires FifoRun(FifoInit<P>(n, capacity, outCap), actions) == Some(f)
    ensures Run(Init<P>(n, capacity, outCap), bs) == Running(Erase(f)) && AllFifo(f)
    decreases |actions|
  {
    var f0 := FifoInit<P>(n, capacity, outCap);
    if actions == [] {
      assert Erase(f0) == Init<P>(n, capacity, outCap);
      bs := [];
    } else {
      var front, a := actions[..|actions| - 1], actions[|actions| - 1];
      var before := FifoRun(f0, front).value;
      hide FifoInv, FifoStep, Erase, Apply;
      bs := FifoRefines(n, capacity, outCap, front, before);
      StepErases(before, a);
      StepKeepsFifo(before, a);
      var more := bs + [Image(before, a)];
      assert more[..|more| - 1] == bs;
      bs := more;
    }
  }

  lemma FifoShape<P>(n: nat, capacity: nat, outCap: nat, actions: seq<FifoAction<P>>, f: FifoSystem<P>)
    requires FifoRun(FifoInit<P>(n, capacity, outCap), actions) == Some(f)
    ensures AllFifo(f) && TapeInv(Erase(f)) && |f.chans| == n && f.outCap == outCap
  {
    hide FifoInv, FifoRun, Run;
    var bs := FifoRefines(n, capacity, outCap, actions, f);
    RunKeepsShape(n, capacity, outCap, bs, Erase(f));
  }

  /** What is on the output queue's record of a channel are the accepted payloads up to the
      watermark, and nothing is held. */
  lemma FifoDelivers<P>(f: FifoSystem<P>, c: nat)
    requires AllFifo(f) && TapeInv(Erase(f)) && c < |f.chans|
    ensures f.numRead <= |f.tape| && f.out == f.tape[f.numRead..]
    ensures var ch := f.chans[c].ch;
            && ch.reader.held == map[] && -1 <= ch.reader.watermark < |ch.accepted|
            && Of(f.tape, c) == ch.accepted[..ch.reader.watermark + 1]
            && Of(f.tape[..f.numRead], c) <= ch.accepted
  {
    hide WriterInv, AckInv, Of;
    assert Erase(f).chans[c] == f.chans[c].ch && FifoInv(f.chans[c]);
    assert f.tape == f.tape[..f.numRead] + f.out;
    OfConcat(f.tape[..f.numRead], f.out, c);
  }

  // ------------------------------------------------------------------ progress

  lemma ChannelDone<P>(fc: FifoChannel<P>)
    requires FifoInv(fc)
    ensures ChannelRank(fc) >= 0
    ensures ChannelRank(fc) == 0 ==> fc.ch.queue.v == [] && fc.ch.delivered == fc.ch.accepted
    ensures ChannelRank(fc) > 0 ==>
              fc.ch.queue.index < |fc.ch.queue.v| || fc.link != [] || fc.ackLink != []
  {
  }

  lemma RankNonNegative<P>(f: FifoSystem<P>)
    requires AllFifo(f)
    ensures Rank(f) >= 0 && SumRank(f.chans) >= 0
    ensures SumRank(f.chans) > 0 <==> exists c :: 0 <= c < |f.chans| && ChannelRank(f.chans[c]) > 0
  {
    forall c | 0 <= c < |f.chans|
      ensures ChannelRank(f.chans[c]) >= 0
    {
      ChannelDone(f.chans[c]);
    }
    SumRankPositive(f.chans);
  }

  /** While the rank is positive and the output queue can hold anything at all, some step
      other than an offer is possible. */
  lemma SomeStepEnabled<P>(f: FifoSystem<P>) returns (a: FifoAction<P>)
    requires AllFifo(f) && SmallIds(f) && f.outCap > 0 && Rank(f) > 0
    ensures !a.Offer? && Enabled(f, a) && !Kills(f, a)
  {
    hide FifoInv, Kills, ChannelRank, SumRank;
    if f.out != [] {
      a := Consume;
    } else {
      RankNonNegative(f);
      var c :| 0 <= c < |f.chans| && ChannelRank(f.chans[c]) > 0;
      ChannelDone(f.chans[c]);
      a := if f.chans[c].link != [] then Deliver(c)
           else if f.chans[c].ackLink != [] then Acknowledge(c)
           else Send(c);
    }
    NothingKills(f, a);
  }

  /** At rank zero everything accepted has been delivered and read, and every queue slot
      is free. */
  lemma RankZeroMeansDone<P>(f: FifoSystem<P>, c: nat)
    requires AllFifo(f) && TapeInv(Erase(f)) && Rank(f) == 0 && c < |f.chans|
    ensures f.chans[c].ch.queue.v == []
    ensures f.numRead <= |f.tape|
    ensures Of(f.tape[..f.numRead], c) == f.chans[c].ch.accepted
  {
    RankNonNegative(f);
    ChannelDone(f.chans[c]);
    assert f.tape[..f.numRead] == f.tape;
    assert Erase(f).chans[c] == f.chans[c].ch;
  }

  lemma StepKeepsAccepted<P>(f: FifoSystem<P>, a: FifoAction<P>)
    requires Enabled(f, a) && !a.Offer?
    ensures |FifoStep(f, a).chans| == |f.chans| && FifoStep(f, a).outCap == f.outCap
    ensures forall c | 0 <= c < |f.chans| :: FifoStep(f, a).chans[c].ch.accepted == f.chans[c].ch.accepted
  {
  }

  /** Steps without offers accept nothing, and each uses up one unit of rank. */
  lemma {:induction false} StepsAreBounded<P>(f: FifoSystem<P>, steps: seq<FifoAction<P>>)
    requires AllFifo(f)
    requires forall i | 0 <= i < |steps| :: !steps[i].Offer?
    requires FifoRun(f, steps).Some?
    ensures var f' := FifoRun(f, steps).value;
            && AllFifo(f') && |f'.chans| == |f.chans| && f'.outCap == f.outCap
            && (forall c | 0 <= c < |f.chans| :: f'.chans[c].ch.accepted == f.chans[c].ch.accepted)
            && Rank(f') == Rank(f) - |steps|
    decreases |steps|
  {
    hide FifoInv, FifoStep;
    if steps != [] {
      var front, a := steps[..|steps| - 1], steps[|steps| - 1];
      StepsAreBounded(f, front);
      var f1 := FifoRun(f, front).value;
      StepLowersRank(f1, a);
      StepKeepsAccepted(f1, a);
    }
  }

  lemma {:induction false} RunConcat<P>(f: FifoSystem<P>, s: seq<FifoAction<P>>, t: seq<FifoAction<P>>)
    requires FifoRun(f, s).Some? && FifoRun(FifoRun(f, s).value, t).Some?
    ensures FifoRun(f, s + t) == FifoRun(FifoRun(f, s).value, t)
    decreases |t|
  {
    if t == [] {
      assert s + t == s;
    } else {
      assert (s + t)[..|s + t| - 1] == s + t[..|t| - 1];
      RunConcat(f, s, t[..|t| - 1]);
    }
  }

  /** Over lossless ordered links with an output queue of size at least one: after any run
      in which every channel accepted fewer than 2^31 buffers, any continuation without
      further offers takes at most `Rank` steps; and once it cannot be continued, be it that
      no step is possible or that every possible one kills the dispatcher, every buffer
      accepted on every channel has been delivered and read in order, and every queue slot
      is free. */
  lemma AllBuffersGetThrough<P>(n: nat, capacity: nat, outCap: nat,
                                actions: seq<FifoAction<P>>, f: FifoSystem<P>,
                                steps: seq<FifoAction<P>>, f': FifoSystem<P>)
    requires FifoRun(FifoInit<P>(n, capacity, outCap), actions) == Some(f) && SmallIds(f) && outCap > 0
    requires FifoRun(f, steps) == Some(f') && forall i | 0 <= i < |steps| :: !steps[i].Offer?
    ensures |steps| <= Rank(f)
    ensures (forall a :: Enabled(f', a) && !Kills(f', a) ==> a.Offer?) ==>
              && |steps| == Rank(f)
              && |f.chans| == |f'.chans| == n && f'.numRead <= |f'.tape|
              && forall c | 0 <= c < n ::
                   && f'.chans[c].ch.queue.v == []
                   && Of(f'.tape[..f'.numRead], c) == f'.chans[c].ch.accepted == f.chans[c].ch.accepted
  {
    hide FifoInv, FifoStep, Kills, Enabled;
    FifoShape(n, capacity, outCap, actions, f);
    StepsAreBounded(f, steps);
    RankNonNegative(f');
    if forall a :: Enabled(f', a) && !Kills(f', a) ==> a.Offer? {
      if Rank(f') > 0 {
        var a := SomeStepEnabled(f');
        assert false;
      }
      RunConcat(FifoInit<P>(n, capacity, outCap), actions, steps);
      FifoShape(n, capacity, outCap, actions + steps, f');
      forall c | 0 <= c < n
        ensures f'.chans[c].ch.queue.v == []
        ensures f'.numRead <= |f'.tape|
        ensures Of(f'.tape[..f'.numRead], c) == f'.chans[c].ch.accepted
      {
        RankZeroMeansDone(f', c);
      }
    }
  }
}
