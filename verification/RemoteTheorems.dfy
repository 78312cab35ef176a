/** What every run of remote channels guarantees: everything the protocol over FIFO links
    does, and that all accepted buffers get through the shared link. */
module RemoteTheorems {
  import opened Wrappers
  import opened Varint
  import opened Framing
  import opened SendQueue
  import opened Dispatcher
  import opened Protocol
  import opened LosslessLink
  import opened Multiplexing
  import opened MuxPipe
  import opened RemoteLink

  ghost function RemoteInit(names: seq<ByteString>, capacity: nat, outCap: nat, size: nat): Remote {
    Remote(seq(|names|, _ => InitChannel(capacity)), MuxInit(names, size), MuxInit(names, size), [], outCap, [], 0)
  }

  /** `None` as soon as an action is not enabled or kills the dispatcher. */
  ghost function RemoteRun(k: Codec, r: Remote, actions: seq<RemoteAction>): Option<Remote>
    decreases |actions|
  {
    if actions == [] then Some(r)
    else
      var a := actions[|actions| - 1];
      match RemoteRun(k, r, actions[..|actions| - 1])
      case None => None
      case Some(r') =>
        if RemoteShape(r') && RemoteEnabled(k, r', a) && !RemoteKills(k, r', a)
        then Some(RemoteStep(k, r', a)) else None
  }

  lemma InitSimulates(k: Codec, names: seq<ByteString>, capacity: nat, outCap: nat, size: nat)
    requires GoodNames(names) && RoundTrips(k)
    ensures Simulates(k, RemoteInit(names, capacity, outCap, size), FifoInit<ByteString>(|names|, capacity, outCap))
  {
    var r, f := RemoteInit(names, capacity, outCap, size), FifoInit<ByteString>(|names|, capacity, outCap);
    MuxRunKeeps(names, size, []);
    assert MuxInv(MuxInit(names, size));
    hide MuxInv, RoundTrips, GoodNames;
    forall c | 0 <= c < |names|
      ensures SameLinks(k, r, f, c)
    {
      EmptyPipe(names, size, c);
    }
  }

  lemma EmptyPipe(names: seq<ByteString>, size: nat, c: nat)
    requires Shape(MuxInit(names, size)) && c < |names|
    ensures Pending(MuxInit(names, size), c) == []
  {
    assert Shared(MuxInit(names, size)) == [];
  }

  /** Every run of remote channels is a run over FIFO links with the same channels, output
      queue and record. */
  lemma {:induction false} RemoteRefines(k: Codec, names: seq<ByteString>, capacity: nat, outCap: nat, size: nat,
                                         actions: seq<RemoteAction>, r: Remote)
    returns (fs: seq<FifoAction<ByteString>>, f: FifoSystem<ByteString>)
    requires GoodNames(names) && RoundTrips(k)
    requires RemoteRun(k, RemoteInit(names, capacity, outCap, size), actions) == Some(r)
    ensures FifoRun(FifoInit<ByteString>(|names|, capacity, outCap), fs) == Some(f)
    ensures Simulates(k, r, f) && AllFifo(f)
    decreases |actions|
  {
    hide Simulates, AllFifo, RemoteStep, FifoStep, RemoteEnabled, RemoteKills, Enabled, Kills, RemoteShape;
    var f0 := FifoInit<ByteString>(|names|, capacity, outCap);
    if actions == [] {
      InitSimulates(k, names, capacity, outCap, size);
      fs, f := [], f0;
    } else {
      var front, a := actions[..|actions| - 1], actions[|actions| - 1];
      var before := RemoteRun(k, RemoteInit(names, capacity, outCap, size), front).value;
      fs, f := RemoteRefines(k, names, capacity, outCap, size, front, before);
      StepSimulates(k, before, f, a);
      if FifoImage(a).Some? {
        var more := fs + [FifoImage(a).value];
        assert more[..|more| - 1] == fs;
        fs, f := more, FifoStep(f, FifoImage(a).value);
      }
    }
    FifoShape(|names|, capacity, outCap, fs, f);
  }

  /** What the shared link delivers on a channel is what was accepted, each buffer once and in
      order, up to the watermark; nothing is ever held out of order. */
  lemma RemoteExactlyOnce(k: Codec, names: seq<ByteString>, capacity: nat, outCap: nat, size: nat,
                          actions: seq<RemoteAction>, r: Remote, c: nat)
    requires GoodNames(names) && RoundTrips(k) && c < |names|
    requires RemoteRun(k, RemoteInit(names, capacity, outCap, size), actions) == Some(r)
    ensures |r.chans| == |names| && r.numRead <= |r.tape| && r.out == r.tape[r.numRead..]
    ensures var ch := r.chans[c];
            && ch.reader.held == map[] && -1 <= ch.reader.watermark < |ch.accepted|
            && Of(r.tape, c) == ch.accepted[..ch.reader.watermark + 1]
            && Of(r.tape[..r.numRead], c) <= ch.accepted
  {
    hide Simulates, RemoteRun, FifoRun, AllFifo, TapeInv, Of;
    var fs, f := RemoteRefines(k, names, capacity, outCap, size, actions, r);
    FifoShape(|names|, capacity, outCap, fs, f);
    RelatedChannel(k, r, f, c);
    FifoDelivers(f, c);
  }

  lemma RelatedChannel(k: Codec, r: Remote, f: FifoSystem<ByteString>, c: nat)
    requires Simulates(k, r, f) && c < |f.chans|
    ensures |r.chans| == |f.chans| && r.chans[c] == f.chans[c].ch
    ensures r.tape == f.tape && r.out == f.out && r.numRead == f.numRead && r.outCap == f.outCap
  {
    assert SameLinks(k, r, f, c);
  }

  // ------------------------------------------------------------------ progress

  /** The steps that a channel still needs, but for moves within the pipes. */
  ghost function RemainingSteps(r: Remote, c: nat): int
    requires RemoteShape(r) && c < |r.chans|
  {
    4 * (|r.chans[c].queue.v| - r.chans[c].queue.index) + 3 * |Pending(r.data, c)| + |Pending(r.acks, c)|
  }

  ghost function AllRemaining(r: Remote, n: nat): int
    requires RemoteShape(r) && n <= |r.chans|
  {
    if n == 0 then 0 else AllRemaining(r, n - 1) + RemainingSteps(r, n - 1)
  }

  /** A bound on the steps, other than offers, that the system can still take. */
  ghost function RemoteRank(r: Remote): int
    requires RemoteShape(r)
  {
    20 * (AllRemaining(r, |r.chans|) + |r.out|) + Moves(r.data) + Moves(r.acks)
  }

  lemma {:induction false} RemainingIs(k: Codec, r: Remote, f: FifoSystem<ByteString>, n: nat)
    requires Simulates(k, r, f) && n <= |r.chans|
    ensures AllRemaining(r, n) == SumRank(f.chans[..n])
    decreases n
  {
    hide MuxInv, Pending, RoundTrips;
    if n > 0 {
      RemainingIs(k, r, f, n - 1);
      assert SameLinks(k, r, f, n - 1);
      assert f.chans[..n][..n - 1] == f.chans[..n - 1];
    }
  }

  lemma RankIs(k: Codec, r: Remote, f: FifoSystem<ByteString>)
    requires Simulates(k, r, f)
    ensures RemoteShape(r) && RemoteRank(r) == 20 * Rank(f) + Moves(r.data) + Moves(r.acks)
  {
    RemainingIs(k, r, f, |r.chans|);
    assert f.chans[..|r.chans|] == f.chans;
  }

  /** How much the moves within the pipes change. */
  lemma StepMoves(k: Codec, r: Remote, f: FifoSystem<ByteString>, a: RemoteAction)
    requires Simulates(k, r, f) && AllFifo(f) && RemoteEnabled(k, r, a) && !RemoteKills(k, r, a)
    ensures var r' := RemoteStep(k, r, a);
            && Moves(r'.data) + Moves(r'.acks) <= Moves(r.data) + Moves(r.acks) + 5
            && (FifoImage(a).None? ==> Moves(r'.data) + Moves(r'.acks) == Moves(r.data) + Moves(r.acks) - 1)
            && r'.data.size == r.data.size && r'.acks.size == r.acks.size
  {
    hide Pending, RoundTrips, Moves, AllFifo;
    match a
    case RemoteOffer(c, payload) =>
    case RemoteConsume =>
    case RemoteSend(c) => EnterMoves(r.data, c, Body(r.chans[c].queue.v[r.chans[c].queue.index]));
    case MoveData(b) => MoveLowers(r.data, b);
    case MoveAck(b) => MoveLowers(r.acks, b);
    case RemoteAck(c) => LeaveMoves(r.acks, c);
    case RemoteDeliver(c) => DeliverMoves(k, r, f, c);
  }

  lemma EnterMoves(m: Mux, c: nat, body: ByteString)
    requires Shape(m) && c < |m.names| && |m.localRecv[c]| < m.size
    ensures Moves(EnterStep(m, c, body)) == Moves(m) + 5 && EnterStep(m, c, body).size == m.size
  {
    EnterRaises(m, c, body);
  }

  lemma LeaveMoves(m: Mux, c: nat)
    requires Shape(m) && c < |m.names|
    ensures Moves(LeaveStep(m, c)) == Moves(m) && LeaveStep(m, c).size == m.size
  {
    hide TotalLength;
  }

  lemma DeliverMoves(k: Codec, r: Remote, f: FifoSystem<ByteString>, c: nat)
    requires Simulates(k, r, f) && AllFifo(f) && RemoteEnabled(k, r, RemoteDeliver(c))
    requires !RemoteKills(k, r, RemoteDeliver(c))
    ensures var r' := RemoteStep(k, r, RemoteDeliver(c));
            && Moves(r'.data) == Moves(r.data) && Moves(r'.acks) == Moves(r.acks) + 5
            && r'.data.size == r.data.size && r'.acks.size == r.acks.size
  {
    hide Pending, RoundTrips, Moves, MuxInv, FifoInv, Dispatch, ReceiveOn, Overflows, EnterAcks, EnterStep, LeaveStep;
    hide Framed, Unframe, DeserializeAck;
    OneAckEach(k, r, f, c);
    var id := |r.chans[c].delivered|;
    OneAck(k, r.acks, c, id);
    LeaveMoves(r.data, c);
    EnterMoves(r.acks, c, k.encode(Ack(r.acks.names[c], id)));
  }

  lemma OneAckEach(k: Codec, r: Remote, f: FifoSystem<ByteString>, c: nat)
    requires Simulates(k, r, f) && AllFifo(f) && RemoteEnabled(k, r, RemoteDeliver(c))
    requires !RemoteKills(k, r, RemoteDeliver(c))
    ensures Dispatch(r.chans[c].reader, Arrived(r, c).value, r.outCap - |r.out|).acks == [|r.chans[c].delivered|]
  {
    hide Pending, RoundTrips, MuxInv, FifoInv, Dispatch, ReceiveOn, Overflows, LeaveStep, Framed, Unframe;
    HeadFrame(k, r, f, c);
    assert SameLinks(k, r, f, c);
    DeliversAs(f.chans[c], r.outCap - |r.out|);
  }

  /** Every step but an offer lowers the rank. */
  lemma StepLowersRemoteRank(k: Codec, r: Remote, f: FifoSystem<ByteString>, a: RemoteAction)
    requires Simulates(k, r, f) && AllFifo(f) && RemoteEnabled(k, r, a) && !RemoteKills(k, r, a) && !a.RemoteOffer?
    ensures RemoteShape(RemoteStep(k, r, a)) && RemoteRank(RemoteStep(k, r, a)) <= RemoteRank(r) - 1
  {
    hide Simulates, AllFifo, RemoteStep, FifoStep, RemoteEnabled, RemoteKills, Enabled, Kills, RemoteRank, Moves, Rank;
    StepSimulates(k, r, f, a);
    StepMoves(k, r, f, a);
    RankIs(k, r, f);
    if FifoImage(a).Some? {
      var b := FifoImage(a).value;
      StepLowersRank(f, b);
      RankIs(k, RemoteStep(k, r, a), FifoStep(f, b));
    } else {
      RankIs(k, RemoteStep(k, r, a), f);
    }
  }

  // ------------------------------------------------------------------ some step is always possible

  /** Acks that are on their way can go on. */
  lemma SomeAckStep(k: Codec, r: Remote, f: FifoSystem<ByteString>) returns (a: RemoteAction)
    requires Simulates(k, r, f) && r.acks.size > 0
    requires Moves(r.acks) > 0 || exists c :: 0 <= c < |r.chans| && r.acks.localSend[c] != []
    ensures RemoteEnabled(k, r, a) && (a.MoveAck? || a.RemoteAck?)
  {
    hide MuxInv, Pending, RoundTrips, Moves, CanMove, DeserializeAck;
    if c :| 0 <= c < |r.chans| && r.acks.localSend[c] != [] {
      HeadAck(k, r, f, c);
      a := RemoteAck(c);
    } else {
      var b := SomeMove(r.acks);
      a := MoveAck(b);
    }
  }

  /** So can data, if there are no acks in the way and the output queue has room. */
  lemma SomeDataStep(k: Codec, r: Remote, f: FifoSystem<ByteString>) returns (a: RemoteAction)
    requires Simulates(k, r, f) && r.data.size > 0 && r.acks.size > 0 && |r.out| < r.outCap
    requires Moves(r.data) > 0 || exists c :: 0 <= c < |r.chans| && r.data.localSend[c] != []
    requires forall c | 0 <= c < |r.chans| :: r.acks.localRecv[c] == []
    ensures RemoteEnabled(k, r, a) && (a.MoveData? || a.RemoteDeliver?)
  {
    hide MuxInv, Pending, RoundTrips, Moves, CanMove, Framed, Unframe;
    if c :| 0 <= c < |r.chans| && r.data.localSend[c] != [] {
      HeadFrame(k, r, f, c);
      a := RemoteDeliver(c);
    } else {
      var b := SomeMove(r.data);
      a := MoveData(b);
    }
  }

  /** If nothing moves and nothing has arrived, the links are empty. */
  lemma EmptyLinks(k: Codec, r: Remote, f: FifoSystem<ByteString>, c: nat)
    requires Simulates(k, r, f) && c < |r.chans| && Moves(r.data) == 0 && Moves(r.acks) == 0
    requires r.data.localSend[c] == [] && r.acks.localSend[c] == []
    ensures f.chans[c].link == [] && f.chans[c].ackLink == [] && r.data.localRecv[c] == []
    ensures f.chans[c].ch == r.chans[c]
  {
    hide MuxInv, Pending, RoundTrips, Moves;
    NothingPending(r.data, c);
    NothingPending(r.acks, c);
    assert SameLinks(k, r, f, c);
  }

  lemma NoAcksWaiting(m: Mux, c: nat)
    requires MuxInv(m) && c < |m.names| && Moves(m) == 0
    ensures m.localRecv[c] == []
  {
    if m.localRecv[c] != [] {
      TotalAtLeast(m.localRecv, c);
    }
  }

  /** While the rank over the FIFO links is positive and all queues have places, some step
      other than an offer is possible. */
  lemma SomeRemoteStep(k: Codec, r: Remote, f: FifoSystem<ByteString>) returns (a: RemoteAction)
    requires Simulates(k, r, f) && AllFifo(f) && Rank(f) > 0
    requires r.data.size > 0 && r.acks.size > 0 && r.outCap > 0
    ensures RemoteEnabled(k, r, a) && !a.RemoteOffer?
  {
    hide MuxInv, Pending, RoundTrips, Moves, CanMove, FifoInv, ChannelRank, SumRank, Framed, DeserializeAck;
    if r.out != [] {
      a := RemoteConsume;
    } else if Moves(r.acks) > 0 || exists c :: 0 <= c < |r.chans| && r.acks.localSend[c] != [] {
      a := SomeAckStep(k, r, f);
    } else if Moves(r.data) > 0 || exists c :: 0 <= c < |r.chans| && r.data.localSend[c] != [] {
      forall c | 0 <= c < |r.chans|
        ensures r.acks.localRecv[c] == []
      {
        NoAcksWaiting(r.acks, c);
      }
      a := SomeDataStep(k, r, f);
    } else {
      RankNonNegative(f);
      var c :| 0 <= c < |f.chans| && ChannelRank(f.chans[c]) > 0;
      ChannelDone(f.chans[c]);
      EmptyLinks(k, r, f, c);
      a := RemoteSend(c);
    }
  }

  lemma KillsAlike(k: Codec, r: Remote, f: FifoSystem<ByteString>, a: RemoteAction)
    requires Simulates(k, r, f) && AllFifo(f) && SmallIds(f) && RemoteEnabled(k, r, a)
    ensures !RemoteKills(k, r, a)
  {
    hide MuxInv, Pending, RoundTrips, FifoInv, Overflows, Framed, Unframe, DeserializeAck, CanMove;
    if a.RemoteDeliver? {
      HeadFrame(k, r, f, a.c);
      assert SameLinks(k, r, f, a.c);
      NothingKills(f, Deliver(a.c));
    }
  }

  // ------------------------------------------------------------------ all buffers get through

  ghost predicate RemoteSmall(r: Remote) {
    forall c | 0 <= c < |r.chans| :: |r.chans[c].accepted| < ID_LIMIT
  }

  lemma SmallAlike(k: Codec, r: Remote, f: FifoSystem<ByteString>)
    requires Simulates(k, r, f)
    ensures RemoteSmall(r) <==> SmallIds(f)
  {
    hide MuxInv, Pending, RoundTrips;
    forall c | 0 <= c < |r.chans|
      ensures r.chans[c] == f.chans[c].ch
    {
      assert SameLinks(k, r, f, c);
    }
  }

  lemma StepKeepsAcceptedRemote(k: Codec, r: Remote, a: RemoteAction)
    requires RemoteShape(r) && RemoteEnabled(k, r, a) && !a.RemoteOffer?
    ensures |RemoteStep(k, r, a).chans| == |r.chans| && RemoteStep(k, r, a).outCap == r.outCap
    ensures forall c | 0 <= c < |r.chans| :: RemoteStep(k, r, a).chans[c].accepted == r.chans[c].accepted
  {
    hide MuxStep, PopRequested, Dispatch, EnterAcks;
  }

  /** Steps without offers accept nothing, and each uses up some of the rank. */
  lemma {:induction false} RemoteStepsAreBounded(k: Codec, r: Remote, f: FifoSystem<ByteString>,
                                                 steps: seq<RemoteAction>, r': Remote)
    returns (f': FifoSystem<ByteString>)
    requires Simulates(k, r, f) && AllFifo(f) && RemoteRun(k, r, steps) == Some(r')
    requires forall i | 0 <= i < |steps| :: !steps[i].RemoteOffer?
    ensures Simulates(k, r', f') && AllFifo(f')
    ensures RemoteShape(r) && RemoteShape(r') && RemoteRank(r') <= RemoteRank(r) - |steps|
    ensures |r'.chans| == |r.chans| && r'.outCap == r.outCap
    ensures r'.data.size == r.data.size && r'.acks.size == r.acks.size
    ensures forall c | 0 <= c < |r.chans| :: r'.chans[c].accepted == r.chans[c].accepted
    decreases |steps|
  {
    SimulatesShape(k, r, f);
    hide Simulates, AllFifo, RemoteStep, FifoStep, RemoteEnabled, RemoteKills, Enabled, Kills, RemoteRank;
    if steps == [] {
      f' := f;
    } else {
      var front, a := steps[..|steps| - 1], steps[|steps| - 1];
      var before := RemoteRun(k, r, front).value;
      var g := RemoteStepsAreBounded(k, r, f, front, before);
      StepSimulates(k, before, g, a);
      StepMoves(k, before, g, a);
      StepLowersRemoteRank(k, before, g, a);
      StepKeepsAcceptedRemote(k, before, a);
      if FifoImage(a).Some? {
        StepKeepsFifo(g, FifoImage(a).value);
        f' := FifoStep(g, FifoImage(a).value);
      } else {
        f' := g;
      }
    }
  }

  lemma SimulatesShape(k: Codec, r: Remote, f: FifoSystem<ByteString>)
    requires Simulates(k, r, f)
    ensures RemoteShape(r) && |f.chans| == |r.chans| && r.outCap == f.outCap
  {
  }

  lemma RemoteRankNonNegative(k: Codec, r: Remote, f: FifoSystem<ByteString>)
    requires Simulates(k, r, f) && AllFifo(f)
    ensures RemoteShape(r) && RemoteRank(r) >= 0
  {
    hide MuxInv, Pending, RoundTrips, FifoInv;
    RankIs(k, r, f);
    RankNonNegative(f);
  }

  lemma {:induction false} RemoteConcat(k: Codec, r: Remote, s: seq<RemoteAction>, t: seq<RemoteAction>)
    requires RemoteRun(k, r, s).Some? && RemoteRun(k, RemoteRun(k, r, s).value, t).Some?
    ensures RemoteRun(k, r, s + t) == RemoteRun(k, RemoteRun(k, r, s).value, t)
    decreases |t|
  {
    hide RemoteEnabled, RemoteKills, RemoteStep, RemoteShape;
    if t == [] {
      assert s + t == s;
    } else {
      assert (s + t)[..|s + t| - 1] == s + t[..|t| - 1];
      RemoteConcat(k, r, s, t[..|t| - 1]);
    }
  }

  /** No step but an offer is possible that does not kill the dispatcher. */
  ghost predicate Stuck(k: Codec, r: Remote)
    requires RemoteShape(r)
  {
    forall a | RemoteEnabled(k, r, a) && !RemoteKills(k, r, a) :: a.RemoteOffer?
  }

  /** Where nothing moves any more, everything accepted has been read and the queues are
      empty. */
  lemma StuckMeansDone(k: Codec, names: seq<ByteString>, capacity: nat, outCap: nat, size: nat,
                       actions: seq<RemoteAction>, r: Remote, c: nat)
    requires GoodNames(names) && RoundTrips(k) && c < |names| && outCap > 0 && size > 0
    requires RemoteRun(k, RemoteInit(names, capacity, outCap, size), actions) == Some(r)
    requires RemoteShape(r) && RemoteSmall(r) && r.outCap == outCap && r.data.size == r.acks.size == size && Stuck(k, r)
    ensures |r.chans| == |names| && r.numRead <= |r.tape|
    ensures r.chans[c].queue.v == [] && Of(r.tape[..r.numRead], c) == r.chans[c].accepted
  {
    hide Simulates, RemoteRun, FifoRun, AllFifo, TapeInv, Of, RemoteEnabled, RemoteKills, Rank, RemoteSmall, SmallIds;
    var fs, f := RemoteRefines(k, names, capacity, outCap, size, actions, r);
    FifoShape(|names|, capacity, outCap, fs, f);
    SmallAlike(k, r, f);
    if Rank(f) > 0 {
      var a := SomeRemoteStep(k, r, f);
      KillsAlike(k, r, f, a);
      assert false;
    }
    RankNonNegative(f);
    RelatedChannel(k, r, f, c);
    RankZeroMeansDone(f, c);
  }

  /** Remote channels over one shared link with queues of any positive size: after any run in
      which every channel accepted fewer than 2^31 buffers, any continuation without further
      offers is bounded, and once it cannot be continued every accepted buffer of every
      channel has been read, in order, and every queue slot is free. */
  lemma RemoteBuffersGetThrough(k: Codec, names: seq<ByteString>, capacity: nat, outCap: nat, size: nat,
                                actions: seq<RemoteAction>, r: Remote, steps: seq<RemoteAction>, r': Remote)
    requires GoodNames(names) && RoundTrips(k) && outCap > 0 && size > 0
    requires RemoteRun(k, RemoteInit(names, capacity, outCap, size), actions) == Some(r) && RemoteSmall(r)
    requires RemoteRun(k, r, steps) == Some(r') && forall i | 0 <= i < |steps| :: !steps[i].RemoteOffer?
    ensures RemoteShape(r) && RemoteShape(r') && |steps| <= RemoteRank(r)
    ensures Stuck(k, r') ==>
              && |r'.chans| == |r.chans| == |names| && r'.numRead <= |r'.tape|
              && forall c | 0 <= c < |names| ::
                   && r'.chans[c].queue.v == []
                   && Of(r'.tape[..r'.numRead], c) == r'.chans[c].accepted == r.chans[c].accepted
  {
    hide Simulates, RemoteRun, FifoRun, AllFifo, Of, Stuck, RemoteRank;
    var fs, f := RemoteRefines(k, names, capacity, outCap, size, actions, r);
    FifoShape(|names|, capacity, outCap, fs, f);
    SimulatesShape(k, r, f);
    RunKeepsSizes(k, names, capacity, outCap, size, actions, r);
    var f' := RemoteStepsAreBounded(k, r, f, steps, r');
    RemoteRankNonNegative(k, r', f');
    RemoteConcat(k, RemoteInit(names, capacity, outCap, size), actions, steps);
    RemoteTape(k, names, capacity, outCap, size, actions + steps, r');
    if Stuck(k, r') {
      forall c | 0 <= c < |names|
        ensures r'.chans[c].queue.v == []
        ensures Of(r'.tape[..r'.numRead], c) == r'.chans[c].accepted
      {
        StuckMeansDone(k, names, capacity, outCap, size, actions + steps, r', c);
      }
    }
  }

  lemma RemoteTape(k: Codec, names: seq<ByteString>, capacity: nat, outCap: nat, size: nat,
                   actions: seq<RemoteAction>, r: Remote)
    requires GoodNames(names) && RoundTrips(k)
    requires RemoteRun(k, RemoteInit(names, capacity, outCap, size), actions) == Some(r)
    ensures r.numRead <= |r.tape|
  {
    hide RemoteRun, FifoRun, AllFifo, Of, MuxInv, SameLinks, RoundTrips;
    var fs, f := RemoteRefines(k, names, capacity, outCap, size, actions, r);
    FifoShape(|names|, capacity, outCap, fs, f);
  }

  lemma {:induction false} RunKeepsSizes(k: Codec, names: seq<ByteString>, capacity: nat, outCap: nat, size: nat,
                                         actions: seq<RemoteAction>, r: Remote)
    requires GoodNames(names) && RoundTrips(k)
    requires RemoteRun(k, RemoteInit(names, capacity, outCap, size), actions) == Some(r)
    ensures r.data.size == r.acks.size == size && r.outCap == outCap
    decreases |actions|
  {
    if actions != [] {
      hide Simulates, AllFifo, RemoteStep, RemoteEnabled, RemoteKills, FifoRun;
      var front, a := actions[..|actions| - 1], actions[|actions| - 1];
      var before := RemoteRun(k, RemoteInit(names, capacity, outCap, size), front).value;
      RunKeepsSizes(k, names, capacity, outCap, size, front, before);
      var fs, f := RemoteRefines(k, names, capacity, outCap, size, front, before);
      StepMoves(k, before, f, a);
      StepKeepsOutCap(k, before, a);
    }
  }

  lemma StepKeepsOutCap(k: Codec, r: Remote, a: RemoteAction)
    requires RemoteShape(r) && RemoteEnabled(k, r, a)
    ensures RemoteStep(k, r, a).outCap == r.outCap
  {
    hide MuxStep, PopRequested, Dispatch, EnterAcks;
  }
}
