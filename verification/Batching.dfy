/** The message batcher on top of the transport: messages collect in a pending batch per
    channel, a full batch is handed to the channel's queue, and a refused batch takes its
    last message back. */
module Batching {
  import opened Wrappers
  import opened Bags
  import opened Varint
  import opened Protocol
  import opened ProtocolTheorems
  import LosslessLink

  /** What a write or a flush leaves pending, whether it returned true, and the batch it
      handed to the transport, if any. */
  datatype Batched<+M> = Batched(pending: seq<M>, ok: bool, sent: Option<seq<M>>)

  function Write<M>(pending: seq<M>, message: M, batchSize: int, room: bool): (r: Batched<M>) {
    var batch := pending + [message];
    if |batch| != batchSize then Batched(batch, true, None)
    else if room then Batched([], true, Some(batch))
    else Batched(pending, false, None)
  }

  function Flush<M>(pending: seq<M>, room: bool): (r: Batched<M>) {
    if pending == [] || !room then Batched(pending, true, None)
    else Batched([], true, Some(pending))
  }

  class DataWriter<M> {
    var batchPerChannel: map<ByteString, seq<M>>
    const batchSize: int

    constructor (channels: set<ByteString>, batchSize: int)
      ensures batchPerChannel == map c | c in channels :: []
      ensures this.batchSize == batchSize
    {
      batchPerChannel := map c | c in channels :: [];
      this.batchSize := batchSize;
    }

    /** `room` is whether the transport's queue takes the buffer it is offered. */
    method TryWriteMessage(channelId: ByteString, message: M, room: bool) returns (ok: bool, sent: Option<seq<M>>)
      requires channelId in batchPerChannel
      modifies this`batchPerChannel
      ensures var r := Write(old(batchPerChannel)[channelId], message, batchSize, room);
              ok == r.ok && sent == r.sent
              && batchPerChannel == old(batchPerChannel)[channelId := r.pending]
    {
      var batch := batchPerChannel[channelId] + [message];
      batchPerChannel := batchPerChannel[channelId := batch];
      sent := None;
      if |batch| == batchSize {
        if !room {
          batchPerChannel := batchPerChannel[channelId := batch[..|batch| - 1]];
          return false, None;
        } else {
          batchPerChannel := batchPerChannel[channelId := []];
          return true, Some(batch);
        }
      } else {
        return true, None;
      }
    }

    method TryFlush(channelId: ByteString, room: bool) returns (sent: Option<seq<M>>)
      requires channelId in batchPerChannel
      modifies this`batchPerChannel
      ensures var r := Flush(old(batchPerChannel)[channelId], room);
              sent == r.sent && batchPerChannel == old(batchPerChannel)[channelId := r.pending]
    {
      var batch := batchPerChannel[channelId];
      sent := None;
      if |batch| != 0 {
        if room {
          batchPerChannel := batchPerChannel[channelId := []];
          sent := Some(batch);
        }
      }
      assert batchPerChannel == old(batchPerChannel)[channelId := batchPerChannel[channelId]];
    }
  }

  // ------------------------------------------------------------------ end to end

  /** The batcher of every channel beside the transport that carries its batches;
      `written` records the messages for which a write returned true. */
  datatype Stack<+M(==)> = Stack(net: System<seq<M>>, pending: seq<seq<M>>, written: seq<seq<M>>)

  datatype StackAction<+M> =
    | WriteMessage(c: nat, message: M)
    | FlushChannel(c: nat)
    | Transport(a: Action<seq<M>>)

  lemma {:induction false} FlattenPrefix<M>(a: seq<seq<M>>, b: seq<seq<M>>)
    requires a <= b
    ensures Flatten(a) <= Flatten(b)
    decreases |b|
  {
    if a == b {
    } else {
      assert a <= b[..|b| - 1];
      FlattenPrefix(a, b[..|b| - 1]);
    }
  }

  function StackInit<M(==)>(n: nat, capacity: nat, outCap: nat): Stack<M> {
    Stack(Init(n, capacity, outCap), seq(n, _ => []), seq(n, _ => []))
  }

  ghost predicate HasRoom<M>(k: Stack<M>, c: nat)
    requires c < |k.net.chans|
  {
    |k.net.chans[c].queue.v| != k.net.chans[c].queue.capacity
  }

  /** The transport's part of an action: at most one push of a batch. */
  ghost function Offered<M>(k: Stack<M>, c: nat, r: Batched<M>): seq<Action<seq<M>>> {
    match r.sent
    case None => []
    case Some(batch) => [Push(c, batch)]
  }

  /** Whether the transport panics; pushes come from the batcher only. */
  ghost predicate StackPanics<M>(k: Stack<M>, a: StackAction<M>) {
    a.Transport? && !a.a.Push? && Apply(k.net, a.a).Panic?
  }

  /** The next state, and the transport's part of the action. */
  ghost function StackStep<M>(k: Stack<M>, batchSize: int, a: StackAction<M>): (Stack<M>, seq<Action<seq<M>>>)
    requires |k.pending| == |k.written| == |k.net.chans| && !StackPanics(k, a)
  {
    match a
    case Transport(b) => if b.Push? then (k, []) else (k.(net := Apply(k.net, b).s), [b])
    case WriteMessage(c, m) =>
      if c >= |k.pending| then (k, [])
      else
        var r := Write(k.pending[c], m, batchSize, HasRoom(k, c));
        (Stack(Sent(k.net, c, r.sent),
               k.pending[c := r.pending],
               if r.ok then k.written[c := k.written[c] + [m]] else k.written), Offered(k, c, r))
    case FlushChannel(c) =>
      if c >= |k.pending| then (k, [])
      else
        var r := Flush(k.pending[c], HasRoom(k, c));
        (Stack(Sent(k.net, c, r.sent), k.pending[c := r.pending], k.written), Offered(k, c, r))
  }

  ghost function Sent<M>(net: System<seq<M>>, c: nat, sent: Option<seq<M>>): System<seq<M>>
    requires c < |net.chans|
  {
    match sent
    case None => net
    case Some(batch) => net.(chans := net.chans[c := PushOn(net.chans[c], batch)])
  }

  ghost predicate BatchInv<M>(ch: Channel<seq<M>>, pending: seq<M>, written: seq<M>, batchSize: int) {
    && Flatten(ch.accepted) + pending == written
    && (batchSize >= 1 ==> |pending| < batchSize)
  }

  ghost predicate StackShape<M>(k: Stack<M>) {
    |k.pending| == |k.written| == |k.net.chans|
  }

  ghost predicate StackInv<M>(k: Stack<M>, batchSize: int) {
    && StackShape(k)
    && (forall c | 0 <= c < |k.pending| :: BatchInv(k.net.chans[c], k.pending[c], k.written[c], batchSize))
  }

  lemma SentKeepsBatch<M>(ch: Channel<seq<M>>, pending: seq<M>, written: seq<M>, batchSize: int, batch: seq<M>)
    requires |ch.queue.v| != ch.queue.capacity
    requires Flatten(ch.accepted) + batch == written
    ensures BatchInv(PushOn(ch, batch), [], written, batchSize)
  {
    assert (ch.accepted + [batch])[..|ch.accepted|] == ch.accepted;
    assert Flatten(ch.accepted + [batch]) == Flatten(ch.accepted) + batch;
  }

  lemma WriteKeepsBatch<M>(k: Stack<M>, batchSize: int, c: nat, m: M)
    requires StackInv(k, batchSize) && c < |k.pending|
    ensures StackInv(StackStep(k, batchSize, WriteMessage(c, m)).0, batchSize)
  {
    var r := Write(k.pending[c], m, batchSize, HasRoom(k, c));
    var batch := k.pending[c] + [m];
    assert Flatten(k.net.chans[c].accepted) + batch == k.written[c] + [m];
    if r.sent.Some? {
      SentKeepsBatch(k.net.chans[c], k.pending[c], k.written[c] + [m], batchSize, batch);
    }
  }

  lemma FlushKeepsBatch<M>(k: Stack<M>, batchSize: int, c: nat)
    requires StackInv(k, batchSize) && c < |k.pending|
    ensures StackInv(StackStep(k, batchSize, FlushChannel(c)).0, batchSize)
  {
    var r := Flush(k.pending[c], HasRoom(k, c));
    if r.sent.Some? {
      SentKeepsBatch(k.net.chans[c], k.pending[c], k.written[c], batchSize, k.pending[c]);
    }
  }

  lemma OnlyPushesAccept<P>(s: System<P>, a: Action<P>, c: nat)
    requires Apply(s, a).Running? && !a.Push? && c < |s.chans|
    ensures |Apply(s, a).s.chans| == |s.chans| && Apply(s, a).s.chans[c].accepted == s.chans[c].accepted
  {
  }

  lemma TransportKeepsBatch<M>(k: Stack<M>, batchSize: int, a: Action<seq<M>>)
    requires StackInv(k, batchSize) && !StackPanics(k, Transport(a))
    ensures StackInv(StackStep(k, batchSize, Transport(a)).0, batchSize)
  {
    if !a.Push? {
      StepShape(k.net, a);
      forall c | 0 <= c < |k.pending|
        ensures BatchInv(Apply(k.net, a).s.chans[c], k.pending[c], k.written[c], batchSize)
      {
        OnlyPushesAccept(k.net, a, c);
      }
    }
  }

  lemma StackStepKeeps<M>(k: Stack<M>, batchSize: int, a: StackAction<M>)
    requires StackInv(k, batchSize) && !StackPanics(k, a)
    ensures StackInv(StackStep(k, batchSize, a).0, batchSize)
  {
    match a
    case Transport(b) => TransportKeepsBatch(k, batchSize, b);
    case WriteMessage(c, m) => if c < |k.pending| { WriteKeepsBatch(k, batchSize, c, m); }
    case FlushChannel(c) => if c < |k.pending| { FlushKeepsBatch(k, batchSize, c); }
  }

  /** The state after a run of the stack, and the transport's actions in it; `None` if the
      transport panics. */
  ghost function StackRun<M>(n: nat, capacity: nat, outCap: nat, batchSize: int, actions: seq<StackAction<M>>)
    : (r: Option<(Stack<M>, seq<Action<seq<M>>>)>)
    ensures r.Some? ==> StackInv(r.value.0, batchSize)
    decreases |actions|
  {
    if actions == [] then
      Some((StackInit<M>(n, capacity, outCap), []))
    else
      var a := actions[|actions| - 1];
      match StackRun(n, capacity, outCap, batchSize, actions[..|actions| - 1])
      case None => None
      case Some((k, bs)) =>
        if StackPanics(k, a) then None
        else
          StackStepKeeps(k, batchSize, a);
          var (k', more) := StackStep(k, batchSize, a);
          Some((k', bs + more))
  }

  /** What the stack does to the transport is a step, or nothing. */
  lemma StackStepIsTransport<M>(k: Stack<M>, batchSize: int, a: StackAction<M>)
    requires StackInv(k, batchSize) && !StackPanics(k, a)
    ensures var (k', more) := StackStep(k, batchSize, a);
            || (more == [] && k'.net == k.net)
            || (|more| == 1 && Apply(k.net, more[0]) == Running(k'.net))
  {
  }

  /** Every run of the batchers and the transport is a run of the transport. */
  lemma {:induction false} StackUsesTransport<M>(n: nat, capacity: nat, outCap: nat, batchSize: int,
                                                 actions: seq<StackAction<M>>, k: Stack<M>, bs: seq<Action<seq<M>>>)
    requires StackRun(n, capacity, outCap, batchSize, actions) == Some((k, bs))
    ensures Run(Init<seq<M>>(n, capacity, outCap), bs) == Running(k.net)
    decreases |actions|
  {
    if actions != [] {
      hide Apply;
      var front, a := actions[..|actions| - 1], actions[|actions| - 1];
      var (before, cs) := StackRun(n, capacity, outCap, batchSize, front).value;
      StackUsesTransport(n, capacity, outCap, batchSize, front, before, cs);
      StackStepIsTransport(before, batchSize, a);
      var (_, more) := StackStep(before, batchSize, a);
      hide StackStep, StackPanics;
      if more == [] {
        assert cs + more == cs;
      } else {
        assert bs == cs + [more[0]];
        assert bs[..|bs| - 1] == cs;
      }
    }
  }

  /** The transport panics only if some channel has accepted 2^31 batches. */
  lemma {:induction false} StackPanicNeedsFullChannel<M>(n: nat, capacity: nat, outCap: nat, batchSize: int,
                                                         actions: seq<StackAction<M>>)
    requires StackRun(n, capacity, outCap, batchSize, actions).None?
    ensures exists i: nat :: i < |actions| && StackFull(n, capacity, outCap, batchSize, actions[..i])
    decreases |actions|
  {
    hide Apply, StackStep;
    var m := |actions| - 1;
    var front, a := actions[..m], actions[m];
    if StackRun(n, capacity, outCap, batchSize, front).None? {
      StackPanicNeedsFullChannel(n, capacity, outCap, batchSize, front);
      var i: nat :| i < |front| && StackFull(n, capacity, outCap, batchSize, front[..i]);
      assert front[..i] == actions[..i];
    } else {
      var (k, bs) := StackRun(n, capacity, outCap, batchSize, front).value;
      StackUsesTransport(n, capacity, outCap, batchSize, front, k, bs);
      LastStepNeedsFullChannel(n, capacity, outCap, bs, k.net, a.a);
      assert StackFull(n, capacity, outCap, batchSize, actions[..m]);
    }
  }

  /** After the run some channel has accepted 2^31 batches. */
  ghost predicate StackFull<M>(n: nat, capacity: nat, outCap: nat, batchSize: int, actions: seq<StackAction<M>>) {
    var r := StackRun(n, capacity, outCap, batchSize, actions);
    r.Some? && SomeFull(r.value.0.net)
  }

  /** End to end, whatever the network does and however often messages are written, refused
      and flushed: as long as at most 2^31 batches have been accepted on a channel, the
      batches read on it, laid end to end, are a prefix of the messages for which a write
      returned true; those messages are exactly the accepted batches followed by the pending
      one, which is shorter than the batch size whenever that is positive. */
  lemma MessagesArriveInOrder<M>(n: nat, capacity: nat, outCap: nat, batchSize: int, actions: seq<StackAction<M>>,
                                 k: Stack<M>, bs: seq<Action<seq<M>>>, c: nat)
    requires StackRun(n, capacity, outCap, batchSize, actions) == Some((k, bs)) && c < n && IdsFit(k.net, c)
    ensures |k.net.chans| == |k.pending| == |k.written| == n && k.net.numRead <= |k.net.tape|
    ensures Flatten(k.net.chans[c].accepted) + k.pending[c] == k.written[c]
    ensures batchSize >= 1 ==> |k.pending[c]| < batchSize
    ensures Flatten(Of(k.net.tape[..k.net.numRead], c)) <= k.written[c]
  {
    hide Run, StackRun;
    StackUsesTransport(n, capacity, outCap, batchSize, actions, k, bs);
    ExactlyOnceInOrder(n, capacity, outCap, bs, k.net, c);
    StackKeepsInv(n, capacity, outCap, batchSize, actions, k, bs);
    assert BatchInv(k.net.chans[c], k.pending[c], k.written[c], batchSize);
    FlattenPrefix(Of(k.net.tape[..k.net.numRead], c), k.net.chans[c].accepted);
  }

  lemma StackKeepsInv<M>(n: nat, capacity: nat, outCap: nat, batchSize: int, actions: seq<StackAction<M>>,
                         k: Stack<M>, bs: seq<Action<seq<M>>>)
    requires StackRun(n, capacity, outCap, batchSize, actions) == Some((k, bs))
    ensures StackInv(k, batchSize)
  {
  }

  // ------------------------------------------------------------------ when batches go out

  /** A write hands over a batch exactly when its message makes it full and the transport
      takes it, and is refused exactly when the transport does not. */
  lemma WriteIff<M>(pending: seq<M>, message: M, batchSize: int, room: bool)
    ensures var r := Write(pending, message, batchSize, room);
            && (r.sent.Some? <==> |pending| + 1 == batchSize && room)
            && (r.sent.Some? ==> r.sent.value == pending + [message] && r.pending == [])
            && (r.ok <==> |pending| + 1 != batchSize || room)
            && (!r.ok ==> r.pending == pending)
            && (r.ok && r.sent.None? ==> r.pending == pending + [message])
  {
  }

  /** A flush hands over whatever is pending, if the transport takes it. */
  lemma FlushIff<M>(pending: seq<M>, room: bool)
    ensures var r := Flush(pending, room);
            && (r.sent.Some? <==> pending != [] && room)
            && (r.sent.Some? ==> r.sent.value == pending && r.pending == [])
            && (r.sent.None? ==> r.pending == pending)
  {
  }

  /** After a flush with room in the queue, every message written on the channel is in an
      accepted batch. */
  lemma FlushLeavesNothing<M>(k: Stack<M>, batchSize: int, c: nat)
    requires StackInv(k, batchSize) && c < |k.pending|
    requires |k.net.chans[c].queue.v| != k.net.chans[c].queue.capacity
    ensures var k' := StackStep(k, batchSize, FlushChannel(c)).0;
            && StackInv(k', batchSize) && c < |k'.pending| && k'.pending[c] == []
            && Flatten(k'.net.chans[c].accepted) == k'.written[c] && k'.written == k.written
  {
    FlushKeepsBatch(k, batchSize, c);
    FlushIff(k.pending[c], HasRoom(k, c));
    hide Flatten;
    var k' := StackStep(k, batchSize, FlushChannel(c)).0;
    assert BatchInv(k'.net.chans[c], k'.pending[c], k'.written[c], batchSize);
    assert Flatten(k'.net.chans[c].accepted) + [] == Flatten(k'.net.chans[c].accepted);
  }

  /** Every batch that writes alone hand over is full. */
  lemma WritesSendFullBatches<M>(k: Stack<M>, batchSize: int, c: nat, m: M)
    requires StackInv(k, batchSize) && c < |k.pending|
    ensures var more := StackStep(k, batchSize, WriteMessage(c, m)).1;
            more == [] || (|more| == 1 && more[0].Push? && more[0].c == c && |more[0].payload| == batchSize)
  {
    WriteIff(k.pending[c], m, batchSize, HasRoom(k, c));
  }

  /** End to end over lossless ordered links: once everything pending has been flushed and the
      links have been drained, what was read on every channel is all that was written. */
  lemma FlushedMessagesAllArrive<M>(n: nat, capacity: nat, outCap: nat, batchSize: int, actions: seq<StackAction<M>>,
                                    k: Stack<M>, bs: seq<Action<seq<M>>>,
                                    fs: seq<LosslessLink.FifoAction<seq<M>>>, f: LosslessLink.FifoSystem<seq<M>>,
                                    steps: seq<LosslessLink.FifoAction<seq<M>>>, f': LosslessLink.FifoSystem<seq<M>>,
                                    c: nat)
    requires StackRun(n, capacity, outCap, batchSize, actions) == Some((k, bs)) && c < n && outCap > 0
    requires LosslessLink.FifoRun(LosslessLink.FifoInit<seq<M>>(n, capacity, outCap), fs) == Some(f)
    requires LosslessLink.Erase(f) == k.net && LosslessLink.SmallIds(f) && |k.pending| == n && k.pending[c] == []
    requires LosslessLink.FifoRun(f, steps) == Some(f') && forall i | 0 <= i < |steps| :: !steps[i].Offer?
    requires forall a :: LosslessLink.Enabled(f', a) && !LosslessLink.Kills(f', a) ==> a.Offer?
    ensures f'.numRead <= |f'.tape| && |k.written| == n
    ensures Flatten(Of(f'.tape[..f'.numRead], c)) == k.written[c]
  {
    hide StackRun, LosslessLink.FifoRun, Flatten;
    hide LosslessLink.Enabled, LosslessLink.Kills;
    StackKeepsInv(n, capacity, outCap, batchSize, actions, k, bs);
    LosslessLink.AllBuffersGetThrough(n, capacity, outCap, fs, f, steps, f');
    assert LosslessLink.Erase(f).chans[c] == f.chans[c].ch;
    assert BatchInv(k.net.chans[c], k.pending[c], k.written[c], batchSize);
    assert Flatten(k.net.chans[c].accepted) + [] == Flatten(k.net.chans[c].accepted);
  }
}
