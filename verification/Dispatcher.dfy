/** The reader's dispatcher: a watermark and a map of out-of-order buffers per channel,
    one bounded output queue shared by all channels, and acks for everything that is
    delivered or already held. */
module Dispatcher {
  import opened Wrappers
  import opened Varint
  import opened Framing
  import opened SendQueue

  /** One more than the largest 32-bit signed number, the type of the watermark. */
  const ID_LIMIT: nat := 0x8000_0000

  /** `id as i32` for an unsigned 32-bit `id`. */
  function AsI32(id: nat): int {
    var w := id % 0x1_0000_0000;
    if w < ID_LIMIT then w else w - 0x1_0000_0000
  }

  datatype Reader<+P> = Reader(watermark: int, held: map<int, Buffer<P>>)

  datatype Dispatched<+P> = Dispatched(reader: Reader<P>, out: seq<P>, acks: seq<nat>)

  /** The buffers held at `next`, `next + 1`, ..., as many as there is room for. */
  function Drain<V>(held: map<int, V>, next: int, room: nat): (d: seq<V>)
    ensures |d| <= room
    decreases room
  {
    if room == 0 || next !in held then []
    else [held[next]] + Drain(held, next + 1, room - 1)
  }

  /** Draining takes the longest run of held ids from `next` on that fits the room. */
  lemma {:induction false} DrainIsLongestRun<V>(held: map<int, V>, next: int, room: nat)
    ensures var d := Drain(held, next, room);
            && (forall k | next <= k < next + |d| :: k in held && held[k] == d[k - next])
            && (|d| == room || next + |d| !in held)
    decreases room
  {
    if room > 0 && next in held {
      DrainIsLongestRun(held, next + 1, room - 1);
    }
  }

  function Without<V>(held: map<int, V>, lo: int, hi: int): map<int, V> {
    map k | k in held && !(lo <= k < hi) :: held[k]
  }

  function Payloads<P>(bs: seq<Buffer<P>>): (r: seq<P>)
    ensures |r| == |bs| && forall i | 0 <= i < |bs| :: r[i] == bs[i].payload
  {
    seq(|bs|, i requires 0 <= i < |bs| => bs[i].payload)
  }

  function Ids<P>(bs: seq<Buffer<P>>): (r: seq<nat>)
    ensures |r| == |bs| && forall i | 0 <= i < |bs| :: r[i] == bs[i].id
  {
    seq(|bs|, i requires 0 <= i < |bs| => bs[i].id)
  }

  /** Whether handling a buffer makes the next watermark overflow its 32-bit signed type,
      which kills the dispatcher while it holds the output queue's lock. */
  predicate Overflows<P>(r: Reader<P>, b: Buffer<P>, room: nat) {
    var key := AsI32(b.id);
    && key > r.watermark && key !in r.held
    && r.watermark + 1 + |Drain(r.held[key := b], r.watermark + 1, room)| >= ID_LIMIT
  }

  /** One buffer handled, without overflow, while the output queue has `room` free places. */
  function Dispatch<P>(r: Reader<P>, b: Buffer<P>, room: nat): (d: Dispatched<P>) {
    var key := AsI32(b.id);
    if key <= r.watermark || key in r.held then Dispatched(r, [], [b.id])
    else
      var held := r.held[key := b];
      var next := r.watermark + 1;
      var drained := Drain(held, next, room);
      Dispatched(
        Reader(r.watermark + |drained|, Without(held, next, next + |drained|)),
        Payloads(drained),
        Ids(drained))
  }

  lemma DispatchNew<P>(r: Reader<P>, b: Buffer<P>, room: nat)
    requires r.watermark < b.id < ID_LIMIT && b.id !in r.held
    ensures var held := r.held[b.id as int := b];
            var d := Drain(held, r.watermark + 1, room);
            Dispatch(r, b, room) == Dispatched(
              Reader(r.watermark + |d|, Without(held, r.watermark + 1, r.watermark + 1 + |d|)),
              Payloads(d),
              Ids(d))
  {
    assert AsI32(b.id) == b.id;
  }

  lemma DispatchOld<P>(r: Reader<P>, b: Buffer<P>, room: nat)
    requires b.id < ID_LIMIT && (b.id <= r.watermark || b.id in r.held)
    ensures Dispatch(r, b, room) == Dispatched(r, [], [b.id])
  {
    assert AsI32(b.id) == b.id;
  }

  /** All ids from `next` up to the largest one are held, and there is room for them. */
  ghost predicate IsLastRun<V>(held: map<int, V>, next: int, room: nat) {
    ID_LIMIT - next <= room && forall k | next <= k < ID_LIMIT :: k in held
  }

  /** The fate of a buffer that is neither held nor delivered. From id 2^31 on the signed
      comparison makes the reader acknowledge and lose it. Below, it kills the dispatcher
      exactly if it completes the run up to id 2^31 - 1, and otherwise it is kept, that is
      held or delivered. */
  lemma NewBufferKeptIff<P>(r: Reader<P>, b: Buffer<P>, room: nat)
    requires b.id < 0x1_0000_0000 && b.id > r.watermark >= -1
    requires forall k | k in r.held :: 0 <= k < ID_LIMIT
    requires b.id !in r.held
    ensures b.id >= ID_LIMIT ==> !Overflows(r, b, room) && Dispatch(r, b, room) == Dispatched(r, [], [b.id])
    ensures b.id < ID_LIMIT ==> (Overflows(r, b, room) <==> IsLastRun(r.held[b.id as int := b], r.watermark + 1, room))
    ensures var d := Dispatch(r, b, room);
            (b.id in d.reader.held || b.id <= d.reader.watermark) <==> b.id < ID_LIMIT
  {
    if b.id < ID_LIMIT {
      var held := r.held[b.id as int := b];
      var next := r.watermark + 1;
      var drained := Drain(held, next, room);
      assert AsI32(b.id) == b.id;
      hide AsI32;
      DrainIsLongestRun(held, next, room);
      RunIsFull(held, next, room);
      hide Drain;
      if b.id > r.watermark + |drained| {
        assert b.id in Without(held, next, next + |drained|);
      }
    }
  }

  lemma RunIsFull<V>(held: map<int, V>, next: int, room: nat)
    requires next < ID_LIMIT && forall k | k in held :: k < ID_LIMIT
    ensures next + |Drain(held, next, room)| >= ID_LIMIT <==> IsLastRun(held, next, room)
  {
    var d := Drain(held, next, room);
    DrainIsLongestRun(held, next, room);
    RunStaysBelow(held, next, room);
    hide Drain;
    if next + |d| < ID_LIMIT {
      assert |d| == room || next + |d| !in held;
    }
  }

  lemma WithoutMore<V>(held: map<int, V>, lo: int, hi: int)
    requires lo <= hi
    ensures Without(held, lo, hi) - {hi} == Without(held, lo, hi + 1)
    ensures hi in Without(held, lo, hi) <==> hi in held
    ensures hi in held ==> Without(held, lo, hi)[hi] == held[hi]
  {
  }

  lemma PayloadsAppend<P>(bs: seq<Buffer<P>>, b: Buffer<P>)
    ensures Payloads(bs + [b]) == Payloads(bs) + [b.payload] && Ids(bs + [b]) == Ids(bs) + [b.id]
  {
  }

  lemma RunStaysBelow<V>(held: map<int, V>, next: int, room: nat)
    requires next < ID_LIMIT && forall k | k in held :: k < ID_LIMIT
    ensures next + |Drain(held, next, room)| <= ID_LIMIT
  {
    DrainIsLongestRun(held, next, room);
    var d := Drain(held, next, room);
    if |d| > 0 {
      assert next + |d| - 1 in held;
    }
  }

  /** Delivering the last id kills the dispatcher, whatever the room. */
  lemma LastIdOverflows<P>(p: P, room: nat)
    requires room > 0
    ensures Overflows(Reader(ID_LIMIT - 2, map[]), Buffer(ID_LIMIT - 1, p), room)
  {
    var r, b := Reader(ID_LIMIT - 2, map[]), Buffer(ID_LIMIT - 1, p);
    assert AsI32(b.id) == b.id;
    DrainIsLongestRun(r.held[b.id as int := b], ID_LIMIT - 1, room);
  }

  /** The id after it is acknowledged and lost, even though nothing was delivered yet. */
  lemma FirstLostId<P>(p: P, room: nat)
    ensures var r, b := Reader(-1, map[]), Buffer(ID_LIMIT, p);
            !Overflows(r, b, room) && Dispatch(r, b, room) == Dispatched(r, [], [ID_LIMIT])
  {
    assert AsI32(ID_LIMIT) == -0x8000_0000;
  }

  // ------------------------------------------------------------------ the reader on bytes

  ghost predicate AllFramed(held: map<int, ByteString>) {
    forall k | k in held :: Framed(held[k])
  }

  /** Framed buffers taken apart. */
  ghost function Opened(held: map<int, ByteString>): map<int, Buffer<ByteString>>
    requires AllFramed(held)
  {
    map k | k in held :: Unframe(held[k])
  }

  /** What the reader keeps for one channel: received buffers not yet handled, acks handed
      to the sender, the watermark and the out-of-order buffers, all with their frames. */
  datatype Slot = Slot(recv: seq<ByteString>, acks: seq<nat>, watermark: int, held: map<int, ByteString>) {

    /** The watermark and the keys fit 32 bits, and only proper frames are held. */
    ghost predicate Valid() {
      && -1 <= watermark < ID_LIMIT - 1
      && AllFramed(held) && forall k | k in held :: k < ID_LIMIT
    }

    ghost function View(): Reader<ByteString>
      requires Valid()
    {
      Reader(watermark, Opened(held))
    }
  }

  class DataReader {
    var slots: map<ByteString, Slot>
    var outQueue: seq<ByteString>
    // The dispatcher has panicked while it held the lock of the output queue.
    var poisoned: bool
    const outputQueueSize: nat

    ghost predicate Valid()
      reads this
    {
      |outQueue| <= outputQueueSize && forall c | c in slots :: slots[c].Valid()
    }

    constructor (channels: set<ByteString>, outputQueueSize: nat)
      ensures Valid() && !poisoned
      ensures this.outputQueueSize == outputQueueSize && outQueue == []
      ensures slots.Keys == channels
      ensures forall c | c in channels :: slots[c] == Slot([], [], -1, map[])
    {
      slots := map c | c in channels :: Slot([], [], -1, map[]);
      outQueue, poisoned := [], false;
      this.outputQueueSize := outputQueueSize;
    }

    /** Taking a poisoned lock panics. */
    method ReadBytes() returns (panicked: bool, r: Option<ByteString>)
      requires Valid()
      modifies this`outQueue
      ensures Valid() && panicked == poisoned
      ensures panicked || old(outQueue) == [] ==> r.None? && outQueue == old(outQueue)
      ensures !panicked && old(outQueue) != [] ==> r.Some? && old(outQueue) == [r.value] + outQueue
    {
      if poisoned {
        return true, None;
      }
      if |outQueue| == 0 {
        return false, None;
      }
      panicked, r := false, Some(outQueue[0]);
      outQueue := outQueue[1..];
    }

    /** The inner loop: moves held buffers to the output queue while the next one is there
        and the queue is not full. The increment of the next watermark overflows after the
        buffer of the last id was moved and acknowledged. */
    method DrainHeld(ooo: map<int, ByteString>, wm: int)
      returns (panicked: bool, rest: map<int, ByteString>, nextWm: int, acks: seq<nat>)
      requires |outQueue| <= outputQueueSize && -1 <= wm < ID_LIMIT - 1
      requires AllFramed(ooo) && forall k | k in ooo :: k < ID_LIMIT
      modifies this`outQueue
      ensures |outQueue| <= outputQueueSize && AllFramed(rest)
      ensures var d := Drain(Opened(ooo), wm + 1, outputQueueSize - |old(outQueue)|);
              && (panicked <==> wm + 1 + |d| == ID_LIMIT)
              && (!panicked ==> nextWm == wm + 1 + |d|)
              && Opened(rest) == Without(Opened(ooo), wm + 1, wm + 1 + |d|)
              && outQueue == old(outQueue) + Payloads(d)
              && acks == Ids(d)
    {
      ghost var start := outQueue;
      ghost var moved: seq<Buffer<ByteString>> := [];
      panicked, rest, acks, nextWm := false, ooo, [], wm + 1;
      DrainStarts(ooo, wm, start, outputQueueSize);
      hide Draining, AllFramed, GetBufferId, DropMeta;
      while nextWm in rest
        invariant nextWm < ID_LIMIT
        invariant Draining(ooo, wm, start, outputQueueSize, rest, nextWm, outQueue, acks, moved)
        decreases outputQueueSize - |outQueue|
      {
        DrainBounds(ooo, wm, start, outputQueueSize, rest, nextWm, outQueue, acks, moved);
        if |outQueue| == outputQueueSize {
          break;
        }
        var stored := rest[nextWm];
        DrainMoves(ooo, wm, start, outputQueueSize, rest, nextWm, outQueue, acks, moved);
        outQueue := outQueue + [DropMeta(stored).value];
        acks := acks + [GetBufferId(stored).value];
        moved := moved + [Unframe(stored)];
        rest := rest - {nextWm};
        if nextWm == ID_LIMIT - 1 {
          panicked := true;
          DrainEnds(ooo, wm, start, outputQueueSize, rest, ID_LIMIT, outQueue, acks, moved);
          return;
        }
        nextWm := nextWm + 1;
      }
      DrainEnds(ooo, wm, start, outputQueueSize, rest, nextWm, outQueue, acks, moved);
    }

    /** Receiving a buffer: kept, acknowledged as a copy, or the end of the dispatcher. */
    method Handle(slot: Slot, b: ByteString) returns (panicked: bool, next: Slot, ghost added: seq<ByteString>)
      requires slot.Valid() && |outQueue| < outputQueueSize && Framed(b)
      modifies this`outQueue
      ensures |outQueue| <= outputQueueSize && outQueue == old(outQueue) + added
      ensures Handled(slot, b, outputQueueSize - |old(outQueue)|, panicked, next, added)
    {
      hide Handled, Slot.Valid, GetBufferId, DropMeta, AsI32;
      var bufferId := GetBufferId(b).value;
      ghost var room := outputQueueSize - |outQueue|;
      if AsI32(bufferId) <= slot.watermark || AsI32(bufferId) in slot.held {
        OldHandled(slot, b, room);
        return false, slot.(acks := slot.acks + [bufferId]), [];
      }
      var ooo := slot.held[AsI32(bufferId) := b];
      NewInserted(slot, b, ooo);
      hide Drain, Without, Opened, Payloads, Ids;
      var rest, nextWm, newAcks;
      panicked, rest, nextWm, newAcks := DrainHeld(ooo, slot.watermark);
      added := Payloads(Drain(Opened(ooo), slot.watermark + 1, room));
      next := Slot(slot.recv, slot.acks + newAcks, if panicked then slot.watermark else nextWm - 1, rest);
      NewHandled(slot, b, ooo, room, panicked, next);
    }

    /** One pass of the dispatcher over channel `c`, under the output queue's lock. A buffer
        without a proper frame kills it too. */
    method DispatchChannel(c: ByteString)
      requires Valid() && !poisoned && c in slots
      modifies this`slots, this`outQueue, this`poisoned
      ensures Valid() && c in slots && slots == old(slots)[c := slots[c]]
      ensures |old(outQueue)| == outputQueueSize || old(slots)[c].recv == [] ==>
                outQueue == old(outQueue) && slots == old(slots) && !poisoned
      ensures |old(outQueue)| < outputQueueSize && old(slots)[c].recv != [] ==>
                var slot, b, room := old(slots)[c], old(slots)[c].recv[0], outputQueueSize - |old(outQueue)|;
                && slots[c].recv == slot.recv[1..]
                && (!Framed(b) ==> poisoned && outQueue == old(outQueue))
                && (Framed(b) ==>
                      exists added :: outQueue == old(outQueue) + added
                        && Handled(slot.(recv := slot.recv[1..]), b, room, poisoned, slots[c], added))
    {
      if |outQueue| == outputQueueSize || |slots[c].recv| == 0 {
        return;
      }
      hide Handled, Opened, GetBufferId, DropMeta, AllFramed;
      var slot, b := slots[c], slots[c].recv[0];
      var rest := slot.(recv := slot.recv[1..]);
      assert rest.Valid();
      if GetBufferId(b).None? {
        poisoned := true;
        slots := slots[c := rest];
        return;
      }
      var next;
      ghost var added;
      ghost var room := outputQueueSize - |outQueue|;
      poisoned, next, added := Handle(rest, b);
      HandledValid(rest, b, room, poisoned, next, added);
      slots := slots[c := next];
    }
  }

  /** What handling a buffer comes to: the effect of `Dispatch` on the channel's view, and
      `added` on the output queue. When the watermark overflows, it is not stored. */
  ghost predicate Handled(slot: Slot, b: ByteString, room: nat, panicked: bool, next: Slot, added: seq<ByteString>)
    requires slot.Valid() && Framed(b)
  {
    var d := Dispatch(slot.View(), Unframe(b), room);
    && (panicked <==> Overflows(slot.View(), Unframe(b), room))
    && added == d.out
    && next.Valid() && next.recv == slot.recv && next.acks == slot.acks + d.acks
    && next.View() == if panicked then Reader(slot.watermark, d.reader.held) else d.reader
  }

  lemma HandledValid(slot: Slot, b: ByteString, room: nat, panicked: bool, next: Slot, added: seq<ByteString>)
    requires slot.Valid() && Framed(b) && Handled(slot, b, room, panicked, next, added)
    ensures next.Valid() && next.recv == slot.recv
  {
  }

  // ------------------------------------------------------------------ the loop's steps

  /** `moved` of the buffers held in `ooo` have gone to the output queue, which was `start`. */
  ghost predicate Draining(ooo: map<int, ByteString>, wm: int, start: seq<ByteString>, size: nat,
                           rest: map<int, ByteString>, nextWm: int, out: seq<ByteString>, acks: seq<nat>,
                           moved: seq<Buffer<ByteString>>)
  {
    && nextWm == wm + 1 + |moved| && |start| <= |out| <= size
    && AllFramed(ooo) && AllFramed(rest) && Opened(rest) == Without(Opened(ooo), wm + 1, nextWm)
    && Drain(Opened(ooo), wm + 1, size - |start|) == moved + Drain(Opened(ooo), nextWm, size - |out|)
    && out == start + Payloads(moved) && acks == Ids(moved)
  }

  lemma DrainStarts(ooo: map<int, ByteString>, wm: int, start: seq<ByteString>, size: nat)
    requires AllFramed(ooo) && |start| <= size
    ensures Draining(ooo, wm, start, size, ooo, wm + 1, start, [], [])
  {
    hide Drain;
    assert Without(Opened(ooo), wm + 1, wm + 1) == Opened(ooo);
    var none: seq<Buffer<ByteString>> := [];
    assert start + Payloads(none) == start;
  }

  lemma DrainBounds(ooo: map<int, ByteString>, wm: int, start: seq<ByteString>, size: nat,
                    rest: map<int, ByteString>, nextWm: int, out: seq<ByteString>, acks: seq<nat>,
                    moved: seq<Buffer<ByteString>>)
    requires Draining(ooo, wm, start, size, rest, nextWm, out, acks, moved)
    ensures |out| <= size && forall k | k in rest :: Framed(rest[k])
  {
  }

  lemma DrainMoves(ooo: map<int, ByteString>, wm: int, start: seq<ByteString>, size: nat,
                   rest: map<int, ByteString>, nextWm: int, out: seq<ByteString>, acks: seq<nat>,
                   moved: seq<Buffer<ByteString>>)
    requires Draining(ooo, wm, start, size, rest, nextWm, out, acks, moved) && nextWm in rest && |out| < size
    ensures Framed(rest[nextWm])
    ensures var b := rest[nextWm];
            Draining(ooo, wm, start, size, rest - {nextWm}, nextWm + 1, out + [DropMeta(b).value],
                     acks + [GetBufferId(b).value], moved + [Unframe(b)])
  {
    hide Without, Payloads, Ids, Opened, GetBufferId, DropMeta;
    var held, b := Opened(ooo), Unframe(rest[nextWm]);
    OpenedAt(rest, nextWm);
    WithoutMore(held, wm + 1, nextWm);
    PayloadsAppend(moved, b);
    DrainUnfolds(held, nextWm, size - |out|);
    hide Drain;
    var left := Drain(held, nextWm + 1, size - |out| - 1);
    assert moved + ([b] + left) == (moved + [b]) + left;
    assert (start + Payloads(moved)) + [b.payload] == start + (Payloads(moved) + [b.payload]);
  }

  lemma DrainUnfolds<V>(held: map<int, V>, next: int, room: nat)
    requires room > 0 && next in held
    ensures Drain(held, next, room) == [held[next]] + Drain(held, next + 1, room - 1)
  {
  }

  /** The loop has moved all there is to move when it ends. */
  lemma DrainEnds(ooo: map<int, ByteString>, wm: int, start: seq<ByteString>, size: nat,
                  rest: map<int, ByteString>, nextWm: int, out: seq<ByteString>, acks: seq<nat>,
                  moved: seq<Buffer<ByteString>>)
    requires Draining(ooo, wm, start, size, rest, nextWm, out, acks, moved)
    requires nextWm !in rest || |out| == size || nextWm !in ooo
    ensures |out| <= size && AllFramed(rest) && AllFramed(ooo) && nextWm == wm + 1 + |moved|
    ensures Drain(Opened(ooo), wm + 1, size - |start|) == moved
    ensures Opened(rest) == Without(Opened(ooo), wm + 1, nextWm)
    ensures out == start + Payloads(moved) && acks == Ids(moved)
  {
    hide Without, Payloads, Ids;
    OpenedAt(rest, nextWm);
    OpenedAt(ooo, nextWm);
    hide Opened;
    WithoutMore(Opened(ooo), wm + 1, nextWm);
    assert Drain(Opened(ooo), nextWm, size - |out|) == [];
  }

  lemma InsertOpened(m: map<int, ByteString>, k: int, b: ByteString)
    requires AllFramed(m) && Framed(b)
    ensures AllFramed(m[k := b]) && Opened(m[k := b]) == Opened(m)[k := Unframe(b)]
  {
  }

  lemma OldHandled(slot: Slot, b: ByteString, room: nat)
    requires slot.Valid() && Framed(b)
    requires var k := AsI32(GetBufferId(b).value); k <= slot.watermark || k in slot.held
    ensures Handled(slot, b, room, false, slot.(acks := slot.acks + [GetBufferId(b).value]), [])
  {
    hide AsI32, GetBufferId, DropMeta, Drain;
    OpenedAt(slot.held, AsI32(GetBufferId(b).value));
    hide Opened;
  }

  lemma NewInserted(slot: Slot, b: ByteString, ooo: map<int, ByteString>)
    requires slot.Valid() && Framed(b)
    requires ooo == slot.held[AsI32(GetBufferId(b).value) := b]
    ensures AllFramed(ooo) && -1 <= slot.watermark < ID_LIMIT - 1 && forall k | k in ooo :: k < ID_LIMIT
    ensures Opened(ooo) == Opened(slot.held)[AsI32(GetBufferId(b).value) := Unframe(b)]
  {
    var k := AsI32(GetBufferId(b).value);
    assert k < ID_LIMIT;
    hide AsI32, GetBufferId, DropMeta;
    InsertOpened(slot.held, k, b);
  }

  lemma NewDispatched(slot: Slot, b: ByteString, ooo: map<int, ByteString>, room: nat)
    requires slot.Valid() && Framed(b) && AllFramed(ooo)
    requires var k := AsI32(GetBufferId(b).value);
             k > slot.watermark && k !in slot.held && Opened(ooo) == Opened(slot.held)[k := Unframe(b)]
    ensures var next := slot.watermark + 1;
            var d := Drain(Opened(ooo), next, room);
            && Dispatch(slot.View(), Unframe(b), room)
               == Dispatched(Reader(slot.watermark + |d|, Without(Opened(ooo), next, next + |d|)), Payloads(d), Ids(d))
            && (Overflows(slot.View(), Unframe(b), room) <==> next + |d| >= ID_LIMIT)
  {
    hide AsI32, GetBufferId, DropMeta, Drain, Without, Payloads, Ids;
    OpenedAt(slot.held, AsI32(GetBufferId(b).value));
    hide Opened;
  }

  lemma NewHandled(slot: Slot, b: ByteString, ooo: map<int, ByteString>, room: nat, panicked: bool, next: Slot)
    requires slot.Valid() && Framed(b) && AllFramed(ooo) && AllFramed(next.held) && next.recv == slot.recv
    requires var k := AsI32(GetBufferId(b).value);
             k > slot.watermark && k !in slot.held && ooo == slot.held[k := b]
    requires var lo := slot.watermark + 1;
             var d := Drain(Opened(ooo), lo, room);
             && (panicked <==> lo + |d| == ID_LIMIT) && next.acks == slot.acks + Ids(d)
             && next.watermark == (if panicked then slot.watermark else slot.watermark + |d|)
             && Opened(next.held) == Without(Opened(ooo), lo, lo + |d|)
    ensures Handled(slot, b, room, panicked, next, Payloads(Drain(Opened(ooo), slot.watermark + 1, room)))
  {
    hide AsI32, GetBufferId, DropMeta, Drain, Without, Payloads, Ids, Opened, Dispatch, Overflows;
    NewInserted(slot, b, ooo);
    NothingAbove(ooo);
    RunStaysBelow(Opened(ooo), slot.watermark + 1, room);
    NewDispatched(slot, b, ooo, room);
    WithoutBelow(ooo, next.held, slot.watermark + 1, room);
  }

  lemma WithoutBelow(ooo: map<int, ByteString>, rest: map<int, ByteString>, lo: int, room: nat)
    requires AllFramed(ooo) && AllFramed(rest) && forall k | k in ooo :: k < ID_LIMIT
    requires Opened(rest) == Without(Opened(ooo), lo, lo + |Drain(Opened(ooo), lo, room)|)
    ensures forall k | k in rest :: k < ID_LIMIT
  {
    hide Drain;
    forall k | k in rest
      ensures k < ID_LIMIT
    {
      OpenedAt(rest, k);
      OpenedAt(ooo, k);
    }
  }

  lemma OpenedAt(m: map<int, ByteString>, k: int)
    requires AllFramed(m)
    ensures k in Opened(m) <==> k in m
    ensures k in m ==> Opened(m)[k] == Unframe(m[k])
    ensures AllFramed(m - {k}) && Opened(m - {k}) == Opened(m) - {k}
  {
  }

  lemma NothingAbove(m: map<int, ByteString>)
    requires AllFramed(m) && forall k | k in m :: k < ID_LIMIT
    ensures forall k | k in Opened(m) :: k < ID_LIMIT
  {
  }
}
