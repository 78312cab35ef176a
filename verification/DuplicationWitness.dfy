/** The larger bound of flow control under duplication is needed and is reached, for all
    queue sizes: duplicating all but one of a window of buffers lets the writer pop what
    the reader still holds, and accept a whole window more. */
module DuplicationWitness {
  import opened SendQueue
  import opened Dispatcher
  import opened Protocol
  import opened SingleChannel

  ghost function Copies(lo: nat, hi: nat): multiset<Buffer<nat>>
    decreases hi
  {
    if hi <= lo then multiset{} else Copies(lo, hi - 1) + multiset{Buffer(hi - 1, 0)}
  }

  ghost function IdsFrom(lo: nat, hi: nat): multiset<nat>
    decreases hi - lo
  {
    if hi <= lo then multiset{} else multiset{lo} + IdsFrom(lo + 1, hi)
  }

  ghost function HeldFrom(lo: nat, hi: nat): map<int, Buffer<nat>> {
    map k: int | lo <= k < hi :: Buffer(k, 0)
  }

  lemma FirstId(lo: nat, hi: nat)
    requires lo < hi
    ensures IdsFrom(lo, hi) == IdsFrom(lo + 1, hi) + multiset([lo])
    ensures IdsFrom(lo, hi) - multiset{lo} == IdsFrom(lo + 1, hi) && lo in IdsFrom(lo, hi)
  {
  }

  lemma OneCopy(d: nat)
    ensures Copies(d, d + 1) == multiset{Buffer(d, 0)} && Buffer(d, 0) in Copies(d, d + 1)
    ensures Copies(d, d + 1) - multiset{Buffer(d, 0)} == multiset{} == Copies(d, d)
  {
  }

  // ------------------------------------------------------------------ the writer's side

  /** A whole window has been pushed and `j` of it scheduled, on top of `d` delivered. */
  ghost function Windowed(c: nat, d: nat, j: nat): Channel<nat>
    requires j <= c
  {
    Chan(c, d, d + c, d + j, d, Copies(d, d + j), multiset{}, map[])
  }

  lemma {:induction false} PushReaches(c: nat, outCap: nat, d: nat, j: nat)
    requires c > 0 && j <= c && Reaches(c, outCap, Single(Idle(c, d), outCap, d, 0), d, 0)
    ensures Reaches(c, outCap, Single(Chan(c, d, d + j, d, d, multiset{}, multiset{}, map[]), outCap, d, 0), d + j, 0)
  {
    hide Reaches, Apply, Single, Chan, ChannelStep;
    if j > 0 {
      PushReaches(c, outCap, d, j - 1);
      var before := Chan(c, d, d + j - 1, d, d, multiset{}, multiset{}, map[]);
      var after := Chan(c, d, d + j, d, d, multiset{}, multiset{}, map[]);
      PushMoves(c, d, d + j - 1, d, d, multiset{}, multiset{}, map[]);
      ChannelMoves(before, outCap, d, 0, Push(0, 0), after);
      ReachesNext(c, outCap, Single(before, outCap, d, 0), d + j - 1, 0, Push(0, 0), Single(after, outCap, d, 0));
    }
  }

  lemma {:induction false} ScheduleReaches(c: nat, outCap: nat, d: nat, j: nat)
    requires j <= c && Reaches(c, outCap, Single(Windowed(c, d, 0), outCap, d, 0), d + c, 0)
    ensures Reaches(c, outCap, Single(Windowed(c, d, j), outCap, d, 0), d + c, 0)
  {
    hide Reaches, Apply, Single, Chan, ChannelStep;
    if j > 0 {
      ScheduleReaches(c, outCap, d, j - 1);
      var before, after := Windowed(c, d, j - 1), Windowed(c, d, j);
      ScheduleMoves(c, d, d + c, d + j - 1, d, Copies(d, d + j - 1), multiset{}, map[]);
      ChannelMoves(before, outCap, d, 0, Schedule(0), after);
      ReachesNext(c, outCap, Single(before, outCap, d, 0), d + c, 0, Schedule(0), Single(after, outCap, d, 0));
    }
  }

  // ------------------------------------------------------------------ the reader's side

  /** The last buffers of the window, from id `lo` on, are held and acknowledged. */
  ghost function Holding(c: nat, d: nat, lo: nat): Channel<nat>
    requires d < lo <= d + c
  {
    Chan(c, d, d + c, d + c, d, Copies(d, lo), IdsFrom(lo, d + c), HeldFrom(lo, d + c))
  }

  /** A buffer behind a gap is held and nothing is drained. */
  lemma DispatchEarly(d: nat, lo: nat, hi: nat, room: nat)
    requires d < lo < hi <= ID_LIMIT
    ensures Dispatch<nat>(Reader(d - 1, HeldFrom(lo + 1, hi)), Buffer(lo, 0), room)
         == Dispatched(Reader(d - 1, HeldFrom(lo, hi)), [], [])
    ensures !Overflows<nat>(Reader(d - 1, HeldFrom(lo + 1, hi)), Buffer(lo, 0), room)
  {
    var r: Reader<nat>, b: Buffer<nat> := Reader(d - 1, HeldFrom(lo + 1, hi)), Buffer(lo, 0);
    DispatchNew(r, b, room);
    var held := r.held[lo as int := b];
    assert AsI32(lo) == lo;
    assert held == HeldFrom(lo, hi);
    assert Drain(held, d, room) == [];
    assert Without(held, d, d) == held;
    assert Payloads<nat>([]) == [] && Ids<nat>([]) == [];
  }

  lemma DispatchCopy(d: nat, lo: nat, hi: nat, room: nat)
    requires d < lo < hi <= ID_LIMIT
    ensures Dispatch<nat>(Reader(d - 1, HeldFrom(lo, hi)), Buffer(lo, 0), room)
         == Dispatched(Reader(d - 1, HeldFrom(lo, hi)), [], [lo])
    ensures !Overflows<nat>(Reader(d - 1, HeldFrom(lo, hi)), Buffer(lo, 0), room)
  {
    assert AsI32(lo) == lo;
    DispatchOld<nat>(Reader(d - 1, HeldFrom(lo, hi)), Buffer(lo, 0), room);
  }

  /** The buffer that closes the gap takes the last place of the output queue, so that the
      others stay held. */
  lemma DispatchGap(d: nat, hi: nat)
    requires d < hi < ID_LIMIT
    ensures Dispatch<nat>(Reader(d - 1, HeldFrom(d + 1, hi)), Buffer(d, 0), 1)
         == Dispatched(Reader(d, HeldFrom(d + 1, hi)), [0], [d])
    ensures !Overflows<nat>(Reader(d - 1, HeldFrom(d + 1, hi)), Buffer(d, 0), 1)
  {
    var r: Reader<nat>, b: Buffer<nat> := Reader(d - 1, HeldFrom(d + 1, hi)), Buffer(d, 0);
    DispatchNew(r, b, 1);
    var held := r.held[d as int := b];
    assert AsI32(d) == d;
    assert Drain(held, d + 1, 0) == [];
    assert Drain(held, d, 1) == [b];
    assert Without(held, d, d + 1) == HeldFrom(d + 1, hi);
  }

  /** Buffer `lo` is on the network twice. */
  ghost function Doubled(c: nat, d: nat, lo: nat): Channel<nat>
    requires d < lo < d + c
  {
    var b := Buffer(lo, 0);
    Chan(c, d, d + c, d + c, d, Copies(d, lo) + multiset{b} + multiset{b}, IdsFrom(lo + 1, d + c),
         HeldFrom(lo + 1, d + c))
  }

  /** Buffer `lo` is held and its copy is still on the network. */
  ghost function HeldOnce(c: nat, d: nat, lo: nat): Channel<nat>
    requires d < lo < d + c
  {
    Chan(c, d, d + c, d + c, d, Copies(d, lo) + multiset{Buffer(lo, 0)}, IdsFrom(lo + 1, d + c), HeldFrom(lo, d + c))
  }

  lemma DoubleReaches(c: nat, outCap: nat, d: nat, lo: nat, copies: nat)
    requires d < lo < d + c && Reaches(c, outCap, Single(Holding(c, d, lo + 1), outCap, d, 0), d + c, copies)
    ensures Reaches(c, outCap, Single(Doubled(c, d, lo), outCap, d, 0), d + c, copies + 1)
  {
    hide Reaches, Apply, Single, Chan, ChannelStep, HeldFrom, IdsFrom;
    var b: Buffer<nat> := Buffer(lo, 0);
    CopyMoves(c, d, d + c, d + c, d, Copies(d, lo) + multiset{b}, IdsFrom(lo + 1, d + c), HeldFrom(lo + 1, d + c), b);
    ChannelMoves(Holding(c, d, lo + 1), outCap, d, 0, DuplicateData(0, b), Doubled(c, d, lo));
    ReachesNext(c, outCap, Single(Holding(c, d, lo + 1), outCap, d, 0), d + c, copies, DuplicateData(0, b),
                Single(Doubled(c, d, lo), outCap, d, 0));
  }

  /** A buffer from which nothing is delivered changes what is held, carried and acked. */
  lemma KeepReaches(c: nat, outCap: nat, d: nat, copies: nat, ch: Channel<nat>, b: Buffer<nat>, d0: Dispatched<nat>,
                    next: Channel<nat>)
    requires b in ch.data && d < outCap && !Overflows(ch.reader, b, outCap - d)
    requires Dispatch(ch.reader, b, outCap - d) == d0 && d0.out == []
    requires next == ch.(data := ch.data - multiset{b}, reader := d0.reader, acks := ch.acks + multiset(d0.acks))
    requires Reaches(c, outCap, Single(ch, outCap, d, 0), d + c, copies)
    ensures Reaches(c, outCap, Single(next, outCap, d, 0), d + c, copies)
  {
    hide Reaches, Apply, Single, Dispatch, Overflows;
    assert d0.out == Zeroes(0) && ch.delivered + Zeroes(0) == ch.delivered;
    ReceiveMoves(ch, outCap, d, 0, b, d0, 0);
    ReachesNext(c, outCap, Single(ch, outCap, d, 0), d + c, copies, Receive(0, b), Single(next, outCap, d, 0));
  }

  lemma HoldReaches(c: nat, outCap: nat, d: nat, lo: nat, copies: nat)
    requires d < lo < d + c < ID_LIMIT && d < outCap
    requires Reaches(c, outCap, Single(Doubled(c, d, lo), outCap, d, 0), d + c, copies)
    ensures Reaches(c, outCap, Single(HeldOnce(c, d, lo), outCap, d, 0), d + c, copies)
  {
    hide Reaches, Single, Dispatch, Overflows, HeldFrom, IdsFrom, Copies;
    var b: Buffer<nat>, none: seq<nat> := Buffer(lo, 0), [];
    var data, acks := Copies(d, lo), IdsFrom(lo + 1, d + c);
    DispatchEarly(d, lo, d + c, outCap - d);
    assert data + multiset{b} + multiset{b} - multiset{b} == data + multiset{b} && acks + multiset(none) == acks;
    KeepReaches(c, outCap, d, copies, Doubled(c, d, lo), b, Dispatched(HeldOnce(c, d, lo).reader, [], []),
                HeldOnce(c, d, lo));
  }

  lemma AckCopyIs(c: nat, d: nat, lo: nat)
    requires d < lo < d + c
    ensures var ch, b := HeldOnce(c, d, lo), Buffer(lo, 0);
            && b in ch.data && ch.reader == Reader(d - 1, HeldFrom(lo, d + c))
            && Holding(c, d, lo) == ch.(data := ch.data - multiset{b}, acks := ch.acks + multiset([lo]))
  {
    hide HeldFrom, IdsFrom, Copies;
    FirstId(lo, d + c);
    var b: Buffer<nat> := Buffer(lo, 0);
    assert Copies(d, lo) + multiset{b} - multiset{b} == Copies(d, lo);
  }

  lemma AckCopyReaches(c: nat, outCap: nat, d: nat, lo: nat, copies: nat)
    requires d < lo < d + c < ID_LIMIT && d < outCap
    requires Reaches(c, outCap, Single(HeldOnce(c, d, lo), outCap, d, 0), d + c, copies)
    ensures Reaches(c, outCap, Single(Holding(c, d, lo), outCap, d, 0), d + c, copies)
  {
    hide Reaches, Single, Dispatch, Overflows, HeldFrom, HeldOnce, Holding;
    DispatchCopy(d, lo, d + c, outCap - d);
    AckCopyIs(c, d, lo);
    KeepReaches(c, outCap, d, copies, HeldOnce(c, d, lo), Buffer(lo, 0),
                Dispatched(Reader(d - 1, HeldFrom(lo, d + c)), [], [lo]), Holding(c, d, lo));
  }

  lemma NothingHeld(c: nat, d: nat)
    requires c > 0
    ensures Holding(c, d, d + c) == Windowed(c, d, c)
  {
    assert HeldFrom(d + c, d + c) == map[];
  }

  /** All but the first buffer of the window are duplicated, held and acknowledged. */
  lemma {:induction false} HoldAllReaches(c: nat, outCap: nat, d: nat, lo: nat)
    requires d < lo <= d + c < ID_LIMIT && d < outCap
    requires Reaches(c, outCap, Single(Windowed(c, d, c), outCap, d, 0), d + c, 0)
    ensures Reaches(c, outCap, Single(Holding(c, d, lo), outCap, d, 0), d + c, d + c - lo)
    decreases d + c - lo
  {
    hide Reaches, Single, Doubled, HeldOnce, Holding, Windowed;
    if lo == d + c {
      NothingHeld(c, d);
    } else {
      HoldAllReaches(c, outCap, d, lo + 1);
      DoubleReaches(c, outCap, d, lo, d + c - lo - 1);
      HoldReaches(c, outCap, d, lo, d + c - lo);
      AckCopyReaches(c, outCap, d, lo, d + c - lo);
    }
  }

  // ------------------------------------------------------------------ acks and a new window

  /** The output queue is full, the window is held behind it, and its first `j` buffers have
      been popped. */
  ghost function Popped(c: nat, d: nat, j: nat): Channel<nat>
    requires j <= c
  {
    Chan(c, d + j, d + c, d + c, d + 1, multiset{}, IdsFrom(d + j, d + c), HeldFrom(d + 1, d + c))
  }

  lemma GapIs(c: nat, d: nat)
    requires c > 0
    ensures var ch, b := Holding(c, d, d + 1), Buffer(d, 0);
            && b in ch.data && ch.reader == Reader(d - 1, HeldFrom(d + 1, d + c))
            && Popped(c, d, 0) == ch.(data := ch.data - multiset{b}, reader := Reader(d, HeldFrom(d + 1, d + c)),
                                      acks := ch.acks + multiset([d]), delivered := ch.delivered + Zeroes(1))
  {
    hide HeldFrom, IdsFrom, Copies;
    OneCopy(d);
    FirstId(d, d + c);
    assert Zeroes(d) + Zeroes(1) == Zeroes(d + 1);
  }

  lemma GapReaches(c: nat, outCap: nat, d: nat, copies: nat)
    requires c > 0 && d + c < ID_LIMIT && outCap == d + 1
    requires Reaches(c, outCap, Single(Holding(c, d, d + 1), outCap, d, 0), d + c, copies)
    ensures Reaches(c, outCap, Single(Popped(c, d, 0), outCap, d + 1, 0), d + c, copies)
  {
    hide Reaches, Apply, Single, Dispatch, Overflows, HeldFrom, Holding, Popped;
    var b: Buffer<nat> := Buffer(d, 0);
    GapIs(c, d);
    DispatchGap(d, d + c);
    assert [0] == Zeroes(1);
    ReceiveMoves(Holding(c, d, d + 1), outCap, d, 0, b, Dispatched(Reader(d, HeldFrom(d + 1, d + c)), [0], [d]), 1);
    ReachesNext(c, outCap, Single(Holding(c, d, d + 1), outCap, d, 0), d + c, copies, Receive(0, b),
                Single(Popped(c, d, 0), outCap, d + 1, 0));
  }

  lemma {:induction false} PopReaches(c: nat, outCap: nat, d: nat, j: nat, copies: nat)
    requires j <= c && Reaches(c, outCap, Single(Popped(c, d, 0), outCap, d + 1, 0), d + c, copies)
    ensures Reaches(c, outCap, Single(Popped(c, d, j), outCap, d + 1, 0), d + c, copies)
  {
    hide Reaches, Apply, Single, Chan, ChannelStep, HeldFrom, IdsFrom;
    if j > 0 {
      PopReaches(c, outCap, d, j - 1, copies);
      var id := d + j - 1;
      FirstId(id, d + c);
      AckMoves(c, id, d + c, d + c, d + 1, multiset{}, IdsFrom(id, d + c), HeldFrom(d + 1, d + c));
      ChannelMoves(Popped(c, d, j - 1), outCap, d + 1, 0, AckArrives(0, id), Popped(c, d, j));
      ReachesNext(c, outCap, Single(Popped(c, d, j - 1), outCap, d + 1, 0), d + c, copies, AckArrives(0, id),
                  Single(Popped(c, d, j), outCap, d + 1, 0));
    }
  }

  /** `j` buffers of a new window have been accepted. */
  ghost function Refilled(c: nat, d: nat, j: nat): Channel<nat> {
    Chan(c, d + c, d + c + j, d + c, d + 1, multiset{}, multiset{}, HeldFrom(d + 1, d + c))
  }

  lemma {:induction false} RefillReaches(c: nat, outCap: nat, d: nat, j: nat, copies: nat)
    requires j <= c && Reaches(c, outCap, Single(Popped(c, d, c), outCap, d + 1, 0), d + c, copies)
    ensures Reaches(c, outCap, Single(Refilled(c, d, j), outCap, d + 1, 0), d + c + j, copies)
  {
    hide Reaches, Apply, Single, Chan, ChannelStep, HeldFrom;
    if j > 0 {
      RefillReaches(c, outCap, d, j - 1, copies);
      PushMoves(c, d + c, d + c + j - 1, d + c, d + 1, multiset{}, multiset{}, HeldFrom(d + 1, d + c));
      ChannelMoves(Refilled(c, d, j - 1), outCap, d + 1, 0, Push(0, 0), Refilled(c, d, j));
      ReachesNext(c, outCap, Single(Refilled(c, d, j - 1), outCap, d + 1, 0), d + c + j - 1, copies, Push(0, 0),
                  Single(Refilled(c, d, j), outCap, d + 1, 0));
    }
  }

  /** For all sizes there is a run that duplicates one buffer less than the queue holds and
      leaves unread as many accepted buffers as the general bound allows: one less than
      twice the queue and the output queue together hold. */
  lemma DuplicationReachesTheBound(capacity: nat, outCap: nat)
    returns (actions: seq<Action<nat>>, s: System<nat>)
    requires capacity > 0 && outCap > 0 && 2 * capacity + outCap <= ID_LIMIT
    ensures Run(Init<nat>(1, capacity, outCap), actions) == Running(s)
    ensures Pushes(actions, 0) == 2 * capacity + outCap - 1 && Duplicates(actions) == capacity - 1
    ensures |s.chans| == 1 && s.numRead <= |s.tape|
    ensures |s.chans[0].accepted| - |Of(s.tape[..s.numRead], 0)| == 2 * capacity + outCap - 1
  {
    var d := outCap - 1;
    s := Single(Refilled(capacity, d, capacity), outCap, outCap, 0);
    assert s.tape[..0] == [] && |s.chans[0].accepted| == 2 * capacity + outCap - 1;
    BoundIsReached(capacity, outCap, d);
    hide Run, Single, Refilled;
    actions :| IsRunTo(capacity, outCap, actions, s, 2 * capacity + outCap - 1, capacity - 1);
  }

  lemma BoundIsReached(c: nat, outCap: nat, d: nat)
    requires c > 0 && outCap == d + 1 && 2 * c + outCap <= ID_LIMIT
    ensures Reaches(c, outCap, Single(Refilled(c, d, c), outCap, d + 1, 0), 2 * c + d, c - 1)
  {
    OneCopy(d);
    hide Reaches, Single, Chan, Copies, Holding, Popped, Refilled;
    FillReaches(c, outCap, d);
    PushReaches(c, outCap, d, c);
    ScheduleReaches(c, outCap, d, c);
    HoldAllReaches(c, outCap, d, d + 1);
    GapReaches(c, outCap, d, c - 1);
    PopReaches(c, outCap, d, c, c - 1);
    RefillReaches(c, outCap, d, c, c - 1);
  }
}
