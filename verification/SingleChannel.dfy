/** Runs of a system with one channel, built action by action: the ground for showing that
    bounds of the protocol are reached. All payloads are zero. */
module SingleChannel {
  import opened Wrappers
  import opened SendQueue
  import opened Dispatcher
  import opened Protocol

  ghost function Zeroes(n: nat): (r: seq<nat>)
    ensures |r| == n
  {
    seq(n, _ => 0)
  }

  ghost function Below(n: nat): set<nat> {
    if n == 0 then {} else Below(n - 1) + {n - 1}
  }

  /** The buffers of ids `lo` up to `hi`. */
  ghost function Buffers(lo: nat, hi: nat): (r: seq<Buffer<nat>>)
    requires lo <= hi
    ensures |r| == hi - lo
  {
    seq(hi - lo, i requires 0 <= i < hi - lo => Buffer(lo + i, 0))
  }

  /** A channel whose queue starts at id `popped`. */
  ghost function Chan(capacity: nat, popped: nat, accepted: nat, scheduled: nat, delivered: nat,
                      data: multiset<Buffer<nat>>, acks: multiset<nat>, held: map<int, Buffer<nat>>): Channel<nat>
    requires popped <= scheduled <= accepted
  {
    Channel(
      Queue(Buffers(popped, accepted), scheduled - popped, accepted, {}, capacity),
      data,
      acks,
      Reader(delivered - 1, held),
      Zeroes(accepted),
      scheduled,
      popped,
      Zeroes(delivered),
      Below(popped))
  }

  /** The system when `out` payloads wait to be read and `read` have been. */
  ghost function Single(ch: Channel<nat>, outCap: nat, out: nat, read: nat): System<nat> {
    System([ch], Tagged(0, Zeroes(out)), outCap, Tagged(0, Zeroes(read + out)), read)
  }

  ghost function Duplicates<P>(actions: seq<Action<P>>): nat {
    if actions == [] then 0
    else Duplicates(actions[..|actions| - 1]) + if actions[|actions| - 1].DuplicateData? then 1 else 0
  }

  ghost predicate IsRunTo(capacity: nat, outCap: nat, actions: seq<Action<nat>>, s: System<nat>, pushes: nat,
                          copies: nat) {
    && Run(Init<nat>(1, capacity, outCap), actions) == Running(s)
    && Pushes(actions, 0) == pushes && Duplicates(actions) == copies
  }

  /** Some run with this many pushes and duplications ends in `s`. */
  ghost predicate Reaches(capacity: nat, outCap: nat, s: System<nat>, pushes: nat, copies: nat) {
    exists actions :: IsRunTo(capacity, outCap, actions, s, pushes, copies)
  }

  lemma ReachesStart(capacity: nat, outCap: nat)
    ensures var start := Chan(capacity, 0, 0, 0, 0, multiset{}, multiset{}, map[]);
            Reaches(capacity, outCap, Single(start, outCap, 0, 0), 0, 0)
  {
    var s := Single(Chan(capacity, 0, 0, 0, 0, multiset{}, multiset{}, map[]), outCap, 0, 0);
    assert Below(0) == {};
    assert s.chans == Init<nat>(1, capacity, outCap).chans;
    assert IsRunTo(capacity, outCap, [], s, 0, 0);
  }

  lemma ReachesNext(capacity: nat, outCap: nat, s: System<nat>, pushes: nat, copies: nat, a: Action<nat>,
                    t: System<nat>)
    requires Reaches(capacity, outCap, s, pushes, copies) && (a.Push? ==> a.c == 0) && Apply(s, a) == Running(t)
    ensures Reaches(capacity, outCap, t, pushes + if a.Push? then 1 else 0, copies + if a.DuplicateData? then 1 else 0)
  {
    var actions :| IsRunTo(capacity, outCap, actions, s, pushes, copies);
    RunOn(Init<nat>(1, capacity, outCap), actions, s, a, t);
    hide Run, Pushes, Duplicates, Apply;
    assert IsRunTo(capacity, outCap, actions + [a], t,
                   pushes + if a.Push? then 1 else 0, copies + if a.DuplicateData? then 1 else 0);
  }

  lemma RunOn(s0: System<nat>, actions: seq<Action<nat>>, s: System<nat>, a: Action<nat>, t: System<nat>)
    requires Run(s0, actions) == Running(s) && Apply(s, a) == Running(t)
    ensures Run(s0, actions + [a]) == Running(t)
    ensures Pushes(actions + [a], 0) == Pushes(actions, 0) + if a.Push? && a.c == 0 then 1 else 0
    ensures Duplicates(actions + [a]) == Duplicates(actions) + if a.DuplicateData? then 1 else 0
  {
    hide Apply;
    assert (actions + [a])[..|actions + [a]| - 1] == actions;
  }

  // ------------------------------------------------------------------ single steps

  /** A step of the channel alone. */
  lemma ChannelMoves(ch: Channel<nat>, outCap: nat, out: nat, read: nat, a: Action<nat>, next: Channel<nat>)
    requires !a.Read? && !a.Receive? && a.c == 0 && ChannelStep(ch, a) == Some(next)
    ensures Apply(Single(ch, outCap, out, read), a) == Running(Single(next, outCap, out, read))
  {
    hide ChannelStep;
    assert [ch][0 := next] == [next] && [ch][0] == ch;
  }

  lemma PushMoves(capacity: nat, popped: nat, accepted: nat, scheduled: nat, delivered: nat,
                  data: multiset<Buffer<nat>>, acks: multiset<nat>, held: map<int, Buffer<nat>>)
    requires popped <= scheduled <= accepted && accepted - popped < capacity
    ensures ChannelStep(Chan(capacity, popped, accepted, scheduled, delivered, data, acks, held), Push(0, 0))
         == Some(Chan(capacity, popped, accepted + 1, scheduled, delivered, data, acks, held))
  {
    assert Buffers(popped, accepted) + [Buffer(accepted, 0)] == Buffers(popped, accepted + 1);
    assert Zeroes(accepted) + [0] == Zeroes(accepted + 1);
  }

  lemma ScheduleMoves(capacity: nat, popped: nat, accepted: nat, scheduled: nat, delivered: nat,
                      data: multiset<Buffer<nat>>, acks: multiset<nat>, held: map<int, Buffer<nat>>)
    requires popped <= scheduled < accepted
    ensures ChannelStep(Chan(capacity, popped, accepted, scheduled, delivered, data, acks, held), Schedule(0))
         == Some(Chan(capacity, popped, accepted, scheduled + 1, delivered, data + multiset{Buffer(scheduled, 0)}, acks,
                      held))
  {
  }

  lemma CopyMoves(capacity: nat, popped: nat, accepted: nat, scheduled: nat, delivered: nat,
                  data: multiset<Buffer<nat>>, acks: multiset<nat>, held: map<int, Buffer<nat>>, b: Buffer<nat>)
    requires popped <= scheduled <= accepted && b in data
    ensures ChannelStep(Chan(capacity, popped, accepted, scheduled, delivered, data, acks, held), DuplicateData(0, b))
         == Some(Chan(capacity, popped, accepted, scheduled, delivered, data + multiset{b}, acks, held))
  {
  }

  /** The ack of the oldest buffer in the queue pops it and no more. */
  lemma AckMoves(capacity: nat, popped: nat, accepted: nat, scheduled: nat, delivered: nat,
                 data: multiset<Buffer<nat>>, acks: multiset<nat>, held: map<int, Buffer<nat>>)
    requires popped < scheduled <= accepted && popped in acks
    ensures ChannelStep(Chan(capacity, popped, accepted, scheduled, delivered, data, acks, held), AckArrives(0, popped))
         == Some(Chan(capacity, popped + 1, accepted, scheduled, delivered, data, acks - multiset{popped}, held))
  {
    assert Below(popped) + {popped} == Below(popped + 1);
    hide Zeroes, Below;
    PopFirst(capacity, popped, accepted, scheduled);
  }

  lemma PopFirst(capacity: nat, popped: nat, accepted: nat, scheduled: nat)
    requires popped < scheduled <= accepted
    ensures PopRequested(Queue(Buffers(popped, accepted), scheduled - popped, accepted, {}, capacity), popped)
         == Some(Queue(Buffers(popped + 1, accepted), scheduled - popped - 1, accepted, {}, capacity))
  {
    var rest := Queue(Buffers(popped + 1, accepted), scheduled - popped - 1, accepted, {}, capacity);
    assert Buffers(popped, accepted)[1..] == Buffers(popped + 1, accepted);
    assert {} + {popped} == {popped} && {popped} - {popped} == {};
    assert PopAcked(rest) == Some(rest);
  }

  /** A received buffer, given what the reader makes of it. */
  lemma ReceiveMoves(ch: Channel<nat>, outCap: nat, out: nat, read: nat, b: Buffer<nat>, d: Dispatched<nat>, n: nat)
    requires b in ch.data && out < outCap && !Overflows(ch.reader, b, outCap - out)
    requires Dispatch(ch.reader, b, outCap - out) == d && d.out == Zeroes(n)
    ensures Apply(Single(ch, outCap, out, read), Receive(0, b))
         == Running(Single(ch.(data := ch.data - multiset{b}, reader := d.reader, acks := ch.acks + multiset(d.acks),
                               delivered := ch.delivered + Zeroes(n)), outCap, out + n, read))
  {
    hide Overflows, Dispatch;
    var s := Single(ch, outCap, out, read);
    assert s.chans[0] == ch && |s.out| == out;
    TaggedZeroes(out, n);
    TaggedZeroes(read + out, n);
    var next := ReceiveOn(ch, b, outCap - out).0;
    assert [ch][0 := next] == [next];
    assert read + out + n == read + (out + n);
  }

  lemma TaggedZeroes(m: nat, n: nat)
    ensures Tagged(0, Zeroes(m)) + Tagged(0, Zeroes(n)) == Tagged(0, Zeroes(m + n))
  {
  }

  lemma ReadMoves(ch: Channel<nat>, outCap: nat, out: nat, read: nat)
    requires out > 0
    ensures Apply(Single(ch, outCap, out, read), Read) == Running(Single(ch, outCap, out - 1, read + 1))
  {
    assert Tagged(0, Zeroes(out))[1..] == Tagged(0, Zeroes(out - 1));
  }

  // ------------------------------------------------------------------ whole cycles

  /** All `k` buffers accepted so far have been delivered and acknowledged. */
  ghost function Idle(capacity: nat, k: nat): Channel<nat> {
    Chan(capacity, k, k, k, k, multiset{}, multiset{}, map[])
  }

  /** One more buffer is on its way. */
  ghost function OnItsWay(capacity: nat, k: nat): Channel<nat> {
    Chan(capacity, k, k + 1, k + 1, k, multiset{Buffer(k, 0)}, multiset{}, map[])
  }

  lemma SendReaches(capacity: nat, outCap: nat, k: nat, out: nat, read: nat)
    requires capacity > 0 && Reaches(capacity, outCap, Single(Idle(capacity, k), outCap, out, read), k, 0)
    ensures Reaches(capacity, outCap, Single(OnItsWay(capacity, k), outCap, out, read), k + 1, 0)
  {
    hide Reaches, Apply, Single, Chan, ChannelStep;
    var pushed := Chan(capacity, k, k + 1, k, k, multiset{}, multiset{}, map[]);
    PushMoves(capacity, k, k, k, k, multiset{}, multiset{}, map[]);
    ChannelMoves(Idle(capacity, k), outCap, out, read, Push(0, 0), pushed);
    ReachesNext(capacity, outCap, Single(Idle(capacity, k), outCap, out, read), k, 0, Push(0, 0),
                Single(pushed, outCap, out, read));
    ScheduleMoves(capacity, k, k + 1, k, k, multiset{}, multiset{}, map[]);
    assert multiset{} + multiset{Buffer(k, 0)} == multiset{Buffer(k, 0)};
    ChannelMoves(pushed, outCap, out, read, Schedule(0), OnItsWay(capacity, k));
    ReachesNext(capacity, outCap, Single(pushed, outCap, out, read), k + 1, 0, Schedule(0),
                Single(OnItsWay(capacity, k), outCap, out, read));
  }

  /** The next buffer in order is delivered at once. */
  lemma DispatchNext(k: nat, room: nat)
    requires room > 0 && k < ID_LIMIT - 1
    ensures Dispatch<nat>(Reader(k - 1, map[]), Buffer(k, 0), room) == Dispatched(Reader(k, map[]), [0], [k])
    ensures !Overflows<nat>(Reader(k - 1, map[]), Buffer(k, 0), room)
  {
    var r: Reader<nat>, b: Buffer<nat> := Reader(k - 1, map[]), Buffer(k, 0);
    DispatchNew(r, b, room);
    var held := r.held[k as int := b];
    assert AsI32(k) == k;
    assert Drain(held, k + 1, room - 1) == [];
    assert Drain(held, k, room) == [b];
    assert Without(held, k, k + 1) == map[];
  }

  lemma ArriveReaches(capacity: nat, outCap: nat, k: nat, out: nat, read: nat)
    requires capacity > 0 && out < outCap && k < ID_LIMIT - 1
    requires Reaches(capacity, outCap, Single(OnItsWay(capacity, k), outCap, out, read), k + 1, 0)
    ensures Reaches(capacity, outCap, Single(Idle(capacity, k + 1), outCap, out + 1, read), k + 1, 0)
  {
    hide Reaches, Apply, Single, Dispatch, Overflows, ChannelStep;
    var b := Buffer(k, 0);
    var arrived := Chan(capacity, k, k + 1, k + 1, k + 1, multiset{}, multiset{k}, map[]);
    DispatchNext(k, outCap - out);
    assert [0] == Zeroes(1) && Zeroes(k) + Zeroes(1) == Zeroes(k + 1);
    assert multiset{b} - multiset{b} == multiset{} && multiset{} + multiset([k]) == multiset{k};
    ReceiveMoves(OnItsWay(capacity, k), outCap, out, read, b, Dispatched(Reader(k, map[]), [0], [k]), 1);
    ReachesNext(capacity, outCap, Single(OnItsWay(capacity, k), outCap, out, read), k + 1, 0, Receive(0, b),
                Single(arrived, outCap, out + 1, read));
    AckMoves(capacity, k, k + 1, k + 1, k + 1, multiset{}, multiset{k}, map[]);
    assert multiset{k} - multiset{k} == multiset{};
    ChannelMoves(arrived, outCap, out + 1, read, AckArrives(0, k), Idle(capacity, k + 1));
    ReachesNext(capacity, outCap, Single(arrived, outCap, out + 1, read), k + 1, 0, AckArrives(0, k),
                Single(Idle(capacity, k + 1), outCap, out + 1, read));
  }

  /** Without reading, the output queue takes as many buffers as it has places. */
  lemma {:induction false} FillReaches(capacity: nat, outCap: nat, k: nat)
    requires capacity > 0 && k <= outCap && k < ID_LIMIT
    ensures Reaches(capacity, outCap, Single(Idle(capacity, k), outCap, k, 0), k, 0)
  {
    if k == 0 {
      ReachesStart(capacity, outCap);
    } else {
      FillReaches(capacity, outCap, k - 1);
      SendReaches(capacity, outCap, k - 1, k - 1, 0);
      ArriveReaches(capacity, outCap, k - 1, k - 1, 0);
    }
  }

  /** With reading, there is no limit but that of the ids. */
  lemma {:induction false} StreamReaches(capacity: nat, outCap: nat, k: nat)
    requires capacity > 0 && outCap > 0 && k < ID_LIMIT
    ensures Reaches(capacity, outCap, Single(Idle(capacity, k), outCap, 0, k), k, 0)
  {
    if k == 0 {
      ReachesStart(capacity, outCap);
    } else {
      StreamReaches(capacity, outCap, k - 1);
      SendReaches(capacity, outCap, k - 1, 0, k - 1);
      ArriveReaches(capacity, outCap, k - 1, 0, k - 1);
      ReadMoves(Idle(capacity, k), outCap, 1, k - 1);
      ReachesNext(capacity, outCap, Single(Idle(capacity, k), outCap, 1, k - 1), k, 0, Read,
                  Single(Idle(capacity, k), outCap, 0, k));
    }
  }
}
