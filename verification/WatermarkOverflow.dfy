/** The bound on the number of buffers of a channel is exact: with one buffer more there
    is a run, over a perfect network, that kills the dispatcher. */
module WatermarkOverflow {
  import opened SendQueue
  import opened Dispatcher
  import opened Protocol
  import opened ProtocolTheorems
  import opened SingleChannel

  /** A run with 2^31 pushes, without loss, reordering or duplication, that panics. */
  lemma PanicIsReached(capacity: nat, outCap: nat) returns (actions: seq<Action<nat>>)
    requires capacity > 0 && outCap > 0
    ensures Pushes(actions, 0) == ID_LIMIT && Run(Init<nat>(1, capacity, outCap), actions) == Panic
  {
    var k, b := ID_LIMIT - 1, Buffer(ID_LIMIT - 1, 0);
    StreamReaches(capacity, outCap, k);
    SendReaches(capacity, outCap, k, 0, k);
    var s := Single(OnItsWay(capacity, k), outCap, 0, k);
    LastIdOverflows<nat>(0, outCap);
    assert s.chans[0] == OnItsWay(capacity, k) && |s.out| == 0;
    assert Apply(s, Receive(0, b)) == Panic;
    hide Apply, Single;
    var before :| IsRunTo(capacity, outCap, before, s, k + 1, 0);
    actions := before + [Receive(0, b)];
    assert actions[..|actions| - 1] == before;
  }

  /** All states that a run passes through have accepted at most `limit` buffers. */
  ghost predicate Within(capacity: nat, outCap: nat, actions: seq<Action<nat>>, limit: nat) {
    forall i: nat, s | Passes(Init<nat>(1, capacity, outCap), actions, i, s) ::
      |s.chans| == 1 && |s.chans[0].accepted| <= limit
  }

  lemma {:induction false} AcceptedArePushes(capacity: nat, outCap: nat, actions: seq<Action<nat>>, s: System<nat>)
    requires Run(Init<nat>(1, capacity, outCap), actions) == Running(s)
    ensures |s.chans| == 1 && |s.chans[0].accepted| <= Pushes(actions, 0)
    decreases |actions|
  {
    hide Apply;
    if actions != [] {
      var front, a := actions[..|actions| - 1], actions[|actions| - 1];
      var before := Run(Init<nat>(1, capacity, outCap), front).s;
      AcceptedArePushes(capacity, outCap, front, before);
      StepAccepts(before, a, 0);
    }
  }

  lemma {:induction false} PushesGrow(actions: seq<Action<nat>>, i: nat)
    requires i <= |actions|
    ensures Pushes(actions[..i], 0) <= Pushes(actions, 0)
    decreases |actions|
  {
    if i < |actions| {
      var front := actions[..|actions| - 1];
      PushesGrow(front, i);
      assert front[..i] == actions[..i];
    } else {
      assert actions[..i] == actions;
    }
  }

  /** No run of a channel that stays within a number of accepted buffers panics, exactly if
      that number is below 2^31. Refused pushes do not count. */
  lemma NoPanicIff(capacity: nat, outCap: nat, limit: nat)
    requires capacity > 0 && outCap > 0
    ensures (forall actions: seq<Action<nat>> | Within(capacity, outCap, actions, limit) ::
               Run(Init<nat>(1, capacity, outCap), actions).Running?)
        <==> limit < ID_LIMIT
  {
    hide Run, Pushes;
    var s0 := Init<nat>(1, capacity, outCap);
    if limit < ID_LIMIT {
      forall actions: seq<Action<nat>> | Within(capacity, outCap, actions, limit)
        ensures Run(s0, actions).Running?
      {
        if Run(s0, actions).Panic? {
          PanicNeedsFullChannel(1, capacity, outCap, actions);
          assert false;
        }
      }
    } else {
      var actions := PanicIsReached(capacity, outCap);
      forall i: nat, s | Passes(s0, actions, i, s)
        ensures |s.chans| == 1 && |s.chans[0].accepted| <= limit
      {
        AcceptedArePushes(capacity, outCap, actions[..i], s);
        PushesGrow(actions, i);
      }
      assert Within(capacity, outCap, actions, limit);
    }
  }

  // ------------------------------------------------------------------ one buffer more

  /** Two buffers are on their way. */
  ghost function BothOnTheirWay(capacity: nat, k: nat, acks: multiset<nat>, data: multiset<Buffer<nat>>): Channel<nat> {
    Chan(capacity, k, k + 2, k + 2, k, data, acks, map[])
  }

  lemma SendBoth(capacity: nat, outCap: nat, k: nat, out: nat, read: nat)
    requires capacity > 1 && Reaches(capacity, outCap, Single(Idle(capacity, k), outCap, out, read), k, 0)
    ensures var both := BothOnTheirWay(capacity, k, multiset{}, multiset{Buffer(k, 0), Buffer(k + 1, 0)});
            Reaches(capacity, outCap, Single(both, outCap, out, read), k + 2, 0)
  {
    hide Reaches, Apply, Single, Chan, ChannelStep;
    var first: Buffer<nat>, second: Buffer<nat> := Buffer(k, 0), Buffer(k + 1, 0);
    var c1, c2 := OnItsWay(capacity, k), Chan(capacity, k, k + 2, k + 1, k, multiset{first}, multiset{}, map[]);
    var c3 := BothOnTheirWay(capacity, k, multiset{}, multiset{first, second});
    SendReaches(capacity, outCap, k, out, read);
    PushMoves(capacity, k, k + 1, k + 1, k, multiset{first}, multiset{}, map[]);
    ChannelMoves(c1, outCap, out, read, Push(0, 0), c2);
    ReachesNext(capacity, outCap, Single(c1, outCap, out, read), k + 1, 0, Push(0, 0), Single(c2, outCap, out, read));
    ScheduleMoves(capacity, k, k + 2, k + 1, k, multiset{first}, multiset{}, map[]);
    assert multiset{first} + multiset{second} == multiset{first, second};
    ChannelMoves(c2, outCap, out, read, Schedule(0), c3);
    ReachesNext(capacity, outCap, Single(c2, outCap, out, read), k + 2, 0, Schedule(0), Single(c3, outCap, out, read));
  }

  /** The bound of 2^31 accepted buffers in the theorems about channels is needed as well:
      with one more, and a queue of at least two, a run without panic ends with an
      acknowledged buffer that the reader neither holds nor has delivered. */
  lemma LossIsReached(capacity: nat, outCap: nat) returns (actions: seq<Action<nat>>, s: System<nat>)
    requires capacity > 1 && outCap > 0
    ensures Run(Init<nat>(1, capacity, outCap), actions) == Running(s) && |s.chans| == 1
    ensures |s.chans[0].accepted| == ID_LIMIT + 1
    ensures ID_LIMIT in s.chans[0].acks && !Kept(s.chans[0], ID_LIMIT)
  {
    var k := ID_LIMIT - 1;
    var first: Buffer<nat>, second: Buffer<nat> := Buffer(k, 0), Buffer(ID_LIMIT, 0);
    StreamReaches(capacity, outCap, k);
    SendBoth(capacity, outCap, k, 0, k);
    var before := BothOnTheirWay(capacity, k, multiset{}, multiset{first, second});
    var after := BothOnTheirWay(capacity, k, multiset{ID_LIMIT}, multiset{first});
    LostByReader(k, outCap);
    LossMoves(capacity, outCap, k, before, after);
    s := Single(after, outCap, 0, k);
    assert s.chans[0] == after && |after.accepted| == ID_LIMIT + 1;
    ReachesNext(capacity, outCap, Single(before, outCap, 0, k), k + 2, 0, Receive(0, second), s);
    hide Run, Apply, Single;
    actions :| IsRunTo(capacity, outCap, actions, s, k + 2, 0);
  }

  lemma LostByReader(k: nat, room: nat)
    requires k < ID_LIMIT
    ensures Dispatch<nat>(Reader(k - 1, map[]), Buffer(ID_LIMIT, 0), room)
         == Dispatched(Reader(k - 1, map[]), [], [ID_LIMIT])
    ensures !Overflows<nat>(Reader(k - 1, map[]), Buffer(ID_LIMIT, 0), room)
  {
    assert AsI32(ID_LIMIT) == -0x8000_0000;
  }

  lemma LossMoves(capacity: nat, outCap: nat, k: nat, before: Channel<nat>, after: Channel<nat>)
    requires outCap > 0 && k == ID_LIMIT - 1
    requires before == BothOnTheirWay(capacity, k, multiset{}, multiset{Buffer(k, 0), Buffer(k + 1, 0)})
    requires after == BothOnTheirWay(capacity, k, multiset{ID_LIMIT}, multiset{Buffer(k, 0)})
    ensures Apply(Single(before, outCap, 0, k), Receive(0, Buffer(ID_LIMIT, 0))) == Running(Single(after, outCap, 0, k))
  {
    hide Apply, Single, Dispatch, Overflows;
    var b: Buffer<nat> := Buffer(ID_LIMIT, 0);
    LostByReader(k, outCap);
    var none: seq<nat> := [];
    assert none == Zeroes(0) && Zeroes(k) + Zeroes(0) == Zeroes(k);
    assert multiset{Buffer(k, 0), b} - multiset{b} == multiset{Buffer(k, 0)};
    assert multiset{} + multiset([ID_LIMIT]) == multiset{ID_LIMIT};
    ReceiveMoves(before, outCap, 0, k, b, Dispatched(Reader(k - 1, map[]), [], [ID_LIMIT]), 0);
  }
}
