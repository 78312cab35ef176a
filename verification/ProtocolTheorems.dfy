/** What every run of the transfer protocol guarantees. */
module ProtocolTheorems {
  import opened SendQueue
  import opened Dispatcher
  import opened Protocol

  /** The channel has accepted at most 2^31 buffers, so that every id fits the reader's
      32-bit signed comparison. */
  ghost predicate IdsFit<P>(s: System<P>, c: nat) {
    c < |s.chans| && |s.chans[c].accepted| <= ID_LIMIT
  }

  /** What holds after every run that has not panicked. */
  ghost predicate RunShape<P>(n: nat, capacity: nat, outCap: nat, s: System<P>) {
    && TapeInv(s) && |s.chans| == n && s.outCap == outCap
    && (forall c | 0 <= c < n :: s.chans[c].queue.capacity == capacity)
  }

  lemma {:induction false} RunKeepsShape<P>(n: nat, capacity: nat, outCap: nat, actions: seq<Action<P>>, s: System<P>)
    requires Run(Init<P>(n, capacity, outCap), actions) == Running(s)
    ensures RunShape(n, capacity, outCap, s)
    decreases |actions|
  {
    if actions != [] {
      hide TapeInv, Apply;
      var front, a := actions[..|actions| - 1], actions[|actions| - 1];
      var before := Run(Init<P>(n, capacity, outCap), front).s;
      RunKeepsShape(n, capacity, outCap, front, before);
      StepKeepsTape(before, a);
      StepShape(before, a);
      forall c | 0 <= c < n
        ensures s.chans[c].queue.capacity == capacity
      {
        StepAccepts(before, a, c);
      }
    }
  }

  /** The invariant of a channel holds after every run that has not panicked and in which
      the channel has accepted at most 2^31 buffers, whatever happens on other channels. */
  lemma {:induction false} RunKeeps<P>(n: nat, capacity: nat, outCap: nat, actions: seq<Action<P>>, s: System<P>,
                                       c: nat)
    requires Run(Init<P>(n, capacity, outCap), actions) == Running(s) && c < n && IdsFit(s, c)
    ensures RunShape(n, capacity, outCap, s) && ChannelInv(s.chans[c])
    decreases |actions|
  {
    RunKeepsShape(n, capacity, outCap, actions, s);
    if actions != [] {
      hide ChannelInv, Apply, TapeInv;
      var front, a := actions[..|actions| - 1], actions[|actions| - 1];
      var before := Run(Init<P>(n, capacity, outCap), front).s;
      RunKeepsShape(n, capacity, outCap, front, before);
      StepAccepts(before, a, c);
      RunKeeps(n, capacity, outCap, front, before, c);
      StepKeeps(before, a, c);
    } else {
      InitKeeps<P>(n, capacity, outCap, c);
    }
  }

  lemma InitKeeps<P>(n: nat, capacity: nat, outCap: nat, c: nat)
    requires c < n
    ensures ChannelInv(Init<P>(n, capacity, outCap).chans[c])
  {
  }

  lemma StepShape<P>(s: System<P>, a: Action<P>)
    requires Apply(s, a).Running?
    ensures |Apply(s, a).s.chans| == |s.chans| && Apply(s, a).s.outCap == s.outCap
  {
  }

  ghost predicate SomeFull<P>(s: System<P>) {
    exists c :: 0 <= c < |s.chans| && |s.chans[c].accepted| >= ID_LIMIT
  }

  /** A state that a run passes through. */
  ghost predicate Passes<P>(s0: System<P>, actions: seq<Action<P>>, i: nat, s: System<P>) {
    i < |actions| && Run(s0, actions[..i]) == Running(s)
  }

  /** As long as every channel has accepted fewer than 2^31 buffers, nothing panics: a run
      that panics has passed a state in which some channel had accepted 2^31. */
  lemma {:induction false} PanicNeedsFullChannel<P>(n: nat, capacity: nat, outCap: nat, actions: seq<Action<P>>)
    requires Run(Init<P>(n, capacity, outCap), actions).Panic?
    ensures exists i: nat, s :: Passes(Init<P>(n, capacity, outCap), actions, i, s) && SomeFull(s)
    decreases |actions|
  {
    var s0, k := Init<P>(n, capacity, outCap), |actions| - 1;
    var front := actions[..k];
    hide ChannelInv, Apply, TapeInv;
    if Run(s0, front).Panic? {
      PanicNeedsFullChannel(n, capacity, outCap, front);
      var i: nat, s :| Passes(s0, front, i, s) && SomeFull(s);
      assert front[..i] == actions[..i];
      assert Passes(s0, actions, i, s);
    } else {
      var s := Run(s0, front).s;
      assert Passes(s0, actions, k, s);
      LastStepNeedsFullChannel(n, capacity, outCap, front, s, actions[k]);
    }
  }

  lemma LastStepNeedsFullChannel<P>(n: nat, capacity: nat, outCap: nat, front: seq<Action<P>>, s: System<P>,
                                    a: Action<P>)
    requires Run(Init<P>(n, capacity, outCap), front) == Running(s) && Apply(s, a).Panic?
    ensures SomeFull(s)
  {
    hide ChannelInv, Apply, TapeInv, Run;
    RunKeepsShape(n, capacity, outCap, front, s);
    if !SomeFull(s) {
      if !a.Read? && a.c < n {
        assert |s.chans[a.c].accepted| < ID_LIMIT;
        RunKeeps(n, capacity, outCap, front, s, a.c);
      }
      StepRuns(s, a);
    }
  }

  /** The payloads put on the output queue for a channel are exactly those accepted
      first, up to the watermark, each once and in order; what has been read is a
      prefix of them. */
  lemma ExactlyOnceInOrder<P>(n: nat, capacity: nat, outCap: nat, actions: seq<Action<P>>, s: System<P>, c: nat)
    requires Run(Init<P>(n, capacity, outCap), actions) == Running(s) && c < n && IdsFit(s, c)
    ensures |s.chans| == n
    ensures var ch := s.chans[c];
            && -1 <= ch.reader.watermark < |ch.accepted|
            && Of(s.tape, c) == ch.accepted[..ch.reader.watermark + 1]
            && s.numRead <= |s.tape|
            && s.out == s.tape[s.numRead..]
            && Of(s.tape[..s.numRead], c) <= ch.accepted
  {
    hide Run, Pushes, WriterInv, AckInv, IsCopy;
    RunKeeps(n, capacity, outCap, actions, s, c);
    var ch := s.chans[c];
    assert ChannelInv(ch);
    assert s.tape == s.tape[..s.numRead] + s.out;
    OfConcat(s.tape[..s.numRead], s.out, c);
  }

  /** The out-of-order map of a channel never reaches the writer's queue capacity. */
  lemma OutOfOrderBounded<P>(n: nat, capacity: nat, outCap: nat, actions: seq<Action<P>>, s: System<P>, c: nat)
    requires Run(Init<P>(n, capacity, outCap), actions) == Running(s) && c < n && IdsFit(s, c)
    ensures |s.chans| == n
    ensures var held := s.chans[c].reader.held;
            |held| == 0 || |held| < capacity
  {
    RunKeeps(n, capacity, outCap, actions, s, c);
    var ch := s.chans[c];
    assert ChannelInv(ch);
  }

  /** Acked ids were scheduled and are held or delivered; every accepted buffer is still
      queued under its id, or held, or delivered; queue ids are consecutive; the
      schedule index counts the scheduled buffers that have not been popped. */
  lemma NothingVanishes<P>(n: nat, capacity: nat, outCap: nat, actions: seq<Action<P>>, s: System<P>, c: nat)
    requires Run(Init<P>(n, capacity, outCap), actions) == Running(s) && c < n && IdsFit(s, c)
    ensures |s.chans| == n
    ensures var ch := s.chans[c];
            var q := ch.queue;
            && (forall id | id in ch.acks :: id < ch.scheduled && Kept(ch, id))
            && (forall id | id in ch.queue.pops :: id < ch.scheduled && Kept(ch, id))
            && q.index == ch.scheduled - ch.popped
            && (forall i | 0 <= i < |q.v| :: q.v[i].id == ch.popped + i)
            && (forall id: nat | id < |ch.accepted| ::
                  || (ch.popped <= id < ch.popped + |q.v| && q.v[id - ch.popped].payload == ch.accepted[id])
                  || (id < |ch.delivered| && ch.delivered[id] == ch.accepted[id])
                  || (id in ch.reader.held && ch.reader.held[id].payload == ch.accepted[id]))
  {
    RunKeeps(n, capacity, outCap, actions, s, c);
    var ch := s.chans[c];
    assert ChannelInv(ch);
    forall id: nat | Kept(ch, id)
      ensures id < ch.scheduled
    {
    }
    forall id: nat | id < ch.popped
      ensures || (id < |ch.delivered| && ch.delivered[id] == ch.accepted[id])
              || (id in ch.reader.held && ch.reader.held[id].payload == ch.accepted[id])
    {
      assert Kept(ch, id);
    }
  }

  /** In whatever order acks come, and however often: the popped buffers are exactly the
      longest prefix whose acks have all come, and an ack beyond it is remembered. So a queue
      slot is freed as soon as it may be. */
  lemma PoppedIsAckedPrefix<P>(n: nat, capacity: nat, outCap: nat, actions: seq<Action<P>>, s: System<P>, c: nat)
    requires Run(Init<P>(n, capacity, outCap), actions) == Running(s) && c < n && IdsFit(s, c)
    ensures |s.chans| == n
    ensures var ch := s.chans[c];
            && (forall id: nat | id < ch.popped :: id in ch.arrived)
            && ch.popped >= 0 && ch.popped !in ch.arrived
            && (forall id | id in ch.arrived && id >= ch.popped :: id in ch.queue.pops && id < ch.scheduled)
            && |ch.queue.v| == |ch.accepted| - ch.popped
  {
    hide Run;
    RunKeeps(n, capacity, outCap, actions, s, c);
    var ch := s.chans[c];
    forall id | id in ch.arrived && id >= ch.popped
      ensures id in ch.queue.pops && id < ch.scheduled
    {
      KeptWasScheduled(ch, id);
    }
  }

  // ------------------------------------------------------------------ flow control

  /** Popping runs ahead of delivery by no more than the out-of-order buffers. */
  lemma PoppedBound<P>(ch: Channel<P>)
    requires ChannelInv(ch)
    ensures ch.popped <= |ch.delivered| + |ch.reader.held|
  {
    if ch.popped > |ch.delivered| {
      forall k | |ch.delivered| <= k < ch.popped
        ensures k in ch.reader.held.Keys
      {
        assert Kept(ch, k);
      }
      RangeCard(ch.reader.held.Keys, |ch.delivered|, ch.popped);
    }
  }

  lemma Unread<P>(s: System<P>, c: nat)
    requires TapeInv(s) && c < |s.chans|
    ensures |s.chans[c].delivered| <= |Of(s.tape[..s.numRead], c)| + s.outCap
  {
    assert s.tape == s.tape[..s.numRead] + s.out;
    OfConcat(s.tape[..s.numRead], s.out, c);
  }

  /** However the network misbehaves, the buffers accepted on a channel and not yet read
      stay below twice the queue capacity plus the output queue size. */
  lemma FlowControl<P>(n: nat, capacity: nat, outCap: nat, actions: seq<Action<P>>, s: System<P>, c: nat)
    requires Run(Init<P>(n, capacity, outCap), actions) == Running(s) && c < n && IdsFit(s, c)
    ensures |s.chans| == n && s.numRead <= |s.tape|
    ensures var unread := |s.chans[c].accepted| - |Of(s.tape[..s.numRead], c)|;
            && unread <= 2 * capacity + outCap
            && (capacity > 0 ==> unread < 2 * capacity + outCap)
  {
    RunKeeps(n, capacity, outCap, actions, s, c);
    assert ChannelInv(s.chans[c]);
    PoppedBound(s.chans[c]);
    Unread(s, c);
  }

  /** Each buffer on the network is there once and is neither held nor delivered, and
      only delivered buffers have been acknowledged. */
  ghost predicate UniqueInv<P>(ch: Channel<P>) {
    && (forall b | b in ch.data :: ch.data[b] == 1 && !Kept(ch, b.id))
    && (forall id | id in ch.acks :: id < |ch.delivered|)
    && (forall id | id in ch.queue.pops :: id < |ch.delivered|)
    && ch.popped <= |ch.delivered|
  }

  lemma UniqueReceive<P>(ch: Channel<P>, b: Buffer<P>, room: nat)
    requires ChannelInv(ch) && UniqueInv(ch) && b in ch.data && room > 0 && |ch.accepted| <= ID_LIMIT
    ensures UniqueInv(ReceiveOn(ch, b, room).0)
  {
    assert IsCopy(ch, b) && !Kept(ch, b.id);
    ReceiveNewIs(ch, b, room);
    hide ReceiveOn, WriterInv, AckInv;
    UniqueNewAcks(ch, b, room);
    var ch' := AfterNew(ch, b, room);
    forall x | x in ch'.data
      ensures ch'.data[x] == 1 && !Kept(ch', x.id)
    {
      assert x in ch.data && IsCopy(ch, x) && ch.data[b] == 1;
      NewKept(ch, b, room, x.id);
    }
  }

  lemma UniqueNewAcks<P>(ch: Channel<P>, b: Buffer<P>, room: nat)
    requires ReaderInv(ch) && UniqueInv(ch) && IsCopy(ch, b) && !Kept(ch, b.id)
    ensures forall id | id in AfterNew(ch, b, room).acks :: id < |AfterNew(ch, b, room).delivered|
  {
    TakenAreNext(ch, b, room);
    var ch', t := AfterNew(ch, b, room), Taken(ch, b, room);
    forall id | id in ch'.acks
      ensures id < |ch'.delivered|
    {
      if id !in ch.acks {
        assert id in Ids(t);
        var i :| 0 <= i < |t| && t[i].id == id;
      }
    }
  }

  lemma UniqueAck<P>(ch: Channel<P>, id: nat)
    requires ChannelInv(ch) && UniqueInv(ch) && id in ch.acks
    ensures AckOn(ch, id).Some? && UniqueInv(AckOn(ch, id).value)
  {
    AckPops(ch, id);
    var ch' := AckOn(ch, id).value;
    var n := |ch.queue.v| - |ch'.queue.v|;
    assert forall k: nat :: Kept(ch', k) == Kept(ch, k);
    if n > 0 {
      assert ch.queue.v[n - 1].id == ch.popped + n - 1;
      assert ch.queue.v[n - 1].id in ch.queue.pops + {id};
    }
  }

  lemma UniqueSchedule<P>(ch: Channel<P>)
    requires ChannelInv(ch) && UniqueInv(ch)
    ensures UniqueInv(ScheduleOn(ch))
  {
    assert forall b | b in ch.data :: IsCopy(ch, b);
    assert forall k: nat :: Kept(ScheduleOn(ch), k) == Kept(ch, k);
  }

  /** The other actions leave what is held and delivered as it is. */
  lemma UniqueOther<P>(ch: Channel<P>, a: Action<P>)
    requires UniqueInv(ch) && (a.Push? || a.LoseData? || a.LoseAck? || a.DuplicateAck?)
    ensures UniqueInv(ChannelStep(ch, a).value)
  {
    assert forall k: nat :: Kept(ChannelStep(ch, a).value, k) == Kept(ch, k);
  }

  lemma UniqueChannelStep<P>(ch: Channel<P>, a: Action<P>)
    requires ChannelInv(ch) && UniqueInv(ch)
    requires !a.Read? && !a.Receive? && !a.DuplicateData?
    ensures ChannelStep(ch, a).Some? && UniqueInv(ChannelStep(ch, a).value)
  {
    hide ChannelInv, UniqueInv, AckOn, ScheduleOn;
    if a.AckArrives? {
      if a.id in ch.acks {
        UniqueAck(ch, a.id);
      }
    } else if a.Schedule? {
      UniqueSchedule(ch);
    } else {
      UniqueOther(ch, a);
    }
  }

  lemma UniqueStep<P>(s: System<P>, a: Action<P>, c: nat)
    requires c < |s.chans| && ChannelInv(s.chans[c]) && |s.chans[c].accepted| <= ID_LIMIT
    requires UniqueInv(s.chans[c]) && Apply(s, a).Running? && !(a.DuplicateData? && a.c == c)
    ensures |Apply(s, a).s.chans| == |s.chans| && UniqueInv(Apply(s, a).s.chans[c])
  {
    hide ChannelInv, UniqueInv, ChannelStep, ReceiveOn, Overflows;
    if !a.Read? && a.c == c {
      if a.Receive? {
        if a.b in s.chans[c].data && |s.out| < s.outCap {
          UniqueReceive(s.chans[c], a.b, s.outCap - |s.out|);
        }
      } else {
        UniqueChannelStep(s.chans[c], a);
      }
    }
  }

  /** The run duplicates no buffer of channel `c`. */
  ghost predicate NoCopies<P>(actions: seq<Action<P>>, c: nat) {
    forall i | 0 <= i < |actions| :: !(actions[i].DuplicateData? && actions[i].c == c)
  }

  lemma {:induction false} RunKeepsUnique<P>(n: nat, capacity: nat, outCap: nat, actions: seq<Action<P>>, s: System<P>,
                                             c: nat)
    requires Run(Init<P>(n, capacity, outCap), actions) == Running(s) && c < n && IdsFit(s, c)
    requires NoCopies(actions, c)
    ensures UniqueInv(s.chans[c])
    decreases |actions|
  {
    if actions != [] {
      hide ChannelInv, Apply, TapeInv, UniqueInv;
      var front, a := actions[..|actions| - 1], actions[|actions| - 1];
      var before := Run(Init<P>(n, capacity, outCap), front).s;
      RunKeepsShape(n, capacity, outCap, front, before);
      StepAccepts(before, a, c);
      RunKeeps(n, capacity, outCap, front, before, c);
      RunKeepsUnique(n, capacity, outCap, front, before, c);
      UniqueStep(before, a, c);
    }
  }

  /** If the network duplicates no buffer of the channel, the buffers accepted and not yet read fit the
      writer's queue and the output queue. */
  lemma FlowControlWithoutDuplication<P>(n: nat, capacity: nat, outCap: nat, actions: seq<Action<P>>, s: System<P>,
                                         c: nat)
    requires Run(Init<P>(n, capacity, outCap), actions) == Running(s) && c < n && IdsFit(s, c)
    requires NoCopies(actions, c)
    ensures |s.chans| == n && s.numRead <= |s.tape|
    ensures |s.chans[c].accepted| - |Of(s.tape[..s.numRead], c)| <= capacity + outCap
  {
    RunKeeps(n, capacity, outCap, actions, s, c);
    RunKeepsUnique(n, capacity, outCap, actions, s, c);
    assert ChannelInv(s.chans[c]) && UniqueInv(s.chans[c]);
    Unread(s, c);
  }
}
