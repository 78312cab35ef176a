/** The queue of multi-message buffers on its bytes, and the tracker that keeps its
    memory budget. */
module BufferQueues {
  import opened Wrappers
  import opened Varint
  import opened Packing
  import opened PackedQueue

  class BufferMemoryTracker {
    var sharedDict: map<ByteString, int>
    const capacityPerInChannel: int
    const capacityPerOut: int

    constructor (capacityPerInChannel: int, capacityPerOut: int)
      ensures sharedDict == map[]
      ensures this.capacityPerInChannel == capacityPerInChannel && this.capacityPerOut == capacityPerOut
    {
      sharedDict := map[];
      this.capacityPerInChannel, this.capacityPerOut := capacityPerInChannel, capacityPerOut;
    }

    ghost function Entry(key: ByteString): Option<int>
      reads this
    {
      if key in sharedDict then Some(sharedDict[key]) else None
    }

    function Remaining(key: ByteString, incoming: bool): int
      reads this
    {
      if key in sharedDict then sharedDict[key] else if incoming then capacityPerInChannel else capacityPerOut
    }

    /** `incoming` chooses the capacity that a new key starts with. */
    method TryAcquire(key: ByteString, amount: int, incoming: bool) returns (ok: bool)
      modifies this`sharedDict
      ensures ok <==> amount <= old(Remaining(key, incoming))
      ensures sharedDict
           == if ok then old(sharedDict)[key := old(Remaining(key, incoming)) - amount] else old(sharedDict)
    {
      var remaining := Remaining(key, incoming);
      ok := amount <= remaining;
      if ok {
        sharedDict := sharedDict[key := remaining - amount];
      }
    }

    /** `ok` is false when the key was never acquired. */
    method Release(key: ByteString, amount: int) returns (ok: bool)
      modifies this`sharedDict
      ensures ok <==> key in old(sharedDict)
      ensures sharedDict == if ok then old(sharedDict)[key := old(sharedDict)[key] + amount] else old(sharedDict)
    {
      if key !in sharedDict {
        return false;
      }
      sharedDict := sharedDict[key := sharedDict[key] + amount];
      return true;
    }
  }

  /** One channel of the buffer queues; `packs` is what the bytes in `queue` contain. */
  class ChannelQueue {
    ghost var packs: seq<Pack>
    var queue: seq<ByteString>
    var msgIdSeq: nat
    var bufferIdSeq: nat
    var scheduleIndex: int
    var shouldCutBuffer: bool
    var pops: set<nat>
    const tracker: BufferMemoryTracker
    const channelId: ChannelId
    const bufferSize: int
    const policy: Policy

    ghost predicate Valid()
      reads this
    {
      |queue| == |packs| && forall i | 0 <= i < |queue| :: queue[i] == PackBytes(channelId, packs[i])
    }

    ghost function Cfg(): Config {
      Config(channelId, bufferSize, policy, tracker.capacityPerInChannel)
    }

    ghost function Contents(): PQ
      reads this, tracker
    {
      PQ(packs, msgIdSeq, bufferIdSeq, scheduleIndex, shouldCutBuffer, pops, tracker.Entry(channelId))
    }

    constructor (tracker: BufferMemoryTracker, channelId: ChannelId, bufferSize: int, policy: Policy)
      ensures Valid() && this.tracker == tracker && this.channelId == channelId
      ensures Cfg() == Config(channelId, bufferSize, policy, tracker.capacityPerInChannel)
      ensures Contents() == InitQueue().(memory := tracker.Entry(channelId))
    {
      this.tracker, this.channelId, this.bufferSize, this.policy := tracker, channelId, bufferSize, policy;
      queue, packs, msgIdSeq, bufferIdSeq, scheduleIndex := [], [], 0, 0, 0;
      shouldCutBuffer, pops := false, {};
    }

    /** Adds a message to the last buffer, whose payload-size field grows. */
    method AppendToLast(msg: Msg, payload: ByteString) returns (r: AppendOutcome)
      requires Valid() && |queue| > 0 && !shouldCutBuffer && msg.id == msgIdSeq && payload == MsgBytes(msg)
      requires !NeedsNewBuffer(Cfg(), Contents(), msg)
      modifies this`queue, this`packs, this`msgIdSeq
      ensures Valid()
      ensures (Contents(), r) == Append(Cfg(), old(Contents()), msg.data)
    {
      hide Encode, PackBytes, Body, MsgBytes;
      var last := |queue| - 1;
      var updated := AppendMsgBytes(queue[last], payload, bufferSize);
      AppendIsPack(channelId, packs[last], msg, bufferSize);
      queue := queue[last := updated.value];
      packs := packs[last := Extend(packs[last], msg)];
      r := Accepted(msgIdSeq, bufferIdSeq);
      msgIdSeq := msgIdSeq + 1;
    }

    /** Starts a buffer if the budget allows; a message too big for it has taken a unit
        of the budget all the same. */
    method StartBuffer(msg: Msg) returns (r: AppendOutcome)
      requires Valid() && msg.id == msgIdSeq
      requires NeedsNewBuffer(Cfg(), Contents(), msg) || shouldCutBuffer
      modifies this`queue, this`packs, this`msgIdSeq, this`bufferIdSeq, this`shouldCutBuffer, tracker
      ensures Valid()
      ensures (Contents(), r) == Append(Cfg(), old(Contents()), msg.data)
    {
      hide Encode, PackBytes, Body, NeedsNewBuffer;
      var hasMem := tracker.TryAcquire(channelId, 1, true);
      if !hasMem {
        return Backpressure;
      }
      var buffer := SerializeMsgBytes(channelId, bufferIdSeq, msg, bufferSize, true);
      if !buffer.Ok? {
        return MessageTooBig;
      }
      queue := queue + [buffer.value];
      packs := packs + [Pack(bufferIdSeq, [msg])];
      r := Accepted(msgIdSeq, bufferIdSeq);
      msgIdSeq := msgIdSeq + 1;
      bufferIdSeq := bufferIdSeq + 1;
      shouldCutBuffer := false;
    }

    method AppendMsg(data: ByteString) returns (r: AppendOutcome)
      requires Valid()
      modifies this, tracker
      ensures Valid()
      ensures (Contents(), r) == Append(Cfg(), old(Contents()), data)
    {
      hide Encode, PackBytes, Body, Append;
      var msg := Msg(msgIdSeq, data);
      var serialized := SerializeMsgBytes(channelId, bufferIdSeq, msg, bufferSize, false);
      var payload := serialized.value;
      var needsNewBuffer := |queue| == 0 || policy.PerMessage? || bufferSize - |queue[|queue| - 1]| < |payload|;
      assert needsNewBuffer == NeedsNewBuffer(Cfg(), Contents(), msg);
      if !needsNewBuffer && !shouldCutBuffer {
        r := AppendToLast(msg, payload);
      } else {
        r := StartBuffer(msg);
      }
    }

    /** `quiet` is whether the flush period has passed since the last append. */
    method ScheduleNext(quiet: bool) returns (r: Outcome<Option<ByteString>>)
      requires Valid() && scheduleIndex >= 0
      modifies this`scheduleIndex, this`shouldCutBuffer
      ensures Valid()
      ensures match Schedule(Cfg(), old(Contents()), quiet)
              case Raised(f) => r == Raised(f) && Contents() == old(Contents())
              case Done((q, p)) =>
                && Contents() == q
                && r == Done(if p.None? then None else Some(PackBytes(channelId, p.value)))
    {
      hide PackBytes;
      var numSchedulable := |queue| - scheduleIndex;
      if numSchedulable < 0 {
        return Raised(IndexPastEnd);
      }
      if numSchedulable == 0 {
        return Done(None);
      }
      if numSchedulable == 1 && policy.PartialFlush? {
        if quiet {
          r := Done(Some(queue[scheduleIndex]));
          scheduleIndex := scheduleIndex + 1;
          shouldCutBuffer := true;
          return;
        } else {
          return Done(None);
        }
      }
      r := Done(Some(queue[scheduleIndex]));
      scheduleIndex := scheduleIndex + 1;
    }

    /** Removes the front buffer and gives back its memory; stops at an error. */
    method PopFront(frontId: nat) returns (fault: Option<Fault>)
      requires Valid() && |queue| > 0 && packs[0].id == frontId && frontId in pops
      modifies this`queue, this`packs, this`scheduleIndex, this`pops, tracker
      ensures Valid()
      ensures fault.Some? ==> PopRequested(old(Contents())) == Raised(fault.value)
      ensures fault.None? ==> |queue| < old(|queue|) && PopRequested(Contents()) == PopRequested(old(Contents()))
    {
      hide PackBytes;
      if scheduleIndex - 1 < 0 {
        return Some(IndexBelowZero);
      }
      var ok := tracker.Release(channelId, 1);
      if !ok {
        return Some(ReleaseOfUnknownKey);
      }
      pops := pops - {frontId};
      queue, packs := queue[1..], packs[1..];
      scheduleIndex := scheduleIndex - 1;
      return None;
    }

    /** Records the request and pops while the front buffer has been requested; stops at
        the first error. */
    method Pop(bufferId: nat) returns (fault: Option<Fault>)
      requires Valid()
      modifies this`queue, this`packs, this`scheduleIndex, this`pops, tracker
      ensures Valid()
      ensures match PackedQueue.Pop(old(Contents()), bufferId)
              case Raised(f) => fault == Some(f)
              case Done(q) => fault == None && Contents() == q
    {
      hide PackBytes, Decode;
      pops := pops + {bufferId};
      if |queue| == 0 {
        return Some(PopOfEmptyQueue);
      }
      while |queue| != 0
        invariant Valid()
        invariant PopRequested(Contents()) == PopRequested(old(Contents()).(pops := old(pops) + {bufferId}))
        decreases |queue|
      {
        PackLayout(channelId, packs[0]);
        var frontId := BufferIdAt(queue[0]).value.number;
        if frontId !in pops {
          break;
        }
        fault := PopFront(frontId);
        if fault.Some? {
          return;
        }
      }
      return None;
    }
  }
}
