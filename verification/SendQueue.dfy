/** The writer's bounded queue of one channel: buffers get consecutive ids when they
    are accepted, are scheduled without being removed, and leave the queue in order
    once their ids have been acknowledged. */
module SendQueue {
  import opened Wrappers
  import opened Varint
  import opened Framing

  datatype Buffer<+P> = Buffer(id: nat, payload: P)

  datatype Queue<+P> = Queue(
    v: seq<Buffer<P>>,
    index: nat,
    nextId: nat,
    pops: set<nat>,
    capacity: nat)

  function Pushed<P>(q: Queue<P>, payload: P): (r: (Queue<P>, bool)) {
    if |q.v| == q.capacity then (q, false)
    else (q.(v := q.v + [Buffer(q.nextId, payload)], nextId := q.nextId + 1), true)
  }

  function Scheduled<P>(q: Queue<P>): (r: (Queue<P>, Option<Buffer<P>>)) {
    if q.index >= |q.v| then (q, None)
    else (q.(index := q.index + 1), Some(q.v[q.index]))
  }

  /** Pops the longest acknowledged prefix; `None` when the unsigned schedule index
      would be decremented below zero. */
  function PopAcked<P>(q: Queue<P>): (r: Option<Queue<P>>)
    decreases |q.v|
  {
    if |q.v| == 0 || q.v[0].id !in q.pops then Some(q)
    else if q.index == 0 then None
    else PopAcked(q.(v := q.v[1..], pops := q.pops - {q.v[0].id}, index := q.index - 1))
  }

  function PopRequested<P>(q: Queue<P>, id: nat): (r: Option<Queue<P>>) {
    PopAcked(q.(pops := q.pops + {id}))
  }

  /** Popping removes the longest prefix of acknowledged buffers and their requests; every
      other request is kept until its turn comes. */
  lemma {:induction false} PopAckedPrefix<P>(q: Queue<P>)
    requires forall i, j | 0 <= i < j < |q.v| :: q.v[i].id != q.v[j].id
    requires PopAcked(q).Some?
    ensures var r := PopAcked(q).value;
            var n := |q.v| - |r.v|;
            && 0 <= n <= q.index
            && r == q.(v := q.v[n..], index := q.index - n, pops := r.pops)
            && (forall i | 0 <= i < n :: q.v[i].id in q.pops)
            && (forall k :: k in r.pops <==> k in q.pops && forall i | 0 <= i < n :: q.v[i].id != k)
            && (r.v == [] || r.v[0].id !in q.pops)
    decreases |q.v|
  {
    if |q.v| != 0 && q.v[0].id in q.pops {
      var q' := q.(v := q.v[1..], pops := q.pops - {q.v[0].id}, index := q.index - 1);
      PopAckedPrefix(q');
      var r := PopAcked(q').value;
      var n := |q'.v| - |r.v|;
      assert q.v[n + 1..] == q'.v[n..];
      assert r == q.(v := q.v[n + 1..], index := q.index - (n + 1), pops := r.pops);
      forall i | 0 <= i < n + 1
        ensures q.v[i].id in q.pops
      {
        if i > 0 {
          assert q.v[i] == q'.v[i - 1];
        }
      }
      if r.v != [] {
        assert r.v[0] == q.v[n + 1];
      }
      forall k
        ensures k in r.pops <==> k in q.pops && forall i | 0 <= i < n + 1 :: q.v[i].id != k
      {
        assert forall i | 0 <= i < n :: q'.v[i] == q.v[i + 1];
        assert (forall i | 0 <= i < n + 1 :: q.v[i].id != k) <==>
               q.v[0].id != k && forall i | 0 <= i < n :: q'.v[i].id != k by {
          if q.v[0].id != k && forall i | 0 <= i < n :: q'.v[i].id != k {
            forall i | 0 <= i < n + 1
              ensures q.v[i].id != k
            {
              if i > 0 {
                assert q'.v[i - 1] == q.v[i];
              }
            }
          }
        }
      }
    }
  }

  /** The index underflows exactly if all scheduled buffers and one more are requested. */
  lemma {:induction false} PopUnderflowsIff<P>(q: Queue<P>)
    requires forall i, j | 0 <= i < j < |q.v| :: q.v[i].id != q.v[j].id
    ensures PopAcked(q).None? <==> q.index < |q.v| && forall i | 0 <= i <= q.index :: q.v[i].id in q.pops
    decreases |q.v|
  {
    if |q.v| != 0 && q.v[0].id in q.pops && q.index > 0 {
      var q' := q.(v := q.v[1..], pops := q.pops - {q.v[0].id}, index := q.index - 1);
      PopUnderflowsIff(q');
      forall i | 0 <= i < |q'.v|
        ensures q'.v[i].id in q'.pops <==> q.v[i + 1].id in q.pops
      {
        assert q'.v[i] == q.v[i + 1];
      }
      if forall i | 0 <= i <= q'.index && i < |q'.v| :: q'.v[i].id in q'.pops {
        forall i | 0 <= i <= q.index && i < |q.v|
          ensures q.v[i].id in q.pops
        {
          if i > 0 {
            assert q'.v[i - 1].id in q'.pops;
          }
        }
      }
    }
  }

  /** Acknowledging only scheduled buffers never drives the index below zero. */
  lemma {:induction false} PopAckedSafe<P>(q: Queue<P>)
    requires q.index <= |q.v|
    requires forall i | q.index <= i < |q.v| :: q.v[i].id !in q.pops
    ensures PopAcked(q).Some?
    decreases |q.v|
  {
    if |q.v| != 0 && q.v[0].id in q.pops {
      var q' := q.(v := q.v[1..], pops := q.pops - {q.v[0].id}, index := q.index - 1);
      forall i | q'.index <= i < |q'.v|
        ensures q'.v[i].id !in q'.pops
      {
        assert q'.v[i] == q.v[i + 1];
      }
      PopAckedSafe(q');
    }
  }

  predicate Framed(b: ByteString) {
    GetBufferId(b).Some?
  }

  function Unframe(b: ByteString): Buffer<ByteString>
    requires Framed(b)
  {
    Buffer(GetBufferId(b).value, DropMeta(b).value)
  }

  function UnframeAll(v: seq<ByteString>): (r: seq<Buffer<ByteString>>)
    requires forall i | 0 <= i < |v| :: Framed(v[i])
    ensures |r| == |v| && forall i | 0 <= i < |v| :: r[i] == Unframe(v[i])
  {
    seq(|v|, i requires 0 <= i < |v| => Unframe(v[i]))
  }

  class BufferQueue {
    var v: seq<ByteString>
    var index: nat
    var bufferIdSeq: nat
    var popRequests: set<nat>
    const maxBuffersPerChannel: nat

    ghost predicate Valid()
      reads this
    {
      forall i | 0 <= i < |v| :: Framed(v[i])
    }

    ghost function Contents(): Queue<ByteString>
      requires Valid()
      reads this
    {
      Queue(UnframeAll(v), index, bufferIdSeq, popRequests, maxBuffersPerChannel)
    }

    constructor (maxBuffersPerChannel: nat)
      ensures Valid()
      ensures Contents() == Queue([], 0, 0, {}, maxBuffersPerChannel)
    {
      v, index, bufferIdSeq, popRequests := [], 0, 0, {};
      this.maxBuffersPerChannel := maxBuffersPerChannel;
    }

    /** `None` is the panic on a channel id that does not fit the header; a full queue
        refuses a buffer before it comes to that. */
    method TryPush(channelId: ByteString, b: ByteString) returns (accepted: Option<bool>)
      requires Valid()
      modifies this`v, this`bufferIdSeq
      ensures Valid()
      ensures accepted.None? <==>
                |old(v)| != maxBuffersPerChannel && |channelId| > CHANNEL_ID_META_BYTES_LENGTH
      ensures accepted == Some(false) <==> |old(v)| == maxBuffersPerChannel
      ensures accepted.None? ==> Contents() == old(Contents())
      ensures accepted.Some? ==> (Contents(), accepted.value) == Pushed(old(Contents()), b)
      ensures v == if accepted == Some(true) && |channelId| <= CHANNEL_ID_META_BYTES_LENGTH
                   then old(v) + [Frame(channelId, old(bufferIdSeq), b)] else old(v)
    {
      if |v| == maxBuffersPerChannel {
        return Some(false);
      }
      var bufferId := bufferIdSeq;
      var newB := NewBufferWithMeta(b, channelId, bufferId);
      if newB.None? {
        return None;
      }
      FrameRoundTrip(channelId, bufferId, b);
      v := v + [newB.value];
      bufferIdSeq := bufferId + 1;
      assert UnframeAll(v) == UnframeAll(old(v)) + [Buffer(bufferId, b)];
      return Some(true);
    }

    method ScheduleNext() returns (r: Option<ByteString>)
      requires Valid()
      modifies this`index
      ensures Valid()
      ensures Contents() == Scheduled(old(Contents())).0
      ensures r.Some? <==> old(index) < |v|
      ensures r.Some? <==> Scheduled(old(Contents())).1.Some?
      ensures r.Some? ==> r.value == old(v)[old(index)]
                          && Framed(r.value)
                          && Some(Unframe(r.value)) == Scheduled(old(Contents())).1
    {
      if |v| == 0 {
        return None;
      }
      if index >= |v| {
        return None;
      }
      r := Some(v[index]);
      index := index + 1;
    }

    /** `ok` is false exactly when the decrement of `index` would underflow. */
    method RequestPop(bufferId: nat) returns (ok: bool)
      requires Valid()
      modifies this`v, this`index, this`popRequests
      ensures Valid()
      ensures ok <==> PopRequested(old(Contents()), bufferId).Some?
      ensures ok ==> Some(Contents()) == PopRequested(old(Contents()), bufferId)
    {
      popRequests := popRequests + {bufferId};
      while |v| != 0
        invariant Valid()
        invariant PopAcked(Contents()) == PopRequested(old(Contents()), bufferId)
        decreases |v|
      {
        var peekId := GetBufferId(v[0]).value;
        if peekId in popRequests {
          if index == 0 {
            return false;
          }
          assert UnframeAll(v)[1..] == UnframeAll(v[1..]);
          v := v[1..];
          popRequests := popRequests - {peekId};
          index := index - 1;
        } else {
          break;
        }
      }
      return true;
    }
  }
}
