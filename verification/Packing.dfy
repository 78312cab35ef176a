/** Buffers that hold several messages: a padded channel id, the buffer id, the payload
    size, and for each message its id, its size and its bytes.  Appending a message
    rewrites the payload size in place. */
module Packing {
  import opened Wrappers
  import opened Varint

  const CHANNEL_ID_HEADER_LENGTH: nat := 16

  datatype Msg = Msg(id: nat, data: ByteString)

  /** The content of one buffer. */
  datatype Pack = Pack(id: nat, msgs: seq<Msg>)

  function PadHeader(channelId: ByteString): (h: ByteString)
    requires |channelId| <= CHANNEL_ID_HEADER_LENGTH
    ensures |h| == CHANNEL_ID_HEADER_LENGTH && h[..|channelId|] == channelId
    ensures forall i | |channelId| <= i < |h| :: h[i] == 32
  {
    channelId + seq(CHANNEL_ID_HEADER_LENGTH - |channelId|, _ => 32)
  }

  function MsgBytes(m: Msg): (s: ByteString)
    ensures |s| >= 2 + |m.data|
  {
    Encode(m.id) + Encode(|m.data|) + m.data
  }

  function Body(msgs: seq<Msg>): (s: ByteString) {
    if msgs == [] then [] else Body(msgs[..|msgs| - 1]) + MsgBytes(msgs[|msgs| - 1])
  }

  /** The bytes of a buffer, header first. */
  function PackBytes(channelId: ByteString, p: Pack): (s: ByteString)
    requires |channelId| <= CHANNEL_ID_HEADER_LENGTH
  {
    PadHeader(channelId) + Encode(p.id) + Encode(|Body(p.msgs)|) + Body(p.msgs)
  }

  datatype Result<+T> = Ok(value: T) | ChannelIdTooLong | TooBig | Malformed

  /** A buffer with one message, or the message alone. */
  method SerializeMsgBytes(channelId: ByteString, bufferId: nat, msg: Msg, bufferSize: int, withHeader: bool)
    returns (r: Result<ByteString>)
    ensures !withHeader ==> r == Ok(MsgBytes(msg))
    ensures withHeader && |channelId| > CHANNEL_ID_HEADER_LENGTH ==> r == ChannelIdTooLong
    ensures withHeader && |channelId| <= CHANNEL_ID_HEADER_LENGTH ==>
              var b := PackBytes(channelId, Pack(bufferId, [msg]));
              r == if |b| > bufferSize then TooBig else Ok(b)
  {
    hide Encode;
    var msgIdBytes := EncodeInt(msg.id);
    var msgSizeBytes := EncodeInt(|msg.data|);
    if !withHeader {
      return Ok(msgIdBytes + msgSizeBytes + msg.data);
    }
    var bufferIdBytes := EncodeInt(bufferId);
    if |channelId| > CHANNEL_ID_HEADER_LENGTH {
      return ChannelIdTooLong;
    }
    var payloadSize := |msgIdBytes| + |msgSizeBytes| + |msg.data|;
    var payloadSizeBytes := EncodeInt(payloadSize);
    assert Body([msg]) == MsgBytes(msg) by {
      assert Body([msg][..0]) == [];
    }
    if |msg.data| + CHANNEL_ID_HEADER_LENGTH + |bufferIdBytes| + |payloadSizeBytes| + |msgIdBytes| + |msgSizeBytes|
       > bufferSize {
      return TooBig;
    }
    r := Ok(PadHeader(channelId) + bufferIdBytes + payloadSizeBytes + msgIdBytes + msgSizeBytes + msg.data);
    assert r.value == PackBytes(channelId, Pack(bufferId, [msg]));
  }

  /** Position after the buffer id, then the payload size and the position after it. */
  function BufferIdAt(b: ByteString): Option<Decoded> {
    Decode(b, CHANNEL_ID_HEADER_LENGTH)
  }

  function PayloadSizeAt(b: ByteString): Option<Decoded> {
    match BufferIdAt(b)
    case None => None
    case Some(d) => Decode(b, d.end)
  }

  function AppendMsgBytes(b: ByteString, payload: ByteString, bufferSize: int): (r: Result<ByteString>) {
    if |b| + |payload| > bufferSize then TooBig
    else
      match PayloadSizeAt(b)
      case None => Malformed
      case Some(size) =>
        Ok(b[..BufferIdAt(b).value.end] + Encode(size.number + |payload|) + b[size.end..] + payload)
  }

  /** Python slicing: bytes past the end are silently missing. */
  function Slice(b: ByteString, lo: nat, hi: nat): ByteString {
    if lo >= |b| || hi <= lo then [] else b[lo..if hi <= |b| then hi else |b|]
  }

  /** The messages between two positions; `None` when a number runs off the end. */
  function Messages(b: ByteString, offset: nat, end: nat): (r: Option<seq<Msg>>)
    decreases |b| - offset
  {
    if offset >= end then Some([])
    else
      match Decode(b, offset)
      case None => None
      case Some(id) =>
        match Decode(b, id.end)
        case None => None
        case Some(size) =>
          Prepended([Msg(id.number, Slice(b, size.end, size.end + size.number))],
                    Messages(b, size.end + size.number, end))
  }

  function Payload(b: ByteString): (r: Option<seq<Msg>>) {
    match PayloadSizeAt(b)
    case None => None
    case Some(size) => Messages(b, size.end, size.end + size.number)
  }

  method GetPayload(b: ByteString) returns (r: Option<seq<Msg>>)
    ensures r == Payload(b)
  {
    var bufferId := DecodeBytes(b, CHANNEL_ID_HEADER_LENGTH);
    if bufferId.None? {
      return None;
    }
    var payloadSize := DecodeBytes(b, bufferId.value.end);
    if payloadSize.None? {
      return None;
    }
    var offset := payloadSize.value.end;
    var payloadEnd := offset + payloadSize.value.number;
    var res: seq<Msg> := [];
    PrependNothing(Messages(b, offset, payloadEnd));
    while offset < payloadEnd
      invariant Payload(b) == Prepended(res, Messages(b, offset, payloadEnd))
      decreases payloadEnd - offset
    {
      var msgId := DecodeBytes(b, offset);
      if msgId.None? {
        return None;
      }
      var msgSize := DecodeBytes(b, msgId.value.end);
      if msgSize.None? {
        return None;
      }
      var at := msgSize.value.end;
      var next := at + msgSize.value.number;
      var msg := Msg(msgId.value.number, Slice(b, at, next));
      PrependOne(res, msg, Messages(b, next, payloadEnd));
      offset := next;
      res := res + [msg];
    }
    assert Messages(b, offset, payloadEnd) == Some([]) && res + [] == res;
    return Some(res);
  }

  function Prepended(done: seq<Msg>, rest: Option<seq<Msg>>): Option<seq<Msg>> {
    match rest
    case None => None
    case Some(ms) => Some(done + ms)
  }

  lemma PrependNothing(rest: Option<seq<Msg>>)
    ensures Prepended([], rest) == rest
  {
    if rest.Some? {
      assert [] + rest.value == rest.value;
    }
  }

  lemma PrependOne(done: seq<Msg>, m: Msg, rest: Option<seq<Msg>>)
    ensures Prepended(done, Prepended([m], rest)) == Prepended(done + [m], rest)
  {
    if rest.Some? {
      assert done + ([m] + rest.value) == done + [m] + rest.value;
    }
  }

  // ------------------------------------------------------------------ round trips

  /** `part` lies in `b` at `at`. */
  ghost predicate At(b: ByteString, at: nat, part: ByteString) {
    at + |part| <= |b| && b[at..at + |part|] == part
  }

  lemma AtSplit(b: ByteString, at: nat, p: ByteString, q: ByteString)
    requires At(b, at, p + q)
    ensures At(b, at, p) && At(b, at + |p|, q)
  {
    assert b[at..at + |p|] == b[at..at + |p + q|][..|p|];
    assert b[at + |p|..at + |p + q|] == b[at..at + |p + q|][|p|..];
  }

  lemma {:induction false} DecodeMessage(b: ByteString, at: nat, m: Msg)
    requires At(b, at, MsgBytes(m))
    ensures Decode(b, at) == Some(Decoded(m.id, at + |Encode(m.id)|))
    ensures Decode(b, at + |Encode(m.id)|) == Some(Decoded(|m.data|, at + |MsgBytes(m)| - |m.data|))
    ensures Slice(b, at + |MsgBytes(m)| - |m.data|, at + |MsgBytes(m)|) == m.data
  {
    hide Encode, Decode;
    var i, n := Encode(m.id), Encode(|m.data|);
    AtSplit(b, at, i + n, m.data);
    AtSplit(b, at, i, n);
    DecodeEncode(m.id, b, at);
    DecodeEncode(|m.data|, b, at + |i|);
  }

  lemma BodyCons(m: Msg, ms: seq<Msg>)
    ensures Body([m] + ms) == MsgBytes(m) + Body(ms)
    decreases |ms|
  {
    hide MsgBytes;
    if ms == [] {
      assert [m] + ms == [m];
      assert Body([m][..0]) == [];
    } else {
      var n := |ms| - 1;
      assert ([m] + ms)[..n + 1] == [m] + ms[..n];
      BodyCons(m, ms[..n]);
    }
  }

  lemma MessagesStep(b: ByteString, at: nat, id: Decoded, size: Decoded, m: Msg, next: nat, end: nat)
    requires at < end && Decode(b, at) == Some(id) && Decode(b, id.end) == Some(size)
    requires next == size.end + size.number && m == Msg(id.number, Slice(b, size.end, next))
    ensures Messages(b, at, end) == Prepended([m], Messages(b, next, end))
  {
  }

  lemma MessagesCons(b: ByteString, at: nat, m: Msg, end: nat)
    requires At(b, at, MsgBytes(m)) && at < end
    ensures Messages(b, at, end) == Prepended([m], Messages(b, at + |MsgBytes(m)|, end))
  {
    hide Encode, Decode;
    DecodeMessage(b, at, m);
    var idEnd, next := at + |Encode(m.id)|, at + |MsgBytes(m)|;
    MessagesStep(b, at, Decoded(m.id, idEnd), Decoded(|m.data|, next - |m.data|), m, next, end);
  }

  lemma {:induction false} MessagesOfBody(b: ByteString, at: nat, ms: seq<Msg>, end: nat)
    requires At(b, at, Body(ms)) && end == at + |Body(ms)|
    ensures Messages(b, at, end) == Some(ms)
    decreases |ms|
  {
    hide Decode, Encode;
    if ms != [] {
      var m, rest := ms[0], ms[1..];
      BodySplit(b, at, ms);
      MessagesOfBody(b, at + |MsgBytes(m)|, rest, end);
      MessagesConsSome(b, at, m, rest, end);
      assert [m] + rest == ms;
    }
  }

  lemma BodySplit(b: ByteString, at: nat, ms: seq<Msg>)
    requires ms != [] && At(b, at, Body(ms))
    ensures At(b, at, MsgBytes(ms[0])) && At(b, at + |MsgBytes(ms[0])|, Body(ms[1..]))
    ensures |Body(ms)| == |MsgBytes(ms[0])| + |Body(ms[1..])|
  {
    assert ms == [ms[0]] + ms[1..];
    BodyCons(ms[0], ms[1..]);
    AtSplit(b, at, MsgBytes(ms[0]), Body(ms[1..]));
  }

  lemma MessagesConsSome(b: ByteString, at: nat, m: Msg, rest: seq<Msg>, end: nat)
    requires At(b, at, MsgBytes(m)) && at < end
    requires Messages(b, at + |MsgBytes(m)|, end) == Some(rest)
    ensures Messages(b, at, end) == Some([m] + rest)
  {
    MessagesCons(b, at, m, end);
  }

  /** Where the parts of a packed buffer lie. */
  lemma PackLayout(channelId: ByteString, p: Pack)
    requires |channelId| <= CHANNEL_ID_HEADER_LENGTH
    ensures var b := PackBytes(channelId, p);
            var i := CHANNEL_ID_HEADER_LENGTH + |Encode(p.id)|;
            var s := i + |Encode(|Body(p.msgs)|)|;
            && b[..i] == PadHeader(channelId) + Encode(p.id)
            && b[..|channelId|] == channelId
            && (forall k | |channelId| <= k < CHANNEL_ID_HEADER_LENGTH :: b[k] == 32)
            && b[s..] == Body(p.msgs)
            && |b| == s + |Body(p.msgs)|
            && BufferIdAt(b) == Some(Decoded(p.id, i))
            && PayloadSizeAt(b) == Some(Decoded(|Body(p.msgs)|, s))
  {
    hide Encode, Decode;
    var b := PackBytes(channelId, p);
    var h, id, size, body := PadHeader(channelId), Encode(p.id), Encode(|Body(p.msgs)|), Body(p.msgs);
    assert b[..|h|] == h && b[..|channelId|] == h[..|channelId|];
    assert b[|h|..|h| + |id|] == id;
    DecodeEncode(p.id, b, |h|);
    assert b[|h| + |id|..|h| + |id| + |size|] == size;
    DecodeEncode(|body|, b, |h| + |id|);
  }

  /** A packed buffer gives back its messages, ids and bytes, in order. */
  lemma PayloadRoundTrip(channelId: ByteString, p: Pack)
    requires |channelId| <= CHANNEL_ID_HEADER_LENGTH
    ensures Payload(PackBytes(channelId, p)) == Some(p.msgs)
  {
    hide Decode, Encode, Messages;
    PackLayout(channelId, p);
    var b := PackBytes(channelId, p);
    var at := |b| - |Body(p.msgs)|;
    assert b[at..at + |Body(p.msgs)|] == b[at..] == Body(p.msgs);
    MessagesOfBody(b, at, p.msgs, |b|);
  }

  /** Appending the bytes of a message to a packed buffer packs one message more, under
      the same header. */
  lemma AppendIsPack(channelId: ByteString, p: Pack, m: Msg, bufferSize: int)
    requires |channelId| <= CHANNEL_ID_HEADER_LENGTH
    requires |PackBytes(channelId, p)| + |MsgBytes(m)| <= bufferSize
    ensures AppendMsgBytes(PackBytes(channelId, p), MsgBytes(m), bufferSize)
            == Ok(PackBytes(channelId, Pack(p.id, p.msgs + [m])))
  {
    PackLayout(channelId, p);
    assert (p.msgs + [m])[..|p.msgs|] == p.msgs;
    var body, more := Body(p.msgs), MsgBytes(m);
    assert Body(p.msgs + [m]) == body + more;
    var head, size := PadHeader(channelId) + Encode(p.id), Encode(|body| + |more|);
    assert head + size + body + more == head + size + (body + more);
  }

  /** Rewriting the payload size may lengthen it, so a buffer can outgrow its nominal
      size, but only by the growth of one number. */
  lemma AppendLengthBound(channelId: ByteString, p: Pack, m: Msg, bufferSize: nat)
    requires |channelId| <= CHANNEL_ID_HEADER_LENGTH
    requires |PackBytes(channelId, p)| + |MsgBytes(m)| <= bufferSize
    ensures |PackBytes(channelId, Pack(p.id, p.msgs + [m]))| <= bufferSize + |Encode(bufferSize)| - 1
  {
    assert (p.msgs + [m])[..|p.msgs|] == p.msgs;
    assert Body(p.msgs + [m]) == Body(p.msgs) + MsgBytes(m);
    EncodeLengthMonotone(|Body(p.msgs + [m])|, bufferSize);
  }
}
