/** The 64-byte channel header in front of every buffer and ack of the transport. */
module Framing {
  import opened Wrappers
  import opened Varint

  const CHANNEL_ID_META_BYTES_LENGTH: nat := 64

  function Zeros(n: nat): (s: ByteString)
    ensures |s| == n && forall i | 0 <= i < n :: s[i] == 0
  {
    seq(n, _ => 0)
  }

  /** The channel id right-aligned in the header. */
  function Header(channelId: ByteString): (h: ByteString)
    requires |channelId| <= CHANNEL_ID_META_BYTES_LENGTH
    ensures |h| == CHANNEL_ID_META_BYTES_LENGTH && h[|h| - |channelId|..] == channelId
    ensures forall i | 0 <= i < |h| - |channelId| :: h[i] == 0
  {
    Zeros(CHANNEL_ID_META_BYTES_LENGTH - |channelId|) + channelId
  }

  function Frame(channelId: ByteString, bufferId: nat, payload: ByteString): ByteString
    requires |channelId| <= CHANNEL_ID_META_BYTES_LENGTH
  {
    Header(channelId) + Encode(bufferId) + payload
  }

  method NewBufferWithMeta(payload: ByteString, channelId: ByteString, bufferId: nat)
    returns (r: Option<ByteString>)
    ensures r == if |channelId| > CHANNEL_ID_META_BYTES_LENGTH then None
                 else Some(Frame(channelId, bufferId, payload))
  {
    if |channelId| > CHANNEL_ID_META_BYTES_LENGTH {
      return None;
    }
    var res: ByteString := [];
    for i := 0 to CHANNEL_ID_META_BYTES_LENGTH - |channelId|
      invariant res == Zeros(i)
    {
      res := res + [0];
    }
    for i := 0 to |channelId|
      invariant res == Zeros(CHANNEL_ID_META_BYTES_LENGTH - |channelId|) + channelId[..i]
    {
      res := res + [channelId[i]];
    }
    var bufferIdBytes := EncodeInt(bufferId);
    ghost var header := res;
    for i := 0 to |bufferIdBytes|
      invariant res == header + bufferIdBytes[..i]
    {
      res := res + [bufferIdBytes[i]];
    }
    assert header == Header(channelId) && res == header + bufferIdBytes;
    return Some(res + payload);
  }

  function GetBufferId(b: ByteString): (r: Option<nat>) {
    match Decode(b, CHANNEL_ID_META_BYTES_LENGTH)
    case None => None
    case Some(d) => Some(d.number)
  }

  function DropMeta(b: ByteString): (r: Option<ByteString>) {
    match Decode(b, CHANNEL_ID_META_BYTES_LENGTH)
    case None => None
    case Some(d) => Some(b[d.end..])
  }

  function TrimLeft(s: ByteString): (r: ByteString)
    ensures |r| <= |s|
    ensures r == [] || r[0] != 0
  {
    if s != [] && s[0] == 0 then TrimLeft(s[1..]) else s
  }

  function TrimRight(s: ByteString): (r: ByteString)
    ensures r <= s
    ensures r == [] || r[|r| - 1] != 0
  {
    if s != [] && s[|s| - 1] == 0 then TrimRight(s[..|s| - 1]) else s
  }

  /** `None` when the bytes are shorter than a header. */
  function GetChannelId(b: ByteString): (r: Option<ByteString>) {
    if |b| < CHANNEL_ID_META_BYTES_LENGTH then None
    else Some(TrimRight(TrimLeft(b[..CHANNEL_ID_META_BYTES_LENGTH])))
  }

  datatype Ack = Ack(channelId: ByteString, bufferId: nat)

  /** Header and encoded ack, for any encoding of acks; `None` is the panic on a channel
      id that does not fit the header. */
  method SerializeAck(encode: Ack -> ByteString, ack: Ack) returns (r: Option<ByteString>)
    ensures r == if |ack.channelId| > CHANNEL_ID_META_BYTES_LENGTH then None
                 else Some(Header(ack.channelId) + encode(ack))
  {
    if |ack.channelId| > CHANNEL_ID_META_BYTES_LENGTH {
      return None;
    }
    var res: ByteString := [];
    for i := 0 to CHANNEL_ID_META_BYTES_LENGTH - |ack.channelId|
      invariant res == Zeros(i)
    {
      res := res + [0];
      assert Zeros(i + 1) == Zeros(i) + [0];
    }
    ghost var padding := res;
    for i := 0 to |ack.channelId|
      invariant res == padding + ack.channelId[..i]
    {
      res := res + [ack.channelId[i]];
    }
    assert ack.channelId[..|ack.channelId|] == ack.channelId;
    return Some(res + encode(ack));
  }

  /** `None` when the bytes are shorter than a header or do not decode. */
  function DeserializeAck(decode: ByteString -> Option<Ack>, b: ByteString): (r: Option<Ack>) {
    if |b| < CHANNEL_ID_META_BYTES_LENGTH then None else decode(b[CHANNEL_ID_META_BYTES_LENGTH..])
  }

  /** No NUL at either end, so that trimming the padding gives the id back. */
  predicate TrimSafe(channelId: ByteString) {
    channelId != [] ==> channelId[0] != 0 && channelId[|channelId| - 1] != 0
  }

  lemma {:induction false} TrimPadding(n: nat, s: ByteString)
    ensures TrimLeft(Zeros(n) + s) == TrimLeft(s)
  {
    if n == 0 {
      assert Zeros(n) + s == s;
    } else {
      assert (Zeros(n) + s)[1..] == Zeros(n - 1) + s;
      TrimPadding(n - 1, s);
    }
  }

  /** The header yields the channel id exactly when the id neither starts nor ends
      with NUL. */
  lemma HeaderRoundTrip(channelId: ByteString, rest: ByteString)
    requires |channelId| <= CHANNEL_ID_META_BYTES_LENGTH
    ensures GetChannelId(Header(channelId) + rest) == Some(channelId) <==> TrimSafe(channelId)
  {
    var b := Header(channelId) + rest;
    assert b[..CHANNEL_ID_META_BYTES_LENGTH] == Header(channelId);
    TrimPadding(CHANNEL_ID_META_BYTES_LENGTH - |channelId|, channelId);
  }

  /** For instance the id that is a single NUL comes back empty. */
  lemma NulIdIsLost(rest: ByteString)
    ensures GetChannelId(Header([0]) + rest) == Some([])
  {
    var b := Header([0]) + rest;
    assert b[..CHANNEL_ID_META_BYTES_LENGTH] == Header([0]);
    TrimPadding(CHANNEL_ID_META_BYTES_LENGTH - 1, [0]);
    assert [0][1..] == [];
    assert TrimLeft([0]) == TrimLeft([0][1..]) == [];
  }

  /** A framed buffer gives back its id and payload for every channel id that fits
      the header, and its channel id exactly when that id is trim safe. */
  lemma FrameRoundTrip(channelId: ByteString, bufferId: nat, payload: ByteString)
    requires |channelId| <= CHANNEL_ID_META_BYTES_LENGTH
    ensures GetBufferId(Frame(channelId, bufferId, payload)) == Some(bufferId)
    ensures DropMeta(Frame(channelId, bufferId, payload)) == Some(payload)
    ensures GetChannelId(Frame(channelId, bufferId, payload)) == Some(channelId) <==> TrimSafe(channelId)
  {
    var b := Frame(channelId, bufferId, payload);
    var e := Encode(bufferId);
    assert b[CHANNEL_ID_META_BYTES_LENGTH..CHANNEL_ID_META_BYTES_LENGTH + |e|] == e;
    DecodeEncode(bufferId, b, CHANNEL_ID_META_BYTES_LENGTH);
    assert b == Header(channelId) + (e + payload);
    HeaderRoundTrip(channelId, e + payload);
  }

  /** If the encoding of acks round-trips, so do the framed acks; their header names the
      channel exactly when its id is trim safe. */
  lemma AckRoundTrip(encode: Ack -> ByteString, decode: ByteString -> Option<Ack>, ack: Ack)
    requires |ack.channelId| <= CHANNEL_ID_META_BYTES_LENGTH && decode(encode(ack)) == Some(ack)
    ensures var b := Header(ack.channelId) + encode(ack);
            && DeserializeAck(decode, b) == Some(ack)
            && (GetChannelId(b) == Some(ack.channelId) <==> TrimSafe(ack.channelId))
  {
    var b := Header(ack.channelId) + encode(ack);
    assert b[CHANNEL_ID_META_BYTES_LENGTH..] == encode(ack);
    HeaderRoundTrip(ack.channelId, encode(ack));
  }
}
