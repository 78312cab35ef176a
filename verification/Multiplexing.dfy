/** Many channels over one peer link: the sending handler moves buffers from the local
    queues of its channels into one outgoing queue, the receiving handler sorts them back
    by the channel id in the 64-byte header.  Data buffers and acks travel the same way,
    in opposite directions, so one direction is modelled. */
module Multiplexing {
  import opened Wrappers
  import opened Varint
  import opened Framing

  /** A queue of each kind; `size` bounds every one of them except the wire.  `entered`
      and `left` record what was put into and taken out of each channel. `sending` is the
      buffer that the input loop has received and not yet put into its local queue, which
      blocks the loop while that queue is full. */
  datatype Mux = Mux(
    names: seq<ByteString>,
    size: nat,
    localRecv: seq<seq<ByteString>>,
    remoteSend: seq<ByteString>,
    wire: seq<ByteString>,
    remoteRecv: seq<ByteString>,
    sending: Option<ByteString>,
    localSend: seq<seq<ByteString>>,
    entered: seq<seq<ByteString>>,
    left: seq<seq<ByteString>>)

  datatype MuxAction =
    | Enter(c: nat, body: ByteString)
    | Forward(c: nat)
    | Transmit
    | Arrive
    | Take
    | Sort
    | Leave(c: nat)

  /** `Panic` is the lookup of a channel id that the receiving handler does not know. */
  datatype MuxOutcome = Running(m: Mux) | Panic

  function MuxInit(names: seq<ByteString>, size: nat): Mux {
    var none := seq(|names|, _ => []);
    Mux(names, size, none, [], [], [], None, none, none, none)
  }

  /** Some index at which `name` stands; channel names are the keys of a hash map. */
  function IndexOf(names: seq<ByteString>, name: ByteString): (r: Option<nat>)
    ensures r.Some? ==> r.value < |names| && names[r.value] == name
    ensures r.None? ==> name !in names
  {
    if names == [] then None
    else if names[|names| - 1] == name then Some(|names| - 1)
    else IndexOf(names[..|names| - 1], name)
  }

  ghost function MuxStep(m: Mux, a: MuxAction): MuxOutcome
    requires Shape(m)
  {
    match a
    case Enter(c, body) =>
      if c >= |m.names| || |m.localRecv[c]| >= m.size then Running(m)
      else
        var b := Header(m.names[c]) + body;
        Running(m.(localRecv := m.localRecv[c := m.localRecv[c] + [b]], entered := m.entered[c := m.entered[c] + [b]]))
    case Forward(c) =>
      if c >= |m.names| || m.localRecv[c] == [] || |m.remoteSend| >= m.size then Running(m)
      else
        Running(m.(localRecv := m.localRecv[c := m.localRecv[c][1..]],
                   remoteSend := m.remoteSend + [m.localRecv[c][0]]))
    case Transmit =>
      if m.remoteSend == [] then Running(m)
      else Running(m.(remoteSend := m.remoteSend[1..], wire := m.wire + [m.remoteSend[0]]))
    case Arrive =>
      if m.wire == [] || |m.remoteRecv| >= m.size then Running(m)
      else Running(m.(wire := m.wire[1..], remoteRecv := m.remoteRecv + [m.wire[0]]))
    case Take =>
      if m.remoteRecv == [] || m.sending.Some? then Running(m)
      else
        var id := GetChannelId(m.remoteRecv[0]);
        if id.None? || IndexOf(m.names, id.value).None? then Panic
        else Running(m.(remoteRecv := m.remoteRecv[1..], sending := Some(m.remoteRecv[0])))
    case Sort =>
      if m.sending.None? || !Known(m.names, m.sending.value) then Running(m)
      else
        var c := IndexOf(m.names, GetChannelId(m.sending.value).value).value;
        if |m.localSend[c]| >= m.size then Running(m) else Running(Sorted(m, c))
    case Leave(c) =>
      if c >= |m.names| || m.localSend[c] == [] then Running(m)
      else
        Running(m.(localSend := m.localSend[c := m.localSend[c][1..]],
                   left := m.left[c := m.left[c] + [m.localSend[c][0]]]))
  }

  ghost predicate Shape(m: Mux) {
    && |m.localRecv| == |m.localSend| == |m.entered| == |m.left| == |m.names|
    && (forall c | 0 <= c < |m.names| :: |m.names[c]| <= CHANNEL_ID_META_BYTES_LENGTH)
  }

  /** Distinct ids that fit the header and keep their bytes when it is trimmed. */
  ghost predicate GoodNames(names: seq<ByteString>) {
    && (forall c | 0 <= c < |names| :: |names[c]| <= CHANNEL_ID_META_BYTES_LENGTH && TrimSafe(names[c]))
    && (forall c, d | 0 <= c < d < |names| :: names[c] != names[d])
  }

  /** The buffers of one channel on a queue shared by several. */
  function For(q: seq<ByteString>, name: ByteString): (r: seq<ByteString>) {
    if q == [] then []
    else (if GetChannelId(q[0]) == Some(name) then [q[0]] else []) + For(q[1..], name)
  }

  lemma {:induction false} ForConcat(p: seq<ByteString>, q: seq<ByteString>, name: ByteString)
    ensures For(p + q, name) == For(p, name) + For(q, name)
  {
    if p == [] {
      assert p + q == q;
    } else {
      assert (p + q)[1..] == p[1..] + q;
      ForConcat(p[1..], q, name);
    }
  }

  lemma ForOne(b: ByteString, name: ByteString)
    ensures For([b], name) == if GetChannelId(b) == Some(name) then [b] else []
  {
    assert For([b][1..], name) == [];
  }

  /** Everything in flight on the shared part, oldest first. */
  ghost function Shared(m: Mux): seq<ByteString> {
    Sending(m) + m.remoteRecv + m.wire + m.remoteSend
  }

  ghost function Sending(m: Mux): seq<ByteString> {
    if m.sending.Some? then [m.sending.value] else []
  }

  ghost predicate Known(names: seq<ByteString>, b: ByteString) {
    GetChannelId(b).Some? && GetChannelId(b).value in names
  }

  ghost predicate ChannelFlow(m: Mux, c: nat)
    requires Shape(m) && c < |m.names|
  {
    && (forall i | 0 <= i < |m.localRecv[c]| :: GetChannelId(m.localRecv[c][i]) == Some(m.names[c]))
    && (forall i | 0 <= i < |m.entered[c]| :: GetChannelId(m.entered[c][i]) == Some(m.names[c]))
    && m.entered[c] == m.left[c] + m.localSend[c] + For(Shared(m), m.names[c]) + m.localRecv[c]
  }

  ghost predicate MuxInv(m: Mux) {
    && Shape(m) && GoodNames(m.names)
    && (forall i | 0 <= i < |Shared(m)| :: Known(m.names, Shared(m)[i]))
    && (forall c | 0 <= c < |m.names| :: ChannelFlow(m, c))
  }

  lemma EnterKeeps(m: Mux, c: nat, body: ByteString)
    requires MuxInv(m)
    ensures MuxStep(m, Enter(c, body)).Running? && MuxInv(MuxStep(m, Enter(c, body)).m)
  {
    if c < |m.names| && |m.localRecv[c]| < m.size {
      HeaderRoundTrip(m.names[c], body);
      var m' := MuxStep(m, Enter(c, body)).m;
      assert Shared(m') == Shared(m);
      forall d | 0 <= d < |m.names|
        ensures ChannelFlow(m', d)
      {
        assert ChannelFlow(m, d);
      }
    }
  }

  lemma ForwardKeeps(m: Mux, c: nat)
    requires MuxInv(m)
    ensures MuxStep(m, Forward(c)).Running? && MuxInv(MuxStep(m, Forward(c)).m)
  {
    hide GetChannelId, For;
    if c < |m.names| && m.localRecv[c] != [] && |m.remoteSend| < m.size {
      var b := m.localRecv[c][0];
      var m' := MuxStep(m, Forward(c)).m;
      assert ChannelFlow(m, c);
      assert Shared(m') == Shared(m) + [b];
      assert Known(m.names, b);
      forall d | 0 <= d < |m.names|
        ensures ChannelFlow(m', d)
      {
        assert ChannelFlow(m, d);
        ForConcat(Shared(m), [b], m.names[d]);
        ForOne(b, m.names[d]);
        if d == c {
          assert m.localRecv[c] == [b] + m'.localRecv[c];
        }
      }
    }
  }

  lemma MoveKeeps(m: Mux, m': Mux)
    requires MuxInv(m)
    requires m' == m.(remoteSend := m'.remoteSend, wire := m'.wire, remoteRecv := m'.remoteRecv, sending := m'.sending)
    requires Shared(m') == Shared(m)
    ensures MuxInv(m')
  {
    forall d | 0 <= d < |m.names|
      ensures ChannelFlow(m', d)
    {
      assert ChannelFlow(m, d);
    }
  }

  ghost function Sorted(m: Mux, c: nat): Mux
    requires Shape(m) && c < |m.names| && m.sending.Some?
  {
    m.(sending := None, localSend := m.localSend[c := m.localSend[c] + [m.sending.value]])
  }

  lemma SortFlow(m: Mux, c: nat, d: nat)
    requires Shape(m) && c < |m.names| && d < |m.names| && m.sending.Some? && ChannelFlow(m, d)
    requires GetChannelId(m.sending.value) == Some(m.names[c]) && (d != c ==> m.names[d] != m.names[c])
    ensures ChannelFlow(Sorted(m, c), d)
  {
    hide GetChannelId, For;
    var b, m', name := m.sending.value, Sorted(m, c), m.names[d];
    assert Shared(m) == [b] + Shared(m');
    ForConcat([b], Shared(m'), name);
    ForOne(b, name);
    Reassociate(m.left[d], m.localSend[d], For([b], name), For(Shared(m'), name), m.localRecv[d]);
  }

  lemma Reassociate<T>(a: seq<T>, b: seq<T>, c: seq<T>, d: seq<T>, e: seq<T>)
    ensures a + b + (c + d) + e == a + (b + c) + d + e
  {
  }

  lemma TakeKeeps(m: Mux)
    requires MuxInv(m)
    ensures MuxStep(m, Take).Running? && MuxInv(MuxStep(m, Take).m)
  {
    hide GetChannelId, For;
    if m.remoteRecv != [] && m.sending.None? {
      assert m.remoteRecv[0] == Shared(m)[0] && Known(m.names, Shared(m)[0]);
      var m' := m.(remoteRecv := m.remoteRecv[1..], sending := Some(m.remoteRecv[0]));
      assert MuxStep(m, Take) == Running(m');
      assert Shared(m') == Shared(m);
      MoveKeeps(m, m');
    }
  }

  lemma SortKeeps(m: Mux)
    requires MuxInv(m)
    ensures MuxStep(m, Sort).Running? && MuxInv(MuxStep(m, Sort).m)
  {
    hide GetChannelId, For;
    if m.sending.Some? {
      assert m.sending.value == Shared(m)[0] && Known(m.names, Shared(m)[0]);
      var c := IndexOf(m.names, GetChannelId(m.sending.value).value).value;
      if |m.localSend[c]| < m.size {
        var m' := Sorted(m, c);
        assert MuxStep(m, Sort) == Running(m');
        forall i | 0 <= i < |Shared(m')|
          ensures Known(m.names, Shared(m')[i])
        {
          assert Shared(m')[i] == Shared(m)[i + 1];
        }
        forall d | 0 <= d < |m.names|
          ensures ChannelFlow(m', d)
        {
          assert ChannelFlow(m, d);
          SortFlow(m, c, d);
        }
      }
    }
  }

  lemma LeaveKeeps(m: Mux, c: nat)
    requires MuxInv(m)
    ensures MuxStep(m, Leave(c)).Running? && MuxInv(MuxStep(m, Leave(c)).m)
  {
    if c < |m.names| && m.localSend[c] != [] {
      var m' := MuxStep(m, Leave(c)).m;
      assert Shared(m') == Shared(m);
      forall d | 0 <= d < |m.names|
        ensures ChannelFlow(m', d)
      {
        assert ChannelFlow(m, d);
        if d == c {
          assert m.left[c] + m.localSend[c] == m'.left[c] + m'.localSend[c];
        }
      }
    }
  }

  lemma MuxStepKeeps(m: Mux, a: MuxAction)
    requires MuxInv(m)
    ensures MuxStep(m, a).Running? && MuxInv(MuxStep(m, a).m)
    ensures MuxStep(m, a).m.names == m.names
  {
    match a
    case Enter(c, body) => EnterKeeps(m, c, body);
    case Forward(c) => ForwardKeeps(m, c);
    case Transmit => MoveKeeps(m, MuxStep(m, a).m);
    case Arrive => MoveKeeps(m, MuxStep(m, a).m);
    case Take => TakeKeeps(m);
    case Sort => SortKeeps(m);
    case Leave(c) => LeaveKeeps(m, c);
  }

  ghost function MuxRun(names: seq<ByteString>, size: nat, actions: seq<MuxAction>): MuxOutcome
    decreases |actions|
  {
    if actions == [] then Running(MuxInit(names, size))
    else
      var o := MuxRun(names, size, actions[..|actions| - 1]);
      if o.Running? && Shape(o.m) then MuxStep(o.m, actions[|actions| - 1]) else Panic
  }

  lemma {:induction false} MuxRunKeeps(names: seq<ByteString>, size: nat, actions: seq<MuxAction>)
    requires GoodNames(names)
    ensures var o := MuxRun(names, size, actions);
            o.Running? && MuxInv(o.m) && o.m.names == names
    decreases |actions|
  {
    if actions != [] {
      var front := actions[..|actions| - 1];
      MuxRunKeeps(names, size, front);
      MuxStepKeeps(MuxRun(names, size, front).m, actions[|actions| - 1]);
    }
  }

  /** For distinct ids of at most 64 bytes without NUL at either end, in every run nothing
      panics, and on every channel what has come out is a prefix of what went in, in
      order and with the channel's own header; nothing is lost, the rest is still queued. */
  lemma ChannelsStayApart(names: seq<ByteString>, size: nat, actions: seq<MuxAction>, c: nat)
    requires GoodNames(names) && c < |names|
    ensures MuxRun(names, size, actions).Running?
    ensures var m := MuxRun(names, size, actions).m;
            && |m.left| == |m.localSend| == |m.entered| == |m.localRecv| == |names|
            && m.left[c] + m.localSend[c] <= m.entered[c]
            && (forall i | 0 <= i < |m.entered[c]| :: GetChannelId(m.entered[c][i]) == Some(names[c]))
            && m.entered[c] == m.left[c] + m.localSend[c]
                               + For(Sending(m) + m.remoteRecv + m.wire + m.remoteSend, names[c]) + m.localRecv[c]
  {
    MuxRunKeeps(names, size, actions);
    assert ChannelFlow(MuxRun(names, size, actions).m, c);
  }
}
