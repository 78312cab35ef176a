/** The shared link as a pipe for each of its channels: what is in it, what moves it along,
    and how far everything still has to go. */
module MuxPipe {
  import opened Varint
  import opened Framing
  import opened Multiplexing

  /** What has entered on a channel and not left, oldest first. */
  ghost function Pending(m: Mux, c: nat): seq<ByteString>
    requires Shape(m) && c < |m.names|
  {
    m.localSend[c] + For(Shared(m), m.names[c]) + m.localRecv[c]
  }

  lemma FlowIs(m: Mux, c: nat)
    requires MuxInv(m) && c < |m.names|
    ensures m.entered[c] == m.left[c] + Pending(m, c)
  {
    hide GetChannelId, For, GoodNames;
    assert ChannelFlow(m, c);
  }

  lemma SamePending(m: Mux, m': Mux, c: nat)
    requires MuxInv(m) && MuxInv(m') && m'.names == m.names && c < |m.names|
    requires m'.entered[c] == m.entered[c] && m'.left[c] == m.left[c]
    ensures Pending(m', c) == Pending(m, c)
  {
    assert Shape(m) && Shape(m');
    hide MuxInv, Pending;
    FlowIs(m, c);
    FlowIs(m', c);
    Cancel(m.left[c], Pending(m', c), Pending(m, c));
  }

  /** A move between the queues that makes a difference. */
  ghost predicate CanMove(m: Mux, a: MuxAction)
    requires Shape(m)
  {
    match a
    case Forward(c) => c < |m.names| && m.localRecv[c] != [] && |m.remoteSend| < m.size
    case Transmit => m.remoteSend != []
    case Arrive => m.wire != [] && |m.remoteRecv| < m.size
    case Take => m.remoteRecv != [] && m.sending.None?
    case Sort =>
      && m.sending.Some? && Known(m.names, m.sending.value)
      && |m.localSend[IndexOf(m.names, GetChannelId(m.sending.value).value).value]| < m.size
    case Enter(_, _) => false
    case Leave(_) => false
  }

  lemma MoveKeepsPending(m: Mux, a: MuxAction, c: nat)
    requires MuxInv(m) && CanMove(m, a) && c < |m.names|
    ensures MuxStep(m, a).Running? && MuxInv(MuxStep(m, a).m) && MuxStep(m, a).m.names == m.names
    ensures Pending(MuxStep(m, a).m, c) == Pending(m, c)
  {
    MuxStepKeeps(m, a);
    hide MuxInv, Pending, GetChannelId;
    SamePending(m, MuxStep(m, a).m, c);
  }

  /** A buffer that enters is behind all others of its channel. */
  lemma EnterAdds(m: Mux, c: nat, body: ByteString, d: nat)
    requires MuxInv(m) && c < |m.names| && d < |m.names| && |m.localRecv[c]| < m.size
    ensures var m' := MuxStep(m, Enter(c, body)).m;
            && MuxStep(m, Enter(c, body)).Running? && MuxInv(m') && m'.names == m.names && m'.size == m.size
            && Pending(m', d) == if d == c then Pending(m, c) + [Header(m.names[c]) + body] else Pending(m, d)
  {
    MuxStepKeeps(m, Enter(c, body));
    hide MuxInv, Pending, Header;
    var m' := MuxStep(m, Enter(c, body)).m;
    FlowIs(m, d);
    FlowIs(m', d);
    if d == c {
      var b := Header(m.names[c]) + body;
      assert m'.left[c] + Pending(m', c) == m.left[c] + (Pending(m, c) + [b]);
      Cancel(m.left[c], Pending(m', c), Pending(m, c) + [b]);
    } else {
      Cancel(m.left[d], Pending(m', d), Pending(m, d));
    }
  }

  lemma Cancel<X>(a: seq<X>, b: seq<X>, c: seq<X>)
    requires a + b == a + c
    ensures b == c
  {
    assert b == (a + b)[|a|..] && c == (a + c)[|a|..];
  }

  /** What leaves is the oldest. */
  lemma LeaveTakes(m: Mux, c: nat, d: nat)
    requires MuxInv(m) && c < |m.names| && d < |m.names| && m.localSend[c] != []
    ensures var m' := MuxStep(m, Leave(c)).m;
            && MuxStep(m, Leave(c)).Running? && MuxInv(m') && m'.names == m.names && m'.size == m.size
            && (d == c ==> Pending(m, c) == [m.localSend[c][0]] + Pending(m', c))
            && (d != c ==> Pending(m', d) == Pending(m, d))
  {
    MuxStepKeeps(m, Leave(c));
    hide MuxInv, Pending;
    var m' := MuxStep(m, Leave(c)).m;
    FlowIs(m, d);
    FlowIs(m', d);
    if d == c {
      var b := m.localSend[c][0];
      assert m.left[c] + Pending(m, c) == m.left[c] + ([b] + Pending(m', c));
      Cancel(m.left[c], Pending(m, c), [b] + Pending(m', c));
    } else {
      Cancel(m.left[d], Pending(m', d), Pending(m, d));
    }
  }

  // ------------------------------------------------------------------ how far there is to go

  ghost function TotalLength(ss: seq<seq<ByteString>>): nat {
    if ss == [] then 0 else TotalLength(ss[..|ss| - 1]) + |ss[|ss| - 1]|
  }

  lemma {:induction false} TotalUpdate(ss: seq<seq<ByteString>>, c: nat, s: seq<ByteString>)
    requires c < |ss|
    ensures TotalLength(ss[c := s]) == TotalLength(ss) - |ss[c]| + |s|
    decreases |ss|
  {
    var n := |ss| - 1;
    if c == n {
      assert ss[c := s][..n] == ss[..n];
    } else {
      assert ss[c := s][..n] == ss[..n][c := s];
      TotalUpdate(ss[..n], c, s);
    }
  }

  lemma {:induction false} TotalZero(ss: seq<seq<ByteString>>)
    requires TotalLength(ss) > 0
    ensures exists c :: 0 <= c < |ss| && ss[c] != []
    decreases |ss|
  {
    var n := |ss| - 1;
    if ss[n] == [] {
      TotalZero(ss[..n]);
      var c :| 0 <= c < n && ss[..n][c] != [];
      assert ss[c] != [];
    }
  }

  /** The moves that the buffers in the pipe need to reach the local queues. */
  ghost function Moves(m: Mux): nat {
    5 * TotalLength(m.localRecv) + 4 * |m.remoteSend| + 3 * |m.wire| + 2 * |m.remoteRecv| + |Sending(m)|
  }

  lemma MoveLowers(m: Mux, a: MuxAction)
    requires MuxInv(m) && CanMove(m, a)
    ensures MuxStep(m, a).Running? && Moves(MuxStep(m, a).m) == Moves(m) - 1
    ensures MuxStep(m, a).m.size == m.size
  {
    MuxStepKeeps(m, a);
    hide MuxInv, GetChannelId, TotalLength;
    if a.Forward? {
      TotalUpdate(m.localRecv, a.c, m.localRecv[a.c][1..]);
    }
  }

  lemma EnterRaises(m: Mux, c: nat, body: ByteString)
    requires Shape(m) && c < |m.names| && |m.localRecv[c]| < m.size
    ensures Moves(MuxStep(m, Enter(c, body)).m) == Moves(m) + 5
  {
    hide TotalLength;
    TotalUpdate(m.localRecv, c, m.localRecv[c] + [Header(m.names[c]) + body]);
  }

  /** If nothing has arrived anywhere and something is on its way, something moves. */
  lemma SomeMove(m: Mux) returns (a: MuxAction)
    requires MuxInv(m) && m.size > 0 && Moves(m) > 0
    requires forall c | 0 <= c < |m.names| :: m.localSend[c] == []
    ensures CanMove(m, a)
  {
    hide GetChannelId, TotalLength, ChannelFlow;
    if m.sending.Some? {
      assert Shared(m)[0] == m.sending.value && Known(m.names, Shared(m)[0]);
      a := Sort;
    } else if m.remoteRecv != [] {
      a := Take;
    } else if m.wire != [] {
      a := Arrive;
    } else if m.remoteSend != [] {
      a := Transmit;
    } else {
      TotalZero(m.localRecv);
      var c :| 0 <= c < |m.localRecv| && m.localRecv[c] != [];
      a := Forward(c);
    }
  }

  /** If nothing is on its way and nothing has arrived, the pipe is empty. */
  lemma NothingPending(m: Mux, c: nat)
    requires MuxInv(m) && c < |m.names| && Moves(m) == 0 && m.localSend[c] == []
    ensures Pending(m, c) == [] && m.localRecv[c] == []
  {
    assert Shared(m) == [];
    if m.localRecv[c] != [] {
      TotalAtLeast(m.localRecv, c);
    }
  }

  lemma {:induction false} TotalAtLeast(ss: seq<seq<ByteString>>, c: nat)
    requires c < |ss|
    ensures TotalLength(ss) >= |ss[c]|
    decreases |ss|
  {
    var n := |ss| - 1;
    if c < n {
      TotalAtLeast(ss[..n], c);
    }
  }
}
