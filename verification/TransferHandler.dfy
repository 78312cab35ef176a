/** The transfer handler's two loops, one turn at a time, over queues updated in place. */
module TransferHandler {
  import opened Wrappers
  import opened Varint
  import opened Framing
  import opened Multiplexing

  /** The system after the first `n` channels have had their turn. */
  ghost function Pass(m: Mux, n: nat): (r: Mux)
    requires Shape(m)
    ensures Shape(r)
  {
    if n == 0 then m else MuxStep(Pass(m, n - 1), Forward(n - 1)).m
  }

  ghost function Forwards(n: nat): (r: seq<MuxAction>) {
    if n == 0 then [] else Forwards(n - 1) + [Forward(n - 1)]
  }

  /** A turn of the output loop is a stretch of a run, so whatever holds of runs holds
      after it. */
  lemma {:induction false} PassIsRun(names: seq<ByteString>, size: nat, actions: seq<MuxAction>, n: nat)
    requires GoodNames(names)
    ensures MuxRun(names, size, actions).Running? && Shape(MuxRun(names, size, actions).m)
    ensures MuxRun(names, size, actions + Forwards(n)) == Running(Pass(MuxRun(names, size, actions).m, n))
  {
    hide MuxStep, MuxInit, GoodNames, ChannelFlow, Known;
    MuxRunKeeps(names, size, actions);
    if n == 0 {
      assert actions + Forwards(0) == actions;
    } else {
      PassIsRun(names, size, actions, n - 1);
      var before := actions + Forwards(n - 1);
      var all := actions + Forwards(n);
      assert all == before + [Forward(n - 1)];
      assert all[..|all| - 1] == before;
      MuxRunKeeps(names, size, all);
    }
  }

  /** The queues of the handler at one end of the link; `m` in the contracts is the whole
      system of which they are part. */
  class RemoteTransferHandler {
    const names: seq<ByteString>
    const size: nat
    var localRecv: seq<seq<ByteString>>
    var remoteSend: seq<ByteString>
    var remoteRecv: seq<ByteString>
    var sending: Option<ByteString>
    var localSend: seq<seq<ByteString>>

    constructor (names: seq<ByteString>, size: nat)
      requires GoodNames(names)
      ensures this.names == names && this.size == size
      ensures SendsFor(MuxInit(names, size)) && ReceivesFor(MuxInit(names, size))
    {
      this.names, this.size := names, size;
      localRecv, localSend := seq(|names|, _ => []), seq(|names|, _ => []);
      remoteSend, remoteRecv, sending := [], [], None;
    }

    ghost predicate SendsFor(m: Mux)
      reads this
    {
      Shape(m) && m.names == names && m.size == size && m.localRecv == localRecv && m.remoteSend == remoteSend
    }

    ghost predicate ReceivesFor(m: Mux)
      reads this
    {
      && Shape(m) && m.names == names && m.size == size && m.remoteRecv == remoteRecv && m.sending == sending
      && m.localSend == localSend
    }

    /** A turn of the output loop: each channel in turn passes on one buffer if it has one
        and there is room. */
    method OutputTurn(ghost m: Mux)
      requires SendsFor(m)
      modifies this`localRecv, this`remoteSend
      ensures SendsFor(Pass(m, |names|))
    {
      var c := 0;
      while c < |names|
        invariant c <= |names|
        invariant SendsFor(Pass(m, c))
      {
        if |remoteSend| < size && localRecv[c] != [] {
          var b := localRecv[c][0];
          localRecv := localRecv[c := localRecv[c][1..]];
          remoteSend := remoteSend + [b];
        }
        c := c + 1;
      }
    }

    /** The input loop receives the next buffer and looks up the channel its header names.
        `panicked` tells that no such channel is known. */
    method TakeNext(ghost m: Mux) returns (panicked: bool)
      requires ReceivesFor(m)
      modifies this`remoteRecv, this`sending
      ensures panicked <==> MuxStep(m, Take) == Panic
      ensures !panicked ==> ReceivesFor(MuxStep(m, Take).m)
      ensures MuxInv(m) ==> !panicked
    {
      hide MuxInv;
      if MuxInv(m) {
        MuxStepKeeps(m, Take);
      }
      if remoteRecv == [] || sending.Some? {
        return false;
      }
      var id := GetChannelId(remoteRecv[0]);
      if id.None? || IndexOf(names, id.value).None? {
        return true;
      }
      sending, remoteRecv := Some(remoteRecv[0]), remoteRecv[1..];
      return false;
    }

    /** The send to the local queue, which waits for room there. */
    method SendOn(ghost m: Mux)
      requires ReceivesFor(m)
      modifies this`sending, this`localSend
      ensures ReceivesFor(MuxStep(m, Sort).m)
    {
      if sending.None? {
        return;
      }
      var id := GetChannelId(sending.value);
      var c := if id.Some? then IndexOf(names, id.value) else None;
      if c.Some? && |localSend[c.value]| < size {
        localSend := localSend[c.value := localSend[c.value] + [sending.value]];
        sending := None;
      }
    }

    /** A turn of the input loop, as far as the local queue lets it go. */
    method InputTurn(ghost m: Mux) returns (panicked: bool)
      requires ReceivesFor(m)
      modifies this`remoteRecv, this`sending, this`localSend
      ensures panicked <==> MuxStep(m, Take) == Panic
      ensures !panicked ==> Shape(MuxStep(m, Take).m) && ReceivesFor(MuxStep(MuxStep(m, Take).m, Sort).m)
      ensures MuxInv(m) ==> !panicked
    {
      hide MuxStep, MuxInv;
      panicked := TakeNext(m);
      if !panicked {
        SendOn(MuxStep(m, Take).m);
      }
    }
  }
}
