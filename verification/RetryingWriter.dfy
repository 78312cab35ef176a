/** The writer that keeps every scheduled buffer in flight until its ack, resending the
    ones that time out, over the queue of multi-message buffers. */
module RetryingWriter {
  import opened Varint
  import opened Wrappers
  import opened Packing
  import opened PackedQueue

  const IN_FLIGHT_LIMIT_PER_CHANNEL: nat := 1000

  /** `leaked` counts the messages refused as too big after their memory was acquired. */
  datatype Writer = Writer(h: History, inFlight: map<nat, Pack>, leaked: nat)

  datatype WriterAction =
    | Write(data: ByteString)
    | Send(resend: bool, quiet: bool)
    | Receive(acks: seq<nat>)

  datatype WriterOutcome =
    | Fine(w: Writer)
    | QueueFault(fault: Fault)
    | DuplicateScheduled
    | BufferIdMismatch

  ghost function WriteTo(cfg: Config, w: Writer, data: ByteString): Writer {
    w.(h := AppendTo(cfg, w.h, data),
       leaked := w.leaked + if Append(cfg, w.h.q, data).1.MessageTooBig? then 1 else 0)
  }

  /** A resend changes no state that matters here: the buffer goes out again and its
      timestamp is renewed. */
  ghost function SendFrom(cfg: Config, w: Writer, resend: bool, quiet: bool): WriterOutcome
    requires w.h.q.index >= 0
  {
    if resend && |w.inFlight| > 0 then Fine(w)
    else if |w.inFlight| > IN_FLIGHT_LIMIT_PER_CHANNEL then Fine(w)
    else
      match ScheduleFrom(cfg, w.h, quiet)
      case Raised(f) => QueueFault(f)
      case Done((h, None)) => Fine(w.(h := h))
      case Done((h, Some(p))) =>
        if p.id in w.inFlight then DuplicateScheduled
        else Fine(w.(h := h, inFlight := w.inFlight[p.id := p]))
  }

  ghost function AckOne(w: Writer, id: nat): WriterOutcome {
    if id !in w.inFlight then Fine(w)
    else if w.inFlight[id].id != id then BufferIdMismatch
    else
      match PopFrom(w.h, id)
      case Raised(f) => QueueFault(f)
      case Done(h) => Fine(w.(h := h, inFlight := w.inFlight - {id}))
  }

  ghost function AckAll(w: Writer, acks: seq<nat>): WriterOutcome
    decreases |acks|
  {
    if acks == [] then Fine(w)
    else
      match AckOne(w, acks[0])
      case Fine(w') => AckAll(w', acks[1..])
      case bad => bad
  }

  ghost function WriterStep(cfg: Config, w: Writer, a: WriterAction): WriterOutcome
    requires w.h.q.index >= 0
  {
    match a
    case Write(data) => Fine(WriteTo(cfg, w, data))
    case Send(resend, quiet) => SendFrom(cfg, w, resend, quiet)
    case Receive(acks) => AckAll(w, acks)
  }

  // ------------------------------------------------------------------ invariant

  /** The buffers handed out and still queued are those in flight and those whose ack has
      come before an earlier one's; no buffer is both. */
  ghost predicate FlightInv(w: Writer) {
    var h := w.h;
    && (forall k :: k in w.inFlight <==> h.popped <= k < |h.scheduled| && k !in h.q.pops)
    && (forall k | k in h.q.pops :: h.popped <= k < |h.scheduled|)
    && (forall k | k in w.inFlight :: w.inFlight[k].id == k)
    && (forall k | k in h.q.pops :: k != h.popped)
  }

  ghost predicate MemoryInv(cfg: Config, w: Writer) {
    && |w.h.q.queue| + Remaining(cfg, w.h.q) + w.leaked == cfg.capacity
    && (w.h.q.queue != [] ==> w.h.q.memory.Some?)
  }

  ghost predicate WriterInv(cfg: Config, w: Writer) {
    && QueueInv(w.h) && CutInv(cfg, w.h.q)
    && FlightInv(w) && MemoryInv(cfg, w)
  }

  lemma WriteKeepsRest(cfg: Config, w: Writer, data: ByteString)
    requires FlightInv(w) && MemoryInv(cfg, w)
    ensures FlightInv(WriteTo(cfg, w, data)) && MemoryInv(cfg, WriteTo(cfg, w, data))
  {
    hide NeedsNewBuffer, Fits;
    NewBufferReasons(cfg, w.h.q, Msg(w.h.q.msgSeq, data));
  }

  /** Whether appending `data` takes memory for a new buffer that is then refused: the
      message has to start a buffer, memory is there, and it does not fit a buffer. */
  predicate Leaks(cfg: Config, q: PQ, data: ByteString) {
    && (NeedsNewBuffer(cfg, q, Msg(q.msgSeq, data)) || q.cut)
    && Remaining(cfg, q) >= 1
    && !Fits(cfg, q, data)
  }

  /** Memory is conserved by an append exactly if it does not leak. */
  lemma AppendConservesIff(cfg: Config, q: PQ, data: ByteString)
    ensures var q' := Append(cfg, q, data).0;
            |q'.queue| + Remaining(cfg, q') == |q.queue| + Remaining(cfg, q) <==> !Leaks(cfg, q, data)
    ensures Append(cfg, q, data).1.MessageTooBig? <==> Leaks(cfg, q, data)
  {
    hide NeedsNewBuffer, Fits;
    NewBufferReasons(cfg, q, Msg(q.msgSeq, data));
  }

  lemma SendKeeps(cfg: Config, w: Writer, resend: bool, quiet: bool)
    requires WriterInv(cfg, w)
    ensures var o := SendFrom(cfg, w, resend, quiet);
            o.Fine? && WriterInv(cfg, o.w)
  {
    hide QueueInv, CutInv, ScheduleFrom;
    assert w.h.q.index >= 0 by { IndexInRange(w.h); }
    ScheduleKeeps(cfg, w.h, quiet);
    IndexInRange(w.h);
    var (h, p) := ScheduleFrom(cfg, w.h, quiet).value;
    if p.Some? {
      assert p.value.id == |w.h.scheduled|;
      assert p.value.id !in w.inFlight && p.value.id !in w.h.q.pops;
    }
  }

  lemma IndexInRange(h: History)
    requires QueueInv(h)
    ensures 0 <= h.q.index <= |h.q.queue| && 0 <= h.popped
    ensures |h.scheduled| == h.popped + h.q.index
    ensures ConsecutiveIds(h.q.queue, h.popped)
  {
  }

  lemma AckPops(cfg: Config, w: Writer, id: nat)
    requires WriterInv(cfg, w) && id in w.inFlight
    ensures PopFrom(w.h, id).Done?
    ensures var h := PopFrom(w.h, id).value;
            var n := h.popped - w.h.popped;
            && 0 <= n && h.scheduled == w.h.scheduled
            && |h.q.queue| == |w.h.q.queue| - n
            && (forall k :: k in h.q.pops <==> (k in w.h.q.pops || k == id) && k >= h.popped)
            && (forall k: nat | w.h.popped <= k < h.popped :: k in w.h.q.pops || k == id)
            && Remaining(cfg, h.q) == Remaining(cfg, w.h.q) + n
            && (h.q.queue != [] ==> h.q.memory.Some?)
            && (forall k | k in h.q.pops :: k != h.popped)
  {
    hide QueueInv, CutInv, PopRequested;
    IndexInRange(w.h);
    var q := w.h.q.(pops := w.h.q.pops + {id});
    PopSafe(q, w.h.popped);
    PopPrefix(q, w.h.popped);
  }

  lemma AckKeeps(cfg: Config, w: Writer, id: nat)
    requires WriterInv(cfg, w)
    ensures AckOne(w, id).Fine? && WriterInv(cfg, AckOne(w, id).w)
  {
    hide QueueInv, CutInv, PopFrom;
    if id in w.inFlight {
      AckPops(cfg, w, id);
      PopKeeps(cfg, w.h, id);
      IndexInRange(PopFrom(w.h, id).value);
    }
  }

  lemma {:induction false} AckAllKeeps(cfg: Config, w: Writer, acks: seq<nat>)
    requires WriterInv(cfg, w)
    ensures AckAll(w, acks).Fine? && WriterInv(cfg, AckAll(w, acks).w)
    decreases |acks|
  {
    hide WriterInv, AckOne;
    if acks != [] {
      AckKeeps(cfg, w, acks[0]);
      AckAllKeeps(cfg, AckOne(w, acks[0]).w, acks[1..]);
    }
  }

  function InitWriter(): Writer {
    Writer(History(InitQueue(), [], [], 0), map[], 0)
  }

  ghost function WriterRun(cfg: Config, actions: seq<WriterAction>): WriterOutcome
    decreases |actions|
  {
    if actions == [] then Fine(InitWriter())
    else
      match WriterRun(cfg, actions[..|actions| - 1])
      case Fine(w) =>
        if w.h.q.index >= 0 then WriterStep(cfg, w, actions[|actions| - 1]) else QueueFault(IndexBelowZero)
      case bad => bad
  }

  lemma StepKeeps(cfg: Config, w: Writer, a: WriterAction)
    requires WriterInv(cfg, w)
    ensures w.h.q.index >= 0
    ensures WriterStep(cfg, w, a).Fine? && WriterInv(cfg, WriterStep(cfg, w, a).w)
  {
    hide QueueInv, CutInv, SendFrom, AckAll, FlightInv, MemoryInv, AppendTo, Append;
    IndexInRange(w.h);
    match a
    case Write(data) =>
      AppendKeeps(cfg, w.h, data);
      WriteKeepsRest(cfg, w, data);
    case Send(resend, quiet) => SendKeeps(cfg, w, resend, quiet);
    case Receive(acks) => AckAllKeeps(cfg, w, acks);
  }

  /** In every run, whatever acks arrive and however often buffers are resent, none of
      the writer's internal errors is reachable; and the queue, the remaining capacity
      and the capacity lost to messages refused as too big add up to the channel's
      capacity. `MemoryConservedIff` below says when nothing is lost. */
  lemma {:induction false} NoFaultAndMemoryConserved(cfg: Config, actions: seq<WriterAction>)
    ensures WriterRun(cfg, actions).Fine?
    ensures var w := WriterRun(cfg, actions).w;
            && WriterInv(cfg, w)
            && |w.h.q.queue| + Remaining(cfg, w.h.q) + w.leaked == cfg.capacity
    decreases |actions|
  {
    hide QueueInv, CutInv, FlightInv, WriterStep;
    if actions == [] {
      InitKeeps(cfg);
      InitFlight();
    } else {
      var front := actions[..|actions| - 1];
      NoFaultAndMemoryConserved(cfg, front);
      StepKeeps(cfg, WriterRun(cfg, front).w, actions[|actions| - 1]);
    }
  }

  lemma InitFlight()
    ensures FlightInv(InitWriter())
  {
  }

  // ------------------------------------------------------------------ when memory is conserved

  lemma {:induction false} AcksKeepCounters(w: Writer, acks: seq<nat>)
    requires AckAll(w, acks).Fine?
    ensures var w' := AckAll(w, acks).w;
            w'.leaked == w.leaked && w'.h.q.msgSeq == w.h.q.msgSeq && w'.h.q.bufSeq == w.h.q.bufSeq
    decreases |acks|
  {
    if acks != [] {
      AckKeepsCounters(w, acks[0]);
      hide AckOne;
      AcksKeepCounters(AckOne(w, acks[0]).w, acks[1..]);
    }
  }

  lemma AckKeepsCounters(w: Writer, id: nat)
    requires AckOne(w, id).Fine?
    ensures var w' := AckOne(w, id).w;
            w'.leaked == w.leaked && w'.h.q.msgSeq == w.h.q.msgSeq && w'.h.q.bufSeq == w.h.q.bufSeq
  {
    if id in w.inFlight {
      PopsKeepCounters(w.h.q.(pops := w.h.q.pops + {id}));
      hide PopRequested;
    }
  }

  lemma {:induction false} PopsKeepCounters(q: PQ)
    requires PopRequested(q).Done?
    ensures PopRequested(q).value.msgSeq == q.msgSeq && PopRequested(q).value.bufSeq == q.bufSeq
    decreases |q.queue|
  {
    if q.queue != [] && q.queue[0].id in q.pops {
      PopsKeepCounters(q.(queue := q.queue[1..], index := q.index - 1, pops := q.pops - {q.queue[0].id},
                          memory := Some(q.memory.value + 1)));
    }
  }

  /** Only a leaking write leaks, and ids grow by at most one a step. */
  lemma StepCounts(cfg: Config, w: Writer, a: WriterAction)
    requires WriterInv(cfg, w)
    ensures w.h.q.index >= 0 && WriterStep(cfg, w, a).Fine?
    ensures var w' := WriterStep(cfg, w, a).w;
            && w'.leaked == w.leaked + (if a.Write? && Leaks(cfg, w.h.q, a.data) then 1 else 0)
            && w'.h.q.msgSeq <= w.h.q.msgSeq + 1 && w'.h.q.bufSeq <= w.h.q.bufSeq + 1
  {
    StepKeeps(cfg, w, a);
    hide WriterInv, AckAll, NeedsNewBuffer, Fits, Leaks;
    match a
    case Write(data) => AppendConservesIff(cfg, w.h.q, data);
    case Send(resend, quiet) =>
    case Receive(acks) => AcksKeepCounters(w, acks);
  }

  /** Every message of the run fits a buffer even with ids as large as `n`. */
  ghost predicate AllFit(cfg: Config, actions: seq<WriterAction>, n: nat) {
    forall i | 0 <= i < |actions| && actions[i].Write? ::
      Size(cfg, Pack(n, [Msg(n, actions[i].data)])) <= cfg.bufferSize
  }

  lemma FitsAtSmallerIds(cfg: Config, data: ByteString, id: nat, msgId: nat, n: nat)
    requires id <= n && msgId <= n && Size(cfg, Pack(n, [Msg(n, data)])) <= cfg.bufferSize
    ensures Size(cfg, Pack(id, [Msg(msgId, data)])) <= cfg.bufferSize
  {
    EncodeLengthMonotone(id, n);
    EncodeLengthMonotone(msgId, n);
    OneMessage(cfg, data, id, msgId);
    OneMessage(cfg, data, n, n);
    hide Encode, Size;
    var a, b := |Encode(msgId)| + |Encode(|data|)| + |data|, |Encode(n)| + |Encode(|data|)| + |data|;
    EncodeLengthMonotone(a, b);
  }

  lemma OneMessage(cfg: Config, data: ByteString, id: nat, msgId: nat)
    ensures var body := |Encode(msgId)| + |Encode(|data|)| + |data|;
            Size(cfg, Pack(id, [Msg(msgId, data)])) == CHANNEL_ID_HEADER_LENGTH + |Encode(id)| + |Encode(body)| + body
  {
    hide Encode;
    var m := Msg(msgId, data);
    assert Body([m][..0]) == [];
    assert Body([m]) == MsgBytes(m);
  }

  lemma {:induction false} FittingRunLeaksNothing(cfg: Config, actions: seq<WriterAction>, n: nat)
    requires AllFit(cfg, actions, n) && |actions| <= n
    ensures WriterRun(cfg, actions).Fine? && WriterRun(cfg, actions).w.leaked == 0
    ensures var q := WriterRun(cfg, actions).w.h.q;
            q.msgSeq <= |actions| && q.bufSeq <= |actions|
    decreases |actions|
  {
    if actions != [] {
      var front, a := actions[..|actions| - 1], actions[|actions| - 1];
      FittingRunLeaksNothing(cfg, front, n);
      NoFaultAndMemoryConserved(cfg, front);
      var w := WriterRun(cfg, front).w;
      StepCounts(cfg, w, a);
      if a.Write? {
        FitsAtSmallerIds(cfg, a.data, w.h.q.bufSeq, w.h.q.msgSeq, n);
      }
      hide WriterStep, WriterInv, Size;
    }
  }

  /** If every message written fits a buffer, with room for ids as large as the run is long,
      then whatever else happens queue and remaining capacity make up the channel's. */
  lemma MemoryConservedIfAllFit(cfg: Config, actions: seq<WriterAction>)
    requires AllFit(cfg, actions, |actions|)
    ensures WriterRun(cfg, actions).Fine?
    ensures var q := WriterRun(cfg, actions).w.h.q;
            |q.queue| + Remaining(cfg, q) == cfg.capacity
  {
    hide WriterRun, WriterInv;
    FittingRunLeaksNothing(cfg, actions, |actions|);
    NoFaultAndMemoryConserved(cfg, actions);
  }

  /** The write at position `i` of a run leaks. */
  ghost predicate LeaksAt(cfg: Config, actions: seq<WriterAction>, i: nat)
    requires i < |actions|
  {
    && actions[i].Write? && WriterRun(cfg, actions[..i]).Fine?
    && Leaks(cfg, WriterRun(cfg, actions[..i]).w.h.q, actions[i].data)
  }

  lemma LeaksAtFront(cfg: Config, actions: seq<WriterAction>, i: nat)
    requires i + 1 < |actions|
    ensures LeaksAt(cfg, actions[..|actions| - 1], i) <==> LeaksAt(cfg, actions, i)
  {
    hide WriterRun, Leaks;
    var front := actions[..|actions| - 1];
    assert front[..i] == actions[..i] && front[i] == actions[i];
  }

  lemma LeaksAtEnd(cfg: Config, actions: seq<WriterAction>)
    requires actions != []
    ensures var n := |actions| - 1;
            && WriterRun(cfg, actions).Fine? && WriterRun(cfg, actions[..n]).Fine?
            && WriterRun(cfg, actions).w.leaked
               == WriterRun(cfg, actions[..n]).w.leaked + if LeaksAt(cfg, actions, n) then 1 else 0
  {
    hide WriterInv, WriterStep, Leaks;
    var n := |actions| - 1;
    NoFaultAndMemoryConserved(cfg, actions);
    NoFaultAndMemoryConserved(cfg, actions[..n]);
    StepCounts(cfg, WriterRun(cfg, actions[..n]).w, actions[n]);
  }

  lemma {:induction false} LeakedIff(cfg: Config, actions: seq<WriterAction>)
    ensures WriterRun(cfg, actions).Fine?
    ensures WriterRun(cfg, actions).w.leaked == 0 <==> forall i | 0 <= i < |actions| :: !LeaksAt(cfg, actions, i)
    decreases |actions|
  {
    if actions != [] {
      hide WriterRun, LeaksAt;
      var n := |actions| - 1;
      LeakedIff(cfg, actions[..n]);
      LeaksAtEnd(cfg, actions);
      forall i | 0 <= i < n
        ensures LeaksAt(cfg, actions[..n], i) <==> LeaksAt(cfg, actions, i)
      {
        LeaksAtFront(cfg, actions, i);
      }
    }
  }

  /** In general they do exactly if no write of the run leaks in the state it meets. */
  lemma MemoryConservedIff(cfg: Config, actions: seq<WriterAction>)
    ensures WriterRun(cfg, actions).Fine?
    ensures var q := WriterRun(cfg, actions).w.h.q;
            |q.queue| + Remaining(cfg, q) == cfg.capacity
            <==> forall i | 0 <= i < |actions| :: !LeaksAt(cfg, actions, i)
  {
    hide WriterRun, WriterInv, LeaksAt;
    NoFaultAndMemoryConserved(cfg, actions);
    LeakedIff(cfg, actions);
  }

  /** One message too big for the buffers, written to a fresh channel with any capacity,
      loses a unit of it for good. */
  lemma OversizedWriteLeaks(cfg: Config, data: ByteString)
    requires cfg.capacity >= 1 && Size(cfg, Pack(0, [Msg(0, data)])) > cfg.bufferSize
    ensures WriterRun(cfg, [Write(data)]).Fine?
    ensures var q := WriterRun(cfg, [Write(data)]).w.h.q;
            |q.queue| + Remaining(cfg, q) == cfg.capacity - 1
  {
    hide Size;
    assert [Write(data)][..0] == [];
    assert WriterRun(cfg, []) == Fine(InitWriter());
  }

  /** For instance an empty message where buffers are to have no bytes at all. */
  lemma LeakingRun()
    ensures var cfg := Config([], 0, PerMessage, 1);
            var o := WriterRun(cfg, [Write([])]);
            o.Fine? && o.w.h.q.queue == [] && Remaining(cfg, o.w.h.q) == 0
  {
    var cfg := Config([], 0, PerMessage, 1);
    OneMessage(cfg, [], 0, 0);
    OversizedWriteLeaks(cfg, []);
    NoFaultAndMemoryConserved(cfg, [Write([])]);
    hide Size;
    assert [Write([])][..0] == [];
    assert WriterRun(cfg, []) == Fine(InitWriter());
  }

  // ------------------------------------------------------------------ acks and the limit

  lemma AckOneTakesEffect(cfg: Config, w: Writer, id: nat, k: nat)
    requires WriterInv(cfg, w)
    ensures AckOne(w, id).Fine?
    ensures k in AckOne(w, id).w.inFlight <==> k in w.inFlight && k != id
  {
    AckKeeps(cfg, w, id);
    hide WriterInv, PopFrom;
  }

  /** Every ack of a batch takes effect, and no other buffer is touched. */
  lemma {:induction false} AcksTakeEffect(cfg: Config, w: Writer, acks: seq<nat>, k: nat)
    requires WriterInv(cfg, w)
    ensures AckAll(w, acks).Fine?
    ensures k in AckAll(w, acks).w.inFlight <==> k in w.inFlight && k !in acks
    decreases |acks|
  {
    hide WriterInv, AckOne;
    if acks != [] {
      AckKeeps(cfg, w, acks[0]);
      AckOneTakesEffect(cfg, w, acks[0], k);
      AcksTakeEffect(cfg, AckOne(w, acks[0]).w, acks[1..], k);
    }
  }

  /** Once all buffers in flight have been acknowledged, in any order, all that were handed
      out have left the queue. */
  lemma AllAckedAllFreed(cfg: Config, w: Writer)
    requires WriterInv(cfg, w) && forall k :: k !in w.inFlight
    ensures w.h.q.index == 0 && |w.h.scheduled| == w.h.popped
  {
    hide CutInv, MemoryInv;
    IndexInRange(w.h);
    hide QueueInv;
    assert w.h.popped !in w.inFlight && w.h.popped !in w.h.q.pops;
  }

  /** The limit on buffers in flight is checked before one more is sent. */
  lemma {:induction false} InFlightBounded(cfg: Config, actions: seq<WriterAction>)
    ensures WriterRun(cfg, actions).Fine?
    ensures |WriterRun(cfg, actions).w.inFlight| <= IN_FLIGHT_LIMIT_PER_CHANNEL + 1
    decreases |actions|
  {
    NoFaultAndMemoryConserved(cfg, actions);
    if actions != [] {
      var front, a := actions[..|actions| - 1], actions[|actions| - 1];
      InFlightBounded(cfg, front);
      NoFaultAndMemoryConserved(cfg, front);
      var w := WriterRun(cfg, front).w;
      if a.Receive? {
        hide WriterInv;
        forall k
          ensures k in AckAll(w, a.acks).w.inFlight ==> k in w.inFlight
        {
          AcksTakeEffect(cfg, w, a.acks, k);
        }
        KeysAtMost(AckAll(w, a.acks).w.inFlight, w.inFlight);
      }
    }
  }

  lemma KeysAtMost(a: map<nat, Pack>, b: map<nat, Pack>)
    requires forall k | k in a :: k in b
    ensures |a| <= |b|
  {
    assert a.Keys <= b.Keys;
    assert a.Keys + (b.Keys - a.Keys) == b.Keys;
    assert |a| == |a.Keys| && |b| == |b.Keys|;
  }

  /** Below the limit the next buffer that the queue hands out goes into flight. */
  lemma SendIff(cfg: Config, w: Writer, quiet: bool)
    requires WriterInv(cfg, w)
    ensures w.h.q.index >= 0 && SendFrom(cfg, w, false, quiet).Fine?
    ensures var w' := SendFrom(cfg, w, false, quiet).w;
            var q := w.h.q;
            |w'.h.scheduled| == |w.h.scheduled| + 1
            <==> && |w.inFlight| <= IN_FLIGHT_LIMIT_PER_CHANNEL && q.index < |q.queue|
                 && (q.index + 1 < |q.queue| || cfg.policy.PerMessage? || quiet)
    ensures var w' := SendFrom(cfg, w, false, quiet).w;
            |w'.h.scheduled| != |w.h.scheduled| ==>
              && w'.h.scheduled == w.h.scheduled + [w.h.q.queue[w.h.q.index]]
              && w'.inFlight == w.inFlight[w.h.q.queue[w.h.q.index].id := w.h.q.queue[w.h.q.index]]
  {
    SendKeeps(cfg, w, false, quiet);
    IndexInRange(w.h);
    hide WriterInv, QueueInv;
    ScheduleIff(cfg, w.h.q, quiet);
  }
}
