/** The queue of multi-message buffers of one channel: messages go into the last buffer
    while it has room, a partly filled buffer may be flushed after a quiet period, and
    every buffer counts against a memory budget until it is popped. */
module PackedQueue {
  import opened Wrappers
  import opened Varint
  import opened Packing

  type ChannelId = s: ByteString | |s| <= CHANNEL_ID_HEADER_LENGTH

  datatype Policy = PerMessage | PartialFlush

  datatype Config = Config(channelId: ChannelId, bufferSize: int, policy: Policy, capacity: int)

  /** `memory` is the tracker's entry for the channel, absent until first acquired. */
  datatype PQ = PQ(
    queue: seq<Pack>,
    msgSeq: nat,
    bufSeq: nat,
    index: int,
    cut: bool,
    pops: set<nat>,
    memory: Option<int>)

  datatype AppendOutcome = Accepted(msgId: nat, bufferId: nat) | Backpressure | MessageTooBig

  function Size(cfg: Config, p: Pack): nat {
    |PackBytes(cfg.channelId, p)|
  }

  function Remaining(cfg: Config, q: PQ): int {
    match q.memory
    case None => cfg.capacity
    case Some(v) => v
  }

  predicate NeedsNewBuffer(cfg: Config, q: PQ, m: Msg) {
    q.queue == [] || cfg.policy.PerMessage? || cfg.bufferSize - Size(cfg, q.queue[|q.queue| - 1]) < |MsgBytes(m)|
  }

  /** A message that has to start a buffer fits one. */
  predicate Fits(cfg: Config, q: PQ, data: ByteString) {
    Size(cfg, Pack(q.bufSeq, [Msg(q.msgSeq, data)])) <= cfg.bufferSize
  }

  function Extend(p: Pack, m: Msg): Pack {
    Pack(p.id, p.msgs + [m])
  }

  function Append(cfg: Config, q: PQ, data: ByteString): (r: (PQ, AppendOutcome)) {
    var m := Msg(q.msgSeq, data);
    if !NeedsNewBuffer(cfg, q, m) && !q.cut then
      var last := |q.queue| - 1;
      (q.(queue := q.queue[last := Extend(q.queue[last], m)], msgSeq := q.msgSeq + 1), Accepted(q.msgSeq, q.bufSeq))
    else if Remaining(cfg, q) < 1 then (q, Backpressure)
    else
      var acquired := q.(memory := Some(Remaining(cfg, q) - 1));
      if !Fits(cfg, q, data) then (acquired, MessageTooBig)
      else
        (acquired.(queue := q.queue + [Pack(q.bufSeq, [m])], msgSeq := q.msgSeq + 1, bufSeq := q.bufSeq + 1,
                   cut := false),
         Accepted(q.msgSeq, q.bufSeq))
  }

  /** The errors the queue raises. */
  datatype Fault = IndexPastEnd | PopOfEmptyQueue | IndexBelowZero | ReleaseOfUnknownKey

  datatype Outcome<+T> = Done(value: T) | Raised(fault: Fault)

  /** `quiet` is whether the flush period has passed since the last update. */
  function Schedule(cfg: Config, q: PQ, quiet: bool): (r: Outcome<(PQ, Option<Pack>)>)
    requires q.index >= 0
  {
    var n := |q.queue| - q.index;
    if n < 0 then Raised(IndexPastEnd)
    else if n == 0 then Done((q, None))
    else if n == 1 && cfg.policy.PartialFlush? then
      if quiet then Done((q.(index := q.index + 1, cut := true), Some(q.queue[q.index]))) else Done((q, None))
    else Done((q.(index := q.index + 1), Some(q.queue[q.index])))
  }

  function PopRequested(q: PQ): (r: Outcome<PQ>)
    decreases |q.queue|
  {
    if q.queue == [] || q.queue[0].id !in q.pops then Done(q)
    else if q.index < 1 then Raised(IndexBelowZero)
    else if q.memory.None? then Raised(ReleaseOfUnknownKey)
    else
      PopRequested(q.(queue := q.queue[1..], index := q.index - 1, pops := q.pops - {q.queue[0].id},
                      memory := Some(q.memory.value + 1)))
  }

  function Pop(q: PQ, id: nat): (r: Outcome<PQ>) {
    if q.queue == [] then Raised(PopOfEmptyQueue) else PopRequested(q.(pops := q.pops + {id}))
  }

  // ------------------------------------------------------------------ history

  /** `appended` records the accepted messages, `scheduled` the buffers as they were when
      they were handed out, `popped` how many have left the queue. */
  datatype History = History(q: PQ, appended: seq<ByteString>, scheduled: seq<Pack>, popped: int)

  function AllMsgs(ps: seq<Pack>): (r: seq<Msg>) {
    if ps == [] then [] else AllMsgs(ps[..|ps| - 1]) + ps[|ps| - 1].msgs
  }

  function Numbered(ms: seq<ByteString>): (r: seq<Msg>)
    ensures |r| == |ms| && forall i | 0 <= i < |ms| :: r[i] == Msg(i, ms[i])
  {
    seq(|ms|, i requires 0 <= i < |ms| => Msg(i, ms[i]))
  }

  ghost predicate QueueInv(h: History) {
    var q := h.q;
    && 0 <= q.index <= |q.queue| && 0 <= h.popped
    && |h.scheduled| == h.popped + q.index
    && q.bufSeq == h.popped + |q.queue|
    && q.msgSeq == |h.appended|
    && (forall i | 0 <= i < |q.queue| :: q.queue[i].id == h.popped + i)
    && q.queue[..q.index] == h.scheduled[h.popped..]
    && AllMsgs(h.scheduled[..h.popped]) + AllMsgs(q.queue) == Numbered(h.appended)
  }

  /** A flushed last buffer is closed for appending. */
  ghost predicate CutInv(cfg: Config, q: PQ) {
    cfg.policy.PartialFlush? && q.index == |q.queue| > 0 ==> q.cut
  }

  lemma {:induction false} AllMsgsConcat(a: seq<Pack>, b: seq<Pack>)
    ensures AllMsgs(a + b) == AllMsgs(a) + AllMsgs(b)
    decreases |b|
  {
    if b == [] {
      assert a + b == a;
    } else {
      assert (a + b)[..|a + b| - 1] == a + b[..|b| - 1];
      AllMsgsConcat(a, b[..|b| - 1]);
    }
  }

  lemma NumberedAppend(ms: seq<ByteString>, data: ByteString)
    ensures Numbered(ms + [data]) == Numbered(ms) + [Msg(|ms|, data)]
  {
  }

  ghost function AppendTo(cfg: Config, h: History, data: ByteString): History {
    var (q, r) := Append(cfg, h.q, data);
    h.(q := q, appended := if r.Accepted? then h.appended + [data] else h.appended)
  }

  lemma ExtendMsgs(ps: seq<Pack>, m: Msg)
    requires ps != []
    ensures AllMsgs(ps[|ps| - 1 := Extend(ps[|ps| - 1], m)]) == AllMsgs(ps) + [m]
  {
    var n := |ps| - 1;
    assert ps[n := Extend(ps[n], m)][..n] == ps[..n];
  }

  lemma AppendInPlaceKeeps(cfg: Config, h: History, data: ByteString)
    requires QueueInv(h) && CutInv(cfg, h.q)
    requires !NeedsNewBuffer(cfg, h.q, Msg(h.q.msgSeq, data)) && !h.q.cut
    ensures QueueInv(AppendTo(cfg, h, data)) && CutInv(cfg, AppendTo(cfg, h, data).q)
  {
    hide NeedsNewBuffer, Numbered, AllMsgs, Size, Fits;
    var q, h' := h.q, AppendTo(cfg, h, data);
    assert q.queue != [] && cfg.policy.PartialFlush? by {
      var m := Msg(q.msgSeq, data);
      assert !NeedsNewBuffer(cfg, q, m);
      NewBufferReasons(cfg, q, m);
    }
    assert q.index < |q.queue|;
    ExtendMsgs(q.queue, Msg(q.msgSeq, data));
    NumberedAppend(h.appended, data);
    assert h'.q.queue[..q.index] == q.queue[..q.index];
  }

  lemma NewBufferReasons(cfg: Config, q: PQ, m: Msg)
    ensures !NeedsNewBuffer(cfg, q, m) ==> q.queue != [] && cfg.policy.PartialFlush?
  {
  }

  lemma PushedMsgs(ps: seq<Pack>, p: Pack)
    ensures AllMsgs(ps + [p]) == AllMsgs(ps) + p.msgs
  {
    assert (ps + [p])[..|ps|] == ps;
  }

  lemma AppendNewKeeps(cfg: Config, h: History, data: ByteString)
    requires QueueInv(h) && CutInv(cfg, h.q)
    requires NeedsNewBuffer(cfg, h.q, Msg(h.q.msgSeq, data)) || h.q.cut
    ensures QueueInv(AppendTo(cfg, h, data)) && CutInv(cfg, AppendTo(cfg, h, data).q)
  {
    hide NeedsNewBuffer, Fits, Numbered, Size;
    var q, h', p := h.q, AppendTo(cfg, h, data), Pack(h.q.bufSeq, [Msg(h.q.msgSeq, data)]);
    PushedMsgs(q.queue, p);
    hide AllMsgs;
    NumberedAppend(h.appended, data);
    Regroup(AllMsgs(h.scheduled[..h.popped]), AllMsgs(q.queue), p.msgs);
    assert (q.queue + [p])[..q.index] == q.queue[..q.index];
  }

  lemma AppendKeeps(cfg: Config, h: History, data: ByteString)
    requires QueueInv(h) && CutInv(cfg, h.q)
    ensures QueueInv(AppendTo(cfg, h, data)) && CutInv(cfg, AppendTo(cfg, h, data).q)
  {
    hide *;
    if !NeedsNewBuffer(cfg, h.q, Msg(h.q.msgSeq, data)) && !h.q.cut {
      AppendInPlaceKeeps(cfg, h, data);
    } else {
      AppendNewKeeps(cfg, h, data);
    }
  }

  ghost function ScheduleFrom(cfg: Config, h: History, quiet: bool): Outcome<(History, Option<Pack>)>
    requires h.q.index >= 0
  {
    match Schedule(cfg, h.q, quiet)
    case Raised(f) => Raised(f)
    case Done((q, None)) => Done((h, None))
    case Done((q, Some(p))) => Done((h.(q := q, scheduled := h.scheduled + [p]), Some(p)))
  }

  lemma ScheduleKeeps(cfg: Config, h: History, quiet: bool)
    requires QueueInv(h) && CutInv(cfg, h.q)
    ensures ScheduleFrom(cfg, h, quiet).Done?
    ensures var (h', p) := ScheduleFrom(cfg, h, quiet).value;
            && QueueInv(h') && CutInv(cfg, h'.q)
            && (p.Some? ==> p.value.id == |h.scheduled| && |h'.scheduled| == |h.scheduled| + 1)
            && (p.None? ==> h' == h)
            && h'.popped == h.popped && h'.q.pops == h.q.pops && h'.q.queue == h.q.queue && h'.q.memory == h.q.memory
  {
    hide Numbered, AllMsgs;
    var q := h.q;
    if q.index < |q.queue| {
      var p := q.queue[q.index];
      assert q.queue[..q.index + 1] == q.queue[..q.index] + [p];
      assert (h.scheduled + [p])[h.popped..] == h.scheduled[h.popped..] + [p];
      assert (h.scheduled + [p])[..h.popped] == h.scheduled[..h.popped];
    }
  }

  ghost function PopFrom(h: History, id: nat): Outcome<History> {
    match Pop(h.q, id)
    case Raised(f) => Raised(f)
    case Done(q) => Done(h.(q := q, popped := h.popped + |h.q.queue| - |q.queue|))
  }

  ghost predicate ConsecutiveIds(queue: seq<Pack>, base: int) {
    forall i | 0 <= i < |queue| :: queue[i].id == base + i
  }

  /** Popping removes a prefix of requested buffers, gives back their memory and stops at
      the first buffer not requested. */
  lemma {:induction false} PopPrefix(q: PQ, base: int)
    requires ConsecutiveIds(q.queue, base) && PopRequested(q).Done? && q.index >= 0
    ensures var r := PopRequested(q).value;
            var n := |q.queue| - |r.queue|;
            && 0 <= n <= |q.queue| && n <= q.index
            && r == q.(queue := q.queue[n..], index := q.index - n, pops := r.pops, memory := r.memory)
            && (forall k :: k in r.pops <==> k in q.pops && !(base <= k < base + n))
            && (q.memory.Some? ==> r.memory == Some(q.memory.value + n))
            && (q.memory.None? ==> n == 0 && r.memory.None?)
            && (forall k: nat | base <= k < base + n :: k in q.pops)
            && (r.queue == [] || base + n !in q.pops)
    decreases |q.queue|
  {
    if q.queue == [] || q.queue[0].id !in q.pops {
      assert q.queue[0..] == q.queue;
    } else {
      var q' := q.(queue := q.queue[1..], index := q.index - 1, pops := q.pops - {q.queue[0].id},
                   memory := Some(q.memory.value + 1));
      forall i | 0 <= i < |q'.queue|
        ensures q'.queue[i].id == base + 1 + i
      {
        assert q'.queue[i] == q.queue[i + 1];
      }
      PopPrefix(q', base + 1);
      var r := PopRequested(q').value;
      var n := |q'.queue| - |r.queue|;
      assert PopRequested(q) == Done(r);
      assert q'.queue[n..] == q.queue[n + 1..];
      forall k: nat | base <= k < base + n + 1
        ensures k in q.pops
      {
        if k != base {
          assert k in q'.pops;
        }
      }
      assert r == q.(queue := q.queue[n + 1..], index := q.index - (n + 1), pops := r.pops, memory := r.memory);
      if r.queue != [] {
        assert base + 1 + n !in q'.pops;
      }
    }
  }

  /** If only handed-out buffers are requested, popping raises nothing. */
  lemma {:induction false} PopSafe(q: PQ, base: int)
    requires ConsecutiveIds(q.queue, base) && 0 <= q.index <= |q.queue|
    requires forall k | k in q.pops :: k < base + q.index
    requires q.queue != [] ==> q.memory.Some?
    ensures PopRequested(q).Done?
    decreases |q.queue|
  {
    if q.queue != [] && q.queue[0].id in q.pops {
      var q' := q.(queue := q.queue[1..], index := q.index - 1, pops := q.pops - {q.queue[0].id},
                   memory := Some(q.memory.value + 1));
      forall i | 0 <= i < |q'.queue|
        ensures q'.queue[i].id == base + 1 + i
      {
        assert q'.queue[i] == q.queue[i + 1];
      }
      PopSafe(q', base + 1);
    }
  }

  lemma PopKeeps(cfg: Config, h: History, id: nat)
    requires QueueInv(h) && CutInv(cfg, h.q) && PopFrom(h, id).Done?
    ensures QueueInv(PopFrom(h, id).value) && CutInv(cfg, PopFrom(h, id).value.q)
  {
    hide Numbered, AllMsgs, PopRequested;
    var q := h.q.(pops := h.q.pops + {id});
    PopPrefix(q, h.popped);
    var h' := PopFrom(h, id).value;
    var n := |q.queue| - |h'.q.queue|;
    assert h'.popped == h.popped + n;
    assert q.queue[..q.index][n..] == h'.q.queue[..h'.q.index];
    assert h.scheduled[h.popped..][n..] == h.scheduled[h'.popped..];
    PopKeepsMsgs(h, n);
  }

  lemma PopKeepsMsgs(h: History, n: nat)
    requires QueueInv(h) && n <= h.q.index
    ensures AllMsgs(h.scheduled[..h.popped + n]) + AllMsgs(h.q.queue[n..]) == Numbered(h.appended)
  {
    hide Numbered;
    var q := h.q;
    hide AllMsgs;
    assert h.scheduled[..h.popped + n] == h.scheduled[..h.popped] + h.scheduled[h.popped..][..n];
    assert h.scheduled[h.popped..][..n] == q.queue[..q.index][..n] == q.queue[..n];
    AllMsgsConcat(h.scheduled[..h.popped], q.queue[..n]);
    assert q.queue == q.queue[..n] + q.queue[n..];
    AllMsgsConcat(q.queue[..n], q.queue[n..]);
    Regroup(AllMsgs(h.scheduled[..h.popped]), AllMsgs(q.queue[..n]), AllMsgs(q.queue[n..]));
  }

  lemma Regroup<T>(a: seq<T>, b: seq<T>, c: seq<T>)
    ensures (a + b) + c == a + (b + c)
  {
  }

  // ------------------------------------------------------------------ runs

  datatype Action = DoAppend(data: ByteString) | DoSchedule(quiet: bool) | DoPop(id: nat)

  ghost function Step(cfg: Config, h: History, a: Action): Outcome<History>
    requires h.q.index >= 0
  {
    match a
    case DoAppend(data) => Done(AppendTo(cfg, h, data))
    case DoSchedule(quiet) =>
      (match ScheduleFrom(cfg, h, quiet)
       case Raised(f) => Raised(f)
       case Done((h', _)) => Done(h'))
    case DoPop(id) => PopFrom(h, id)
  }

  function InitQueue(): PQ {
    PQ([], 0, 0, 0, false, {}, None)
  }

  /** A run ends at the first error. */
  ghost function Run(cfg: Config, actions: seq<Action>): Outcome<History>
    decreases |actions|
  {
    if actions == [] then Done(History(InitQueue(), [], [], 0))
    else
      match Run(cfg, actions[..|actions| - 1])
      case Raised(f) => Raised(f)
      case Done(h) => if h.q.index >= 0 then Step(cfg, h, actions[|actions| - 1]) else Raised(IndexBelowZero)
  }

  lemma {:induction false} RunKeeps(cfg: Config, actions: seq<Action>)
    requires Run(cfg, actions).Done?
    ensures QueueInv(Run(cfg, actions).value) && CutInv(cfg, Run(cfg, actions).value.q)
    decreases |actions|
  {
    hide QueueInv, CutInv, AppendTo, ScheduleFrom, PopFrom;
    if actions == [] {
      InitKeeps(cfg);
    } else {
      var front, a := actions[..|actions| - 1], actions[|actions| - 1];
      RunKeeps(cfg, front);
      var h := Run(cfg, front).value;
      match a
      case DoAppend(data) => AppendKeeps(cfg, h, data);
      case DoSchedule(quiet) => ScheduleKeeps(cfg, h, quiet);
      case DoPop(id) => PopKeeps(cfg, h, id);
    }
  }

  lemma InitKeeps(cfg: Config)
    ensures QueueInv(History(InitQueue(), [], [], 0)) && CutInv(cfg, InitQueue())
  {
  }

  /** Under both policies, for every interleaving of appends, schedules at any time and
      pops: a buffer once handed out is still in the queue exactly as it was, and the
      messages of the handed-out buffers, in order, are a prefix of the accepted ones
      with ids 0, 1, 2, ... */
  lemma ScheduledIsAPrefix(cfg: Config, actions: seq<Action>, h: History)
    requires Run(cfg, actions) == Done(h)
    ensures 0 <= h.popped <= |h.scheduled| && 0 <= h.q.index <= |h.q.queue|
    ensures h.q.queue[..h.q.index] == h.scheduled[h.popped..]
    ensures AllMsgs(h.scheduled) <= Numbered(h.appended)
  {
    hide Numbered, AllMsgs, Run;
    RunKeeps(cfg, actions);
    PopKeepsMsgs(h, h.q.index);
    assert h.scheduled[..h.popped + h.q.index] == h.scheduled;
  }

  // ------------------------------------------------------------------ buffer sizes

  function MaxSize(cfg: Config): int {
    if cfg.bufferSize < 0 then 0 else cfg.bufferSize + |Encode(cfg.bufferSize)| - 1
  }

  ghost predicate SizeInv(cfg: Config, queue: seq<Pack>) {
    forall i | 0 <= i < |queue| :: Size(cfg, queue[i]) <= MaxSize(cfg)
  }

  lemma AppendKeepsSize(cfg: Config, q: PQ, data: ByteString)
    requires SizeInv(cfg, q.queue)
    ensures SizeInv(cfg, Append(cfg, q, data).0.queue)
  {
    hide PackBytes, Encode, MsgBytes;
    var m := Msg(q.msgSeq, data);
    if !NeedsNewBuffer(cfg, q, m) && !q.cut {
      var last := q.queue[|q.queue| - 1];
      AppendLengthBound(cfg.channelId, last, m, cfg.bufferSize);
    } else if cfg.bufferSize >= 0 {
      assert |Encode(cfg.bufferSize)| >= 1;
    }
  }

  /** In every run no buffer outgrows the nominal size by more than the growth of its
      payload-size field. */
  lemma {:induction false} BuffersStaySmall(cfg: Config, actions: seq<Action>)
    requires Run(cfg, actions).Done?
    ensures SizeInv(cfg, Run(cfg, actions).value.q.queue)
    decreases |actions|
  {
    hide Size, MaxSize, Append;
    if actions != [] {
      var front, a := actions[..|actions| - 1], actions[|actions| - 1];
      BuffersStaySmall(cfg, front);
      RunKeeps(cfg, front);
      var h := Run(cfg, front).value;
      match a
      case DoAppend(data) => AppendKeepsSize(cfg, h.q, data);
      case DoSchedule(quiet) => ScheduleKeeps(cfg, h, quiet);
      case DoPop(id) => PopPrefix(h.q.(pops := h.q.pops + {id}), h.popped);
    }
  }

  // ------------------------------------------------------------------ when what happens

  /** A message goes into the last buffer exactly if that is open, under the policy that
      fills buffers, and has room for it; otherwise it starts a buffer, if there is memory for
      one and it fits. */
  lemma AppendIs(cfg: Config, q: PQ, data: ByteString)
    ensures var (q', r), m, n := Append(cfg, q, data), Msg(q.msgSeq, data), |q.queue| - 1;
            var joins := cfg.policy.PartialFlush? && n >= 0 && !q.cut
                         && |PackBytes(cfg.channelId, q.queue[n])| + |MsgBytes(m)| <= cfg.bufferSize;
            var free := if q.memory.Some? then q.memory.value else cfg.capacity;
            var fits := |PackBytes(cfg.channelId, Pack(q.bufSeq, [m]))| <= cfg.bufferSize;
            && (joins ==> q' == q.(queue := q.queue[n := Pack(q.queue[n].id, q.queue[n].msgs + [m])],
                                   msgSeq := q.msgSeq + 1))
            && (r.Accepted? <==> joins || (free >= 1 && fits))
            && (r.Accepted? ==> r == Accepted(q.msgSeq, q.bufSeq))
            && (r.Backpressure? <==> !joins && free < 1) && (r.Backpressure? ==> q' == q)
            && (r.MessageTooBig? ==> q' == q.(memory := Some(free - 1)))
            && (!joins && r.Accepted? ==>
                  q' == q.(queue := q.queue + [Pack(q.bufSeq, [m])], msgSeq := q.msgSeq + 1, bufSeq := q.bufSeq + 1,
                           cut := false, memory := Some(free - 1)))
  {
    hide PackBytes, MsgBytes;
  }

  /** A buffer is handed out exactly if one is left, and it is not the only one that may
      still grow, that is unless it is the last one, the policy fills buffers and it is not
      quiet. Handing out the last one closes it under that policy. */
  lemma ScheduleIff(cfg: Config, q: PQ, quiet: bool)
    requires q.index >= 0
    ensures Schedule(cfg, q, quiet).Raised? <==> q.index > |q.queue|
    ensures Schedule(cfg, q, quiet).Done? ==>
              var (q', p) := Schedule(cfg, q, quiet).value;
              && (p.Some? <==> q.index < |q.queue|
                               && (q.index + 1 < |q.queue| || cfg.policy.PerMessage? || quiet))
              && (p.None? ==> q' == q)
              && (p.Some? ==>
                    && p.value == q.queue[q.index]
                    && q' == q.(index := q.index + 1,
                                cut := q.cut || (cfg.policy.PartialFlush? && q.index + 1 == |q.queue|)))
  {
  }

  /** What a number of schedules in quiet times hand out. */
  ghost function QuietSchedules(cfg: Config, h: History, n: nat): Outcome<History>
    requires h.q.index >= 0
    decreases n
  {
    if n == 0 then Done(h)
    else
      match ScheduleFrom(cfg, h, true)
      case Raised(f) => Raised(f)
      case Done((h', _)) => if h'.q.index >= 0 then QuietSchedules(cfg, h', n - 1) else Raised(IndexBelowZero)
  }

  lemma ScheduleAdvances(cfg: Config, h: History)
    requires QueueInv(h) && h.q.index < |h.q.queue|
    ensures ScheduleFrom(cfg, h, true).Done?
    ensures var h' := ScheduleFrom(cfg, h, true).value.0;
            h'.q.index == h.q.index + 1 && h'.q.queue == h.q.queue && h'.appended == h.appended
  {
    ScheduleIff(cfg, h.q, true);
  }

  /** Once it is quiet, as many schedules as there are buffers left hand out every message
      that was appended. */
  lemma {:induction false} EverythingIsHandedOut(cfg: Config, h: History, n: nat)
    requires QueueInv(h) && CutInv(cfg, h.q) && n == |h.q.queue| - h.q.index
    ensures QuietSchedules(cfg, h, n).Done?
    ensures AllMsgs(QuietSchedules(cfg, h, n).value.scheduled) == Numbered(h.appended)
    decreases n
  {
    if n == 0 {
      hide Numbered;
      PopKeepsMsgs(h, h.q.index);
      assert h.scheduled[..h.popped + h.q.index] == h.scheduled;
      assert h.q.queue[h.q.index..] == [] && AllMsgs([]) == [];
    } else {
      ScheduleKeeps(cfg, h, true);
      ScheduleAdvances(cfg, h);
      hide QueueInv, CutInv, ScheduleFrom, AllMsgs, Numbered;
      EverythingIsHandedOut(cfg, ScheduleFrom(cfg, h, true).value.0, n - 1);
    }
  }

  /** A pop fails exactly if the queue is empty, or the requested prefix reaches beyond the
      buffers handed out, or no memory was ever acquired. */
  lemma {:induction false} PopRaisesIff(q: PQ, base: int)
    requires ConsecutiveIds(q.queue, base) && q.index >= 0
    ensures PopRequested(q).Raised? <==>
              && (q.memory.Some? ==> q.index < |q.queue| && forall i | 0 <= i <= q.index :: q.queue[i].id in q.pops)
              && (q.memory.None? ==> q.queue != [] && q.queue[0].id in q.pops)
    decreases |q.queue|
  {
    if q.queue != [] && q.queue[0].id in q.pops && q.index >= 1 && q.memory.Some? {
      var q' := q.(queue := q.queue[1..], index := q.index - 1, pops := q.pops - {q.queue[0].id},
                   memory := Some(q.memory.value + 1));
      forall i | 0 <= i < |q'.queue|
        ensures q'.queue[i].id == base + 1 + i && (q'.queue[i].id in q'.pops <==> q.queue[i + 1].id in q.pops)
      {
        assert q'.queue[i] == q.queue[i + 1];
      }
      PopRaisesIff(q', base + 1);
      if forall i | 0 <= i <= q'.index && i < |q'.queue| :: q'.queue[i].id in q'.pops {
        forall i | 0 <= i <= q.index && i < |q.queue|
          ensures q.queue[i].id in q.pops
        {
          if i > 0 {
            assert q'.queue[i - 1].id in q'.pops;
          }
        }
      }
    }
  }
}
