/** The transfer protocol as a step relation: any number of channels, each with a
    writer queue, a network that may lose, duplicate and reorder buffers and acks, and a
    reader; the readers of all channels feed one bounded output queue.  A run is any
    sequence of actions; an action that is not possible in a state leaves it unchanged,
    which is also what the code does (a push on a full queue is refused, nothing is
    scheduled from an exhausted queue, nothing is received into a full output queue). */
module Protocol {
  import opened Wrappers
  import opened SendQueue
  import opened Dispatcher

  /** `accepted`, `scheduled`, `popped`, `delivered` and `arrived`, the ids whose acks have
      come to the writer, record history. */
  datatype Channel<+P(==)> = Channel(
    queue: Queue<P>,
    data: multiset<Buffer<P>>,
    acks: multiset<nat>,
    reader: Reader<P>,
    accepted: seq<P>,
    scheduled: nat,
    popped: int,
    delivered: seq<P>,
    arrived: set<nat>)

  /** `tape` records everything ever put on the output queue, tagged with its channel,
      and `numRead` how much of it has been read. */
  datatype System<+P(==)> = System(
    chans: seq<Channel<P>>,
    out: seq<(nat, P)>,
    outCap: nat,
    tape: seq<(nat, P)>,
    numRead: nat)

  datatype Action<+P> =
    | Push(c: nat, payload: P)
    | Schedule(c: nat)
    | LoseData(c: nat, b: Buffer<P>)
    | DuplicateData(c: nat, b: Buffer<P>)
    | Receive(c: nat, b: Buffer<P>)
    | LoseAck(c: nat, id: nat)
    | DuplicateAck(c: nat, id: nat)
    | AckArrives(c: nat, id: nat)
    | Read

  /** `Panic` is the underflow of the writer's schedule index, or the overflow of the
      reader's next watermark. */
  datatype Outcome<+P(==)> = Running(s: System<P>) | Panic

  function InitChannel<P(==)>(capacity: nat): Channel<P> {
    Channel(Queue([], 0, 0, {}, capacity), multiset{}, multiset{}, Reader(-1, map[]), [], 0, 0, [], {})
  }

  function Init<P(==)>(n: nat, capacity: nat, outCap: nat): System<P> {
    System(seq(n, _ => InitChannel(capacity)), [], outCap, [], 0)
  }

  ghost function PushOn<P>(ch: Channel<P>, payload: P): Channel<P> {
    var (q, accepted) := Pushed(ch.queue, payload);
    if accepted then ch.(queue := q, accepted := ch.accepted + [payload]) else ch
  }

  ghost function ScheduleOn<P>(ch: Channel<P>): Channel<P> {
    match Scheduled(ch.queue)
    case (q, None) => ch
    case (q, Some(b)) => ch.(queue := q, scheduled := ch.scheduled + 1, data := ch.data + multiset{b})
  }

  ghost function ReceiveOn<P>(ch: Channel<P>, b: Buffer<P>, room: nat): (Channel<P>, seq<P>) {
    var d := Dispatch(ch.reader, b, room);
    (ch.(data := ch.data - multiset{b},
         reader := d.reader,
         acks := ch.acks + multiset(d.acks),
         delivered := ch.delivered + d.out), d.out)
  }

  ghost function AckOn<P>(ch: Channel<P>, id: nat): Option<Channel<P>> {
    match PopRequested(ch.queue, id)
    case None => None
    case Some(q) =>
      Some(ch.(queue := q, acks := ch.acks - multiset{id}, popped := ch.popped + |ch.queue.v| - |q.v|,
               arrived := ch.arrived + {id}))
  }

  function Tagged<P>(c: nat, ps: seq<P>): seq<(nat, P)> {
    seq(|ps|, i requires 0 <= i < |ps| => (c, ps[i]))
  }

  /** The payloads of channel `c` on a tagged sequence. */
  function Of<P>(t: seq<(nat, P)>, c: nat): (r: seq<P>)
    ensures |r| <= |t|
  {
    if t == [] then []
    else Of(t[..|t| - 1], c) + if t[|t| - 1].0 == c then [t[|t| - 1].1] else []
  }

  /** The actions that concern one channel only. */
  ghost function ChannelStep<P>(ch: Channel<P>, a: Action<P>): Option<Channel<P>>
    requires !a.Read? && !a.Receive?
  {
    match a
    case Push(_, payload) => Some(PushOn(ch, payload))
    case Schedule(_) => Some(ScheduleOn(ch))
    case LoseData(_, b) => Some(ch.(data := ch.data - multiset{b}))
    case DuplicateData(_, b) => Some(if b in ch.data then ch.(data := ch.data + multiset{b}) else ch)
    case LoseAck(_, id) => Some(ch.(acks := ch.acks - multiset{id}))
    case DuplicateAck(_, id) => Some(if id in ch.acks then ch.(acks := ch.acks + multiset{id}) else ch)
    case AckArrives(_, id) => if id in ch.acks then AckOn(ch, id) else Some(ch)
  }

  ghost function ReadFrom<P>(s: System<P>): System<P> {
    if s.out == [] then s else s.(out := s.out[1..], numRead := s.numRead + 1)
  }

  ghost function Emit<P>(s: System<P>, c: nat, ch: Channel<P>, out: seq<P>): System<P>
    requires c < |s.chans|
  {
    s.(chans := s.chans[c := ch], out := s.out + Tagged(c, out), tape := s.tape + Tagged(c, out))
  }

  ghost function ReceiveInto<P>(s: System<P>, c: nat, b: Buffer<P>): System<P>
    requires c < |s.chans|
  {
    var ch := s.chans[c];
    if b !in ch.data || |s.out| >= s.outCap then s
    else
      var r := ReceiveOn(ch, b, s.outCap - |s.out|);
      Emit(s, c, r.0, r.1)
  }

  ghost predicate ReceiveOverflows<P>(s: System<P>, c: nat, b: Buffer<P>)
    requires c < |s.chans|
  {
    b in s.chans[c].data && |s.out| < s.outCap && Overflows(s.chans[c].reader, b, s.outCap - |s.out|)
  }

  ghost function Apply<P>(s: System<P>, a: Action<P>): Outcome<P> {
    if a.Read? then Running(ReadFrom(s))
    else if a.c >= |s.chans| then Running(s)
    else if a.Receive? then
      if ReceiveOverflows(s, a.c, a.b) then Panic else Running(ReceiveInto(s, a.c, a.b))
    else
      match ChannelStep(s.chans[a.c], a)
      case None => Panic
      case Some(ch) => Running(s.(chans := s.chans[a.c := ch]))
  }

  ghost function Run<P>(s: System<P>, actions: seq<Action<P>>): Outcome<P>
    decreases |actions|
  {
    if actions == [] then Running(s)
    else
      match Run(s, actions[..|actions| - 1])
      case Panic => Panic
      case Running(s') => Apply(s', actions[|actions| - 1])
  }

  /** How often the run offers a buffer to channel `c`. */
  ghost function Pushes<P>(actions: seq<Action<P>>, c: nat): nat {
    if actions == [] then 0
    else
      var a := actions[|actions| - 1];
      Pushes(actions[..|actions| - 1], c) + if a.Push? && a.c == c then 1 else 0
  }

  // ------------------------------------------------------------------ invariant

  /** Delivered already, or held until the buffers before it arrive. */
  ghost predicate Kept<P>(ch: Channel<P>, id: nat) {
    id < |ch.delivered| || id in ch.reader.held
  }

  ghost predicate WriterInv<P>(ch: Channel<P>) {
    var q := ch.queue;
    && 0 <= ch.popped <= ch.scheduled <= |ch.accepted|
    && q.nextId == |ch.accepted| == ch.popped + |q.v|
    && q.index == ch.scheduled - ch.popped
    && |q.v| <= q.capacity
    && (forall i | 0 <= i < |q.v| :: q.v[i] == Buffer(ch.popped + i, ch.accepted[ch.popped + i]))
  }

  ghost predicate IsCopy<P>(ch: Channel<P>, b: Buffer<P>) {
    b.id < ch.scheduled <= |ch.accepted| && b.payload == ch.accepted[b.id]
  }

  ghost predicate ReaderInv<P>(ch: Channel<P>) {
    var held := ch.reader.held;
    && ch.reader.watermark == |ch.delivered| - 1
    && |ch.delivered| <= ch.scheduled <= |ch.accepted|
    && ch.delivered == ch.accepted[..|ch.delivered|]
    && (forall k | k in held :: |ch.delivered| <= k == held[k].id && IsCopy(ch, held[k]))
    && (held.Keys == {} || |held| < ch.queue.capacity)
  }

  ghost predicate AckInv<P>(ch: Channel<P>) {
    && (forall id | id in ch.acks :: Kept(ch, id))
    && (forall id | id in ch.queue.pops :: Kept(ch, id))
    && (forall id: nat | id < ch.popped :: Kept(ch, id))
  }

  /** What has been popped is the longest prefix whose acks have come; acks beyond it wait. */
  ghost predicate ArrivedInv<P>(ch: Channel<P>) {
    && (forall id: nat | id < ch.popped :: id in ch.arrived)
    && (forall id | id in ch.arrived :: id != ch.popped)
    && (forall id | id in ch.arrived :: id < ch.popped || id in ch.queue.pops)
    && (forall id | id in ch.queue.pops :: id in ch.arrived)
  }

  ghost predicate ChannelInv<P>(ch: Channel<P>) {
    && WriterInv(ch) && ArrivedInv(ch)
    && ReaderInv(ch)
    && (forall b | b in ch.data :: IsCopy(ch, b))
    && AckInv(ch)
  }

  ghost predicate TapeInv<P>(s: System<P>) {
    && |s.out| <= s.outCap
    && s.numRead <= |s.tape| && s.out == s.tape[s.numRead..]
    && (forall c | 0 <= c < |s.chans| :: Of(s.tape, c) == s.chans[c].delivered)
  }

  // ------------------------------------------------------------------ counting

  lemma {:induction false} WindowCard(s: set<int>, lo: int, hi: int)
    requires lo <= hi
    requires forall k | k in s :: lo <= k < hi
    ensures |s| <= hi - lo
    decreases hi - lo
  {
    if lo == hi {
      assert forall k :: k !in s;
    } else {
      WindowCard(s - {hi - 1}, lo, hi - 1);
    }
  }

  lemma {:induction false} RangeCard(s: set<int>, lo: int, hi: int)
    requires lo <= hi
    requires forall k | lo <= k < hi :: k in s
    ensures hi - lo <= |s|
    decreases hi - lo
  {
    if lo < hi {
      RangeCard(s - {hi - 1}, lo, hi - 1);
    }
  }

  lemma MapShrinks<V>(m: map<int, V>, m': map<int, V>, k: int)
    requires k in m && m'.Keys <= m.Keys - {k}
    ensures |m'| <= |m| - 1
  {
    var rest := m.Keys - {k};
    CardMonotone(m'.Keys, rest);
    assert |rest| == |m.Keys| - 1;
    assert |m| == |m.Keys| && |m'| == |m'.Keys|;
  }

  lemma CardMonotone(a: set<int>, b: set<int>)
    requires a <= b
    ensures |a| <= |b|
  {
    assert a + (b - a) == b;
  }

  // ------------------------------------------------------------------ the channel steps

  lemma PushKeeps<P>(ch: Channel<P>, payload: P)
    requires ChannelInv(ch)
    ensures ChannelInv(PushOn(ch, payload)) && PushOn(ch, payload).delivered == ch.delivered
  {
    var ch' := PushOn(ch, payload);
    assert forall id: nat :: Kept(ch', id) == Kept(ch, id);
    assert forall b :: IsCopy(ch, b) ==> IsCopy(ch', b);
  }

  lemma ScheduleKeeps<P>(ch: Channel<P>)
    requires ChannelInv(ch)
    ensures ChannelInv(ScheduleOn(ch)) && ScheduleOn(ch).delivered == ch.delivered
  {
    var ch' := ScheduleOn(ch);
    assert forall id: nat :: Kept(ch', id) == Kept(ch, id);
    assert forall b :: IsCopy(ch, b) ==> IsCopy(ch', b);
  }

  lemma AckPops<P>(ch: Channel<P>, id: nat)
    requires ChannelInv(ch) && id in ch.acks
    ensures PopRequested(ch.queue, id).Some?
    ensures var q := PopRequested(ch.queue, id).value;
            var n := |ch.queue.v| - |q.v|;
            && 0 <= n <= ch.queue.index
            && q == ch.queue.(v := ch.queue.v[n..], index := ch.queue.index - n, pops := q.pops)
            && (forall k :: k in q.pops <==>
                  (k in ch.queue.pops || k == id) && forall i | 0 <= i < n :: ch.queue.v[i].id != k)
            && (forall i | 0 <= i < n :: ch.queue.v[i].id in ch.queue.pops + {id})
            && (q.v == [] || q.v[0].id !in ch.queue.pops + {id})
  {
    var q := ch.queue.(pops := ch.queue.pops + {id});
    assert forall k | k in q.pops :: Kept(ch, k);
    forall i | q.index <= i < |q.v|
      ensures q.v[i].id !in q.pops
    {
      assert q.v[i].id >= ch.scheduled && !Kept(ch, q.v[i].id);
    }
    PopAckedSafe(q);
    PopAckedPrefix(q);
  }

  lemma KeptWasScheduled<P>(ch: Channel<P>, id: nat)
    requires ReaderInv(ch) && Kept(ch, id)
    ensures id < ch.scheduled <= |ch.accepted|
  {
  }

  lemma AckKeepsWriter<P>(ch: Channel<P>, id: nat)
    requires ChannelInv(ch) && id in ch.acks
    ensures AckOn(ch, id).Some? && WriterInv(AckOn(ch, id).value)
  {
    AckPops(ch, id);
    hide PopRequested, ReaderInv, AckInv, ArrivedInv;
  }

  /** What an ack does, in terms of ids. */
  lemma AckByIds<P>(ch: Channel<P>, id: nat)
    requires ChannelInv(ch) && id in ch.acks
    ensures AckOn(ch, id).Some?
    ensures var ch' := AckOn(ch, id).value;
            && ch.popped <= ch'.popped <= |ch.accepted| && ch'.arrived == ch.arrived + {id}
            && (forall k: nat | ch.popped <= k < ch'.popped :: k in ch.queue.pops || k == id)
            && (forall k :: k in ch'.queue.pops <==>
                  (k in ch.queue.pops || k == id) && !(ch.popped <= k < ch'.popped))
            && (forall k | k in ch.queue.pops || k == id :: k == ch'.popped ==> k >= |ch.accepted|)
  {
    AckPops(ch, id);
    hide PopRequested, ReaderInv, AckInv, IsCopy, ArrivedInv;
    var ch' := AckOn(ch, id).value;
    var n, v := |ch.queue.v| - |ch'.queue.v|, ch.queue.v;
    assert forall i | 0 <= i < |v| :: v[i].id == ch.popped + i;
    forall k: nat | ch.popped <= k < ch'.popped
      ensures k in ch.queue.pops || k == id
    {
      assert v[k - ch.popped].id in ch.queue.pops + {id};
    }
    PopsByIds(ch, id);
    if ch'.queue.v != [] {
      assert ch'.queue.v[0].id == ch'.popped;
    }
  }

  lemma PopsByIds<P>(ch: Channel<P>, id: nat)
    requires ChannelInv(ch) && id in ch.acks
    ensures AckOn(ch, id).Some?
    ensures var ch' := AckOn(ch, id).value;
            forall k :: k in ch'.queue.pops <==>
              (k in ch.queue.pops || k == id) && !(ch.popped <= k < ch'.popped)
  {
    AckPops(ch, id);
    hide PopRequested, ReaderInv, AckInv, IsCopy, ArrivedInv;
    var ch' := AckOn(ch, id).value;
    var n, v := |ch.queue.v| - |ch'.queue.v|, ch.queue.v;
    assert forall i | 0 <= i < |v| :: v[i].id == ch.popped + i;
    hide WriterInv;
    forall k
      ensures k in ch'.queue.pops <==> (k in ch.queue.pops || k == id) && !(ch.popped <= k < ch'.popped)
    {
      IdsOfPrefix(v, ch.popped, n, k);
    }
  }

  lemma IdsOfPrefix<P>(v: seq<Buffer<P>>, base: int, n: nat, k: int)
    requires n <= |v| && forall i | 0 <= i < |v| :: v[i].id == base + i
    ensures (forall i | 0 <= i < n :: v[i].id != k) <==> !(base <= k < base + n)
  {
    if base <= k < base + n {
      assert v[k - base].id == k;
    }
  }

  /** What an ack pops was acknowledged, and what it does not pop stays requested. */
  lemma AckKeepsArrived<P>(ch: Channel<P>, id: nat)
    requires ChannelInv(ch) && id in ch.acks
    ensures AckOn(ch, id).Some? && ArrivedInv(AckOn(ch, id).value)
  {
    AckByIds(ch, id);
    ArrivedIsBelow(ch, id);
    hide WriterInv, ReaderInv, AckInv, IsCopy, AckOn;
  }

  lemma ArrivedIsBelow<P>(ch: Channel<P>, id: nat)
    requires ChannelInv(ch) && id in ch.acks
    ensures forall k | k in ch.arrived || k == id :: k < |ch.accepted|
  {
    hide WriterInv, IsCopy;
    forall k | k in ch.arrived || k == id
      ensures k < |ch.accepted|
    {
      assert Kept(ch, k);
      KeptWasScheduled(ch, k);
    }
  }

  lemma AckKeeps<P>(ch: Channel<P>, id: nat)
    requires ChannelInv(ch) && id in ch.acks
    ensures AckOn(ch, id).Some? && ChannelInv(AckOn(ch, id).value)
    ensures AckOn(ch, id).value.delivered == ch.delivered
  {
    AckPops(ch, id);
    AckKeepsWriter(ch, id);
    AckKeepsArrived(ch, id);
    var ch' := AckOn(ch, id).value;
    hide WriterInv, PopRequested;
    assert forall k: nat :: Kept(ch', k) == Kept(ch, k);
    assert forall b :: IsCopy(ch', b) == IsCopy(ch, b);
    assert AckInv(ch');
  }

  /** Without an ack for the next id to deliver, the writer's window ends at most
      `capacity` ids later. */
  lemma WindowBound<P>(ch: Channel<P>)
    requires WriterInv(ch) && AckInv(ch)
    requires !Kept(ch, |ch.delivered|)
    ensures ch.popped <= |ch.delivered|
    ensures ch.scheduled <= |ch.delivered| + ch.queue.capacity
  {
  }

  ghost function Inserted<P>(ch: Channel<P>, b: Buffer<P>): map<int, Buffer<P>> {
    ch.reader.held[b.id as int := b]
  }

  ghost function Taken<P>(ch: Channel<P>, b: Buffer<P>, room: nat): seq<Buffer<P>> {
    Drain(Inserted(ch, b), |ch.delivered|, room)
  }

  /** What is drained is the next stretch of accepted buffers. */
  lemma TakenAreNext<P>(ch: Channel<P>, b: Buffer<P>, room: nat)
    requires ReaderInv(ch) && IsCopy(ch, b) && !Kept(ch, b.id)
    ensures var t := Taken(ch, b, room);
            var D := |ch.delivered|;
            && D + |t| <= ch.scheduled
            && (forall i | 0 <= i < |t| :: t[i] == Buffer(D + i, ch.accepted[D + i]))
            && (forall k | D <= k < D + |t| :: k in Inserted(ch, b))
            && (|t| == room || D + |t| !in Inserted(ch, b))
  {
    var held, t, D := Inserted(ch, b), Taken(ch, b, room), |ch.delivered|;
    DrainIsLongestRun(held, D, room);
    forall i | 0 <= i < |t|
      ensures D + i < ch.scheduled && t[i] == Buffer(D + i, ch.accepted[D + i])
    {
      assert held[D + i] == t[i];
    }
    if |t| > 0 {
      assert t[|t| - 1].id == D + |t| - 1;
    }
  }

  /** The channel after a buffer that was not kept before has been received. */
  ghost function AfterNew<P>(ch: Channel<P>, b: Buffer<P>, room: nat): Channel<P> {
    var t := Taken(ch, b, room);
    var D := |ch.delivered|;
    ch.(data := ch.data - multiset{b},
        reader := Reader(D - 1 + |t|, Without(Inserted(ch, b), D, D + |t|)),
        acks := ch.acks + multiset(Ids(t)),
        delivered := ch.delivered + Payloads(t))
  }

  lemma ReceiveNewIs<P>(ch: Channel<P>, b: Buffer<P>, room: nat)
    requires ReaderInv(ch) && b.id < ID_LIMIT && !Kept(ch, b.id)
    ensures ReceiveOn(ch, b, room) == (AfterNew(ch, b, room), Payloads(Taken(ch, b, room)))
  {
    DispatchNew(ch.reader, b, room);
  }

  lemma NewKept<P>(ch: Channel<P>, b: Buffer<P>, room: nat, id: nat)
    requires ReaderInv(ch) && IsCopy(ch, b) && !Kept(ch, b.id)
    ensures Kept(AfterNew(ch, b, room), id) <==> Kept(ch, id) || id == b.id
  {
    TakenAreNext(ch, b, room);
    var ch', t, D := AfterNew(ch, b, room), Taken(ch, b, room), |ch.delivered|;
    assert |ch'.delivered| == D + |t|;
    assert id in ch'.reader.held <==> id in Inserted(ch, b) && !(D <= id < D + |t|);
    assert id in Inserted(ch, b) <==> id in ch.reader.held || id == b.id;
  }

  lemma NewReaderInv<P>(ch: Channel<P>, b: Buffer<P>, room: nat)
    requires ChannelInv(ch) && b in ch.data && room > 0 && !Kept(ch, b.id)
    ensures ReaderInv(AfterNew(ch, b, room))
  {
    TakenAreNext(ch, b, room);
    var ch', t, D := AfterNew(ch, b, room), Taken(ch, b, room), |ch.delivered|;
    assert ch'.delivered == ch.accepted[..D + |t|];
    var rest := ch'.reader.held;
    forall k | k in rest
      ensures D + |t| <= k == rest[k].id && IsCopy(ch', rest[k])
    {
      assert k in Inserted(ch, b) && rest[k] == Inserted(ch, b)[k];
    }
    HeldBound(ch, b, Inserted(ch, b), rest, |t|);
  }

  /** The out-of-order map stays below the writer's capacity: if the next buffer is now
      held, at least one buffer is drained for the one that came in; if it is not, the
      writer's window bounds the map. */
  lemma HeldBound<P>(ch: Channel<P>, b: Buffer<P>, held: map<int, Buffer<P>>, rest: map<int, Buffer<P>>, n: nat)
    requires ChannelInv(ch) && IsCopy(ch, b) && !Kept(ch, b.id)
    requires held == ch.reader.held[b.id as int := b]
    requires n == 0 ==> |ch.delivered| !in held
    requires forall k | |ch.delivered| <= k < |ch.delivered| + n :: k in held
    requires rest == Without(held, |ch.delivered|, |ch.delivered| + n)
    ensures rest.Keys == {} || |rest| < ch.queue.capacity
  {
    hide AckInv, WriterInv;
    var D := |ch.delivered|;
    if n > 0 {
      MapShrinks(held, rest, D);
      assert |held| == |ch.reader.held| + 1 by {
        assert held.Keys == ch.reader.held.Keys + {b.id as int};
      }
      assert rest.Keys == {} || |rest| > 0;
      if |ch.reader.held| == 0 {
        assert |rest.Keys| == 0;
      }
    } else {
      assert !Kept(ch, D);
      WindowBound(ch);
      assert rest.Keys == held.Keys;
      WindowCard(held.Keys, D + 1, ch.scheduled);
    }
  }

  lemma NewKeeps<P>(ch: Channel<P>, b: Buffer<P>, room: nat)
    requires ChannelInv(ch) && b in ch.data && room > 0 && !Kept(ch, b.id)
    ensures ChannelInv(AfterNew(ch, b, room))
  {
    var ch', t := AfterNew(ch, b, room), Taken(ch, b, room);
    NewReaderInv(ch, b, room);
    assert forall x :: IsCopy(ch, x) == IsCopy(ch', x);
    forall id: nat
      ensures Kept(ch, id) ==> Kept(ch', id)
    {
      NewKept(ch, b, room, id);
    }
    TakenAreNext(ch, b, room);
    forall id | id in ch'.acks
      ensures Kept(ch', id)
    {
      if id !in ch.acks {
        assert id in Ids(t);
        var i :| 0 <= i < |t| && t[i].id == id;
      }
    }
    assert AckInv(ch');
  }

  lemma OldKeeps<P>(ch: Channel<P>, b: Buffer<P>, room: nat)
    requires ChannelInv(ch) && b in ch.data && b.id < ID_LIMIT && Kept(ch, b.id)
    ensures ReceiveOn(ch, b, room)
            == (ch.(data := ch.data - multiset{b}, acks := ch.acks + multiset{b.id}), [])
    ensures ChannelInv(ReceiveOn(ch, b, room).0)
  {
    DispatchOld(ch.reader, b, room);
    assert ch.delivered + [] == ch.delivered;
    var ch' := ch.(data := ch.data - multiset{b}, acks := ch.acks + multiset{b.id});
    assert multiset([b.id]) == multiset{b.id};
    LossKeeps(ch.(acks := ch.acks + multiset{b.id}), ch') by {
      var ch1 := ch.(acks := ch.acks + multiset{b.id});
      assert forall k: nat :: Kept(ch1, k) == Kept(ch, k);
      assert forall x :: IsCopy(ch1, x) == IsCopy(ch, x);
    }
  }

  /** What is delivered was accepted, so the watermark stays in its type. */
  lemma NoOverflow<P>(ch: Channel<P>, b: Buffer<P>, room: nat)
    requires ReaderInv(ch) && IsCopy(ch, b) && |ch.accepted| < ID_LIMIT
    ensures !Overflows(ch.reader, b, room)
  {
    assert AsI32(b.id) == b.id;
    if !Kept(ch, b.id) {
      TakenAreNext(ch, b, room);
    }
  }

  lemma ReceiveKeeps<P>(ch: Channel<P>, b: Buffer<P>, room: nat)
    requires ChannelInv(ch) && b in ch.data && room > 0 && b.id < ID_LIMIT
    ensures ChannelInv(ReceiveOn(ch, b, room).0)
  {
    assert IsCopy(ch, b);
    if Kept(ch, b.id) {
      OldKeeps(ch, b, room);
    } else {
      ReceiveNewIs(ch, b, room);
      NewKeeps(ch, b, room);
    }
  }

  // ------------------------------------------------------------------ the system steps

  lemma {:induction false} OfConcat<P>(s: seq<(nat, P)>, t: seq<(nat, P)>, c: nat)
    ensures Of(s + t, c) == Of(s, c) + Of(t, c)
    decreases |t|
  {
    if t == [] {
      assert s + t == s;
    } else {
      var n := |t| - 1;
      assert (s + t)[..|s + t| - 1] == s + t[..n];
      OfConcat(s, t[..n], c);
    }
  }

  lemma {:induction false} OfTagged<P>(ps: seq<P>, c: nat, o: nat)
    ensures Of(Tagged(c, ps), o) == if o == c then ps else []
    decreases |ps|
  {
    if ps != [] {
      var n := |ps| - 1;
      assert Tagged(c, ps)[..n] == Tagged(c, ps[..n]);
      OfTagged(ps[..n], c, o);
    }
  }

  lemma EmitKeepsTape<P>(s: System<P>, c: nat, ch: Channel<P>, out: seq<P>)
    requires TapeInv(s) && c < |s.chans|
    requires |out| <= s.outCap - |s.out| && ch.delivered == s.chans[c].delivered + out
    ensures TapeInv(Emit(s, c, ch, out))
  {
    var s' := Emit(s, c, ch, out);
    assert s'.out == s'.tape[s'.numRead..];
    forall o | 0 <= o < |s'.chans|
      ensures Of(s'.tape, o) == s'.chans[o].delivered
    {
      OfConcat(s.tape, Tagged(c, out), o);
      OfTagged(out, c, o);
    }
  }

  lemma ReceiveKeepsTape<P>(s: System<P>, c: nat, b: Buffer<P>)
    requires TapeInv(s) && c < |s.chans|
    ensures TapeInv(ReceiveInto(s, c, b))
  {
    if b in s.chans[c].data && |s.out| < s.outCap {
      var r := ReceiveOn(s.chans[c], b, s.outCap - |s.out|);
      EmitKeepsTape(s, c, r.0, r.1);
    }
  }

  lemma ChannelStepKeeps<P>(ch: Channel<P>, a: Action<P>)
    requires ChannelInv(ch) && !a.Read? && !a.Receive?
    ensures ChannelStep(ch, a).Some?
    ensures ChannelInv(ChannelStep(ch, a).value)
    ensures ChannelStep(ch, a).value.delivered == ch.delivered
  {
    hide ChannelInv, AckOn, ScheduleOn, PushOn;
    match a
    case Push(_, payload) => PushKeeps(ch, payload);
    case Schedule(_) => ScheduleKeeps(ch);
    case AckArrives(_, id) => if id in ch.acks { AckKeeps(ch, id); }
    case LoseData(_, b) => LossKeeps(ch, ch.(data := ch.data - multiset{b}));
    case DuplicateData(_, b) => if b in ch.data { LossKeeps(ch, ch.(data := ch.data + multiset{b})); }
    case LoseAck(_, id) => LossKeeps(ch, ch.(acks := ch.acks - multiset{id}));
    case DuplicateAck(_, id) => if id in ch.acks { LossKeeps(ch, ch.(acks := ch.acks + multiset{id})); }
  }

  lemma CopyIsAccepted<P>(ch: Channel<P>, b: Buffer<P>)
    requires ChannelInv(ch) && b in ch.data
    ensures b.id < |ch.accepted|
  {
    assert IsCopy(ch, b);
  }

  /** Every action that does not panic keeps the invariant of a channel that has accepted at
      most 2^31 buffers, whatever the others have. */
  lemma StepKeeps<P>(s: System<P>, a: Action<P>, c: nat)
    requires c < |s.chans| && ChannelInv(s.chans[c]) && |s.chans[c].accepted| <= ID_LIMIT && Apply(s, a).Running?
    ensures |Apply(s, a).s.chans| == |s.chans| && ChannelInv(Apply(s, a).s.chans[c])
  {
    hide ChannelInv, ChannelStep, ReceiveOn, Overflows;
    if !a.Read? && a.c == c {
      if a.Receive? {
        if a.b in s.chans[c].data && |s.out| < s.outCap {
          CopyIsAccepted(s.chans[c], a.b);
          ReceiveKeeps(s.chans[c], a.b, s.outCap - |s.out|);
        }
      } else {
        ChannelStepKeeps(s.chans[c], a);
      }
    }
  }

  /** An action on a channel that has accepted fewer than 2^31 buffers does not panic. */
  lemma StepRuns<P>(s: System<P>, a: Action<P>)
    requires !a.Read? && a.c < |s.chans| ==> ChannelInv(s.chans[a.c]) && |s.chans[a.c].accepted| < ID_LIMIT
    ensures Apply(s, a).Running?
  {
    hide ChannelStep, ReceiveInto, Overflows, WriterInv, AckInv;
    if !a.Read? && a.c < |s.chans| {
      var ch := s.chans[a.c];
      if !a.Receive? {
        ChannelStepKeeps(ch, a);
      } else if a.b in ch.data {
        assert IsCopy(ch, a.b);
        NoOverflow(ch, a.b, if |s.out| < s.outCap then s.outCap - |s.out| else 0);
      }
    }
  }

  /** Every action that does not panic keeps the record of the output queue. */
  lemma StepKeepsTape<P>(s: System<P>, a: Action<P>)
    requires TapeInv(s) && Apply(s, a).Running?
    ensures TapeInv(Apply(s, a).s)
  {
    hide ReceiveInto, ReceiveOverflows, Of, ChannelStep;
    if !a.Read? && a.c < |s.chans| {
      if a.Receive? {
        ReceiveKeepsTape(s, a.c, a.b);
      } else {
        StepKeepsDelivered(s.chans[a.c], a);
      }
    }
  }

  lemma StepKeepsDelivered<P>(ch: Channel<P>, a: Action<P>)
    requires !a.Read? && !a.Receive? && ChannelStep(ch, a).Some?
    ensures ChannelStep(ch, a).value.delivered == ch.delivered
  {
    hide PopRequested;
  }

  /** The network may change how often it carries a message, but invents none. */
  lemma LossKeeps<P>(ch: Channel<P>, ch': Channel<P>)
    requires ChannelInv(ch)
    requires ch' == ch.(data := ch'.data, acks := ch'.acks)
    requires forall b | b in ch'.data :: b in ch.data
    requires forall id | id in ch'.acks :: id in ch.acks
    ensures ChannelInv(ch')
  {
    assert forall k: nat :: Kept(ch', k) == Kept(ch, k);
    assert forall b :: IsCopy(ch, b) == IsCopy(ch', b);
  }

  lemma StepAccepts<P>(s: System<P>, a: Action<P>, c: nat)
    requires Apply(s, a).Running? && c < |s.chans|
    ensures |Apply(s, a).s.chans| == |s.chans|
    ensures Apply(s, a).s.outCap == s.outCap
    ensures Apply(s, a).s.chans[c].queue.capacity == s.chans[c].queue.capacity
    ensures |s.chans[c].accepted| <= |Apply(s, a).s.chans[c].accepted|
            <= |s.chans[c].accepted| + if a.Push? && a.c == c then 1 else 0
  {
    if a.AckArrives? && a.c == c && a.id in s.chans[c].acks {
      PopKeepsCapacity(s.chans[c].queue.(pops := s.chans[c].queue.pops + {a.id}));
    }
  }

  lemma {:induction false} PopKeepsCapacity<P>(q: Queue<P>)
    requires PopAcked(q).Some?
    ensures PopAcked(q).value.capacity == q.capacity
    decreases |q.v|
  {
    if |q.v| != 0 && q.v[0].id in q.pops {
      PopKeepsCapacity(q.(v := q.v[1..], pops := q.pops - {q.v[0].id}, index := q.index - 1));
    }
  }
}
