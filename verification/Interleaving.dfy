/**
 * One writer and one reader on the same channel, taking turns after every access to shared memory.
 * Each side decides on the copies of the two offsets it loaded earlier. Atomic operations are single,
 * sequentially consistent steps; a record is stored in one step.
 */
module Interleaving {
  import opened Bytes
  import opened Ring
  import opened Placement

  /** Where the writer is in Channel::write. */
  datatype Writer =
    | WriterIdle
    | WriterLoaded(id: nat, data: seq<Byte>, s: nat)
    | Decided(id: nat, data: seq<Byte>, s: nat, plan: Plan)
    | StoredFirst(id: nat, data: seq<Byte>, s: nat, plan: Plan)
    | StoredSecond(id: nat, data: seq<Byte>, s: nat, plan: Plan)
    | WriterFault

  /** Where the reader is in read_header and consume_header. */
  datatype Reader =
    | ReaderIdle
    | LoadedOwn(s: nat)
    | LoadedBoth(s: nat, e: nat)
    | Holding(off: nat, rec: Record)
    | ReaderFault

  /**
   * Shared memory, the two sides, and three histories: messages as far as write accepted them,
   * records published, and records handed to the reader.
   */
  datatype State = State(
    mem: seq<Byte>, r: nat, w: nat,
    writer: Writer, reader: Reader,
    accepted: seq<Record>, published: seq<Record>, delivered: seq<Record>)

  datatype Action =
    | Begin(id: nat, data: seq<Byte>) | LoadWrite | StoreOne | StoreTwo | Publish
    | LoadRead | LoadOther | Deliver | Consume

  ghost predicate Enabled(n: nat, x: State, a: Action) {
    match a
    case Begin(id, data) => x.writer.WriterIdle? && 1 <= id < WORD && 1 <= |data| < WORD
    case LoadWrite => x.writer.WriterLoaded? && x.writer.s < n && x.w <= n < WORD
    case StoreOne => x.writer.Decided? && x.writer.plan.Accept?
    case StoreTwo => x.writer.StoredFirst? && x.writer.plan.Accept? && x.writer.plan.rest > 0
    case Publish =>
      || (x.writer.StoredFirst? && x.writer.plan.Accept? && x.writer.plan.rest == 0)
      || (x.writer.StoredSecond? && x.writer.plan.Accept?)
    case LoadRead => x.reader.ReaderIdle?
    case LoadOther => x.reader.LoadedOwn?
    case Deliver => x.reader.LoadedBoth?
    case Consume => x.reader.Holding?
  }

  /** read_header accepts the header: neither the padding mark nor a size beyond the buffer. */
  ghost predicate Readable(n: nat, x: State, off: nat) {
    off == x.r && off + HEADER <= n == |x.mem| && SizeAt(x.mem, off) != WORD - 1 && HEADER + SizeAt(x.mem, off) <= n - off
  }

  /** consume_header accepts the header. */
  ghost predicate Consumable(n: nat, x: State, off: nat) {
    && off == x.r && off + HEADER <= n == |x.mem| && HEADER + SizeAt(x.mem, off) <= n - off
    && off + Span(SizeAt(x.mem, off)) <= n
  }

  ghost predicate CanStore(n: nat, x: State, id: nat, data: seq<Byte>, p: Plan) {
    && p.Accept? && Total(p) <= |data| && id < WORD && p.head < WORD && p.rest < WORD
    && p.at + HEADER + p.head <= |x.mem| && HEADER + p.rest <= |x.mem|
  }

  ghost function DoLoadWrite(n: nat, t: nat, x: State): State
    requires Enabled(n, x, LoadWrite)
  {
    var (id, data, s) := (x.writer.id, x.writer.data, x.writer.s);
    match PlanWrite(n, t, s, x.w, |data|)
    case Again => x.(writer := WriterIdle)
    case Fault => x.(writer := WriterFault)
    case Accept(at, head, rest) => x.(writer := Decided(id, data, s, Accept(at, head, rest)))
  }

  ghost function DoStoreOne(n: nat, x: State): State
    requires Enabled(n, x, StoreOne)
  {
    var (id, data, s, p) := (x.writer.id, x.writer.data, x.writer.s, x.writer.plan);
    if CanStore(n, x, id, data, p)
    then x.(mem := StoreFirst(x.mem, p, id, data), writer := StoredFirst(id, data, s, p))
    else x.(writer := WriterFault)
  }

  ghost function DoStoreTwo(n: nat, x: State): State
    requires Enabled(n, x, StoreTwo)
  {
    var (id, data, s, p) := (x.writer.id, x.writer.data, x.writer.s, x.writer.plan);
    if CanStore(n, x, id, data, p)
    then x.(mem := StoreSecond(x.mem, p, id, data), writer := StoredSecond(id, data, s, p))
    else x.(writer := WriterFault)
  }

  ghost function DoPublish(n: nat, x: State): State
    requires Enabled(n, x, Publish)
  {
    var (id, data, s, p) := (x.writer.id, x.writer.data, x.writer.s, x.writer.plan);
    if PassesChecks(n, s, p, |data|)
    then x.(w := Next(p), writer := WriterIdle,
            accepted := x.accepted + [Record(id, data[..Total(p)])],
            published := x.published + Records(p, id, data))
    else x.(writer := WriterFault)
  }

  ghost function DoLoadOther(x: State): State
    requires x.reader.LoadedOwn?
  {
    x.(reader := if x.reader.s == x.w then ReaderIdle else LoadedBoth(x.reader.s, x.w))
  }

  ghost function DoDeliver(n: nat, x: State): State
    requires x.reader.LoadedBoth?
  {
    if Readable(n, x, x.reader.s)
    then var rec := RecordAt(x.mem, x.reader.s);
         x.(reader := Holding(x.reader.s, rec), delivered := x.delivered + [rec])
    else x.(reader := ReaderFault)
  }

  ghost function DoConsume(n: nat, x: State): State
    requires x.reader.Holding?
  {
    if Consumable(n, x, x.reader.off)
    then x.(r := AfterConsume(n, x.mem, x.reader.off), reader := ReaderIdle)
    else x.(reader := ReaderFault)
  }

  ghost function Do(n: nat, t: nat, x: State, a: Action): State
    requires Enabled(n, x, a)
  {
    match a
    case Begin(id, data) => x.(writer := WriterLoaded(id, data, x.r))
    case LoadWrite => DoLoadWrite(n, t, x)
    case StoreOne => DoStoreOne(n, x)
    case StoreTwo => DoStoreTwo(n, x)
    case Publish => DoPublish(n, x)
    case LoadRead => x.(reader := LoadedOwn(x.r))
    case LoadOther => DoLoadOther(x)
    case Deliver => DoDeliver(n, x)
    case Consume => DoConsume(n, x)
  }

  /** The state that Channel::initialize leaves, over any bytes. */
  ghost predicate Init(n: nat, x: State) {
    && |x.mem| == n && x.r == x.w == 0
    && x.writer.WriterIdle? && x.reader.ReaderIdle?
    && x.accepted == x.published == x.delivered == []
  }

  // ---- The invariant ----------------------------------------------------------------------------

  /** Records whose consume_header is done. */
  ghost function Consumed(x: State): seq<Record> {
    if x.reader.Holding? && x.delivered != [] then x.delivered[..|x.delivered| - 1] else x.delivered
  }

  /** The snapshot is one the read offset has moved on from, and the message is a legal argument. */
  ghost predicate WritingInv(n: nat, x: State, id: nat, data: seq<Byte>, s: nat) {
    n < WORD && 1 <= id < WORD && 1 <= |data| < WORD && Offsets(n, s, x.w) && Reach(s, x.r, x.w)
  }

  ghost predicate PlannedInv(n: nat, t: nat, x: State, id: nat, data: seq<Byte>, s: nat, p: Plan) {
    && WritingInv(n, x, id, data, s)
    && p == PlanWrite(n, t, s, x.w, |data|) && WellPlaced(n, s, x.w, p) && Total(p) <= |data|
  }

  ghost predicate WriterInv(n: nat, t: nat, x: State)
    requires n < WORD && x.w <= n
  {
    match x.writer
    case WriterIdle => true
    case WriterLoaded(id, data, s) => WritingInv(n, x, id, data, s)
    case Decided(id, data, s, p) => PlannedInv(n, t, x, id, data, s, p)
    case StoredFirst(id, data, s, p) => PlannedInv(n, t, x, id, data, s, p) && FirstPlaced(n, x.mem, p, id, data)
    case StoredSecond(id, data, s, p) =>
      PlannedInv(n, t, x, id, data, s, p) && FirstPlaced(n, x.mem, p, id, data) && SecondPlaced(n, x.mem, p, id, data)
    case WriterFault => false
  }

  ghost predicate ReaderInv(n: nat, x: State)
    requires Inv(n, x.mem, x.r, x.w)
  {
    match x.reader
    case ReaderIdle => true
    case LoadedOwn(s) => s == x.r
    case LoadedBoth(s, e) => s == x.r && x.r != x.w
    case Holding(off, rec) =>
      && off == x.r && x.r != x.w && Unread(n, x.mem, x.r, x.w)[..1] == [rec]
      && x.delivered != [] && x.delivered[|x.delivered| - 1] == rec
    case ReaderFault => false
  }

  ghost predicate Good(n: nat, t: nat, x: State) {
    && Params(n, t) && Inv(n, x.mem, x.r, x.w)
    && WriterInv(n, t, x) && ReaderInv(n, x)
    && x.published == Consumed(x) + Unread(n, x.mem, x.r, x.w)
    && SameStreams(x.published, x.accepted)
  }

  /** For every id the two histories carry the same bytes. */
  ghost predicate SameStreams(a: seq<Record>, b: seq<Record>) {
    forall id :: Stream(a, id) == Stream(b, id)
  }

  // ---- The queue it stands for ------------------------------------------------------------------

  datatype Fifo = Fifo(queue: seq<Record>, taken: seq<Record>)

  datatype FifoEvent = Stutter | Put(recs: seq<Record>) | Take(rec: Record)

  ghost predicate FifoStep(f: Fifo, e: FifoEvent, g: Fifo) {
    match e
    case Stutter => g == f
    case Put(recs) => g == Fifo(f.queue + recs, f.taken)
    case Take(rec) => f.queue == [rec] + g.queue && g.taken == f.taken + [rec]
  }

  ghost function Abs(n: nat, x: State): Fifo
    requires Inv(n, x.mem, x.r, x.w)
  {
    Fifo(Unread(n, x.mem, x.r, x.w), Consumed(x))
  }

  /** The consume that the reader is about to make would wrap to 0 under a parked write offset. */
  ghost predicate WouldPark(n: nat, x: State, a: Action) {
    a.Consume? && x.reader.Holding? && Consumable(n, x, x.reader.off) && Parks(n, x.mem, x.reader.off, x.w)
  }

  lemma InitIsGood(n: nat, t: nat, x: State)
    requires Params(n, t) && Init(n, x)
    ensures Good(n, t, x)
  {
  }

  // ---- The writer keeps it ----------------------------------------------------------------------

  lemma LoadWriteKeeps(n: nat, t: nat, x: State)
    requires Good(n, t, x) && Enabled(n, x, LoadWrite)
    ensures Good(n, t, DoLoadWrite(n, t, x)) && Abs(n, DoLoadWrite(n, t, x)) == Abs(n, x)
  {
    var (data, s) := (x.writer.data, x.writer.s);
    WriteVerdict(n, t, s, x.w, |data|);
    if PlanWrite(n, t, s, x.w, |data|).Accept? {
      PlanShape(n, t, s, x.w, |data|);
    }
  }

  /** A store that leaves the queue alone leaves the reader and the histories alone. */
  lemma StoreKeepsReader(n: nat, t: nat, x: State, y: State)
    requires Good(n, t, x) && y == x.(mem := y.mem, writer := y.writer)
    requires Inv(n, y.mem, y.r, y.w) && Unread(n, y.mem, y.r, y.w) == Unread(n, x.mem, x.r, x.w)
    ensures ReaderInv(n, y) && Abs(n, y) == Abs(n, x)
    ensures WriterInv(n, t, y) ==> Good(n, t, y)
  {
  }

  lemma StoreOneKeeps(n: nat, t: nat, x: State)
    requires Good(n, t, x) && Enabled(n, x, StoreOne)
    ensures Good(n, t, DoStoreOne(n, x)) && Abs(n, DoStoreOne(n, x)) == Abs(n, x)
    ensures CanStore(n, x, x.writer.id, x.writer.data, x.writer.plan)
  {
    FirstStoreKeeps(n, x.mem, x.writer.s, x.r, x.w, x.writer.plan, x.writer.id, x.writer.data);
    AlignedPlan(n, x.writer.s, x.w, x.writer.plan);
    StoreKeepsReader(n, t, x, DoStoreOne(n, x));
  }

  lemma StoreTwoKeeps(n: nat, t: nat, x: State)
    requires Good(n, t, x) && Enabled(n, x, StoreTwo)
    ensures Good(n, t, DoStoreTwo(n, x)) && Abs(n, DoStoreTwo(n, x)) == Abs(n, x)
    ensures CanStore(n, x, x.writer.id, x.writer.data, x.writer.plan)
  {
    SecondStoreKeeps(n, x.mem, x.writer.s, x.r, x.w, x.writer.plan, x.writer.id, x.writer.data);
    AlignedPlan(n, x.writer.s, x.w, x.writer.plan);
    StoreKeepsReader(n, t, x, DoStoreTwo(n, x));
  }

  lemma PublishKeepsStreams(published: seq<Record>, accepted: seq<Record>, p: Plan, id: nat, data: seq<Byte>)
    requires SameStreams(published, accepted) && p.Accept? && Total(p) <= |data|
    ensures SameStreams(published + Records(p, id, data), accepted + [Record(id, data[..Total(p)])])
  {
    var one, recs := [Record(id, data[..Total(p)])], Records(p, id, data);
    forall any ensures Stream(published + recs, any) == Stream(accepted + one, any) {
      RecordsCarryPrefix(p, id, data, any);
      StreamAppend(published, recs, any);
      StreamAppend(accepted, one, any);
    }
  }

  /** The queue only grows at its end, so the reader does not notice. */
  lemma PublishKeepsReader(n: nat, x: State, y: State, recs: seq<Record>)
    requires Inv(n, x.mem, x.r, x.w) && Inv(n, y.mem, y.r, y.w) && ReaderInv(n, x)
    requires y.reader == x.reader && y.r == x.r && y.delivered == x.delivered
    requires Unread(n, y.mem, y.r, y.w) == Unread(n, x.mem, x.r, x.w) + recs
    ensures ReaderInv(n, y)
    ensures (Consumed(x) + Unread(n, x.mem, x.r, x.w)) + recs == Consumed(y) + Unread(n, y.mem, y.r, y.w)
  {
    HeadRecord(n, x.mem, x.r, x.w);
    HeadRecord(n, y.mem, y.r, y.w);
    var q := Unread(n, x.mem, x.r, x.w);
    if q != [] {
      assert (q + recs)[..1] == q[..1];
    }
    assert (Consumed(x) + q) + recs == Consumed(x) + (q + recs);
  }

  lemma PublishKeeps(n: nat, t: nat, x: State)
    requires Good(n, t, x) && Enabled(n, x, Publish)
    ensures var y := DoPublish(n, x);
            && PassesChecks(n, x.writer.s, x.writer.plan, |x.writer.data|)
            && Good(n, t, y) && Consumed(y) == Consumed(x)
            && Unread(n, y.mem, y.r, y.w) == Unread(n, x.mem, x.r, x.w) + Records(x.writer.plan, x.writer.id, x.writer.data)
  {
    var (id, data, p) := (x.writer.id, x.writer.data, x.writer.plan);
    EndChecks(n, x.writer.s, x.w, p);
    PublishAppends(n, x.mem, x.writer.s, x.r, x.w, p, id, data);
    PublishKeepsReader(n, x, DoPublish(n, x), Records(p, id, data));
    PublishKeepsStreams(x.published, x.accepted, p, id, data);
  }

  // ---- The reader keeps it ----------------------------------------------------------------------

  /** A header that the invariant vouches for passes the reader's checks. */
  lemma HeadIsReadable(n: nat, t: nat, x: State)
    requires Good(n, t, x) && x.r != x.w
    ensures Readable(n, x, x.r) && Consumable(n, x, x.r)
    ensures Unread(n, x.mem, x.r, x.w)[..1] == [RecordAt(x.mem, x.r)]
  {
    HeadRecord(n, x.mem, x.r, x.w);
  }

  lemma DeliverKeeps(n: nat, t: nat, x: State)
    requires Good(n, t, x) && x.reader.LoadedBoth?
    ensures Good(n, t, DoDeliver(n, x)) && Abs(n, DoDeliver(n, x)) == Abs(n, x)
    ensures Readable(n, x, x.reader.s)
  {
    HeadIsReadable(n, t, x);
    assert (x.delivered + [RecordAt(x.mem, x.reader.s)])[..|x.delivered|] == x.delivered;
  }

  /** The snapshot of a write in progress stays one that the read offset has moved on from. */
  lemma ConsumeKeepsWriter(n: nat, t: nat, x: State, y: State)
    requires Good(n, t, x) && x.r != x.w && x.r + HEADER <= n && !Parks(n, x.mem, x.r, x.w)
    requires y.mem == x.mem && y.w == x.w && y.r == AfterConsume(n, x.mem, x.r) && y.writer == x.writer
    ensures WriterInv(n, t, y)
  {
    if !x.writer.WriterIdle? {
      ConsumeReaches(n, x.mem, x.writer.s, x.r, x.w);
    }
  }

  lemma ConsumeKeeps(n: nat, t: nat, x: State)
    requires Good(n, t, x) && x.reader.Holding? && !WouldPark(n, x, Consume)
    ensures var y := DoConsume(n, x);
            && Consumable(n, x, x.reader.off)
            && Good(n, t, y) && Consumed(y) == Consumed(x) + [x.reader.rec]
            && Unread(n, x.mem, x.r, x.w) == [x.reader.rec] + Unread(n, y.mem, y.r, y.w)
  {
    HeadIsReadable(n, t, x);
    ConsumePops(n, x.mem, x.r, x.w);
    var y := DoConsume(n, x);
    ConsumeKeepsWriter(n, t, x, y);
    PopMovesHead(Unread(n, x.mem, x.r, x.w), x.delivered, x.reader.rec);
  }

  lemma PopMovesHead(q: seq<Record>, delivered: seq<Record>, rec: Record)
    requires q != [] && q[..1] == [rec] && delivered != [] && delivered[|delivered| - 1] == rec
    ensures q == [rec] + q[1..]
    ensures delivered == delivered[..|delivered| - 1] + [rec]
    ensures delivered[..|delivered| - 1] + q == delivered + q[1..]
  {
    assert q == q[..1] + q[1..];
  }

  // ---- Refinement of a queue --------------------------------------------------------------------

  ghost function EventOf(n: nat, x: State, a: Action): FifoEvent
    requires Enabled(n, x, a)
  {
    if a.Publish? && PassesChecks(n, x.writer.s, x.writer.plan, |x.writer.data|) then Put(Records(x.writer.plan, x.writer.id, x.writer.data))
    else if a.Consume? then Take(x.reader.rec)
    else Stutter
  }

  ghost predicate Refined(n: nat, t: nat, x: State, a: Action)
    requires Good(n, t, x) && Enabled(n, x, a)
  {
    Good(n, t, Do(n, t, x, a)) && FifoStep(Abs(n, x), EventOf(n, x, a), Abs(n, Do(n, t, x, a)))
  }

  lemma BeginRefines(n: nat, t: nat, x: State, a: Action)
    requires Good(n, t, x) && Enabled(n, x, a) && a.Begin?
    ensures Refined(n, t, x, a)
  {
  }

  lemma LoadReadRefines(n: nat, t: nat, x: State)
    requires Good(n, t, x) && Enabled(n, x, LoadRead)
    ensures Refined(n, t, x, LoadRead)
  {
  }

  lemma LoadOtherRefines(n: nat, t: nat, x: State)
    requires Good(n, t, x) && Enabled(n, x, LoadOther)
    ensures Refined(n, t, x, LoadOther)
  {
  }

  lemma LoadWriteRefines(n: nat, t: nat, x: State)
    requires Good(n, t, x) && Enabled(n, x, LoadWrite)
    ensures Refined(n, t, x, LoadWrite)
  {
    LoadWriteKeeps(n, t, x);
  }

  lemma StoreOneRefines(n: nat, t: nat, x: State)
    requires Good(n, t, x) && Enabled(n, x, StoreOne)
    ensures Refined(n, t, x, StoreOne)
  {
    StoreOneKeeps(n, t, x);
    var y := DoStoreOne(n, x);
    assert Do(n, t, x, StoreOne) == y && EventOf(n, x, StoreOne) == Stutter;
  }

  lemma StoreTwoRefines(n: nat, t: nat, x: State)
    requires Good(n, t, x) && Enabled(n, x, StoreTwo)
    ensures Refined(n, t, x, StoreTwo)
  {
    StoreTwoKeeps(n, t, x);
    var y := DoStoreTwo(n, x);
    assert Do(n, t, x, StoreTwo) == y && EventOf(n, x, StoreTwo) == Stutter;
  }

  lemma PublishRefines(n: nat, t: nat, x: State)
    requires Good(n, t, x) && Enabled(n, x, Publish)
    ensures Refined(n, t, x, Publish)
  {
    PublishKeeps(n, t, x);
  }

  lemma ReadRefines(n: nat, t: nat, x: State, a: Action)
    requires Good(n, t, x) && Enabled(n, x, a) && !WouldPark(n, x, a)
    requires a.Deliver? || a.Consume?
    ensures Refined(n, t, x, a)
  {
    match a
    case Deliver => DeliverKeeps(n, t, x);
    case Consume => ConsumeKeeps(n, t, x);
  }

  /** Every step but a parking consume keeps the invariant and is a step of the queue. */
  lemma StepRefines(n: nat, t: nat, x: State, a: Action)
    requires Good(n, t, x) && Enabled(n, x, a) && !WouldPark(n, x, a)
    ensures Refined(n, t, x, a)
  {
    match a
    case Begin(_, _) => BeginRefines(n, t, x, a);
    case LoadRead => LoadReadRefines(n, t, x);
    case LoadOther => LoadOtherRefines(n, t, x);
    case LoadWrite => LoadWriteRefines(n, t, x);
    case StoreOne => StoreOneRefines(n, t, x);
    case StoreTwo => StoreTwoRefines(n, t, x);
    case Publish => PublishRefines(n, t, x);
    case Deliver => ReadRefines(n, t, x, a);
    case Consume => ReadRefines(n, t, x, a);
  }

  // ---- Progress ---------------------------------------------------------------------------------

  ghost predicate OfWriter(a: Action) {
    a.Begin? || a.LoadWrite? || a.StoreOne? || a.StoreTwo? || a.Publish?
  }

  /** The steps that a writer in the middle of a message has left at most. */
  ghost function StepsLeft(w: Writer): nat {
    match w
    case WriterIdle => 0
    case WriterLoaded(_, _, _) => 4
    case Decided(_, _, _, _) => 3
    case StoredFirst(_, _, _, _) => 2
    case StoredSecond(_, _, _, _) => 1
    case WriterFault => 0
  }

  /** An idle writer can begin any legal message, and one that is not idle can go on. */
  lemma WriterMoves(n: nat, t: nat, x: State)
    requires Good(n, t, x)
    ensures x.writer.WriterIdle? ==> forall id, data: seq<Byte> :: 1 <= id < WORD && 1 <= |data| < WORD ==> Enabled(n, x, Begin(id, data))
    ensures !x.writer.WriterIdle? ==> exists a :: OfWriter(a) && !a.Begin? && Enabled(n, x, a)
  {
    match x.writer
    case WriterLoaded(_, _, _) => assert Enabled(n, x, LoadWrite);
    case Decided(_, _, _, _) => assert Enabled(n, x, StoreOne);
    case StoredFirst(_, _, _, p) => assert if p.rest > 0 then Enabled(n, x, StoreTwo) else Enabled(n, x, Publish);
    case StoredSecond(_, _, _, _) => assert Enabled(n, x, Publish);
    case _ =>
  }

  /** So a message comes to an end after at most four more steps of the writer. */
  lemma WriterEnds(n: nat, t: nat, x: State, a: Action)
    requires Enabled(n, x, a) && OfWriter(a) && !a.Begin?
    ensures StepsLeft(Do(n, t, x, a).writer) < StepsLeft(x.writer) <= 4
  {
  }

  /** The reader can go on in every state. */
  lemma ReaderMoves(n: nat, t: nat, x: State)
    requires Good(n, t, x)
    ensures exists a :: !OfWriter(a) && Enabled(n, x, a)
  {
    match x.reader
    case ReaderIdle => assert Enabled(n, x, LoadRead);
    case LoadedOwn(_) => assert Enabled(n, x, LoadOther);
    case LoadedBoth(_, _) => assert Enabled(n, x, Deliver);
    case Holding(_, _) => assert Enabled(n, x, Consume);
    case _ =>
  }

  /** An idle reader that finds the channel not empty is handed the head of the queue, and can consume it. */
  lemma ReaderTakesHead(n: nat, t: nat, x: State) returns (x1: State, x2: State, y: State)
    requires Good(n, t, x) && x.reader.ReaderIdle? && x.r != x.w
    ensures Enabled(n, x, LoadRead) && x1 == Do(n, t, x, LoadRead)
    ensures Enabled(n, x1, LoadOther) && x2 == Do(n, t, x1, LoadOther)
    ensures Enabled(n, x2, Deliver) && y == Do(n, t, x2, Deliver)
    ensures Unread(n, x.mem, x.r, x.w) != []
    ensures y == x.(reader := y.reader, delivered := x.delivered + [Unread(n, x.mem, x.r, x.w)[0]])
    ensures Good(n, t, y) && Enabled(n, y, Consume)
  {
    x1 := Do(n, t, x, LoadRead);
    LoadReadRefines(n, t, x);
    x2 := Do(n, t, x1, LoadOther);
    LoadOtherRefines(n, t, x1);
    HeadRecord(n, x.mem, x.r, x.w);
    DeliverKeeps(n, t, x2);
    y := Do(n, t, x2, Deliver);
  }
}
