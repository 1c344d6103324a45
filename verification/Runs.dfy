/** What holds of every interleaved run of one writer and one reader on a channel. */
module Runs {
  import opened Bytes
  import opened Ring
  import opened Placement
  import opened Interleaving

  /** The actions can be taken one after the other from `x`. */
  ghost predicate Legal(n: nat, t: nat, x: State, acts: seq<Action>)
    decreases |acts|
  {
    acts == [] || (Enabled(n, x, acts[0]) && Legal(n, t, Do(n, t, x, acts[0]), acts[1..]))
  }

  ghost function Run(n: nat, t: nat, x: State, acts: seq<Action>): State
    requires Legal(n, t, x, acts)
    decreases |acts|
  {
    if acts == [] then x else Run(n, t, Do(n, t, x, acts[0]), acts[1..])
  }

  /** No consume of the run wraps to 0 while the published write offset is the end of the buffer. */
  ghost predicate NeverParks(n: nat, t: nat, x: State, acts: seq<Action>)
    requires Legal(n, t, x, acts)
    decreases |acts|
  {
    acts == [] || (!WouldPark(n, x, acts[0]) && NeverParks(n, t, Do(n, t, x, acts[0]), acts[1..]))
  }

  // ---- The queue refinement ---------------------------------------------------------------------

  ghost function Events(n: nat, t: nat, x: State, acts: seq<Action>): seq<FifoEvent>
    requires Legal(n, t, x, acts)
    decreases |acts|
  {
    if acts == [] then [] else [EventOf(n, x, acts[0])] + Events(n, t, Do(n, t, x, acts[0]), acts[1..])
  }

  /** `events` lead the queue from `f` to `g`. */
  ghost predicate FifoRun(f: Fifo, events: seq<FifoEvent>, g: Fifo)
    decreases events
  {
    if events == [] then f == g
    else exists h :: FifoStep(f, events[0], h) && FifoRun(h, events[1..], g)
  }

  /** Under the guard every run keeps the invariant, and its effect on memory is a run of a queue. */
  lemma {:induction false} RunRefines(n: nat, t: nat, x: State, acts: seq<Action>)
    requires Good(n, t, x) && Legal(n, t, x, acts) && NeverParks(n, t, x, acts)
    ensures Good(n, t, Run(n, t, x, acts))
    ensures FifoRun(Abs(n, x), Events(n, t, x, acts), Abs(n, Run(n, t, x, acts)))
    decreases |acts|
  {
    if acts == [] {
    } else {
      StepRefines(n, t, x, acts[0]);
      var y := Do(n, t, x, acts[0]);
      RunRefines(n, t, y, acts[1..]);
      var events := Events(n, t, x, acts);
      assert events[0] == EventOf(n, x, acts[0]) && events[1..] == Events(n, t, y, acts[1..]);
      assert FifoStep(Abs(n, x), events[0], Abs(n, y));
    }
  }

  /**
   * From initialize on, under the guard: no internal error is raised, what was handed to the reader
   * is a prefix of what was published, and for every id the bytes handed over are a prefix of the
   * bytes that write accepted.
   */
  lemma DeliveredIsPrefix(n: nat, t: nat, x: State, acts: seq<Action>)
    requires Params(n, t) && Init(n, x) && Legal(n, t, x, acts) && NeverParks(n, t, x, acts)
    ensures var y := Run(n, t, x, acts);
            && !y.writer.WriterFault? && !y.reader.ReaderFault?
            && y.delivered <= y.published
            && forall id :: Stream(y.delivered, id) <= Stream(y.accepted, id)
  {
    InitIsGood(n, t, x);
    RunRefines(n, t, x, acts);
    var y := Run(n, t, x, acts);
    DeliveredFromGood(n, t, y);
    forall id ensures Stream(y.delivered, id) <= Stream(y.accepted, id) {
      StreamPrefix(y.delivered, y.published, id);
    }
  }

  lemma DeliveredFromGood(n: nat, t: nat, y: State)
    requires Good(n, t, y)
    ensures y.delivered <= y.published
  {
    var q := Unread(n, y.mem, y.r, y.w);
    if y.reader.Holding? {
      PopMovesHead(q, y.delivered, y.reader.rec);
      assert y.published == y.delivered + q[1..];
    } else {
      assert y.published == y.delivered + q;
    }
  }

  // ---- The guard is exactly what is needed ------------------------------------------------------

  /** A step keeps the invariant if and only if it is not a parking consume. */
  lemma StepBoundary(n: nat, t: nat, x: State, a: Action)
    requires Good(n, t, x) && Enabled(n, x, a)
    ensures Good(n, t, Do(n, t, x, a)) <==> !WouldPark(n, x, a)
  {
    if WouldPark(n, x, a) {
      var y := DoConsume(n, x);
      HeadIsReadable(n, t, x);
      TiledBounds(x.mem, x.r, x.w);
      WalkTail(x.mem, x.r, x.w);
      var q := Unread(n, x.mem, x.r, x.w);
      assert q[1..] == [];
      PopMovesHead(q, x.delivered, x.reader.rec);
      assert x.published == x.delivered;
      if Good(n, t, y) {
        HeadRecord(n, y.mem, y.r, y.w);
      }
    } else {
      StepRefines(n, t, x, a);
    }
  }

  ghost function ReplayActions(data: seq<Byte>): seq<Action> {
    [Begin(1, data), LoadWrite, StoreOne, Publish] + [LoadRead, LoadOther, Deliver, Consume] + [LoadRead, LoadOther, Deliver]
  }

  lemma RunCons(n: nat, t: nat, x: State, a: Action, rest: seq<Action>)
    requires Enabled(n, x, a) && Legal(n, t, Do(n, t, x, a), rest)
    ensures Legal(n, t, x, [a] + rest) && Run(n, t, x, [a] + rest) == Run(n, t, Do(n, t, x, a), rest)
  {
    assert ([a] + rest)[1..] == rest;
  }

  lemma {:induction false} RunConcat(n: nat, t: nat, x: State, a: seq<Action>, b: seq<Action>)
    requires Legal(n, t, x, a) && Legal(n, t, Run(n, t, x, a), b)
    ensures Legal(n, t, x, a + b) && Run(n, t, x, a + b) == Run(n, t, Run(n, t, x, a), b)
    decreases |a|
  {
    if a == [] {
      assert a + b == b;
    } else {
      RunConcat(n, t, Do(n, t, x, a[0]), a[1..], b);
      RunCons(n, t, x, a[0], a[1..] + b);
      assert [a[0]] + (a[1..] + b) == a + b;
    }
  }

  /** Channel full with one record that ends the buffer. */
  ghost predicate Filled(n: nat, x: State, rec: Record) {
    && n == |x.mem| && HEADER < n && x.r == 0 && x.w == n && x.writer.WriterIdle? && x.reader.ReaderIdle?
    && SizeAt(x.mem, 0) == n - HEADER && RecordAt(x.mem, 0) == rec
  }

  lemma FillingRun(n: nat, t: nat, x: State, data: seq<Byte>)
    requires Params(n, t) && Init(n, x) && |data| == n - HEADER
    ensures var acts := [Begin(1, data), LoadWrite, StoreOne, Publish];
            && Legal(n, t, x, acts)
            && var y := Run(n, t, x, acts);
            && Filled(n, y, Record(1, data)) && y.published == [Record(1, data)] && y.delivered == []
  {
    var rec, p := Record(1, data), Accept(0, n - HEADER, 0);
    SpanBetween(0, n, n - HEADER);
    assert data[..p.head] == data;
    StoreRoundTrip(x.mem, 0, rec);
    var x1 := Do(n, t, x, Begin(1, data));
    assert PlanWrite(n, t, 0, 0, |data|) == p;
    var x2 := Do(n, t, x1, LoadWrite);
    var x3 := Do(n, t, x2, StoreOne);
    assert x3.mem == Store(x.mem, 0, rec);
    RunCons(n, t, x3, Publish, []);
    RunCons(n, t, x2, StoreOne, [Publish]);
    RunCons(n, t, x1, LoadWrite, [StoreOne, Publish]);
    RunCons(n, t, x, Begin(1, data), [LoadWrite, StoreOne, Publish]);
  }

  /** Reading and consuming leaves the channel as full as it was. */
  lemma RereadingRun(n: nat, t: nat, x: State, rec: Record)
    requires Geometry(n) && Filled(n, x, rec)
    ensures var acts := [LoadRead, LoadOther, Deliver];
            && Legal(n, t, x, acts)
            && var y := Run(n, t, x, acts);
            && y.published == x.published && y.delivered == x.delivered + [rec]
            && Legal(n, t, y, [Consume]) && Filled(n, Run(n, t, y, [Consume]), rec)
            && Run(n, t, y, [Consume]).published == x.published && Run(n, t, y, [Consume]).delivered == y.delivered
  {
    SpanBetween(0, n, n - HEADER);
    var x1 := Do(n, t, x, LoadRead);
    var x2 := Do(n, t, x1, LoadOther);
    var x3 := Do(n, t, x2, Deliver);
    assert Readable(n, x2, 0) && Consumable(n, x3, 0);
    RunCons(n, t, x2, Deliver, []);
    RunCons(n, t, x1, LoadOther, [Deliver]);
    RunCons(n, t, x, LoadRead, [LoadOther, Deliver]);
    RunCons(n, t, x3, Consume, []);
  }

  /**
   * Without the guard the queue breaks for every buffer size: one message that fills the buffer is
   * written once and, after the reader consumed it, handed over a second time.
   */
  lemma ReplayRun(n: nat, t: nat, x: State, data: seq<Byte>)
    requires Params(n, t) && Init(n, x) && |data| == n - HEADER
    ensures Legal(n, t, x, ReplayActions(data))
    ensures var y := Run(n, t, x, ReplayActions(data));
            && y.published == [Record(1, data)] && y.delivered == [Record(1, data), Record(1, data)]
            && !(y.delivered <= y.published)
  {
    var rec := Record(1, data);
    var write, read := [Begin(1, data), LoadWrite, StoreOne, Publish], [LoadRead, LoadOther, Deliver];
    FillingRun(n, t, x, data);
    var y := Run(n, t, x, write);
    RereadingRun(n, t, y, rec);
    var z := Run(n, t, Run(n, t, y, read), [Consume]);
    RereadingRun(n, t, z, rec);
    RunConcat(n, t, y, read, [Consume]);
    RunConcat(n, t, x, write, read + [Consume]);
    RunConcat(n, t, x, write + (read + [Consume]), read);
    assert ReplayActions(data) == write + (read + [Consume]) + read;
  }

  // ---- What the two sides can rely on -----------------------------------------------------------

  lemma StoresSpare(n: nat, mem: seq<Byte>, s: nat, r: nat, w: nat, p: Plan, id: nat, data: seq<Byte>, i: nat)
    requires WellPlaced(n, s, w, p) && Offsets(n, r, w) && Reach(s, r, w) && i < n == |mem| && Live(n, r, w, i)
    requires Total(p) <= |data| && id < WORD && p.head < WORD && p.rest < WORD
    requires p.at + HEADER + p.head <= n && HEADER + p.rest <= n
    ensures StoreFirst(mem, p, id, data)[i] == mem[i] == StoreSecond(mem, p, id, data)[i]
  {
    if Touches(p, i) {
      AvoidsLive(n, s, r, w, p, i);
    }
  }

  /** Whatever snapshot the writer acts on, it changes no byte of an unread record. */
  lemma WriterSparesUnread(n: nat, t: nat, x: State, a: Action, i: int)
    requires Good(n, t, x) && Enabled(n, x, a) && 0 <= i < n && Live(n, x.r, x.w, i)
    ensures |Do(n, t, x, a).mem| == n && Do(n, t, x, a).mem[i] == x.mem[i]
  {
    if (a.StoreOne? || a.StoreTwo?) && CanStore(n, x, x.writer.id, x.writer.data, x.writer.plan) {
      StoresSpare(n, x.mem, x.writer.s, x.r, x.w, x.writer.plan, x.writer.id, x.writer.data, i);
    }
  }

  /** Only a consume ends the reader's hold on a record. */
  lemma HoldStep(n: nat, t: nat, x: State, a: Action)
    requires Good(n, t, x) && x.reader.Holding? && Enabled(n, x, a) && !a.Consume?
    ensures Good(n, t, Do(n, t, x, a)) && Do(n, t, x, a).reader == x.reader
  {
    StepRefines(n, t, x, a);
  }

  /** A record handed to the reader keeps its bytes until the reader consumes it. */
  lemma {:induction false} HeldRecordStays(n: nat, t: nat, x: State, acts: seq<Action>)
    requires Good(n, t, x) && x.reader.Holding? && Legal(n, t, x, acts)
    requires forall i :: 0 <= i < |acts| ==> !acts[i].Consume?
    ensures var y := Run(n, t, x, acts);
            && y.reader == x.reader && x.reader.off + HEADER <= n == |y.mem|
            && HEADER + SizeAt(y.mem, x.reader.off) <= n - x.reader.off
            && RecordAt(y.mem, x.reader.off) == x.reader.rec
    decreases |acts|
  {
    if acts == [] {
      HeadIsReadable(n, t, x);
    } else {
      HoldStep(n, t, x, acts[0]);
      HeldRecordStays(n, t, Do(n, t, x, acts[0]), acts[1..]);
    }
  }

  /** A step of the reader under the guard leaves the writer alone and moves the read offset on. */
  lemma ReaderStepReaches(n: nat, t: nat, seen: nat, x: State, a: Action)
    requires Good(n, t, x) && Enabled(n, x, a) && !WouldPark(n, x, a)
    requires a.LoadRead? || a.LoadOther? || a.Deliver? || a.Consume?
    requires seen < n && Reach(seen, x.r, x.w)
    ensures var y := Do(n, t, x, a);
            Good(n, t, y) && y.writer == x.writer && y.w == x.w && Reach(seen, y.r, y.w)
  {
    StepRefines(n, t, x, a);
    if a.Consume? {
      HeadIsReadable(n, t, x);
      ConsumeReaches(n, x.mem, seen, x.r, x.w);
    }
  }

  /**
   * While the writer is idle, after any steps of the reader under the guard, a write of a size that
   * can_write allowed before takes the whole message.
   */
  lemma {:induction false} CanWriteHolds(n: nat, t: nat, seen: nat, x: State, acts: seq<Action>, size: nat)
    requires Good(n, t, x) && x.writer.WriterIdle? && Legal(n, t, x, acts) && NeverParks(n, t, x, acts)
    requires forall i :: 0 <= i < |acts| ==> acts[i].LoadRead? || acts[i].LoadOther? || acts[i].Deliver? || acts[i].Consume?
    requires seen < n && Aligned(seen) && Reach(seen, x.r, x.w)
    requires 1 <= size && CanWrite(n, seen, x.w, size)
    ensures var y := Run(n, t, x, acts);
            && y.w == x.w && y.r < n && y.w <= n < WORD
            && var p := PlanWrite(n, t, y.r, y.w, size); p.Accept? && Total(p) == size
    decreases |acts|
  {
    if acts == [] {
      CanWriteStaysSound(n, t, seen, x.r, x.w, size);
    } else {
      ReaderStepReaches(n, t, seen, x, acts[0]);
      CanWriteHolds(n, t, seen, Do(n, t, x, acts[0]), acts[1..], size);
    }
  }

  // ---- What becomes of a message ----------------------------------------------------------------

  /** The writer is busy with the message that it began in state `x`, and nobody can see it yet. */
  ghost predicate Busy(x: State, id: nat, data: seq<Byte>, y: State) {
    && !y.writer.WriterIdle? && !y.writer.WriterFault?
    && y.writer.id == id && y.writer.data == data && y.writer.s == x.r
    && y.w == x.w && y.accepted == x.accepted && y.published == x.published
  }

  /** Records for `id` were added, and they carry `bytes`. */
  ghost predicate Extends(before: seq<Record>, after: seq<Record>, id: nat, bytes: seq<Byte>) {
    && before < after && Stream(after, id) == Stream(before, id) + bytes
    && (forall i :: |before| <= i < |after| ==> after[i].id == id)
  }

  /**
   * It is done with it: if at least min(size, threshold) bytes fitted when it looked, all that fitted
   * was accepted and published, else nothing was.
   */
  ghost predicate Settled(n: nat, t: nat, x: State, id: nat, data: seq<Byte>, y: State)
    requires x.r < n && x.w <= n
  {
    var fits := Capacity(n, x.r, x.w);
    && y.writer.WriterIdle?
    && if Min(|data|, t) <= fits
       then y.accepted == x.accepted + [Record(id, data[..Min(|data|, fits)])] && y.w != x.w
            && Extends(x.published, y.published, id, data[..Min(|data|, fits)])
       else y.accepted == x.accepted && y.published == x.published && y.w == x.w
  }

  /** A loaded writer decides by the space that was free. */
  lemma DecisionSettles(n: nat, t: nat, x: State, id: nat, data: seq<Byte>, y: State)
    requires x.r < n && x.w <= n && Good(n, t, y) && Busy(x, id, data, y) && Enabled(n, y, LoadWrite)
    ensures var z := Do(n, t, y, LoadWrite);
            if Min(|data|, t) <= Capacity(n, x.r, x.w) then Busy(x, id, data, z) else Settled(n, t, x, id, data, z)
  {
    WriteVerdict(n, t, x.r, x.w, |data|);
  }

  lemma PublicationSettles(n: nat, t: nat, x: State, id: nat, data: seq<Byte>, y: State)
    requires x.r < n && x.w <= n && Good(n, t, y) && Busy(x, id, data, y) && Enabled(n, y, Publish)
    ensures Settled(n, t, x, id, data, Do(n, t, y, Publish))
  {
    var p := y.writer.plan;
    WriteVerdict(n, t, x.r, x.w, |data|);
    PublishKeeps(n, t, y);
    assert Do(n, t, y, Publish) == y.(w := Next(p), writer := WriterIdle,
                                      accepted := y.accepted + [Record(id, data[..Total(p)])],
                                      published := y.published + Records(p, id, data));
    RecordsExtend(y.published, p, id, data);
    OffsetMoves(n, x.r, x.w, p);
  }

  lemma RecordsExtend(before: seq<Record>, p: Plan, id: nat, data: seq<Byte>)
    requires p.Accept? && Total(p) <= |data|
    ensures Extends(before, before + Records(p, id, data), id, data[..Total(p)])
  {
    StreamAppend(before, Records(p, id, data), id);
    StreamOfRecords(p, id, data, id);
  }

  /** Publishing never stores the write offset that was there. */
  lemma OffsetMoves(n: nat, s: nat, w: nat, p: Plan)
    requires WellPlaced(n, s, w, p)
    ensures Next(p) != w
  {
  }

  lemma BusyStep(n: nat, t: nat, x: State, id: nat, data: seq<Byte>, y: State, a: Action)
    requires x.r < n && x.w <= n && Good(n, t, y) && Busy(x, id, data, y)
    requires Enabled(n, y, a) && !a.Begin? && !WouldPark(n, y, a)
    ensures Busy(x, id, data, Do(n, t, y, a)) || Settled(n, t, x, id, data, Do(n, t, y, a))
  {
    match a
    case LoadWrite => DecisionSettles(n, t, x, id, data, y);
    case StoreOne => StoreOneKeeps(n, t, y);
    case StoreTwo => StoreTwoKeeps(n, t, y);
    case Publish => PublicationSettles(n, t, x, id, data, y);
    case _ =>
  }

  /** Begin is the only step of an idle writer; the reader changes nothing that a message is judged by. */
  lemma SettledStep(n: nat, t: nat, x: State, id: nat, data: seq<Byte>, y: State, a: Action)
    requires x.r < n && x.w <= n && Settled(n, t, x, id, data, y) && Enabled(n, y, a) && !a.Begin?
    ensures Settled(n, t, x, id, data, Do(n, t, y, a))
  {
  }

  lemma {:induction false} MessageGoesOn(n: nat, t: nat, x: State, id: nat, data: seq<Byte>, y: State, acts: seq<Action>)
    requires x.r < n && x.w <= n && Good(n, t, y) && Legal(n, t, y, acts) && NeverParks(n, t, y, acts)
    requires forall i :: 0 <= i < |acts| ==> !acts[i].Begin?
    requires Busy(x, id, data, y) || Settled(n, t, x, id, data, y)
    ensures var z := Run(n, t, y, acts); Busy(x, id, data, z) || Settled(n, t, x, id, data, z)
    decreases |acts|
  {
    if acts == [] {
    } else {
      StepRefines(n, t, y, acts[0]);
      if Busy(x, id, data, y) {
        BusyStep(n, t, x, id, data, y, acts[0]);
      } else {
        SettledStep(n, t, x, id, data, y, acts[0]);
      }
      MessageGoesOn(n, t, x, id, data, Do(n, t, y, acts[0]), acts[1..]);
    }
  }

  /**
   * From every state that keeps the invariant: a message that the writer begins is, whatever the
   * reader does meanwhile under the guard, accepted and published as far as it fits, or refused if
   * less than min(size, threshold) fits; the space is that between the offsets when it began. It stays
   * with the writer until then, and WriterMoves says that the writer gets there.
   */
  lemma MessageIsSettled(n: nat, t: nat, x: State, id: nat, data: seq<Byte>, acts: seq<Action>)
    requires Good(n, t, x) && Enabled(n, x, Begin(id, data))
    requires var y := Do(n, t, x, Begin(id, data)); Legal(n, t, y, acts) && NeverParks(n, t, y, acts)
    requires forall i :: 0 <= i < |acts| ==> !acts[i].Begin?
    ensures var z := Run(n, t, Do(n, t, x, Begin(id, data)), acts);
            if z.writer.WriterIdle? then Settled(n, t, x, id, data, z) else Busy(x, id, data, z)
  {
    BeginRefines(n, t, x, Begin(id, data));
    MessageGoesOn(n, t, x, id, data, Do(n, t, x, Begin(id, data)), acts);
  }

  // ---- A short message through an empty channel -------------------------------------------------

  ghost predicate StepsTo(n: nat, t: nat, x: State, a: Action, y: State) {
    Enabled(n, x, a) && y == Do(n, t, x, a)
  }

  /** A message of at most 56 bytes, written while the reader rests. */
  lemma WriteShort(n: nat, t: nat, x: State, id: nat, data: seq<Byte>) returns (x1: State, x2: State, x3: State, y: State)
    requires Good(n, t, x) && x.writer.WriterIdle? && x.r == x.w
    requires 1 <= id < WORD && 1 <= |data| <= CACHE_LINE - HEADER
    ensures StepsTo(n, t, x, Begin(id, data), x1) && StepsTo(n, t, x1, LoadWrite, x2)
    ensures StepsTo(n, t, x2, StoreOne, x3) && StepsTo(n, t, x3, Publish, y)
    ensures x3.writer.StoredFirst? && x3.writer.id == id && x3.writer.data == data
    ensures Good(n, t, y)
    ensures y == x.(mem := y.mem, w := y.w, accepted := x.accepted + [Record(id, data)], published := x.published + [Record(id, data)])
    ensures y.w != y.r && Unread(n, y.mem, y.r, y.w) == [Record(id, data)]
  {
    x1 := Do(n, t, x, Begin(id, data));
    BeginRefines(n, t, x, Begin(id, data));
    EmptyChannelAccepts(n, t, x.w, |data|);
    SmallWriteIsWhole(n, t, x.r, x.w, |data|);
    var p := PlanWrite(n, t, x.r, x.w, |data|);
    x2 := Do(n, t, x1, LoadWrite);
    LoadWriteKeeps(n, t, x1);
    assert x2.writer == Decided(id, data, x.r, p);
    x3 := Do(n, t, x2, StoreOne);
    StoreOneKeeps(n, t, x2);
    y := Do(n, t, x3, Publish);
    ShortPublished(n, t, x, x3, id, data, p);
  }

  lemma ShortPublished(n: nat, t: nat, x: State, z: State, id: nat, data: seq<Byte>, p: Plan)
    requires Good(n, t, z) && x.r == x.w && p.Accept? && p.head == |data| && p.rest == 0
    requires z == x.(mem := z.mem, writer := StoredFirst(id, data, x.r, p)) && x.writer.WriterIdle?
    ensures Enabled(n, z, Publish)
    ensures var y := Do(n, t, z, Publish);
            && Good(n, t, y)
            && y == x.(mem := y.mem, w := y.w, accepted := x.accepted + [Record(id, data)], published := x.published + [Record(id, data)])
            && y.w != y.r && Unread(n, y.mem, y.r, y.w) == [Record(id, data)]
  {
    PublishKeeps(n, t, z);
    HeadRecord(n, z.mem, z.r, z.w);
    OffsetMoves(n, x.r, x.w, p);
    assert data[..|data|] == data;
  }
}
