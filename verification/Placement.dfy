/**
 * Where Channel::write places a message, decided from the write offset and a possibly stale
 * snapshot of the read offset.
 */
module Placement {
  import opened Bytes
  import opened Ring

  /** Buffer size and write threshold for which the channel's promises hold. */
  ghost predicate Params(n: nat, t: nat) {
    Geometry(n) && 1 <= t <= n - 80
  }

  /** A legal pair of offsets; `s` may be an old value of the read offset. */
  ghost predicate Offsets(n: nat, s: nat, w: nat) {
    Aligned(s) && s < n && Aligned(w) && w <= n
  }

  /**
   * The read offset may have moved from `s` to `r`, by consumes that do not park, while the write
   * offset stayed at `w`.
   */
  ghost predicate Reach(s: nat, r: nat, w: nat) {
    if s <= w then s <= r <= w else s <= r || r <= w
  }

  /**
   * `head` bytes go to a record at `at`; if `rest` is positive that record ends the buffer and
   * `rest` more bytes go to a record at 0.
   */
  datatype Plan = Again | Fault | Accept(at: nat, head: nat, rest: nat)

  function WithPadding(offset: nat): nat {
    if offset >= CACHE_LINE then offset - CACHE_LINE else 0
  }

  function DataSize(size: nat): nat {
    if size >= CACHE_LINE then size - HEADER else 0
  }

  /** The decision of Channel::write, branch by branch. */
  function PlanWrite(n: nat, t: nat, s: nat, w: nat, size: nat): Plan
    requires s < n && w <= n < WORD
  {
    if w == n && s == 0 then Again
    else if w != n && WrapSub(s, w) == CACHE_LINE then Again
    else
      var e := if w == n then 0 else w;
      if e >= s then
        var first := Min(size, DataSize(n - e));
        var second := Min(size - first, DataSize(WithPadding(s)));
        if first + second < Min(size, t) then if s == e then Fault else Again
        else Accept(e, first, second)
      else
        var second := Min(size, DataSize(WithPadding(s - e)));
        if second < Min(size, t) then Again
        else Accept(e, second, 0)
  }

  function Total(p: Plan): nat
    requires p.Accept?
  {
    p.head + p.rest
  }

  /** The write offset to publish. */
  function Next(p: Plan): nat
    requires p.Accept?
  {
    if p.rest > 0 then Span(p.rest) else p.at + Span(p.head)
  }

  /** The records a plan makes out of an accepted message. */
  function Records(p: Plan, id: nat, data: seq<Byte>): seq<Record>
    requires p.Accept? && Total(p) <= |data|
  {
    if p.rest > 0 then [Record(id, data[..p.head]), Record(id, data[p.head..Total(p)])]
    else [Record(id, data[..p.head])]
  }

  lemma StreamOfOne(rec: Record, any: nat)
    ensures Stream([rec], any) == if rec.id == any then rec.payload else []
  {
    assert [rec][..0] == [];
  }

  /** The records of an accepted message carry its accepted prefix. */
  lemma StreamOfRecords(p: Plan, id: nat, data: seq<Byte>, any: nat)
    requires p.Accept? && Total(p) <= |data|
    ensures Stream(Records(p, id, data), any) == if any == id then data[..Total(p)] else []
  {
    var recs := Records(p, id, data);
    StreamOfOne(recs[0], any);
    if p.rest > 0 {
      assert recs == [recs[0]] + [recs[1]];
      StreamAppend([recs[0]], [recs[1]], any);
      StreamOfOne(recs[1], any);
      assert data[..p.head] + data[p.head..Total(p)] == data[..Total(p)];
    }
  }

  lemma RecordsCarryPrefix(p: Plan, id: nat, data: seq<Byte>, any: nat)
    requires p.Accept? && Total(p) <= |data|
    ensures Stream(Records(p, id, data), any) == Stream([Record(id, data[..Total(p)])], any)
  {
    StreamOfRecords(p, id, data, any);
    StreamOfOne(Record(id, data[..Total(p)]), any);
  }

  // ---- What a write accepts ---------------------------------------------------------------------

  /** Payload that one record can carry in a free gap of `gap` bytes. */
  function GapPayload(gap: nat): nat {
    if gap == 0 then 0 else gap - Min(gap, HEADER)
  }

  /**
   * Payload that fits in the free lines when one line before the read offset stays unused: one gap
   * between the offsets, or one gap up to the end of the buffer and one from its start.
   */
  function Capacity(n: nat, s: nat, w: nat): nat
    requires s < n && w <= n
  {
    if w < s then GapPayload(WithPadding(s - w))
    else GapPayload(n - w) + GapPayload(WithPadding(s))
  }

  /** A write is refused exactly if less than min(size, threshold) fits, else it takes all that fits. */
  lemma WriteVerdict(n: nat, t: nat, s: nat, w: nat, size: nat)
    requires Params(n, t) && Offsets(n, s, w) && 1 <= size
    ensures var p := PlanWrite(n, t, s, w, size);
            && (p.Again? <==> Capacity(n, s, w) < Min(size, t))
            && (p.Accept? <==> Min(size, t) <= Capacity(n, s, w))
            && (p.Accept? ==> Total(p) == Min(size, Capacity(n, s, w)) && Min(size, t) <= Total(p) <= size)
  {
    if w < s {
      AlignedDifference(s, w);
    } else if w < n {
      AlignedDifference(n, w);
    }
  }

  /** No internal error from a write, and a write into an empty channel goes through. */
  lemma EmptyChannelAccepts(n: nat, t: nat, w: nat, size: nat)
    requires Params(n, t) && Offsets(n, w, w) && 1 <= size
    ensures PlanWrite(n, t, w, w, size).Accept?
  {
  }

  /** Beyond n - 80 the threshold is too high: an empty channel at offset 128 makes write fail hard. */
  lemma ThresholdBoundIsTight(n: nat, t: nat, size: nat)
    requires Geometry(n) && 1 <= t && 1 <= size
    ensures (forall w: nat :: Offsets(n, w, w) && w < n ==> !PlanWrite(n, t, w, w, size).Fault?) <==> Min(size, t) <= n - 80
  {
    if Min(size, t) > n - 80 {
      assert Offsets(n, 128, 128) && PlanWrite(n, t, 128, 128, size).Fault?;
    }
  }

  // ---- Where a write goes -----------------------------------------------------------------------

  /** Bytes a plan may write, with the padding up to the next cache line. */
  ghost predicate Touches(p: Plan, i: int)
    requires p.Accept?
  {
    p.at <= i < p.at + Span(p.head) || (p.rest > 0 && 0 <= i < Span(p.rest))
  }

  /**
   * Both records start and end on cache lines inside the buffer. A second one is there only if the
   * first ends the buffer, and whatever comes to lie before the read offset stays a line away from it.
   */
  ghost predicate WellPlaced(n: nat, s: nat, w: nat, p: Plan) {
    && Geometry(n) && Offsets(n, s, w) && p.Accept?
    && p.at == (if w == n then 0 else w)
    && 1 <= p.head && p.at + Span(p.head) <= n
    && Aligned(Next(p)) && 0 < Next(p) <= n
    && (if p.rest > 0 then s <= w < n && p.at + Span(p.head) == n && Next(p) <= s - CACHE_LINE
        else s <= w < n || Next(p) <= s - CACHE_LINE)
  }

  /** A record that fits between two line boundaries ends before the second, or on it if it fills the gap. */
  lemma SpanBetween(lo: nat, hi: nat, size: nat)
    requires Aligned(lo) && Aligned(hi) && lo + HEADER + size <= hi
    ensures lo + Span(size) <= hi
    ensures lo + HEADER + size == hi ==> lo + Span(size) == hi
  {
  }

  lemma SpanBeforeLine(lo: nat, hi: nat, size: nat)
    requires Aligned(lo) && Aligned(hi) && lo + HEADER + size + CACHE_LINE <= hi
    ensures lo + Span(size) + CACHE_LINE <= hi
  {
  }

  lemma AlignedDifference(a: nat, b: nat)
    requires Aligned(a) && Aligned(b) && b < a
    ensures Aligned(a - b) && CACHE_LINE <= a - b
  {
  }

  /** Which of its branches a write took, without the branches. */
  lemma PlanCases(n: nat, t: nat, s: nat, w: nat, size: nat)
    requires Params(n, t) && Offsets(n, s, w) && 1 <= size
    requires PlanWrite(n, t, s, w, size).Accept?
    ensures var p := PlanWrite(n, t, s, w, size);
            && p.at == (if w == n then 0 else w) && 1 <= p.head
            && (p.rest > 0 ==> s <= w < n && HEADER + p.head == n - w && HEADER + p.rest <= s - CACHE_LINE)
            && (p.rest == 0 && p.at < s ==> HEADER + p.head <= s - p.at - CACHE_LINE)
            && (p.rest == 0 && s <= p.at ==> p.at == w < n && HEADER + p.head <= n - w)
  {
    var e := if w == n then 0 else w;
    AlignedDifference(n, e);
  }

  /** Every accepted write is well placed. */
  lemma PlanShape(n: nat, t: nat, s: nat, w: nat, size: nat)
    requires Params(n, t) && Offsets(n, s, w) && 1 <= size
    requires PlanWrite(n, t, s, w, size).Accept?
    ensures WellPlaced(n, s, w, PlanWrite(n, t, s, w, size))
  {
    PlanCases(n, t, s, w, size);
    var p := PlanWrite(n, t, s, w, size);
    AlignedAfter(p.at, p.head);
    AlignedAfter(0, p.rest);
    ShapeFromCases(n, s, w, p.at, p.head, p.rest);
  }

  lemma ShapeFromCases(n: nat, s: nat, w: nat, at: nat, head: nat, rest: nat)
    requires Geometry(n) && Offsets(n, s, w) && at == (if w == n then 0 else w)
    requires rest > 0 ==> s <= w < n && HEADER + head == n - w && HEADER + rest <= s - CACHE_LINE
    requires rest == 0 && at < s ==> HEADER + head <= s - at - CACHE_LINE
    requires rest == 0 && s <= at ==> at == w < n && HEADER + head <= n - w
    ensures at + Span(head) <= n
    ensures rest > 0 ==> at + Span(head) == n && Span(rest) <= s - CACHE_LINE
    ensures rest == 0 ==> s <= w < n || at + Span(head) <= s - CACHE_LINE
  {
    if rest > 0 {
      SpanBetween(w, n, head);
      SpanBeforeLine(0, s, rest);
    } else if at < s {
      SpanBeforeLine(at, s, head);
    } else {
      SpanBetween(w, n, head);
    }
  }

  /** What write checks after it has stored the records: none of its internal errors is raised. */
  ghost predicate PassesChecks(n: nat, s: nat, p: Plan, size: nat)
    requires p.Accept?
  {
    && (p.rest > 0 ==> p.at + Span(p.head) == n)
    && Next(p) % CACHE_LINE == 0 && Next(p) <= n
    && 1 <= Total(p) <= size
    && (p.at < s ==> Next(p) < s)
  }

  lemma EndChecks(n: nat, s: nat, w: nat, p: Plan)
    requires WellPlaced(n, s, w, p)
    ensures forall size :: Total(p) <= size ==> PassesChecks(n, s, p, size)
    ensures p.at < s ==> p.rest == 0
  {
  }

  lemma AlignedPlan(n: nat, s: nat, w: nat, p: Plan)
    requires WellPlaced(n, s, w, p)
    ensures Aligned(p.at) && p.at + HEADER + p.head <= n && HEADER + p.rest <= n
    ensures p.rest > 0 ==> Span(p.rest) <= n
  {
  }

  /** What is planned on a stale snapshot stays off the bytes that are unread now. */
  lemma AvoidsLive(n: nat, s: nat, r: nat, w: nat, p: Plan, i: int)
    requires WellPlaced(n, s, w, p) && Offsets(n, r, w) && Reach(s, r, w) && Touches(p, i)
    ensures !Live(n, r, w, i)
  {
  }

  /** A write of at most 56 bytes is one record or nothing. */
  lemma SmallWriteIsWhole(n: nat, t: nat, s: nat, w: nat, size: nat)
    requires Params(n, t) && Offsets(n, s, w) && 1 <= size <= CACHE_LINE - HEADER
    ensures var p := PlanWrite(n, t, s, w, size);
            p.Again? || (p.Accept? && p.head == size && p.rest == 0)
  {
  }

  /** After a short write nothing more is accepted until a consume. */
  lemma ShortWriteSaturates(n: nat, t: nat, s: nat, w: nat, size: nat, more: nat)
    requires Params(n, t) && Offsets(n, s, w) && 1 <= size && 1 <= more
    requires var p := PlanWrite(n, t, s, w, size); p.Accept? && Total(p) < size
    ensures var p := PlanWrite(n, t, s, w, size);
            Next(p) <= n && PlanWrite(n, t, s, Next(p), more).Again?
  {
    PlanShape(n, t, s, w, size);
    var p := PlanWrite(n, t, s, w, size);
    assert Capacity(n, s, Next(p)) == 0;
  }

  /** The effect of storing the records of a plan. */
  function StoreFirst(mem: seq<Byte>, p: Plan, id: nat, data: seq<Byte>): (m: seq<Byte>)
    requires p.Accept? && Total(p) <= |data| && id < WORD && p.head < WORD && p.at + HEADER + p.head <= |mem|
    ensures |m| == |mem|
  {
    Store(mem, p.at, Record(id, data[..p.head]))
  }

  function StoreSecond(mem: seq<Byte>, p: Plan, id: nat, data: seq<Byte>): (m: seq<Byte>)
    requires p.Accept? && Total(p) <= |data| && id < WORD && p.rest < WORD && HEADER + p.rest <= |mem|
    ensures |m| == |mem|
  {
    if p.rest > 0 then Store(mem, 0, Record(id, data[p.head..Total(p)])) else mem
  }

  /** The first record of a plan is in memory. */
  ghost predicate FirstPlaced(n: nat, mem: seq<Byte>, p: Plan, id: nat, data: seq<Byte>)
    requires p.Accept? && Total(p) <= |data|
  {
    Fits(mem, p.at, n) && SizeAt(mem, p.at) == p.head && RecordAt(mem, p.at) == Record(id, data[..p.head])
  }

  ghost predicate SecondPlaced(n: nat, mem: seq<Byte>, p: Plan, id: nat, data: seq<Byte>)
    requires p.Accept? && Total(p) <= |data|
  {
    p.rest > 0 ==> Fits(mem, 0, n) && SizeAt(mem, 0) == p.rest && RecordAt(mem, 0) == Record(id, data[p.head..Total(p)])
  }

  /** Storing outside the unread bytes leaves the queue alone. */
  lemma StoreOffLive(n: nat, mem: seq<Byte>, r: nat, w: nat, off: nat, rec: Record)
    requires Inv(n, mem, r, w)
    requires rec.id < WORD && |rec.payload| < WORD && off + HEADER + |rec.payload| <= n
    requires forall i :: off <= i < off + HEADER + |rec.payload| ==> !Live(n, r, w, i)
    ensures Inv(n, Store(mem, off, rec), r, w) && Unread(n, Store(mem, off, rec), r, w) == Unread(n, mem, r, w)
  {
    InvFrame(n, mem, Store(mem, off, rec), r, w);
  }

  /** Storing the first record leaves the unread records alone. */
  lemma FirstStoreKeeps(n: nat, mem: seq<Byte>, s: nat, r: nat, w: nat, p: Plan, id: nat, data: seq<Byte>)
    requires WellPlaced(n, s, w, p) && Reach(s, r, w) && Total(p) <= |data| && id < WORD
    requires Inv(n, mem, r, w)
    ensures var m := StoreFirst(mem, p, id, data);
            && Inv(n, m, r, w) && Unread(n, m, r, w) == Unread(n, mem, r, w)
            && FirstPlaced(n, m, p, id, data)
  {
    var rec := Record(id, data[..p.head]);
    forall i | p.at <= i < p.at + HEADER + |rec.payload| ensures !Live(n, r, w, i) {
      AvoidsLive(n, s, r, w, p, i);
    }
    StoreOffLive(n, mem, r, w, p.at, rec);
    StoreRoundTrip(mem, p.at, rec);
  }

  /** Storing the second record leaves the unread records and the first record alone. */
  lemma SecondStoreKeeps(n: nat, mem: seq<Byte>, s: nat, r: nat, w: nat, p: Plan, id: nat, data: seq<Byte>)
    requires WellPlaced(n, s, w, p) && Reach(s, r, w) && Total(p) <= |data| && id < WORD
    requires Inv(n, mem, r, w) && FirstPlaced(n, mem, p, id, data)
    ensures HEADER + p.rest <= n
    ensures var m := StoreSecond(mem, p, id, data);
            && Inv(n, m, r, w) && Unread(n, m, r, w) == Unread(n, mem, r, w)
            && FirstPlaced(n, m, p, id, data) && SecondPlaced(n, m, p, id, data)
  {
    if p.rest > 0 {
      var rec := Record(id, data[p.head..Total(p)]);
      forall i | 0 <= i < HEADER + |rec.payload| ensures !Live(n, r, w, i) {
        AvoidsLive(n, s, r, w, p, i);
      }
      StoreOffLive(n, mem, r, w, 0, rec);
      StoreRoundTrip(mem, 0, rec);
      FitsFrame(mem, Store(mem, 0, rec), p.at, n);
    }
  }

  /** Publishing the new write offset appends the placed records to the queue, whatever was consumed since. */
  lemma PublishAppends(n: nat, mem: seq<Byte>, s: nat, r: nat, w: nat, p: Plan, id: nat, data: seq<Byte>)
    requires WellPlaced(n, s, w, p) && Reach(s, r, w) && Total(p) <= |data|
    requires Inv(n, mem, r, w) && FirstPlaced(n, mem, p, id, data) && SecondPlaced(n, mem, p, id, data)
    ensures Inv(n, mem, r, Next(p))
    ensures Unread(n, mem, r, Next(p)) == Unread(n, mem, r, w) + Records(p, id, data)
    ensures r != Next(p)
  {
    WalkOne(mem, p.at, p.at + Span(p.head));
    if p.rest > 0 {
      WalkOne(mem, 0, Next(p));
      WalkAppend(mem, r, w, n);
    } else if w == n {
      assert Walk(mem, n, n) == [];
    } else if r <= w {
      WalkAppend(mem, r, w, Next(p));
    } else {
      WalkAppend(mem, 0, w, Next(p));
    }
  }

  /** Bytes outside the planned records are as they were. */
  ghost predicate OnlyTouched(n: nat, was: seq<Byte>, mem: seq<Byte>, p: Plan)
    requires p.Accept?
  {
    |was| == |mem| == n && forall i :: 0 <= i < n && !Touches(p, i) ==> mem[i] == was[i]
  }

  /** One store, or one and then another, places the records and touches nothing else. */
  lemma StoresPlace(n: nat, s: nat, w: nat, was: seq<Byte>, p: Plan, id: nat, data: seq<Byte>)
    requires WellPlaced(n, s, w, p) && Total(p) <= |data| && id < WORD && |was| == n
    ensures HEADER + p.rest <= n
    ensures var m := StoreSecond(StoreFirst(was, p, id, data), p, id, data);
            FirstPlaced(n, m, p, id, data) && SecondPlaced(n, m, p, id, data) && OnlyTouched(n, was, m, p)
  {
    var m1 := StoreFirst(was, p, id, data);
    StoreRoundTrip(was, p.at, Record(id, data[..p.head]));
    if p.rest > 0 {
      var rec := Record(id, data[p.head..Total(p)]);
      StoreRoundTrip(m1, 0, rec);
      FitsFrame(m1, Store(m1, 0, rec), p.at, n);
    }
  }

  /** Both stores and the publication, done at once. */
  lemma StoresPublish(n: nat, was: seq<Byte>, mem: seq<Byte>, r: nat, w: nat, p: Plan, id: nat, data: seq<Byte>)
    requires WellPlaced(n, r, w, p) && Total(p) <= |data| && Inv(n, was, r, w) && OnlyTouched(n, was, mem, p)
    requires FirstPlaced(n, mem, p, id, data) && SecondPlaced(n, mem, p, id, data)
    ensures Inv(n, mem, r, Next(p))
    ensures Unread(n, mem, r, Next(p)) == Unread(n, was, r, w) + Records(p, id, data)
  {
    forall i | 0 <= i < n && Live(n, r, w, i) ensures mem[i] == was[i] {
      if Touches(p, i) {
        AvoidsLive(n, r, r, w, p, i);
      }
    }
    InvFrame(n, was, mem, r, w);
    PublishAppends(n, mem, r, r, w, p, id, data);
  }

  /** Since its last wrap the writer has tiled the buffer from 0 up to the write offset; a write keeps that. */
  lemma StoresExtendLap(n: nat, was: seq<Byte>, mem: seq<Byte>, r: nat, w: nat, p: Plan, id: nat, data: seq<Byte>)
    requires WellPlaced(n, r, w, p) && Total(p) <= |data| && Tiled(was, 0, w) && OnlyTouched(n, was, mem, p)
    requires FirstPlaced(n, mem, p, id, data) && SecondPlaced(n, mem, p, id, data)
    ensures Tiled(mem, 0, Next(p))
  {
    if p.rest > 0 {
      WalkOne(mem, 0, Next(p));
    } else {
      WalkOne(mem, p.at, Next(p));
      if w != n {
        WalkFrame(was, mem, 0, w);
        WalkAppend(mem, 0, w, Next(p));
      }
    }
  }

  // ---- available_write and can_write ------------------------------------------------------------

  const SPLIT_THRESHOLD := 4 * CACHE_LINE

  function AvailableWrite(n: nat, r: nat, w: nat): int
    requires r < n && w <= n
  {
    if w < r then r - w - CACHE_LINE
    else
      var tail := n - w;
      if tail >= SPLIT_THRESHOLD then
        if tail + r <= CACHE_LINE then 0 else tail + r - CACHE_LINE
      else if r <= CACHE_LINE then tail
      else if tail >= r - CACHE_LINE then tail else r - CACHE_LINE
  }

  function CanWrite(n: nat, r: nat, w: nat, size: nat): bool
    requires r < n && w <= n
  {
    AvailableWrite(n, r, w) >= Span(size) + CACHE_LINE
  }

  /** If can_write said yes, a later write takes the whole message, however much was consumed since. */
  lemma CanWriteStaysSound(n: nat, t: nat, r: nat, later: nat, w: nat, size: nat)
    requires Params(n, t) && Offsets(n, r, w) && Offsets(n, later, w) && Reach(r, later, w) && 1 <= size
    requires CanWrite(n, r, w, size)
    ensures var p := PlanWrite(n, t, later, w, size); p.Accept? && Total(p) == size
  {
  }

  /**
   * can_write says yes exactly if the record and two lines fit between the offsets; or, once they have
   * crossed, into both gaps together if the one at the end of the buffer is long enough to split, and
   * else the record and one line into that gap, or two lines into the other.
   */
  lemma CanWriteMeans(n: nat, r: nat, w: nat, size: nat)
    requires Geometry(n) && Offsets(n, r, w)
    ensures CanWrite(n, r, w, size) <==>
              if w < r then w + Span(size) + 2 * CACHE_LINE <= r
              else if w + SPLIT_THRESHOLD <= n then w + Span(size) + 2 * CACHE_LINE <= n + r
              else w + Span(size) + CACHE_LINE <= n || Span(size) + 2 * CACHE_LINE <= r
  {
  }

  /**
   * can_write is not needlessly strict: if it says no, less than two lines more than the message are
   * free, or the space is in two parts of which available_write reports only the larger.
   */
  lemma CanWriteRefuses(n: nat, r: nat, w: nat, size: nat)
    requires Geometry(n) && Offsets(n, r, w) && !CanWrite(n, r, w, size)
    ensures if w < r || n - w >= SPLIT_THRESHOLD then Capacity(n, r, w) < size + 2 * CACHE_LINE
            else Capacity(n, r, w) < 2 * (size + 2 * CACHE_LINE)
  {
  }

  lemma AvailableWriteAligned(n: nat, r: nat, w: nat)
    requires Geometry(n) && Offsets(n, r, w)
    ensures Aligned(AvailableWrite(n, r, w))
  {
    AlignedSum(r, w);
    AlignedSum(n, w);
    AlignedSum(r, CACHE_LINE);
    AlignedSum(r - w, CACHE_LINE);
    AlignedSum(n - w, r);
    AlignedSum(n - w + r, CACHE_LINE);
  }

  lemma AlignedSum(a: int, b: int)
    requires Aligned(a) && Aligned(b)
    ensures Aligned(a + b) && Aligned(a - b)
  {
  }

  /** What available_write reports is close to what write can take, and within 16 bytes never less. */
  lemma AvailableWriteBounds(n: nat, r: nat, w: nat)
    requires Geometry(n) && Offsets(n, r, w)
    ensures 0 <= AvailableWrite(n, r, w) <= Capacity(n, r, w) + 2 * HEADER
    ensures Capacity(n, r, w) <= if w < r || n - w >= SPLIT_THRESHOLD then AvailableWrite(n, r, w) + CACHE_LINE - HEADER
                                 else 2 * AvailableWrite(n, r, w)
  {
    if w < r {
      AlignedDifference(r, w);
    } else if r != 0 {
      AlignedDifference(r, 0);
    }
    if w < n {
      AlignedDifference(n, w);
    }
  }

  /** A consume that does not park moves the read offset within Reach. */
  lemma ConsumeReaches(n: nat, mem: seq<Byte>, s: nat, r: nat, w: nat)
    requires Inv(n, mem, r, w) && r != w && r + HEADER <= n && !Parks(n, mem, r, w) && Reach(s, r, w) && s < n
    ensures Reach(s, AfterConsume(n, mem, r), w)
  {
    if r < w {
      ConsumeStraight(n, mem, r, w);
    } else {
      ConsumeTail(n, mem, r, w);
    }
  }
}
