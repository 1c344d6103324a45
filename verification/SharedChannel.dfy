/**
 * torrent::system::ipc::Channel: the ring in shared memory, with its offsets and its byte buffer
 * updated in place. Here each call runs on its own; Interleaving has the two sides take turns.
 */
module SharedChannel {
  import opened Bytes
  import opened Ring
  import opened Placement

  datatype WriteResult = InternalError | WouldBlock | Wrote(count: nat)

  datatype ReadResult = BadHeader | NoData | Header(offset: nat)

  /** align_size_to_cacheline with the wrap-around of uint32_t. */
  function AlignU32(size: U32): (r: U32) {
    WrapAdd(size, CACHE_LINE - 1) / CACHE_LINE * CACHE_LINE
  }

  /** Sound parameters, unread records in place, and records tiling everything since the last wrap. */
  ghost predicate ValidState(n: nat, t: nat, mem: seq<Byte>, r: nat, w: nat) {
    Params(n, t) && Inv(n, mem, r, w) && Tiled(mem, 0, w)
  }

  /** The queue that a state denotes, if it is valid. */
  datatype Denoted = Invalid | Queued(records: seq<Record>)

  ghost function Denotes(n: nat, t: nat, mem: seq<Byte>, r: nat, w: nat): Denoted {
    if ValidState(n, t, mem, r, w) then Queued(Unread(n, mem, r, w)) else Invalid
  }

  class Channel {
    var size: U32
    var writeThreshold: U32
    var readOffset: U32
    var writeOffset: U32
    var consumerState: U32
    const mem: array<Byte>

    // ---- What the fields denote -----------------------------------------------------------------

    /** Enough to keep every access inside the buffer. */
    ghost predicate Shape()
      reads `size, `readOffset, `writeOffset
    {
      && mem.Length == size && Geometry(size)
      && Offsets(size, readOffset, writeOffset)
    }

    ghost predicate Valid()
      reads `size, `writeThreshold, `readOffset, `writeOffset, mem
    {
      Shape() && ValidState(size, writeThreshold, mem[..], readOffset, writeOffset)
    }

    /** The published records that are not consumed. */
    ghost function Queue(): seq<Record>
      reads `size, `writeThreshold, `readOffset, `writeOffset, mem
      requires Valid()
    {
      Unread(size, mem[..], readOffset, writeOffset)
    }

    /** The records written since the writer last wrapped, consumed or not. */
    ghost function LastLap(): seq<Record>
      reads `size, `writeThreshold, `readOffset, `writeOffset, mem
      requires Valid()
    {
      Walk(mem[..], 0, writeOffset)
    }

    // ---- Initialization -------------------------------------------------------------------------

    /** A channel in a mapped segment: the header is zero, and nothing is known about the bytes. */
    constructor (raw: array<Byte>)
      ensures mem == raw
      ensures size == writeThreshold == readOffset == writeOffset == consumerState == 0
    {
      mem := raw;
      size, writeThreshold, readOffset, writeOffset, consumerState := 0, 0, 0, 0, 0;
    }

    /**
     * `segment` is the size of the mapping and `address` where it lies; the fields take one cache line
     * of it and the bytes the rest.
     */
    method Initialize(address: nat, segment: U32) returns (ok: bool)
      modifies this
      ensures ok <==> Aligned(address) && Aligned(address + CACHE_LINE) && segment != 0 && Aligned(segment)
      ensures !ok ==> unchanged(this)
      ensures ok ==> size == segment - CACHE_LINE && readOffset == writeOffset == consumerState == 0
      ensures ok ==> Aligned(writeThreshold) && size / 8 <= writeThreshold < size / 8 + CACHE_LINE
      ensures ok && mem.Length == size && Geometry(size) ==> Valid() && Queue() == []
    {
      if address % CACHE_LINE != 0 {
        return false;
      }
      if (address + CACHE_LINE) % CACHE_LINE != 0 {
        return false;
      }
      if segment == 0 || segment % CACHE_LINE != 0 {
        return false;
      }
      size := segment - CACHE_LINE;
      writeThreshold := AlignU32(size / 8);
      readOffset, writeOffset, consumerState := 0, 0, 0;
      if Geometry(size) {
        DefaultThreshold(size);
      }
      return true;
    }

    /** Any threshold may be set; the ones that keep the channel valid are those of Params. */
    method SetWriteThreshold(threshold: U32)
      requires Valid()
      modifies this`writeThreshold
      ensures writeThreshold == threshold
      ensures Valid() <==> 1 <= threshold <= size - 80
      ensures Valid() ==> Queue() == old(Queue())
    {
      writeThreshold := threshold;
    }

    // ---- Space ----------------------------------------------------------------------------------

    method AvailableWriteBytes() returns (space: U32)
      requires Shape()
      ensures space == AvailableWrite(size, readOffset, writeOffset)
    {
      var endOffset: U32 := writeOffset;
      var startOffset: U32 := readOffset;
      if endOffset < startOffset {
        AlignedDifference(startOffset, endOffset);
        return startOffset - endOffset - CACHE_LINE;
      }
      var tailSpace: U32 := size - endOffset;
      var headSpace: U32 := startOffset;
      if tailSpace >= SPLIT_THRESHOLD {
        var splitSpace: U32 := tailSpace + headSpace;
        if splitSpace <= CACHE_LINE {
          assert false;
        }
        return splitSpace - CACHE_LINE;
      }
      if headSpace <= CACHE_LINE {
        return tailSpace;
      }
      var rest: U32 := headSpace - CACHE_LINE;
      return if tailSpace >= rest then tailSpace else rest;
    }

    /**
     * A yes is right, and stays right, exactly if want + 135 does not reach 2^32. Beyond that the sum
     * in the code wraps: it asks for no more than two lines, while no buffer can take the message.
     */
    method CanWriteBytes(want: U32) returns (yes: bool)
      requires Shape()
      ensures want + 135 < WORD ==> yes == CanWrite(size, readOffset, writeOffset, want)
      ensures want + 135 >= WORD ==> yes == (AvailableWrite(size, readOffset, writeOffset) >= WrappedNeed(want))
      ensures Valid() && yes && 1 <= want ==>
                var p := PlanWrite(size, writeThreshold, readOffset, writeOffset, want);
                (p.Accept? && Total(p) == want) <==> want + 135 < WORD
    {
      var space := AvailableWriteBytes();
      yes := space >= WrapAdd(AlignU32(WrapAdd(HEADER, want)), CACHE_LINE);
      NeedOfWrite(want);
      if Valid() && yes && 1 <= want {
        if want + 135 < WORD {
          CanWriteStaysSound(size, writeThreshold, readOffset, readOffset, writeOffset, want);
        } else {
          TooBigForAny(size, writeThreshold, readOffset, writeOffset, want);
        }
      }
    }

    // ---- Writing --------------------------------------------------------------------------------

    method StoreWord(offset: U32, value: U32)
      requires offset + 4 <= mem.Length
      modifies mem
      ensures mem[..] == Put(old(mem[..]), offset, Encode(value))
    {
      ghost var was := mem[..];
      var bytes := Encode(value);
      mem[offset] := bytes[0];
      mem[offset + 1] := bytes[1];
      mem[offset + 2] := bytes[2];
      mem[offset + 3] := bytes[3];
      assert mem[..] == Put(was, offset, bytes);
    }

    method CopyBytes(offset: U32, data: array<Byte>, from: nat, count: U32)
      requires data != mem && from + count <= data.Length && offset + count <= mem.Length
      modifies mem
      ensures mem[..] == Put(old(mem[..]), offset, data[from..from + count])
    {
      ghost var was := mem[..];
      var k := 0;
      while k < count
        invariant 0 <= k <= count
        invariant mem[..] == Put(was, offset, data[from..from + k])
      {
        mem[offset + k] := data[from + k];
        k := k + 1;
        assert data[from..from + k] == data[from..from + k - 1] + [data[from + k - 1]];
      }
    }

    /** Returns the offset after the record, on the next cache line. */
    method WriteToHeader(id: U32, offset: U32, count: U32, data: array<Byte>, from: nat, ghost rec: Record) returns (next: U32)
      requires data != mem && from + count <= data.Length && rec == Record(id, data[from..from + count])
      requires Aligned(offset) && offset + Span(count) <= mem.Length < 0x8000_0000
      modifies mem
      ensures mem[..] == Store(old(mem[..]), offset, rec)
      ensures next == offset + Span(count)
    {
      ghost var was := mem[..];
      StoreWord(offset + 4, id);
      StoreWord(offset, count);
      CopyBytes(offset + HEADER, data, from, count);
      PutThrice(was, offset, Encode(count), Encode(id), rec.payload);
      AlignedSpan(offset, count);
      var last: U32 := offset + HEADER + count;
      next := AlignU32(last);
    }

    /** The first half of a write: how much goes where. */
    method Decide(count: U32) returns (plan: Plan)
      requires Shape() && Params(size, writeThreshold) && 1 <= count
      ensures plan == PlanWrite(size, writeThreshold, readOffset, writeOffset, count)
      ensures !plan.Fault?
      ensures plan.Again? <==> Capacity(size, readOffset, writeOffset) < Min(count, writeThreshold)
      ensures plan.Accept? ==> Total(plan) == Min(count, Capacity(size, readOffset, writeOffset))
    {
      var startOffset: U32 := readOffset;
      var endOffset: U32 := writeOffset;
      var firstSize: U32, secondSize: U32 := 0, 0;
      WriteVerdict(size, writeThreshold, startOffset, endOffset, count);

      if endOffset == size {
        if startOffset == 0 {
          return Again;
        }
        endOffset := 0;
      } else {
        if WrapSub(startOffset, endOffset) == CACHE_LINE {
          return Again;
        }
      }

      if endOffset >= startOffset {
        firstSize := Min(count, DataSize(size - endOffset));
        secondSize := Min(count - firstSize, DataSize(WithPadding(startOffset)));
        if firstSize + secondSize < Min(count, writeThreshold) {
          if startOffset == endOffset {
            assert false;
          }
          return Again;
        }
        return Accept(endOffset, firstSize, secondSize);
      } else {
        secondSize := Min(count, DataSize(WithPadding(startOffset - endOffset)));
        if secondSize < Min(count, writeThreshold) {
          return Again;
        }
        return Accept(endOffset, secondSize, 0);
      }
    }

    /** The second half: stores the records and returns the offset behind the last one. */
    method StoreRecords(id: U32, plan: Plan, data: array<Byte>, ghost message: seq<Byte>) returns (endOffset: U32)
      requires size == mem.Length && WellPlaced(size, readOffset, writeOffset, plan)
      requires data != mem && Total(plan) <= |message| <= data.Length && message == data[..|message|]
      modifies mem
      ensures HEADER + plan.rest <= size
      ensures mem[..] == StoreSecond(StoreFirst(old(mem[..]), plan, id, message), plan, id, message)
      ensures endOffset == Next(plan)
    {
      AlignedPlan(size, readOffset, writeOffset, plan);
      ghost var first := Record(id, message[..plan.head]);
      ghost var second := Record(id, message[plan.head..Total(plan)]);
      assert data[0..0 + plan.head] == first.payload;
      endOffset := WriteToHeader(id, plan.at, plan.head, data, 0, first);
      if plan.rest > 0 {
        if endOffset != size {
          assert false;
        }
        assert data[plan.head..plan.head + plan.rest] == second.payload;
        endOffset := WriteToHeader(id, 0, plan.rest, data, plan.head, second);
      }
    }

    /** The internal errors that write can raise before it publishes the new offset: none is. */
    method CheckEnd(plan: Plan, endOffset: U32, count: U32)
      requires WellPlaced(size, readOffset, writeOffset, plan) && endOffset == Next(plan) && Total(plan) <= count
    {
      EndChecks(size, readOffset, writeOffset, plan);
      assert PassesChecks(size, readOffset, plan, count);
      var firstSize: U32 := if plan.at >= readOffset then plan.head else 0;
      var secondSize: U32 := if plan.at >= readOffset then plan.rest else plan.head;
      if endOffset % CACHE_LINE != 0 {
        assert false;
      }
      if endOffset > size {
        assert false;
      }
      if firstSize + secondSize == 0 {
        assert false;
      }
      if firstSize + secondSize > count {
        assert false;
      }
      if firstSize == 0 && endOffset >= readOffset {
        assert false;
      }
    }

    /** Stores the records and publishes them. None of the checks in between can fail. */
    method StoreAndPublish(id: U32, plan: Plan, data: array<Byte>, count: U32, ghost message: seq<Byte>)
      requires mem.Length == size && Denotes(size, writeThreshold, mem[..], readOffset, writeOffset).Queued?
      requires WellPlaced(size, readOffset, writeOffset, plan)
      requires data != mem && Total(plan) <= |message| == count <= data.Length && message == data[..count]
      modifies mem, this`writeOffset
      ensures writeOffset == Next(plan)
      ensures Denotes(size, writeThreshold, mem[..], readOffset, writeOffset)
           == Queued(Denotes(size, writeThreshold, old(mem[..]), readOffset, old(writeOffset)).records + Records(plan, id, message))
    {
      WriteEffect(size, writeThreshold, mem[..], readOffset, writeOffset, plan, id, message);
      ghost var after := StoreSecond(StoreFirst(mem[..], plan, id, message), plan, id, message);
      var endOffset := StoreRecords(id, plan, data, message);
      assert mem[..] == after;
      CheckEnd(plan, endOffset, count);
      writeOffset := endOffset;
    }

    /**
     * Refuses, or appends what fits to the queue as one or two records with the same id. None of
     * the checks at the end can fail.
     */
    method Write(id: U32, count: U32, data: array?<Byte>) returns (res: WriteResult)
      requires Valid()
      requires data != null ==> data != mem && count <= data.Length
      modifies mem, this`writeOffset
      ensures Valid()
      ensures res.InternalError? <==> id == 0 || data == null || count == 0
      ensures !res.InternalError? ==> (res.WouldBlock? <==> Capacity(size, readOffset, old(writeOffset)) < Min(count, writeThreshold))
      ensures !res.Wrote? ==> mem[..] == old(mem[..]) && writeOffset == old(writeOffset)
      ensures res.Wrote? ==>
                && res.count == Min(count, Capacity(size, readOffset, old(writeOffset)))
                && var p := PlanWrite(size, writeThreshold, readOffset, old(writeOffset), count);
                && p.Accept? && Total(p) == res.count <= count && writeOffset == Next(p)
                && Queue() == old(Queue()) + Records(p, id, data[..count])
    {
      res := InternalError;
      if id != 0 && data != null && count != 0 {
        var plan := Decide(count);
        res := WouldBlock;
        if plan.Accept? {
          PlanShape(size, writeThreshold, readOffset, writeOffset, count);
          StoreAndPublish(id, plan, data, count, data[..count]);
          res := Wrote(Total(plan));
        }
      }
    }

    // ---- Reading --------------------------------------------------------------------------------

    method LoadWord(offset: U32) returns (value: U32)
      requires offset + 4 <= mem.Length
      ensures value == WordAt(mem[..], offset)
    {
      NumberOfFour(mem[..][offset..offset + 4]);
      value := mem[offset] as int + 0x100 * (mem[offset + 1] as int) + 0x1_0000 * (mem[offset + 2] as int) + 0x100_0000 * (mem[offset + 3] as int);
    }

    method VerifyReadHeader(header: U32) returns (ok: bool)
      requires Shape() && header + HEADER <= size
      ensures ok <==> header == readOffset && HEADER + SizeAt(mem[..], header) <= size - header
    {
      if header != readOffset {
        return false;
      }
      var length := LoadWord(header);
      var room: U32 := size - header - HEADER;
      return length <= room;
    }

    /**
     * Finds the head of the queue. A padding mark sends the reader to the start of the buffer, if there
     * is data; a record that does not fit is an error. On a valid channel neither happens.
     */
    method ReadHeader() returns (res: ReadResult)
      requires Shape()
      modifies this`readOffset
      ensures Shape()
      ensures res.NoData? <==> old(readOffset) == writeOffset
      ensures old(readOffset) == writeOffset ==> readOffset == old(readOffset)
      ensures old(readOffset) != writeOffset ==>
                var r := old(readOffset);
                && r + HEADER <= size
                && if SizeAt(mem[..], r) != WORD - 1 then readOffset == r && (res.Header? <==> HEADER + SizeAt(mem[..], r) <= size - r)
                   else if r < writeOffset || writeOffset == 0 || SizeAt(mem[..], 0) == WORD - 1 then res.BadHeader? && readOffset == r
                   else readOffset == 0 && (res.Header? <==> HEADER + SizeAt(mem[..], 0) <= size)
      ensures res.Header? ==> res.offset == readOffset && HEADER + SizeAt(mem[..], readOffset) <= size - readOffset
      ensures old(Valid()) ==>
                && readOffset == old(readOffset) && Valid() && !res.BadHeader?
                && (res.NoData? <==> Queue() == [])
                && (res.Header? ==> Queue() != [] && RecordAt(mem[..], res.offset) == Queue()[0])
    {
      var startOffset: U32 := readOffset;
      var endOffset: U32 := writeOffset;
      if Valid() {
        HeadRecord(size, mem[..], startOffset, endOffset);
      }
      if startOffset == endOffset {
        return NoData;
      }
      AlignedDifference(size, startOffset);
      var header: U32 := startOffset;
      var length := LoadWord(header);
      if length == WORD - 1 {
        if startOffset < endOffset {
          return BadHeader;
        }
        startOffset := 0;
        header := startOffset;
        if startOffset == endOffset {
          return BadHeader;
        }
        length := LoadWord(header);
        if length == WORD - 1 {
          return BadHeader;
        }
        readOffset := startOffset;
      }
      var ok := VerifyReadHeader(header);
      if !ok {
        return BadHeader;
      }
      return Header(header);
    }

    /**
     * Frees the record that `header` points to. A header other than the current one is refused.
     * The queue loses its head; only if the write offset is parked at the end of the buffer and the
     * read offset wraps, the whole last lap is unread again.
     */
    method ConsumeHeader(header: U32) returns (ok: bool)
      requires Shape() && Aligned(header) && header + HEADER <= size
      modifies this`readOffset
      ensures Shape()
      ensures ok <==> header == old(readOffset) && header + Span(SizeAt(mem[..], header)) <= size
      ensures readOffset == if ok then AfterConsume(size, mem[..], header) else old(readOffset)
      ensures old(Valid() && Queue() != []) && header == old(readOffset) ==>
                && ok && Valid()
                && Queue() == if Parks(size, mem[..], header, writeOffset) then old(LastLap()) else old(Queue())[1..]
    {
      var length := LoadWord(header);
      var newStartOffset: U32 := WrapAdd(header, AlignU32(WrapAdd(HEADER, length)));
      ConsumeArithmetic(size, header, length);
      var good := VerifyReadHeader(header);
      if !good {
        return false;
      }
      if newStartOffset > size {
        return false;
      }
      if Valid() && Queue() != [] {
        ConsumeEffect(size, writeThreshold, mem[..], readOffset, writeOffset);
      }
      if newStartOffset == size {
        newStartOffset := 0;
      }
      assert newStartOffset == AfterConsume(size, mem[..], header);
      readOffset := newStartOffset;
      return true;
    }
  }

  /** The space that can_write asks for when its sum has wrapped around. */
  function WrappedNeed(want: nat): nat {
    if want < WORD - 71 then 0 else if want <= WORD - HEADER then CACHE_LINE else 2 * CACHE_LINE
  }

  lemma NeedOfWrite(want: U32)
    ensures WrapAdd(AlignU32(WrapAdd(HEADER, want)), CACHE_LINE)
         == if want + 135 < WORD then Span(want) + CACHE_LINE else WrappedNeed(want)
  {
  }

  /** A write of a message larger than the buffer never takes all of it. */
  lemma TooBigForAny(n: nat, t: nat, r: nat, w: nat, want: nat)
    requires Params(n, t) && Offsets(n, r, w) && n <= want
    ensures var p := PlanWrite(n, t, r, w, want); !(p.Accept? && Total(p) == want)
  {
    WriteVerdict(n, t, r, w, want);
  }

  /** For a length that fits the buffer the offset arithmetic of consume_header does not wrap. */
  lemma ConsumeArithmetic(n: nat, header: U32, length: U32)
    requires Geometry(n) && Aligned(header) && header + HEADER <= n
    ensures HEADER + length <= n - header ==>
              && WrapAdd(header, AlignU32(WrapAdd(HEADER, length))) == header + Span(length) <= n
              && Aligned(header + Span(length))
    ensures header + Span(length) <= n ==> HEADER + length <= n - header
  {
    if HEADER + length <= n - header {
      SpanBetween(header, n, length);
      AlignedAfter(header, length);
    }
  }

  lemma PutThrice(mem: seq<Byte>, off: nat, a: seq<Byte>, b: seq<Byte>, c: seq<Byte>)
    requires |a| == |b| == 4 && off + HEADER + |c| <= |mem|
    ensures Put(Put(Put(mem, off + 4, b), off, a), off + HEADER, c) == Put(mem, off, a + b + c)
  {
    PutBefore(mem, off, a, b);
    PutBehind(mem, off, a + b, c);
  }

  /** The end of a record that fits the buffer, computed in uint32_t. */
  lemma AlignedSpan(offset: nat, count: nat)
    requires Aligned(offset) && offset + Span(count) < 0x8000_0000
    ensures AlignU32(offset + HEADER + count) == offset + Span(count)
  {
  }

  /** All that a write does to the denoted queue. */
  lemma WriteEffect(n: nat, t: nat, was: seq<Byte>, r: nat, w: nat, p: Plan, id: nat, data: seq<Byte>)
    requires ValidState(n, t, was, r, w) && WellPlaced(n, r, w, p) && Total(p) <= |data| && id < WORD
    ensures HEADER + p.rest <= n
    ensures var m := StoreSecond(StoreFirst(was, p, id, data), p, id, data);
            Denotes(n, t, m, r, Next(p)) == Queued(Unread(n, was, r, w) + Records(p, id, data))
  {
    StoresPlace(n, r, w, was, p, id, data);
    var m := StoreSecond(StoreFirst(was, p, id, data), p, id, data);
    StoresPublish(n, was, m, r, w, p, id, data);
    StoresExtendLap(n, was, m, r, w, p, id, data);
  }

  /** All that a consume does to the denoted queue, parked or not. */
  lemma ConsumeEffect(n: nat, t: nat, mem: seq<Byte>, r: nat, w: nat)
    requires ValidState(n, t, mem, r, w) && Unread(n, mem, r, w) != [] && r + HEADER <= n
    ensures r + Span(SizeAt(mem, r)) <= n
    ensures var next := AfterConsume(n, mem, r);
            && ValidState(n, t, mem, next, w)
            && Unread(n, mem, next, w) == if Parks(n, mem, r, w) then Walk(mem, 0, w) else Unread(n, mem, r, w)[1..]
  {
    HeadRecord(n, mem, r, w);
    if !Parks(n, mem, r, w) {
      ConsumePops(n, mem, r, w);
    }
  }

  /** The mask in align_size_to_cacheline rounds like the division used here. */
  lemma MaskRounds(x: bv32)
    ensures (x + 63) & !63 == (x + 63) / 64 * 64
  {
  }

  /** The threshold that Initialize computes suits every buffer size. */
  lemma DefaultThreshold(n: nat)
    requires Geometry(n)
    ensures Params(n, AlignU32(n / 8))
  {
  }
}
