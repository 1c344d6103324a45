/** torrent::system::ipc::Router over its two channels, with its handler map updated in place. */
module Router {
  import opened Bytes
  import opened Ring
  import opened Placement
  import opened SharedChannel
  import opened Handlers
  import opened Draining

  datatype RegisterResult = NoAvailableId | NewId(id: nat)

  /** How a turn of process_reads ends: nothing unread, a record consumed, or an internal error. */
  datatype Turn = Empty | Handled | Refused

  class Router {
    const readChannel: Channel
    const writeChannel: Channel
    var table: Table
    /** Wakeup tokens sent so far. */
    var interrupts: nat

    constructor (incoming: Channel, outgoing: Channel)
      ensures readChannel == incoming && writeChannel == outgoing
      ensures table == Table(map[], 1, []) && interrupts == 0
    {
      readChannel, writeChannel := incoming, outgoing;
      table := Table(map[], 1, []);
      interrupts := 0;
    }

    // ---- Registration ---------------------------------------------------------------------------

    method TryRegisterHandler(id: U32, onRead: Option<Callback>, hasError: bool) returns (res: Registered)
      modifies this`table
      ensures res == TryRegister(old(table), id, onRead, hasError)
      ensures table == if res.Inserted? then res.table else old(table)
      ensures old(KeysBelowLimit(table)) ==> KeysBelowLimit(table)
    {
      if id >= ID_LIMIT {
        return Reserved;
      }
      if id in table.handlers {
        return Taken;
      }
      if onRead.None? || !hasError {
        return MissingClosure;
      }
      table := table.(handlers := table.handlers[id := Handler(onRead, hasError)]);
      return Inserted(table);
    }

    /**
     * Takes the first free id from nextId on. It fails, and then changes nothing, only if every id up
     * to the reserved ones is taken; running into the end of uint32_t cannot happen.
     */
    method RegisterHandler(callback: Callback) returns (res: RegisterResult)
      requires table.nextId <= ID_LIMIT && KeysBelowLimit(table)
      modifies this`table
      ensures table.nextId <= ID_LIMIT && KeysBelowLimit(table)
      ensures res.NoAvailableId? <==> forall id :: old(table).nextId <= id < ID_LIMIT ==> id in old(table).handlers
      ensures res.NoAvailableId? ==> table == old(table)
      ensures res.NewId? ==>
                && old(table).nextId <= res.id < ID_LIMIT && res.id !in old(table).handlers
                && (forall id :: old(table).nextId <= id < res.id ==> id in old(table).handlers)
                && table == Table(old(table).handlers[res.id := Handler(Some(callback), true)], res.id + 1, old(table).log)
    {
      ghost var was := table;
      var id: U32 := table.nextId;
      var tried := TryRegisterHandler(id, Some(callback), true);
      while !tried.Inserted?
        invariant was.nextId <= id <= ID_LIMIT
        invariant forall k :: was.nextId <= k < id ==> k in was.handlers
        invariant tried == TryRegister(was, id, Some(callback), true)
        invariant table == if tried.Inserted? then tried.table else was
        invariant KeysBelowLimit(table)
        decreases ID_LIMIT - id, !tried.Inserted?
      {
        if tried.Reserved? {
          return NoAvailableId;
        }
        id := id + 1;
        if id == 0 {
          assert false;
        }
        tried := TryRegisterHandler(id, Some(callback), true);
      }
      table := table.(nextId := id + 1);
      return NewId(id);
    }

    // ---- Writing --------------------------------------------------------------------------------

    /** Publishes a message, and sends a token if the reader is polling and no one has interrupted it. */
    method Write(id: U32, count: U32, data: array<Byte>) returns (res: WriteResult)
      requires id in table.handlers && id != 0 && count != 0
      requires writeChannel.Valid() && data != writeChannel.mem && count <= data.Length
      modifies writeChannel, writeChannel.mem, this`interrupts
      ensures writeChannel.Valid() && !res.InternalError?
      ensures res.WouldBlock? <==>
                Capacity(writeChannel.size, writeChannel.readOffset, old(writeChannel.writeOffset)) < Min(count, writeChannel.writeThreshold)
      ensures res.WouldBlock? ==>
                && writeChannel.Queue() == old(writeChannel.Queue())
                && writeChannel.consumerState == old(writeChannel.consumerState) && interrupts == old(interrupts)
      ensures res.Wrote? ==>
                && 1 <= res.count <= count
                && res.count == Min(count, Capacity(writeChannel.size, writeChannel.readOffset, old(writeChannel.writeOffset)))
                && Stream(writeChannel.Queue(), id) == Stream(old(writeChannel.Queue()), id) + data[..res.count]
                && (forall other :: other != id ==> Stream(writeChannel.Queue(), other) == Stream(old(writeChannel.Queue()), other))
                && (if old(writeChannel.consumerState) == 1
                    then writeChannel.consumerState == 3 && interrupts == old(interrupts) + 1
                    else writeChannel.consumerState == old(writeChannel.consumerState) && interrupts == old(interrupts))
    {
      ghost var was := writeChannel.Queue();
      res := writeChannel.Write(id, count, data);
      if !res.Wrote? {
        return;
      }
      AcceptedStream(writeChannel.size, writeChannel.writeThreshold, writeChannel.readOffset, old(writeChannel.writeOffset), was, id, data[..count]);
      assert data[..count][..res.count] == data[..res.count];
      var shouldInterrupt := writeChannel.consumerState == 1;
      if shouldInterrupt {
        writeChannel.consumerState := 3;
        interrupts := interrupts + 1;
      }
    }

    // ---- Reading --------------------------------------------------------------------------------

    /**
     * Hands over and consumes the unread records one by one, with the writer at rest; a turn that fails
     * ends the loop. The precondition is only that the loop ends. If the loop does not consume the last
     * record under a parked write offset, what it reads is the queue.
     */
    method ProcessReads() returns (ok: bool, ghost count: nat)
      requires readChannel.Valid()
      requires exists turns: nat ::
                 EndsWithin(readChannel.size, readChannel.mem[..], readChannel.readOffset, readChannel.writeOffset, table, turns)
      modifies this`table, readChannel`readOffset
      ensures readChannel.Valid()
      ensures Ended(readChannel.size, readChannel.mem[..], old(readChannel.readOffset), readChannel.writeOffset,
                    old(table), count, readChannel.readOffset, table, ok)
      ensures readChannel.writeOffset < readChannel.size || !Drain(old(table), old(readChannel.Queue())).ok ==>
                && Drain(old(table), old(readChannel.Queue())) == Drained(table, count, ok)
                && readChannel.Queue() == old(readChannel.Queue())[count..]
    {
      ghost var n, t, mem, r, w := readChannel.size, readChannel.writeThreshold, readChannel.mem[..], readChannel.readOffset, readChannel.writeOffset;
      ghost var start := table;
      ghost var limit: nat :| EndsWithin(n, mem, r, w, start, limit);
      count := 0;
      var turn := Handled;
      while turn.Handled?
        invariant readChannel.Valid() && count <= limit
        invariant turn.Handled? ==> Running(n, mem, r, w, start, count, readChannel.readOffset, table)
        invariant !turn.Handled? ==> Ended(n, mem, r, w, start, count, readChannel.readOffset, table, turn.Empty?)
        decreases limit - count, turn.Handled?
      {
        if readChannel.readOffset != w {
          NextTurn(n, t, mem, r, w, start, count, readChannel.readOffset, table, limit);
        }
        turn := TakeRecord();
        count := if turn.Handled? then count + 1 else count;
      }
      ok := turn.Empty?;
      if w < n || !Drain(start, Unread(n, mem, r, w)).ok {
        GuardedLoopReads(n, t, mem, r, w, start, count, readChannel.readOffset, table, ok);
      }
    }

    /** One turn of the loop. */
    method TakeRecord() returns (turn: Turn)
      requires readChannel.Valid()
      modifies this`table, readChannel`readOffset
      ensures readChannel.Valid()
      ensures turn.Empty? <==> old(readChannel.readOffset) == readChannel.writeOffset
      ensures turn.Empty? <==> old(readChannel.Queue()) == []
      ensures turn.Empty? ==> table == old(table) && readChannel.readOffset == old(readChannel.readOffset)
      ensures !turn.Empty? ==>
                && Takes(readChannel.mem[..], old(readChannel.readOffset), readChannel.writeOffset)
                && var rec := RecordAt(readChannel.mem[..], old(readChannel.readOffset));
                   var out := Handle(old(table), rec);
                && rec == old(readChannel.Queue())[0]
                && table == out.table && (turn.Handled? <==> out.Done?)
                && readChannel.readOffset
                   == if turn.Handled? then AfterConsume(readChannel.size, readChannel.mem[..], old(readChannel.readOffset))
                      else old(readChannel.readOffset)
    {
      HeadRecord(readChannel.size, readChannel.mem[..], readChannel.readOffset, readChannel.writeOffset);
      var res := readChannel.ReadHeader();
      if res.BadHeader? {
        assert false;
      }
      if res.NoData? {
        return Empty;
      }
      var good := Dispatch(res.offset);
      if !good {
        return Refused;
      }
      var consumed := readChannel.ConsumeHeader(res.offset);
      return Handled;
    }

    /** Looks up the handler of the record at `header`, calls it, and acts on a close flag. */
    method Dispatch(header: U32) returns (ok: bool)
      requires header + HEADER <= readChannel.mem.Length < WORD
      requires header + HEADER + SizeAt(readChannel.mem[..], header) <= readChannel.mem.Length
      modifies this`table
      ensures var out := Handle(old(table), RecordAt(readChannel.mem[..], header)); ok == out.Done? && table == out.table
    {
      var id := readChannel.LoadWord(header + 4);
      var length := readChannel.LoadWord(header);
      var payload := readChannel.mem[header + HEADER..header + HEADER + length];
      var key := KeyOf(id);
      if key !in table.handlers {
        return false;
      }
      if length != 0 && table.handlers[key].onRead.Some? {
        var out := Call(table, key, table.handlers[key].onRead.value, payload);
        table := out.table;
        if out.Failed? {
          return false;
        }
      }
      if id >= FLAG_CLOSE {
        if table.handlers[key].onRead.None? {
          table := table.(handlers := table.handlers - {key});
          return true;
        }
        if length != 0 {
          return false;
        }
        table := table.(handlers := table.handlers[key := table.handlers[key].(onRead := None)]);
      }
      return true;
    }
  }

  /** What a write accepted is what its id's stream grows by; the streams of other ids stay. */
  lemma AcceptedStream(n: nat, t: nat, s: nat, w: nat, queue: seq<Record>, id: nat, data: seq<Byte>)
    requires s < n && w <= n < WORD && PlanWrite(n, t, s, w, |data|).Accept? && Total(PlanWrite(n, t, s, w, |data|)) <= |data|
    ensures var p := PlanWrite(n, t, s, w, |data|);
            && Stream(queue + Records(p, id, data), id) == Stream(queue, id) + data[..Total(p)]
            && forall other :: other != id ==> Stream(queue + Records(p, id, data), other) == Stream(queue, other)
  {
    var p := PlanWrite(n, t, s, w, |data|);
    StreamAppend(queue, Records(p, id, data), id);
    StreamOfRecords(p, id, data, id);
    forall other | other != id ensures Stream(queue + Records(p, id, data), other) == Stream(queue, other) {
      StreamAppend(queue, Records(p, id, data), other);
      StreamOfRecords(p, id, data, other);
    }
  }
}
