/** The handler table of a router and what process_reads does with a run of records, on values. */
module Handlers {
  import opened Bytes
  import opened Ring

  /** Ids with one of the top four bits set are reserved. */
  const ID_LIMIT := 0x1000_0000
  const FLAG_CLOSE := 0x8000_0000

  /** header.id without its flag bits. */
  function KeyOf(id: nat): (key: nat)
    ensures key < ID_LIMIT
  {
    id % ID_LIMIT
  }

  /** What an on_read closure does: take the bytes, or register the announced id as ChildHandler does. */
  datatype Callback = Collect | RegisterAnnounced

  /** A slot that close has nulled is None or false. */
  datatype Option<T> = None | Some(value: T)

  datatype Handler = Handler(onRead: Option<Callback>, hasError: bool)

  /** `log` is the sequence of on_read calls so far. */
  datatype Table = Table(handlers: map<nat, Handler>, nextId: nat, log: seq<Record>)

  datatype Registered = Reserved | Taken | MissingClosure | Inserted(table: Table)

  ghost predicate KeysBelowLimit(t: Table) {
    forall id :: id in t.handlers ==> id < ID_LIMIT
  }

  /** try_register_handler; only Inserted changes the table. */
  function TryRegister(t: Table, id: nat, onRead: Option<Callback>, hasError: bool): Registered {
    if id >= ID_LIMIT then Reserved
    else if id in t.handlers then Taken
    else if onRead.None? || !hasError then MissingClosure
    else Inserted(t.(handlers := t.handlers[id := Handler(onRead, hasError)]))
  }

  datatype Outcome = Done(table: Table) | Failed(table: Table)

  /** One on_read call. */
  function Call(t: Table, key: nat, callback: Callback, payload: seq<Byte>): Outcome {
    var called := t.(log := t.log + [Record(key, payload)]);
    match callback
    case Collect => Done(called)
    case RegisterAnnounced =>
      if |payload| != 4 then Failed(called)
      else
        match TryRegister(called, Number(payload), Some(Collect), true)
        case Inserted(u) => Done(u)
        case _ => Failed(called)
  }

  /** The second half of the loop body: what a close flag asks for. */
  function AfterCall(t: Table, key: nat, rec: Record): Outcome
    requires key in t.handlers
  {
    if rec.id < FLAG_CLOSE then Done(t)
    else if t.handlers[key].onRead.None? then Done(t.(handlers := t.handlers - {key}))
    else if rec.payload != [] then Failed(t)
    else Done(t.(handlers := t.handlers[key := t.handlers[key].(onRead := None)]))
  }

  /** One turn of the loop in process_reads. A failed turn does not consume its record. */
  function Handle(t: Table, rec: Record): Outcome {
    var key := KeyOf(rec.id);
    if key !in t.handlers then Failed(t)
    else if rec.payload != [] && t.handlers[key].onRead.Some? then
      match Call(t, key, t.handlers[key].onRead.value, rec.payload)
      case Failed(u) => Failed(u)
      case Done(u) => if key in u.handlers then AfterCall(u, key, rec) else Failed(u)
    else AfterCall(t, key, rec)
  }

  /** The loop over a run of records: the table, how many were consumed, and whether all were. */
  datatype Drained = Drained(table: Table, count: nat, ok: bool)

  function Drain(t: Table, recs: seq<Record>): (d: Drained)
    ensures d.count <= |recs| && (d.ok <==> d.count == |recs|)
    decreases |recs|
  {
    if recs == [] then Drained(t, 0, true)
    else
      match Handle(t, recs[0])
      case Failed(u) => Drained(u, 0, false)
      case Done(u) => var d := Drain(u, recs[1..]); d.(count := d.count + 1)
  }

  /** Draining in two goes is draining at once. */
  lemma {:induction false} DrainConcat(t: Table, a: seq<Record>, b: seq<Record>)
    requires Drain(t, a).ok
    ensures Drain(t, a + b) == Drained(Drain(Drain(t, a).table, b).table, |a| + Drain(Drain(t, a).table, b).count, Drain(Drain(t, a).table, b).ok)
    decreases |a|
  {
    if a == [] {
      assert a + b == b;
    } else {
      assert (a + b)[1..] == a[1..] + b;
      DrainConcat(Handle(t, a[0]).table, a[1..], b);
    }
  }

  /** Nothing is read beyond a turn that fails. */
  lemma {:induction false} DrainStopsEarly(t: Table, a: seq<Record>, b: seq<Record>)
    requires !Drain(t, a).ok
    ensures Drain(t, a + b) == Drain(t, a)
    decreases |a|
  {
    assert a != [] && (a + b)[0] == a[0] && (a + b)[1..] == a[1..] + b;
    match Handle(t, a[0])
    case Failed(_) =>
    case Done(u) => DrainStopsEarly(u, a[1..], b);
  }

  lemma DrainHead(t: Table, recs: seq<Record>, out: Outcome)
    requires recs != [] && out == Handle(t, recs[0])
    ensures out.Failed? ==> Drain(t, recs) == Drained(out.table, 0, false)
    ensures out.Done? && |recs| == 1 ==> Drain(t, recs) == Drained(out.table, 1, true)
  {
  }

  /** One more record: the drain ends before it or goes on behind it. */
  lemma DrainOneMore(start: Table, recs: seq<Record>, rec: Record, t: Table, out: Outcome)
    requires Drain(start, recs) == Drained(t, |recs|, true) && out == Handle(t, rec)
    ensures Drain(start, recs + [rec]) == Drained(out.table, if out.Done? then |recs| + 1 else |recs|, out.Done?)
  {
    DrainHead(t, [rec], out);
    DrainConcat(start, recs, [rec]);
  }

  lemma DrainJoin(t: Table, a: seq<Record>, u: Table, b: seq<Record>, v: Table)
    requires Drain(t, a) == Drained(u, |a|, true) && Drain(u, b) == Drained(v, |b|, true)
    ensures Drain(t, a + b) == Drained(v, |a| + |b|, true) && |a + b| == |a| + |b|
  {
    DrainConcat(t, a, b);
  }

  /** A record that a router with plain handlers takes without complaint. */
  ghost predicate Plain(t: Table, rec: Record) {
    rec.id in t.handlers && rec.payload != [] && t.handlers[rec.id].onRead == Some(Collect)
  }

  /** Records for open handlers are all handed over, in order and unchanged, and change nothing else. */
  lemma {:induction false} DrainPlain(t: Table, recs: seq<Record>)
    requires KeysBelowLimit(t) && forall i :: 0 <= i < |recs| ==> Plain(t, recs[i])
    ensures Drain(t, recs) == Drained(t.(log := t.log + recs), |recs|, true)
    decreases |recs|
  {
    if recs == [] {
      assert t.log + recs == t.log;
    } else {
      var u := t.(log := t.log + [recs[0]]);
      assert Plain(t, recs[0]) && Handle(t, recs[0]) == Done(u);
      DrainPlain(u, recs[1..]);
      assert t.log + recs == u.log + recs[1..];
    }
  }

  /** A drain stops exactly at the first record whose turn fails; unknown ids always fail. */
  lemma {:induction false} DrainStops(t: Table, recs: seq<Record>, i: nat)
    requires i < |recs| && Drain(t, recs[..i]).ok && KeyOf(recs[i].id) !in Drain(t, recs[..i]).table.handlers
    ensures !Drain(t, recs).ok && Drain(t, recs).count == i && Drain(t, recs).table == Drain(t, recs[..i]).table
  {
    assert recs == recs[..i] + recs[i..];
    DrainConcat(t, recs[..i], recs[i..]);
  }

  // ---- Closing ----------------------------------------------------------------------------------

  /** A close message: the close flag and no payload. */
  function CloseRecord(key: nat): Record {
    Record(FLAG_CLOSE + key, [])
  }

  /** A handler that is closed for reading swallows what comes for it: no turn fails. */
  lemma {:induction false} ClosedSwallows(t: Table, key: nat, recs: seq<Record>)
    requires key < ID_LIMIT && key in t.handlers && t.handlers[key].onRead.None?
    requires forall i :: 0 <= i < |recs| ==> recs[i].id == key
    ensures Drain(t, recs) == Drained(t, |recs|, true)
    decreases |recs|
  {
    if recs == [] {
    } else {
      assert recs[0].id == key && KeyOf(key) == key;
      ClosedSwallows(t, key, recs[1..]);
    }
  }

  /** None of the records is a close message for `key`. */
  ghost predicate NoClose(recs: seq<Record>, key: nat) {
    forall i :: 0 <= i < |recs| && KeyOf(recs[i].id) == key ==> recs[i].id < FLAG_CLOSE
  }

  /** The on_read calls since `from` are none of them for `key`. */
  ghost predicate NotCalled(log: seq<Record>, from: nat, key: nat) {
    forall i :: from <= i < |log| ==> log[i].id != key
  }

  /** One turn of any record but a close message for it leaves a closed handler closed and uncalled. */
  lemma ClosedTurn(t: Table, key: nat, rec: Record)
    requires key in t.handlers && t.handlers[key].onRead.None? && Handle(t, rec).Done?
    requires KeyOf(rec.id) == key ==> rec.id < FLAG_CLOSE
    ensures var u := Handle(t, rec).table;
            key in u.handlers && u.handlers[key] == t.handlers[key] && t.log <= u.log && NotCalled(u.log, |t.log|, key)
  {
  }

  /** Nor does any run of records, for this or other ids, as long as no turn fails. */
  lemma {:induction false} ClosedStays(t: Table, key: nat, recs: seq<Record>)
    requires key in t.handlers && t.handlers[key].onRead.None? && Drain(t, recs).ok && NoClose(recs, key)
    ensures var u := Drain(t, recs).table;
            key in u.handlers && u.handlers[key] == t.handlers[key] && t.log <= u.log && NotCalled(u.log, |t.log|, key)
    decreases |recs|
  {
    if recs == [] {
    } else {
      ClosedTurn(t, key, recs[0]);
      ClosedStays(Handle(t, recs[0]).table, key, recs[1..]);
    }
  }

  /** What a close message leaves of the table. */
  function Closed(t: Table, key: nat): Table
    requires key in t.handlers
  {
    t.(handlers := t.handlers[key := t.handlers[key].(onRead := None)])
  }

  lemma CloseMessages(t: Table, key: nat)
    requires key < ID_LIMIT && key in t.handlers
    ensures Drain(t, [CloseRecord(key)])
         == Drained(if t.handlers[key].onRead.None? then t.(handlers := t.handlers - {key}) else Closed(t, key), 1, true)
  {
    assert KeyOf(FLAG_CLOSE + key) == key && [CloseRecord(key)][1..] == [];
  }

  /**
   * After a close message no data reaches the handler, whatever comes for it and for the other ids,
   * and a second close message removes it, and nothing else.
   */
  lemma CloseErases(t: Table, key: nat, recs: seq<Record>)
    requires key < ID_LIMIT && key in t.handlers && t.handlers[key].onRead.Some?
    requires NoClose(recs, key) && Drain(Closed(t, key), recs).ok
    ensures var between := Drain(Closed(t, key), recs).table;
            && Drain(t, [CloseRecord(key)] + recs + [CloseRecord(key)])
               == Drained(between.(handlers := between.handlers - {key}), |recs| + 2, true)
            && key in between.handlers && t.log <= between.log && NotCalled(between.log, |t.log|, key)
  {
    var close, closed := [CloseRecord(key)], Closed(t, key);
    var between := Drain(closed, recs).table;
    CloseMessages(t, key);
    ClosedStays(closed, key, recs);
    CloseMessages(between, key);
    DrainJoin(t, close, closed, recs, between);
    DrainJoin(t, close + recs, between, close, between.(handlers := between.handlers - {key}));
  }

  /** A close message that carries data is refused. */
  lemma CloseWithDataFails(t: Table, key: nat, payload: seq<Byte>)
    requires key < ID_LIMIT && payload != []
    requires key in t.handlers && t.handlers[key].onRead.Some?
    ensures Handle(t, Record(FLAG_CLOSE + key, payload)).Failed?
  {
    assert KeyOf(FLAG_CLOSE + key) == key;
  }
}
