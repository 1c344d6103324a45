/**
 * The announcement protocol of the parent and the child: two channels between two routers. The parent
 * registers a fresh id and announces it in a four-byte message to handler 1; the child registers what
 * is announced to it; both write only to announced ids.
 */
module Announce {
  import opened Bytes
  import opened Ring
  import opened Placement
  import opened Interleaving
  import opened Runs
  import opened Handlers

  /** The id under which both sides register their first handler. */
  const CONTROL_ID := 1

  /** `announced` are the ids whose announcement the parent's write took; `fault` that a record was refused. */
  datatype Duplex = Duplex(down: State, up: State, parent: Table, child: Table, announced: set<nat>, fault: bool)

  datatype DuplexAction =
    | CreateChannel(id: nat)
    | ParentWrites(id: nat, data: seq<Byte>)
    | ChildWrites(id: nat, data: seq<Byte>)
    | DownStep(a: Action)
    | UpStep(a: Action)

  const PARENT_START := Table(map[CONTROL_ID := Handler(Some(Collect), true)], 1, [])
  const CHILD_START := Table(map[CONTROL_ID := Handler(Some(RegisterAnnounced), true)], 1, [])

  /** The id that register_handler picks. */
  ghost predicate Picks(t: Table, id: nat) {
    t.nextId <= id < ID_LIMIT && id !in t.handlers && forall k :: t.nextId <= k < id ==> k in t.handlers
  }

  ghost predicate DuplexEnabled(n: nat, d: Duplex, a: DuplexAction) {
    match a
    case CreateChannel(id) => Picks(d.parent, id) && Enabled(n, d.down, Begin(CONTROL_ID, Encode(id)))
    case ParentWrites(id, data) => id in d.announced && Enabled(n, d.down, Begin(id, data))
    case ChildWrites(id, data) => id in d.child.handlers && id != CONTROL_ID && Enabled(n, d.up, Begin(id, data))
    case DownStep(b) => !b.Begin? && Enabled(n, d.down, b)
    case UpStep(b) => !b.Begin? && Enabled(n, d.up, b)
  }

  /** What the reading side's table makes of the record just handed over, if one was. */
  ghost function React(t: Table, x: State, y: State): Outcome {
    if |y.delivered| == |x.delivered| + 1 then Handle(t, y.delivered[|x.delivered|]) else Done(t)
  }

  ghost function DuplexDo(n: nat, t: nat, d: Duplex, a: DuplexAction): Duplex
    requires DuplexEnabled(n, d, a)
  {
    match a
    case CreateChannel(id) =>
      d.(parent := Table(d.parent.handlers[id := Handler(Some(Collect), true)], id + 1, d.parent.log),
         down := Do(n, t, d.down, Begin(CONTROL_ID, Encode(id))))
    case ParentWrites(id, data) => d.(down := Do(n, t, d.down, Begin(id, data)))
    case ChildWrites(id, data) => d.(up := Do(n, t, d.up, Begin(id, data)))
    case DownStep(b) =>
      var y := Do(n, t, d.down, b);
      var out := React(d.child, d.down, y);
      d.(down := y, child := out.table, fault := d.fault || out.Failed?,
         announced := if b.Publish? && d.down.writer.id == CONTROL_ID then d.announced + {Number(d.down.writer.data)} else d.announced)
    case UpStep(b) =>
      var y := Do(n, t, d.up, b);
      var out := React(d.parent, d.up, y);
      d.(up := y, parent := out.table, fault := d.fault || out.Failed?)
  }

  ghost predicate DuplexWouldPark(n: nat, d: Duplex, a: DuplexAction) {
    (a.DownStep? && WouldPark(n, d.down, a.a)) || (a.UpStep? && WouldPark(n, d.up, a.a))
  }

  ghost predicate DuplexInit(n: nat, d: Duplex) {
    && Init(n, d.down) && Init(n, d.up)
    && d.parent == PARENT_START && d.child == CHILD_START && d.announced == {} && !d.fault
  }

  // ---- Histories --------------------------------------------------------------------------------

  /** The ids announced by a history of records sent to the child. */
  ghost function AnnouncedIn(recs: seq<Record>): set<nat> {
    if recs == [] then {}
    else
      var last := recs[|recs| - 1];
      AnnouncedIn(recs[..|recs| - 1]) + (if last.id == CONTROL_ID then {Number(last.payload)} else {})
  }

  /** Each announcement is one record with a new id; every other record is for an id announced before. */
  ghost predicate WellAnnounced(recs: seq<Record>) {
    recs == [] ||
    (var before, last := recs[..|recs| - 1], recs[|recs| - 1];
     && WellAnnounced(before) && last.payload != []
     && (if last.id == CONTROL_ID
         then |last.payload| == 4 && CONTROL_ID != Number(last.payload) < ID_LIMIT && Number(last.payload) !in AnnouncedIn(before)
         else last.id in AnnouncedIn(before)))
  }

  lemma WellAnnouncedOneMore(recs: seq<Record>, rec: Record)
    requires WellAnnounced(recs) && rec.payload != []
    requires if rec.id == CONTROL_ID
             then |rec.payload| == 4 && CONTROL_ID != Number(rec.payload) < ID_LIMIT && Number(rec.payload) !in AnnouncedIn(recs)
             else rec.id in AnnouncedIn(recs)
    ensures WellAnnounced(recs + [rec])
    ensures AnnouncedIn(recs + [rec]) == AnnouncedIn(recs) + (if rec.id == CONTROL_ID then {Number(rec.payload)} else {})
  {
    assert (recs + [rec])[..|recs|] == recs;
  }

  lemma {:induction false} WellAnnouncedPrefix(recs: seq<Record>, k: nat)
    requires WellAnnounced(recs) && k <= |recs|
    ensures WellAnnounced(recs[..k]) && AnnouncedIn(recs[..k]) <= AnnouncedIn(recs)
    decreases |recs|
  {
    if k < |recs| {
      WellAnnouncedPrefix(recs[..|recs| - 1], k);
      assert recs[..|recs| - 1][..k] == recs[..k];
    } else {
      assert recs[..k] == recs;
    }
  }

  /** A child's table: handler 1 registers, every other id is a plain handler. */
  ghost predicate ChildShape(t: Table, ids: set<nat>) {
    && t.handlers.Keys == {CONTROL_ID} + ids
    && t.handlers[CONTROL_ID] == Handler(Some(RegisterAnnounced), true)
    && (forall id :: id in ids ==> id != CONTROL_ID && id < ID_LIMIT && id in t.handlers && t.handlers[id] == Handler(Some(Collect), true))
  }

  /** A child that reads a well announced history never refuses a record and ends up with exactly the announced ids. */
  lemma {:induction false} ChildFollows(recs: seq<Record>)
    requires WellAnnounced(recs)
    ensures Drain(CHILD_START, recs).ok && ChildShape(Drain(CHILD_START, recs).table, AnnouncedIn(recs))
    ensures Drain(CHILD_START, recs).table.log == recs
    decreases |recs|
  {
    if recs == [] {
    } else {
      var before, last := recs[..|recs| - 1], recs[|recs| - 1];
      ChildFollows(before);
      var t := Drain(CHILD_START, before).table;
      assert recs == before + [last];
      DrainConcat(CHILD_START, before, [last]);
      ChildTakes(t, AnnouncedIn(before), last);
      assert [last][1..] == [];
    }
  }

  /** One record of a well announced history is handled. */
  lemma ChildTakes(t: Table, ids: set<nat>, rec: Record)
    requires ChildShape(t, ids) && rec.payload != []
    requires if rec.id == CONTROL_ID
             then |rec.payload| == 4 && CONTROL_ID != Number(rec.payload) < ID_LIMIT && Number(rec.payload) !in ids
             else rec.id in ids
    ensures Handle(t, rec).Done? && Handle(t, rec).table.log == t.log + [rec]
    ensures ChildShape(Handle(t, rec).table, ids + (if rec.id == CONTROL_ID then {Number(rec.payload)} else {}))
  {
    assert KeyOf(rec.id) == rec.id;
    if rec.id == CONTROL_ID {
      var called := t.(log := t.log + [Record(CONTROL_ID, rec.payload)]);
      assert rec == Record(CONTROL_ID, rec.payload);
      var id := Number(rec.payload);
      var u := called.(handlers := called.handlers[id := Handler(Some(Collect), true)]);
      assert TryRegister(called, id, Some(Collect), true) == Inserted(u);
      assert Handle(t, rec) == Done(u);
      assert u.handlers.Keys == {CONTROL_ID} + (ids + {id});
    } else {
      assert Handle(t, rec) == Done(t.(log := t.log + [rec]));
      assert ids + {} == ids;
    }
  }

  // ---- The invariant ----------------------------------------------------------------------------

  ghost predicate Writing(x: State) {
    !x.writer.WriterIdle? && !x.writer.WriterFault?
  }

  /** The message that the parent is writing: an announcement of a registered id, or to an announced id. */
  ghost predicate ParentWriting(d: Duplex) {
    Writing(d.down) ==>
      var (id, data) := (d.down.writer.id, d.down.writer.data);
      if id == CONTROL_ID
      then exists k :: k in d.parent.handlers && k != CONTROL_ID && k !in d.announced && k < ID_LIMIT && data == Encode(k)
      else id in d.announced
  }

  ghost predicate ParentShape(d: Duplex) {
    && CONTROL_ID in d.parent.handlers && CONTROL_ID !in d.announced
    && (forall id :: id in d.announced ==> id in d.parent.handlers)
    && (forall id :: id in d.parent.handlers ==> id < ID_LIMIT && d.parent.handlers[id] == Handler(Some(Collect), true))
  }

  /** The records that the child has sent are for announced ids. */
  ghost predicate UpIds(d: Duplex) {
    && (forall i :: 0 <= i < |d.up.published| ==> d.up.published[i].id in d.announced && d.up.published[i].payload != [])
    && (Writing(d.up) ==> d.up.writer.id in d.announced)
  }

  ghost predicate DuplexGood(n: nat, t: nat, d: Duplex) {
    && Good(n, t, d.down) && Good(n, t, d.up)
    && !d.fault
    && ParentShape(d) && ParentWriting(d)
    && WellAnnounced(d.down.published) && AnnouncedIn(d.down.published) == d.announced
    && Drain(CHILD_START, d.down.delivered).ok && d.child == Drain(CHILD_START, d.down.delivered).table
    && UpIds(d) && d.parent.log == d.up.delivered
  }

  // ---- Steps ------------------------------------------------------------------------------------

  /** What one ring step does to the histories and to the message being written. */
  lemma RingHistory(n: nat, t: nat, x: State, b: Action)
    requires Good(n, t, x) && Enabled(n, x, b) && !b.Begin?
    ensures var y := Do(n, t, x, b);
            && y.delivered == (if b.Deliver? then x.delivered + [Unread(n, x.mem, x.r, x.w)[0]] else x.delivered)
            && (b.Publish? ==> Total(x.writer.plan) <= |x.writer.data| && y.published == x.published + Records(x.writer.plan, x.writer.id, x.writer.data))
            && (!b.Publish? ==> y.published == x.published)
            && (Writing(y) ==> Writing(x) && y.writer.id == x.writer.id && y.writer.data == x.writer.data)
  {
    if b.Deliver? {
      HeadIsReadable(n, t, x);
    }
    if b.Publish? {
      PublishKeeps(n, t, x);
    }
  }

  /** The records of a plan have the id of the message and are not empty; up to 56 bytes make one record. */
  lemma PlanRecords(n: nat, t: nat, x: State)
    requires Good(n, t, x) && Enabled(n, x, Publish)
    ensures var (id, data, p) := (x.writer.id, x.writer.data, x.writer.plan);
            && Total(p) <= |data|
            && (forall i :: 0 <= i < |Records(p, id, data)| ==> Records(p, id, data)[i].id == id && Records(p, id, data)[i].payload != [])
            && (|data| == 4 ==> Records(p, id, data) == [Record(id, data)])
  {
    var (data, s) := (x.writer.data, x.writer.s);
    if |data| == 4 {
      SmallWriteIsWhole(n, t, s, x.w, |data|);
      assert data[..4] == data;
    }
  }

  /** Publishing a split message to an announced id keeps the history well announced. */
  lemma PublishPlain(recs: seq<Record>, more: seq<Record>, id: nat)
    requires WellAnnounced(recs) && id != CONTROL_ID && id in AnnouncedIn(recs) && 1 <= |more| <= 2
    requires forall i :: 0 <= i < |more| ==> more[i].id == id && more[i].payload != []
    ensures WellAnnounced(recs + more) && AnnouncedIn(recs + more) == AnnouncedIn(recs)
  {
    WellAnnouncedOneMore(recs, more[0]);
    if |more| == 1 {
      assert recs + more == recs + [more[0]];
    } else {
      WellAnnouncedOneMore(recs + [more[0]], more[1]);
      assert recs + more == (recs + [more[0]]) + [more[1]];
    }
  }

  /** Publishing an announcement adds one new id. */
  lemma AnnouncementKeeps(recs: seq<Record>, data: seq<Byte>, k: nat)
    requires WellAnnounced(recs) && k != CONTROL_ID && k !in AnnouncedIn(recs) && k < ID_LIMIT && data == Encode(k)
    ensures Number(data) == k
    ensures WellAnnounced(recs + [Record(CONTROL_ID, data)])
    ensures AnnouncedIn(recs + [Record(CONTROL_ID, data)]) == AnnouncedIn(recs) + {k}
  {
    NumberOfEncode(k);
    WellAnnouncedOneMore(recs, Record(CONTROL_ID, data));
  }

  lemma PublishedAnnouncement(n: nat, t: nat, d: Duplex)
    requires DuplexGood(n, t, d) && DuplexEnabled(n, d, DownStep(Publish)) && d.down.writer.id == CONTROL_ID
    ensures var e := DuplexDo(n, t, d, DownStep(Publish));
            && WellAnnounced(e.down.published) && AnnouncedIn(e.down.published) == e.announced
            && ParentShape(e) && UpIds(e)
  {
    RingHistory(n, t, d.down, Publish);
    PlanRecords(n, t, d.down);
    var data := d.down.writer.data;
    var k :| k in d.parent.handlers && k != CONTROL_ID && k !in d.announced && k < ID_LIMIT && data == Encode(k);
    AnnouncementKeeps(d.down.published, data, k);
  }

  lemma PublishedMessage(n: nat, t: nat, d: Duplex)
    requires DuplexGood(n, t, d) && DuplexEnabled(n, d, DownStep(Publish)) && d.down.writer.id != CONTROL_ID
    ensures var e := DuplexDo(n, t, d, DownStep(Publish));
            && WellAnnounced(e.down.published) && AnnouncedIn(e.down.published) == e.announced
            && ParentShape(e) && UpIds(e)
  {
    RingHistory(n, t, d.down, Publish);
    PlanRecords(n, t, d.down);
    var (id, data, p) := (d.down.writer.id, d.down.writer.data, d.down.writer.plan);
    PublishPlain(d.down.published, Records(p, id, data), id);
  }

  lemma DownPublishKeeps(n: nat, t: nat, d: Duplex)
    requires DuplexGood(n, t, d) && DuplexEnabled(n, d, DownStep(Publish))
    ensures var e := DuplexDo(n, t, d, DownStep(Publish));
            && WellAnnounced(e.down.published) && AnnouncedIn(e.down.published) == e.announced
            && ParentShape(e) && UpIds(e)
  {
    if d.down.writer.id == CONTROL_ID {
      PublishedAnnouncement(n, t, d);
    } else {
      PublishedMessage(n, t, d);
    }
  }

  /** The child handles the next record of a well announced history. */
  lemma ChildNext(published: seq<Record>, delivered: seq<Record>, rec: Record)
    requires WellAnnounced(published) && delivered + [rec] <= published && Drain(CHILD_START, delivered).ok
    ensures var out := Handle(Drain(CHILD_START, delivered).table, rec);
            && out.Done? && Drain(CHILD_START, delivered + [rec]).ok && Drain(CHILD_START, delivered + [rec]).table == out.table
  {
    WellAnnouncedPrefix(published, |delivered| + 1);
    assert published[..|delivered| + 1] == delivered + [rec];
    ChildFollows(delivered + [rec]);
    DrainConcat(CHILD_START, delivered, [rec]);
    assert [rec][1..] == [];
  }

  /** What one ring step does, all that the two sides need to know. */
  lemma RingStep(n: nat, t: nat, x: State, b: Action)
    requires Good(n, t, x) && Enabled(n, x, b) && !b.Begin? && !WouldPark(n, x, b)
    ensures var y := Do(n, t, x, b);
            && Good(n, t, y)
            && (Writing(y) ==> Writing(x) && y.writer.id == x.writer.id && y.writer.data == x.writer.data)
            && (!b.Publish? ==> y.published == x.published)
            && (!b.Deliver? ==> y.delivered == x.delivered)
            && (b.Deliver? ==> |y.delivered| == |x.delivered| + 1)
            && (b.Deliver? ==> y.delivered == x.delivered + [y.delivered[|x.delivered|]] && y.delivered <= x.published)
  {
    StepRefines(n, t, x, b);
    RingHistory(n, t, x, b);
    DeliveredFromGood(n, t, Do(n, t, x, b));
  }

  lemma DownDeliverKeeps(n: nat, t: nat, d: Duplex)
    requires DuplexGood(n, t, d) && DuplexEnabled(n, d, DownStep(Deliver))
    ensures var e := DuplexDo(n, t, d, DownStep(Deliver));
            && !e.fault && Drain(CHILD_START, e.down.delivered).ok && e.child == Drain(CHILD_START, e.down.delivered).table
  {
    RingStep(n, t, d.down, Deliver);
    var y := Do(n, t, d.down, Deliver);
    ChildNext(d.down.published, d.down.delivered, y.delivered[|d.down.delivered|]);
  }

  lemma DownStepKeeps(n: nat, t: nat, d: Duplex, b: Action)
    requires DuplexGood(n, t, d) && DuplexEnabled(n, d, DownStep(b)) && !WouldPark(n, d.down, b)
    ensures DuplexGood(n, t, DuplexDo(n, t, d, DownStep(b)))
  {
    RingStep(n, t, d.down, b);
    if b.Publish? {
      DownPublishKeeps(n, t, d);
    } else if b.Deliver? {
      DownDeliverKeeps(n, t, d);
    }
  }

  /** A plain handler takes the record it is handed. */
  lemma ParentNext(t: Table, rec: Record)
    requires rec.id < ID_LIMIT && Plain(t, rec)
    ensures Handle(t, rec) == Done(t.(log := t.log + [rec]))
  {
    assert KeyOf(rec.id) == rec.id;
  }

  lemma UpPublishKeeps(n: nat, t: nat, d: Duplex)
    requires DuplexGood(n, t, d) && DuplexEnabled(n, d, UpStep(Publish))
    ensures var e := DuplexDo(n, t, d, UpStep(Publish));
            UpIds(e) && e.parent == d.parent && e.up.delivered == d.up.delivered && !e.fault
  {
    RingHistory(n, t, d.up, Publish);
    PlanRecords(n, t, d.up);
    var recs := Records(d.up.writer.plan, d.up.writer.id, d.up.writer.data);
    assert Do(n, t, d.up, Publish).published == d.up.published + recs;
  }

  lemma UpDeliverKeeps(n: nat, t: nat, d: Duplex)
    requires DuplexGood(n, t, d) && DuplexEnabled(n, d, UpStep(Deliver))
    ensures var e := DuplexDo(n, t, d, UpStep(Deliver));
            && !e.fault && e.parent == d.parent.(log := e.up.delivered)
  {
    RingStep(n, t, d.up, Deliver);
    var y := Do(n, t, d.up, Deliver);
    var k := |d.up.delivered|;
    var rec := y.delivered[k];
    assert rec == d.up.published[k];
    ParentNext(d.parent, rec);
  }

  lemma UpStepKeeps(n: nat, t: nat, d: Duplex, b: Action)
    requires DuplexGood(n, t, d) && DuplexEnabled(n, d, UpStep(b)) && !WouldPark(n, d.up, b)
    ensures DuplexGood(n, t, DuplexDo(n, t, d, UpStep(b)))
  {
    RingStep(n, t, d.up, b);
    if b.Publish? {
      UpPublishKeeps(n, t, d);
    } else if b.Deliver? {
      UpDeliverKeeps(n, t, d);
    }
  }

  /** The ids that the child has registered are announced. */
  lemma ChildKnowsAnnounced(n: nat, t: nat, d: Duplex)
    requires DuplexGood(n, t, d)
    ensures ChildShape(d.child, AnnouncedIn(d.down.delivered)) && AnnouncedIn(d.down.delivered) <= d.announced
  {
    DeliveredFromGood(n, t, d.down);
    var k := |d.down.delivered|;
    WellAnnouncedPrefix(d.down.published, k);
    assert d.down.delivered == d.down.published[..k];
    ChildFollows(d.down.delivered);
  }

  lemma DuplexStepKeeps(n: nat, t: nat, d: Duplex, a: DuplexAction)
    requires DuplexGood(n, t, d) && DuplexEnabled(n, d, a) && !DuplexWouldPark(n, d, a)
    ensures DuplexGood(n, t, DuplexDo(n, t, d, a))
  {
    match a
    case CreateChannel(id) => StepRefines(n, t, d.down, Begin(CONTROL_ID, Encode(id)));
    case ParentWrites(id, data) => StepRefines(n, t, d.down, Begin(id, data));
    case ChildWrites(id, data) =>
      StepRefines(n, t, d.up, Begin(id, data));
      ChildKnowsAnnounced(n, t, d);
    case DownStep(b) => DownStepKeeps(n, t, d, b);
    case UpStep(b) => UpStepKeeps(n, t, d, b);
  }

  // ---- Runs -------------------------------------------------------------------------------------

  ghost predicate DuplexSteps(n: nat, t: nat, d: Duplex, a: DuplexAction, e: Duplex) {
    DuplexEnabled(n, d, a) && !DuplexWouldPark(n, d, a) && e == DuplexDo(n, t, d, a)
  }

  ghost predicate DuplexTrace(n: nat, t: nat, ds: seq<Duplex>, acts: seq<DuplexAction>) {
    && |ds| == |acts| + 1 && DuplexInit(n, ds[0])
    && (forall i :: 0 <= i < |acts| ==>
          DuplexSteps(n, t, ds[i], acts[i], ds[i + 1]))
  }

  lemma {:induction false} DuplexTraceKeeps(n: nat, t: nat, ds: seq<Duplex>, acts: seq<DuplexAction>, k: nat)
    requires Params(n, t) && DuplexTrace(n, t, ds, acts) && k < |ds|
    ensures DuplexGood(n, t, ds[k])
  {
    if k == 0 {
      TraceStarts(n, t, ds, acts);
    } else {
      DuplexTraceKeeps(n, t, ds, acts, k - 1);
      TraceStep(n, t, ds, acts, k - 1);
      DuplexGoesOn(n, t, ds[k - 1], acts[k - 1], ds[k]);
    }
  }

  lemma TraceStep(n: nat, t: nat, ds: seq<Duplex>, acts: seq<DuplexAction>, i: nat)
    requires DuplexTrace(n, t, ds, acts) && i < |acts|
    ensures DuplexSteps(n, t, ds[i], acts[i], ds[i + 1])
  {
  }

  lemma TraceStarts(n: nat, t: nat, ds: seq<Duplex>, acts: seq<DuplexAction>)
    requires Params(n, t) && DuplexTrace(n, t, ds, acts)
    ensures DuplexGood(n, t, ds[0])
  {
    StartsGood(n, t, ds[0]);
  }

  lemma StartsGood(n: nat, t: nat, d: Duplex)
    requires Params(n, t) && DuplexInit(n, d)
    ensures DuplexGood(n, t, d)
  {
    InitIsGood(n, t, d.down);
    InitIsGood(n, t, d.up);
  }

  lemma DuplexGoesOn(n: nat, t: nat, d: Duplex, a: DuplexAction, e: Duplex)
    requires DuplexGood(n, t, d) && DuplexSteps(n, t, d, a, e)
    ensures DuplexGood(n, t, e)
  {
    DuplexStepKeeps(n, t, d, a);
  }

  /**
   * In every run in which no consume parks, neither side ever refuses a record: none comes for an
   * unregistered id, every announcement comes as one four-byte record, and no id is announced twice.
   * The child has registered exactly the ids announced in what it was handed, and the parent has
   * registered all of them.
   */
  lemma NobodyRefuses(n: nat, t: nat, ds: seq<Duplex>, acts: seq<DuplexAction>, k: nat)
    requires Params(n, t) && DuplexTrace(n, t, ds, acts) && k < |ds|
    ensures !ds[k].fault
    ensures ds[k].child.handlers.Keys == {CONTROL_ID} + AnnouncedIn(ds[k].down.delivered)
    ensures AnnouncedIn(ds[k].down.delivered) <= ds[k].announced <= ds[k].parent.handlers.Keys
    ensures forall i :: 0 <= i < |ds[k].down.delivered| && ds[k].down.delivered[i].id == CONTROL_ID ==>
              |ds[k].down.delivered[i].payload| == 4
  {
    DuplexTraceKeeps(n, t, ds, acts, k);
    var d := ds[k];
    ChildKnowsAnnounced(n, t, d);
    DeliveredFromGood(n, t, d.down);
    forall i | 0 <= i < |d.down.delivered| && d.down.delivered[i].id == CONTROL_ID
      ensures |d.down.delivered[i].payload| == 4
    {
      WellAnnouncedPrefix(d.down.published, i + 1);
      assert d.down.published[..i + 1][i] == d.down.delivered[i];
    }
  }

  /**
   * In both directions the on_read calls are the records handed over, so for each handler the bytes
   * passed to it are a prefix of the bytes that the other side's write accepted for its id.
   */
  lemma HandlersGetPrefixes(n: nat, t: nat, ds: seq<Duplex>, acts: seq<DuplexAction>, k: nat, id: nat)
    requires Params(n, t) && DuplexTrace(n, t, ds, acts) && k < |ds|
    ensures Stream(ds[k].child.log, id) <= Stream(ds[k].down.accepted, id)
    ensures Stream(ds[k].parent.log, id) <= Stream(ds[k].up.accepted, id)
  {
    DuplexTraceKeeps(n, t, ds, acts, k);
    var d := ds[k];
    DeliveredFromGood(n, t, d.down);
    DeliveredFromGood(n, t, d.up);
    var m := |d.down.delivered|;
    WellAnnouncedPrefix(d.down.published, m);
    assert d.down.delivered == d.down.published[..m];
    ChildFollows(d.down.delivered);
    StreamPrefix(d.down.delivered, d.down.published, id);
    StreamPrefix(d.up.delivered, d.up.published, id);
  }

  // ---- A channel is created and used ------------------------------------------------------------

  /** The states `ds` follow each other by the actions `acts`. */
  ghost predicate Follows(n: nat, t: nat, ds: seq<Duplex>, acts: seq<DuplexAction>) {
    |ds| == |acts| + 1 && forall i :: 0 <= i < |acts| ==> DuplexSteps(n, t, ds[i], acts[i], ds[i + 1])
  }

  lemma FollowsOn(n: nat, t: nat, ds: seq<Duplex>, acts: seq<DuplexAction>, es: seq<Duplex>, more: seq<DuplexAction>)
    requires Follows(n, t, ds, acts) && Follows(n, t, es, more) && ds[|acts|] == es[0]
    ensures Follows(n, t, Joined(ds, es), acts + more)
  {
    var all, steps := Joined(ds, es), acts + more;
    forall i | 0 <= i < |steps| ensures DuplexSteps(n, t, all[i], steps[i], all[i + 1]) {
      JoinedAt(ds, es, i);
      JoinedAt(ds, es, i + 1);
      var k := i - |acts|;
      assert if i < |acts| then DuplexSteps(n, t, ds[i], acts[i], ds[i + 1]) else DuplexSteps(n, t, es[k], more[k], es[k + 1]);
    }
  }

  /** A ring step that neither publishes nor delivers only changes its ring. */
  lemma QuietStep(n: nat, t: nat, d: Duplex, b: Action, y: State)
    requires !b.Begin? && !b.Publish? && !b.Deliver? && !b.Consume?
    ensures StepsTo(n, t, d.down, b, y) ==> DuplexSteps(n, t, d, DownStep(b), d.(down := y))
    ensures StepsTo(n, t, d.up, b, y) ==> DuplexSteps(n, t, d, UpStep(b), d.(up := y))
  {
  }

  lemma DownPublishes(n: nat, t: nat, d: Duplex, y: State)
    requires StepsTo(n, t, d.down, Publish, y) && y.delivered == d.down.delivered
    ensures DuplexSteps(n, t, d, DownStep(Publish),
                        d.(down := y, announced := if d.down.writer.id == CONTROL_ID then d.announced + {Number(d.down.writer.data)} else d.announced))
  {
  }

  lemma UpPublishes(n: nat, t: nat, d: Duplex, y: State)
    requires StepsTo(n, t, d.up, Publish, y) && y.delivered == d.up.delivered
    ensures DuplexSteps(n, t, d, UpStep(Publish), d.(up := y))
  {
  }

  lemma DownDelivers(n: nat, t: nat, d: Duplex, y: State, rec: Record, out: Outcome)
    requires StepsTo(n, t, d.down, Deliver, y) && y.delivered == d.down.delivered + [rec] && out == Handle(d.child, rec)
    ensures DuplexSteps(n, t, d, DownStep(Deliver), d.(down := y, child := out.table, fault := d.fault || out.Failed?))
  {
  }

  lemma UpDelivers(n: nat, t: nat, d: Duplex, y: State, rec: Record, out: Outcome)
    requires StepsTo(n, t, d.up, Deliver, y) && y.delivered == d.up.delivered + [rec] && out == Handle(d.parent, rec)
    ensures DuplexSteps(n, t, d, UpStep(Deliver), d.(up := y, parent := out.table, fault := d.fault || out.Failed?))
  {
  }

  lemma ThreeSteps(n: nat, t: nat, ds: seq<Duplex>, acts: seq<DuplexAction>)
    requires |ds| == 4 && |acts| == 3
    requires DuplexSteps(n, t, ds[0], acts[0], ds[1]) && DuplexSteps(n, t, ds[1], acts[1], ds[2]) && DuplexSteps(n, t, ds[2], acts[2], ds[3])
    ensures Follows(n, t, ds, acts)
  {
  }

  /** The states of a ring through which a short message goes after it was begun. */
  ghost predicate Passage(n: nat, t: nat, xs: seq<State>, x: State, id: nat, data: seq<Byte>) {
    && |xs| == 7 && |data| < WORD && StepsTo(n, t, x, Begin(id, data), xs[0])
    && StepsTo(n, t, xs[0], LoadWrite, xs[1]) && StepsTo(n, t, xs[1], StoreOne, xs[2]) && StepsTo(n, t, xs[2], Publish, xs[3])
    && StepsTo(n, t, xs[3], LoadRead, xs[4]) && StepsTo(n, t, xs[4], LoadOther, xs[5]) && StepsTo(n, t, xs[5], Deliver, xs[6])
    && xs[2].delivered == xs[3].delivered && xs[6].delivered == xs[5].delivered + [Record(id, data)]
    && xs[2].writer.StoredFirst? && xs[2].writer.id == id && xs[2].writer.data == data
  }

  lemma PassesThrough(n: nat, t: nat, x: State, id: nat, data: seq<Byte>) returns (xs: seq<State>)
    requires Good(n, t, x) && x.writer.WriterIdle? && x.reader.ReaderIdle? && x.r == x.w
    requires 1 <= id < WORD && 1 <= |data| <= CACHE_LINE - HEADER
    ensures Passage(n, t, xs, x, id, data)
  {
    var x1, x2, x3, x4 := WriteShort(n, t, x, id, data);
    var x5, x6, x7 := ReaderTakesHead(n, t, x4);
    xs := [x1, x2, x3, x4, x5, x6, x7];
    IsPassage(n, t, xs, x, id, data);
  }

  lemma IsPassage(n: nat, t: nat, xs: seq<State>, x: State, id: nat, data: seq<Byte>)
    requires |xs| == 7 && |data| < WORD && StepsTo(n, t, x, Begin(id, data), xs[0])
    requires StepsTo(n, t, xs[0], LoadWrite, xs[1]) && StepsTo(n, t, xs[1], StoreOne, xs[2]) && StepsTo(n, t, xs[2], Publish, xs[3])
    requires Enabled(n, xs[3], LoadRead) && xs[4] == Do(n, t, xs[3], LoadRead)
    requires Enabled(n, xs[4], LoadOther) && xs[5] == Do(n, t, xs[4], LoadOther)
    requires Enabled(n, xs[5], Deliver) && xs[6] == Do(n, t, xs[5], Deliver)
    requires xs[2].writer.StoredFirst? && xs[2].writer.id == id && xs[2].writer.data == data
    requires xs[3].delivered == x.delivered && xs[6].delivered == x.delivered + [Record(id, data)]
    ensures Passage(n, t, xs, x, id, data)
  {
  }

  const DOWN_WRITES := [DownStep(LoadWrite), DownStep(StoreOne), DownStep(Publish)]
  const DOWN_READS := [DownStep(LoadRead), DownStep(LoadOther), DownStep(Deliver)]
  const UP_WRITES := [UpStep(LoadWrite), UpStep(StoreOne), UpStep(Publish)]
  const UP_READS := [UpStep(LoadRead), UpStep(LoadOther), UpStep(Deliver)]

  lemma DownWritten(n: nat, t: nat, d: Duplex, x1: State, x2: State, y: State) returns (ds: seq<Duplex>)
    requires StepsTo(n, t, d.down, LoadWrite, x1) && StepsTo(n, t, x1, StoreOne, x2) && StepsTo(n, t, x2, Publish, y)
    requires x2.delivered == y.delivered
    ensures Follows(n, t, ds, DOWN_WRITES) && ds[0] == d
    ensures ds[3] == d.(down := y, announced := if x2.writer.id == CONTROL_ID then d.announced + {Number(x2.writer.data)} else d.announced)
  {
    var d1, d2 := d.(down := x1), d.(down := x2);
    QuietStep(n, t, d, LoadWrite, x1);
    QuietStep(n, t, d1, StoreOne, x2);
    DownPublishes(n, t, d2, y);
    ds := [d, d1, d2, d.(down := y, announced := if x2.writer.id == CONTROL_ID then d.announced + {Number(x2.writer.data)} else d.announced)];
    ThreeSteps(n, t, ds, DOWN_WRITES);
  }

  lemma DownRead(n: nat, t: nat, d: Duplex, x1: State, x2: State, y: State, rec: Record, out: Outcome) returns (ds: seq<Duplex>)
    requires StepsTo(n, t, d.down, LoadRead, x1) && StepsTo(n, t, x1, LoadOther, x2) && StepsTo(n, t, x2, Deliver, y)
    requires y.delivered == x2.delivered + [rec] && out == Handle(d.child, rec)
    ensures Follows(n, t, ds, DOWN_READS) && ds[0] == d
    ensures ds[3] == d.(down := y, child := out.table, fault := d.fault || out.Failed?)
  {
    var d1, d2 := d.(down := x1), d.(down := x2);
    QuietStep(n, t, d, LoadRead, x1);
    QuietStep(n, t, d1, LoadOther, x2);
    DownDelivers(n, t, d2, y, rec, out);
    ds := [d, d1, d2, d.(down := y, child := out.table, fault := d.fault || out.Failed?)];
    ThreeSteps(n, t, ds, DOWN_READS);
  }

  lemma UpWritten(n: nat, t: nat, d: Duplex, x1: State, x2: State, y: State) returns (ds: seq<Duplex>)
    requires StepsTo(n, t, d.up, LoadWrite, x1) && StepsTo(n, t, x1, StoreOne, x2) && StepsTo(n, t, x2, Publish, y)
    requires x2.delivered == y.delivered
    ensures Follows(n, t, ds, UP_WRITES) && ds[0] == d && ds[3] == d.(up := y)
  {
    var d1, d2 := d.(up := x1), d.(up := x2);
    QuietStep(n, t, d, LoadWrite, x1);
    QuietStep(n, t, d1, StoreOne, x2);
    UpPublishes(n, t, d2, y);
    ds := [d, d1, d2, d.(up := y)];
    ThreeSteps(n, t, ds, UP_WRITES);
  }

  lemma UpRead(n: nat, t: nat, d: Duplex, x1: State, x2: State, y: State, rec: Record, out: Outcome) returns (ds: seq<Duplex>)
    requires StepsTo(n, t, d.up, LoadRead, x1) && StepsTo(n, t, x1, LoadOther, x2) && StepsTo(n, t, x2, Deliver, y)
    requires y.delivered == x2.delivered + [rec] && out == Handle(d.parent, rec)
    ensures Follows(n, t, ds, UP_READS) && ds[0] == d
    ensures ds[3] == d.(up := y, parent := out.table, fault := d.fault || out.Failed?)
  {
    var d1, d2 := d.(up := x1), d.(up := x2);
    QuietStep(n, t, d, LoadRead, x1);
    QuietStep(n, t, d1, LoadOther, x2);
    UpDelivers(n, t, d2, y, rec, out);
    ds := [d, d1, d2, d.(up := y, parent := out.table, fault := d.fault || out.Failed?)];
    ThreeSteps(n, t, ds, UP_READS);
  }

  /** A message that the parent began is published and handled by the child. */
  lemma DownArrives(n: nat, t: nat, d: Duplex, x: State, xs: seq<State>, id: nat, data: seq<Byte>) returns (ds: seq<Duplex>)
    requires Passage(n, t, xs, x, id, data) && d.down == xs[0]
    ensures Follows(n, t, ds, DOWN_WRITES + DOWN_READS) && ds[0] == d
    ensures var out := Handle(d.child, Record(id, data));
            ds[6] == d.(down := xs[6], child := out.table, fault := d.fault || out.Failed?,
                        announced := if id == CONTROL_ID then d.announced + {Number(data)} else d.announced)
  {
    var a := DownWritten(n, t, d, xs[1], xs[2], xs[3]);
    var b := DownRead(n, t, a[3], xs[4], xs[5], xs[6], Record(id, data), Handle(d.child, Record(id, data)));
    FollowsOn(n, t, a, DOWN_WRITES, b, DOWN_READS);
    ds := Joined(a, b);
  }

  /** And one that the child began by the parent. */
  lemma UpArrives(n: nat, t: nat, d: Duplex, x: State, xs: seq<State>, id: nat, data: seq<Byte>) returns (ds: seq<Duplex>)
    requires Passage(n, t, xs, x, id, data) && d.up == xs[0]
    ensures Follows(n, t, ds, UP_WRITES + UP_READS) && ds[0] == d
    ensures var out := Handle(d.parent, Record(id, data));
            ds[6] == d.(up := xs[6], parent := out.table, fault := d.fault || out.Failed?)
  {
    var a := UpWritten(n, t, d, xs[1], xs[2], xs[3]);
    var b := UpRead(n, t, a[3], xs[4], xs[5], xs[6], Record(id, data), Handle(d.parent, Record(id, data)));
    FollowsOn(n, t, a, UP_WRITES, b, UP_READS);
    ds := Joined(a, b);
  }

  ghost predicate Rests(x: State) {
    x.writer.WriterIdle? && x.reader.ReaderIdle? && x.r == x.w
  }

  /** A message that is begun by the step `a`, and arrives. */
  lemma BegunDown(n: nat, t: nat, d: Duplex, a: DuplexAction, d1: Duplex, id: nat, data: seq<Byte>) returns (ds: seq<Duplex>)
    requires Good(n, t, d.down) && Rests(d.down) && 1 <= id < WORD && 1 <= |data| <= CACHE_LINE - HEADER
    requires DuplexSteps(n, t, d, a, d1) && d1.down == Do(n, t, d.down, Begin(id, data))
    ensures Follows(n, t, ds, [a] + (DOWN_WRITES + DOWN_READS)) && ds[0] == d
    ensures var out := Handle(d1.child, Record(id, data));
            ds[7] == d1.(down := ds[7].down, child := out.table, fault := d1.fault || out.Failed?,
                         announced := if id == CONTROL_ID then d1.announced + {Number(data)} else d1.announced)
  {
    var xs := PassesThrough(n, t, d.down, id, data);
    var more := DownArrives(n, t, d1, d.down, xs, id, data);
    FollowsOnce(n, t, d, a, d1);
    FollowsOn(n, t, [d, d1], [a], more, DOWN_WRITES + DOWN_READS);
    ds := Joined([d, d1], more);
  }

  lemma BegunUp(n: nat, t: nat, d: Duplex, a: DuplexAction, d1: Duplex, id: nat, data: seq<Byte>) returns (ds: seq<Duplex>)
    requires Good(n, t, d.up) && Rests(d.up) && 1 <= id < WORD && 1 <= |data| <= CACHE_LINE - HEADER
    requires DuplexSteps(n, t, d, a, d1) && d1.up == Do(n, t, d.up, Begin(id, data))
    ensures Follows(n, t, ds, [a] + (UP_WRITES + UP_READS)) && ds[0] == d
    ensures var out := Handle(d1.parent, Record(id, data));
            ds[7] == d1.(up := ds[7].up, parent := out.table, fault := d1.fault || out.Failed?)
  {
    var xs := PassesThrough(n, t, d.up, id, data);
    var more := UpArrives(n, t, d1, d.up, xs, id, data);
    FollowsOnce(n, t, d, a, d1);
    FollowsOn(n, t, [d, d1], [a], more, UP_WRITES + UP_READS);
    ds := Joined([d, d1], more);
  }

  lemma FollowsOnce(n: nat, t: nat, d: Duplex, a: DuplexAction, e: Duplex)
    requires DuplexSteps(n, t, d, a, e)
    ensures Follows(n, t, [d, e], [a])
  {
  }

  /** What the child makes of the announcement of a new id. */
  lemma ChildTakesNew(n: nat, t: nat, d: Duplex, id: nat)
    requires DuplexGood(n, t, d) && Picks(d.parent, id)
    ensures Number(Encode(id)) == id
    ensures var out := Handle(d.child, Record(CONTROL_ID, Encode(id)));
            out.Done? && id in out.table.handlers && out.table.handlers[id] == Handler(Some(Collect), true)
  {
    ChildKnowsAnnounced(n, t, d);
    NumberOfEncode(id);
    ChildTakes(d.child, AnnouncedIn(d.down.delivered), Record(CONTROL_ID, Encode(id)));
  }

  /** From every state in which nothing is under way to the child: a new channel reaches it. */
  lemma ChannelIsCreated(n: nat, t: nat, d: Duplex, id: nat) returns (ds: seq<Duplex>)
    requires DuplexGood(n, t, d) && Rests(d.down) && Picks(d.parent, id)
    ensures Follows(n, t, ds, [CreateChannel(id)] + (DOWN_WRITES + DOWN_READS)) && ds[0] == d
    ensures var e := ds[7];
            && e.up == d.up && !e.fault && e.announced == d.announced + {id}
            && id in e.parent.handlers && e.parent.handlers[id] == Handler(Some(Collect), true) && e.parent.log == d.parent.log
            && id in e.child.handlers && e.child.handlers[id] == Handler(Some(Collect), true)
  {
    ChildTakesNew(n, t, d, id);
    var d1 := DuplexDo(n, t, d, CreateChannel(id));
    ds := BegunDown(n, t, d, CreateChannel(id), d1, CONTROL_ID, Encode(id));
  }

  /** A message from the parent to an announced id that the child knows reaches its handler. */
  lemma ChildIsReached(n: nat, t: nat, d: Duplex, id: nat, data: seq<Byte>) returns (ds: seq<Duplex>)
    requires DuplexGood(n, t, d) && Rests(d.down) && id in d.announced && id in d.child.handlers
    requires 1 <= id && 1 <= |data| <= CACHE_LINE - HEADER
    ensures Follows(n, t, ds, [ParentWrites(id, data)] + (DOWN_WRITES + DOWN_READS)) && ds[0] == d
    ensures ds[7].child == d.child.(log := d.child.log + [Record(id, data)]) && !ds[7].fault
  {
    ChildKnowsAnnounced(n, t, d);
    ParentNext(d.child, Record(id, data));
    var d1 := DuplexDo(n, t, d, ParentWrites(id, data));
    ds := BegunDown(n, t, d, ParentWrites(id, data), d1, id, data);
  }

  /** A message from the child to an id that it knows reaches the parent's handler. */
  lemma ParentIsReached(n: nat, t: nat, d: Duplex, id: nat, data: seq<Byte>) returns (ds: seq<Duplex>)
    requires Good(n, t, d.up) && Rests(d.up) && id in d.child.handlers && id != CONTROL_ID
    requires id < ID_LIMIT && id in d.parent.handlers && d.parent.handlers[id] == Handler(Some(Collect), true)
    requires 1 <= id && 1 <= |data| <= CACHE_LINE - HEADER
    ensures Follows(n, t, ds, [ChildWrites(id, data)] + (UP_WRITES + UP_READS)) && ds[0] == d
    ensures ds[7] == d.(up := ds[7].up, parent := d.parent.(log := d.parent.log + [Record(id, data)]))
  {
    ParentNext(d.parent, Record(id, data));
    var d1 := DuplexDo(n, t, d, ChildWrites(id, data));
    ds := BegunUp(n, t, d, ChildWrites(id, data), d1, id, data);
  }

  /** So there is a run in which a channel is created and the child answers on it. */
  lemma ChannelWorks(n: nat, t: nat, d: Duplex, data: seq<Byte>) returns (ds: seq<Duplex>, acts: seq<DuplexAction>)
    requires Params(n, t) && DuplexInit(n, d) && 1 <= |data| <= CACHE_LINE - HEADER
    ensures DuplexTrace(n, t, ds, acts) && ds[0] == d && |acts| == 14
    ensures 2 in ds[7].child.handlers && ds[7].announced == {2} && ds[14].parent.log == [Record(2, data)]
  {
    StartsGood(n, t, d);
    var es := ChannelIsCreated(n, t, d, 2);
    var fs := ParentIsReached(n, t, es[7], 2, data);
    acts := [CreateChannel(2)] + (DOWN_WRITES + DOWN_READS) + ([ChildWrites(2, data)] + (UP_WRITES + UP_READS));
    FollowsOn(n, t, es, [CreateChannel(2)] + (DOWN_WRITES + DOWN_READS), fs, [ChildWrites(2, data)] + (UP_WRITES + UP_READS));
    ds := Joined(es, fs);
  }
}
