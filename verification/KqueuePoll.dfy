/**
 * torrent::system::Poll over kqueue: a table from descriptors to shared poll events, a bounded buffer
 * of changes not yet passed to the kernel, and a dispatch loop whose callbacks call back into the poll.
 */
module KqueuePoll {

  datatype Option<T> = None | Some(value: T)

  datatype Filter = ReadFilter | WriteFilter

  datatype Flag = FlagRead | FlagWrite | FlagError

  function FlagOf(f: Filter): Flag {
    if f.ReadFilter? then FlagRead else FlagWrite
  }

  class Event {
    var fd: int
    var pollEvent: PollEvent?

    constructor (fd: int)
      ensures this.fd == fd && pollEvent == null
    {
      this.fd := fd;
      pollEvent := null;
    }
  }

  class PollEvent {
    var mask: set<Flag>
    var event: Event?

    constructor (e: Event)
      ensures mask == {} && event == e
    {
      mask := {};
      event := e;
    }
  }

  // ---- The kernel's filters ---------------------------------------------------------------------

  type Filters = map<(int, Filter), PollEvent>

  /** An entry of the change list: EV_ADD or EV_DELETE of a filter, with the poll event as user data. */
  datatype Change = NoChange | Change(fd: int, filter: Filter, add: bool, udata: PollEvent)

  /** An EV_ADD must be of an absent filter and an EV_DELETE of a present one. */
  function ApplyOne(f: Filters, c: Change): Option<Filters> {
    match c
    case NoChange => None
    case Change(fd, filter, add, udata) =>
      if add then if (fd, filter) in f then None else Some(f[(fd, filter) := udata])
      else if (fd, filter) in f then Some(f - {(fd, filter)}) else None
  }

  function Apply(f: Filters, cs: seq<Change>): Option<Filters> {
    if cs == [] then Some(f)
    else
      match Apply(f, cs[..|cs| - 1])
      case None => None
      case Some(g) => ApplyOne(g, cs[|cs| - 1])
  }

  lemma ApplyOneMore(f: Filters, cs: seq<Change>, c: Change)
    requires Apply(f, cs).Some?
    ensures Apply(f, cs + [c]) == ApplyOne(Apply(f, cs).value, c)
  {
    assert (cs + [c])[..|cs|] == cs;
  }

  class Kernel {
    var filters: Filters

    constructor ()
      ensures filters == map[]
    {
      filters := map[];
    }

    /** kevent() with a change list that the kernel has no complaint about. */
    method Kevent(changes: array<Change>, count: nat)
      requires count <= changes.Length && Apply(filters, changes[..count]).Some?
      modifies this
      ensures Some(filters) == old(Apply(filters, changes[..count]))
    {
      filters := Apply(filters, changes[..count]).value;
    }
  }

  /** The filters that the masks of a table ask for. */
  ghost function WantedOf(table: map<int, PollEvent>, masks: map<int, set<Flag>>): Filters
    requires table.Keys == masks.Keys
  {
    map fd: int, f: Filter | fd in table.Keys && FlagOf(f) in masks[fd] :: (fd, f) := table[fd]
  }

  lemma WantedWithout(table: map<int, PollEvent>, masks: map<int, set<Flag>>, fd: int)
    requires table.Keys == masks.Keys && (fd in masks ==> masks[fd] == {})
    ensures WantedOf(table - {fd}, masks - {fd}) == WantedOf(table, masks)
  {
  }

  lemma WantedWithNew(table: map<int, PollEvent>, masks: map<int, set<Flag>>, fd: int, p: PollEvent)
    requires table.Keys == masks.Keys && fd !in table
    ensures WantedOf(table[fd := p], masks[fd := {}]) == WantedOf(table, masks)
  {
    WantedWithout(table[fd := p], masks[fd := {}], fd);
    assert table[fd := p] - {fd} == table && masks[fd := {}] - {fd} == masks;
  }

  /** Setting a flag that is not set adds its filter, which is absent; the error flag has none. */
  lemma WantedWithFlag(table: map<int, PollEvent>, masks: map<int, set<Flag>>, fd: int, flag: Flag)
    requires table.Keys == masks.Keys && fd in table
    ensures flag.FlagError? ==> WantedOf(table, masks[fd := masks[fd] + {flag}]) == WantedOf(table, masks)
    ensures !flag.FlagError? && flag !in masks[fd] ==>
              var filter := if flag.FlagRead? then ReadFilter else WriteFilter;
              Some(WantedOf(table, masks[fd := masks[fd] + {flag}])) == ApplyOne(WantedOf(table, masks), Change(fd, filter, true, table[fd]))
  {
    if !flag.FlagError? {
      var filter := if flag.FlagRead? then ReadFilter else WriteFilter;
      assert WantedOf(table, masks[fd := masks[fd] + {flag}]) == WantedOf(table, masks)[(fd, filter) := table[fd]];
    }
  }

  /** Clearing a flag that is set takes its filter, which is present. */
  lemma WantedWithoutFlag(table: map<int, PollEvent>, masks: map<int, set<Flag>>, fd: int, flag: Flag)
    requires table.Keys == masks.Keys && fd in table
    ensures flag.FlagError? ==> WantedOf(table, masks[fd := masks[fd] - {flag}]) == WantedOf(table, masks)
    ensures !flag.FlagError? && flag in masks[fd] ==>
              var filter := if flag.FlagRead? then ReadFilter else WriteFilter;
              Some(WantedOf(table, masks[fd := masks[fd] - {flag}])) == ApplyOne(WantedOf(table, masks), Change(fd, filter, false, table[fd]))
  {
    var fewer := masks[fd := masks[fd] - {flag}];
    if flag in masks[fd] {
      assert fewer[fd] + {flag} == masks[fd] && fewer[fd := masks[fd]] == masks;
      WantedWithFlag(table, fewer, fd, flag);
      if !flag.FlagError? {
        var filter := if flag.FlagRead? then ReadFilter else WriteFilter;
        assert WantedOf(table, masks) - {(fd, filter)} == WantedOf(table, fewer);
      }
    } else {
      assert masks[fd] - {flag} == masks[fd] && fewer == masks;
    }
  }

  lemma NoFlagLeft(mask: set<Flag>)
    ensures mask - {FlagRead} - {FlagWrite} - {FlagError} == {}
  {
    forall f | f in mask ensures f in {FlagRead, FlagWrite, FlagError} {
      match f
      case FlagRead =>
      case FlagWrite =>
      case FlagError =>
    }
  }

  // ---- Dispatch ---------------------------------------------------------------------------------

  /** An entry of the event list: what became ready, or the user event, which has no poll event. */
  datatype Notification = UserEvent | Ready(filter: Filter, udata: PollEvent)

  /** What a callback may do with the poll. SetFd stands for closing or replacing a descriptor. */
  datatype Op =
    | Open(e: Event) | Close(e: Event)
    | Insert(e: Event, flag: Flag) | Remove(e: Event, flag: Flag)
    | RemoveAndClose(e: Event)
    | SetFd(e: Event, fd: int)

  /**
   * What happens at an entry: `between` are the thread's own callbacks that run first, `callback` is
   * what the event's callback does, if it is called.
   */
  datatype Reaction = Reaction(between: seq<Op>, callback: seq<Op>)

  ghost predicate ReactionKnown(known: set<Event>, r: Reaction) {
    (forall op :: op in r.between ==> op.e in known) && (forall op :: op in r.callback ==> op.e in known)
  }

  /** What a thread does with the poll: an operation, or a wait with what became ready and what the callbacks do. */
  datatype Step = Call(op: Op) | Wait(ready: seq<Option<(int, Filter)>>, interrupted: bool, script: seq<Reaction>)

  ghost predicate StepKnown(known: set<Event>, s: Step) {
    match s
    case Call(op) => op.e in known
    case Wait(ready, _, script) =>
      && |script| == |ready|
      && forall k :: 0 <= k < |script| ==> ReactionKnown(known, script[k])
  }

  /** The operation takes the flag out of the mask of an event that has it. */
  predicate Drops(op: Op, e: Event?, flag: Flag) {
    (op.Remove? && op.e == e && op.flag == flag) || (op.RemoveAndClose? && op.e == e)
  }

  /** One of the operations does. */
  ghost predicate AnyDrops(ops: seq<Op>, e: Event?, flag: Flag) {
    exists i :: 0 <= i < |ops| && Drops(ops[i], e, flag)
  }

  /**
   * What became of one entry. `open` says whether, when it was called, the receiver was still open
   * under the poll event that the entry names.
   */
  datatype Turn = Called(receiver: Event, open: bool) | Skipped

  /** What happened at an entry took the flag out of the event's mask. */
  ghost predicate ReactionDrops(r: Reaction, called: bool, e: Event?, flag: Flag) {
    AnyDrops(r.between, e, flag) || (called && AnyDrops(r.callback, e, flag))
  }

  /** So it was at one of the first `k` entries. */
  ghost predicate DroppedBefore(script: seq<Reaction>, turns: seq<Turn>, k: nat, e: Event?, flag: Flag) {
    exists j :: 0 <= j < k && j < |script| && j < |turns| && ReactionDrops(script[j], turns[j].Called?, e, flag)
  }

  /**
   * The entry went to the event that owned its poll event when the batch was fetched and was still open
   * under it, or a callback before it, or one right then of the thread's own, had taken the flag out of
   * that event's mask.
   */
  ghost predicate TurnFits(turns: seq<Turn>, script: seq<Reaction>, k: nat, entry: Entry)
    requires k < |turns|
  {
    match turns[k]
    case Called(receiver, open) => open && receiver == entry.owner
    case Skipped => DroppedBefore(script, turns, k + 1, entry.owner, entry.flag)
  }

  /** The entry was dispatched, to its owner, exactly if `called`. */
  ghost predicate TurnIs(turn: Turn, entry: Entry, called: bool) {
    (turn.Called? <==> called) && (turn.Called? ==> turn.open && turn.receiver == entry.owner)
  }

  // ---- What the operations mean -----------------------------------------------------------------

  /** An event as its program sees it: its descriptor, and its interest if it is open. */
  datatype Slot = Slot(fd: int, mask: Option<set<Flag>>)

  type View = map<Event, Slot>

  ghost predicate IsOpen(v: View, e: Event?) {
    e != null && e in v && v[e].mask.Some?
  }

  /** An open event has the descriptor. */
  ghost predicate Occupied(v: View, fd: int) {
    exists e :: e in v && IsOpen(v, e) && v[e].fd == fd
  }

  /** One operation on the interests; what it does not mention stays, and a call out of place does nothing. */
  ghost function After(v: View, op: Op): View {
    if op.e !in v then v
    else
      var slot := v[op.e];
      match op
      case Open(e) => if slot.fd != -1 && slot.mask.None? && !Occupied(v, slot.fd) then v[e := slot.(mask := Some({}))] else v
      case Close(e) => if slot.mask == Some({}) then v[e := slot.(mask := None)] else v
      case Insert(e, flag) => if slot.mask.Some? then v[e := slot.(mask := Some(slot.mask.value + {flag}))] else v
      case Remove(e, flag) => if slot.mask.Some? then v[e := slot.(mask := Some(slot.mask.value - {flag}))] else v
      case RemoveAndClose(e) => v[e := slot.(mask := None)]
      case SetFd(e, fd) => if slot.mask.None? then v[e := slot.(fd := fd)] else v
  }

  /** What a poll stands for if it is consistent. */
  datatype Standing = Broken | Sound(view: View)

  /** In the middle of a batch: the interests, and the events that were closed since it was fetched. */
  datatype Batch = Batch(view: View, gone: set<Event>)

  ghost predicate Closes(v: View, op: Op) {
    IsOpen(v, op.e) && !IsOpen(After(v, op), op.e)
  }

  ghost function OnBatch(b: Batch, op: Op): Batch {
    Batch(After(b.view, op), if Closes(b.view, op) then b.gone + {op.e} else b.gone)
  }

  ghost function OnBatchAll(b: Batch, ops: seq<Op>): Batch
    decreases |ops|
  {
    if ops == [] then b else OnBatchAll(OnBatch(b, ops[0]), ops[1..])
  }

  /** An entry as fetched: the event it is for, if any, and the flag. */
  datatype Entry = Entry(owner: Event?, flag: Flag)

  /** The event is called: it is still open as it was when the batch was fetched, and wants the flag. */
  ghost predicate Receives(b: Batch, entry: Entry) {
    IsOpen(b.view, entry.owner) && entry.owner !in b.gone && entry.flag in b.view[entry.owner].mask.value
  }

  ghost function BeforeTurn(b: Batch, r: Reaction): Batch {
    OnBatchAll(b, r.between)
  }

  ghost function AfterEntry(b: Batch, entry: Entry, r: Reaction): Batch {
    var c := BeforeTurn(b, r);
    if Receives(c, entry) then OnBatchAll(c, r.callback) else c
  }

  ghost function AfterEntries(b: Batch, entries: seq<Entry>, script: seq<Reaction>, k: nat): Batch
    requires k <= |entries| && k <= |script|
  {
    if k == 0 then b else AfterEntry(AfterEntries(b, entries, script, k - 1), entries[k - 1], script[k - 1])
  }

  /** Entry `k` of a batch is dispatched. */
  ghost predicate IsCalled(b: Batch, entries: seq<Entry>, script: seq<Reaction>, k: nat)
    requires k < |entries| && k < |script|
  {
    Receives(BeforeTurn(AfterEntries(b, entries, script, k), script[k]), entries[k])
  }

  /** Only an operation that takes the flag out, or closes the event, ends the wish of an event for a flag. */
  lemma WishStays(b: Batch, op: Op, entry: Entry)
    requires Receives(b, entry)
    ensures Receives(OnBatch(b, op), entry) || Drops(op, entry.owner, entry.flag)
  {
  }

  lemma {:induction false} WishesStay(b: Batch, ops: seq<Op>, entry: Entry)
    requires Receives(b, entry)
    ensures Receives(OnBatchAll(b, ops), entry) || AnyDrops(ops, entry.owner, entry.flag)
    decreases |ops|
  {
    if ops == [] {
    } else {
      WishStays(b, ops[0], entry);
      if Receives(OnBatch(b, ops[0]), entry) {
        WishesStay(OnBatch(b, ops[0]), ops[1..], entry);
        assert forall i :: 0 <= i < |ops[1..]| ==> ops[1..][i] == ops[i + 1];
      }
    }
  }

  lemma {:induction false} WishOverEntries(b: Batch, entries: seq<Entry>, script: seq<Reaction>, turns: seq<Turn>, k: nat, entry: Entry)
    requires k <= |entries| == |script| == |turns| && Receives(b, entry)
    requires forall j :: 0 <= j < k ==> TurnIs(turns[j], entries[j], IsCalled(b, entries, script, j))
    ensures Receives(AfterEntries(b, entries, script, k), entry) || DroppedBefore(script, turns, k, entry.owner, entry.flag)
    decreases k
  {
    if k == 0 {
    } else {
      WishOverEntries(b, entries, script, turns, k - 1, entry);
      var c := AfterEntries(b, entries, script, k - 1);
      if Receives(c, entry) {
        WishOverEntry(c, script[k - 1], entries[k - 1], turns[k - 1], entry);
        if ReactionDrops(script[k - 1], turns[k - 1].Called?, entry.owner, entry.flag) {
          assert DroppedBefore(script, turns, k, entry.owner, entry.flag);
        }
      }
    }
  }

  lemma WishOverEntry(b: Batch, r: Reaction, at: Entry, turn: Turn, entry: Entry)
    requires Receives(b, entry) && TurnIs(turn, at, Receives(BeforeTurn(b, r), at))
    ensures Receives(AfterEntry(b, at, r), entry) || ReactionDrops(r, turn.Called?, entry.owner, entry.flag)
    ensures Receives(BeforeTurn(b, r), entry) || ReactionDrops(r, false, entry.owner, entry.flag)
  {
    WishesStay(b, r.between, entry);
    if Receives(BeforeTurn(b, r), entry) && turn.Called? {
      WishesStay(BeforeTurn(b, r), r.callback, entry);
    }
  }

  /** An entry that an event wanted when it was fetched is dispatched, unless something took the flag out. */
  lemma SkippedWereDropped(v: View, entries: seq<Entry>, script: seq<Reaction>, turns: seq<Turn>)
    requires |entries| == |script| == |turns|
    requires TurnsAre(turns, Batch(v, {}), entries, script)
    ensures forall k :: 0 <= k < |turns| && Receives(Batch(v, {}), entries[k]) ==> TurnFits(turns, script, k, entries[k])
  {
    var b := Batch(v, {});
    forall k | 0 <= k < |turns| && turns[k].Skipped? && Receives(b, entries[k])
      ensures TurnFits(turns, script, k, entries[k])
    {
      WishOverEntries(b, entries, script, turns, k, entries[k]);
      var c := AfterEntries(b, entries, script, k);
      if Receives(c, entries[k]) {
        WishOverEntry(c, script[k], entries[k], turns[k], entries[k]);
        assert ReactionDrops(script[k], turns[k].Called?, entries[k].owner, entries[k].flag);
      } else {
        var j :| 0 <= j < k && ReactionDrops(script[j], turns[j].Called?, entries[k].owner, entries[k].flag);
      }
    }
  }

  /** The turns so far are those of the batch. */
  ghost predicate TurnsAre(turns: seq<Turn>, b: Batch, entries: seq<Entry>, script: seq<Reaction>)
    requires |turns| <= |entries| && |turns| <= |script|
  {
    forall k :: 0 <= k < |turns| ==> TurnIs(turns[k], entries[k], IsCalled(b, entries, script, k))
  }

  lemma OneMoreTurn(turns: seq<Turn>, turn: Turn, b: Batch, entries: seq<Entry>, script: seq<Reaction>)
    requires |turns| < |entries| && |turns| < |script| && TurnsAre(turns, b, entries, script)
    requires TurnIs(turn, entries[|turns|], IsCalled(b, entries, script, |turns|))
    ensures TurnsAre(turns + [turn], b, entries, script)
  {
    var more := turns + [turn];
    forall k | 0 <= k < |more| ensures TurnIs(more[k], entries[k], IsCalled(b, entries, script, k)) {
      assert more[k] == if k < |turns| then turns[k] else turn;
    }
  }

  ghost predicate Wanting(v: View, fd: int, filter: Filter, e: Event) {
    IsOpen(v, e) && v[e].fd == fd && FlagOf(filter) in v[e].mask.value
  }

  /** What a wait fetches of what became ready: the user event, and the filters that open events want. */
  ghost function Fetch(v: View, ready: seq<Option<(int, Filter)>>, k: nat, limit: nat): (entries: seq<Entry>)
    requires k <= |ready|
    ensures |entries| <= k && |entries| <= limit
  {
    if k == 0 then []
    else
      var before := Fetch(v, ready, k - 1, limit);
      if |before| == limit then before
      else
        match ready[k - 1]
        case None => before + [Entry(null, FlagError)]
        case Some((fd, filter)) =>
          if exists e :: e in v && Wanting(v, fd, filter, e) then
            var e :| e in v && Wanting(v, fd, filter, e);
            before + [Entry(e, FlagOf(filter))]
          else before
  }

  /** One more entry of what became ready. */
  lemma FetchStep(v: View, ready: seq<Option<(int, Filter)>>, k: nat, limit: nat)
    requires k < |ready|
    ensures var before, after := Fetch(v, ready, k, limit), Fetch(v, ready, k + 1, limit);
            && (after == before
                || (|after| == |before| + 1 && after[..|before|] == before
                    && (after[|before|].owner != null ==> Receives(Batch(v, {}), after[|before|]))))
            && (|before| < limit ==>
                  match ready[k]
                  case None => after == before + [Entry(null, FlagError)]
                  case Some(key) =>
                    if exists e :: e in v && Wanting(v, key.0, key.1, e)
                    then exists e :: e in v && Wanting(v, key.0, key.1, e) && after == before + [Entry(e, FlagOf(key.1))]
                    else after == before)
  {
    var before := Fetch(v, ready, k, limit);
    if |before| < limit && ready[k].Some? {
      var (fd, filter) := ready[k].value;
      if exists e :: e in v && Wanting(v, fd, filter, e) {
        var e :| e in v && Wanting(v, fd, filter, e) && Fetch(v, ready, k + 1, limit) == before + [Entry(e, FlagOf(filter))];
      }
    }
  }

  lemma {:induction false} FetchIsFull(v: View, ready: seq<Option<(int, Filter)>>, i: nat, k: nat, limit: nat)
    requires i <= k <= |ready| && (i < k ==> |Fetch(v, ready, i, limit)| == limit)
    ensures Fetch(v, ready, k, limit) == Fetch(v, ready, i, limit)
    decreases k
  {
    if i == k {
    } else {
      FetchIsFull(v, ready, i, k - 1, limit);
    }
  }

  ghost function AfterWait(v: View, ready: seq<Option<(int, Filter)>>, interrupted: bool, script: seq<Reaction>, limit: nat): View
    requires |script| == |ready|
  {
    var entries := Fetch(v, ready, |ready|, limit);
    if interrupted then v else AfterEntries(Batch(v, {}), entries, script, |entries|).view
  }

  predicate Scripted(s: Step) {
    s.Wait? ==> |s.script| == |s.ready|
  }

  ghost function AfterStep(v: View, step: Step, limit: nat): View
    requires Scripted(step)
  {
    match step
    case Call(op) => After(v, op)
    case Wait(ready, interrupted, script) => AfterWait(v, ready, interrupted, script, limit)
  }

  /** The interests after a program. */
  ghost function AfterSteps(v: View, steps: seq<Step>, limit: nat): View
    requires forall i :: 0 <= i < |steps| ==> Scripted(steps[i])
    decreases |steps|
  {
    if steps == [] then v else AfterSteps(AfterStep(v, steps[0], limit), steps[1..], limit)
  }

  /** An event that is opened, asks for a filter and becomes ready is called. */
  lemma ReadyIsCalled(v: View, e: Event, filter: Filter, r: Reaction, limit: nat)
    requires e in v && v[e].mask.None? && v[e].fd != -1 && !Occupied(v, v[e].fd) && 1 <= limit && r.between == []
    ensures var w, ready := After(After(v, Open(e)), Insert(e, FlagOf(filter))), [Some((v[e].fd, filter))];
            && Fetch(w, ready, 1, limit) == [Entry(e, FlagOf(filter))]
            && IsCalled(Batch(w, {}), [Entry(e, FlagOf(filter))], [r], 0)
  {
    var w := After(After(v, Open(e)), Insert(e, FlagOf(filter)));
    assert {} + {FlagOf(filter)} == {FlagOf(filter)};
    assert w == v[e := Slot(v[e].fd, Some({FlagOf(filter)}))];
    var ready := [Some((v[e].fd, filter))];
    assert Wanting(w, v[e].fd, filter, e);
    assert forall x :: x in w && Wanting(w, v[e].fd, filter, x) ==> x == e;
    assert Fetch(w, ready, 0, limit) == [];
  }

  class Poll {
    const kernel: Kernel
    const changes: array<Change>
    const events: array<Notification>
    var table: map<int, PollEvent>
    var changedEvents: nat
    var waitingEvents: nat
    var processing: bool
    var closedEvents: seq<PollEvent>

    /** All events of the program, and all poll events made by this poll. */
    ghost var known: set<Event>
    ghost var repr: set<PollEvent>

    // ---- Consistency ----------------------------------------------------------------------------

    ghost predicate Bounds()
      reads `changedEvents
    {
      && 1 <= changes.Length == events.Length
      && changedEvents <= changes.Length
    }

    /** A poll event with an owner is the table's entry for it, and an owner's poll event points back. */
    ghost predicate Linked()
      reads `table, `known, `repr, known, repr
    {
      && (forall p :: p in repr && p.event != null ==>
            && p.event in known && p.event.pollEvent == p && p.event.fd != -1
            && p.event.fd in table && table[p.event.fd] == p)
      && (forall p :: p in repr && p.event == null ==> p.mask == {})
      && (forall fd :: fd in table ==> table[fd] in repr && table[fd].event != null && table[fd].event.fd == fd)
      && (forall e :: e in known && e.pollEvent != null ==> e.pollEvent in repr && e.pollEvent.event == e)
    }

    ghost function Masks(): map<int, set<Flag>>
      reads `table, `repr, repr
      requires forall fd :: fd in table ==> table[fd] in repr
    {
      map fd | fd in table.Keys :: table[fd].mask
    }

    /** The filters that the masks in the table ask for. */
    ghost function Wanted(): Filters
      reads `table, `repr, repr
      requires forall fd :: fd in table ==> table[fd] in repr
    {
      WantedOf(table, Masks())
    }

    /** The kernel's filters once the buffered changes are applied in order. */
    ghost function Pending(): Option<Filters>
      reads `changedEvents, kernel, changes
      requires Bounds()
    {
      Apply(kernel.filters, changes[..changedEvents])
    }

    ghost predicate Valid()
      reads `table, `known, `repr, `changedEvents, known, repr, kernel, changes
    {
      Bounds() && Linked() && Pending() == Some(Wanted())
    }

    constructor (maxEvents: nat, known: set<Event>)
      requires 1 <= maxEvents && forall e :: e in known ==> e.pollEvent == null
      ensures Valid() && table == map[] && this.known == known && repr == {} && !processing && waitingEvents == 0
      ensures fresh(kernel) && fresh(changes) && fresh(events) && closedEvents == []
      ensures Stands([], {}, 0) == Sound(map e | e in known :: Slot(e.fd, None))
    {
      kernel := new Kernel();
      changes := new Change[maxEvents];
      events := new Notification[maxEvents];
      table := map[];
      changedEvents, waitingEvents, processing, closedEvents := 0, 0, false, [];
      this.known, repr := known, {};
      new;
      assert changes[..0] == [];
    }

    // ---- The change buffer ----------------------------------------------------------------------

    method Flush()
      requires Bounds() && Pending().Some?
      modifies this`changedEvents, kernel
      ensures Bounds() && Pending() == old(Pending()) && changedEvents == 0
    {
      if changedEvents == 0 {
        return;
      }
      kernel.Kevent(changes, changedEvents);
      changedEvents := 0;
      assert changes[..0] == [];
    }

    /** Buffers one change; a full buffer is flushed first, so the index stays in bounds. */
    method Modify(event: Event, add: bool, filter: Filter)
      requires Bounds() && Pending().Some? && event.pollEvent != null
      modifies this`changedEvents, kernel, changes
      ensures Bounds() && changedEvents > 0
      ensures Pending() == ApplyOne(old(Pending().value), Change(event.fd, filter, add, event.pollEvent))
    {
      if changedEvents == changes.Length {
        Flush();
      }
      ghost var before := changes[..changedEvents];
      var change := Change(event.fd, filter, add, event.pollEvent);
      ApplyOneMore(kernel.filters, before, change);
      changes[changedEvents] := change;
      changedEvents := changedEvents + 1;
      assert changes[..changedEvents] == before + [change];
    }

    // ---- Operations -----------------------------------------------------------------------------

    /** event_mask: fails for an event that this poll does not have. */
    method EventMask(event: Event) returns (res: Option<set<Flag>>)
      requires Valid() && event in known
      ensures res.Some? <==> event.pollEvent != null
      ensures res.Some? ==> res.value == event.pollEvent.mask
    {
      if event.fd == -1 || event.fd !in table {
        return None;
      }
      if table[event.fd].event != event {
        return None;
      }
      return Some(table[event.fd].mask);
    }

    /** A new poll event for an event that had none. */
    twostate lemma LinkAdded(event: Event, new p: PollEvent)
      requires old(Linked()) && event in old(known) && old(event.pollEvent) == null
      requires event.fd != -1 && event.fd !in old(table) && !old(allocated(p))
      requires known == old(known) && repr == old(repr) + {p} && table == old(table)[event.fd := p]
      requires p.event == event && p.mask == {} && event.pollEvent == p
      requires forall q :: q in old(repr) ==> q.event == old(q.event) && q.mask == old(q.mask)
      requires forall e :: e in known ==> e.fd == old(e.fd) && (e != event ==> e.pollEvent == old(e.pollEvent))
      ensures Linked() && Masks() == old(Masks())[event.fd := {}]
    {
      var masks := old(Masks())[event.fd := {}];
      assert forall fd :: fd in Masks() ==> Masks()[fd] == masks[fd];
      assert Masks() == masks;
    }

    /** One mask is changed. */
    twostate lemma LinkMasked(event: Event, new p: PollEvent)
      requires old(Linked()) && event in old(known) && old(event.pollEvent) == p
      requires table == old(table) && known == old(known) && repr == old(repr)
      requires forall q :: q in repr ==> q.event == old(q.event) && (q != p ==> q.mask == old(q.mask))
      requires forall e :: e in known ==> e.fd == old(e.fd) && e.pollEvent == old(e.pollEvent)
      ensures Linked() && event.fd in table && table[event.fd] == p
      ensures Masks() == old(Masks())[event.fd := p.mask]
    {
      assert forall fd :: fd in table && table[fd] == p ==> fd == event.fd;
      var masks := old(Masks())[event.fd := p.mask];
      assert forall fd :: fd in Masks() ==> Masks()[fd] == masks[fd];
      assert Masks() == masks;
    }

    /** An event without interest and its poll event let go of each other. */
    twostate lemma LinkDropped(event: Event, new p: PollEvent)
      requires old(Linked()) && event in old(known) && old(event.pollEvent) == p && p.mask == {} == old(event.pollEvent.mask)
      requires known == old(known) && repr == old(repr) && table == old(table) - {event.fd}
      requires p.event == null && event.pollEvent == null
      requires forall q :: q in repr && q != p ==> q.event == old(q.event) && q.mask == old(q.mask)
      requires forall e :: e in known ==> e.fd == old(e.fd) && (e != event ==> e.pollEvent == old(e.pollEvent))
      ensures Linked() && Masks() == old(Masks()) - {event.fd}
    {
      var masks := old(Masks()) - {event.fd};
      assert forall fd :: fd in Masks() ==> Masks()[fd] == masks[fd];
      assert Masks() == masks;
    }

    method OpenEvent(event: Event) returns (ok: bool)
      requires Valid() && event in known
      modifies this`table, this`repr, event`pollEvent
      ensures Valid() && known == old(known) && fresh(repr - old(repr)) && old(repr) <= repr
      ensures ok <==> event.fd != -1 && old(event.pollEvent) == null && event.fd !in old(table)
      ensures !ok ==> table == old(table) && event.pollEvent == old(event.pollEvent)
      ensures ok ==> event.pollEvent != null && fresh(event.pollEvent) && table == old(table)[event.fd := event.pollEvent]
      ensures ok ==> event.pollEvent.mask == {} && Wanted() == old(Wanted())
    {
      ok := event.fd != -1 && event.pollEvent == null && event.fd !in table;
      if ok {
        var p := new PollEvent(event);
        WantedWithNew(table, Masks(), event.fd, p);
        event.pollEvent := p;
        table := table[event.fd := p];
        repr := repr + {p};
        LinkAdded(event, p);
      }
    }

    /** set_event_mask and, but for the error flag, modify. */
    method SetInterest(event: Event, mask: set<Flag>, flag: Flag, add: bool)
      requires Valid() && event in known && event.pollEvent != null
      requires mask == event.pollEvent.mask && add == (flag !in mask)
      modifies this`changedEvents, kernel, changes, event.pollEvent`mask
      ensures Valid() && event.pollEvent.mask == if add then mask + {flag} else mask - {flag}
    {
      var p := event.pollEvent;
      assert table[event.fd] == p && Masks()[event.fd] == mask;
      WantedWithFlag(table, Masks(), event.fd, flag);
      WantedWithoutFlag(table, Masks(), event.fd, flag);
      p.mask := if add then mask + {flag} else mask - {flag};
      if !flag.FlagError? {
        Modify(event, add, if flag.FlagRead? then ReadFilter else WriteFilter);
      }
      LinkMasked(event, p);
    }

    method InsertFlag(event: Event, flag: Flag) returns (ok: bool)
      requires Valid() && event in known
      modifies this`changedEvents, kernel, changes, event.pollEvent
      ensures Valid() && ok == (event.pollEvent != null)
      ensures ok ==> event.pollEvent.mask == old(event.pollEvent.mask) + {flag}
      ensures ok ==> event.pollEvent.event == old(event.pollEvent.event)
    {
      var res := EventMask(event);
      ok := res.Some?;
      if ok && flag !in res.value {
        SetInterest(event, res.value, flag, true);
      }
    }

    method RemoveFlag(event: Event, flag: Flag) returns (ok: bool)
      requires Valid() && event in known
      modifies this`changedEvents, kernel, changes, event.pollEvent
      ensures Valid() && ok == (event.pollEvent != null)
      ensures ok ==> event.pollEvent.mask == old(event.pollEvent.mask) - {flag}
      ensures ok ==> event.pollEvent.event == old(event.pollEvent.event)
    {
      var res := EventMask(event);
      ok := res.Some?;
      if ok && flag in res.value {
        SetInterest(event, res.value, flag, false);
      }
    }

    /** Forgets an event without interest; while dispatching, its poll event is kept alive. */
    method CloseEvent(event: Event) returns (ok: bool)
      requires Valid() && event in known
      modifies this`table, this`changedEvents, this`closedEvents, kernel, event`pollEvent, event.pollEvent
      ensures Valid()
      ensures ok <==> old(event.pollEvent == null || event.pollEvent.mask == {})
      ensures !ok || old(event.pollEvent) == null ==>
                table == old(table) && closedEvents == old(closedEvents) && unchanged(event) && (event.pollEvent != null ==> unchanged(event.pollEvent))
      ensures ok ==> event.pollEvent == null
      ensures ok && old(event.pollEvent) != null ==>
                && table == old(table) - {event.fd} && changedEvents == 0
                && old(event.pollEvent).event == null && old(event.pollEvent).mask == {}
                && closedEvents == old(closedEvents) + if processing then [old(event.pollEvent)] else []
    {
      if event.pollEvent == null {
        return true;
      }
      if event.pollEvent.event != event {
        assert false;
      }
      var res := EventMask(event);
      if res.None? {
        assert false;
      }
      ok := res.value == {};
      if ok {
        Forget(event);
      }
    }

    /** The part of close that cannot fail. */
    method Forget(event: Event)
      requires Valid() && event in known && event.pollEvent != null && event.pollEvent.mask == {}
      modifies this`table, this`changedEvents, this`closedEvents, kernel, event`pollEvent, event.pollEvent`event
      ensures Valid() && changedEvents == 0
      ensures table == old(table) - {event.fd} && event.pollEvent == null && old(event.pollEvent).event == null
      ensures closedEvents == old(closedEvents) + if processing then [old(event.pollEvent)] else []
    {
      var p := event.pollEvent;
      WantedWithout(table, Masks(), event.fd);
      table := table - {event.fd};
      Flush();
      if processing {
        closedEvents := closedEvents + [p];
      }
      p.event := null;
      event.pollEvent := null;
      LinkDropped(event, p);
    }

    method RemoveAndCloseEvent(event: Event) returns (ok: bool)
      requires Valid() && event in known
      modifies this`table, this`changedEvents, this`closedEvents, kernel, changes, event`pollEvent, event.pollEvent
      ensures Valid() && ok == old(event.pollEvent != null)
      ensures event.pollEvent == null
      ensures !ok ==> table == old(table) && closedEvents == old(closedEvents)
      ensures ok ==>
                && table == old(table) - {event.fd}
                && old(event.pollEvent).event == null && old(event.pollEvent).mask == {}
                && closedEvents == old(closedEvents) + if processing then [old(event.pollEvent)] else []
    {
      ok := RemoveFlag(event, FlagRead);
      if !ok {
        return;
      }
      ok := RemoveFlag(event, FlagWrite);
      ok := RemoveFlag(event, FlagError);
      NoFlagLeft(old(event.pollEvent.mask));
      ok := CloseEvent(event);
    }

    // ---- Waiting and dispatching ----------------------------------------------------------------

    /** The poll event is live and has the filter in its mask. */
    ghost predicate Wants(filter: Filter, p: PollEvent)
      reads `repr, repr
    {
      p in repr && p.event != null && FlagOf(filter) in p.mask
    }

    /**
     * Poll::poll. `ready` is what the kernel chooses to report, None standing for the user event; it
     * reports registered filters only. The buffered changes are gone even if a signal cut the wait short.
     */
    method FetchEvents(ready: seq<Option<(int, Filter)>>, interrupted: bool, ghost v: View) returns (nfds: int)
      requires waitingEvents == 0 && Stands([], {}, 0) == Sound(v)
      modifies this`changedEvents, this`waitingEvents, kernel, events
      ensures changedEvents == 0 && kernel.filters == Wanted()
      ensures interrupted ==> nfds == -1 && waitingEvents == 0
      ensures !interrupted ==> 0 <= nfds == waitingEvents == |Fetch(v, ready, |ready|, changes.Length)| <= events.Length
      ensures Stands(if interrupted then [] else Fetch(v, ready, |ready|, changes.Length), {}, 0) == Sound(v)
    {
      Submit(v);
      nfds := -1;
      if !interrupted {
        nfds := Arrive(ready, v);
      }
    }

    /** The buffered changes go to the kernel with the wait. */
    method Submit(ghost v: View)
      requires waitingEvents == 0 && Stands([], {}, 0) == Sound(v)
      modifies this`changedEvents, kernel
      ensures changedEvents == 0 && kernel.filters == Wanted() && Stands([], {}, 0) == Sound(v)
    {
      Flush();
      assert Linked() && Pending() == Some(Wanted()) && changes[..0] == [];
    }

    /** What is reported is the new batch. */
    method Arrive(ready: seq<Option<(int, Filter)>>, ghost v: View) returns (n: nat)
      requires Stands([], {}, 0) == Sound(v) && kernel.filters == Wanted()
      modifies this`waitingEvents, events
      ensures kernel.filters == Wanted()
      ensures n == waitingEvents == |Fetch(v, ready, |ready|, changes.Length)| <= events.Length
      ensures Stands(Fetch(v, ready, |ready|, changes.Length), {}, 0) == Sound(v)
    {
      n := Report(ready, v);
      assert Linked() && Pending() == Some(Wanted()) && Slots() == v;
      waitingEvents := n;
      EntriesMatch(Fetch(v, ready, |ready|, changes.Length));
    }

    lemma EntriesMatch(entries: seq<Entry>)
      requires waitingEvents == |entries| <= events.Length
      requires forall j :: 0 <= j < waitingEvents ==> EntryIs(events[j], entries[j])
      ensures Matches(entries, {}, 0)
    {
      forall j | 0 <= j < waitingEvents
        ensures events[j].UserEvent? ==> entries[j].owner == null
        ensures events[j].Ready? ==>
                  && events[j].udata in repr && entries[j].owner != null && entries[j].owner in known
                  && entries[j].flag == FlagOf(events[j].filter) && events[j].udata.event == entries[j].owner
      {
        assert EntryIs(events[j], entries[j]);
      }
    }

    /** What an entry of the event list is for, as the batch sees it. */
    ghost predicate EntryIs(note: Notification, entry: Entry)
      reads `repr, `known, repr
    {
      match note
      case UserEvent => entry.owner == null
      case Ready(filter, udata) => Wants(filter, udata) && udata.event in known && entry == Entry(udata.event, FlagOf(filter))
    }

    /** The kernel's side of the wait: fills the event list. */
    method Report(ready: seq<Option<(int, Filter)>>, ghost v: View) returns (n: nat)
      requires Linked() && kernel.filters == Wanted() && 1 <= events.Length && Slots() == v
      modifies events
      ensures n == |Fetch(v, ready, |ready|, events.Length)|
      ensures forall j :: 0 <= j < n ==> EntryIs(events[j], Fetch(v, ready, |ready|, events.Length)[j])
    {
      n := 0;
      var i := 0;
      while i < |ready| && n < events.Length
        invariant 0 <= n <= events.Length && n <= i <= |ready|
        invariant Reported(v, ready, i, n)
      {
        n := ReportOne(ready, i, n, v);
        i := i + 1;
      }
      FetchIsFull(v, ready, i, |ready|, events.Length);
    }

    /** The first `n` entries are what was fetched of the first `i` things that became ready. */
    ghost predicate Reported(v: View, ready: seq<Option<(int, Filter)>>, i: nat, n: nat)
      requires i <= |ready| && n <= events.Length
      reads `repr, `known, repr, events
    {
      n == |Fetch(v, ready, i, events.Length)| && forall j :: 0 <= j < n ==> EntryIs(events[j], Fetch(v, ready, i, events.Length)[j])
    }

    method ReportOne(ready: seq<Option<(int, Filter)>>, i: nat, n: nat, ghost v: View) returns (m: nat)
      requires Linked() && kernel.filters == Wanted() && Slots() == v
      requires i < |ready| && n < events.Length && Reported(v, ready, i, n)
      modifies events
      ensures n <= m <= n + 1 && Reported(v, ready, i + 1, m)
    {
      m := n;
      match ready[i]
      case None =>
        FetchStep(v, ready, i, events.Length);
        events[n] := UserEvent;
        m := n + 1;
      case Some(key) =>
        FetchFilter(v, ready, i, key);
        if key in kernel.filters {
          events[n] := Ready(key.1, kernel.filters[key]);
          m := n + 1;
        }
    }

    /** What a filter that became ready adds to the batch. */
    lemma FetchFilter(v: View, ready: seq<Option<(int, Filter)>>, i: nat, key: (int, Filter))
      requires Linked() && Slots() == v && i < |ready| && ready[i] == Some(key)
      requires |Fetch(v, ready, i, events.Length)| < events.Length
      ensures var before, after := Fetch(v, ready, i, events.Length), Fetch(v, ready, i + 1, events.Length);
              if key in Wanted()
              then var p := Wanted()[key];
                   Wants(key.1, p) && p.event in known && after == before + [Entry(p.event, FlagOf(key.1))]
              else after == before
    {
      FetchStep(v, ready, i, events.Length);
      FilterOwner(key.0, key.1, v);
    }

    /** A filter is registered exactly if an open event wants it, and there is only one such event. */
    lemma FilterOwner(fd: int, filter: Filter, v: View)
      requires Linked() && Slots() == v
      ensures (fd, filter) in Wanted() <==> exists e :: e in v && Wanting(v, fd, filter, e)
      ensures forall e :: e in v && Wanting(v, fd, filter, e) ==>
                (fd, filter) in Wanted() && Wanted()[(fd, filter)] in repr && Wanted()[(fd, filter)].event == e && e in known
    {
      if (fd, filter) in Wanted() {
        var e := table[fd].event;
        assert e in v && Wanting(v, fd, filter, e);
      }
    }

    /** The operations concern events of this program. */
    ghost predicate OpKnown(op: Op)
      reads `known
    {
      op.e in known
    }

    /** What the events and their poll events say. */
    ghost function Slots(): View
      reads `table, `known, `repr, known, repr
      requires Linked()
    {
      map e | e in known :: Slot(e.fd, if e.pollEvent == null then None else Some(e.pollEvent.mask))
    }

    /**
     * From entry `from` on, each poll event named belongs to the event of the batch's entry; unless that
     * event was closed since, then it belongs to none, and is kept alive.
     */
    ghost predicate Matches(entries: seq<Entry>, gone: set<Event>, from: nat)
      reads `waitingEvents, `closedEvents, `repr, `known, events, repr
    {
      && waitingEvents <= events.Length && |entries| == waitingEvents
      && (forall j :: from <= j < waitingEvents ==>
            match events[j]
            case UserEvent => entries[j].owner == null
            case Ready(filter, udata) =>
              && udata in repr && entries[j].owner != null && entries[j].owner in known && entries[j].flag == FlagOf(filter)
              && udata.event == (if entries[j].owner in gone then null else entries[j].owner)
              && (entries[j].owner in gone ==> udata in closedEvents))
    }

    /** Consistent, also with the entries of the batch from `from` on. */
    ghost function Stands(entries: seq<Entry>, gone: set<Event>, from: nat): Standing
      reads `table, `known, `repr, `changedEvents, `waitingEvents, `closedEvents, known, repr, kernel, changes, events
    {
      if Valid() && Matches(entries, gone, from) then Sound(Slots()) else Broken
    }

    /** One operation of a callback, whether or not it succeeds. */
    method RunOp(op: Op, ghost from: nat, ghost b: Batch, ghost entries: seq<Entry>)
      requires OpKnown(op) && (processing || waitingEvents <= from) && Stands(entries, b.gone, from) == Sound(b.view)
      modifies this`table, this`changedEvents, this`closedEvents, this`repr, kernel, changes, known, repr
      ensures known == old(known) && old(repr) <= repr && fresh(repr - old(repr))
      ensures Stands(entries, OnBatch(b, op).gone, from) == Sound(OnBatch(b, op).view)
    {
      match op
      case Open(e) => OnOpen(e, from, b, entries);
      case Close(e) => OnClose(e, from, b, entries);
      case Insert(e, flag) => OnInsert(e, flag, from, b, entries);
      case Remove(e, flag) => OnRemove(e, flag, from, b, entries);
      case RemoveAndClose(e) => OnRemoveAndClose(e, from, b, entries);
      case SetFd(e, fd) => OnSetFd(e, fd, from, b, entries);
    }

    /** What one event says is changed, what the others say is not. */
    twostate lemma SlotChanged(new e: Event, slot: Slot)
      requires old(Linked()) && Linked() && known == old(known) && e in known
      requires forall x :: x in known && x != e ==> x.fd == old(x.fd) && x.pollEvent == old(x.pollEvent)
      requires forall x :: x in known && x != e && x.pollEvent != null ==> x.pollEvent.mask == old(x.pollEvent.mask)
      requires slot == Slot(e.fd, if e.pollEvent == null then None else Some(e.pollEvent.mask))
      ensures Slots() == old(Slots())[e := slot]
    {
    }

    /** The table knows which descriptors open events have. */
    lemma OccupiedMeans(fd: int)
      requires Linked()
      ensures Occupied(Slots(), fd) <==> fd in table
    {
      if fd in table {
        assert IsOpen(Slots(), table[fd].event);
      }
    }

    method OnOpen(e: Event, ghost from: nat, ghost b: Batch, ghost entries: seq<Entry>)
      requires e in known && (processing || waitingEvents <= from) && Stands(entries, b.gone, from) == Sound(b.view)
      modifies this`table, this`changedEvents, this`closedEvents, this`repr, kernel, changes, known, repr
      ensures known == old(known) && old(repr) <= repr && fresh(repr - old(repr))
      ensures Stands(entries, OnBatch(b, Open(e)).gone, from) == Sound(OnBatch(b, Open(e)).view)
    {
      OccupiedMeans(e.fd);
      var ok := OpenEvent(e);
      assert ok <==> After(b.view, Open(e)) != b.view;
      assert Matches(entries, OnBatch(b, Open(e)).gone, from);
      SlotChanged(e, After(b.view, Open(e))[e]);
      assert After(b.view, Open(e)) == b.view[e := After(b.view, Open(e))[e]];
    }

    method OnClose(e: Event, ghost from: nat, ghost b: Batch, ghost entries: seq<Entry>)
      requires e in known && (processing || waitingEvents <= from) && Stands(entries, b.gone, from) == Sound(b.view)
      modifies this`table, this`changedEvents, this`closedEvents, this`repr, kernel, changes, known, repr
      ensures known == old(known) && old(repr) <= repr && fresh(repr - old(repr))
      ensures Stands(entries, OnBatch(b, Close(e)).gone, from) == Sound(OnBatch(b, Close(e)).view)
    {
      var ok := CloseEvent(e);
      assert Matches(entries, OnBatch(b, Close(e)).gone, from);
      SlotChanged(e, After(b.view, Close(e))[e]);
      assert After(b.view, Close(e)) == b.view[e := After(b.view, Close(e))[e]];
    }

    method OnInsert(e: Event, flag: Flag, ghost from: nat, ghost b: Batch, ghost entries: seq<Entry>)
      requires e in known && (processing || waitingEvents <= from) && Stands(entries, b.gone, from) == Sound(b.view)
      modifies this`table, this`changedEvents, this`closedEvents, this`repr, kernel, changes, known, repr
      ensures known == old(known) && old(repr) <= repr && fresh(repr - old(repr))
      ensures Stands(entries, OnBatch(b, Insert(e, flag)).gone, from) == Sound(OnBatch(b, Insert(e, flag)).view)
    {
      var ok := InsertFlag(e, flag);
      assert Matches(entries, OnBatch(b, Insert(e, flag)).gone, from);
      SlotChanged(e, After(b.view, Insert(e, flag))[e]);
      assert After(b.view, Insert(e, flag)) == b.view[e := After(b.view, Insert(e, flag))[e]];
    }

    method OnRemove(e: Event, flag: Flag, ghost from: nat, ghost b: Batch, ghost entries: seq<Entry>)
      requires e in known && (processing || waitingEvents <= from) && Stands(entries, b.gone, from) == Sound(b.view)
      modifies this`table, this`changedEvents, this`closedEvents, this`repr, kernel, changes, known, repr
      ensures known == old(known) && old(repr) <= repr && fresh(repr - old(repr))
      ensures Stands(entries, OnBatch(b, Remove(e, flag)).gone, from) == Sound(OnBatch(b, Remove(e, flag)).view)
    {
      var ok := RemoveFlag(e, flag);
      assert Matches(entries, OnBatch(b, Remove(e, flag)).gone, from);
      SlotChanged(e, After(b.view, Remove(e, flag))[e]);
      assert After(b.view, Remove(e, flag)) == b.view[e := After(b.view, Remove(e, flag))[e]];
    }

    method OnRemoveAndClose(e: Event, ghost from: nat, ghost b: Batch, ghost entries: seq<Entry>)
      requires e in known && (processing || waitingEvents <= from) && Stands(entries, b.gone, from) == Sound(b.view)
      modifies this`table, this`changedEvents, this`closedEvents, this`repr, kernel, changes, known, repr
      ensures known == old(known) && old(repr) <= repr && fresh(repr - old(repr))
      ensures Stands(entries, OnBatch(b, RemoveAndClose(e)).gone, from) == Sound(OnBatch(b, RemoveAndClose(e)).view)
    {
      var ok := RemoveAndCloseEvent(e);
      assert ok <==> Closes(b.view, RemoveAndClose(e));
      assert Matches(entries, OnBatch(b, RemoveAndClose(e)).gone, from);
      SlotChanged(e, After(b.view, RemoveAndClose(e))[e]);
      assert After(b.view, RemoveAndClose(e)) == b.view[e := After(b.view, RemoveAndClose(e))[e]];
    }

    method OnSetFd(e: Event, fd: int, ghost from: nat, ghost b: Batch, ghost entries: seq<Entry>)
      requires e in known && (processing || waitingEvents <= from) && Stands(entries, b.gone, from) == Sound(b.view)
      modifies this`table, this`changedEvents, this`closedEvents, this`repr, kernel, changes, known, repr
      ensures known == old(known) && old(repr) <= repr && fresh(repr - old(repr))
      ensures Stands(entries, OnBatch(b, SetFd(e, fd)).gone, from) == Sound(OnBatch(b, SetFd(e, fd)).view)
    {
      if e.pollEvent != null {
        assert OnBatch(b, SetFd(e, fd)) == b;
        return;
      }
      e.fd := fd;
      assert Masks() == old(Masks());
      assert Matches(entries, OnBatch(b, SetFd(e, fd)).gone, from);
      SlotChanged(e, After(b.view, SetFd(e, fd))[e]);
      assert After(b.view, SetFd(e, fd)) == b.view[e := After(b.view, SetFd(e, fd))[e]];
    }

    /** A callback that returns: any operations in any order. */
    method RunCallback(ops: seq<Op>, ghost from: nat, ghost b: Batch, ghost entries: seq<Entry>)
      requires processing && Stands(entries, b.gone, from) == Sound(b.view)
      requires forall i :: 0 <= i < |ops| ==> OpKnown(ops[i])
      modifies this`table, this`changedEvents, this`closedEvents, this`repr, kernel, changes, known, repr
      ensures known == old(known) && old(repr) <= repr && fresh(repr - old(repr))
      ensures Stands(entries, OnBatchAll(b, ops).gone, from) == Sound(OnBatchAll(b, ops).view)
      decreases |ops|
    {
      if ops != [] {
        RunOp(ops[0], from, b, entries);
        RunCallback(ops[1..], from, OnBatch(b, ops[0]), entries);
      }
    }

    /** What the entries and the masks say agrees with what the batch says. */
    lemma ReceivesMeans(k: nat, b: Batch, entries: seq<Entry>)
      requires Stands(entries, b.gone, k) == Sound(b.view) && k < waitingEvents
      ensures k < events.Length && k < |entries|
      ensures events[k].Ready? ==> events[k].udata in repr
      ensures Receives(b, entries[k]) <==> events[k].Ready? && FlagOf(events[k].filter) in events[k].udata.mask
      ensures Receives(b, entries[k]) ==> events[k].udata.event == entries[k].owner && entries[k].owner.pollEvent == events[k].udata
    {
    }

    /** An entry that is done with no longer matters. */
    lemma EntryDone(k: nat, b: Batch, entries: seq<Entry>)
      requires Stands(entries, b.gone, k) == Sound(b.view)
      ensures Stands(entries, b.gone, k + 1) == Sound(b.view)
    {
    }

    /** One turn of the dispatch loop. */
    method TakeTurn(k: nat, ops: seq<Op>, ghost b: Batch, ghost entries: seq<Entry>) returns (turn: Turn)
      requires processing && k < waitingEvents <= events.Length && k < |entries| && Stands(entries, b.gone, k) == Sound(b.view)
      requires forall i :: 0 <= i < |ops| ==> OpKnown(ops[i])
      modifies this`table, this`changedEvents, this`closedEvents, this`repr, kernel, changes, known, repr
      ensures known == old(known) && old(repr) <= repr && fresh(repr - old(repr))
      ensures turn.Called? <==> events[k].Ready? && FlagOf(events[k].filter) in old(events[k].udata.mask)
      ensures turn.Called? ==> turn.open && turn.receiver == old(events[k].udata.event)
      ensures TurnIs(turn, entries[k], Receives(b, entries[k]))
      ensures var after := if Receives(b, entries[k]) then OnBatchAll(b, ops) else b;
              Stands(entries, after.gone, k + 1) == Sound(after.view)
    {
      ReceivesMeans(k, b, entries);
      var entry := events[k];
      if entry.Ready? && FlagOf(entry.filter) in entry.udata.mask {
        var receiver := entry.udata.event;
        turn := Called(receiver, receiver.pollEvent == entry.udata);
        RunCallback(ops, k, b, entries);
        EntryDone(k, OnBatchAll(b, ops), entries);
      } else {
        turn := Skipped;
        EntryDone(k, b, entries);
      }
    }

    /** What happens at an entry: the thread's own callbacks, then the turn. */
    method TakeEntry(k: nat, reaction: Reaction, ghost b: Batch, ghost entries: seq<Entry>) returns (turn: Turn)
      requires processing && k < waitingEvents <= events.Length && k < |entries| && Stands(entries, b.gone, k) == Sound(b.view)
      requires ReactionKnown(known, reaction)
      modifies this`table, this`changedEvents, this`closedEvents, this`repr, kernel, changes, known, repr
      ensures known == old(known) && old(repr) <= repr && fresh(repr - old(repr))
      ensures TurnIs(turn, entries[k], Receives(BeforeTurn(b, reaction), entries[k]))
      ensures Stands(entries, AfterEntry(b, entries[k], reaction).gone, k + 1) == Sound(AfterEntry(b, entries[k], reaction).view)
    {
      RunCallback(reaction.between, k, b, entries);
      turn := TakeTurn(k, reaction.callback, BeforeTurn(b, reaction), entries);
    }

    /** The dispatch loop. */
    method TakeTurns(script: seq<Reaction>, ghost b: Batch, ghost entries: seq<Entry>) returns (turns: seq<Turn>)
      requires processing && waitingEvents <= events.Length && |script| == waitingEvents == |entries|
      requires Stands(entries, b.gone, 0) == Sound(b.view)
      requires forall k :: 0 <= k < |script| ==> ReactionKnown(known, script[k])
      modifies this`table, this`changedEvents, this`closedEvents, this`repr, kernel, changes, known, repr
      ensures known == old(known) && old(repr) <= repr && fresh(repr - old(repr))
      ensures |turns| == waitingEvents
      ensures TurnsAre(turns, b, entries, script)
      ensures Stands(entries, AfterEntries(b, entries, script, |turns|).gone, |turns|) == Sound(AfterEntries(b, entries, script, |turns|).view)
    {
      turns := [];
      var k := 0;
      while k < waitingEvents
        invariant 0 <= k <= waitingEvents && |turns| == k
        invariant known == old(known) && old(repr) <= repr && fresh(repr - old(repr))
        invariant TurnsAre(turns, b, entries, script)
        invariant Stands(entries, AfterEntries(b, entries, script, k).gone, k) == Sound(AfterEntries(b, entries, script, k).view)
      {
        var turn := TakeEntry(k, script[k], AfterEntries(b, entries, script, k), entries);
        OneMoreTurn(turns, turn, b, entries, script);
        turns := turns + [turn];
        k := k + 1;
      }
    }

    /** Nothing is fetched any more, and the closed poll events may go. */
    method EndBatch(ghost gone: set<Event>, ghost entries: seq<Entry>, ghost v: View)
      requires Stands(entries, gone, waitingEvents) == Sound(v)
      modifies this`closedEvents, this`processing, this`waitingEvents
      ensures Stands([], {}, 0) == Sound(v) && !processing && waitingEvents == 0 && closedEvents == []
    {
      closedEvents := [];
      processing := false;
      waitingEvents := 0;
    }

    /** The beginning of a batch: nothing was closed yet. */
    method BeginBatch(ghost entries: seq<Entry>, ghost v: View)
      requires Stands(entries, {}, 0) == Sound(v)
      modifies this`closedEvents, this`processing
      ensures Stands(entries, {}, 0) == Sound(v) && processing && closedEvents == []
    {
      processing := true;
      closedEvents := [];
    }

    /**
     * Poll::process. Each entry is passed to the event that owned its poll event when the batch was
     * fetched, and which is still open under it, unless a callback made earlier in the batch took the
     * filter out of its mask. So it is never passed to an event closed earlier in the batch or to the
     * new owner of a reused descriptor, and none is lost. The interests afterwards are what the
     * operations of the callbacks that were made add up to.
     */
    method Process(script: seq<Reaction>, ghost v: View, ghost entries: seq<Entry>) returns (count: nat, turns: seq<Turn>)
      requires |script| == waitingEvents == |entries| && waitingEvents <= events.Length && Stands(entries, {}, 0) == Sound(v)
      requires forall k :: 0 <= k < |script| ==> ReactionKnown(known, script[k])
      modifies this`table, this`changedEvents, this`closedEvents, this`repr, this`processing, this`waitingEvents
      modifies kernel, changes, known, repr
      ensures !processing && waitingEvents == 0 && closedEvents == []
      ensures known == old(known) && old(repr) <= repr && fresh(repr - old(repr))
      ensures |turns| == |entries| && count == CalledTurns(turns)
      ensures TurnsAre(turns, Batch(v, {}), entries, script)
      ensures forall k :: 0 <= k < |turns| && Receives(Batch(v, {}), entries[k]) ==> TurnFits(turns, script, k, entries[k])
      ensures Stands([], {}, 0) == Sound(AfterEntries(Batch(v, {}), entries, script, |entries|).view)
    {
      BeginBatch(entries, v);
      turns := TakeTurns(script, Batch(v, {}), entries);
      SkippedWereDropped(v, entries, script, turns);
      count := CalledTurns(turns);
      ghost var after := AfterEntries(Batch(v, {}), entries, script, |entries|);
      EndBatch(after.gone, entries, after.view);
    }

    /** Poll::do_poll: an interrupted wait dispatches nothing, any other what it fetched. */
    method DoPoll(ready: seq<Option<(int, Filter)>>, interrupted: bool, script: seq<Reaction>, ghost v: View)
      returns (count: nat, turns: seq<Turn>)
      requires !processing && waitingEvents == 0 && |script| == |ready| && Stands([], {}, 0) == Sound(v)
      requires forall k :: 0 <= k < |script| ==> ReactionKnown(known, script[k])
      modifies this`table, this`changedEvents, this`closedEvents, this`repr, this`processing, this`waitingEvents
      modifies kernel, changes, events, known, repr
      ensures !processing && waitingEvents == 0
      ensures known == old(known) && old(repr) <= repr && fresh(repr - old(repr))
      ensures interrupted ==> turns == [] && changedEvents == 0 && table == old(table)
      ensures count == CalledTurns(turns)
      ensures var entries := Fetch(v, ready, |ready|, changes.Length);
              !interrupted ==>
                && |turns| == |entries|
                && TurnsAre(turns, Batch(v, {}), entries, script)
                && (forall k :: 0 <= k < |turns| && entries[k].owner != null ==> TurnFits(turns, script, k, entries[k]))
      ensures Stands([], {}, 0) == Sound(AfterWait(v, ready, interrupted, script, changes.Length))
    {
      ghost var entries := Fetch(v, ready, |ready|, changes.Length);
      var nfds := FetchEvents(ready, interrupted, v);
      count, turns := 0, [];
      if nfds != -1 {
        count, turns := Process(script[..nfds], v, entries);
        WaitDispatches(v, ready, script, changes.Length, turns);
      }
    }

    /**
     * A thread that makes any calls in any order keeps the poll consistent, no call is out of place, and
     * the interests are what the calls, and those of the callbacks that were made, add up to.
     */
    method Loop(steps: seq<Step>, ghost v: View)
      requires !processing && waitingEvents == 0 && Stands([], {}, 0) == Sound(v)
      requires forall k :: 0 <= k < |steps| ==> Scripted(steps[k]) && StepKnown(known, steps[k])
      modifies this`table, this`changedEvents, this`closedEvents, this`repr, this`processing, this`waitingEvents
      modifies kernel, changes, events, known, repr
      ensures !processing && waitingEvents == 0
      ensures Stands([], {}, 0) == Sound(AfterSteps(v, steps, changes.Length))
      decreases |steps|
    {
      if steps != [] {
        TakeStep(steps[0], v);
        Loop(steps[1..], AfterStep(v, steps[0], changes.Length));
      }
    }

    method TakeStep(step: Step, ghost v: View)
      requires !processing && waitingEvents == 0 && Stands([], {}, 0) == Sound(v)
      requires Scripted(step) && StepKnown(known, step)
      modifies this`table, this`changedEvents, this`closedEvents, this`repr, this`processing, this`waitingEvents
      modifies kernel, changes, events, known, repr
      ensures !processing && waitingEvents == 0
      ensures known == old(known) && old(repr) <= repr && fresh(repr - old(repr))
      ensures Stands([], {}, 0) == Sound(AfterStep(v, step, changes.Length))
    {
      match step
      case Call(op) => OutsideBatch(op, v);
      case Wait(ready, interrupted, script) => var count, turns := DoPoll(ready, interrupted, script, v);
    }

    /** An operation outside of any batch. */
    method OutsideBatch(op: Op, ghost v: View)
      requires OpKnown(op) && waitingEvents == 0 && Stands([], {}, 0) == Sound(v)
      modifies this`table, this`changedEvents, this`closedEvents, this`repr, kernel, changes, known, repr
      ensures known == old(known) && old(repr) <= repr && fresh(repr - old(repr))
      ensures Stands([], {}, 0) == Sound(After(v, op))
    {
      RunOp(op, 0, Batch(v, {}), []);
      assert Stands([], OnBatch(Batch(v, {}), op).gone, 0) == Stands([], {}, 0);
    }
  }

  lemma DroppedInScript(script: seq<Reaction>, turns: seq<Turn>, entries: seq<Entry>)
    requires |turns| == |entries| <= |script|
    ensures forall k :: 0 <= k < |turns| && TurnFits(turns, script[..|entries|], k, entries[k]) ==> TurnFits(turns, script, k, entries[k])
  {
    forall k | 0 <= k < |turns| && TurnFits(turns, script[..|entries|], k, entries[k]) ensures TurnFits(turns, script, k, entries[k]) {
      if turns[k].Skipped? {
        var j :| 0 <= j < k + 1 && j < |entries| && ReactionDrops(script[..|entries|][j], turns[j].Called?, entries[k].owner, entries[k].flag);
        assert ReactionDrops(script[j], turns[j].Called?, entries[k].owner, entries[k].flag);
      }
    }
  }

  /** The turns of a wait, with the whole script of the wait. */
  lemma WaitDispatches(v: View, ready: seq<Option<(int, Filter)>>, script: seq<Reaction>, limit: nat, turns: seq<Turn>)
    requires |script| == |ready|
    requires var entries := Fetch(v, ready, |ready|, limit);
             |turns| == |entries| && TurnsAre(turns, Batch(v, {}), entries, script[..|entries|])
    ensures var entries := Fetch(v, ready, |ready|, limit);
            && TurnsAre(turns, Batch(v, {}), entries, script)
            && (forall k :: 0 <= k < |turns| && entries[k].owner != null ==> TurnFits(turns, script, k, entries[k]))
            && AfterEntries(Batch(v, {}), entries, script[..|entries|], |entries|) == AfterEntries(Batch(v, {}), entries, script, |entries|)
  {
    var entries := Fetch(v, ready, |ready|, limit);
    ScriptPrefix(Batch(v, {}), entries, script);
    FetchedWant(v, ready, |ready|, limit);
    SkippedWereDropped(v, entries, script[..|entries|], turns);
    DroppedInScript(script, turns, entries);
  }

  /** What is fetched for an event is what it wants. */
  lemma {:induction false} FetchedWant(v: View, ready: seq<Option<(int, Filter)>>, k: nat, limit: nat)
    requires k <= |ready|
    ensures var entries := Fetch(v, ready, k, limit);
            forall i :: 0 <= i < |entries| && entries[i].owner != null ==> Receives(Batch(v, {}), entries[i])
    decreases k
  {
    if k == 0 {
    } else {
      FetchedWant(v, ready, k - 1, limit);
      FetchStep(v, ready, k - 1, limit);
    }
  }

  /** Only the part of the script that belongs to the entries matters. */
  lemma {:induction false} ScriptPrefixAt(b: Batch, entries: seq<Entry>, script: seq<Reaction>, k: nat)
    requires |entries| <= |script| && k <= |entries|
    ensures AfterEntries(b, entries, script[..|entries|], k) == AfterEntries(b, entries, script, k)
    decreases k
  {
    if k == 0 {
    } else {
      ScriptPrefixAt(b, entries, script, k - 1);
    }
  }

  lemma ScriptPrefix(b: Batch, entries: seq<Entry>, script: seq<Reaction>)
    requires |entries| <= |script|
    ensures AfterEntries(b, entries, script[..|entries|], |entries|) == AfterEntries(b, entries, script, |entries|)
    ensures forall k :: 0 <= k < |entries| ==> (IsCalled(b, entries, script[..|entries|], k) <==> IsCalled(b, entries, script, k))
  {
    ScriptPrefixAt(b, entries, script, |entries|);
    forall k | 0 <= k < |entries|
      ensures IsCalled(b, entries, script[..|entries|], k) <==> IsCalled(b, entries, script, k)
    {
      ScriptPrefixAt(b, entries, script, k);
    }
  }

  /** The number of entries that were dispatched. */
  function CalledTurns(turns: seq<Turn>): nat {
    if turns == [] then 0 else CalledTurns(turns[..|turns| - 1]) + if turns[|turns| - 1].Called? then 1 else 0
  }

  function CalledIn(turns: seq<Turn>): set<nat> {
    set k: nat | k < |turns| && turns[k].Called?
  }

  lemma {:induction false} CalledTurnsCounts(turns: seq<Turn>)
    ensures CalledTurns(turns) == |CalledIn(turns)|
    decreases |turns|
  {
    if turns == [] {
      assert CalledIn(turns) == {};
    } else {
      var last, before := |turns| - 1, turns[..|turns| - 1];
      CalledTurnsCounts(before);
      assert CalledIn(turns) == if turns[last].Called? then CalledIn(before) + {last} else CalledIn(before);
    }
  }
}
