/**
 * The sleep and wake protocol around a channel: the writer publishes, tries to move the consumer
 * state from polling to polling and interrupted, and sends a token if it did; the reader drains,
 * announces that it will poll, drains again, polls, and drains around clearing the announcement.
 */
module Wakeup {
  import opened Bytes
  import opened Ring
  import opened Placement
  import opened Interleaving
  import opened Runs

  const FLAG_POLLING := 1
  const FLAG_INTERRUPTED := 2

  /** Where the reader is in its event loop; each Drain is a call of process_reads. */
  datatype Phase = DrainPre | Arm | DrainArmed | Blocked | DrainPost | Disarm | DrainFinal

  /** Where the writer is in Router::write after Channel::write has published. */
  datatype Notify = Quiet | TryInterrupt | Sending

  /** `sent` and `armed` count the tokens sent and the announcements made so far. */
  datatype Link = Link(ring: State, flag: nat, notify: Notify, phase: Phase, tokens: nat, sent: nat, armed: nat)

  datatype LinkAction =
    | OnRing(a: Action)
    | CompareExchange
    | SendToken
    | StorePolling
    | PollReturns(reported: bool)
    | StoreZero

  predicate OfReader(a: Action) {
    a.LoadRead? || a.LoadOther? || a.Deliver? || a.Consume?
  }

  predicate Draining(p: Phase) {
    p.DrainPre? || p.DrainArmed? || p.DrainPost? || p.DrainFinal?
  }

  /** The phase after process_reads found the channel empty. */
  function AfterDrain(p: Phase): Phase {
    match p
    case DrainPre => Arm
    case DrainArmed => Blocked
    case DrainPost => Disarm
    case DrainFinal => DrainPre
    case other => other
  }

  /** A poll may return for other reasons than a token; `reported` says that it read one. */
  ghost predicate LinkEnabled(n: nat, l: Link, a: LinkAction) {
    match a
    case OnRing(b) => Enabled(n, l.ring, b) && (if OfReader(b) then Draining(l.phase) else l.notify.Quiet?)
    case CompareExchange => l.notify.TryInterrupt?
    case SendToken => l.notify.Sending?
    case StorePolling => l.phase.Arm?
    case PollReturns(reported) => l.phase.Blocked? && (reported ==> l.tokens > 0)
    case StoreZero => l.phase.Disarm?
  }

  /** The write of a token is dropped if `room` tokens fill the socket buffer already. */
  ghost function LinkDo(n: nat, t: nat, room: nat, l: Link, a: LinkAction): Link
    requires LinkEnabled(n, l, a)
  {
    match a
    case OnRing(b) =>
      var y := Do(n, t, l.ring, b);
      l.(ring := y,
         notify := if b.Publish? && y.writer.WriterIdle? then TryInterrupt else l.notify,
         phase := if b.LoadOther? && y.reader.ReaderIdle? then AfterDrain(l.phase) else l.phase)
    case CompareExchange =>
      if l.flag == FLAG_POLLING then l.(flag := FLAG_POLLING + FLAG_INTERRUPTED, notify := Sending)
      else l.(notify := Quiet)
    case SendToken =>
      if l.tokens < room then l.(tokens := l.tokens + 1, sent := l.sent + 1, notify := Quiet)
      else l.(notify := Quiet)
    case StorePolling => l.(flag := FLAG_POLLING, phase := DrainArmed, armed := l.armed + 1)
    case PollReturns(reported) => l.(tokens := if reported then l.tokens - 1 else l.tokens, phase := DrainPost)
    case StoreZero => l.(flag := 0, phase := DrainFinal)
  }

  ghost predicate LinkInit(n: nat, l: Link) {
    && Init(n, l.ring) && l.flag == 0 && l.notify.Quiet? && l.phase.DrainPre?
    && l.tokens == l.sent == l.armed == 0
  }

  // ---- Invariants -------------------------------------------------------------------------------

  ghost predicate Armed(p: Phase) {
    p.DrainArmed? || p.Blocked?
  }

  /** Why a reader that is about to block, or blocked, will be woken. */
  ghost predicate WakeInv(l: Link) {
    && (l.flag == 0 || l.flag == FLAG_POLLING || l.flag == FLAG_POLLING + FLAG_INTERRUPTED)
    && (Armed(l.phase) ==> l.flag != 0)
    && (Armed(l.phase) && l.flag != FLAG_POLLING ==> l.tokens > 0 || l.notify.Sending?)
    && (l.phase.Blocked? && l.ring.r != l.ring.w ==> l.notify.TryInterrupt? || l.flag != FLAG_POLLING)
    && (!Draining(l.phase) ==> l.ring.reader.ReaderIdle?)
  }

  /** A token is paid for by an announcement. */
  ghost predicate EconomyInv(l: Link) {
    l.sent + InFlight(l) + (if l.flag == FLAG_POLLING then 1 else 0) <= l.armed
  }

  ghost function InFlight(l: Link): nat {
    if l.notify.Sending? then 1 else 0
  }

  /** Bound on tokens that are pending, in flight, or may still be sent before the flag is cleared. */
  ghost predicate PendingInv(l: Link) {
    && (l.phase.DrainFinal? || l.phase.DrainPre? || l.phase.Arm? ==> l.flag == 0)
    && l.tokens + InFlight(l) + (if l.flag == FLAG_POLLING then 1 else 0) <= if Armed(l.phase) then 3 else 2
  }

  /** The reader alone moves the read offset, so its copy is current. */
  ghost predicate SnapshotInv(l: Link) {
    l.ring.reader.LoadedOwn? ==> l.ring.reader.s == l.ring.r
  }

  ghost predicate LinkGood(room: nat, l: Link) {
    1 <= room && SnapshotInv(l) && WakeInv(l) && EconomyInv(l)
  }

  /**
   * What the protocol needs to know about one step on the ring, in any state and whether it parks or
   * not: only a publication moves the write offset, and the reader only sees an empty channel, and
   * goes on to block, if the two offsets are equal.
   */
  lemma RingStepFacts(n: nat, t: nat, x: State, b: Action)
    requires Enabled(n, x, b) && (x.reader.LoadedOwn? ==> x.reader.s == x.r)
    ensures var y := Do(n, t, x, b);
            && (y.reader.LoadedOwn? ==> y.reader.s == y.r)
            && (!OfReader(b) ==> y.reader == x.reader && y.r == x.r)
            && (!b.Publish? ==> y.w == x.w)
            && (b.LoadOther? ==> y.r == x.r && (y.reader.ReaderIdle? ==> x.r == x.w))
            && (b.Publish? && y.w != x.w ==> y.writer.WriterIdle?)
  {
  }

  /** Every step keeps it: no assumption on the parameters, and no guard. */
  lemma LinkStepKeeps(n: nat, t: nat, room: nat, l: Link, a: LinkAction)
    requires LinkGood(room, l) && LinkEnabled(n, l, a)
    ensures LinkGood(room, LinkDo(n, t, room, l, a))
  {
    if a.OnRing? {
      RingStepFacts(n, t, l.ring, a.a);
    }
  }

  /** A poll with a pending token reports it. */
  ghost predicate Reports(l: Link, a: LinkAction) {
    a.PollReturns? && l.tokens > 0 ==> a.reported
  }

  lemma PendingStepKeeps(n: nat, t: nat, room: nat, l: Link, a: LinkAction)
    requires PendingInv(l) && LinkEnabled(n, l, a) && Reports(l, a)
    ensures PendingInv(LinkDo(n, t, room, l, a))
  {
  }

  // ---- Runs -------------------------------------------------------------------------------------

  ghost predicate Steps(n: nat, t: nat, room: nat, l: Link, a: LinkAction, next: Link) {
    LinkEnabled(n, l, a) && next == LinkDo(n, t, room, l, a)
  }

  /** `ls` are the states of a run that takes the actions `acts`, whatever they are. */
  ghost predicate LinkTrace(n: nat, t: nat, room: nat, ls: seq<Link>, acts: seq<LinkAction>) {
    && |ls| == |acts| + 1 && LinkInit(n, ls[0])
    && (forall i :: 0 <= i < |acts| ==> Steps(n, t, room, ls[i], acts[i], ls[i + 1]))
  }

  /** Every poll with a pending token reports it. */
  ghost predicate AlwaysReports(ls: seq<Link>, acts: seq<LinkAction>)
    requires |ls| == |acts| + 1
  {
    forall i :: 0 <= i < |acts| ==> Reports(ls[i], acts[i])
  }

  lemma {:induction false} TraceKeeps(n: nat, t: nat, room: nat, ls: seq<Link>, acts: seq<LinkAction>, k: nat)
    requires 1 <= room && LinkTrace(n, t, room, ls, acts) && k < |ls|
    ensures LinkGood(room, ls[k])
    ensures AlwaysReports(ls, acts) ==> PendingInv(ls[k])
  {
    if k == 0 {
    } else {
      TraceKeeps(n, t, room, ls, acts, k - 1);
      assert Steps(n, t, room, ls[k - 1], acts[k - 1], ls[k - 1 + 1]);
      LinkStepKeeps(n, t, room, ls[k - 1], acts[k - 1]);
      if AlwaysReports(ls, acts) {
        PendingStepKeeps(n, t, room, ls[k - 1], acts[k - 1]);
      }
    }
  }

  /**
   * No wakeup is lost: whenever the reader is blocked in poll and the channel is not empty, a token
   * is pending, or the writer has yet to send one, or it has yet to make a compare-exchange that
   * will succeed. So once the writer has returned from write, a token is pending.
   */
  lemma NoLostWakeup(n: nat, t: nat, room: nat, ls: seq<Link>, acts: seq<LinkAction>, k: nat)
    requires 1 <= room && LinkTrace(n, t, room, ls, acts) && k < |ls|
    requires ls[k].phase.Blocked? && ls[k].ring.r != ls[k].ring.w
    ensures ls[k].tokens > 0 || ls[k].notify.Sending? || (ls[k].notify.TryInterrupt? && ls[k].flag == FLAG_POLLING)
    ensures ls[k].notify.Quiet? ==> ls[k].tokens > 0
  {
    TraceKeeps(n, t, room, ls, acts, k);
  }

  /**
   * Tokens are not wasted: there are never more of them than announcements, and if every poll with a
   * pending token reports it, at most two are pending or in flight when the reader announces a poll.
   */
  lemma WakeupEconomy(n: nat, t: nat, room: nat, ls: seq<Link>, acts: seq<LinkAction>, k: nat)
    requires 1 <= room && LinkTrace(n, t, room, ls, acts) && k < |ls|
    ensures ls[k].sent + InFlight(ls[k]) <= ls[k].armed
    ensures AlwaysReports(ls, acts) && ls[k].phase.Arm? ==> ls[k].tokens + InFlight(ls[k]) <= 2
  {
    TraceKeeps(n, t, room, ls, acts, k);
  }

  // ---- The reader gets around its loop, and a message wakes it ------------------------------------

  /** The states `ls` follow each other by the actions `acts`. */
  ghost predicate Follows(n: nat, t: nat, room: nat, ls: seq<Link>, acts: seq<LinkAction>) {
    |ls| == |acts| + 1 && forall i :: 0 <= i < |acts| ==> Steps(n, t, room, ls[i], acts[i], ls[i + 1])
  }

  lemma FollowsOn(n: nat, t: nat, room: nat, ls: seq<Link>, acts: seq<LinkAction>, ms: seq<Link>, more: seq<LinkAction>)
    requires Follows(n, t, room, ls, acts) && Follows(n, t, room, ms, more) && ls[|acts|] == ms[0]
    ensures Follows(n, t, room, ls + ms[1..], acts + more)
  {
    var all, steps := ls + ms[1..], acts + more;
    forall i | 0 <= i < |steps| ensures Steps(n, t, room, all[i], steps[i], all[i + 1]) {
      if i >= |acts| {
        assert Steps(n, t, room, ms[i - |acts|], more[i - |acts|], ms[i - |acts| + 1]);
        assert all[i] == ms[i - |acts|] && all[i + 1] == ms[i - |acts| + 1];
      } else {
        assert Steps(n, t, room, ls[i], acts[i], ls[i + 1]);
        assert all[i] == ls[i] && all[i + 1] == ls[i + 1];
      }
    }
  }

  const LOOK := [OnRing(LoadRead), OnRing(LoadOther)]

  /** A drain that finds the channel empty ends, and the reader is where its loop goes on. */
  lemma FindsNothing(n: nat, t: nat, room: nat, l: Link) returns (ls: seq<Link>)
    requires Draining(l.phase) && l.ring.reader.ReaderIdle? && l.ring.r == l.ring.w
    ensures Follows(n, t, room, ls, LOOK) && ls[0] == l
    ensures ls[2] == l.(phase := match l.phase
                                 case DrainPre => Arm
                                 case DrainArmed => Blocked
                                 case DrainPost => Disarm
                                 case _ => DrainPre)
  {
    var l1 := LinkDo(n, t, room, l, OnRing(LoadRead));
    var l2 := LinkDo(n, t, room, l1, OnRing(LoadOther));
    ls := [l, l1, l2];
    assert Steps(n, t, room, ls[0], LOOK[0], ls[1]) && Steps(n, t, room, ls[1], LOOK[1], ls[2]);
  }

  /** A drain that finds a record hands it over and can consume it, and goes on. */
  lemma FindsRecord(n: nat, t: nat, room: nat, l: Link) returns (ls: seq<Link>)
    requires Good(n, t, l.ring) && Draining(l.phase) && l.ring.reader.ReaderIdle? && l.ring.r != l.ring.w
    ensures Follows(n, t, room, ls, LOOK + [OnRing(Deliver)]) && ls[0] == l
    ensures Unread(n, l.ring.mem, l.ring.r, l.ring.w) != []
    ensures ls[3] == l.(ring := ls[3].ring)
    ensures ls[3].ring.delivered == l.ring.delivered + [Unread(n, l.ring.mem, l.ring.r, l.ring.w)[0]]
    ensures LinkEnabled(n, ls[3], OnRing(Consume))
  {
    var x1, x2, y := ReaderTakesHead(n, t, l.ring);
    var l1, l2, l3 := l.(ring := x1), l.(ring := x2), l.(ring := y);
    ls := [l, l1, l2, l3];
    assert Steps(n, t, room, l, OnRing(LoadRead), l1) && Steps(n, t, room, l1, OnRing(LoadOther), l2);
    assert Steps(n, t, room, l2, OnRing(Deliver), l3);
    var acts := LOOK + [OnRing(Deliver)];
    assert acts[0] == OnRing(LoadRead) && acts[1] == OnRing(LoadOther) && acts[2] == OnRing(Deliver);
  }

  /** One step of the loop between two drains. */
  lemma OneStep(n: nat, t: nat, room: nat, l: Link, a: LinkAction)
    requires LinkEnabled(n, l, a)
    ensures Follows(n, t, room, [l, LinkDo(n, t, room, l, a)], [a])
  {
  }

  /**
   * With an empty channel the reader goes to sleep by its own steps alone, whatever the writer is
   * about, ...
   */
  lemma FallsAsleep(n: nat, t: nat, room: nat, l: Link) returns (ls: seq<Link>)
    requires l.phase.DrainPre? && l.ring.reader.ReaderIdle? && l.ring.r == l.ring.w
    ensures Follows(n, t, room, ls, LOOK + [StorePolling] + LOOK) && ls[0] == l
    ensures ls[5] == l.(phase := Blocked, flag := FLAG_POLLING, armed := l.armed + 1)
  {
    var a := FindsNothing(n, t, room, l);
    OneStep(n, t, room, a[2], StorePolling);
    var armed := LinkDo(n, t, room, a[2], StorePolling);
    var b := FindsNothing(n, t, room, armed);
    FollowsOn(n, t, room, a, LOOK, [a[2], armed], [StorePolling]);
    ls := a + [armed];
    assert [a[2], armed][1..] == [armed];
    FollowsOn(n, t, room, ls, LOOK + [StorePolling], b, LOOK);
    ls := ls + b[1..];
  }

  /** ... and when the poll returns it is back at the start, with its announcement withdrawn. */
  lemma GetsUp(n: nat, t: nat, room: nat, l: Link, reported: bool) returns (ls: seq<Link>)
    requires l.phase.Blocked? && l.ring.reader.ReaderIdle? && l.ring.r == l.ring.w && (reported ==> l.tokens > 0)
    ensures Follows(n, t, room, ls, [PollReturns(reported)] + LOOK + [StoreZero] + LOOK) && ls[0] == l
    ensures ls[6] == l.(phase := DrainPre, flag := 0, tokens := if reported then l.tokens - 1 else l.tokens)
  {
    OneStep(n, t, room, l, PollReturns(reported));
    var up := LinkDo(n, t, room, l, PollReturns(reported));
    var a := FindsNothing(n, t, room, up);
    OneStep(n, t, room, a[2], StoreZero);
    var cleared := LinkDo(n, t, room, a[2], StoreZero);
    var b := FindsNothing(n, t, room, cleared);
    FollowsOn(n, t, room, [l, up], [PollReturns(reported)], a, LOOK);
    ls := [l, up] + a[1..];
    FollowsOn(n, t, room, ls, [PollReturns(reported)] + LOOK, [a[2], cleared], [StoreZero]);
    assert [a[2], cleared][1..] == [cleared];
    ls := ls + [cleared];
    FollowsOn(n, t, room, ls, [PollReturns(reported)] + LOOK + [StoreZero], b, LOOK);
    ls := ls + b[1..];
  }

  ghost function WriteActions(id: nat, data: seq<Byte>): seq<LinkAction> {
    [OnRing(Begin(id, data)), OnRing(LoadWrite), OnRing(StoreOne), OnRing(Publish)]
  }

  lemma FourSteps(n: nat, t: nat, room: nat, ls: seq<Link>, acts: seq<LinkAction>)
    requires |ls| == 5 && |acts| == 4
    requires Steps(n, t, room, ls[0], acts[0], ls[1]) && Steps(n, t, room, ls[1], acts[1], ls[2])
    requires Steps(n, t, room, ls[2], acts[2], ls[3]) && Steps(n, t, room, ls[3], acts[3], ls[4])
    ensures Follows(n, t, room, ls, acts)
  {
  }

  /** A step of the writer on the ring, with nothing else to do. */
  lemma WriterStep(n: nat, t: nat, room: nat, l: Link, a: Action, y: State)
    requires l.notify.Quiet? && OfWriter(a) && StepsTo(n, t, l.ring, a, y)
    ensures Steps(n, t, room, l, OnRing(a), l.(ring := y, notify := if a.Publish? && y.writer.WriterIdle? then TryInterrupt else Quiet))
  {
  }

  /** A short message is published, and the writer is about to look at the flag. */
  lemma Publishes(n: nat, t: nat, room: nat, l: Link, id: nat, data: seq<Byte>, x1: State, x2: State, x3: State, y: State)
    returns (ls: seq<Link>)
    requires l.notify.Quiet? && y.writer.WriterIdle?
    requires StepsTo(n, t, l.ring, Begin(id, data), x1) && StepsTo(n, t, x1, LoadWrite, x2)
    requires StepsTo(n, t, x2, StoreOne, x3) && StepsTo(n, t, x3, Publish, y)
    ensures Follows(n, t, room, ls, WriteActions(id, data)) && ls[0] == l
    ensures ls[4] == l.(ring := y, notify := TryInterrupt)
  {
    var l1, l2, l3, l4 := l.(ring := x1), l.(ring := x2), l.(ring := x3), l.(ring := y, notify := TryInterrupt);
    ls := [l, l1, l2, l3, l4];
    WriterStep(n, t, room, l, Begin(id, data), x1);
    WriterStep(n, t, room, l1, LoadWrite, x2);
    WriterStep(n, t, room, l2, StoreOne, x3);
    WriterStep(n, t, room, l3, Publish, y);
    FourSteps(n, t, room, ls, WriteActions(id, data));
  }

  ghost function WakeActions(id: nat, data: seq<Byte>): seq<LinkAction> {
    WriteActions(id, data) + [CompareExchange] + [SendToken] + [PollReturns(true)] + (LOOK + [OnRing(Deliver)])
  }

  /** A message for a sleeping reader sends a token, the poll reports it, and the message is handed over. */
  lemma MessageWakes(n: nat, t: nat, room: nat, l: Link, id: nat, data: seq<Byte>) returns (ls: seq<Link>)
    requires Good(n, t, l.ring) && l.ring.writer.WriterIdle? && l.ring.reader.ReaderIdle? && l.ring.r == l.ring.w
    requires l.phase.Blocked? && l.flag == FLAG_POLLING && l.notify.Quiet? && l.tokens < room
    requires 1 <= id < WORD && 1 <= |data| <= CACHE_LINE - HEADER
    ensures Follows(n, t, room, ls, WakeActions(id, data)) && ls[0] == l
    ensures ls[6].phase.Blocked? && ls[6].ring.r != ls[6].ring.w && ls[6].tokens == l.tokens + 1 && ls[6].sent == l.sent + 1
    ensures ls[7].phase.DrainPost? && ls[7].tokens == l.tokens
    ensures ls[10].ring.delivered == l.ring.delivered + [Record(id, data)]
  {
    var x1, x2, x3, y := WriteShort(n, t, l.ring, id, data);
    var a := Publishes(n, t, room, l, id, data, x1, x2, x3, y);
    OneStep(n, t, room, a[4], CompareExchange);
    var l5 := LinkDo(n, t, room, a[4], CompareExchange);
    OneStep(n, t, room, l5, SendToken);
    var l6 := LinkDo(n, t, room, l5, SendToken);
    OneStep(n, t, room, l6, PollReturns(true));
    var l7 := LinkDo(n, t, room, l6, PollReturns(true));
    var b := FindsRecord(n, t, room, l7);
    FollowsOn(n, t, room, a, WriteActions(id, data), [a[4], l5], [CompareExchange]);
    assert [a[4], l5][1..] == [l5];
    ls := a + [l5];
    FollowsOn(n, t, room, ls, WriteActions(id, data) + [CompareExchange], [l5, l6], [SendToken]);
    assert [l5, l6][1..] == [l6];
    ls := ls + [l6];
    FollowsOn(n, t, room, ls, WriteActions(id, data) + [CompareExchange] + [SendToken], [l6, l7], [PollReturns(true)]);
    assert [l6, l7][1..] == [l7];
    ls := ls + [l7];
    FollowsOn(n, t, room, ls, WriteActions(id, data) + [CompareExchange] + [SendToken] + [PollReturns(true)], b, LOOK + [OnRing(Deliver)]);
    ls := ls + b[1..];
  }

  /** So there is a run in which the reader sleeps, is woken by a message, and gets it. */
  lemma SleepsAndWakes(n: nat, t: nat, room: nat, l: Link, id: nat, data: seq<Byte>) returns (ls: seq<Link>, acts: seq<LinkAction>)
    requires Params(n, t) && 1 <= room && LinkInit(n, l)
    requires 1 <= id < WORD && 1 <= |data| <= CACHE_LINE - HEADER
    ensures LinkTrace(n, t, room, ls, acts) && ls[0] == l && |acts| == 15
    ensures ls[5].phase.Blocked? && ls[5].ring.r == ls[5].ring.w && ls[5].tokens == 0
    ensures ls[11].phase.Blocked? && ls[11].ring.r != ls[11].ring.w && ls[11].tokens == 1
    ensures ls[15].ring.delivered == [Record(id, data)]
  {
    InitIsGood(n, t, l.ring);
    var a := FallsAsleep(n, t, room, l);
    var b := MessageWakes(n, t, room, a[5], id, data);
    acts := LOOK + [StorePolling] + LOOK + WakeActions(id, data);
    FollowsOn(n, t, room, a, LOOK + [StorePolling] + LOOK, b, WakeActions(id, data));
    ls := a + b[1..];
  }

  /** In every state reached under the guard both sides can go on. */
  lemma BothMove(n: nat, t: nat, l: Link)
    requires Good(n, t, l.ring)
    ensures exists a :: LinkEnabled(n, l, a) && ((a.OnRing? && OfWriter(a.a)) || a.CompareExchange? || a.SendToken?)
    ensures exists a :: LinkEnabled(n, l, a) && ((a.OnRing? && OfReader(a.a)) || a.StorePolling? || a.PollReturns? || a.StoreZero?)
  {
    WriterMoves(n, t, l.ring);
    ReaderMoves(n, t, l.ring);
    match l.notify {
      case Quiet =>
        assert Enabled(n, l.ring, Begin(1, [0])) || exists b :: OfWriter(b) && !b.Begin? && Enabled(n, l.ring, b);
        var b :| OfWriter(b) && Enabled(n, l.ring, b);
        assert LinkEnabled(n, l, OnRing(b));
      case TryInterrupt => assert LinkEnabled(n, l, CompareExchange);
      case Sending => assert LinkEnabled(n, l, SendToken);
    }
    match l.phase {
      case Arm => assert LinkEnabled(n, l, StorePolling);
      case Blocked => assert LinkEnabled(n, l, PollReturns(false));
      case Disarm => assert LinkEnabled(n, l, StoreZero);
      case _ =>
        var b :| !OfWriter(b) && Enabled(n, l.ring, b);
        assert LinkEnabled(n, l, OnRing(b));
    }
  }

  // ---- Why the channel is drained again after the announcement -----------------------------------

  /**
   * A message that comes between the first drain and the announcement sends no token: the channel is
   * not empty, and nothing is pending or in flight. A reader that announced and polled without
   * draining again would sleep on it.
   */
  lemma SilentArrival(n: nat, t: nat, room: nat, l: Link, id: nat, data: seq<Byte>) returns (ls: seq<Link>, acts: seq<LinkAction>)
    requires Params(n, t) && LinkInit(n, l)
    requires 1 <= id < WORD && 1 <= |data| <= CACHE_LINE - HEADER
    ensures LinkTrace(n, t, room, ls, acts) && ls[0] == l
    ensures var end := ls[|acts|];
            end.phase.Arm? && end.ring.r != end.ring.w && end.notify.Quiet? && end.tokens == 0 && end.flag == 0
  {
    InitIsGood(n, t, l.ring);
    var a := FindsNothing(n, t, room, l);
    var x1, x2, x3, y := WriteShort(n, t, a[2].ring, id, data);
    var b := Publishes(n, t, room, a[2], id, data, x1, x2, x3, y);
    OneStep(n, t, room, b[4], CompareExchange);
    var end := LinkDo(n, t, room, b[4], CompareExchange);
    FollowsOn(n, t, room, a, LOOK, b, WriteActions(id, data));
    ls := a + b[1..];
    FollowsOn(n, t, room, ls, LOOK + WriteActions(id, data), [b[4], end], [CompareExchange]);
    assert [b[4], end][1..] == [end];
    acts := LOOK + WriteActions(id, data) + [CompareExchange];
    ls := ls + [end];
  }
}
