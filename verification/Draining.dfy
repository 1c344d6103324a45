/**
 * The loop of Router::process_reads with the writer at rest: which records it hands over while the
 * handlers succeed, and when it ends.
 */
module Draining {
  import opened Bytes
  import opened Ring
  import opened SharedChannel
  import opened Handlers

  /** There is a record to take, with a header that the reader accepts. */
  ghost predicate Takes(mem: seq<Byte>, r: nat, w: nat) {
    r != w && r + HEADER <= |mem| && r + HEADER + SizeAt(mem, r) <= |mem|
  }

  /** The read offset after some turns of the loop; it stays once the offsets are equal. */
  ghost function ReadAfter(n: nat, mem: seq<Byte>, r: nat, w: nat, turns: nat): nat
    decreases turns
  {
    if turns == 0 || !Takes(mem, r, w) then r else ReadAfter(n, mem, AfterConsume(n, mem, r), w, turns - 1)
  }

  /** The records handed over in these turns. */
  ghost function Handed(n: nat, mem: seq<Byte>, r: nat, w: nat, turns: nat): seq<Record>
    decreases turns
  {
    if turns == 0 || !Takes(mem, r, w) then []
    else [RecordAt(mem, r)] + Handed(n, mem, AfterConsume(n, mem, r), w, turns - 1)
  }

  lemma {:induction false} HandedConcat(n: nat, mem: seq<Byte>, r: nat, w: nat, a: nat, b: nat)
    ensures ReadAfter(n, mem, r, w, a + b) == ReadAfter(n, mem, ReadAfter(n, mem, r, w, a), w, b)
    ensures Handed(n, mem, r, w, a + b) == Handed(n, mem, r, w, a) + Handed(n, mem, ReadAfter(n, mem, r, w, a), w, b)
    decreases a
  {
    if a == 0 || !Takes(mem, r, w) {
    } else {
      HandedConcat(n, mem, AfterConsume(n, mem, r), w, a - 1, b);
    }
  }

  /** What a turn takes, and the queue behind it, which the parked case fills again. */
  lemma OneTurn(n: nat, t: nat, mem: seq<Byte>, r: nat, w: nat)
    requires ValidState(n, t, mem, r, w) && r != w
    ensures Takes(mem, r, w) && Unread(n, mem, r, w) != [] && RecordAt(mem, r) == Unread(n, mem, r, w)[0]
    ensures var q, next := Unread(n, mem, r, w), AfterConsume(n, mem, r);
            && ValidState(n, t, mem, next, w)
            && Unread(n, mem, next, w) == if w == n && |q| == 1 then Walk(mem, 0, w) else q[1..]
  {
    HeadRecord(n, mem, r, w);
    ConsumeEffect(n, t, mem, r, w);
    ParksAtLast(n, mem, r, w);
  }

  lemma OneTurnHands(n: nat, mem: seq<Byte>, r: nat, w: nat, turns: nat)
    requires Takes(mem, r, w) && turns != 0
    ensures Handed(n, mem, r, w, turns) == [RecordAt(mem, r)] + Handed(n, mem, AfterConsume(n, mem, r), w, turns - 1)
    ensures ReadAfter(n, mem, r, w, turns) == ReadAfter(n, mem, AfterConsume(n, mem, r), w, turns - 1)
  {
  }

  lemma SplitHead<T>(q: seq<T>, k: nat)
    requires 1 <= k <= |q|
    ensures q[..k] == [q[0]] + q[1..][..k - 1] && q[1..][k - 1..] == q[k..]
  {
  }

  /** The unread records are handed over first, in order. */
  lemma {:induction false} HandedInOrder(n: nat, t: nat, mem: seq<Byte>, r: nat, w: nat, turns: nat)
    requires ValidState(n, t, mem, r, w) && turns <= |Unread(n, mem, r, w)|
    ensures ValidState(n, t, mem, ReadAfter(n, mem, r, w, turns), w)
    ensures Handed(n, mem, r, w, turns) == Unread(n, mem, r, w)[..turns]
    ensures Unread(n, mem, ReadAfter(n, mem, r, w, turns), w)
         == if w == n && 1 <= turns == |Unread(n, mem, r, w)| then Walk(mem, 0, w) else Unread(n, mem, r, w)[turns..]
    decreases turns
  {
    if turns == 0 {
    } else {
      HeadRecord(n, mem, r, w);
      OneTurn(n, t, mem, r, w);
      OneTurnHands(n, mem, r, w, turns);
      SplitHead(Unread(n, mem, r, w), turns);
      if turns != 1 || w < n {
        HandedInOrder(n, t, mem, AfterConsume(n, mem, r), w, turns - 1);
      }
    }
  }

  /** The loop never leaves a valid channel. */
  lemma {:induction false} ReadStaysValid(n: nat, t: nat, mem: seq<Byte>, r: nat, w: nat, turns: nat)
    requires ValidState(n, t, mem, r, w)
    ensures ValidState(n, t, mem, ReadAfter(n, mem, r, w, turns), w)
    decreases turns
  {
    if turns == 0 || r == w {
    } else {
      OneTurn(n, t, mem, r, w);
      ReadStaysValid(n, t, mem, AfterConsume(n, mem, r), w, turns - 1);
    }
  }

  /**
   * The loop ends if and only if the write offset is not parked at the end of the buffer. It then
   * has handed over each unread record once, in order.
   */
  lemma DrainEnds(n: nat, t: nat, mem: seq<Byte>, r: nat, w: nat)
    requires ValidState(n, t, mem, r, w)
    ensures (exists turns :: ReadAfter(n, mem, r, w, turns) == w) <==> w < n
    ensures w < n ==> forall turns :: |Unread(n, mem, r, w)| <= turns ==> Handed(n, mem, r, w, turns) == Unread(n, mem, r, w)
  {
    if w < n {
      var q := Unread(n, mem, r, w);
      HandedInOrder(n, t, mem, r, w, |q|);
      HeadRecord(n, mem, ReadAfter(n, mem, r, w, |q|), w);
      forall turns | |q| <= turns ensures Handed(n, mem, r, w, turns) == q {
        HandedConcat(n, mem, r, w, |q|, turns - |q|);
      }
    } else {
      forall turns ensures ReadAfter(n, mem, r, w, turns) != w {
        ReadStaysValid(n, t, mem, r, w, turns);
      }
    }
  }

  ghost function Repeat(lap: seq<Record>, times: nat): seq<Record> {
    if times == 0 then [] else lap + Repeat(lap, times - 1)
  }

  /** With a parked write offset the loop hands over the last lap of the writer again and again. */
  lemma {:induction false} ParkedReplays(n: nat, t: nat, mem: seq<Byte>, r: nat, times: nat, turns: nat)
    requires ValidState(n, t, mem, r, n)
    requires turns == |Unread(n, mem, r, n)| + |Repeat(Walk(mem, 0, n), times)|
    ensures Handed(n, mem, r, n, turns) == Unread(n, mem, r, n) + Repeat(Walk(mem, 0, n), times)
    decreases times
  {
    var q, rest := Unread(n, mem, r, n), Repeat(Walk(mem, 0, n), times);
    HandedInOrder(n, t, mem, r, n, |q|);
    assert q[..|q|] == q;
    if times == 0 {
      assert rest == [] && turns == |q|;
    } else {
      HeadRecord(n, mem, r, n);
      var end := ReadAfter(n, mem, r, n, |q|);
      assert Unread(n, mem, end, n) == Walk(mem, 0, n);
      ParkedReplays(n, t, mem, end, times - 1, |rest|);
      HandedConcat(n, mem, r, n, |q|, |rest|);
    }
  }

  // ---- With handlers ----------------------------------------------------------------------------

  /** After `k` turns that succeeded. */
  ghost predicate Running(n: nat, mem: seq<Byte>, r: nat, w: nat, start: Table, k: nat, now: nat, t: Table) {
    && ReadAfter(n, mem, r, w, k) == now && |Handed(n, mem, r, w, k)| == k
    && Drain(start, Handed(n, mem, r, w, k)) == Drained(t, k, true)
  }

  /** After the loop has ended with `k` records consumed: nothing was left to read, or a turn failed. */
  ghost predicate Ended(n: nat, mem: seq<Byte>, r: nat, w: nat, start: Table, k: nat, now: nat, t: Table, ok: bool) {
    if ok then Running(n, mem, r, w, start, k, now, t) && now == w
    else
      && ReadAfter(n, mem, r, w, k) == now && |Handed(n, mem, r, w, k + 1)| == k + 1
      && Drain(start, Handed(n, mem, r, w, k + 1)) == Drained(t, k, false)
  }

  /** The loop ends within `turns` turns. */
  ghost predicate EndsWithin(n: nat, mem: seq<Byte>, r: nat, w: nat, start: Table, turns: nat) {
    ReadAfter(n, mem, r, w, turns) == w || !Drain(start, Handed(n, mem, r, w, turns)).ok
  }

  lemma HandedOneMore(n: nat, mem: seq<Byte>, r: nat, w: nat, k: nat)
    requires Takes(mem, ReadAfter(n, mem, r, w, k), w)
    ensures Handed(n, mem, r, w, k + 1) == Handed(n, mem, r, w, k) + [RecordAt(mem, ReadAfter(n, mem, r, w, k))]
    ensures ReadAfter(n, mem, r, w, k + 1) == AfterConsume(n, mem, ReadAfter(n, mem, r, w, k))
  {
    var now := ReadAfter(n, mem, r, w, k);
    HandedConcat(n, mem, r, w, k, 1);
    OneTurnHands(n, mem, now, w, 1);
    assert Handed(n, mem, AfterConsume(n, mem, now), w, 0) == [];
  }

  /** A turn that takes a record ends the loop or lets it run on. */
  lemma TurnTakes(n: nat, mem: seq<Byte>, r: nat, w: nat, start: Table, k: nat, now: nat, table: Table, out: Outcome)
    requires Running(n, mem, r, w, start, k, now, table) && Takes(mem, now, w) && out == Handle(table, RecordAt(mem, now))
    ensures out.Failed? ==> Ended(n, mem, r, w, start, k, now, out.table, false)
    ensures out.Done? ==> Running(n, mem, r, w, start, k + 1, AfterConsume(n, mem, now), out.table)
  {
    HandedOneMore(n, mem, r, w, k);
    DrainOneMore(start, Handed(n, mem, r, w, k), RecordAt(mem, now), table, out);
  }

  /** The next turn, from what the loop sees of it; `limit` turns are enough. */
  lemma NextTurn(n: nat, t: nat, mem: seq<Byte>, r: nat, w: nat, start: Table, k: nat, now: nat, table: Table, limit: nat)
    requires ValidState(n, t, mem, r, w) && Running(n, mem, r, w, start, k, now, table) && now != w
    requires k <= limit && EndsWithin(n, mem, r, w, start, limit)
    ensures k < limit && Takes(mem, now, w)
    ensures var out := Handle(table, RecordAt(mem, now));
            && (out.Failed? ==> Ended(n, mem, r, w, start, k, now, out.table, false))
            && (out.Done? ==> Running(n, mem, r, w, start, k + 1, AfterConsume(n, mem, now), out.table))
  {
    ReadStaysValid(n, t, mem, r, w, k);
    OneTurn(n, t, mem, now, w);
    TurnTakes(n, mem, r, w, start, k, now, table, Handle(table, RecordAt(mem, now)));
  }

  /**
   * Unless it would consume the last record under a parked write offset, the loop ends; it has then
   * read the unread records up to the first failing one, and nothing else.
   */
  lemma GuardedLoopEnds(n: nat, t: nat, mem: seq<Byte>, r: nat, w: nat, start: Table)
    requires ValidState(n, t, mem, r, w) && (w < n || !Drain(start, Unread(n, mem, r, w)).ok)
    ensures EndsWithin(n, mem, r, w, start, |Unread(n, mem, r, w)|)
  {
    var q := Unread(n, mem, r, w);
    HandedInOrder(n, t, mem, r, w, |q|);
    assert q[..|q|] == q;
    if w < n {
      HeadRecord(n, mem, ReadAfter(n, mem, r, w, |q|), w);
    }
  }

  /** With a parked write offset only a failing turn ends the loop, among the records or their replays. */
  lemma ParkedLoopEnds(n: nat, t: nat, mem: seq<Byte>, r: nat, start: Table, turns: nat)
    requires ValidState(n, t, mem, r, n)
    ensures EndsWithin(n, mem, r, n, start, turns) <==> !Drain(start, Handed(n, mem, r, n, turns)).ok
  {
    ReadStaysValid(n, t, mem, r, n, turns);
  }

  /** Either way it makes no more turns than there are unread records. */
  lemma FreeTurns(n: nat, t: nat, mem: seq<Byte>, r: nat, w: nat, turns: nat)
    requires ValidState(n, t, mem, r, w) && w < n && |Handed(n, mem, r, w, turns)| == turns
    ensures turns <= |Unread(n, mem, r, w)|
  {
    DrainEnds(n, t, mem, r, w);
  }

  lemma UnreadFirst(n: nat, t: nat, mem: seq<Byte>, r: nat, w: nat, turns: nat)
    requires ValidState(n, t, mem, r, w) && |Unread(n, mem, r, w)| <= turns
    ensures Unread(n, mem, r, w) <= Handed(n, mem, r, w, turns)
  {
    var q := Unread(n, mem, r, w);
    HandedInOrder(n, t, mem, r, w, |q|);
    assert q[..|q|] == q;
    HandedConcat(n, mem, r, w, |q|, turns - |q|);
  }

  lemma ParkedTurns(start: Table, q: seq<Record>, handed: seq<Record>, turns: nat)
    requires |q| <= turns ==> q <= handed
    requires !Drain(start, q).ok && Drain(start, handed).count + 1 >= turns
    ensures turns <= |q|
  {
    if turns > |q| {
      assert handed == q + handed[|q|..];
      DrainStopsEarly(start, q, handed[|q|..]);
    }
  }

  /** What the loop has read when it ended: `turns` counts the turn that failed. */
  lemma GuardedRead(start: Table, q: seq<Record>, k: nat, turns: nat, table: Table, ok: bool)
    requires turns <= |q| && turns == if ok then k else k + 1
    requires Drain(start, q[..turns]) == Drained(table, k, ok) && (ok ==> turns == |q|)
    ensures Drain(start, q) == Drained(table, k, ok)
  {
    assert q == q[..turns] + q[turns..];
    if ok {
      assert q[..turns] == q;
    } else {
      DrainStopsEarly(start, q[..turns], q[turns..]);
    }
  }

  lemma GuardedLoopReads(n: nat, t: nat, mem: seq<Byte>, r: nat, w: nat, start: Table, k: nat, now: nat, table: Table, ok: bool)
    requires ValidState(n, t, mem, r, w) && (w < n || !Drain(start, Unread(n, mem, r, w)).ok)
    requires Ended(n, mem, r, w, start, k, now, table, ok)
    ensures Drain(start, Unread(n, mem, r, w)) == Drained(table, k, ok)
    ensures ValidState(n, t, mem, now, w) && Unread(n, mem, now, w) == Unread(n, mem, r, w)[k..]
  {
    var q, turns := Unread(n, mem, r, w), if ok then k else k + 1;
    if w < n {
      FreeTurns(n, t, mem, r, w, turns);
    } else {
      if |q| <= turns {
        UnreadFirst(n, t, mem, r, w, turns);
      }
      ParkedTurns(start, q, Handed(n, mem, r, w, turns), turns);
    }
    HandedInOrder(n, t, mem, r, w, k);
    HeadRecord(n, mem, now, w);
    HandedInOrder(n, t, mem, r, w, turns);
    GuardedRead(start, q, k, turns, table, ok);
  }
}
