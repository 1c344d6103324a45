/**
 * The record layout of a channel buffer: cache-line aligned records that tile a stretch of bytes,
 * and the queue of records that a pair of offsets denotes.
 */
module Ring {
  import opened Bytes

  const CACHE_LINE := 64
  const HEADER := 8

  datatype Record = Record(id: nat, payload: seq<Byte>)

  ghost predicate Aligned(x: int) {
    x % CACHE_LINE == 0
  }

  function Align(x: nat): nat {
    CACHE_LINE * ((x + (CACHE_LINE - 1)) / CACHE_LINE)
  }

  /** Bytes that a record with a payload of `size` bytes occupies. */
  function Span(size: nat): nat {
    Align(HEADER + size)
  }

  /** Buffer sizes the channel is meant for. */
  ghost predicate Geometry(n: nat) {
    Aligned(n) && 192 <= n < 0x8000_0000
  }

  lemma AlignedAfter(off: nat, size: nat)
    requires Aligned(off)
    ensures Aligned(off + Span(size))
  {
  }

  function SizeAt(mem: seq<Byte>, off: nat): nat
    requires off + HEADER <= |mem|
  {
    WordAt(mem, off)
  }

  /** A header at `off` whose whole record lies before `hi`. */
  ghost predicate Fits(mem: seq<Byte>, off: nat, hi: nat) {
    off + HEADER <= hi <= |mem| && 1 <= SizeAt(mem, off) && off + Span(SizeAt(mem, off)) <= hi
  }

  function RecordAt(mem: seq<Byte>, off: nat): Record
    requires off + HEADER <= |mem| && off + HEADER + SizeAt(mem, off) <= |mem|
  {
    Record(WordAt(mem, off + 4), mem[off + HEADER..off + HEADER + SizeAt(mem, off)])
  }

  /** Records lie end to end from `lo` up to exactly `hi`. */
  ghost predicate Tiled(mem: seq<Byte>, lo: nat, hi: nat)
    decreases hi - lo
  {
    lo == hi || (Fits(mem, lo, hi) && Tiled(mem, lo + Span(SizeAt(mem, lo)), hi))
  }

  ghost function Walk(mem: seq<Byte>, lo: nat, hi: nat): seq<Record>
    requires Tiled(mem, lo, hi)
    decreases hi - lo
  {
    if lo == hi then [] else [RecordAt(mem, lo)] + Walk(mem, lo + Span(SizeAt(mem, lo)), hi)
  }

  lemma {:induction false} TiledBounds(mem: seq<Byte>, lo: nat, hi: nat)
    requires Tiled(mem, lo, hi)
    ensures lo <= hi
    ensures Walk(mem, lo, hi) == [] <==> lo == hi
    decreases hi - lo
  {
    if lo == hi {
    } else {
      TiledBounds(mem, lo + Span(SizeAt(mem, lo)), hi);
    }
  }

  /** A record only depends on its own bytes. */
  lemma FitsFrame(a: seq<Byte>, b: seq<Byte>, lo: nat, hi: nat)
    requires Fits(a, lo, hi) && SameBytes(a, b, lo, hi)
    ensures Fits(b, lo, hi) && SizeAt(b, lo) == SizeAt(a, lo) && RecordAt(b, lo) == RecordAt(a, lo)
  {
    assert a[lo..lo + 4] == b[lo..lo + 4];
    assert a[lo + 4..lo + 8] == b[lo + 4..lo + 8];
  }

  lemma {:induction false} WalkFrame(a: seq<Byte>, b: seq<Byte>, lo: nat, hi: nat)
    requires Tiled(a, lo, hi) && SameBytes(a, b, lo, hi)
    ensures Tiled(b, lo, hi) && Walk(b, lo, hi) == Walk(a, lo, hi)
    decreases hi - lo
  {
    if lo == hi {
    } else {
      var next := lo + Span(SizeAt(a, lo));
      FitsFrame(a, b, lo, hi);
      assert SameBytes(a, b, next, hi);
      WalkFrame(a, b, next, hi);
    }
  }

  lemma {:induction false} WalkAppend(mem: seq<Byte>, lo: nat, mid: nat, hi: nat)
    requires Tiled(mem, lo, mid) && Tiled(mem, mid, hi)
    ensures Tiled(mem, lo, hi)
    ensures Walk(mem, lo, hi) == Walk(mem, lo, mid) + Walk(mem, mid, hi)
    decreases mid - lo
  {
    TiledBounds(mem, mid, hi);
    if lo == mid {
    } else {
      var next := lo + Span(SizeAt(mem, lo));
      TiledBounds(mem, next, mid);
      WalkAppend(mem, next, mid, hi);
      Associate([RecordAt(mem, lo)], Walk(mem, next, mid), Walk(mem, mid, hi));
    }
  }

  lemma WalkTail(mem: seq<Byte>, lo: nat, hi: nat)
    requires Tiled(mem, lo, hi) && lo != hi
    ensures Fits(mem, lo, hi) && Tiled(mem, lo + Span(SizeAt(mem, lo)), hi)
    ensures |Walk(mem, lo, hi)| > 0 && Walk(mem, lo, hi)[0] == RecordAt(mem, lo)
    ensures Walk(mem, lo, hi)[1..] == Walk(mem, lo + Span(SizeAt(mem, lo)), hi)
  {
  }

  /** A record that ends exactly at `hi` is a tiling of its own. */
  lemma WalkOne(mem: seq<Byte>, lo: nat, hi: nat)
    requires Fits(mem, lo, hi) && hi == lo + Span(SizeAt(mem, lo))
    ensures Tiled(mem, lo, hi) && Walk(mem, lo, hi) == [RecordAt(mem, lo)]
  {
    assert Tiled(mem, hi, hi) && Walk(mem, hi, hi) == [];
  }

  function EncodeRecord(rec: Record): (s: seq<Byte>)
    requires rec.id < WORD && |rec.payload| < WORD
    ensures |s| == HEADER + |rec.payload|
  {
    Encode(|rec.payload|) + Encode(rec.id) + rec.payload
  }

  /** The effect of storing a header and copying the payload behind it. */
  function Store(mem: seq<Byte>, off: nat, rec: Record): (m: seq<Byte>)
    requires rec.id < WORD && |rec.payload| < WORD && off + HEADER + |rec.payload| <= |mem|
    ensures |m| == |mem|
    ensures forall i :: 0 <= i < |mem| && !(off <= i < off + HEADER + |rec.payload|) ==> m[i] == mem[i]
  {
    Put(mem, off, EncodeRecord(rec))
  }

  /** What is stored is what is read. */
  lemma StoreRoundTrip(mem: seq<Byte>, off: nat, rec: Record)
    requires rec.id < WORD && 1 <= |rec.payload| < WORD && off + Span(|rec.payload|) <= |mem|
    ensures Fits(Store(mem, off, rec), off, off + Span(|rec.payload|))
    ensures SizeAt(Store(mem, off, rec), off) == |rec.payload|
    ensures RecordAt(Store(mem, off, rec), off) == rec
  {
    var m, s := Store(mem, off, rec), EncodeRecord(rec);
    assert m[off..off + |s|] == s;
    assert m[off..off + 4] == m[off..off + |s|][..4] == s[..4] == Encode(|rec.payload|);
    assert m[off + 4..off + 8] == m[off..off + |s|][4..8] == s[4..8] == Encode(rec.id);
    NumberOfEncode(|rec.payload|);
    NumberOfEncode(rec.id);
    assert m[off + HEADER..off + HEADER + |rec.payload|] == m[off..off + |s|][8..] == rec.payload;
  }

  // ---- The queue that two offsets denote --------------------------------------------------------

  /** Offsets in range, and unread records tiling `[r, w)` or `[r, n)` and then `[0, w)`. */
  ghost predicate Inv(n: nat, mem: seq<Byte>, r: nat, w: nat) {
    && Geometry(n) && |mem| == n
    && Aligned(r) && r < n
    && Aligned(w) && w <= n
    && (if r <= w then Tiled(mem, r, w) else Tiled(mem, r, n) && Tiled(mem, 0, w))
  }

  ghost function Unread(n: nat, mem: seq<Byte>, r: nat, w: nat): seq<Record>
    requires Inv(n, mem, r, w)
  {
    if r <= w then Walk(mem, r, w) else Walk(mem, r, n) + Walk(mem, 0, w)
  }

  /** Byte `i` belongs to an unread record. */
  ghost predicate Live(n: nat, r: nat, w: nat, i: int) {
    if r <= w then r <= i < w else r <= i < n || 0 <= i < w
  }

  ghost function UnreadBytes(n: nat, r: nat, w: nat): int {
    if r <= w then w - r else n - r + w
  }

  /** Only unread bytes matter. */
  lemma InvFrame(n: nat, a: seq<Byte>, b: seq<Byte>, r: nat, w: nat)
    requires Inv(n, a, r, w) && |a| == |b|
    requires forall i :: 0 <= i < n && Live(n, r, w, i) ==> a[i] == b[i]
    ensures Inv(n, b, r, w) && Unread(n, b, r, w) == Unread(n, a, r, w)
  {
    if r <= w {
      WalkFrame(a, b, r, w);
    } else {
      WalkFrame(a, b, r, n);
      WalkFrame(a, b, 0, w);
    }
  }

  /** Where a consumed record leaves the read offset; the end of the buffer wraps to 0. */
  function AfterConsume(n: nat, mem: seq<Byte>, r: nat): nat
    requires r + HEADER <= |mem|
  {
    var next := r + Span(SizeAt(mem, r));
    if next == n then 0 else next
  }

  /** The one consume that goes wrong: it wraps to 0 while the write offset is parked at the end. */
  ghost predicate Parks(n: nat, mem: seq<Byte>, r: nat, w: nat)
    requires r + HEADER <= |mem|
  {
    w == n && AfterConsume(n, mem, r) == 0
  }

  /** The head of a non-empty queue is the record at the read offset. */
  lemma HeadRecord(n: nat, mem: seq<Byte>, r: nat, w: nat)
    requires Inv(n, mem, r, w)
    ensures Unread(n, mem, r, w) == [] <==> r == w
    ensures r != w ==> Fits(mem, r, if r < w then w else n) && Unread(n, mem, r, w)[0] == RecordAt(mem, r)
  {
    if r <= w {
      TiledBounds(mem, r, w);
    } else {
      TiledBounds(mem, r, n);
    }
  }

  lemma TailOfConcat<T>(a: seq<T>, b: seq<T>)
    requires a != []
    ensures (a + b)[1..] == a[1..] + b
  {
  }

  lemma ConsumeStraight(n: nat, mem: seq<Byte>, r: nat, w: nat)
    requires Inv(n, mem, r, w) && r < w && r + HEADER <= n
    ensures var next := r + Span(SizeAt(mem, r));
            && Aligned(next) && next <= w && Tiled(mem, next, w)
            && Walk(mem, next, w) == Unread(n, mem, r, w)[1..]
  {
    WalkTail(mem, r, w);
    TiledBounds(mem, r + Span(SizeAt(mem, r)), w);
    AlignedAfter(r, SizeAt(mem, r));
  }

  lemma ConsumeTail(n: nat, mem: seq<Byte>, r: nat, w: nat)
    requires Inv(n, mem, r, w) && w < r && r + HEADER <= n
    ensures var next := r + Span(SizeAt(mem, r));
            && Aligned(next) && next <= n && Tiled(mem, next, n)
            && Walk(mem, next, n) + Walk(mem, 0, w) == Unread(n, mem, r, w)[1..]
  {
    WalkTail(mem, r, n);
    TiledBounds(mem, r + Span(SizeAt(mem, r)), n);
    AlignedAfter(r, SizeAt(mem, r));
    TailOfConcat(Walk(mem, r, n), Walk(mem, 0, w));
  }

  /** A consume takes the head off the queue and keeps the rest, unless it parks. */
  lemma ConsumePops(n: nat, mem: seq<Byte>, r: nat, w: nat)
    requires Inv(n, mem, r, w) && r != w && r + HEADER <= n && !Parks(n, mem, r, w)
    ensures var next := AfterConsume(n, mem, r);
            && Inv(n, mem, next, w)
            && Unread(n, mem, next, w) == Unread(n, mem, r, w)[1..]
            && UnreadBytes(n, next, w) == UnreadBytes(n, r, w) - Span(SizeAt(mem, r))
  {
    if r < w {
      ConsumeStraight(n, mem, r, w);
    } else {
      ConsumeTail(n, mem, r, w);
      assert [] + Walk(mem, 0, w) == Walk(mem, 0, w);
    }
  }

  /** Exact boundary: the queue is one shorter after a consume if and only if it does not park. */
  lemma ConsumeBoundary(n: nat, mem: seq<Byte>, r: nat, w: nat)
    requires Inv(n, mem, r, w) && r != w && r + HEADER <= n
    ensures var next := AfterConsume(n, mem, r);
            (Inv(n, mem, next, w) && Unread(n, mem, next, w) == Unread(n, mem, r, w)[1..]) <==> !Parks(n, mem, r, w)
  {
    HeadRecord(n, mem, r, w);
    if Parks(n, mem, r, w) {
      TiledBounds(mem, r, w);
      assert Unread(n, mem, r, w)[1..] == Walk(mem, n, n) == [];
      if Inv(n, mem, 0, w) {
        HeadRecord(n, mem, 0, w);
      }
    } else {
      ConsumePops(n, mem, r, w);
    }
  }

  /** A consume parks exactly if the record is the last unread one and the write offset is the end of the buffer. */
  lemma ParksAtLast(n: nat, mem: seq<Byte>, r: nat, w: nat)
    requires Inv(n, mem, r, w) && r != w && r + HEADER <= n
    ensures Parks(n, mem, r, w) <==> w == n && |Unread(n, mem, r, w)| == 1
  {
    if w == n {
      WalkTail(mem, r, n);
      TiledBounds(mem, r + Span(SizeAt(mem, r)), n);
    }
  }

  // ---- Bytes that reach a handler ---------------------------------------------------------------

  /** The payload bytes of the records with id `id`, in order. */
  ghost function Stream(recs: seq<Record>, id: nat): seq<Byte> {
    if recs == [] then []
    else Stream(recs[..|recs| - 1], id) + (if recs[|recs| - 1].id == id then recs[|recs| - 1].payload else [])
  }

  lemma {:induction false} StreamAppend(a: seq<Record>, b: seq<Record>, id: nat)
    ensures Stream(a + b, id) == Stream(a, id) + Stream(b, id)
  {
    if b == [] {
      assert a + b == a;
    } else {
      var c := b[..|b| - 1];
      assert (a + b)[..|a + b| - 1] == a + c;
      StreamAppend(a, c, id);
    }
  }

  lemma StreamPrefix(a: seq<Record>, b: seq<Record>, id: nat)
    requires a <= b
    ensures Stream(a, id) <= Stream(b, id)
  {
    assert b == a + b[|a|..];
    StreamAppend(a, b[|a|..], id);
  }
}
