/**
 * torrent::system::ipc::ControlFd: messages as a two-byte length and that many bytes, over a stream
 * socket whose send and recv may transfer less than asked for or be interrupted.
 */
module ControlFraming {
  import opened Bytes

  const MAX_MESSAGE_SIZE := 1024

  // ---- Frames -----------------------------------------------------------------------------------

  /** The length in network order, then the message. */
  function Frame(m: seq<Byte>): (f: seq<Byte>)
    requires |m| <= MAX_MESSAGE_SIZE
    ensures |f| == 2 + |m|
  {
    [|m| / 0x100, |m| % 0x100] + m
  }

  function Frames(ms: seq<seq<Byte>>): seq<Byte>
    requires forall i :: 0 <= i < |ms| ==> |ms[i]| <= MAX_MESSAGE_SIZE
  {
    if ms == [] then [] else Frame(ms[0]) + Frames(ms[1..])
  }

  lemma {:induction false} FramesAppend(a: seq<seq<Byte>>, b: seq<seq<Byte>>)
    requires forall i :: 0 <= i < |a| ==> |a[i]| <= MAX_MESSAGE_SIZE
    requires forall i :: 0 <= i < |b| ==> |b[i]| <= MAX_MESSAGE_SIZE
    ensures Frames(a + b) == Frames(a) + Frames(b)
    decreases |a|
  {
    if a == [] {
      assert a + b == b;
    } else {
      FramesAppend(a[1..], b);
      assert (a + b)[1..] == a[1..] + b;
    }
  }

  // ---- What the receiver makes of a message -----------------------------------------------------

  /** "SHUTDOWN:", "GRACEFUL" and "FORCEFUL" */
  const SHUTDOWN: seq<Byte> := [83, 72, 85, 84, 68, 79, 87, 78, 58]
  const GRACEFUL: seq<Byte> := [71, 82, 65, 67, 69, 70, 85, 76]
  const FORCEFUL: seq<Byte> := [70, 79, 82, 67, 69, 70, 85, 76]

  datatype Event = Shutdown(graceful: bool) | Message(bytes: seq<Byte>) | InvalidShutdown | Closed

  function Classify(m: seq<Byte>): Event {
    if SHUTDOWN <= m then
      if m == SHUTDOWN + GRACEFUL then Shutdown(true)
      else if m == SHUTDOWN + FORCEFUL then Shutdown(false)
      else InvalidShutdown
    else Message(m)
  }

  /** What a sender means: one of the two shutdown messages, or text. */
  datatype Intent = AskShutdown(graceful: bool) | Text(bytes: seq<Byte>)

  function Encoded(x: Intent): seq<Byte> {
    match x
    case AskShutdown(graceful) => SHUTDOWN + (if graceful then GRACEFUL else FORCEFUL)
    case Text(bytes) => bytes
  }

  function Meant(x: Intent): Event {
    match x
    case AskShutdown(graceful) => Shutdown(graceful)
    case Text(bytes) => Message(bytes)
  }

  /** A message is taken for what it means exactly if it is not text that starts like a shutdown message. */
  lemma ClassifyMeans(x: Intent)
    ensures Classify(Encoded(x)) == Meant(x) <==> x.AskShutdown? || !(SHUTDOWN <= x.bytes)
  {
    assert GRACEFUL[0] != FORCEFUL[0];
    assert (SHUTDOWN + GRACEFUL)[9] != (SHUTDOWN + FORCEFUL)[9];
  }

  function AllEncoded(xs: seq<Intent>): (ms: seq<seq<Byte>>)
    ensures |ms| == |xs|
  {
    if xs == [] then [] else [Encoded(xs[0])] + AllEncoded(xs[1..])
  }

  function AllMeant(xs: seq<Intent>): (es: seq<Event>)
    ensures |es| == |xs|
  {
    if xs == [] then [] else [Meant(xs[0])] + AllMeant(xs[1..])
  }

  /** So a list of messages is understood exactly if none of them is such a text. */
  lemma {:induction false} ListIsUnderstood(xs: seq<Intent>)
    ensures Classified(AllEncoded(xs)) == AllMeant(xs) <==> forall i :: 0 <= i < |xs| ==> xs[i].AskShutdown? || !(SHUTDOWN <= xs[i].bytes)
    decreases |xs|
  {
    if xs == [] {
    } else {
      ClassifyMeans(xs[0]);
      ListIsUnderstood(xs[1..]);
      var es, ms := Classified(AllEncoded(xs)), AllMeant(xs);
      assert AllEncoded(xs)[1..] == AllEncoded(xs[1..]);
      assert es[0] == Classify(Encoded(xs[0])) && es[1..] == Classified(AllEncoded(xs[1..]));
      assert ms[0] == Meant(xs[0]) && ms[1..] == AllMeant(xs[1..]);
      assert es == [es[0]] + es[1..] && ms == [ms[0]] + ms[1..];
      assert forall i :: 1 <= i < |xs| ==> xs[i] == xs[1..][i - 1];
      assert forall i :: 0 <= i < |xs[1..]| ==> xs[1..][i] == xs[i + 1];
    }
  }

  /** What one complete event_read takes off a stream, in terms of the bytes alone. */
  datatype Decoded = Incomplete | Oversized | One(event: Event, rest: seq<Byte>)

  function LengthOf(bytes: seq<Byte>): nat
    requires 2 <= |bytes|
  {
    0x100 * (bytes[0] as int) + bytes[1] as int
  }

  function Decode(bytes: seq<Byte>): Decoded {
    if |bytes| < 2 then Incomplete
    else if LengthOf(bytes) > MAX_MESSAGE_SIZE then Oversized
    else if |bytes| < 2 + LengthOf(bytes) then Incomplete
    else One(Classify(bytes[2..2 + LengthOf(bytes)]), bytes[2 + LengthOf(bytes)..])
  }

  lemma DecodeFrame(m: seq<Byte>, rest: seq<Byte>)
    requires |m| <= MAX_MESSAGE_SIZE
    ensures Decode(Frame(m) + rest) == One(Classify(m), rest)
  {
    var bytes := Frame(m) + rest;
    assert bytes[0] == |m| / 0x100 && bytes[1] == |m| % 0x100;
    assert bytes[2..2 + |m|] == m;
    assert bytes[2 + |m|..] == rest;
  }

  function DecodeMany(bytes: seq<Byte>, k: nat): seq<Event> {
    if k == 0 then []
    else
      var d := Decode(bytes);
      if d.One? then [d.event] + DecodeMany(d.rest, k - 1) else []
  }

  function Classified(ms: seq<seq<Byte>>): (es: seq<Event>)
    ensures |es| == |ms|
  {
    if ms == [] then [] else [Classify(ms[0])] + Classified(ms[1..])
  }

  /** Decoding a stream of frames gives one event per message, in order. */
  lemma {:induction false} FramesDecode(ms: seq<seq<Byte>>, rest: seq<Byte>)
    requires forall i :: 0 <= i < |ms| ==> |ms[i]| <= MAX_MESSAGE_SIZE
    ensures DecodeMany(Frames(ms) + rest, |ms|) == Classified(ms)
    decreases |ms|
  {
    if ms == [] {
    } else {
      DecodeFrame(ms[0], Frames(ms[1..]) + rest);
      Associate(Frame(ms[0]), Frames(ms[1..]), rest);
      FramesDecode(ms[1..], rest);
    }
  }

  /**
   * If the length of a frame is read and its body left behind, and the body happens to start with a
   * frame, the next read reports a message that was never sent.
   */
  lemma LostHeaderMisreads(inner: seq<Byte>, tail: seq<Byte>, rest: seq<Byte>)
    requires 2 + |inner| + |tail| <= MAX_MESSAGE_SIZE
    ensures var sent := Frame(inner) + tail;
            (Frame(sent) + rest)[2..] == Frame(inner) + (tail + rest)
            && Decode((Frame(sent) + rest)[2..]) == One(Classify(inner), tail + rest)
  {
    assert (Frame(Frame(inner) + tail) + rest)[2..] == Frame(inner) + (tail + rest);
    DecodeFrame(inner, tail + rest);
  }

  // ---- The socket -------------------------------------------------------------------------------

  /** What the operating system does on one call; counts are cut to what is possible. */
  datatype SendOutcome = Sent(count: nat) | SendInterrupted | SendFailed

  datatype RecvOutcome = Received(count: nat) | RecvInterrupted | RecvWouldBlock | RecvClosed | RecvFailed

  /** A call moves at least one byte and no more than there are. */
  function Clamp(count: nat, limit: nat): (k: nat)
    requires 1 <= limit
    ensures 1 <= k <= limit
  {
    if count == 0 then 1 else if count > limit then limit else count
  }

  // ---- How many calls a transfer takes ----------------------------------------------------------

  /** The calls of send up to the one that sends the last of `need` bytes, if none fails. */
  function SendCalls(need: nat, script: seq<SendOutcome>): (k: nat)
    ensures k <= |script|
    decreases |script|
  {
    if need == 0 || script == [] then 0
    else
      var rest := if script[0].Sent? then need - Clamp(script[0].count, need) else need;
      1 + SendCalls(rest, script[1..])
  }

  /** None of the calls that `need` bytes take fails. */
  predicate SendsAll(need: nat, script: seq<SendOutcome>) {
    forall i :: 0 <= i < SendCalls(need, script) ==> !script[i].SendFailed?
  }

  lemma SendsAllStep(need: nat, script: seq<SendOutcome>)
    requires need > 0 && script != []
    ensures var rest := if script[0].Sent? then need - Clamp(script[0].count, need) else need;
            SendsAll(need, script) <==> !script[0].SendFailed? && SendsAll(rest, script[1..])
  {
    var rest := if script[0].Sent? then need - Clamp(script[0].count, need) else need;
    if !script[0].SendFailed? && SendsAll(rest, script[1..]) {
      forall i | 0 <= i < SendCalls(need, script) ensures !script[i].SendFailed? {
        assert i > 0 ==> script[i] == script[1..][i - 1];
      }
    }
    if SendsAll(need, script) {
      forall i | 0 <= i < SendCalls(rest, script[1..]) ensures !script[1..][i].SendFailed? {
        assert script[1..][i] == script[i + 1];
      }
    }
  }

  /** The calls of recv up to the one that receives the last of `need` bytes, if none gives up. */
  function RecvCalls(need: nat, script: seq<RecvOutcome>): (k: nat)
    ensures k <= |script|
    decreases |script|
  {
    if need == 0 || script == [] then 0
    else
      var rest := if script[0].Received? then need - Clamp(script[0].count, need) else need;
      1 + RecvCalls(rest, script[1..])
  }

  /** The first call that is not interrupted would block. */
  predicate BlocksFirst(script: seq<RecvOutcome>) {
    script != [] && (script[0].RecvWouldBlock? || (script[0].RecvInterrupted? && BlocksFirst(script[1..])))
  }

  /** The first call that is not interrupted finds the socket closed or broken. */
  predicate BreaksFirst(script: seq<RecvOutcome>) {
    script != [] && (script[0].RecvClosed? || script[0].RecvFailed? || (script[0].RecvInterrupted? && BreaksFirst(script[1..])))
  }

  /** Calls that do not stop a part; `first` says that no byte of it has come yet. */
  predicate Passes(calls: seq<RecvOutcome>, first: bool, linux: bool) {
    calls == [] ||
    match calls[0]
    case RecvInterrupted => Passes(calls[1..], first, linux)
    case RecvWouldBlock => !first && linux && Passes(calls[1..], false, linux)
    case Received(_) => Passes(calls[1..], false, linux)
    case _ => false
  }

  /** None of them closes or fails, and none would block, unless, on Linux, after a first byte. */
  lemma {:induction false} PassesMeans(calls: seq<RecvOutcome>, first: bool, linux: bool)
    ensures Passes(calls, first, linux) <==>
              && (forall i :: 0 <= i < |calls| ==> !calls[i].RecvClosed? && !calls[i].RecvFailed?)
              && (forall i :: 0 <= i < |calls| && calls[i].RecvWouldBlock? ==> linux)
              && (first ==> !BlocksFirst(calls))
    decreases |calls|
  {
    if calls == [] {
    } else {
      var rest := calls[1..];
      assert forall i :: 0 <= i < |rest| ==> rest[i] == calls[i + 1];
      assert forall i :: 1 <= i < |calls| ==> calls[i] == rest[i - 1];
      PassesMeans(rest, first && calls[0].RecvInterrupted?, linux);
    }
  }

  /** The calls that a part of `need` bytes takes do not stop it. */
  predicate Arrives(need: nat, first: bool, script: seq<RecvOutcome>, linux: bool) {
    Passes(script[..RecvCalls(need, script)], first, linux)
  }

  // ---- What read_fn and event_read do -----------------------------------------------------------

  /** Waiting stands for the wait on Linux for bytes that have not come when the script is used up. */
  datatype ReadResult = Complete | Abandoned | PeerClosed | Waiting

  /** How read_fn ends, how many bytes it has taken by then, and which outcomes are still to come. */
  datatype Pulled = Pulled(res: ReadResult, taken: nat, left: seq<RecvOutcome>)

  /** What a call that would block makes of a part. */
  function Stall(first: bool, linux: bool): ReadResult {
    if first then Abandoned else if linux then Waiting else PeerClosed
  }

  /** The outcome of a call, given what is on the stream; a script that is used up receives all. */
  function NextOutcome(need: nat, there: nat, script: seq<RecvOutcome>): (next: RecvOutcome)
    ensures next.Received? ==> there > 0
  {
    var next := if script == [] then Received(need) else script[0];
    if next.Received? && there == 0 then RecvWouldBlock else next
  }

  /** How many bytes a call moves. */
  function Moves(need: nat, there: nat, script: seq<RecvOutcome>): (k: nat)
    requires need > 0
    ensures k <= need && k <= there
  {
    var next := NextOutcome(need, there, script);
    if next.Received? then Clamp(next.count, Min(need, there)) else 0
  }

  /** Whether a call ends the part early, and how. */
  function EndsWith(next: RecvOutcome, first: bool, last: bool, linux: bool): ReadResult {
    match next
    case RecvInterrupted => Complete
    case Received(_) => Complete
    case RecvClosed => PeerClosed
    case RecvFailed => PeerClosed
    case RecvWouldBlock => if first || !linux || last then Stall(first, linux) else Complete
  }

  /**
   * read_fn for `size` bytes, of which it has `got`, with `length` bytes on the stream at first. A call
   * that asks an empty stream would block.
   */
  function Pull(size: nat, length: nat, got: nat, script: seq<RecvOutcome>, linux: bool): (p: Pulled)
    requires got <= size && got <= length
    ensures got <= p.taken <= size && p.taken <= length && (p.res.Complete? <==> p.taken == size)
    ensures p.res.Abandoned? ==> p.taken == 0
    ensures size <= length ==> !p.res.Waiting?
    decreases |script|, size - got
  {
    if got == size then Pulled(Complete, got, script)
    else
      var end := EndsWith(NextOutcome(size - got, length - got, script), got == 0, script == [], linux);
      var rest := if script == [] then [] else script[1..];
      if end.Complete? then Pull(size, length, got + Moves(size - got, length - got, script), rest, linux)
      else Pulled(end, got, rest)
  }

  /** A part is given up exactly if no byte of it came and the first call that counts would block. */
  lemma {:induction false} PullAbandons(size: nat, length: nat, script: seq<RecvOutcome>, linux: bool)
    requires size > 0
    ensures Pull(size, length, 0, script, linux).res.Abandoned? <==> if length == 0 then !BreaksFirst(script) else BlocksFirst(script)
    decreases |script|
  {
    if script == [] {
    } else if script[0].RecvInterrupted? {
      PullAbandons(size, length, script[1..], linux);
    }
  }

  /** The first call of a part, and the others. */
  lemma ArrivesStep(need: nat, first: bool, script: seq<RecvOutcome>, linux: bool)
    requires need > 0 && script != []
    ensures var k := if script[0].Received? then Clamp(script[0].count, need) else 0;
            && script[..RecvCalls(need, script)] == [script[0]] + script[1..][..RecvCalls(need - k, script[1..])]
            && script[RecvCalls(need, script)..] == script[1..][RecvCalls(need - k, script[1..])..]
            && (Arrives(need, first, script, linux) <==>
                  EndsWith(script[0], first, false, linux).Complete? && Arrives(need - k, first && k == 0, script[1..], linux))
  {
    var k := if script[0].Received? then Clamp(script[0].count, need) else 0;
    var calls, more := script[..RecvCalls(need, script)], script[1..][..RecvCalls(need - k, script[1..])];
    assert calls == [script[0]] + more;
    assert calls[0] == script[0] && calls[1..] == more;
  }

  /** A part that is all on the stream is completed exactly if none of the calls it takes stops it. */
  lemma {:induction false} PullCompletes(size: nat, length: nat, got: nat, script: seq<RecvOutcome>, linux: bool)
    requires got <= size <= length
    ensures var p := Pull(size, length, got, script, linux);
            && (p.res.Complete? <==> Arrives(size - got, got == 0, script, linux))
            && (p.res.Complete? ==> p.left == script[RecvCalls(size - got, script)..])
    decreases |script|
  {
    if got == size || script == [] {
    } else {
      ArrivesStep(size - got, got == 0, script, linux);
      var k := Moves(size - got, length - got, script);
      if EndsWith(script[0], got == 0, false, linux).Complete? {
        PullCompletes(size, length, got + k, script[1..], linux);
      }
    }
  }

  // ---- Which call ends a part -------------------------------------------------------------------

  /** What a call adds to the `got` bytes of a part of `size` bytes, on a stream of `length` bytes. */
  function Share(size: nat, length: nat, got: nat, call: RecvOutcome): (k: nat)
    requires got <= size && got <= length
    ensures got + k <= size && got + k <= length
  {
    if call.Received? && got < size && got < length then Clamp(call.count, Min(size - got, length - got)) else 0
  }

  /** The bytes of the part after the first `i` calls. */
  function Gathered(size: nat, length: nat, got: nat, calls: seq<RecvOutcome>, i: nat): nat
    requires got <= size && got <= length && i <= |calls|
    decreases i
  {
    if i == 0 then got else Gathered(size, length, got + Share(size, length, got, calls[0]), calls[1..], i - 1)
  }

  /** Call `i` would block, by itself or because the stream is empty. */
  predicate Starves(size: nat, length: nat, got: nat, calls: seq<RecvOutcome>, i: nat)
    requires got <= size && got <= length && i < |calls|
  {
    calls[i].RecvWouldBlock? || (calls[i].Received? && Gathered(size, length, got, calls, i) == length)
  }

  /** Call `i` is made for an incomplete part and does not stop it. */
  predicate GoesOn(size: nat, length: nat, got: nat, calls: seq<RecvOutcome>, i: nat, linux: bool)
    requires got <= size && got <= length && i < |calls|
  {
    && Gathered(size, length, got, calls, i) < size && !calls[i].RecvClosed? && !calls[i].RecvFailed?
    && (Starves(size, length, got, calls, i) ==> linux && Gathered(size, length, got, calls, i) > 0)
  }

  /** Call `i` is made for an incomplete part and closes, fails, or, off Linux, would block after a first byte. */
  predicate Breaks(size: nat, length: nat, got: nat, calls: seq<RecvOutcome>, i: nat, linux: bool)
    requires got <= size && got <= length && i < |calls|
  {
    && Gathered(size, length, got, calls, i) < size
    && (calls[i].RecvClosed? || calls[i].RecvFailed?
        || (!linux && Gathered(size, length, got, calls, i) > 0 && Starves(size, length, got, calls, i)))
  }

  predicate FirstToBreak(size: nat, length: nat, got: nat, calls: seq<RecvOutcome>, i: nat, linux: bool)
    requires got <= size && got <= length
  {
    i < |calls| && Breaks(size, length, got, calls, i, linux) && forall j :: 0 <= j < i ==> GoesOn(size, length, got, calls, j, linux)
  }

  /** A script that is used up receives what is there, and then would block. */
  function AllCalls(size: nat, script: seq<RecvOutcome>): seq<RecvOutcome> {
    script + [Received(size), RecvWouldBlock]
  }

  /** One of the calls that a part takes breaks it. */
  ghost predicate PartBreaks(size: nat, length: nat, got: nat, script: seq<RecvOutcome>, linux: bool)
    requires got <= size && got <= length
  {
    exists i: nat :: FirstToBreak(size, length, got, AllCalls(size, script), i, linux)
  }

  lemma BreakShifts(size: nat, length: nat, got: nat, calls: seq<RecvOutcome>, i: nat, linux: bool)
    requires got <= size && got <= length && i + 1 < |calls|
    ensures var now := got + Share(size, length, got, calls[0]);
            && Gathered(size, length, got, calls, i + 1) == Gathered(size, length, now, calls[1..], i)
            && (Breaks(size, length, got, calls, i + 1, linux) <==> Breaks(size, length, now, calls[1..], i, linux))
            && (GoesOn(size, length, got, calls, i + 1, linux) <==> GoesOn(size, length, now, calls[1..], i, linux))
  {
  }

  lemma FirstShifts(size: nat, length: nat, got: nat, calls: seq<RecvOutcome>, i: nat, linux: bool)
    requires got <= size && got <= length && i + 1 < |calls|
    ensures FirstToBreak(size, length, got, calls, i + 1, linux) <==>
              GoesOn(size, length, got, calls, 0, linux)
              && FirstToBreak(size, length, got + Share(size, length, got, calls[0]), calls[1..], i, linux)
  {
    var now := got + Share(size, length, got, calls[0]);
    BreakShifts(size, length, got, calls, i, linux);
    if FirstToBreak(size, length, got, calls, i + 1, linux) {
      forall j | 0 <= j < i ensures GoesOn(size, length, now, calls[1..], j, linux) {
        assert GoesOn(size, length, got, calls, j + 1, linux);
        BreakShifts(size, length, got, calls, j, linux);
      }
    }
    if GoesOn(size, length, got, calls, 0, linux) && FirstToBreak(size, length, now, calls[1..], i, linux) {
      forall j | 0 <= j < i + 1 ensures GoesOn(size, length, got, calls, j, linux) {
        if j > 0 {
          BreakShifts(size, length, got, calls, j - 1, linux);
        }
      }
    }
  }

  /** After a call that goes on, what breaks the part is one of the others. */
  lemma BreaksLater(size: nat, length: nat, got: nat, script: seq<RecvOutcome>, linux: bool)
    requires got <= size && got <= length && script != []
    ensures var now := got + Share(size, length, got, script[0]);
            PartBreaks(size, length, got, script, linux) <==>
              || Breaks(size, length, got, AllCalls(size, script), 0, linux)
              || (GoesOn(size, length, got, AllCalls(size, script), 0, linux) && PartBreaks(size, length, now, script[1..], linux))
  {
    var calls, now := AllCalls(size, script), got + Share(size, length, got, script[0]);
    assert calls[0] == script[0] && calls[1..] == AllCalls(size, script[1..]);
    if PartBreaks(size, length, got, script, linux) {
      var i: nat :| FirstToBreak(size, length, got, calls, i, linux);
      if i > 0 {
        FirstShifts(size, length, got, calls, i - 1, linux);
      }
    }
    if Breaks(size, length, got, calls, 0, linux) {
      assert FirstToBreak(size, length, got, calls, 0, linux);
    }
    if GoesOn(size, length, got, calls, 0, linux) && PartBreaks(size, length, now, script[1..], linux) {
      var i: nat :| FirstToBreak(size, length, now, calls[1..], i, linux);
      FirstShifts(size, length, got, calls, i, linux);
    }
  }

  /** Once the script is used up only a stream that is too short, off Linux, breaks a part that was begun. */
  lemma UsedUpBreaks(size: nat, length: nat, got: nat, linux: bool)
    requires got <= size && got <= length
    ensures PartBreaks(size, length, got, [], linux) <==> !linux && 0 < length < size
  {
    var calls := AllCalls(size, []);
    assert calls == [Received(size), RecvWouldBlock];
    assert calls[1..] == [RecvWouldBlock];
    var now := got + Share(size, length, got, calls[0]);
    assert Gathered(size, length, got, calls, 1) == Gathered(size, length, now, calls[1..], 0) == now;
    if !linux && 0 < length < size {
      assert FirstToBreak(size, length, got, calls, if got == length then 0 else 1, linux);
    }
    if PartBreaks(size, length, got, [], linux) {
      var i: nat :| FirstToBreak(size, length, got, calls, i, linux);
      assert i == 0 || i == 1;
    }
  }

  /** What the first call does to a part, in the terms of the loop. */
  lemma FirstCall(size: nat, length: nat, got: nat, script: seq<RecvOutcome>, linux: bool)
    requires got <= size && got <= length && script != []
    ensures var calls, now, p := AllCalls(size, script), got + Share(size, length, got, script[0]), Pull(size, length, got, script, linux);
            && (Breaks(size, length, got, calls, 0, linux) ==> p.res.PeerClosed?)
            && (GoesOn(size, length, got, calls, 0, linux) ==> p == Pull(size, length, now, script[1..], linux))
            && (p.res.PeerClosed? ==> Breaks(size, length, got, calls, 0, linux) || GoesOn(size, length, got, calls, 0, linux))
            && !(Breaks(size, length, got, calls, 0, linux) && GoesOn(size, length, got, calls, 0, linux))
  {
    assert AllCalls(size, script)[0] == script[0];
  }

  /**
   * The peer is taken for gone exactly if a call that is made before the part is complete closes or
   * fails, or, off Linux, would block after a first byte; for every stream and every script.
   */
  lemma {:induction false} PullBreaks(size: nat, length: nat, got: nat, script: seq<RecvOutcome>, linux: bool)
    requires got <= size && got <= length
    ensures Pull(size, length, got, script, linux).res.PeerClosed? <==> PartBreaks(size, length, got, script, linux)
    decreases |script|
  {
    if script == [] {
      UsedUpBreaks(size, length, got, linux);
    } else {
      BreaksLater(size, length, got, script, linux);
      FirstCall(size, length, got, script, linux);
      if GoesOn(size, length, got, AllCalls(size, script), 0, linux) {
        PullBreaks(size, length, got + Share(size, length, got, script[0]), script[1..], linux);
      }
    }
  }

  /**
   * How many bytes one event_read takes off the stream, and what for: a message that it reports, a
   * report that the peer is gone, or nothing.
   */
  datatype Outcome = Took(taken: nat) | Gone(taken: nat) | Nothing(taken: nat) | Waits(taken: nat)

  /** For a length of legal size, from how its part and that of the body end. */
  function OutcomeOfParts(length: nat, head: Pulled, body: Pulled): Outcome {
    match head.res
    case PeerClosed => Gone(head.taken)
    case Abandoned => Nothing(head.taken)
    case Waiting => Waits(head.taken)
    case Complete =>
      match body.res
      case PeerClosed => Gone(2 + body.taken)
      case Abandoned => Nothing(2)
      case Waiting => Waits(2 + body.taken)
      case Complete => Took(2 + length)
  }

  function ReadOutcome(bytes: seq<Byte>, script: seq<RecvOutcome>, linux: bool): (out: Outcome)
    ensures out.taken <= |bytes| && (out.Took? ==> out.taken >= 2)
  {
    var head := Pull(2, |bytes|, 0, script, linux);
    if !head.res.Complete? then OutcomeOfParts(0, head, head)
    else
      var length := LengthOf(bytes);
      if length > MAX_MESSAGE_SIZE then Gone(2)
      else OutcomeOfParts(length, head, Pull(length, |bytes| - 2, 0, head.left, linux))
  }

  lemma ReadOutcomeOfParts(bytes: seq<Byte>, length: nat, head: Pulled, body: Pulled, script: seq<RecvOutcome>, linux: bool)
    requires |bytes| >= 2 && LengthOf(bytes) == length <= MAX_MESSAGE_SIZE
    requires head == Pull(2, |bytes|, 0, script, linux) && body == Pull(length, |bytes| - 2, 0, head.left, linux)
    ensures ReadOutcome(bytes, script, linux) == OutcomeOfParts(length, head, body)
  {
  }

  /** The slot calls after an event_read of `bytes`. */
  function EventsAfter(events: seq<Event>, bytes: seq<Byte>, out: Outcome): seq<Event>
    requires out.taken <= |bytes| && (out.Took? ==> out.taken >= 2)
  {
    match out
    case Took(taken) => events + [Classify(bytes[2..taken])]
    case Gone(_) => events + [Closed]
    case _ => events
  }

  /** Nothing stops the length, nor the body if there is one. */
  predicate TakesFrame(length: nat, script: seq<RecvOutcome>, linux: bool) {
    Arrives(2, true, script, linux) && (length > 0 ==> Arrives(length, true, script[RecvCalls(2, script)..], linux))
  }

  /** Nothing stops the length, and the first call for the body would block. */
  predicate LosesLength(length: nat, script: seq<RecvOutcome>, linux: bool) {
    length > 0 && Arrives(2, true, script, linux) && BlocksFirst(script[RecvCalls(2, script)..])
  }

  /** The length part of a frame that is on the stream. */
  lemma HeadOutcome(there: nat, script: seq<RecvOutcome>, linux: bool)
    requires there >= 2
    ensures var head := Pull(2, there, 0, script, linux);
            && !head.res.Waiting?
            && (head.res.Complete? <==> Arrives(2, true, script, linux))
            && (head.res.Complete? ==> head.left == script[RecvCalls(2, script)..])
            && (head.res.Abandoned? <==> BlocksFirst(script))
  {
    PullCompletes(2, there, 0, script, linux);
    PullAbandons(2, there, script, linux);
  }

  /** And the body, which may be empty. */
  lemma BodyOutcome(length: nat, there: nat, left: seq<RecvOutcome>, linux: bool)
    requires length <= there
    ensures var body := Pull(length, there, 0, left, linux);
            && !body.res.Waiting?
            && (body.res.Complete? <==> (length > 0 ==> Arrives(length, true, left, linux)))
            && (body.res.Abandoned? <==> length > 0 && BlocksFirst(left))
  {
    if length > 0 {
      PullCompletes(length, there, 0, left, linux);
      PullAbandons(length, there, left, linux);
    }
  }

  /** What the calls do to a frame, from what they do to its two parts. */
  lemma FrameCalls(length: nat, script: seq<RecvOutcome>, left: seq<RecvOutcome>, headDone: bool, bodyDone: bool, bodyBlocks: bool, linux: bool)
    requires headDone <==> Arrives(2, true, script, linux)
    requires headDone ==> left == script[RecvCalls(2, script)..]
    requires bodyDone <==> (length > 0 ==> Arrives(length, true, left, linux))
    requires bodyBlocks <==> length > 0 && BlocksFirst(left)
    ensures TakesFrame(length, script, linux) <==> headDone && bodyDone
    ensures LosesLength(length, script, linux) <==> headDone && bodyBlocks
  {
  }

  lemma FrameParts(bytes: seq<Byte>, length: nat, script: seq<RecvOutcome>, linux: bool) returns (head: Pulled, body: Pulled)
    requires |bytes| >= 2 + length && LengthOf(bytes) == length <= MAX_MESSAGE_SIZE
    ensures ReadOutcome(bytes, script, linux) == OutcomeOfParts(length, head, body)
    ensures !head.res.Waiting? && !body.res.Waiting? && (head.res.Abandoned? ==> head.taken == 0)
    ensures head.res.Complete? <==> Arrives(2, true, script, linux)
    ensures head.res.Complete? ==> head.left == script[RecvCalls(2, script)..]
    ensures head.res.Abandoned? <==> BlocksFirst(script)
    ensures body.res.Complete? <==> (length > 0 ==> Arrives(length, true, head.left, linux))
    ensures body.res.Abandoned? <==> length > 0 && BlocksFirst(head.left)
  {
    head := Pull(2, |bytes|, 0, script, linux);
    body := Pull(length, |bytes| - 2, 0, head.left, linux);
    ReadOutcomeOfParts(bytes, length, head, body, script, linux);
    HeadOutcome(|bytes|, script, linux);
    BodyOutcome(length, |bytes| - 2, head.left, linux);
  }

  lemma FrameEnds(length: nat, head: Pulled, body: Pulled, takes: bool, stalls: bool, loses: bool)
    requires !head.res.Waiting? && !body.res.Waiting? && (head.res.Abandoned? ==> head.taken == 0)
    requires takes <==> head.res.Complete? && body.res.Complete?
    requires stalls <==> head.res.Abandoned?
    requires loses <==> head.res.Complete? && body.res.Abandoned?
    ensures var out := OutcomeOfParts(length, head, body);
            && (out == Took(2 + length) <==> takes) && (out == Nothing(0) <==> stalls) && (out == Nothing(2) <==> loses)
            && (out.Gone? <==> !takes && !stalls && !loses)
            && (out.Gone? || out in {Took(2 + length), Nothing(0), Nothing(2)})
  {
  }

  /**
   * What becomes of a frame that is on the stream: it is reported and taken, left alone, robbed of
   * its length, or the peer is taken for gone, each exactly if the calls of recv are of that kind.
   */
  lemma WholeFrameOutcome(bytes: seq<Byte>, length: nat, script: seq<RecvOutcome>, linux: bool)
    requires |bytes| >= 2 + length && LengthOf(bytes) == length <= MAX_MESSAGE_SIZE
    ensures var out := ReadOutcome(bytes, script, linux);
            && (out == Took(2 + length) <==> TakesFrame(length, script, linux))
            && (out == Nothing(0) <==> BlocksFirst(script))
            && (out == Nothing(2) <==> LosesLength(length, script, linux))
            && (out.Gone? <==> !TakesFrame(length, script, linux) && !BlocksFirst(script) && !LosesLength(length, script, linux))
            && (out.Gone? || out in {Took(2 + length), Nothing(0), Nothing(2)})
  {
    var head, body := FrameParts(bytes, length, script, linux);
    FrameCalls(length, script, head.left, head.res.Complete?, body.res.Complete?, body.res.Abandoned?, linux);
    FrameEnds(length, head, body, TakesFrame(length, script, linux), BlocksFirst(script), LosesLength(length, script, linux));
  }

  lemma FrameOutcome(m: seq<Byte>, rest: seq<Byte>, script: seq<RecvOutcome>, linux: bool)
    requires |m| <= MAX_MESSAGE_SIZE
    ensures var out := ReadOutcome(Frame(m) + rest, script, linux);
            && (out == Took(2 + |m|) <==> TakesFrame(|m|, script, linux))
            && (out == Nothing(0) <==> BlocksFirst(script))
            && (out == Nothing(2) <==> LosesLength(|m|, script, linux))
            && (out.Gone? <==> !TakesFrame(|m|, script, linux) && !BlocksFirst(script) && !LosesLength(|m|, script, linux))
            && (out.Gone? || out in {Took(2 + |m|), Nothing(0), Nothing(2)})
  {
    WholeFrameOutcome(Frame(m) + rest, |m|, script, linux);
  }

  /**
   * A length is lost exactly if it arrives, promises a body of legal size, and the first call for
   * that body would block or finds the stream empty, whatever the stream holds.
   */
  lemma LengthIsLost(bytes: seq<Byte>, script: seq<RecvOutcome>, linux: bool)
    ensures var out := ReadOutcome(bytes, script, linux);
            out.Nothing? && out.taken > 0 <==>
              && |bytes| >= 2 && Arrives(2, true, script, linux) && 1 <= LengthOf(bytes) <= MAX_MESSAGE_SIZE
              && var left := script[RecvCalls(2, script)..];
              if |bytes| == 2 then !BreaksFirst(left) else BlocksFirst(left)
  {
    if |bytes| >= 2 {
      PullCompletes(2, |bytes|, 0, script, linux);
      var head := Pull(2, |bytes|, 0, script, linux);
      if head.res.Complete? && LengthOf(bytes) > 0 {
        PullAbandons(LengthOf(bytes), |bytes| - 2, head.left, linux);
      }
    }
  }

  /** With no byte on the stream nothing happens, unless the socket is closed or broken. */
  lemma EmptyOutcome(script: seq<RecvOutcome>, linux: bool)
    ensures ReadOutcome([], script, linux) == Nothing(0) <==> !BreaksFirst(script)
  {
    PullAbandons(2, 0, script, linux);
  }

  /** A peer that is gone is reported exactly if the length breaks, is too long, or the body breaks. */
  lemma GoneMeans(bytes: seq<Byte>, script: seq<RecvOutcome>, linux: bool)
    ensures ReadOutcome(bytes, script, linux).Gone? <==>
              || PartBreaks(2, |bytes|, 0, script, linux)
              || (&& |bytes| >= 2 && Arrives(2, true, script, linux)
                  && (|| LengthOf(bytes) > MAX_MESSAGE_SIZE
                      || PartBreaks(LengthOf(bytes), |bytes| - 2, 0, script[RecvCalls(2, script)..], linux)))
  {
    PullBreaks(2, |bytes|, 0, script, linux);
    if |bytes| >= 2 {
      PullCompletes(2, |bytes|, 0, script, linux);
      PullBreaks(LengthOf(bytes), |bytes| - 2, 0, Pull(2, |bytes|, 0, script, linux).left, linux);
    }
  }

  /** A length beyond the limit is reported as soon as it arrives, and only the length is taken. */
  lemma OversizedIsGone(bytes: seq<Byte>, script: seq<RecvOutcome>, linux: bool)
    requires |bytes| >= 2 && LengthOf(bytes) > MAX_MESSAGE_SIZE
    ensures ReadOutcome(bytes, script, linux) == Gone(2) <==> Arrives(2, true, script, linux)
  {
    PullCompletes(2, |bytes|, 0, script, linux);
  }

  lemma {:induction false} PullFromEmpty(size: nat, script: seq<RecvOutcome>, linux: bool)
    requires size > 0
    ensures Pull(size, 0, 0, script, linux).res.PeerClosed? <==> BreaksFirst(script)
    decreases |script|
  {
    if script == [] {
    } else if script[0].RecvInterrupted? {
      PullFromEmpty(size, script[1..], linux);
    }
  }

  /** With no byte on the stream, a peer that is gone is reported exactly if the socket is closed or broken. */
  lemma EmptyIsGone(script: seq<RecvOutcome>, linux: bool)
    ensures ReadOutcome([], script, linux) == Gone(0) <==> BreaksFirst(script)
    ensures !ReadOutcome([], script, linux).Waits?
  {
    PullFromEmpty(2, script, linux);
    PullAbandons(2, 0, script, linux);
  }

  /** A message is reported exactly if a whole frame of legal length is on the stream and nothing stops it. */
  lemma TookMeans(bytes: seq<Byte>, script: seq<RecvOutcome>, linux: bool)
    ensures ReadOutcome(bytes, script, linux).Took? <==>
              && |bytes| >= 2 && LengthOf(bytes) <= MAX_MESSAGE_SIZE && |bytes| >= 2 + LengthOf(bytes)
              && TakesFrame(LengthOf(bytes), script, linux)
  {
    if |bytes| >= 2 && LengthOf(bytes) <= MAX_MESSAGE_SIZE && |bytes| >= 2 + LengthOf(bytes) {
      WholeFrameOutcome(bytes, LengthOf(bytes), script, linux);
    }
  }

  /** Whatever recv does, what is reported is the next whole message, or that the peer is gone. */
  lemma OnlyTheNext(bytes: seq<Byte>, script: seq<RecvOutcome>, linux: bool)
    ensures var out := ReadOutcome(bytes, script, linux);
            out.Took? ==> Decode(bytes) == One(Classify(bytes[2..out.taken]), bytes[out.taken..])
  {
  }

  /** A lost length makes the next read report a message that was never sent, if the body starts like one. */
  lemma LossThenMisread(inner: seq<Byte>, tail: seq<Byte>, rest: seq<Byte>, script: seq<RecvOutcome>, next: seq<RecvOutcome>, linux: bool)
    requires 2 + |inner| + |tail| <= MAX_MESSAGE_SIZE
    requires LosesLength(2 + |inner| + |tail|, script, linux) && TakesFrame(|inner|, next, linux)
    ensures var bytes := Frame(Frame(inner) + tail) + rest;
            && ReadOutcome(bytes, script, linux) == Nothing(2)
            && ReadOutcome(bytes[2..], next, linux) == Took(2 + |inner|)
            && EventsAfter([], bytes[2..], Took(2 + |inner|)) == [Classify(inner)]
  {
    FrameOutcome(Frame(inner) + tail, rest, script, linux);
    LostHeaderMisreads(inner, tail, rest);
    FrameOutcome(inner, tail + rest, next, linux);
    assert (Frame(inner) + (tail + rest))[2..2 + |inner|] == inner;
  }

  predicate SmoothRecv(script: seq<RecvOutcome>) {
    forall i :: 0 <= i < |script| ==> script[i].Received? || script[i].RecvInterrupted?
  }

  lemma {:induction false} SmoothDoesNotBlock(script: seq<RecvOutcome>)
    requires SmoothRecv(script)
    ensures !BlocksFirst(script) && !BreaksFirst(script)
    decreases |script|
  {
    if script == [] {
    } else {
      SmoothDoesNotBlock(script[1..]);
    }
  }

  /** Calls that are only cut short or interrupted take every frame. */
  lemma SmoothTakesFrame(length: nat, script: seq<RecvOutcome>, linux: bool)
    requires SmoothRecv(script)
    ensures TakesFrame(length, script, linux)
  {
    var k := RecvCalls(2, script);
    var head, body := script[..k], script[k..][..RecvCalls(length, script[k..])];
    SmoothDoesNotBlock(head);
    SmoothDoesNotBlock(body);
    PassesMeans(head, true, linux);
    PassesMeans(body, true, linux);
  }

  lemma TakeMore(s: seq<Byte>, a: nat, k: nat)
    requires a + k <= |s|
    ensures s[..a] + s[a..][..k] == s[..a + k] && s[a..][k..] == s[a + k..]
  {
  }

  /** One direction of the socket pair: the bytes sent and not yet received. */
  class Stream {
    var bytes: seq<Byte>

    constructor ()
      ensures bytes == []
    {
      bytes := [];
    }
  }

  class ControlFd {
    const incoming: Stream
    const outgoing: Stream
    /** Slot calls so far. */
    var events: seq<Event>
    const linux: bool

    constructor (incoming: Stream, outgoing: Stream, linux: bool)
      ensures this.incoming == incoming && this.outgoing == outgoing && this.linux == linux && events == []
    {
      this.incoming, this.outgoing, this.linux := incoming, outgoing, linux;
      events := [];
    }

    /**
     * Sends the frame in as many pieces as the script says; an exhausted script sends the rest.
     * On failure a proper prefix of the frame is out.
     */
    method SendMessageInternal(msg: seq<Byte>, script: seq<SendOutcome>) returns (ok: bool)
      modifies outgoing
      ensures |msg| > MAX_MESSAGE_SIZE ==> !ok && outgoing.bytes == old(outgoing.bytes)
      ensures ok ==> |msg| <= MAX_MESSAGE_SIZE && outgoing.bytes == old(outgoing.bytes) + Frame(msg)
      ensures ok <==> |msg| <= MAX_MESSAGE_SIZE && SendsAll(2 + |msg|, script)
      ensures |msg| <= MAX_MESSAGE_SIZE && !ok ==>
                exists k :: 0 <= k < |Frame(msg)| && outgoing.bytes == old(outgoing.bytes) + Frame(msg)[..k]
    {
      if |msg| > MAX_MESSAGE_SIZE {
        return false;
      }
      var sendBuf := Frame(msg);
      var totalSent, left := 0, script;
      ghost var was := outgoing.bytes;
      while totalSent < |sendBuf|
        invariant 0 <= totalSent <= |sendBuf|
        invariant outgoing.bytes == was + sendBuf[..totalSent]
        invariant SendsAll(|sendBuf|, script) <==> SendsAll(|sendBuf| - totalSent, left)
        decreases |sendBuf| - totalSent, |left|
      {
        if left != [] {
          SendsAllStep(|sendBuf| - totalSent, left);
        }
        var outcome := if left != [] then left[0] else Sent(|sendBuf|);
        left := if left != [] then left[1..] else left;
        match outcome
        case SendInterrupted =>
        case SendFailed =>
          return false;
        case Sent(count) =>
          var k := Clamp(count, |sendBuf| - totalSent);
          outgoing.bytes := outgoing.bytes + sendBuf[totalSent..totalSent + k];
          totalSent := totalSent + k;
      }
      return true;
    }

    /** send_shutdown_message */
    method SendShutdownMessage(graceful: bool, script: seq<SendOutcome>) returns (ok: bool)
      modifies outgoing
      ensures ok <==> SendsAll(2 + 17, script)
      ensures ok ==> outgoing.bytes == old(outgoing.bytes) + Frame(Encoded(AskShutdown(graceful)))
    {
      ok := SendMessageInternal(Encoded(AskShutdown(graceful)), script);
    }

    /** One call of recv. */
    method Recv(want: nat, script: seq<RecvOutcome>) returns (outcome: RecvOutcome, chunk: seq<Byte>, left: seq<RecvOutcome>)
      requires want > 0
      modifies incoming
      ensures outcome == NextOutcome(want, |old(incoming.bytes)|, script)
      ensures left == if script == [] then [] else script[1..]
      ensures |chunk| == Moves(want, |old(incoming.bytes)|, script)
      ensures |chunk| <= |old(incoming.bytes)| && chunk == old(incoming.bytes)[..|chunk|]
      ensures incoming.bytes == old(incoming.bytes)[|chunk|..]
    {
      outcome := NextOutcome(want, |incoming.bytes|, script);
      left := if script == [] then [] else script[1..];
      var count := Moves(want, |incoming.bytes|, script);
      chunk := incoming.bytes[..count];
      incoming.bytes := incoming.bytes[count..];
    }

    /** read_fn: collects `size` bytes as Pull says; `left` is the unused part of the script. */
    method ReadFully(size: nat, script: seq<RecvOutcome>) returns (res: ReadResult, buffer: seq<Byte>, left: seq<RecvOutcome>)
      modifies incoming
      ensures Pulled(res, |buffer|, left) == Pull(size, |old(incoming.bytes)|, 0, script, linux)
      ensures buffer == old(incoming.bytes)[..|buffer|] && incoming.bytes == old(incoming.bytes)[|buffer|..]
    {
      res, buffer, left := Complete, [], script;
      ghost var was, end := incoming.bytes, Pull(size, |incoming.bytes|, 0, script, linux);
      while res.Complete? && |buffer| < size
        invariant |buffer| <= size && |buffer| <= |was| && buffer == was[..|buffer|] && incoming.bytes == was[|buffer|..]
        invariant end == if res.Complete? then Pull(size, |was|, |buffer|, left, linux) else Pulled(res, |buffer|, left)
        decreases res.Complete?, |left|, size - |buffer|
      {
        var chunk;
        var got := |buffer|;
        res, chunk, left := ReadSome(size, got, |was|, left);
        TakeMore(was, got, |chunk|);
        buffer := buffer + chunk;
      }
    }

    /** The loop body of read_fn with `got` bytes in the buffer: one call of recv, and whether to go on. */
    method ReadSome(size: nat, got: nat, ghost length: nat, script: seq<RecvOutcome>)
      returns (res: ReadResult, chunk: seq<Byte>, left: seq<RecvOutcome>)
      requires got < size && length == got + |incoming.bytes|
      modifies incoming
      ensures got + |chunk| <= size && |chunk| <= |old(incoming.bytes)|
      ensures chunk == old(incoming.bytes)[..|chunk|] && incoming.bytes == old(incoming.bytes)[|chunk|..]
      ensures Pull(size, length, got, script, linux)
           == if res.Complete? then Pull(size, length, got + |chunk|, left, linux) else Pulled(res, got + |chunk|, left)
      ensures res.Complete? ==> |left| < |script| || (left == script && |chunk| > 0)
    {
      var outcome;
      outcome, chunk, left := Recv(size - got, script);
      if outcome.RecvClosed? || outcome.RecvFailed? {
        return PeerClosed, chunk, left;
      }
      if outcome.RecvWouldBlock? {
        if got == 0 {
          return Abandoned, chunk, left;
        }
        if !linux {
          return PeerClosed, chunk, left;
        }
        if script == [] {
          return Waiting, chunk, left;
        }
      }
      return Complete, chunk, left;
    }

    /** One event_read does what ReadOutcome says, whatever is on the stream and whatever recv does. */
    method EventRead(script: seq<RecvOutcome>) returns (waiting: bool)
      modifies incoming, this`events
      ensures var out := ReadOutcome(old(incoming.bytes), script, linux);
              && events == EventsAfter(old(events), old(incoming.bytes), out)
              && incoming.bytes == old(incoming.bytes)[out.taken..]
              && waiting == out.Waits?
    {
      ghost var was := incoming.bytes;
      var res, header, left := ReadFully(2, script);
      if res.PeerClosed? {
        events := events + [Closed];
        return false;
      }
      if !res.Complete? {
        return res.Waiting?;
      }
      var messageSize := 0x100 * (header[0] as int) + header[1] as int;
      assert messageSize == LengthOf(was);
      if messageSize > MAX_MESSAGE_SIZE {
        events := events + [Closed];
        return false;
      }
      var buffer;
      res, buffer, left := ReadFully(messageSize, left);
      if res.PeerClosed? {
        events := events + [Closed];
        return false;
      }
      if !res.Complete? {
        return res.Waiting?;
      }
      assert buffer == was[2..2 + messageSize] && incoming.bytes == was[2 + messageSize..];
      CallSlot(buffer);
      return false;
    }

    /** Tells a shutdown message from text. */
    method CallSlot(buffer: seq<Byte>)
      modifies this`events
      ensures events == old(events) + [Classify(buffer)]
    {
      if |buffer| >= 9 && buffer[..9] == SHUTDOWN {
        if |buffer| == 17 && buffer[9..] == GRACEFUL {
          assert buffer == SHUTDOWN + GRACEFUL;
          events := events + [Shutdown(true)];
          return;
        }
        if |buffer| == 17 && buffer[9..] == FORCEFUL {
          assert buffer == SHUTDOWN + FORCEFUL;
          assert GRACEFUL[0] != FORCEFUL[0];
          events := events + [Shutdown(false)];
          return;
        }
        events := events + [InvalidShutdown];
        return;
      }
      events := events + [Message(buffer)];
    }
  }

  // ---- Any interleaving of sends and reads ------------------------------------------------------

  datatype Op = Send(msg: seq<Byte>, pieces: seq<SendOutcome>) | Read(chunks: seq<RecvOutcome>)

  ghost predicate Sendable(ms: seq<seq<Byte>>) {
    forall i :: 0 <= i < |ms| ==> |ms[i]| <= MAX_MESSAGE_SIZE
  }

  /** The messages that are sent. */
  function SentIn(ops: seq<Op>): seq<seq<Byte>> {
    if ops == [] then []
    else SentIn(ops[..|ops| - 1]) + (if ops[|ops| - 1].Send? then [ops[|ops| - 1].msg] else [])
  }

  /** How many of them are read: each event_read that does not block at once takes one, if one is there. */
  function ReadIn(ops: seq<Op>): nat {
    if ops == [] then 0
    else
      var before, last := ops[..|ops| - 1], ops[|ops| - 1];
      if last.Read? && ReadIn(before) < |SentIn(before)| && !BlocksFirst(last.chunks) then ReadIn(before) + 1 else ReadIn(before)
  }

  lemma {:induction false} ReadAtMostSent(ops: seq<Op>)
    ensures ReadIn(ops) <= |SentIn(ops)|
    decreases |ops|
  {
    if ops == [] {
    } else {
      ReadAtMostSent(ops[..|ops| - 1]);
    }
  }

  /** As many reads as there were messages leave none unread. */
  lemma {:induction false} ReadsCatchUp(ops: seq<Op>, more: seq<Op>)
    requires forall i :: 0 <= i < |more| ==> more[i].Read? && !BlocksFirst(more[i].chunks)
    ensures SentIn(ops + more) == SentIn(ops)
    ensures Min(|SentIn(ops)|, |more|) <= ReadIn(ops + more) <= |SentIn(ops)|
    decreases |more|
  {
    ReadAtMostSent(ops);
    if more == [] {
      assert ops + more == ops;
    } else {
      assert (ops + more)[..|ops + more| - 1] == ops + more[..|more| - 1];
      ReadsCatchUp(ops, more[..|more| - 1]);
    }
  }

  /** Sending goes through. */
  predicate SendIsFine(msg: seq<Byte>, pieces: seq<SendOutcome>) {
    |msg| <= MAX_MESSAGE_SIZE && SendsAll(2 + |msg|, pieces)
  }

  /**
   * Before a frame, recv would block at once or nothing stops the frame; before nothing, the socket
   * is not closed or broken.
   */
  predicate ReadIsFine(sent: seq<seq<Byte>>, read: nat, chunks: seq<RecvOutcome>, linux: bool) {
    if read < |sent| then BlocksFirst(chunks) || TakesFrame(|sent[read]|, chunks, linux) else !BreaksFirst(chunks)
  }

  predicate OpsFine(ops: seq<Op>, linux: bool) {
    ops == [] ||
    (var before, last := ops[..|ops| - 1], ops[|ops| - 1];
     && OpsFine(before, linux)
     && match last
        case Send(msg, pieces) => SendIsFine(msg, pieces)
        case Read(chunks) => ReadIsFine(SentIn(before), ReadIn(before), chunks, linux))
  }

  /** What was reported is the messages up to some point, and the stream holds the frames beyond it. */
  ghost predicate InStep(events: seq<Event>, bytes: seq<Byte>, sent: seq<seq<Byte>>, read: nat)
    requires Sendable(sent)
  {
    read <= |sent| && events == Classified(sent[..read]) && bytes == Frames(sent[read..])
  }

  /** So it is up to some message or other. */
  ghost predicate SomewhereInStep(events: seq<Event>, bytes: seq<Byte>, sent: seq<seq<Byte>>)
    requires Sendable(sent)
  {
    exists read: nat :: InStep(events, bytes, sent, read)
  }

  lemma {:induction false} NeverClosed(ms: seq<seq<Byte>>)
    ensures Closed !in Classified(ms)
    decreases |ms|
  {
    if ms == [] {
    } else {
      NeverClosed(ms[1..]);
    }
  }

  /** A fine read takes the next message or nothing. */
  lemma FineReadOutcome(sent: seq<seq<Byte>>, read: nat, chunks: seq<RecvOutcome>, linux: bool)
    requires Sendable(sent) && read <= |sent|
    ensures var out := ReadOutcome(Frames(sent[read..]), chunks, linux);
            && (ReadIsFine(sent, read, chunks, linux) <==> out == Nothing(0) || out.Took?)
            && (out == Nothing(0) ==> read == |sent| || BlocksFirst(chunks))
            && (out.Took? ==> read < |sent| && !BlocksFirst(chunks) && out == Took(2 + |sent[read]|))
  {
    if read < |sent| {
      ReadOne(sent, read);
      FrameOutcome(sent[read], Frames(sent[read + 1..]), chunks, linux);
    } else {
      EmptyOutcome(chunks, linux);
    }
  }

  /** The slot calls and the stream after a fine read. */
  lemma FineReadKeeps(sent: seq<seq<Byte>>, read: nat, chunks: seq<RecvOutcome>, linux: bool)
    requires Sendable(sent) && read <= |sent| && ReadIsFine(sent, read, chunks, linux)
    ensures var bytes := Frames(sent[read..]);
            var out := ReadOutcome(bytes, chunks, linux);
            && !out.Waits?
            && InStep(EventsAfter(Classified(sent[..read]), bytes, out), bytes[out.taken..], sent,
                      if read < |sent| && !BlocksFirst(chunks) then read + 1 else read)
  {
    FineReadOutcome(sent, read, chunks, linux);
    if ReadOutcome(Frames(sent[read..]), chunks, linux).Took? {
      ReadOne(sent, read);
      assert Frames(sent[read..])[2 + |sent[read]|..] == Frames(sent[read + 1..]);
      assert Frames(sent[read..])[2..2 + |sent[read]|] == sent[read];
    }
  }

  /** The exact boundary: an event_read keeps the two sides in step if and only if it is fine. */
  lemma ReadBoundary(sent: seq<seq<Byte>>, read: nat, chunks: seq<RecvOutcome>, linux: bool)
    requires Sendable(sent) && read <= |sent|
    ensures var bytes := Frames(sent[read..]);
            var out := ReadOutcome(bytes, chunks, linux);
            ReadIsFine(sent, read, chunks, linux) <==>
              !out.Waits? && SomewhereInStep(EventsAfter(Classified(sent[..read]), bytes, out), bytes[out.taken..], sent)
  {
    var bytes, events := Frames(sent[read..]), Classified(sent[..read]);
    var out := ReadOutcome(bytes, chunks, linux);
    if ReadIsFine(sent, read, chunks, linux) {
      FineReadKeeps(sent, read, chunks, linux);
    } else if !out.Waits? {
      FineReadOutcome(sent, read, chunks, linux);
      forall now: nat ensures !InStep(EventsAfter(events, bytes, out), bytes[out.taken..], sent, now) {
        if out.Gone? && now <= |sent| {
          NeverClosed(sent[..now]);
          assert (events + [Closed])[|events|] == Closed;
        }
      }
    }
  }

  /**
   * One side sends whole messages and the other calls event_read, in any order, whatever send and
   * recv do. As long as every call is fine, the slot calls are the classified messages sent so far
   * up to the number of reads, and the frames of the messages beyond it are on the stream.
   */
  method Session(sender: ControlFd, receiver: ControlFd, ops: seq<Op>) returns (sent: seq<seq<Byte>>, ghost read: nat)
    requires sender.outgoing == receiver.incoming && receiver.incoming.bytes == [] && receiver.events == []
    modifies receiver.incoming, receiver`events
    ensures OpsFine(ops, receiver.linux) ==> Tracks(ops, sent, read, receiver.events, receiver.incoming.bytes)
  {
    sent, read := [], 0;
    for k := 0 to |ops|
      invariant OpsFine(ops[..k], receiver.linux) ==> Tracks(ops[..k], sent, read, receiver.events, receiver.incoming.bytes)
    {
      sent, read := TakeOp(sender, receiver, ops, k, sent, read);
    }
    assert ops[..|ops|] == ops;
  }

  method TakeOp(sender: ControlFd, receiver: ControlFd, ops: seq<Op>, k: nat, sent: seq<seq<Byte>>, ghost read: nat)
    returns (nowSent: seq<seq<Byte>>, ghost nowRead: nat)
    requires sender.outgoing == receiver.incoming && k < |ops|
    requires OpsFine(ops[..k], receiver.linux) ==> Tracks(ops[..k], sent, read, receiver.events, receiver.incoming.bytes)
    modifies receiver.incoming, receiver`events
    ensures OpsFine(ops[..k + 1], receiver.linux) ==> Tracks(ops[..k + 1], nowSent, nowRead, receiver.events, receiver.incoming.bytes)
  {
    ghost var before, fine := ops[..k], OpsFine(ops[..k + 1], receiver.linux);
    assert ops[..k + 1][..k] == before && ops[..k + 1][k] == ops[k];
    ghost var events, bytes := receiver.events, receiver.incoming.bytes;
    match ops[k] {
      case Send(msg, pieces) =>
        var ok := sender.SendMessageInternal(msg, pieces);
        if fine {
          SendTracks(before, ops[..k + 1], sent, read, events, bytes);
        }
        nowSent, nowRead := sent + [msg], read;
      case Read(chunks) =>
        var waiting := receiver.EventRead(chunks);
        if fine {
          ReadTracks(before, ops[..k + 1], receiver.linux, sent, read, events, bytes);
        }
        nowSent, nowRead := sent, if read < |sent| && !BlocksFirst(chunks) then read + 1 else read;
    }
  }

  /** What was sent and read in `ops`, and that the slot calls and the stream agree with it. */
  ghost predicate Tracks(ops: seq<Op>, sent: seq<seq<Byte>>, read: nat, events: seq<Event>, bytes: seq<Byte>) {
    sent == SentIn(ops) && read == ReadIn(ops) && Sendable(sent) && InStep(events, bytes, sent, read)
  }

  lemma SendTracks(before: seq<Op>, ops: seq<Op>, sent: seq<seq<Byte>>, read: nat, events: seq<Event>, bytes: seq<Byte>)
    requires Tracks(before, sent, read, events, bytes)
    requires ops != [] && ops[..|ops| - 1] == before
    requires ops[|ops| - 1].Send? && |ops[|ops| - 1].msg| <= MAX_MESSAGE_SIZE
    ensures var msg := ops[|ops| - 1].msg; Tracks(ops, sent + [msg], read, events, bytes + Frame(msg))
  {
    SendOne(sent, read, ops[|ops| - 1].msg);
  }

  lemma ReadTracks(before: seq<Op>, ops: seq<Op>, linux: bool, sent: seq<seq<Byte>>, read: nat, events: seq<Event>, bytes: seq<Byte>)
    requires Tracks(before, sent, read, events, bytes)
    requires ops != [] && ops[..|ops| - 1] == before
    requires ops[|ops| - 1].Read? && ReadIsFine(sent, read, ops[|ops| - 1].chunks, linux)
    ensures var chunks := ops[|ops| - 1].chunks;
            var out := ReadOutcome(bytes, chunks, linux);
            Tracks(ops, sent, if read < |sent| && !BlocksFirst(chunks) then read + 1 else read, EventsAfter(events, bytes, out), bytes[out.taken..])
  {
    FineReadKeeps(sent, read, ops[|ops| - 1].chunks, linux);
  }

  lemma SendOne(sent: seq<seq<Byte>>, read: nat, msg: seq<Byte>)
    requires Sendable(sent) && read <= |sent| && |msg| <= MAX_MESSAGE_SIZE
    ensures Frames((sent + [msg])[read..]) == Frames(sent[read..]) + Frame(msg)
    ensures (sent + [msg])[..read] == sent[..read]
  {
    assert (sent + [msg])[read..] == sent[read..] + [msg];
    FramesAppend(sent[read..], [msg]);
    assert [msg][1..] == [];
  }

  lemma ReadOne(sent: seq<seq<Byte>>, read: nat)
    requires Sendable(sent) && read < |sent|
    ensures Frames(sent[read..]) == Frame(sent[read]) + Frames(sent[read + 1..])
    ensures Decode(Frames(sent[read..])) == One(Classify(sent[read]), Frames(sent[read + 1..]))
    ensures Classified(sent[..read + 1]) == Classified(sent[..read]) + [Classify(sent[read])]
  {
    assert sent[read..][1..] == sent[read + 1..];
    DecodeFrame(sent[read], Frames(sent[read + 1..]));
    assert sent[..read + 1] == sent[..read] + [sent[read]];
    ClassifiedAppend(sent[..read], sent[read]);
  }

  lemma {:induction false} ClassifiedAppend(ms: seq<seq<Byte>>, m: seq<Byte>)
    ensures Classified(ms + [m]) == Classified(ms) + [Classify(m)]
    decreases |ms|
  {
    if ms == [] {
      assert [m][1..] == [];
    } else {
      assert (ms + [m])[1..] == ms[1..] + [m];
      ClassifiedAppend(ms[1..], m);
    }
  }
}
