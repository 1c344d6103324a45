/** Bytes of shared memory and the 32-bit words of a record header. */
module Bytes {

  type Byte = b: int | 0 <= b < 0x100

  /** One past the largest uint32_t. */
  const WORD := 0x1_0000_0000

  /** uint32_t: the verifier checks that what is assigned to such a variable has not overflowed. */
  type U32 = x: int | 0 <= x < WORD

  /** Addition and subtraction where the wrap-around of uint32_t can happen. */
  function WrapAdd(a: U32, b: U32): U32 {
    if a + b < WORD then a + b else a + b - WORD
  }

  function WrapSub(a: U32, b: U32): U32 {
    if a >= b then a - b else a - b + WORD
  }

  function Min(a: int, b: int): int {
    if a <= b then a else b
  }

  /** The four bytes of a word, least significant first. */
  function Encode(v: int): (s: seq<Byte>)
    requires 0 <= v < WORD
    ensures |s| == 4
  {
    [v % 0x100, v / 0x100 % 0x100, v / 0x1_0000 % 0x100, v / 0x100_0000]
  }

  /** The number that a sequence of bytes encodes. */
  function Number(s: seq<Byte>): nat {
    if s == [] then 0 else s[0] as int + 0x100 * Number(s[1..])
  }

  lemma NumberOfFour(s: seq<Byte>)
    requires |s| == 4
    ensures Number(s) == s[0] as int + 0x100 * (s[1] as int) + 0x1_0000 * (s[2] as int) + 0x100_0000 * (s[3] as int)
    ensures Number(s) < WORD
  {
    assert Number(s[3..]) == s[3] as int;
    assert s[2..][1..] == s[3..] && Number(s[2..]) == s[2] as int + 0x100 * Number(s[3..]);
    assert s[1..][1..] == s[2..] && Number(s[1..]) == s[1] as int + 0x100 * Number(s[2..]);
  }

  /** A word encodes and decodes to itself. */
  lemma NumberOfEncode(v: nat)
    requires v < WORD
    ensures Number(Encode(v)) == v
  {
    NumberOfFour(Encode(v));
    assert v / 0x1_0000 == v / 0x100 / 0x100;
    assert v / 0x100_0000 == v / 0x1_0000 / 0x100;
  }

  function WordAt(mem: seq<Byte>, off: nat): nat
    requires off + 4 <= |mem|
  {
    Number(mem[off..off + 4])
  }

  /** Overwrite the bytes from `off` on with `bs`. */
  function Put(mem: seq<Byte>, off: nat, bs: seq<Byte>): (m: seq<Byte>)
    requires off + |bs| <= |mem|
    ensures |m| == |mem|
    ensures m[off..off + |bs|] == bs
    ensures forall i :: 0 <= i < |mem| && !(off <= i < off + |bs|) ==> m[i] == mem[i]
  {
    mem[..off] + bs + mem[off + |bs|..]
  }

  /** Two sequences that share an element are joined there. */
  function Joined<T>(a: seq<T>, b: seq<T>): seq<T>
    requires a != [] && b != []
  {
    a + b[1..]
  }

  lemma JoinedAt<T>(a: seq<T>, b: seq<T>, i: nat)
    requires a != [] && b != [] && a[|a| - 1] == b[0] && i < |Joined(a, b)|
    ensures Joined(a, b)[i] == if i < |a| then a[i] else b[i - |a| + 1]
    ensures i + 1 >= |a| ==> Joined(a, b)[i] == b[i - |a| + 1]
  {
  }

  lemma Associate<T>(a: seq<T>, b: seq<T>, c: seq<T>)
    ensures (a + b) + c == a + (b + c)
  {
  }

  /** Two adjacent stores are one, in either order. */
  lemma PutBefore(mem: seq<Byte>, off: nat, a: seq<Byte>, b: seq<Byte>)
    requires off + |a| + |b| <= |mem|
    ensures Put(Put(mem, off + |a|, b), off, a) == Put(mem, off, a + b)
  {
  }

  lemma PutBehind(mem: seq<Byte>, off: nat, a: seq<Byte>, b: seq<Byte>)
    requires off + |a| + |b| <= |mem|
    ensures Put(Put(mem, off, a), off + |a|, b) == Put(mem, off, a + b)
  {
  }

  /** The two memories agree on the bytes `lo..hi`. */
  ghost predicate SameBytes(a: seq<Byte>, b: seq<Byte>, lo: int, hi: int) {
    |a| == |b| && forall i :: lo <= i < hi && 0 <= i < |a| ==> a[i] == b[i]
  }
}
