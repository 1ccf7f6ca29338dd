/** Messages in memory, byte by byte on a 64-bit machine: each is one allocation that holds a header, the gap
    libwebsockets wants before the payload, and the payload. */
module MessageLayout {

  newtype byte = x: int | 0 <= x < 256

  const WORD := 8
  const NEXT := 0
  const DATA := 8
  const LENGTH := 16
  const HEADER := 24
  const SIZE_LIMIT: nat := 0x1_0000_0000_0000_0000

  /** The size that is asked for: `size_t` arithmetic wraps around. */
  function RequestedSize(pre: nat, length: nat): nat {
    (HEADER + pre + length) % SIZE_LIMIT
  }

  /** The allocation is exactly header, gap and payload if the sum does not wrap around; if it does, the
      allocation is too small to hold the payload. */
  lemma SizeIsExact(pre: nat, length: nat)
    requires pre < SIZE_LIMIT && length < SIZE_LIMIT
    ensures RequestedSize(pre, length) >= HEADER + pre + length <==> HEADER + pre + length < SIZE_LIMIT
    ensures HEADER + pre + length < SIZE_LIMIT ==> RequestedSize(pre, length) == HEADER + pre + length
  {
  }

  // ---------- words in memory ----------

  /** The value of some bytes, least significant first. */
  function Value(bytes: seq<byte>): nat {
    if bytes == [] then 0 else bytes[0] as nat + 256 * Value(bytes[1..])
  }

  function Bytes(value: nat, n: nat): (bytes: seq<byte>)
    ensures |bytes| == n
  {
    if n == 0 then [] else [(value % 256) as byte] + Bytes(value / 256, n - 1)
  }

  function Power256(n: nat): nat {
    if n == 0 then 1 else 256 * Power256(n - 1)
  }

  lemma {:induction false} ValueOfBytes(value: nat, n: nat)
    requires value < Power256(n)
    ensures Value(Bytes(value, n)) == value
  {
    if n > 0 {
      ValueOfBytes(value / 256, n - 1);
      assert Bytes(value, n)[1..] == Bytes(value / 256, n - 1);
    }
  }

  function Word(block: seq<byte>, at: nat): nat
    requires at + WORD <= |block|
  {
    Value(block[at..at + WORD])
  }

  // ---------- operations on memory ----------

  /** Nothing but the bytes from `from` to `to` has changed. */
  predicate OnlyBetween(a: seq<byte>, b: seq<byte>, from: nat, to: nat) {
    |a| == |b| && forall i :: 0 <= i < |a| && (i < from || to <= i) ==> b[i] == a[i]
  }

  method StoreBytes(memory: array<byte>, at: nat, bytes: seq<byte>)
    requires at + |bytes| <= memory.Length
    modifies memory
    ensures memory[at..at + |bytes|] == bytes
    ensures OnlyBetween(old(memory[..]), memory[..], at, at + |bytes|)
  {
    var i := 0;
    while i < |bytes|
      invariant 0 <= i <= |bytes|
      invariant forall k :: 0 <= k < i ==> memory[at + k] == bytes[k]
      invariant forall k :: 0 <= k < at || at + i <= k < memory.Length ==> memory[k] == old(memory[k])
    {
      memory[at + i] := bytes[i];
      i := i + 1;
    }
  }

  method StoreWord(memory: array<byte>, at: nat, value: nat)
    requires at + WORD <= memory.Length && value < SIZE_LIMIT
    modifies memory
    ensures Word(memory[..], at) == value
    ensures OnlyBetween(old(memory[..]), memory[..], at, at + WORD)
  {
    assert Power256(8) == SIZE_LIMIT by {
      assert Power256(4) == 0x1_0000_0000;
      assert Power256(8) == 256 * (256 * (256 * (256 * Power256(4))));
    }
    ValueOfBytes(value, WORD);
    StoreBytes(memory, at, Bytes(value, WORD));
    assert memory[..][at..at + WORD] == memory[at..at + WORD];
  }

  lemma SliceKept(a: seq<byte>, b: seq<byte>, from: nat, to: nat, at: nat, n: nat)
    requires OnlyBetween(a, b, from, to) && at + n <= |a|
    requires at + n <= from || to <= at
    ensures a[at..at + n] == b[at..at + n]
  {
  }

  // ---------- a message ----------

  function Extent(pre: nat, length: nat): nat {
    HEADER + pre + length
  }

  /** A message at an address, with all but its `next`. */
  ghost predicate LaidOut(memory: seq<byte>, at: nat, pre: nat, text: seq<byte>) {
    && 0 < at && at + Extent(pre, |text|) <= |memory|
    && Word(memory, at + DATA) == at + HEADER + pre
    && Word(memory, at + LENGTH) == |text|
    && memory[at + HEADER + pre..at + HEADER + pre + |text|] == text
  }

  /** A message is not affected by what is written into its `next`, its gap or outside of it. */
  lemma StaysLaidOut(a: seq<byte>, b: seq<byte>, from: nat, to: nat, at: nat, pre: nat, text: seq<byte>)
    requires LaidOut(a, at, pre, text) && OnlyBetween(a, b, from, to)
    requires
      || to <= at + WORD
      || (at + HEADER <= from && to <= at + HEADER + pre)
      || at + Extent(pre, |text|) <= from
    ensures LaidOut(b, at, pre, text)
  {
    SliceKept(a, b, from, to, at + DATA, WORD);
    SliceKept(a, b, from, to, at + LENGTH, WORD);
    SliceKept(a, b, from, to, at + HEADER + pre, |text|);
  }

  lemma PayloadReplaced(a: seq<byte>, b: seq<byte>, at: nat, pre: nat, was: seq<byte>, text: seq<byte>)
    requires LaidOut(a, at, pre, was) && |text| == |was|
    requires OnlyBetween(a, b, at + HEADER + pre, at + Extent(pre, |text|))
    requires b[at + HEADER + pre..at + HEADER + pre + |text|] == text
    ensures LaidOut(b, at, pre, text)
  {
    SliceKept(a, b, at + HEADER + pre, at + Extent(pre, |text|), at + DATA, WORD);
    SliceKept(a, b, at + HEADER + pre, at + Extent(pre, |text|), at + LENGTH, WORD);
  }

  /** Fills in the header of a message for which there is memory at an address, and serializes its text. */
  method Create(memory: array<byte>, at: nat, pre: nat, text: seq<byte>)
    requires 0 < at && at + Extent(pre, |text|) <= memory.Length < SIZE_LIMIT
    modifies memory
    ensures LaidOut(memory[..], at, pre, text) && Word(memory[..], at + NEXT) == 0
    ensures OnlyBetween(old(memory[..]), memory[..], at, at + Extent(pre, |text|))
  {
    StoreWord(memory, at + DATA, at + HEADER + pre);
    ghost var one := memory[..];
    StoreWord(memory, at + LENGTH, |text|);
    ghost var two := memory[..];
    StoreWord(memory, at + NEXT, 0);
    ghost var three := memory[..];
    StoreBytes(memory, at + HEADER + pre, text);
    SliceKept(one, two, at + LENGTH, at + HEADER, at + DATA, WORD);
    SliceKept(two, three, at + NEXT, at + WORD, at + DATA, WORD);
    SliceKept(two, three, at + NEXT, at + WORD, at + LENGTH, WORD);
    SliceKept(three, memory[..], at + HEADER + pre, at + Extent(pre, |text|), at + NEXT, WORD);
    SliceKept(three, memory[..], at + HEADER + pre, at + Extent(pre, |text|), at + DATA, WORD);
    SliceKept(three, memory[..], at + HEADER + pre, at + Extent(pre, |text|), at + LENGTH, WORD);
    assert memory[..][at + HEADER + pre..at + HEADER + pre + |text|] == text;
  }
}
