/** copy_data of utils.c: whole words first, then bytes. */
module Utils {
  import opened Machine

  /** What a correct copy makes of the memory. */
  function Copied(mem: seq<byte>, start: nat, dest: nat, size: nat): (r: seq<byte>)
    requires start + size <= |mem| && dest + size <= |mem|
    ensures |r| == |mem|
    ensures forall i :: 0 <= i < |mem| ==> r[i] == if dest <= i < dest + size then mem[start + (i - dest)] else mem[i]
  {
    mem[..dest] + mem[start..start + size] + mem[dest + size..]
  }

  /** How much copy_data moves at once when `size` bytes are left. */
  function Chunk(size: int): nat {
    if size > 4 then 4 else 1
  }

  /** What copy_data does, overlapping or not. */
  function Forward(mem: seq<byte>, p: nat, q: nat, size: int): (r: seq<byte>)
    requires size > 0 ==> p + size <= |mem| && q + size <= |mem|
    ensures |r| == |mem|
    decreases size
  {
    if size > 0 then
      var k := Chunk(size);
      Forward(Copied(mem, p, q, k), p + k, q + k, size - k)
    else mem
  }

  lemma ForwardWord(mem: seq<byte>, p: nat, q: nat, size: nat)
    requires 4 < size && p + size <= |mem| && q + size <= |mem|
    ensures Forward(mem, p, q, size) == Forward(Copied(mem, p, q, 4), p + 4, q + 4, size - 4)
  {
  }

  lemma ForwardByte(mem: seq<byte>, p: nat, q: nat, size: nat)
    requires 0 < size <= 4 && p + size <= |mem| && q + size <= |mem|
    ensures Forward(mem, p, q, size) == Forward(Copied(mem, p, q, 1), p + 1, q + 1, size - 1)
  {
  }

  /** *q = *p for words. */
  method CopyWord(mem: array<byte>, p: nat, q: nat)
    requires p + 4 <= mem.Length && q + 4 <= mem.Length
    modifies mem
    ensures mem[..] == Copied(old(mem[..]), p, q, 4)
  {
    ghost var before := mem[..];
    mem[q], mem[q + 1], mem[q + 2], mem[q + 3] := mem[p], mem[p + 1], mem[p + 2], mem[p + 3];
    forall i | 0 <= i < mem.Length ensures mem[i] == if q <= i < q + 4 then before[p + (i - q)] else before[i] {
      assert q <= i < q + 4 ==> i == q || i == q + 1 || i == q + 2 || i == q + 3;
    }
  }

  /** *q = *p for bytes. */
  method CopyByte(mem: array<byte>, p: nat, q: nat)
    requires p < mem.Length && q < mem.Length
    modifies mem
    ensures mem[..] == Copied(old(mem[..]), p, q, 1)
  {
    mem[q] := mem[p];
  }

  lemma ForwardDone(mem: seq<byte>, p: nat, q: nat, size: int)
    requires size <= 0
    ensures Forward(mem, p, q, size) == mem
  {
  }

  method CopyData(mem: array<byte>, start: nat, dest: nat, size: int)
    requires size > 0 ==> start + size <= mem.Length && dest + size <= mem.Length
    modifies mem
    ensures mem[..] == Forward(old(mem[..]), start, dest, size)
  {
    hide Forward, Copied;
    ghost var goal := Forward(mem[..], start, dest, size);
    var p: nat, q: nat, left := start, dest, size;
    while left > 4
      invariant left > 0 ==> p + left <= mem.Length && q + left <= mem.Length
      invariant Forward(mem[..], p, q, left) == goal
    {
      ForwardWord(mem[..], p, q, left);
      CopyWord(mem, p, q);
      p, q, left := p + 4, q + 4, left - 4;
    }
    while left > 0
      invariant left <= 4 && (left > 0 ==> p + left <= mem.Length && q + left <= mem.Length)
      invariant Forward(mem[..], p, q, left) == goal
    {
      ForwardByte(mem[..], p, q, left);
      CopyByte(mem, p, q);
      p, q, left := p + 1, q + 1, left - 1;
    }
    ForwardDone(mem[..], p, q, left);
  }

  // ---------------------------------------------------------------- when the copy is a copy

  /** The destination does not begin inside the source. */
  predicate CopyIsSafe(start: nat, dest: nat, size: nat) {
    dest <= start || start + size <= dest
  }

  /** Copying the first k bytes and then the rest. */
  lemma CopiedAt(mem: seq<byte>, start: nat, dest: nat, size: nat, i: nat)
    requires start + size <= |mem| && dest + size <= |mem| && i < |mem|
    ensures Copied(mem, start, dest, size)[i] == if dest <= i < dest + size then mem[start + (i - dest)] else mem[i]
  {
  }

  lemma CopiedInTwo(mem: seq<byte>, m: seq<byte>, start: nat, dest: nat, size: nat, k: nat)
    requires k <= size && start + size <= |mem| && dest + size <= |mem| && CopyIsSafe(start, dest, size)
    requires m == Copied(mem, start, dest, k)
    ensures Copied(m, start + k, dest + k, size - k) == Copied(mem, start, dest, size)
  {
    hide Copied;
    var x, y := Copied(m, start + k, dest + k, size - k), Copied(mem, start, dest, size);
    forall i | 0 <= i < |mem| ensures x[i] == y[i] {
      CopiedAt(m, start + k, dest + k, size - k, i);
      CopiedAt(mem, start, dest, size, i);
      CopiedAt(mem, start, dest, k, if dest + k <= i < dest + size then start + (i - dest) else i);
    }
  }

  lemma {:induction false} SafeIsRight(mem: seq<byte>, start: nat, dest: nat, size: nat)
    requires start + size <= |mem| && dest + size <= |mem| && CopyIsSafe(start, dest, size)
    ensures Forward(mem, start, dest, size) == Copied(mem, start, dest, size)
    decreases size
  {
    if size > 0 {
      hide Copied;
      var k := Chunk(size);
      var m := Copied(mem, start, dest, k);
      SafeIsRight(m, start + k, dest + k, size - k);
      CopiedInTwo(mem, m, start, dest, size, k);
    } else {
      assert Copied(mem, start, dest, 0) == mem;
    }
  }

  predicate AllZero(mem: seq<byte>) {
    forall i :: 0 <= i < |mem| ==> mem[i] == 0
  }

  predicate OnlyAt(mem: seq<byte>, w: nat) {
    w < |mem| && forall i :: 0 <= i < |mem| ==> mem[i] == if i == w then 1 else 0
  }

  lemma {:induction false} ZerosStay(mem: seq<byte>, p: nat, q: nat, size: nat)
    requires p + size <= |mem| && q + size <= |mem| && AllZero(mem)
    ensures AllZero(Forward(mem, p, q, size))
    decreases size
  {
    if size > 0 {
      var k := Chunk(size);
      ZerosStay(Copied(mem, p, q, k), p + k, q + k, size - k);
    }
  }

  /** The last byte of the source, at w, is overwritten before it is read. */
  lemma {:induction false} LastByteIsLost(mem: seq<byte>, p: nat, q: nat, size: nat, w: nat)
    requires p + size <= |mem| && q + size <= |mem| && p < q <= w == p + size - 1 && OnlyAt(mem, w)
    ensures AllZero(Forward(mem, p, q, size))
    decreases size
  {
    hide Copied, AllZero, OnlyAt, Forward, Chunk;
    ForwardChunk(mem, p, q, size);
    var k := Chunk(size);
    ChunkBeforeLast(size);
    FirstChunkOfZeros(mem, p, q, k, w);
    var m := Copied(mem, p, q, k);
    if q + k > w {
      ZerosStay(m, p + k, q + k, size - k);
    } else {
      LastByteIsLost(m, p + k, q + k, size - k, w);
    }
  }

  lemma ChunkBeforeLast(size: nat)
    requires size > 0
    ensures Chunk(size) < size || Chunk(size) == size == 1
  {
  }

  lemma ForwardChunk(mem: seq<byte>, p: nat, q: nat, size: nat)
    requires 0 < size && p + size <= |mem| && q + size <= |mem|
    ensures var k := Chunk(size);
            var m := Copied(mem, p, q, k);
            && 1 <= k <= size && |m| == |mem| && Forward(mem, p, q, size) == Forward(m, p + k, q + k, size - k)
  {
  }

  lemma FirstChunkOfZeros(mem: seq<byte>, p: nat, q: nat, k: nat, w: nat)
    requires p + k <= |mem| && q + k <= |mem| && p < q <= w && OnlyAt(mem, w) && p + k <= w
    ensures var m := Copied(mem, p, q, k); if q + k > w then AllZero(m) else OnlyAt(m, w)
  {
    var m := Copied(mem, p, q, k);
    forall i | 0 <= i < |m| ensures m[i] == if i == w && q + k <= w then 1 else 0 {
      CopiedAt(mem, p, q, k, i);
      if q <= i < q + k {
        assert p + (i - q) != w;
      }
    }
  }

  /** A memory in which only the byte at w is not zero. */
  function OneByte(n: nat, w: nat): (mem: seq<byte>)
    requires w < n
    ensures |mem| == n && OnlyAt(mem, w)
  {
    seq(n, i => if i == w then 1 else 0)
  }

  ghost predicate CopiesAll(n: nat, start: nat, dest: nat, size: nat)
    requires start + size <= n && dest + size <= n
  {
    forall mem: seq<byte> :: |mem| == n ==> Forward(mem, start, dest, size) == Copied(mem, start, dest, size)
  }

  /** copy_data copies every memory right if and only if the destination does not begin inside the source. */
  lemma CopyIsRightExactly(n: nat, start: nat, dest: nat, size: nat)
    requires start + size <= n && dest + size <= n
    ensures CopiesAll(n, start, dest, size) <==> CopyIsSafe(start, dest, size)
  {
    if CopyIsSafe(start, dest, size) {
      forall mem: seq<byte> | |mem| == n
        ensures Forward(mem, start, dest, size) == Copied(mem, start, dest, size)
      {
        SafeIsRight(mem, start, dest, size);
      }
    } else {
      var mem := OneByte(n, start + size - 1);
      LastByteIsLost(mem, start, dest, size, start + size - 1);
      assert Copied(mem, start, dest, size)[dest + size - 1] == 1;
      assert Forward(mem, start, dest, size) != Copied(mem, start, dest, size);
    }
  }
}
