/** `memcpy` of stdlib.c on a memory of bytes: four at a time, then one at a time. */
module Copies {
  import opened Common

  const NULL_ADDRESS: nat := 0

  /** Read `len` bytes at `src`, then write them at `dest`. */
  function CopyUnit(m: seq<Byte>, dest: nat, src: nat, len: nat): (m': seq<Byte>)
    requires dest + len <= |m| && src + len <= |m|
    ensures |m'| == |m|
  {
    seq(|m|, i requires 0 <= i < |m| => if dest <= i < dest + len then m[src + (i - dest)] else m[i])
  }

  /** Memory after the units that the source copies, in its order. */
  function Copied(m: seq<Byte>, dest: nat, src: nat, n: nat): (m': seq<Byte>)
    requires dest + n <= |m| && src + n <= |m|
    ensures |m'| == |m|
    decreases n
  {
    if n == 0 then m
    else
      var len := if n >= 4 then 4 else 1;
      Copied(CopyUnit(m, dest, src, len), dest + len, src + len, n - len)
  }

  method CopyWord(mem: array<Byte>, dp: nat, sp: nat)
    requires dp + 4 <= mem.Length && sp + 4 <= mem.Length
    modifies mem
    ensures mem[..] == CopyUnit(old(mem[..]), dp, sp, 4)
  {
    mem[dp], mem[dp + 1], mem[dp + 2], mem[dp + 3] := mem[sp], mem[sp + 1], mem[sp + 2], mem[sp + 3];
  }

  /** The first loop: whole words. */
  method CopyWords(mem: array<Byte>, dest: nat, src: nat, words: nat, ghost bytes: nat) returns (dp: nat, sp: nat)
    requires bytes < 4
    requires dest + 4 * words + bytes <= mem.Length && src + 4 * words + bytes <= mem.Length
    modifies mem
    ensures dp == dest + 4 * words && sp == src + 4 * words
    ensures Copied(mem[..], dp, sp, bytes) == Copied(old(mem[..]), dest, src, 4 * words + bytes)
  {
    dp, sp := dest, src;
    var longs: nat := words;
    ghost var rest := 4 * words + bytes;
    ghost var target := Copied(mem[..], dest, src, rest);
    while longs > 0
      invariant rest == 4 * longs + bytes
      invariant dp + rest == dest + 4 * words + bytes && sp + rest == src + 4 * words + bytes
      invariant Copied(mem[..], dp, sp, rest) == target
    {
      CopyWord(mem, dp, sp);
      dp, sp, longs, rest := dp + 4, sp + 4, longs - 1, rest - 4;
    }
  }

  /** The second loop: what is left. */
  method CopyBytes(mem: array<Byte>, dest: nat, src: nat, bytes: nat)
    requires bytes < 4 && dest + bytes <= mem.Length && src + bytes <= mem.Length
    modifies mem
    ensures mem[..] == Copied(old(mem[..]), dest, src, bytes)
  {
    var i := 0;
    ghost var target := Copied(mem[..], dest, src, bytes);
    while i < bytes
      invariant 0 <= i <= bytes && Copied(mem[..], dest + i, src + i, bytes - i) == target
    {
      ghost var m := mem[..];
      mem[dest + i] := mem[src + i];
      assert mem[..] == CopyUnit(m, dest + i, src + i, 1);
      i := i + 1;
    }
  }

  method Split(n: nat) returns (bytes: nat, longs: nat)
    ensures bytes < 4 && 4 * longs + bytes == n
  {
    bytes := n % 4;
    longs := (n - bytes) / 4;
  }

  /** A null pointer on either side makes it do nothing. */
  method Memcpy(mem: array<Byte>, dest: nat, src: nat, n: nat)
    requires dest != NULL_ADDRESS && src != NULL_ADDRESS ==> dest + n <= mem.Length && src + n <= mem.Length
    modifies mem
    ensures mem[..] == if dest != NULL_ADDRESS && src != NULL_ADDRESS then Copied(old(mem[..]), dest, src, n)
                       else old(mem[..])
  {
    if dest != NULL_ADDRESS && src != NULL_ADDRESS && n > 0 {
      var bytes, longs := Split(n);
      var dp, sp := CopyWords(mem, dest, src, longs, bytes);
      CopyBytes(mem, dp, sp, bytes);
    }
  }

  /** The source region does not begin below the destination and reach into it. */
  predicate NoForwardOverlap(dest: nat, src: nat, n: nat) { dest <= src || src + n <= dest }

  lemma {:induction false} CopiedIsUnit(m: seq<Byte>, dest: nat, src: nat, n: nat)
    requires dest + n <= |m| && src + n <= |m|
    requires NoForwardOverlap(dest, src, n) || n == 4
    ensures Copied(m, dest, src, n) == CopyUnit(m, dest, src, n)
    decreases n
  {
    if n != 0 && n != 4 {
      var len := if n >= 4 then 4 else 1;
      var m1 := CopyUnit(m, dest, src, len);
      CopiedIsUnit(m1, dest + len, src + len, n - len);
      assert CopyUnit(m1, dest + len, src + len, n - len) == CopyUnit(m, dest, src, n);
    } else if n == 4 {
      assert Copied(CopyUnit(m, dest, src, 4), dest + 4, src + 4, 0) == CopyUnit(m, dest, src, 4);
    } else {
      assert CopyUnit(m, dest, src, 0) == m;
    }
  }

  lemma {:induction false} UniformStays(m: seq<Byte>, dest: nat, src: nat, n: nat)
    requires dest + n <= |m| && src + n <= |m| && forall i :: 0 <= i < |m| ==> m[i] == 0
    ensures Copied(m, dest, src, n) == m
    decreases n
  {
    if n != 0 {
      var len := if n >= 4 then 4 else 1;
      assert CopyUnit(m, dest, src, len) == m;
      UniformStays(m, dest + len, src + len, n - len);
    }
  }

  /** On overlapping regions too the copy is right for every content, exactly if the destination does
      not begin inside the source behind its first byte; a single word is always right. */
  lemma CopyIsRightIff(size: nat, dest: nat, src: nat, n: nat)
    requires dest + n <= size && src + n <= size
    ensures (forall m: seq<Byte> :: |m| == size ==> Copied(m, dest, src, n) == CopyUnit(m, dest, src, n))
            <==> NoForwardOverlap(dest, src, n) || n == 4
  {
    if NoForwardOverlap(dest, src, n) || n == 4 {
      forall m: seq<Byte> | |m| == size ensures Copied(m, dest, src, n) == CopyUnit(m, dest, src, n) {
        CopiedIsUnit(m, dest, src, n);
      }
    } else {
      var m := WrongCopy(size, dest, src, n);
    }
  }

  /** Otherwise a byte is lost that the first unit overwrites before it is read. */
  lemma WrongCopy(size: nat, dest: nat, src: nat, n: nat) returns (m: seq<Byte>)
    requires dest + n <= size && src + n <= size && !NoForwardOverlap(dest, src, n) && n != 4
    ensures |m| == size && Copied(m, dest, src, n) != CopyUnit(m, dest, src, n)
  {
    var len := if n >= 4 then 4 else 1;
    var k := if dest - src > len then dest - src else len;
    m := seq(size, i => if i == src + k then 1 else 0);
    var m' := CopyUnit(m, dest, src, len);
    forall i | 0 <= i < size ensures m'[i] == 0 {
    }
    UniformStays(m', dest + len, src + len, n - len);
    assert CopyUnit(m, dest, src, n)[dest + k] == 1;
  }
}
