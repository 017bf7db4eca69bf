/** The memory tests of memtest.c on a faulty memory: an arbitrary address map and arbitrary data faults. */
module MemTest {
  import opened Common
  import opened Bits

  /** The 32-bit word that the tests write and read. */
  type Datum = v: int | 0 <= v < TWO_32

  function Not(v: Datum): Datum { TWO_32 - 1 - v }

  /** A device as seen through its buses: `route` says which cell answers to an offset from the base
      address, and `held` what a cell returns after a value has been written to it. */
  class Memory {
    const route: nat -> nat
    const held: (nat, Datum) -> Datum
    var cells: map<nat, Datum>

    constructor (route: nat -> nat, held: (nat, Datum) -> Datum, cells: map<nat, Datum>)
      ensures this.route == route && this.held == held && this.cells == cells
    {
      this.route, this.held, this.cells := route, held, cells;
    }

    /** The value written at `o` comes back. */
    predicate Keeps(o: nat, v: Datum) { held(route(o), v) == v }

    predicate Holds(o: nat, v: Datum)
      reads this
    {
      route(o) in cells && cells[route(o)] == v
    }

    method Write(o: nat, v: Datum)
      modifies this
      ensures cells == old(cells)[route(o) := held(route(o), v)]
    {
      cells := cells[route(o) := held(route(o), v)];
    }

    method Read(o: nat) returns (v: Datum)
      requires route(o) in cells
      ensures v == cells[route(o)]
    {
      v := cells[route(o)];
    }
  }

  /** Data faults that fix some bits of each cell at a level. */
  ghost predicate OnlyStuckBits(m: Memory, stuck: (nat, nat) -> bool, level: (nat, nat) -> bool) {
    forall c: nat, v: Datum, k: nat :: k < 32 ==>
      Bit(m.held(c, v), k) == if stuck(c, k) then level(c, k) else Bit(v, k)
  }

  ghost predicate NoStuckBit(stuck: (nat, nat) -> bool, c: nat) {
    forall k: nat :: k < 32 ==> !stuck(c, k)
  }

  lemma UnstuckKeeps(m: Memory, o: nat, v: Datum, stuck: (nat, nat) -> bool, level: (nat, nat) -> bool)
    requires OnlyStuckBits(m, stuck, level) && NoStuckBit(stuck, m.route(o))
    ensures m.Keeps(o, v)
  {
    Pow2Of32();
    SameBits(m.held(m.route(o), v), v, 32);
  }

  // ---------- memTestDataBus ----------

  /** 1 << k in 32 bits. */
  function Shl(k: nat): (v: nat)
    requires k <= 32
    ensures v < TWO_32 && (v == 0 <==> k == 32)
  {
    if k < 32 then Pow2Monotonic(k, 32); Pow2Of32(); Pow2(k) else 0
  }

  /** 0 if and only if all 32 single-bit patterns come back; otherwise the first that does not. */
  method TestDataBus(m: Memory, address: nat) returns (failed: Datum)
    modifies m
    ensures failed == 0 <==> forall k :: 0 <= k < 32 ==> m.Keeps(address, Shl(k))
    ensures failed != 0 ==> exists k :: 0 <= k < 32 && failed == Shl(k) && !m.Keeps(address, failed)
                                        && forall j :: 0 <= j < k ==> m.Keeps(address, Shl(j))
  {
    var pattern: Datum := 1;
    ghost var k := 0;
    while pattern != 0
      invariant 0 <= k <= 32 && pattern == Shl(k)
      invariant forall j :: 0 <= j < k ==> m.Keeps(address, Shl(j))
      decreases 32 - k
    {
      m.Write(address, pattern);
      var v := m.Read(address);
      if v != pattern {
        return pattern;
      }
      ShlStep(k);
      pattern, k := pattern * 2 % TWO_32, k + 1;
    }
    return 0;
  }

  lemma ShlStep(k: nat)
    requires k < 32
    ensures Shl(k) * 2 % TWO_32 == Shl(k + 1)
  {
    Pow2Of32();
  }

  /** With stuck bits as the only fault, the test passes exactly when no bit of the cell is stuck. */
  lemma DataBusFindsStuckBits(m: Memory, address: nat, stuck: (nat, nat) -> bool, level: (nat, nat) -> bool)
    requires OnlyStuckBits(m, stuck, level)
    ensures (forall k :: 0 <= k < 32 ==> m.Keeps(address, Shl(k))) <==> NoStuckBit(stuck, m.route(address))
  {
    var c := m.route(address);
    if NoStuckBit(stuck, c) {
      forall k | 0 <= k < 32 ensures m.Keeps(address, Shl(k)) {
        UnstuckKeeps(m, address, Shl(k), stuck, level);
      }
    } else {
      var k: nat :| k < 32 && stuck(c, k);
      var j := if level(c, k) then (if k == 0 then 1 else 0) else k;
      BitOfPow2(j, k);
      assert Bit(m.held(c, Shl(j)), k) == level(c, k);
      assert !m.Keeps(address, Shl(j));
    }
  }

  // ---------- memTestDevice ----------

  ghost predicate Injective(m: Memory, n: nat) {
    forall i: nat, j: nat :: i < n && j < n && m.route(i) == m.route(j) ==> i == j
  }

  /** What the first pass writes at offset `o`, and what the second leaves there. */
  function Pattern(o: nat): Datum
    requires o < TWO_32 - 1
  {
    o + 1
  }

  function Inverse(o: nat): Datum
    requires o < TWO_32 - 1
  {
    Not(o + 1)
  }

  ghost predicate KeepsBoth(m: Memory, n: nat)
    requires n < TWO_32 - 1
  {
    forall o: nat :: o < n ==> m.Keeps(o, Pattern(o)) && m.Keeps(o, Inverse(o))
  }

  ghost predicate FirstLoss(m: Memory, n: nat, v: nat)
    requires v < n < TWO_32 - 1
  {
    || (!m.Keeps(v, Pattern(v)) && forall o: nat :: o < v ==> m.Keeps(o, Pattern(o)))
    || ((forall o: nat :: o < n ==> m.Keeps(o, Pattern(o)))
        && !m.Keeps(v, Inverse(v)) && forall o: nat :: o < v ==> m.Keeps(o, Inverse(o)))
  }

  /** None if and only if no two offsets share a cell and every cell keeps both its pattern and the
      complement; the region is then left holding the complements, not zeros.  Without sharing, the
      offset reported is the first that loses its pattern, or else the first that loses the complement. */
  method TestDevice(m: Memory, nBytes: nat) returns (failed: Option<nat>)
    requires nBytes < TWO_32
    modifies m
    ensures failed.None? <==> Injective(m, nBytes / 4) && KeepsBoth(m, nBytes / 4)
    ensures failed.None? ==> forall o: nat :: o < nBytes / 4 ==> m.Holds(o, Inverse(o))
    ensures failed.Some? ==> failed.value < nBytes / 4
    ensures failed.Some? && Injective(m, nBytes / 4) ==> FirstLoss(m, nBytes / 4, failed.value)
  {
    var nWords := nBytes / 4;
    Fill(m, nWords);
    failed := CheckAndInvert(m, nWords);
    if failed.None? {
      failed := CheckInverted(m, nWords);
      if failed.None? {
        NoAliases(m, nWords);
      }
    }
  }

  /** First pass: write offset + 1 at each offset. */
  method Fill(m: Memory, nWords: nat)
    requires nWords < TWO_32 - 1
    modifies m
    ensures forall o: nat :: o < nWords ==> m.route(o) in m.cells
    ensures Injective(m, nWords) ==> forall o: nat :: o < nWords ==> m.Holds(o, m.held(m.route(o), Pattern(o)))
  {
    var offset: nat, pattern: Datum := 0, 1;
    while offset < nWords
      invariant offset <= nWords && pattern == offset + 1
      invariant forall o: nat :: o < offset ==> m.route(o) in m.cells
      invariant Injective(m, nWords) ==> forall o: nat :: o < offset ==> m.Holds(o, m.held(m.route(o), Pattern(o)))
    {
      m.Write(offset, pattern);
      pattern, offset := (pattern + 1) % TWO_32, offset + 1;
    }
  }

  /** Second pass: check each offset and write the complement. */
  method CheckAndInvert(m: Memory, nWords: nat) returns (failed: Option<nat>)
    requires nWords < TWO_32 - 1
    requires forall o: nat :: o < nWords ==> m.route(o) in m.cells
    requires Injective(m, nWords) ==> forall o: nat :: o < nWords ==> m.Holds(o, m.held(m.route(o), Pattern(o)))
    modifies m
    ensures forall o: nat :: o < nWords ==> m.route(o) in m.cells
    ensures failed.None? && Injective(m, nWords) ==>
              forall o: nat :: o < nWords ==> m.Holds(o, m.held(m.route(o), Inverse(o))) && m.Keeps(o, Pattern(o))
    ensures failed.Some? ==> failed.value < nWords
    ensures failed.Some? && Injective(m, nWords) ==>
              !m.Keeps(failed.value, Pattern(failed.value))
              && forall o: nat :: o < failed.value ==> m.Keeps(o, Pattern(o))
  {
    var offset: nat, pattern: Datum := 0, 1;
    while offset < nWords
      invariant offset <= nWords && pattern == offset + 1
      invariant forall o: nat :: o < nWords ==> m.route(o) in m.cells
      invariant Injective(m, nWords) ==>
                  forall o: nat :: o < offset ==> m.Holds(o, m.held(m.route(o), Inverse(o))) && m.Keeps(o, Pattern(o))
      invariant Injective(m, nWords) ==>
                  forall o: nat :: offset <= o < nWords ==> m.Holds(o, m.held(m.route(o), Pattern(o)))
    {
      var v := m.Read(offset);
      if v != pattern {
        return Some(offset);
      }
      var antipattern := Not(pattern);
      m.Write(offset, antipattern);
      pattern, offset := (pattern + 1) % TWO_32, offset + 1;
    }
    return None;
  }

  /** Third pass: check each offset for the complement. */
  method CheckInverted(m: Memory, nWords: nat) returns (failed: Option<nat>)
    requires nWords < TWO_32 - 1
    requires forall o: nat :: o < nWords ==> m.route(o) in m.cells
    requires Injective(m, nWords) ==> forall o: nat :: o < nWords ==> m.Holds(o, m.held(m.route(o), Inverse(o)))
    ensures failed.None? <==> forall o: nat :: o < nWords ==> m.Holds(o, Inverse(o))
    ensures failed.Some? ==> failed.value < nWords
    ensures failed.Some? && Injective(m, nWords) ==>
              !m.Keeps(failed.value, Inverse(failed.value))
              && forall o: nat :: o < failed.value ==> m.Keeps(o, Inverse(o))
  {
    var offset: nat, pattern: Datum := 0, 1;
    while offset < nWords
      invariant offset <= nWords && pattern == offset + 1
      invariant forall o: nat :: o < offset ==>
                  m.Holds(o, Inverse(o)) && (Injective(m, nWords) ==> m.Keeps(o, Inverse(o)))
    {
      var antipattern := Not(pattern);
      var v := m.Read(offset);
      if v != antipattern {
        assert !m.Holds(offset, Inverse(offset));
        return Some(offset);
      }
      pattern, offset := (pattern + 1) % TWO_32, offset + 1;
    }
    return None;
  }

  /** The last pass reads without writing, so two offsets of one cell would have returned one value. */
  lemma NoAliases(m: Memory, n: nat)
    requires n < TWO_32 - 1
    requires forall o: nat :: o < n ==> m.Holds(o, Inverse(o))
    ensures Injective(m, n)
  {
    forall i: nat, j: nat | i < n && j < n && m.route(i) == m.route(j) ensures i == j {
      assert m.Holds(i, Inverse(i)) && m.Holds(j, Inverse(j));
    }
  }

  /** With stuck bits as the only data fault: every cell keeps both patterns exactly when no reached
      cell has a stuck bit. */
  lemma DeviceFindsStuckBits(m: Memory, n: nat, stuck: (nat, nat) -> bool, level: (nat, nat) -> bool)
    requires n < TWO_32 - 1 && OnlyStuckBits(m, stuck, level)
    ensures KeepsBoth(m, n) <==> forall o: nat :: o < n ==> NoStuckBit(stuck, m.route(o))
  {
    forall o: nat | o < n
      ensures m.Keeps(o, Pattern(o)) && m.Keeps(o, Inverse(o)) <==> NoStuckBit(stuck, m.route(o))
    {
      BothKept(m, o, o + 1, stuck, level);
    }
  }

  lemma BothKept(m: Memory, o: nat, v: Datum, stuck: (nat, nat) -> bool, level: (nat, nat) -> bool)
    requires OnlyStuckBits(m, stuck, level)
    ensures m.Keeps(o, v) && m.Keeps(o, Not(v)) <==> NoStuckBit(stuck, m.route(o))
  {
    var c := m.route(o);
    if NoStuckBit(stuck, c) {
      UnstuckKeeps(m, o, v, stuck, level);
      UnstuckKeeps(m, o, Not(v), stuck, level);
    } else {
      var k: nat :| k < 32 && stuck(c, k);
      Pow2Of32();
      BitOfComplement(v, 32, k);
      assert Bit(m.held(c, v), k) == level(c, k) && Bit(m.held(c, Not(v)), k) == level(c, k);
    }
  }

  // ---------- memTestAddressBus ----------

  const PATTERN: Datum := 0xAAAAAAAA
  const ANTIPATTERN: Datum := 0x55555555

  /** The digits of a third of 2^n - 1 alternate. */
  lemma {:induction false} Alternates(v: nat, n: nat, k: nat)
    requires n % 2 == 0 && k < n && 3 * v == Pow2(n) - 1
    ensures Bit(v, k) <==> k % 2 == 0
  {
    var w := v / 4;
    assert Pow2(n) == 4 * Pow2(n - 2);
    assert v == 4 * w + 1 && 3 * w == Pow2(n - 2) - 1;
    if k >= 2 {
      assert v / 2 / 2 == w;
      Alternates(w, n - 2, k - 2);
    }
  }

  /** The patterns are checkerboards: each sets every other bit, and together they set all. */
  lemma Checkerboard(k: nat)
    requires k < 32
    ensures (Bit(PATTERN, k) <==> k % 2 == 1) && (Bit(ANTIPATTERN, k) <==> k % 2 == 0)
  {
    Pow2Of32();
    Alternates(ANTIPATTERN, 32, k);
    if k > 0 {
      assert PATTERN / 2 == ANTIPATTERN;
      Alternates(ANTIPATTERN, 32, k - 1);
    }
  }

  /** How many of the low digits of `mask` are ones in a row: the address lines that the loops walk. */
  function Lines(mask: nat): nat {
    if mask % 2 == 1 then 1 + Lines(mask / 2) else 0
  }

  lemma {:induction false} LinesBits(mask: nat, k: nat)
    ensures k < Lines(mask) ==> Bit(mask, k)
    ensures k == Lines(mask) ==> !Bit(mask, k)
  {
    if k > 0 && mask % 2 == 1 { LinesBits(mask / 2, k - 1); }
  }

  lemma {:induction false} LinesBound(mask: nat, n: nat)
    requires mask < Pow2(n)
    ensures Lines(mask) <= n
  {
    if mask % 2 == 1 { LinesBound(mask / 2, n - 1); }
  }

  /** nBytes / sizeof(datum) - 1 in 32 bits. */
  function Mask(nBytes: nat): (mask: nat)
    requires nBytes < TWO_32
    ensures mask < TWO_32 && Lines(mask) <= 32
  {
    var mask := (nBytes / 4 + TWO_32 - 1) % TWO_32;
    Pow2Of32();
    LinesBound(mask, 32);
    mask
  }

  /** Offset number `i` that the test probes: 0, then the lines 1, 2, 4, ... */
  function Probe(i: nat): nat
    requires i <= 32
  {
    if i == 0 then 0 else Pow2(i - 1)
  }

  /** No two probed offsets share a cell. */
  ghost predicate Distinct(m: Memory, n: nat)
    requires n <= 32
  {
    forall i: nat, j: nat :: i <= n && j <= n && m.route(Probe(i)) == m.route(Probe(j)) ==> i == j
  }

  ghost predicate DataSound(m: Memory, n: nat)
    requires n <= 32
  {
    forall i: nat :: i <= n ==> m.Keeps(Probe(i), PATTERN) && m.Keeps(Probe(i), ANTIPATTERN)
  }

  /** A probed cell may fail to keep a pattern, but it never turns the second into the first. */
  ghost predicate Tells(m: Memory, n: nat)
    requires n <= 32
  {
    forall i: nat :: i <= n ==> m.held(m.route(Probe(i)), ANTIPATTERN) != PATTERN
  }

  ghost predicate KeepPattern(m: Memory, from: nat, to: nat)
    requires to <= 32
  {
    forall i: nat :: from <= i <= to ==> m.Keeps(Probe(i), PATTERN)
  }

  /** The loop test `(offset & addressMask) != 0` stops at the first digit of the mask that is 0. */
  lemma WalkTest(k: nat, mask: nat)
    requires k <= Lines(mask) <= 32
    ensures And(Shl(k), mask) != 0 <==> k < Lines(mask)
  {
    if k < 32 { AndPow2(k, mask); }
    LinesBits(mask, k);
  }

  ghost predicate AllWritten(m: Memory, from: nat, to: nat)
    requires to <= 32
    reads m
  {
    forall i: nat :: from <= i <= to ==> m.route(Probe(i)) in m.cells
  }

  ghost predicate AllHold(m: Memory, from: nat, to: nat, v: Datum)
    requires to <= 32
    reads m
  {
    forall i: nat :: from <= i <= to ==> m.Holds(Probe(i), v)
  }

  /** The cells hold what is left of the default pattern in them. */
  ghost predicate AllFresh(m: Memory, from: nat, to: nat)
    requires to <= 32
    reads m
  {
    forall i: nat :: from <= i <= to ==> m.Holds(Probe(i), m.held(m.route(Probe(i)), PATTERN))
  }

  /** Write the default pattern at each line. */
  method WriteLines(m: Memory, mask: nat)
    requires mask < TWO_32 && Lines(mask) <= 32
    modifies m
    ensures AllWritten(m, 1, Lines(mask))
    ensures DataSound(m, Lines(mask)) ==> AllHold(m, 1, Lines(mask), PATTERN)
    ensures Distinct(m, Lines(mask)) ==> AllFresh(m, 1, Lines(mask))
  {
    var offset := 1;
    ghost var k: nat := 0;
    while And(offset, mask) != 0
      invariant k <= Lines(mask) && offset == Shl(k)
      invariant AllWritten(m, 1, k)
      invariant DataSound(m, Lines(mask)) ==> AllHold(m, 1, k, PATTERN)
      invariant Distinct(m, Lines(mask)) ==> AllFresh(m, 1, k)
      decreases 32 - k
    {
      WalkTest(k, mask);
      assert offset == Probe(k + 1);
      m.Write(offset, PATTERN);
      ShlStep(k);
      offset, k := offset * 2 % TWO_32, k + 1;
    }
    WalkTest(k, mask);
  }

  /** The first line other than `except` that does not hold the default pattern. */
  method FindChanged(m: Memory, mask: nat, except: nat, ghost e: nat) returns (failed: Option<nat>)
    requires mask < TWO_32 && Lines(mask) <= 32 && AllWritten(m, 1, Lines(mask))
    requires e <= Lines(mask) && except == Probe(e)
    ensures failed.None? <==> forall i: nat :: 1 <= i <= Lines(mask) && i != e ==> m.Holds(Probe(i), PATTERN)
    ensures failed.Some? ==> exists i: nat :: 1 <= i <= Lines(mask) && i != e && failed.value == Probe(i)
                                              && !m.Holds(Probe(i), PATTERN)
                                              && forall j: nat :: 1 <= j < i && j != e ==> m.Holds(Probe(j), PATTERN)
  {
    var offset := 1;
    ghost var k: nat := 0;
    while And(offset, mask) != 0
      invariant k <= Lines(mask) && offset == Shl(k)
      invariant forall i: nat :: 1 <= i <= k && i != e ==> m.Holds(Probe(i), PATTERN)
      decreases 32 - k
    {
      WalkTest(k, mask);
      assert offset == Probe(k + 1);
      ProbeInjective(k + 1, e);
      var v := m.Read(offset);
      if v != PATTERN && offset != except {
        assert !m.Holds(Probe(k + 1), PATTERN);
        return Some(offset);
      }
      ShlStep(k);
      offset, k := offset * 2 % TWO_32, k + 1;
    }
    WalkTest(k, mask);
    return None;
  }

  lemma ProbeInjective(i: nat, j: nat)
    requires i <= 32 && j <= 32
    ensures Probe(i) == Probe(j) <==> i == j
  {
    if 0 < i < j { Pow2Monotonic(i - 1, j - 1); }
    if 0 < j < i { Pow2Monotonic(j - 1, i - 1); }
  }

  /** Nothing else answers to probe `t`. */
  ghost predicate Alone(m: Memory, n: nat, t: nat)
    requires n <= 32 && t <= n
  {
    forall i: nat :: i <= n && m.route(Probe(i)) == m.route(Probe(t)) ==> i == t
  }

  /** Probe `i` shares its cell with another. */
  ghost predicate Shared(m: Memory, n: nat, i: nat)
    requires n <= 32 && i <= n
  {
    exists j: nat :: j <= n && j != i && m.route(Probe(j)) == m.route(Probe(i))
  }

  /** Line `i` is the first that shares the cell of offset 0 or, if there is none, the first that shares
      its cell with any other. */
  ghost predicate FirstFault(m: Memory, n: nat, i: nat)
    requires n <= 32 && i <= n
  {
    if Alone(m, n, 0) then Shared(m, n, i) && forall t: nat :: t < i ==> Alone(m, n, t)
    else m.route(Probe(i)) == m.route(Probe(0))
         && forall j: nat :: 1 <= j < i ==> m.route(Probe(j)) != m.route(Probe(0))
  }

  /** A test that passes shows that 0 and the address lines reach pairwise different cells, on every
      memory that does not turn the second pattern into the first.  If they do reach different cells the
      test passes exactly when the cells keep the first pattern, or there is no line.  And without data
      faults a line that is reported is the first at fault.  It ends for every region size. */
  method TestAddressBus(m: Memory, nBytes: nat) returns (failed: Option<nat>)
    requires nBytes < TWO_32
    modifies m
    ensures var n := Lines(Mask(nBytes));
            && (Tells(m, n) && failed.None? ==> Distinct(m, n))
            && (Distinct(m, n) ==> (failed.None? <==> n == 0 || KeepPattern(m, 0, n)))
            && (DataSound(m, n) ==> (failed.None? <==> Distinct(m, n)))
    ensures var n := Lines(Mask(nBytes));
            failed.Some? ==> exists i: nat :: 1 <= i <= n && failed.value == Probe(i)
                                        && (DataSound(m, n) ==> FirstFault(m, n, i))
  {
    var mask := Mask(nBytes);
    SoundTells(m, Lines(mask));
    WriteLines(m, mask);
    failed := TestStuckHigh(m, mask);
    if failed.None? {
      failed := TestLines(m, mask);
    }
  }

  /** The check for lines stuck high: change offset 0 and look for a change at a line, then change it back. */
  method TestStuckHigh(m: Memory, mask: nat) returns (failed: Option<nat>)
    requires mask < TWO_32 && Lines(mask) <= 32 && AllWritten(m, 1, Lines(mask))
    requires DataSound(m, Lines(mask)) ==> AllHold(m, 1, Lines(mask), PATTERN)
    requires Distinct(m, Lines(mask)) ==> AllFresh(m, 1, Lines(mask))
    modifies m
    ensures AllWritten(m, 0, Lines(mask))
    ensures var n := Lines(mask);
            && (Tells(m, n) && failed.None? ==> Alone(m, n, 0))
            && (Distinct(m, n) ==> (failed.None? <==> KeepPattern(m, 1, n)))
            && (DataSound(m, n) && failed.None? ==> AllHold(m, 0, n, PATTERN))
            && (Distinct(m, n) && failed.None? ==> AllFresh(m, 0, n))
    ensures var n := Lines(mask);
            failed.Some? ==> exists i: nat :: 1 <= i <= n && failed.value == Probe(i)
                                        && (DataSound(m, n) ==> FirstFault(m, n, i))
  {
    ghost var n, sound := Lines(mask), DataSound(m, Lines(mask));
    m.Write(0, ANTIPATTERN);
    failed := FindChanged(m, mask, 0, 0);
    assert m.Holds(Probe(0), m.held(m.route(Probe(0)), ANTIPATTERN));
    if failed.Some? {
      ghost var i: nat :| 1 <= i <= n && failed.value == Probe(i) && !m.Holds(Probe(i), PATTERN)
                          && forall j: nat :: 1 <= j < i && j != 0 ==> m.Holds(Probe(j), PATTERN);
      if sound {
        assert m.route(Probe(i)) == m.route(Probe(0));
        forall j: nat | 1 <= j < i ensures m.route(Probe(j)) != m.route(Probe(0)) {
          assert m.Holds(Probe(j), PATTERN);
        }
      }
      return;
    }
    m.Write(0, PATTERN);
  }

  /** The last loop: change one line at a time and look for a change at 0 or at another line. */
  method TestLines(m: Memory, mask: nat) returns (failed: Option<nat>)
    requires mask < TWO_32 && Lines(mask) <= 32 && AllWritten(m, 0, Lines(mask))
    requires Tells(m, Lines(mask)) ==> Alone(m, Lines(mask), 0)
    requires DataSound(m, Lines(mask)) ==> AllHold(m, 0, Lines(mask), PATTERN)
    requires Distinct(m, Lines(mask)) ==> AllFresh(m, 0, Lines(mask)) && KeepPattern(m, 1, Lines(mask))
    modifies m
    ensures var n := Lines(mask);
            && (Tells(m, n) && failed.None? ==> Distinct(m, n))
            && (Distinct(m, n) ==> (failed.None? <==> n == 0 || KeepPattern(m, 0, n)))
    ensures var n := Lines(mask);
            failed.Some? ==> exists i: nat :: 1 <= i <= n && failed.value == Probe(i)
                                        && (DataSound(m, n) ==> Alone(m, n, 0) && FirstFault(m, n, i))
  {
    var testOffset := 1;
    ghost var k: nat, n := 0, Lines(mask);
    SoundTells(m, n);
    while And(testOffset, mask) != 0
      invariant k <= n && testOffset == Shl(k) && AllWritten(m, 0, n)
      invariant Tells(m, n) ==> forall t: nat :: t <= k ==> Alone(m, n, t)
      invariant DataSound(m, n) ==> AllHold(m, 0, n, PATTERN)
      invariant Distinct(m, n) ==> AllFresh(m, 0, n) && (k > 0 ==> m.Keeps(Probe(0), PATTERN))
      decreases 32 - k
    {
      WalkTest(k, mask);
      var ok := TestLine(m, mask, testOffset, k + 1);
      if !ok {
        return Some(testOffset);
      }
      ShlStep(k);
      testOffset, k := testOffset * 2 % TWO_32, k + 1;
    }
    WalkTest(k, mask);
    AllAlone(m, n);
    return None;
  }

  /** One line: it is changed, and changed back if nothing else has changed. */
  method TestLine(m: Memory, mask: nat, testOffset: nat, ghost e: nat) returns (ok: bool)
    requires mask < TWO_32 && 1 <= e <= Lines(mask) <= 32 && testOffset == Probe(e) && AllWritten(m, 0, Lines(mask))
    requires DataSound(m, Lines(mask)) ==> AllHold(m, 0, Lines(mask), PATTERN)
    requires Distinct(m, Lines(mask)) ==> AllFresh(m, 0, Lines(mask)) && KeepPattern(m, 1, Lines(mask))
    modifies m
    ensures AllWritten(m, 0, Lines(mask))
    ensures ok && Tells(m, Lines(mask)) ==> Alone(m, Lines(mask), e)
    ensures !ok && DataSound(m, Lines(mask)) ==> Shared(m, Lines(mask), e)
    ensures Distinct(m, Lines(mask)) ==> (ok <==> m.Keeps(Probe(0), PATTERN))
    ensures ok && DataSound(m, Lines(mask)) ==> AllHold(m, 0, Lines(mask), PATTERN)
    ensures ok && Distinct(m, Lines(mask)) ==> AllFresh(m, 0, Lines(mask))
  {
    ghost var n := Lines(mask);
    assert Probe(0) == 0 && m.route(Probe(0)) in m.cells;
    m.Write(testOffset, ANTIPATTERN);
    assert m.Holds(Probe(e), m.held(m.route(Probe(e)), ANTIPATTERN));
    var v := m.Read(0);
    if v != PATTERN {
      return false;
    }
    assert m.Holds(Probe(0), PATTERN);
    var changed := FindChanged(m, mask, testOffset, e);
    if changed.Some? {
      return false;
    }
    m.Write(testOffset, PATTERN);
    return true;
  }

  lemma AllAlone(m: Memory, n: nat)
    requires n <= 32
    ensures (forall t: nat :: t <= n ==> Alone(m, n, t)) ==> Distinct(m, n)
  {
    if forall t: nat :: t <= n ==> Alone(m, n, t) {
      forall i: nat, j: nat | i <= n && j <= n && m.route(Probe(i)) == m.route(Probe(j)) ensures i == j {
        assert Alone(m, n, j);
      }
    }
  }

  lemma SoundTells(m: Memory, n: nat)
    requires n <= 32
    ensures DataSound(m, n) ==> Tells(m, n) && KeepPattern(m, 0, n)
  {
  }

  // ---------- Faults of the address lines ----------

  /** `o` with digit `k` forced to `b`. */
  function Forced(o: nat, k: nat, b: bool): int {
    o + (if b then Pow2(k) else 0) - (if Bit(o, k) then Pow2(k) else 0)
  }

  /** `o` as seen through lines `j` and `k` that are shorted: both carry the and (or the or) of the two. */
  function Shorted(o: nat, j: nat, k: nat, wiredOr: bool): int {
    var b := if wiredOr then Bit(o, j) || Bit(o, k) else Bit(o, j) && Bit(o, k);
    Forced(o, j, b) + Forced(o, k, b) - o
  }

  /** A line that is stuck high or low is found, whatever else the device does with the address. */
  lemma StuckLineFound(m: Memory, n: nat, k: nat, b: bool, cell: int -> nat)
    requires k < n <= 32
    requires forall o: nat :: m.route(o) == cell(Forced(o, k, b))
    ensures !Distinct(m, n)
  {
    BitOfPow2(k, k);
    BitOfZero(k);
    assert m.route(Probe(0)) == m.route(Probe(k + 1));
  }

  /** So is a pair of lines that are shorted, wired-and or wired-or. */
  lemma ShortedLinesFound(m: Memory, n: nat, j: nat, k: nat, wiredOr: bool, cell: int -> nat)
    requires j < k < n <= 32
    requires forall o: nat :: m.route(o) == cell(Shorted(o, j, k, wiredOr))
    ensures !Distinct(m, n)
  {
    BitOfPow2(j, j);
    BitOfPow2(j, k);
    BitOfPow2(k, j);
    BitOfPow2(k, k);
    BitOfZero(j);
    BitOfZero(k);
    assert m.route(Probe(j + 1)) == m.route(Probe(if wiredOr then k + 1 else 0));
  }

  /** A fault of the address lines: one stuck at a level, or two shorted. */
  datatype LineFault = Stuck(k: nat, level: bool) | Short(j: nat, k: nat, wiredOr: bool)

  /** The device sees each address through the fault; what it does with it is arbitrary. */
  ghost predicate Has(m: Memory, f: LineFault, cell: int -> nat) {
    match f
    case Stuck(k, level) => forall o: nat :: m.route(o) == cell(Forced(o, k, level))
    case Short(j, k, wiredOr) => forall o: nat :: m.route(o) == cell(Shorted(o, j, k, wiredOr))
  }

  /** In a region of 2^n words every stuck line and every shorted pair among its n address lines is
      found, also when the cells have data faults, as long as they tell the two patterns apart. */
  method FindLineFault(m: Memory, n: nat, ghost f: LineFault, ghost cell: int -> nat) returns (failed: Option<nat>)
    requires n <= 29 && Tells(m, n) && Has(m, f, cell)
    requires f.k < n && (f.Short? ==> f.j < f.k)
    modifies m
    ensures failed.Some?
  {
    PowerOfTwoRegion(n);
    failed := TestAddressBus(m, 4 * Pow2(n));
    match f {
      case Stuck(k, level) => StuckLineFound(m, n, k, level, cell);
      case Short(j, k, wiredOr) => ShortedLinesFound(m, n, j, k, wiredOr, cell);
    }
  }

  // ---------- Which lines are walked ----------

  lemma MaskOfWords(nBytes: nat)
    requires 4 <= nBytes < TWO_32
    ensures Mask(nBytes) == nBytes / 4 - 1
  {
  }

  lemma FewLines(n: nat)
    requires n <= 29
    ensures 4 <= 4 * Pow2(n) < TWO_32
  {
    Pow2Of32();
    Pow2Monotonic(n, 30);
    assert 4 * Pow2(30) == Pow2(32);
  }

  /** A region of 2^n words has all of its n address lines walked. */
  lemma PowerOfTwoRegion(n: nat)
    requires n <= 29
    ensures 4 * Pow2(n) < TWO_32 && Lines(Mask(4 * Pow2(n))) == n
  {
    FewLines(n);
    var p := Pow2(n);
    MaskOfWords(4 * p);
    LinesOfOnes(n);
  }

  lemma {:induction false} LinesOfOnes(n: nat)
    ensures Lines(Pow2(n) - 1) == n
  {
    if n > 0 {
      assert (Pow2(n) - 1) / 2 == Pow2(n - 1) - 1;
      LinesOfOnes(n - 1);
    }
  }

  /** The number of lines walked in a region of `w` words is the number of factors 2 in `w`. */
  lemma {:induction false} LinesAreFactors(w: nat) returns (q: nat)
    requires w >= 1
    ensures q % 2 == 1 && w == q * Pow2(Lines(w - 1))
  {
    if w % 2 == 1 {
      q := w;
    } else {
      var h := w / 2;
      q := LinesAreFactors(h);
      var lines := Lines(h - 1);
      assert (w - 1) / 2 == h - 1 && Lines(w - 1) == lines + 1;
      Doubled(h, q, Pow2(lines));
      assert Pow2(lines + 1) == 2 * Pow2(lines);
    }
  }

  lemma Doubled(h: nat, q: nat, p: nat)
    requires h == q * p
    ensures 2 * h == q * (2 * p)
  {
  }

  ghost predicate IsPow2(w: nat) { exists n: nat :: w == Pow2(n) }

  /** The first `lines` lines are all that an offset below `w` can use. */
  ghost predicate AllLines(w: nat, lines: nat) { forall k: nat :: Pow2(k) < w ==> k < lines }

  /** Every address line of the region is walked exactly if its number of words is a power of two. */
  lemma AllLinesWalkedIff(nBytes: nat)
    requires 4 <= nBytes < TWO_32
    ensures AllLines(nBytes / 4, Lines(Mask(nBytes))) <==> IsPow2(nBytes / 4)
  {
    var w := nBytes / 4;
    MaskOfWords(nBytes);
    if AllLines(w, Lines(w - 1)) {
      var q := LinesAreFactors(w);
      OnlyFactor(q, Pow2(Lines(w - 1)), w);
    }
    if IsPow2(w) {
      var n: nat :| w == Pow2(n);
      forall k: nat | Pow2(k) < w ensures k < Lines(w - 1) {
        LineBelow(n, k);
      }
    }
  }

  lemma OnlyFactor(q: nat, p: nat, w: nat)
    requires q % 2 == 1 && w == q * p && w <= p && p >= 1
    ensures w == p
  {
    assert q * p - p == (q - 1) * p;
  }

  lemma LineBelow(n: nat, k: nat)
    requires Pow2(k) < Pow2(n)
    ensures k < Lines(Pow2(n) - 1)
  {
    LinesOfOnes(n);
    if k > n { Pow2Monotonic(n, k); }
  }

  /** On a device with nothing wrong but one stuck address line of the region, two offsets share a cell,
      and the probed offsets show it exactly if the line is one of those walked. */
  lemma StuckLineFoundIff(m: Memory, nBytes: nat, k: nat, level: bool)
    requires 4 <= nBytes < TWO_32 && Pow2(k) < nBytes / 4
    requires forall o: nat :: m.route(o) == Forced(o, k, level)
    ensures !Injective(m, nBytes / 4)
    ensures !Distinct(m, Lines(Mask(nBytes))) <==> k < Lines(Mask(nBytes))
  {
    var n := Lines(Mask(nBytes));
    BitOfPow2(k, k);
    BitOfZero(k);
    assert m.route(0) == m.route(Pow2(k));
    if k < n {
      assert m.route(Probe(0)) == m.route(Probe(k + 1));
    } else {
      forall i: nat, j: nat | i <= n && j <= n && m.route(Probe(i)) == m.route(Probe(j)) ensures i == j {
        UnwalkedShift(i, k, level);
        UnwalkedShift(j, k, level);
        ProbeInjective(i, j);
      }
    }
  }

  /** A stuck line that is not walked moves all probes by the same distance. */
  lemma UnwalkedShift(i: nat, k: nat, level: bool)
    requires i <= k && i <= 32
    ensures Forced(Probe(i), k, level) == Probe(i) + if level then Pow2(k) else 0
  {
    if i > 0 { BitOfPow2(i - 1, k); } else { BitOfZero(k); }
  }

  /** Likewise for a pair of shorted lines of the region: a wired-or short shows exactly if both lines are
      walked, a wired-and short already if the lower one is. */
  lemma ShortedLinesFoundIff(m: Memory, nBytes: nat, j: nat, k: nat, wiredOr: bool)
    requires 4 <= nBytes < TWO_32 && j < k && Pow2(k) < nBytes / 4
    requires forall o: nat :: m.route(o) == Shorted(o, j, k, wiredOr)
    ensures !Injective(m, nBytes / 4)
    ensures !Distinct(m, Lines(Mask(nBytes))) <==> (if wiredOr then k else j) < Lines(Mask(nBytes))
  {
    var n := Lines(Mask(nBytes));
    Pow2Monotonic(j, k);
    ShortedPowers(j, k, wiredOr);
    assert m.route(Pow2(j)) == m.route(if wiredOr then Pow2(k) else 0);
    if (if wiredOr then k else j) < n {
      assert m.route(Probe(j + 1)) == m.route(Probe(if wiredOr then k + 1 else 0));
    } else {
      forall i: nat, l: nat | i <= n && l <= n && m.route(Probe(i)) == m.route(Probe(l)) ensures i == l {
        UnwalkedShort(i, j, k, wiredOr);
        UnwalkedShort(l, j, k, wiredOr);
        ProbeInjective(i, l);
        if i == j + 1 && l <= n { ProbeBelow(l, k); }
        if l == j + 1 && i <= n { ProbeBelow(i, k); }
      }
    }
  }

  lemma ShortedPowers(j: nat, k: nat, wiredOr: bool)
    requires j < k
    ensures Shorted(Pow2(j), j, k, wiredOr) == if wiredOr then Pow2(j) + Pow2(k) else 0
    ensures Shorted(Pow2(k), j, k, wiredOr) == if wiredOr then Pow2(j) + Pow2(k) else 0
    ensures Shorted(0, j, k, wiredOr) == 0
  {
    BitOfPow2(j, j);
    BitOfPow2(j, k);
    BitOfPow2(k, j);
    BitOfPow2(k, k);
    BitOfZero(j);
    BitOfZero(k);
  }

  /** Of the probes that a short does not join to another, only that of line `j` is moved. */
  lemma UnwalkedShort(i: nat, j: nat, k: nat, wiredOr: bool)
    requires j < k && i <= 32 && i <= if wiredOr then k else j
    ensures Shorted(Probe(i), j, k, wiredOr) == if i == j + 1 then Pow2(j) + Pow2(k) else Probe(i)
  {
    ShortedPowers(j, k, wiredOr);
    if i > 0 {
      BitOfPow2(i - 1, j);
      BitOfPow2(i - 1, k);
    }
  }

  lemma ProbeBelow(i: nat, k: nat)
    requires i <= k && i <= 32
    ensures Probe(i) < Pow2(k)
  {
    if i > 0 { Pow2Monotonic(i - 1, k); }
  }

  /** So in three words line 0 may be stuck and the test passes, whatever the data faults. */
  method StuckLineMissed(m: Memory, level: bool) returns (failed: Option<nat>)
    requires forall o: nat :: m.route(o) == Forced(o, 0, level)
    modifies m
    ensures failed.None? && !Injective(m, 3)
  {
    StuckLineFoundIff(m, 12, 0, level);
    failed := TestAddressBus(m, 12);
  }
}
