/** The K&R allocator of alloc.c.  Addresses count header-sized (16-byte) units. */
module Alloc {
  import opened Common

  /** `ALLOC_HDR`: the link and the size (in units) stored in the first unit of a block. */
  datatype Header = Header(ptr: int, size: nat)

  /** `size` consecutive units starting at `addr`. */
  datatype Block = Block(addr: int, size: nat) {
    predicate Has(u: int) { addr <= u < addr + size }
  }

  /** Where the linker put things: the arena is [lo, hi), and the list head `base` is outside it. */
  datatype Arena = Arena(lo: int, hi: int, base: int) {
    // pointers into different objects are compared by the source; base must not be the unit that
    // follows the arena, or the last block would be merged with it
    predicate Valid() { lo < hi && (base < lo || hi < base) }
  }

  /** `free` is the free list in list order without `base`, `live` maps the header address of each
      allocation to its units, and `rover` is the position of `freep` on the cycle (0 is `base`). */
  datatype State = State(free: seq<Block>, live: map<int, nat>, rover: nat)

  // ---------- Free lists as sets of units ----------

  ghost predicate Covers(f: seq<Block>, u: int) {
    exists i :: 0 <= i < |f| && f[i].Has(u)
  }

  /** Address-ascending, no empty block, and no two blocks that touch. */
  ghost predicate Canonical(f: seq<Block>) {
    && (forall i :: 0 <= i < |f| ==> f[i].size > 0)
    && (forall i, j :: 0 <= i < j < |f| ==> f[i].addr + f[i].size < f[j].addr)
  }

  /** The set of free units determines the free list. */
  lemma {:induction false} CanonicalUnique(f: seq<Block>, g: seq<Block>)
    requires Canonical(f) && Canonical(g)
    requires forall u :: Covers(f, u) <==> Covers(g, u)
    ensures f == g
    decreases |f|
  {
    if f == [] || g == [] {
      if f != [] { assert f[0].Has(f[0].addr); assert Covers(f, f[0].addr); }
      if g != [] { assert g[0].Has(g[0].addr); assert Covers(g, g[0].addr); }
    } else {
      HeadBelow(f, g);
      HeadBelow(g, f);
      HeadNoLonger(f, g);
      HeadNoLonger(g, f);
      forall u ensures Covers(f[1..], u) <==> Covers(g[1..], u) {
        CoversTail(f, u);
        CoversTail(g, u);
      }
      CanonicalUnique(f[1..], g[1..]);
    }
  }

  lemma HeadBelow(f: seq<Block>, g: seq<Block>)
    requires f != [] && g != [] && Canonical(f) && Canonical(g)
    requires forall u :: Covers(f, u) ==> Covers(g, u)
    ensures g[0].addr <= f[0].addr
  {
    assert f[0].Has(f[0].addr);
    assert Covers(f, f[0].addr);
    var i :| 0 <= i < |g| && g[i].Has(f[0].addr);
  }

  lemma HeadNoLonger(f: seq<Block>, g: seq<Block>)
    requires f != [] && g != [] && Canonical(f) && Canonical(g) && f[0].addr == g[0].addr
    requires forall u :: Covers(g, u) ==> Covers(f, u)
    ensures g[0].size <= f[0].size
  {
    var u := f[0].addr + f[0].size;
    assert !Covers(f, u);
    assert !Covers(g, u);
    assert !g[0].Has(u);
  }

  lemma CoversTail(f: seq<Block>, u: int)
    requires f != [] && Canonical(f)
    ensures Covers(f[1..], u) <==> Covers(f, u) && !f[0].Has(u)
  {
    if Covers(f[1..], u) {
      var i :| 0 <= i < |f[1..]| && f[1..][i].Has(u);
      assert f[i + 1].Has(u);
    }
    if Covers(f, u) && !f[0].Has(u) {
      var i :| 0 <= i < |f| && f[i].Has(u);
      assert f[1..][i - 1].Has(u);
    }
  }

  // ---------- Inserting a freed block ----------

  /** How many blocks of `f` lie below address `a`. */
  function Below(f: seq<Block>, a: int): (j: nat)
    ensures j <= |f|
    ensures forall i :: 0 <= i < j ==> f[i].addr < a
    ensures j < |f| ==> a <= f[j].addr
  {
    if f == [] || a <= f[0].addr then 0 else 1 + Below(f[1..], a)
  }

  /** The two-sided coalescing of `free`: `b` goes between positions j-1 and j, first joined to the
      block above it if they touch and then to the one below. */
  function Insert(f: seq<Block>, j: nat, b: Block): seq<Block>
    requires j <= |f|
  {
    var joinsUpper := j < |f| && b.addr + b.size == f[j].addr;
    var b' := if joinsUpper then Block(b.addr, b.size + f[j].size) else b;
    var rest := if joinsUpper then f[j + 1..] else f[j..];
    if j > 0 && f[j - 1].addr + f[j - 1].size == b.addr
    then f[..j - 1] + [Block(f[j - 1].addr, f[j - 1].size + b'.size)] + rest
    else f[..j] + [b'] + rest
  }

  /** `b` fits in the gap before position `j`. */
  ghost predicate InGap(f: seq<Block>, j: nat, b: Block) {
    && j <= |f|
    && (forall i :: 0 <= i < j ==> f[i].addr + f[i].size <= b.addr)
    && (forall i :: j <= i < |f| ==> b.addr + b.size <= f[i].addr)
  }

  lemma CanonicalConcat(f: seq<Block>, x: Block, g: seq<Block>)
    requires Canonical(f) && x.size > 0 && Canonical(g)
    requires forall i :: 0 <= i < |f| ==> f[i].addr + f[i].size < x.addr
    requires forall i :: 0 <= i < |g| ==> x.addr + x.size < g[i].addr
    ensures Canonical(f + [x] + g)
  {
  }

  lemma CoversConcat(f: seq<Block>, g: seq<Block>, u: int)
    ensures Covers(f + g, u) <==> Covers(f, u) || Covers(g, u)
  {
    if Covers(f + g, u) {
      var i :| 0 <= i < |f + g| && (f + g)[i].Has(u);
      if i < |f| { assert f[i].Has(u); } else { assert g[i - |f|].Has(u); }
    }
    if Covers(f, u) {
      var i :| 0 <= i < |f| && f[i].Has(u);
      assert (f + g)[i].Has(u);
    }
    if Covers(g, u) {
      var i :| 0 <= i < |g| && g[i].Has(u);
      assert (f + g)[|f| + i].Has(u);
    }
  }

  lemma CoversOne(b: Block, u: int)
    ensures Covers([b], u) <==> b.Has(u)
  {
    if b.Has(u) { assert [b][0].Has(u); }
  }

  /** `Insert` keeps f[..m] and f[k..] and puts one block between them. */
  lemma InsertShape(f: seq<Block>, j: nat, b: Block) returns (m: nat, mid: Block, k: nat)
    requires InGap(f, j, b)
    ensures m <= j <= k <= |f| && j <= m + 1 && k <= j + 1
    ensures Insert(f, j, b) == f[..m] + [mid] + f[k..]
    ensures mid.addr == (if m < j then f[m].addr else b.addr)
    ensures mid.addr + mid.size == (if j < k then f[j].addr + f[j].size else b.addr + b.size)
    ensures m < j <==> j > 0 && f[j - 1].addr + f[j - 1].size == b.addr
    ensures j < k <==> j < |f| && b.addr + b.size == f[j].addr
  {
    k := if j < |f| && b.addr + b.size == f[j].addr then j + 1 else j;
    var b' := if j < k then Block(b.addr, b.size + f[j].size) else b;
    if j > 0 && f[j - 1].addr + f[j - 1].size == b.addr {
      m, mid := j - 1, Block(f[j - 1].addr, f[j - 1].size + b'.size);
    } else {
      m, mid := j, b';
    }
  }

  lemma SpliceCanonical(f: seq<Block>, m: nat, mid: Block, k: nat)
    requires Canonical(f) && m <= k <= |f| && mid.size > 0
    requires m > 0 ==> f[m - 1].addr + f[m - 1].size < mid.addr
    requires k < |f| ==> mid.addr + mid.size < f[k].addr
    ensures Canonical(f[..m] + [mid] + f[k..])
  {
    CanonicalConcat(f[..m], mid, f[k..]);
  }

  lemma InsertCanonical(f: seq<Block>, j: nat, b: Block)
    requires Canonical(f) && b.size > 0 && InGap(f, j, b)
    ensures Canonical(Insert(f, j, b))
  {
    var m, mid, k := InsertShape(f, j, b);
    SpliceCanonical(f, m, mid, k);
  }

  lemma CoversPieces(f: seq<Block>, m: nat, j: nat, k: nat, u: int)
    requires m <= j <= k <= |f|
    ensures Covers(f, u) <==> Covers(f[..m], u) || Covers(f[m..j], u) || Covers(f[j..k], u) || Covers(f[k..], u)
  {
    assert f == f[..m] + f[m..j] + f[j..k] + f[k..];
    CoversConcat(f[..m] + f[m..j] + f[j..k], f[k..], u);
    CoversConcat(f[..m] + f[m..j], f[j..k], u);
    CoversConcat(f[..m], f[m..j], u);
  }

  lemma OnePiece(f: seq<Block>, i: nat, u: int)
    requires i < |f|
    ensures Covers(f[i..i + 1], u) <==> f[i].Has(u)
  {
    assert f[i..i + 1] == [f[i]];
    CoversOne(f[i], u);
  }

  lemma NoPiece(f: seq<Block>, i: nat, u: int)
    requires i <= |f|
    ensures !Covers(f[i..i], u)
  {
  }

  lemma InsertCovers(f: seq<Block>, j: nat, b: Block, u: int)
    requires InGap(f, j, b)
    ensures Covers(Insert(f, j, b), u) <==> Covers(f, u) || b.Has(u)
  {
    var m, mid, k := InsertShape(f, j, b);
    CoversConcat(f[..m] + [mid], f[k..], u);
    CoversConcat(f[..m], [mid], u);
    CoversOne(mid, u);
    CoversPieces(f, m, j, k, u);
    if m < j { OnePiece(f, m, u); }
    if j < k { OnePiece(f, j, u); }
    NoPiece(f, j, u);
  }

  // ---------- Carving an allocation ----------

  /** What remains when `n` units are taken from the high end of block `i`. */
  function Carve(f: seq<Block>, i: nat, n: nat): seq<Block>
    requires i < |f| && n <= f[i].size
  {
    if f[i].size == n then f[..i] + f[i + 1..]
    else f[i := Block(f[i].addr, f[i].size - n)]
  }

  function Carved(f: seq<Block>, i: nat, n: nat): Block
    requires i < |f| && n <= f[i].size
  {
    Block(f[i].addr + f[i].size - n, n)
  }

  lemma CarveCanonical(f: seq<Block>, i: nat, n: nat)
    requires Canonical(f) && i < |f| && 0 < n <= f[i].size
    ensures Canonical(Carve(f, i, n))
  {
    if f[i].size != n {
      var x := Block(f[i].addr, f[i].size - n);
      assert f[i := x] == f[..i] + [x] + f[i + 1..];
      CanonicalConcat(f[..i], x, f[i + 1..]);
    }
  }

  lemma CarveCovers(f: seq<Block>, i: nat, n: nat, u: int)
    requires Canonical(f) && i < |f| && 0 < n <= f[i].size
    ensures Covers(Carve(f, i, n), u) <==> Covers(f, u) && !Carved(f, i, n).Has(u)
  {
    assert f == f[..i] + [f[i]] + f[i + 1..];
    CoversConcat(f[..i] + [f[i]], f[i + 1..], u);
    CoversConcat(f[..i], [f[i]], u);
    CoversOne(f[i], u);
    if f[i].size == n {
      CoversConcat(f[..i], f[i + 1..], u);
    } else {
      var x := Block(f[i].addr, f[i].size - n);
      assert f[i := x] == f[..i] + [x] + f[i + 1..];
      CoversConcat(f[..i] + [x], f[i + 1..], u);
      CoversConcat(f[..i], [x], u);
      CoversOne(x, u);
    }
  }

  // ---------- The next-fit search ----------

  /** The successor on the cycle base, free[0], ..., free[k-1], base. */
  function Next(f: seq<Block>, pos: nat): (r: nat)
    requires pos <= |f|
    ensures r <= |f|
  {
    if pos == |f| then 0 else pos + 1
  }

  /** Links to follow from `pos` to reach `stop`. */
  function Steps(f: seq<Block>, pos: nat, stop: nat): nat
    requires pos <= |f| && stop <= |f|
  {
    if pos <= stop then stop - pos else stop - pos + |f| + 1
  }

  predicate Fits(f: seq<Block>, n: nat, pos: nat)
    requires pos <= |f|
  {
    pos > 0 && f[pos - 1].size >= n
  }

  /** The first block from `pos` onwards, up to and including `stop`, that holds `n` units. */
  function NextFit(f: seq<Block>, n: nat, pos: nat, stop: nat): (r: Option<nat>)
    requires pos <= |f| && stop <= |f|
    ensures r.Some? ==> r.value < |f| && f[r.value].size >= n
    decreases Steps(f, pos, stop)
  {
    if Fits(f, n, pos) then Some(pos - 1)
    else if pos == stop then None
    else NextFit(f, n, Next(f, pos), stop)
  }

  /** Nothing that the search passed over would have done; a failed search passed over everything. */
  lemma {:induction false} NextFitIsFirst(f: seq<Block>, n: nat, pos: nat, stop: nat, q: nat)
    requires pos <= |f| && stop <= |f| && q <= |f|
    requires Steps(f, q, stop) <= Steps(f, pos, stop)
    requires var r := NextFit(f, n, pos, stop);
             r.None? || Steps(f, q, stop) > Steps(f, r.value + 1, stop)
    ensures !Fits(f, n, q)
    decreases Steps(f, pos, stop)
  {
    if q != pos && pos != stop && !Fits(f, n, pos) {
      NextFitIsFirst(f, n, Next(f, pos), stop, q);
    }
  }

  lemma FullLap(f: seq<Block>, n: nat, rover: nat)
    requires rover <= |f|
    ensures NextFit(f, n, Next(f, rover), rover).None?
            <==> forall i :: 0 <= i < |f| ==> f[i].size < n
  {
    if NextFit(f, n, Next(f, rover), rover).None? {
      forall i | 0 <= i < |f| ensures f[i].size < n {
        NextFitIsFirst(f, n, Next(f, rover), rover, i + 1);
      }
    }
  }

  // ---------- The allocator on its abstract state ----------

  /** The rounding of `malloc`, in 32-bit arithmetic: payload units plus one for the header. */
  function Units(nbytes: nat): nat {
    (nbytes + 15) % TWO_32 / 16 + 1
  }

  /** The payload is large enough exactly when the rounding does not wrap around, and it is always the
      smallest number of units that would do. */
  lemma PayloadHolds(nbytes: nat)
    requires nbytes < TWO_32
    ensures 16 * (Units(nbytes) - 1) >= nbytes <==> nbytes <= TWO_32 - 16
    ensures 16 * (Units(nbytes) - 1) < nbytes + 16
  {
    if nbytes > TWO_32 - 16 { assert (nbytes + 15) % TWO_32 == nbytes + 15 - TWO_32; }
  }

  function Initial(ar: Arena): State
    requires ar.Valid()
  {
    State([Block(ar.lo, ar.hi - ar.lo)], map[], 0)
  }

  /** The new state and the header address of the block handed out. */
  function AfterMalloc(s: State, n: nat): (State, Option<int>)
    requires s.rover <= |s.free|
  {
    match NextFit(s.free, n, Next(s.free, s.rover), s.rover)
    case None => (s, None)
    case Some(i) =>
      var b := Carved(s.free, i, n);
      (State(Carve(s.free, i, n), s.live[b.addr := n], i), Some(b.addr))
  }

  function AfterFree(s: State, a: int): State
    requires a in s.live
  {
    var j := Below(s.free, a);
    State(Insert(s.free, j, Block(a, s.live[a])), s.live - {a}, j)
  }

  ghost predicate LiveHas(live: map<int, nat>, u: int) {
    exists a :: a in live && Block(a, live[a]).Has(u)
  }

  predicate Apart(b: Block, c: Block) {
    b.addr + b.size <= c.addr || c.addr + c.size <= b.addr
  }

  ghost predicate FreeOk(ar: Arena, f: seq<Block>) {
    && Canonical(f)
    && (forall i :: 0 <= i < |f| ==> ar.lo <= f[i].addr && f[i].addr + f[i].size <= ar.hi)
  }

  ghost predicate LiveOk(ar: Arena, live: map<int, nat>) {
    && (forall a :: a in live ==> ar.lo <= a && 1 <= live[a] && a + live[a] <= ar.hi)
    && (forall a, b :: a in live && b in live ==> a == b || Apart(Block(a, live[a]), Block(b, live[b])))
  }

  ghost predicate Partition(ar: Arena, f: seq<Block>, live: map<int, nat>) {
    forall u :: ar.lo <= u < ar.hi ==> (Covers(f, u) <==> !LiveHas(live, u))
  }

  /** Free blocks and live allocations are inside the arena and partition it, and the free list is
      in canonical form. */
  ghost predicate Inv(ar: Arena, s: State) {
    && FreeOk(ar, s.free)
    && s.rover <= |s.free|
    && LiveOk(ar, s.live)
    && Partition(ar, s.free, s.live)
  }

  lemma LiveHasAdded(live: map<int, nat>, b: Block, u: int)
    requires b.addr !in live
    ensures LiveHas(live[b.addr := b.size], u) <==> LiveHas(live, u) || b.Has(u)
  {
    var live' := live[b.addr := b.size];
    if LiveHas(live, u) {
      var a :| a in live && Block(a, live[a]).Has(u);
      assert a in live' && Block(a, live'[a]).Has(u);
    }
    if b.Has(u) { assert Block(b.addr, live'[b.addr]).Has(u); }
  }

  lemma LiveHasRemoved(ar: Arena, live: map<int, nat>, a: int, u: int)
    requires LiveOk(ar, live) && a in live
    ensures LiveHas(live - {a}, u) <==> LiveHas(live, u) && !Block(a, live[a]).Has(u)
  {
    var live' := live - {a};
    if LiveHas(live', u) {
      var c :| c in live' && Block(c, live'[c]).Has(u);
      assert c in live && Block(c, live[c]).Has(u);
      assert Apart(Block(a, live[a]), Block(c, live[c]));
    }
    if LiveHas(live, u) && !Block(a, live[a]).Has(u) {
      var c :| c in live && Block(c, live[c]).Has(u);
      assert c in live' && Block(c, live'[c]).Has(u);
    }
  }

  lemma InitialInv(ar: Arena)
    requires ar.Valid()
    ensures Inv(ar, Initial(ar))
  {
    forall u | ar.lo <= u < ar.hi ensures Covers(Initial(ar).free, u) {
      assert Initial(ar).free[0].Has(u);
    }
  }

  /** A block of `s.free` and a live block never share a unit. */
  lemma FreeLiveDisjoint(ar: Arena, s: State, i: nat, a: int)
    requires Inv(ar, s) && i < |s.free| && a in s.live
    ensures Apart(s.free[i], Block(a, s.live[a]))
  {
    var u := if a < s.free[i].addr then s.free[i].addr else a;
    if s.free[i].Has(u) && Block(a, s.live[a]).Has(u) {
      assert Covers(s.free, u) && LiveHas(s.live, u);
    }
  }

  lemma MallocInv(ar: Arena, s: State, n: nat)
    requires Inv(ar, s) && n >= 1
    ensures Inv(ar, AfterMalloc(s, n).0)
  {
    var r := NextFit(s.free, n, Next(s.free, s.rover), s.rover);
    if r.Some? {
      var i := r.value;
      CarveFreeOk(ar, s.free, i, n);
      CarveLiveOk(ar, s, i, n);
      forall u | ar.lo <= u < ar.hi
        ensures Covers(Carve(s.free, i, n), u) <==> !LiveHas(s.live[Carved(s.free, i, n).addr := n], u)
      {
        CarvePartition(ar, s, i, n, u);
      }
    }
  }

  lemma CarveFreeOk(ar: Arena, f: seq<Block>, i: nat, n: nat)
    requires FreeOk(ar, f) && i < |f| && 1 <= n <= f[i].size
    ensures FreeOk(ar, Carve(f, i, n)) && i <= |Carve(f, i, n)|
  {
    CarveCanonical(f, i, n);
  }

  lemma CarveLiveOk(ar: Arena, s: State, i: nat, n: nat)
    requires Inv(ar, s) && i < |s.free| && 1 <= n <= s.free[i].size
    ensures LiveOk(ar, s.live[Carved(s.free, i, n).addr := n])
  {
    CarvedApart(ar, s, i, n);
  }

  lemma CarvePartition(ar: Arena, s: State, i: nat, n: nat, u: int)
    requires Inv(ar, s) && i < |s.free| && 1 <= n <= s.free[i].size && ar.lo <= u < ar.hi
    ensures Covers(Carve(s.free, i, n), u) <==> !LiveHas(s.live[Carved(s.free, i, n).addr := n], u)
  {
    var b := Carved(s.free, i, n);
    CarvedApart(ar, s, i, n);
    CarveCovers(s.free, i, n, u);
    LiveHasAdded(s.live, b, u);
    if b.Has(u) { assert s.free[i].Has(u); }
  }

  lemma CarvedApart(ar: Arena, s: State, i: nat, n: nat)
    requires Inv(ar, s) && i < |s.free| && 1 <= n <= s.free[i].size
    ensures var b := Carved(s.free, i, n);
            b.addr !in s.live && forall a :: a in s.live ==> Apart(b, Block(a, s.live[a]))
  {
    var b := Carved(s.free, i, n);
    forall a | a in s.live ensures Apart(b, Block(a, s.live[a])) {
      FreeLiveDisjoint(ar, s, i, a);
    }
  }

  /** What a caller gets: a region that was free, that overlaps no live region, of the size asked for;
      and NULL exactly when no free block is large enough. */
  lemma MallocRegion(ar: Arena, s: State, n: nat)
    requires Inv(ar, s) && n >= 1
    ensures var (s', r) := AfterMalloc(s, n);
            && (r.None? <==> forall i :: 0 <= i < |s.free| ==> s.free[i].size < n)
            && (r.None? ==> s' == s)
            && (r.Some? ==>
                  && r.value !in s.live && s'.live == s.live[r.value := n]
                  && ar.lo <= r.value && r.value + n <= ar.hi
                  && (forall u :: Block(r.value, n).Has(u) ==> Covers(s.free, u))
                  && (forall a :: a in s.live ==> Apart(Block(r.value, n), Block(a, s.live[a]))))
  {
    FullLap(s.free, n, s.rover);
    var r := NextFit(s.free, n, Next(s.free, s.rover), s.rover);
    if r.Some? {
      var i := r.value;
      CarvedApart(ar, s, i, n);
      forall u | Carved(s.free, i, n).Has(u) ensures Covers(s.free, u) {
        assert s.free[i].Has(u);
      }
    }
  }

  /** Behind its header no free block has room for so many bytes. */
  predicate NoRoom(f: seq<Block>, nbytes: nat) {
    forall i :: 0 <= i < |f| ==> 16 * (f[i].size - 1) < nbytes
  }

  /** The same in bytes: unless the rounding wraps around, NULL means that no free block has room, and
      conversely. */
  lemma MallocBytes(ar: Arena, s: State, nbytes: nat)
    requires Inv(ar, s) && nbytes < TWO_32
    ensures nbytes <= TWO_32 - 16 ==> (AfterMalloc(s, Units(nbytes)).1.None? <==> NoRoom(s.free, nbytes))
  {
    PayloadHolds(nbytes);
    MallocRegion(ar, s, Units(nbytes));
  }

  /** The search begins behind the rover. */
  lemma ResumesAt(s: State, n: nat)
    requires s.rover < |s.free| && s.free[s.rover].size >= n
    ensures var (s', r) := AfterMalloc(s, n);
            var b := Carved(s.free, s.rover, n);
            s' == State(Carve(s.free, s.rover, n), s.live[b.addr := n], s.rover) && r == Some(b.addr)
  {
    assert Next(s.free, s.rover) == s.rover + 1 && Fits(s.free, n, s.rover + 1);
  }

  /** A block is cut off the high end of a free one, and the search goes on where it was found: if the free
      block has room for two, the next call of this size returns the block right below. */
  lemma MallocDescends(ar: Arena, s: State, n: nat, i: nat)
    requires Inv(ar, s) && n >= 1 && i < |s.free|
    ensures var (s', r) := AfterMalloc(s, n);
            r.Some? && s.free[i].Has(r.value) ==>
              && r.value + n == s.free[i].addr + s.free[i].size
              && (s.free[i].size >= 2 * n ==> AfterMalloc(s', n).1 == Some(r.value - n))
  {
    var (s', r) := AfterMalloc(s, n);
    if r.Some? && s.free[i].size >= 2 * n && s.free[i].Has(r.value) {
      assert s'.rover == i && s'.free[i].size >= n;
      ResumesAt(s', n);
    }
  }

  /** Inserting a block that touches no other, and taking it out again. */
  lemma InsertedApart(f: seq<Block>, j: nat, b: Block)
    requires j <= |f| && forall i :: 0 <= i < |f| ==> f[i].addr + f[i].size != b.addr && b.addr + b.size != f[i].addr
    ensures var g := Insert(f, j, b);
            |g| == |f| + 1 && g[j] == b && Carve(g, j, b.size) == f
  {
    assert Insert(f, j, b) == f[..j] + [b] + f[j..];
  }

  /** Allocating the size of a block that was just freed, and not merged with a neighbour, gives the same
      block again: the search resumes there. */
  lemma MallocUndoesFree(ar: Arena, s: State, a: int)
    requires Inv(ar, s) && a in s.live
    requires forall i :: 0 <= i < |s.free| ==> s.free[i].addr + s.free[i].size != a && a + s.live[a] != s.free[i].addr
    ensures var (s', r) := AfterMalloc(AfterFree(s, a), s.live[a]);
            r == Some(a) && s'.free == s.free && s'.live == s.live
  {
    var j, b := Below(s.free, a), Block(a, s.live[a]);
    InsertedApart(s.free, j, b);
    ResumesAt(AfterFree(s, a), b.size);
    assert (s.live - {a})[a := b.size] == s.live;
  }

  lemma FreeGap(ar: Arena, s: State, a: int)
    requires Inv(ar, s) && a in s.live
    ensures InGap(s.free, Below(s.free, a), Block(a, s.live[a]))
  {
    forall i | 0 <= i < |s.free|
      ensures Apart(s.free[i], Block(a, s.live[a]))
    {
      FreeLiveDisjoint(ar, s, i, a);
    }
  }

  lemma FreeInv(ar: Arena, s: State, a: int)
    requires Inv(ar, s) && a in s.live
    ensures Inv(ar, AfterFree(s, a))
  {
    var j, b, s' := Below(s.free, a), Block(a, s.live[a]), AfterFree(s, a);
    FreeGap(ar, s, a);
    InsertInArena(ar, s.free, j, b);
    assert LiveOk(ar, s'.live);
    forall u | ar.lo <= u < ar.hi ensures Covers(s'.free, u) <==> !LiveHas(s'.live, u) {
      InsertCovers(s.free, j, b, u);
      LiveHasRemoved(ar, s.live, a, u);
    }
  }

  lemma InsertInArena(ar: Arena, f: seq<Block>, j: nat, b: Block)
    requires FreeOk(ar, f) && b.size > 0 && InGap(f, j, b) && ar.lo <= b.addr && b.addr + b.size <= ar.hi
    ensures FreeOk(ar, Insert(f, j, b)) && j <= |Insert(f, j, b)|
  {
    InsertCanonical(f, j, b);
    var m, mid, k := InsertShape(f, j, b);
  }

  // ---------- Runs ----------

  /** A call, or a write by the owner of allocation `a` to unit `u` of its payload. */
  datatype Op = Malloc(nbytes: nat) | Free(ap: int) | Store(a: int, u: int, h: Header)

  /** `free` must be given a pointer that `malloc` returned and that is still allocated.  The bound on the
      rover holds in every state that `Inv` describes, so it excludes no reachable one. */
  predicate Legal(s: State, op: Op) {
    match op
    case Malloc(nbytes) => nbytes < TWO_32 && s.rover <= |s.free|
    case Free(ap) => ap - 1 in s.live
    case Store(a, u, h) => a in s.live && a < u < a + s.live[a]
  }

  function Step(s: State, op: Op): State
    requires Legal(s, op)
  {
    match op
    case Malloc(nbytes) => AfterMalloc(s, Units(nbytes)).0
    case Free(ap) => AfterFree(s, ap - 1)
    case Store(a, u, h) => s
  }

  /** The pointer that `malloc` returns; the other operations return nothing. */
  function Returned(s: State, op: Op): Option<int>
    requires Legal(s, op)
  {
    match op
    case Malloc(nbytes) => (match AfterMalloc(s, Units(nbytes)).1 case None => None case Some(a) => Some(a + 1))
    case _ => None
  }

  predicate LegalRun(s: State, ops: seq<Op>)
    decreases |ops|
  {
    ops == [] || (Legal(s, ops[0]) && LegalRun(Step(s, ops[0]), ops[1..]))
  }

  function Run(s: State, ops: seq<Op>): State
    requires LegalRun(s, ops)
    decreases |ops|
  {
    if ops == [] then s else Run(Step(s, ops[0]), ops[1..])
  }

  function AllReturned(s: State, ops: seq<Op>): seq<Option<int>>
    requires LegalRun(s, ops)
    decreases |ops|
  {
    if ops == [] then [] else [Returned(s, ops[0])] + AllReturned(Step(s, ops[0]), ops[1..])
  }

  lemma {:induction false} RunInv(ar: Arena, s: State, ops: seq<Op>)
    requires Inv(ar, s) && LegalRun(s, ops)
    ensures Inv(ar, Run(s, ops))
    decreases |ops|
  {
    if ops != [] {
      match ops[0] {
        case Malloc(nbytes) => MallocInv(ar, s, Units(nbytes));
        case Free(ap) => FreeInv(ar, s, ap - 1);
        case Store(a, u, h) =>
      }
      RunInv(ar, Step(s, ops[0]), ops[1..]);
    }
  }

  lemma RunUnfolds(s: State, ops: seq<Op>, i: nat)
    requires i < |ops| && LegalRun(s, ops[i..])
    ensures Legal(s, ops[i]) && LegalRun(Step(s, ops[i]), ops[i + 1..])
    ensures Run(s, ops[i..]) == Run(Step(s, ops[i]), ops[i + 1..])
    ensures AllReturned(s, ops[i..]) == [Returned(s, ops[i])] + AllReturned(Step(s, ops[i]), ops[i + 1..])
  {
    assert ops[i..][0] == ops[i] && ops[i..][1..] == ops[i + 1..];
  }

  /** Two states with the same allocations have the same free list, however they were reached. */
  lemma LiveDeterminesFree(ar: Arena, s: State, t: State)
    requires Inv(ar, s) && Inv(ar, t) && s.live == t.live
    ensures s.free == t.free
  {
    forall u ensures Covers(s.free, u) <==> Covers(t.free, u) {
      if !(ar.lo <= u < ar.hi) { assert !Covers(s.free, u) && !Covers(t.free, u); }
    }
    CanonicalUnique(s.free, t.free);
  }

  lemma RunsAgree(ar: Arena, ops: seq<Op>, ops': seq<Op>)
    requires ar.Valid() && LegalRun(Initial(ar), ops) && LegalRun(Initial(ar), ops')
    requires Run(Initial(ar), ops).live == Run(Initial(ar), ops').live
    ensures Run(Initial(ar), ops).free == Run(Initial(ar), ops').free
  {
    InitialInv(ar);
    RunInv(ar, Initial(ar), ops);
    RunInv(ar, Initial(ar), ops');
    LiveDeterminesFree(ar, Run(Initial(ar), ops), Run(Initial(ar), ops'));
  }

  lemma SomeKey(live: map<int, nat>)
    ensures live == map[] || exists a :: a in live
  {
    if !exists a :: a in live { assert live == map[]; }
  }

  /** Every run that frees all it allocated ends with one block that covers the arena. */
  lemma AllFreedIsWhole(ar: Arena, ops: seq<Op>)
    requires ar.Valid() && LegalRun(Initial(ar), ops)
    ensures Run(Initial(ar), ops).live == map[] <==> Run(Initial(ar), ops).free == Initial(ar).free
  {
    var s := Run(Initial(ar), ops);
    InitialInv(ar);
    RunInv(ar, Initial(ar), ops);
    if s.live == map[] {
      LiveDeterminesFree(ar, s, Initial(ar));
    } else if s.free == Initial(ar).free {
      SomeKey(s.live);
      var a :| a in s.live;
      assert s.free[0].Has(a) && Covers(s.free, a);
      assert Block(a, s.live[a]).Has(a);
    }
  }

  /** Freeing what was just allocated restores the free list block by block. */
  lemma FreeUndoesMalloc(ar: Arena, s: State, n: nat)
    requires Inv(ar, s) && n >= 1 && AfterMalloc(s, n).1.Some?
    ensures var (s', r) := AfterMalloc(s, n);
            AfterFree(s', r.value).free == s.free && AfterFree(s', r.value).live == s.live
  {
    var (s', r) := AfterMalloc(s, n);
    MallocInv(ar, s, n);
    MallocRegion(ar, s, n);
    FreeInv(ar, s', r.value);
    assert AfterFree(s', r.value).live == s.live;
    LiveDeterminesFree(ar, AfterFree(s', r.value), s);
  }

  // ---------- The allocator on its memory ----------

  /** The address of position `pos` on the cycle. */
  function Addr(base: int, f: seq<Block>, pos: nat): int
    requires pos <= |f|
  {
    if pos == 0 then base else f[pos - 1].addr
  }

  lemma AddrInjective(ar: Arena, f: seq<Block>, p: nat, q: nat)
    requires ar.Valid() && FreeOk(ar, f) && p <= |f| && q <= |f|
    ensures Addr(ar.base, f, p) == Addr(ar.base, f, q) <==> p == q
  {
    if 0 < p < q { assert f[p - 1].addr < f[q - 1].addr; }
    if 0 < q < p { assert f[q - 1].addr < f[p - 1].addr; }
  }

  /** The scan of `free` stops at `p`, whose successor is `q`: `bp` goes between them in address
      order, or beyond either end of the arena at the one place where addresses wrap. */
  predicate Stops(p: int, q: int, bp: int) {
    (p < bp < q) || (p >= q && (bp > p || bp < q))
  }

  /** That place is unique: the predecessor of the freed block. */
  lemma StopsIff(ar: Arena, s: State, a: int, pos: nat)
    requires ar.Valid() && Inv(ar, s) && a in s.live && pos <= |s.free|
    ensures Stops(Addr(ar.base, s.free, pos), Addr(ar.base, s.free, Next(s.free, pos)), a)
            <==> pos == Below(s.free, a)
  {
    FreeGap(ar, s, a);
    var f, j := s.free, Below(s.free, a);
    if 0 < pos < |f| { assert f[pos - 1].addr < f[pos].addr; }
  }

  type Memory = map<int, Header>

  ghost predicate Mapped(ar: Arena, mem: Memory) {
    ar.base in mem && forall u :: ar.lo <= u < ar.hi ==> u in mem
  }

  /** The header at position `pos` of the cycle has the right link and size. */
  predicate Linked(base: int, f: seq<Block>, mem: Memory, pos: nat)
    requires pos <= |f|
  {
    Addr(base, f, pos) in mem
    && mem[Addr(base, f, pos)].ptr == Addr(base, f, Next(f, pos))
    && mem[Addr(base, f, pos)].size == (if pos == 0 then 0 else f[pos - 1].size)
  }

  /** The cycle is threaded through `base` and the headers of the free blocks, and each allocation
      keeps its size in its header. */
  ghost predicate Threaded(ar: Arena, s: State, mem: Memory) {
    && (forall pos: nat :: pos <= |s.free| ==> Linked(ar.base, s.free, mem, pos))
    && (forall a :: a in s.live ==> a in mem && mem[a].size == s.live[a])
  }

  lemma LiveNotLinked(ar: Arena, s: State, pos: nat, a: int)
    requires ar.Valid() && Inv(ar, s) && pos <= |s.free| && a in s.live
    ensures Addr(ar.base, s.free, pos) != a
  {
    if pos > 0 { FreeLiveDisjoint(ar, s, pos - 1, a); }
  }

  /** `malloc` unlinks block `i` when it fits exactly. */
  lemma {:induction false} UnlinkLinked(ar: Arena, f: seq<Block>, mem: Memory, i: nat, mem': Memory, pos: nat)
    requires ar.Valid() && FreeOk(ar, f) && i < |f| && pos < |f|
    requires forall q: nat :: q <= |f| ==> Linked(ar.base, f, mem, q)
    requires Linked(ar.base, f, mem, i) && Linked(ar.base, f, mem, i + 1)
    requires var prevp := Addr(ar.base, f, i);
             mem' == mem[prevp := mem[prevp].(ptr := mem[f[i].addr].ptr)]
    ensures Linked(ar.base, f[..i] + f[i + 1..], mem', pos)
  {
    var g := f[..i] + f[i + 1..];
    var before := if pos <= i then pos else pos + 1;
    assert Addr(ar.base, g, pos) == Addr(ar.base, f, before);
    assert Linked(ar.base, f, mem, before) && Linked(ar.base, f, mem, i + 1);
    AddrInjective(ar, f, before, i);
    assert Addr(ar.base, g, Next(g, pos)) ==
           Addr(ar.base, f, if pos == i then Next(f, i + 1) else Next(f, before));
  }

  /** Otherwise it shortens block `i` and writes a header for the new block behind it. */
  lemma {:induction false} ShrinkLinked(ar: Arena, f: seq<Block>, mem: Memory, i: nat, n: nat, mem': Memory, pos: nat)
    requires ar.Valid() && FreeOk(ar, f) && i < |f| && pos <= |f| && 0 < n < f[i].size
    requires forall q: nat :: q <= |f| ==> Linked(ar.base, f, mem, q)
    requires Linked(ar.base, f, mem, i + 1) && f[i].addr + f[i].size - n in mem
    requires var p, q := f[i].addr, f[i].addr + f[i].size - n;
             mem' == mem[p := mem[p].(size := f[i].size - n)][q := mem[q].(size := n)]
    ensures Linked(ar.base, Carve(f, i, n), mem', pos)
  {
    var g := Carve(f, i, n);
    assert Linked(ar.base, f, mem, pos) && Linked(ar.base, f, mem, i + 1);
    assert Addr(ar.base, g, pos) == Addr(ar.base, f, pos);
    assert Addr(ar.base, g, Next(g, pos)) == Addr(ar.base, f, Next(f, pos));
    AddrInjective(ar, f, pos, i + 1);
    if 0 < pos <= i { assert f[pos - 1].addr < f[i].addr; }
    if i + 1 < pos { assert f[i].addr + f[i].size < f[pos - 1].addr; }
  }

  /** Memory after block `p` has been unlinked, if it fits exactly, or cut at its high end. */
  function Taken(mem: Memory, prevp: int, p: int, n: nat): Memory
    requires prevp in mem && p in mem && n <= mem[p].size && p + mem[p].size - n in mem
  {
    var q := p + mem[p].size - n;
    if q == p then mem[prevp := mem[prevp].(ptr := mem[p].ptr)]
    else mem[p := mem[p].(size := q - p)][q := mem[q].(size := n)]
  }

  /** What `malloc` finds before it takes a block. */
  lemma MallocReady(ar: Arena, s: State, mem: Memory, n: nat, i: nat)
    requires ar.Valid() && Inv(ar, s) && Mapped(ar, mem) && Threaded(ar, s, mem) && n >= 1
    requires NextFit(s.free, n, Next(s.free, s.rover), s.rover) == Some(i)
    ensures var prevp, p := Addr(ar.base, s.free, i), s.free[i].addr;
            && Linked(ar.base, s.free, mem, i) && Linked(ar.base, s.free, mem, i + 1)
            && mem[p].size == s.free[i].size && n <= mem[p].size && p + mem[p].size - n in mem
            && AfterMalloc(s, n).1 == Some(p + mem[p].size - n)
  {
    assert Linked(ar.base, s.free, mem, i) && Linked(ar.base, s.free, mem, i + 1);
  }

  lemma MallocThreaded(ar: Arena, s: State, mem: Memory, n: nat, i: nat, mem': Memory)
    requires ar.Valid() && Inv(ar, s) && Mapped(ar, mem) && Threaded(ar, s, mem) && n >= 1
    requires NextFit(s.free, n, Next(s.free, s.rover), s.rover) == Some(i)
    requires Linked(ar.base, s.free, mem, i) && Linked(ar.base, s.free, mem, i + 1)
    requires var prevp, p := Addr(ar.base, s.free, i), s.free[i].addr;
             n <= mem[p].size && p + mem[p].size - n in mem && mem' == Taken(mem, prevp, p, n)
    ensures var s' := AfterMalloc(s, n).0;
            && Inv(ar, s') && Mapped(ar, mem') && Threaded(ar, s', mem')
            && Addr(ar.base, s'.free, s'.rover) == Addr(ar.base, s.free, i)
  {
    var s' := AfterMalloc(s, n).0;
    MallocInv(ar, s, n);
    forall pos: nat | pos <= |s'.free| ensures Linked(ar.base, s'.free, mem', pos) {
      if s.free[i].size == n {
        UnlinkLinked(ar, s.free, mem, i, mem', pos);
      } else {
        ShrinkLinked(ar, s.free, mem, i, n, mem', pos);
      }
    }
    forall a | a in s'.live ensures a in mem' && mem'[a].size == s'.live[a] {
      if a in s.live {
        LiveNotLinked(ar, s, i, a);
        LiveNotLinked(ar, s, i + 1, a);
        CarvedApart(ar, s, i, n);
      }
    }
  }

  /** Memory after the block of size `n` at `a` goes in behind the header at `p`: the upper neighbour is
      absorbed or linked to, then the lower one absorbs or links to the result. */
  function WithBlock(mem: Memory, p: int, a: int, n: nat): Memory
    requires p in mem && mem[p].ptr in mem
  {
    var q := mem[p].ptr;
    var up := if a + n == q then Header(mem[q].ptr, n + mem[q].size) else Header(q, n);
    if p + mem[p].size == a
    then mem[a := up][p := Header(up.ptr, mem[p].size + up.size)]
    else mem[a := up][p := mem[p].(ptr := a)]
  }

  predicate Relinked(base: int, f: seq<Block>, mem: Memory, j: nat, b: Block, mem': Memory)
    requires j <= |f| && Linked(base, f, mem, j) && Linked(base, f, mem, Next(f, j))
  {
    mem' == WithBlock(mem, Addr(base, f, j), b.addr, b.size)
  }

  ghost predicate Relinks(ar: Arena, f: seq<Block>, mem: Memory, j: nat, b: Block, mem': Memory) {
    && ar.Valid() && FreeOk(ar, f) && InGap(f, j, b) && b.size > 0
    && ar.lo <= b.addr && b.addr + b.size <= ar.hi
    && (forall q: nat :: q <= |f| ==> Linked(ar.base, f, mem, q))
    && Linked(ar.base, f, mem, j) && Linked(ar.base, f, mem, Next(f, j))
    && Relinked(ar.base, f, mem, j, b, mem')
  }

  lemma GapAddr(ar: Arena, f: seq<Block>, mem: Memory, j: nat, b: Block, mem': Memory, pos: nat)
    requires Relinks(ar, f, mem, j, b, mem') && pos <= |f|
    ensures Addr(ar.base, f, pos) != b.addr
  {
  }

  lemma MidHeader(ar: Arena, f: seq<Block>, mem: Memory, j: nat, b: Block, mem': Memory, m: nat, mid: Block, k: nat)
    requires Relinks(ar, f, mem, j, b, mem')
    requires m <= j <= k <= |f| && j <= m + 1 && k <= j + 1
    requires mid.addr == (if m < j then f[m].addr else b.addr)
    requires mid.addr + mid.size == (if j < k then f[j].addr + f[j].size else b.addr + b.size)
    requires m < j <==> j > 0 && f[j - 1].addr + f[j - 1].size == b.addr
    requires j < k <==> j < |f| && b.addr + b.size == f[j].addr
    ensures mid.addr in mem' && mem'[mid.addr] == Header(Addr(ar.base, f, Next(f, k)), mid.size)
    ensures m == j ==>
              Addr(ar.base, f, j) in mem' && mem'[Addr(ar.base, f, j)] == mem[Addr(ar.base, f, j)].(ptr := b.addr)
    ensures forall q: nat :: q <= |f| && q != j ==>
              Addr(ar.base, f, q) in mem' && mem'[Addr(ar.base, f, q)] == mem[Addr(ar.base, f, q)]
  {
    GapAddr(ar, f, mem, j, b, mem', j);
    if j < k { assert Linked(ar.base, f, mem, k); }
    forall q: nat | q <= |f| && q != j
      ensures Addr(ar.base, f, q) in mem' && mem'[Addr(ar.base, f, q)] == mem[Addr(ar.base, f, q)]
    {
      GapAddr(ar, f, mem, j, b, mem', q);
      AddrInjective(ar, f, q, j);
      assert Linked(ar.base, f, mem, q);
    }
  }

  lemma SpliceAddr(base: int, f: seq<Block>, m: nat, mid: Block, k: nat, pos: nat)
    requires m <= k <= |f| && k <= m + 2
    requires pos <= m + 1 + |f| - k
    ensures var g := f[..m] + [mid] + f[k..];
            |g| == m + 1 + |f| - k
    ensures var g := f[..m] + [mid] + f[k..];
            pos > 0 ==>
              g[pos - 1] == (if pos <= m then f[pos - 1] else if pos == m + 1 then mid else f[pos - 2 - m + k])
    ensures Addr(base, f[..m] + [mid] + f[k..], pos) ==
            (if pos <= m then Addr(base, f, pos) else if pos == m + 1 then mid.addr else Addr(base, f, pos - 1 - m + k))
    ensures var g := f[..m] + [mid] + f[k..];
            Addr(base, g, Next(g, pos)) ==
            (if pos < m then Addr(base, f, Next(f, pos)) else if pos == m then mid.addr
             else Addr(base, f, Next(f, pos - 1 - m + k)))
  {
  }

  lemma SpliceLinked(base: int, f: seq<Block>, mem: Memory, j: nat, b: Block, mem': Memory,
                     m: nat, mid: Block, k: nat, pos: nat)
    requires m <= j <= k <= |f| && j <= m + 1 && k <= j + 1
    requires mid.addr == (if m < j then f[m].addr else b.addr)
    requires forall q: nat :: q <= |f| ==> Linked(base, f, mem, q)
    requires Linked(base, f, mem, j)
    requires mid.addr in mem' && mem'[mid.addr] == Header(Addr(base, f, Next(f, k)), mid.size)
    requires m == j ==> Addr(base, f, j) in mem' && mem'[Addr(base, f, j)] == mem[Addr(base, f, j)].(ptr := b.addr)
    requires forall q: nat :: q <= |f| && q != j && Linked(base, f, mem, q) ==>
               Addr(base, f, q) in mem' && mem'[Addr(base, f, q)] == mem[Addr(base, f, q)]
    requires pos <= m + 1 + |f| - k
    ensures Linked(base, f[..m] + [mid] + f[k..], mem', pos)
  {
    SpliceAddr(base, f, m, mid, k, pos);
    if pos != m + 1 {
      assert Linked(base, f, mem, if pos <= m then pos else pos - 1 - m + k);
    }
  }

  lemma InsertLinked(ar: Arena, f: seq<Block>, mem: Memory, j: nat, b: Block, mem': Memory, pos: nat)
    requires Relinks(ar, f, mem, j, b, mem') && pos <= |Insert(f, j, b)|
    ensures Linked(ar.base, Insert(f, j, b), mem', pos)
  {
    var m, mid, k := InsertShape(f, j, b);
    MidHeader(ar, f, mem, j, b, mem', m, mid, k);
    SpliceLinked(ar.base, f, mem, j, b, mem', m, mid, k, pos);
  }

  lemma FreeThreaded(ar: Arena, s: State, mem: Memory, a: int, mem': Memory)
    requires ar.Valid() && Inv(ar, s) && Mapped(ar, mem) && Threaded(ar, s, mem) && a in s.live
    requires var j := Below(s.free, a);
             && Linked(ar.base, s.free, mem, j) && Linked(ar.base, s.free, mem, Next(s.free, j))
             && Relinked(ar.base, s.free, mem, j, Block(a, s.live[a]), mem')
    ensures var s' := AfterFree(s, a);
            && Inv(ar, s') && Mapped(ar, mem') && Threaded(ar, s', mem')
            && Addr(ar.base, s'.free, s'.rover) == Addr(ar.base, s.free, s'.rover)
  {
    var s', j, b := AfterFree(s, a), Below(s.free, a), Block(a, s.live[a]);
    FreeInv(ar, s, a);
    FreeGap(ar, s, a);
    var m, mid, k := InsertShape(s.free, j, b);
    forall pos: nat | pos <= |s'.free| ensures Linked(ar.base, s'.free, mem', pos) {
      InsertLinked(ar, s.free, mem, j, b, mem', pos);
    }
    SizesKept(ar, s, mem, a, mem');
  }

  /** Each remaining allocation keeps its size in its header. */
  lemma SizesKept(ar: Arena, s: State, mem: Memory, a: int, mem': Memory)
    requires ar.Valid() && Inv(ar, s) && Threaded(ar, s, mem) && a in s.live
    requires var p := Addr(ar.base, s.free, Below(s.free, a));
             p in mem && mem[p].ptr in mem && mem' == WithBlock(mem, p, a, s.live[a])
    ensures forall c :: c in s.live - {a} ==> c in mem' && mem'[c].size == s.live[c]
  {
    forall c | c in s.live - {a} ensures c in mem' && mem'[c].size == s.live[c] {
      LiveNotLinked(ar, s, Below(s.free, a), c);
    }
  }

  /** What `free` finds before it relinks: three different headers. */
  lemma FreeReady(ar: Arena, s: State, mem: Memory, a: int)
    requires ar.Valid() && Inv(ar, s) && Mapped(ar, mem) && Threaded(ar, s, mem) && a in s.live
    ensures var j := Below(s.free, a);
            var p := Addr(ar.base, s.free, j);
            && Linked(ar.base, s.free, mem, j) && Linked(ar.base, s.free, mem, Next(s.free, j))
            && a in mem && p in mem && mem[p].ptr in mem && p != a && mem[p].ptr != a
            && mem[a].size == s.live[a]
  {
    var j := Below(s.free, a);
    assert Linked(ar.base, s.free, mem, j) && Linked(ar.base, s.free, mem, Next(s.free, j));
    LiveNotLinked(ar, s, j, a);
    LiveNotLinked(ar, s, Next(s.free, j), a);
  }

  // ---------- Payloads ----------

  /** Unit `u` is in the payload of allocation `a`. */
  predicate Payload(live: map<int, nat>, a: int, u: int) { a in live && a < u < a + live[a] }

  /** The payloads of these allocations are the same in both memories. */
  ghost predicate SamePayloads(live: map<int, nat>, mem: Memory, mem': Memory) {
    forall a, u :: Payload(live, a, u) ==> u in mem && u in mem' && mem'[u] == mem[u]
  }

  /** No header on the cycle lies in a live block. */
  lemma HeaderOutside(ar: Arena, s: State, pos: nat, a: int, u: int)
    requires ar.Valid() && Inv(ar, s) && pos <= |s.free| && a in s.live && Block(a, s.live[a]).Has(u)
    ensures Addr(ar.base, s.free, pos) != u
  {
    if pos > 0 { FreeLiveDisjoint(ar, s, pos - 1, a); }
  }

  lemma TakenPayloads(ar: Arena, s: State, mem: Memory, n: nat, i: nat)
    requires ar.Valid() && Inv(ar, s) && Mapped(ar, mem) && i < |s.free|
    requires var prevp, p := Addr(ar.base, s.free, i), s.free[i].addr;
             prevp in mem && mem[p].size == s.free[i].size && 1 <= n <= mem[p].size && p + mem[p].size - n in mem
    ensures SamePayloads(s.live, mem, Taken(mem, Addr(ar.base, s.free, i), s.free[i].addr, n))
  {
    forall a, u | Payload(s.live, a, u)
      ensures u != Addr(ar.base, s.free, i) && !s.free[i].Has(u) && u in mem
    {
      HeaderOutside(ar, s, i, a, u);
      FreeLiveDisjoint(ar, s, i, a);
    }
  }

  lemma FreedPayloads(ar: Arena, s: State, mem: Memory, a: int, p: int)
    requires ar.Valid() && Inv(ar, s) && Mapped(ar, mem) && a in s.live
    requires p == Addr(ar.base, s.free, Below(s.free, a)) && p in mem && mem[p].ptr in mem
    ensures SamePayloads(s.live - {a}, mem, WithBlock(mem, p, a, s.live[a]))
  {
    forall c, u | Payload(s.live - {a}, c, u) ensures u != p && u != a && u in mem {
      HeaderOutside(ar, s, Below(s.free, a), c, u);
      assert Apart(Block(a, s.live[a]), Block(c, s.live[c]));
    }
  }

  /** An operation changes the payload of an allocation that it does not free in the unit stored to only. */
  ghost predicate PayloadStep(live: map<int, nat>, mem: Memory, op: Op, mem': Memory) {
    forall a, u :: Payload(live, a, u) && op != Free(a + 1) ==>
      u in mem && u in mem' && mem'[u] == if op.Store? && op.u == u then op.h else mem[u]
  }

  /** What unit `u` holds after the stores of a run, if it held `h` before. */
  function Latest(ops: seq<Op>, u: int, h: Header): Header {
    if ops == [] then h
    else
      var n := |ops| - 1;
      if ops[n].Store? && ops[n].u == u then ops[n].h else Latest(ops[..n], u, h)
  }

  /** Each allocation that the run did not free is still there, and its payload holds what was stored
      there last. */
  ghost predicate PayloadRun(start: State, mem: Memory, ops: seq<Op>, s: State, mem': Memory) {
    forall a, u :: Payload(start.live, a, u) && Free(a + 1) !in ops ==>
      && a in s.live && s.live[a] == start.live[a]
      && u in mem && u in mem' && mem'[u] == Latest(ops, u, mem[u])
  }

  lemma LiveStays(ar: Arena, s: State, op: Op, a: int)
    requires Inv(ar, s) && Legal(s, op) && a in s.live && op != Free(a + 1)
    ensures a in Step(s, op).live && Step(s, op).live[a] == s.live[a]
  {
    if op.Malloc? { MallocRegion(ar, s, Units(op.nbytes)); }
  }

  lemma PayloadRunStep(ar: Arena, start: State, mem: Memory, ops: seq<Op>, i: nat,
                       s: State, mem': Memory, mem'': Memory)
    requires i < |ops| && Inv(ar, s) && Legal(s, ops[i])
    requires PayloadRun(start, mem, ops[..i], s, mem') && PayloadStep(s.live, mem', ops[i], mem'')
    ensures PayloadRun(start, mem, ops[..i + 1], Step(s, ops[i]), mem'')
  {
    assert ops[..i + 1][..i] == ops[..i];
    forall a, u | Payload(start.live, a, u) && Free(a + 1) !in ops[..i + 1]
      ensures a in Step(s, ops[i]).live && Step(s, ops[i]).live[a] == start.live[a]
      ensures u in mem && u in mem'' && mem''[u] == Latest(ops[..i + 1], u, mem[u])
    {
      NotFreedYet(ops, i, a);
      LiveStays(ar, s, ops[i], a);
      assert Payload(s.live, a, u);
    }
  }

  lemma NotFreedYet(ops: seq<Op>, i: nat, a: int)
    requires i < |ops| && Free(a + 1) !in ops[..i + 1]
    ensures Free(a + 1) !in ops[..i] && ops[i] != Free(a + 1)
  {
    assert ops[..i + 1][i] == ops[i] && forall k :: 0 <= k < i ==> ops[..i + 1][k] == ops[k];
  }

  lemma MallocIsStep(live: map<int, nat>, mem: Memory, nbytes: nat, mem': Memory)
    requires SamePayloads(live, mem, mem')
    ensures PayloadStep(live, mem, Malloc(nbytes), mem')
  {
  }

  lemma FreeIsStep(live: map<int, nat>, mem: Memory, ap: int, mem': Memory)
    requires SamePayloads(live - {ap - 1}, mem, mem')
    ensures PayloadStep(live, mem, Free(ap), mem')
  {
    forall a, u | Payload(live, a, u) && Free(ap) != Free(a + 1) ensures u in mem && u in mem' && mem'[u] == mem[u] {
      assert Payload(live - {ap - 1}, a, u);
    }
  }

  lemma StoreIsStep(ar: Arena, s: State, mem: Memory, a: int, u: int, h: Header)
    requires Inv(ar, s) && Mapped(ar, mem)
    ensures PayloadStep(s.live, mem, Store(a, u, h), mem[u := h])
  {
  }

  class Heap {
    const ar: Arena
    var mem: Memory
    var freep: Option<int>
    ghost var s: State

    /** Before the first call nothing is in memory yet; afterwards the cycle is threaded through the
        headers of the free blocks and each allocation keeps its size in its header. */
    ghost predicate Valid()
      reads this
    {
      && ar.Valid()
      && Inv(ar, s)
      && Mapped(ar, mem)
      && (if freep.None? then s == Initial(ar)
          else freep == Some(Addr(ar.base, s.free, s.rover)) && Threaded(ar, s, mem))
    }

    constructor (ar: Arena, mem: Memory)
      requires ar.Valid() && Mapped(ar, mem)
      ensures Valid() && s == Initial(ar) && this.ar == ar
    {
      this.ar, this.mem, freep, s := ar, mem, None, Initial(ar);
      InitialInv(ar);
    }

    /** The first call makes one free block of the whole arena. */
    method MakeFirstBlock()
      requires Valid() && freep == None
      modifies this
      ensures Valid() && freep.Some? && s == old(s)
    {
      mem := mem[ar.lo := Header(ar.base, ar.hi - ar.lo)];
      mem := mem[ar.base := Header(ar.lo, 0)];
      freep := Some(ar.base);
    }

    /** One lap around the cycle, starting behind `freep`. */
    method Search(nunits: nat) returns (found: bool, prevp: int, p: int)
      requires Valid() && freep.Some? && nunits >= 1
      ensures var r := NextFit(s.free, nunits, Next(s.free, s.rover), s.rover);
              && found == r.Some?
              && (found ==> prevp == Addr(ar.base, s.free, r.value) && p == s.free[r.value].addr)
    {
      prevp := freep.value;
      assert Linked(ar.base, s.free, mem, s.rover);
      p := mem[prevp].ptr;
      ghost var prev: nat, pos: nat := s.rover, Next(s.free, s.rover);
      while true
        invariant prev <= |s.free| && pos == Next(s.free, prev)
        invariant prevp == Addr(ar.base, s.free, prev) && p == Addr(ar.base, s.free, pos)
        invariant NextFit(s.free, nunits, pos, s.rover) == NextFit(s.free, nunits, Next(s.free, s.rover), s.rover)
        decreases Steps(s.free, pos, s.rover)
      {
        assert Linked(ar.base, s.free, mem, pos);
        AddrInjective(ar, s.free, pos, s.rover);
        if mem[p].size >= nunits {
          return true, prevp, p;
        }
        if Some(p) == freep {
          return false, prevp, p;
        }
        prevp, prev := p, pos;
        p, pos := mem[p].ptr, Next(s.free, pos);
      }
    }

    /** Unlink `p` if it fits exactly, else cut the new block off its high end. */
    method Take(prevp: int, p: int, nunits: nat) returns (q: int)
      requires prevp in mem && p in mem && nunits <= mem[p].size && p + mem[p].size - nunits in mem
      modifies this`mem, this`freep
      ensures freep == Some(prevp) && q == p + old(mem)[p].size - nunits
      ensures mem == Taken(old(mem), prevp, p, nunits)
    {
      q := p;
      if mem[p].size == nunits {
        mem := mem[prevp := mem[prevp].(ptr := mem[p].ptr)];
      } else {
        mem := mem[p := mem[p].(size := mem[p].size - nunits)];
        q := q + mem[p].size;
        mem := mem[q := mem[q].(size := nunits)];
      }
      freep := Some(prevp);
    }

    /** The loop of `malloc`: take the block found, or give up after a lap. */
    method MallocUnits(nunits: nat) returns (r: Option<int>)
      requires Valid() && freep.Some? && nunits >= 1
      modifies this`mem, this`freep, this`s
      ensures Valid()
      ensures var (s', a) := AfterMalloc(old(s), nunits);
              s == s' && r == if a.None? then None else Some(a.value + 1)
      ensures SamePayloads(old(s.live), old(mem), mem)
    {
      var found, prevp, p := Search(nunits);
      if !found {
        return None;
      }
      ghost var was, next := mem, AfterMalloc(s, nunits);
      ghost var i := NextFit(s.free, nunits, Next(s.free, s.rover), s.rover).value;
      MallocReady(ar, s, mem, nunits, i);
      TakenPayloads(ar, s, mem, nunits, i);
      var q := Take(prevp, p, nunits);
      MallocThreaded(ar, s, was, nunits, i, mem);
      s := next.0;
      assert next.1 == Some(q);
      return Some(q + 1);
    }

    method Malloc(nbytes: nat) returns (r: Option<int>)
      requires Valid() && nbytes < TWO_32
      modifies this
      ensures Valid()
      ensures var (s', a) := AfterMalloc(old(s), Units(nbytes));
              s == s' && r == if a.None? then None else Some(a.value + 1)
      ensures nbytes <= TWO_32 - 16 ==> (r.None? <==> NoRoom(old(s.free), nbytes))
      ensures SamePayloads(old(s.live), old(mem), mem)
    {
      var nunits := Units(nbytes);
      if freep == None {
        MakeFirstBlock();
      }
      MallocBytes(ar, s, nbytes);
      r := MallocUnits(nunits);
    }

    /** The place to insert at: a lap from `freep` at most. */
    method Scan(bp: int) returns (p: int)
      requires Valid() && freep.Some? && bp in s.live
      ensures p == Addr(ar.base, s.free, Below(s.free, bp))
    {
      p := freep.value;
      ghost var pos: nat := s.rover;
      while true
        invariant pos <= |s.free| && p == Addr(ar.base, s.free, pos)
        decreases Steps(s.free, pos, Below(s.free, bp))
      {
        assert Linked(ar.base, s.free, mem, pos);
        StopsIff(ar, s, bp, pos);
        if bp > p && bp < mem[p].ptr {
          break;
        }
        if p >= mem[p].ptr && (bp > p || bp < mem[p].ptr) {
          break;
        }
        p, pos := mem[p].ptr, Next(s.free, pos);
      }
    }

    method Relink(p: int, bp: int)
      requires p in mem && bp in mem && mem[p].ptr in mem && p != bp && bp != mem[p].ptr
      modifies this`mem, this`freep
      ensures freep == Some(p)
      ensures mem == WithBlock(old(mem), p, bp, old(mem)[bp].size)
    {
      if bp + mem[bp].size == mem[p].ptr {
        mem := mem[bp := mem[bp].(size := mem[bp].size + mem[mem[p].ptr].size)];
        mem := mem[bp := mem[bp].(ptr := mem[mem[p].ptr].ptr)];
      } else {
        mem := mem[bp := mem[bp].(ptr := mem[p].ptr)];
      }
      if p + mem[p].size == bp {
        mem := mem[p := mem[p].(size := mem[p].size + mem[bp].size)];
        mem := mem[p := mem[p].(ptr := mem[bp].ptr)];
      } else {
        mem := mem[p := mem[p].(ptr := bp)];
      }
      freep := Some(p);
    }

    method Free(ap: int)
      requires Valid() && ap - 1 in s.live
      modifies this
      ensures Valid()
      ensures s == AfterFree(old(s), ap - 1)
      ensures SamePayloads(old(s.live) - {ap - 1}, old(mem), mem)
    {
      var bp := ap - 1;
      var p := Scan(bp);
      ghost var was := mem;
      FreeReady(ar, s, mem, bp);
      FreedPayloads(ar, s, mem, bp, p);
      Relink(p, bp);
      FreeThreaded(ar, s, was, bp, mem);
      s := AfterFree(s, bp);
    }

    method Do(op: Op) returns (out: Option<int>)
      requires Valid() && Legal(s, op)
      modifies this
      ensures Valid() && s == Step(old(s), op) && out == Returned(old(s), op)
      ensures PayloadStep(old(s.live), old(mem), op, mem)
    {
      out := None;
      match op {
        case Malloc(nbytes) =>
          out := Malloc(nbytes);
          MallocIsStep(old(s.live), old(mem), nbytes, mem);
        case Free(ap) =>
          Free(ap);
          FreeIsStep(old(s.live), old(mem), ap, mem);
        case Store(a, u, h) =>
          StoreIsStep(ar, s, mem, a, u, h);
          StorePayload(a, u, h);
      }
    }

    /** Every run of calls, with writes to payloads in between, does to the heap what it does to the state,
        the pointers handed out are those of the state, and every payload that is not freed ends up
        holding what its owner stored there last. */
    method Execute(ops: seq<Op>) returns (outs: seq<Option<int>>)
      requires Valid() && LegalRun(s, ops)
      modifies this
      ensures Valid() && s == Run(old(s), ops) && outs == AllReturned(old(s), ops)
      ensures PayloadRun(old(s), old(mem), ops, s, mem)
    {
      outs := [];
      ghost var start, before := s, mem;
      assert ops[0..] == ops;
      for i := 0 to |ops|
        invariant Valid() && LegalRun(s, ops[i..]) && Run(s, ops[i..]) == Run(start, ops)
        invariant outs + AllReturned(s, ops[i..]) == AllReturned(start, ops)
        invariant PayloadRun(start, before, ops[..i], s, mem)
      {
        RunUnfolds(s, ops, i);
        ghost var s0, mem0 := s, mem;
        ghost var rest := AllReturned(Step(s, ops[i]), ops[i + 1..]);
        var out := Do(ops[i]);
        PayloadRunStep(ar, start, before, ops, i, s0, mem0, mem);
        Associative(outs, [out], rest);
        outs := outs + [out];
      }
      assert ops[..|ops|] == ops;
    }

    /** The owner of a live allocation may write anything to its payload. */
    method StorePayload(ghost a: int, u: int, h: Header)
      requires Valid() && a in s.live && a < u < a + s.live[a]
      modifies this`mem
      ensures Valid() && mem == old(mem)[u := h] && s == old(s)
    {
      assert Block(a, s.live[a]).Has(u);
      forall pos: nat | pos <= |s.free| ensures Addr(ar.base, s.free, pos) != u {
        if pos > 0 {
          assert s.free[pos - 1].Has(s.free[pos - 1].addr);
          if s.free[pos - 1].addr == u { assert Covers(s.free, u) && LiveHas(s.live, u); }
        }
      }
      assert forall c :: c in s.live ==> c == a || Apart(Block(a, s.live[a]), Block(c, s.live[c]));
      mem := mem[u := h];
      if freep.Some? {
        forall pos: nat | pos <= |s.free| ensures Linked(ar.base, s.free, mem, pos) {
          assert Linked(ar.base, s.free, old(mem), pos);
        }
      }
    }
  }
}
