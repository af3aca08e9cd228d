/**
 First-fit regions of libmem.c: the free regions of a memory area and the regions its symbols hold, and what
 allocating and freeing keep over whole runs.
 */
module Regions {
  import opened Prelude

  const SYMBOLS := 30                    // PAGING_MAX_SYMTBL_SZ
  const BUS := 0x200_0000_0000_0000      // 2 to the 57: addresses on the bus
  const WORDS := 0x1_0000_0000_0000_0000 // 2 to the 64: values of addr_t

  const INTS := 0x8000_0000              // beyond the values an int can hold

  /** The bytes from `start` up to, not including, `end`. */
  datatype Region = Region(start: nat, end: nat)

  /**
   The free list of the area, in list order; the symbol table, where an unused symbol holds Region(0, 0); and sbrk.
   */
  datatype Space = Space(free: seq<Region>, live: seq<Region>, brk: nat)

  predicate Bounded(r: Region) { r.start <= r.end <= BUS }

  ghost predicate Shaped(s: Space)
  {
    && |s.live| == SYMBOLS && s.brk < INTS
    && (forall k :: 0 <= k < |s.free| ==> Bounded(s.free[k]))
    && (forall id :: 0 <= id < SYMBOLS ==> Bounded(s.live[id]))
  }

  /** The size of a request as get_free_vmrg_area receives it: an int, not negative. */
  predicate Request(size: nat) { size < INTS }

  // ---- the operations ------------------------------------------------------------------------------------

  /** Addition of addr_t values, which wraps around. */
  function Sum64(a: nat, b: nat): nat
    requires a < WORDS && b < WORDS
  {
    if a + b < WORDS then a + b else a + b - WORDS
  }

  predicate Fits(r: Region, size: nat)
    requires Bounded(r) && Request(size)
  {
    Sum64(r.start, size) <= r.end
  }

  /** The first region of the list that is large enough. */
  function FirstFit(free: seq<Region>, size: nat): (r: Option<nat>)
    requires Request(size) && forall k :: 0 <= k < |free| ==> Bounded(free[k])
    ensures r.Some? ==> r.value < |free| && free[r.value].start + size <= free[r.value].end
    ensures r.Some? ==> forall j :: 0 <= j < r.value ==> free[j].end < free[j].start + size
    ensures r.None? ==> forall j :: 0 <= j < |free| ==> free[j].end < free[j].start + size
  {
    if free == [] then None
    else if Fits(free[0], size) then Some(0)
    else
      var r := FirstFit(free[1..], size);
      assert forall j :: 0 < j < |free| ==> free[j] == free[1..][j - 1];
      if r.Some? then Some(r.value + 1) else None
  }

  /** The free list once `size` bytes are taken from the front of its region `k`. */
  function Carved(free: seq<Region>, k: nat, size: nat): seq<Region>
    requires k < |free| && free[k].start + size <= free[k].end
  {
    if free[k].start + size < free[k].end then free[k := Region(free[k].start + size, free[k].end)]
    else if k + 1 < |free| then Without(free, k)
    else free[k := Region(free[k].end, free[k].end)]
  }

  /** The region at the break, which inc_vma_limit leaves where it is. */
  function Grown(s: Space, size: nat): Region { Region(s.brk, s.brk + size) }

  predicate AnyFits(s: Space, size: nat)
    requires Shaped(s) && Request(size)
  {
    FirstFit(s.free, size).Some?
  }

  /** __alloc: the front of the first free region that fits, or else the bytes from the break up. */
  function Alloc(s: Space, id: nat, size: nat): Space
    requires Shaped(s) && id < SYMBOLS && Request(size)
  {
    var k := FirstFit(s.free, size);
    if k.None? then s.(live := s.live[id := Grown(s, size)])
    else
      var start := s.free[k.value].start;
      s.(free := Carved(s.free, k.value, size), live := s.live[id := Region(start, start + size)])
  }

  /** __free: the region of a symbol in use goes to the head of the free list. */
  function Free(s: Space, id: nat): Space
    requires Shaped(s) && id < SYMBOLS
  {
    var r := s.live[id];
    if r == Region(0, 0) then s
    else s.(free := if r.start < r.end then [r] + s.free else s.free, live := s.live[id := Region(0, 0)])
  }

  // ---- counting bytes ------------------------------------------------------------------------------------

  predicate Has(r: Region, a: nat) { r.start <= a < r.end }

  /** How many regions of the list contain byte `a`. */
  function Covers(rs: seq<Region>, a: nat): nat
  {
    if rs == [] then 0 else (if Has(rs[0], a) then 1 else 0) + Covers(rs[1..], a)
  }

  /** How many free regions and symbols byte `a` belongs to. */
  function Owners(s: Space, a: nat): nat { Covers(s.free, a) + Covers(s.live, a) }

  lemma {:induction false} CoversPut(rs: seq<Region>, k: nat, r: Region, a: nat)
    requires k < |rs|
    ensures Covers(rs[k := r], a) + (if Has(rs[k], a) then 1 else 0) == Covers(rs, a) + (if Has(r, a) then 1 else 0)
  {
    if k == 0 {
      assert rs[k := r][1..] == rs[1..];
    } else {
      CoversPut(rs[1..], k - 1, r, a);
      assert rs[k := r][1..] == rs[1..][k - 1 := r];
    }
  }

  lemma {:induction false} CoversWithout(rs: seq<Region>, k: nat, a: nat)
    requires k < |rs|
    ensures Covers(Without(rs, k), a) + (if Has(rs[k], a) then 1 else 0) == Covers(rs, a)
  {
    if k == 0 {
      assert Without(rs, 0) == rs[1..];
    } else {
      CoversWithout(rs[1..], k - 1, a);
      assert Without(rs, k)[1..] == Without(rs[1..], k - 1);
    }
  }

  lemma ShapedWithout(s: Space, k: nat)
    requires Shaped(s) && k < |s.free|
    ensures Shaped(s.(free := Without(s.free, k)))
  {
  }

  /** Carving takes from the free list exactly the bytes it hands out. */
  lemma CarvedBytes(free: seq<Region>, k: nat, size: nat, a: nat)
    requires k < |free| && free[k].start + size <= free[k].end
    ensures var taken := Region(free[k].start, free[k].start + size);
            Covers(Carved(free, k, size), a) + (if Has(taken, a) then 1 else 0) == Covers(free, a)
  {
    var r := free[k];
    if r.start + size < r.end {
      CoversPut(free, k, Region(r.start + size, r.end), a);
    } else if k + 1 < |free| {
      CoversWithout(free, k, a);
    } else {
      CoversPut(free, k, Region(r.end, r.end), a);
    }
  }

  /**
   Conservation of one allocation, into any symbol: every byte keeps the number of its owners, but the bytes the symbol
   held before lose one, and if nothing fits the bytes from the break up gain one.
   */
  lemma AllocConserves(s: Space, id: nat, size: nat, a: nat)
    requires Shaped(s) && id < SYMBOLS && Request(size)
    ensures Shaped(Alloc(s, id, size))
    ensures Owners(Alloc(s, id, size), a) + (if Has(s.live[id], a) then 1 else 0) ==
            Owners(s, a) + if !AnyFits(s, size) && Has(Grown(s, size), a) then 1 else 0
  {
    var k := FirstFit(s.free, size);
    if k.Some? {
      var start := s.free[k.value].start;
      CarvedBytes(s.free, k.value, size, a);
      CoversPut(s.live, id, Region(start, start + size), a);
    } else {
      CoversPut(s.live, id, Grown(s, size), a);
    }
  }

  lemma FreeConserves(s: Space, id: nat, a: nat)
    requires Shaped(s) && id < SYMBOLS
    ensures Shaped(Free(s, id)) && Owners(Free(s, id), a) == Owners(s, a)
  {
    CoversPut(s.live, id, Region(0, 0), a);
    var r := s.live[id];
    assert ([r] + s.free)[1..] == s.free;
  }

  /**
   An allocation that fits takes the first region large enough, from its front; the symbol then holds `size` bytes, and
   the free regions before and behind that one stay as they were, in order.
   */
  lemma AllocFirstFit(s: Space, id: nat, size: nat, k: nat)
    requires Shaped(s) && id < SYMBOLS && Request(size)
    requires k < |s.free| && s.free[k].start + size <= s.free[k].end
    requires forall j :: 0 <= j < k ==> s.free[j].end < s.free[j].start + size
    ensures Alloc(s, id, size).live == s.live[id := Region(s.free[k].start, s.free[k].start + size)]
    ensures var free, rest := Alloc(s, id, size).free, s.free[k + 1..];
            |rest| <= |free| && free[..k] == s.free[..k] && free[|free| - |rest|..] == rest
  {
    assert FirstFit(s.free, size) == Some(k);
    var free := Alloc(s, id, size).free;
    if s.free[k].start + size < s.free[k].end || k + 1 == |s.free| {
      assert free[k + 1..] == s.free[k + 1..];
    } else {
      assert free[k..] == s.free[k + 1..];
    }
  }

  /** A list covers a byte at least as often as it has positions, among those named, that contain it. */
  lemma {:induction false} CoversAt(rs: seq<Region>, j: nat, k: nat, a: nat)
    requires j <= k < |rs| && Has(rs[j], a) && Has(rs[k], a)
    ensures Covers(rs, a) >= if j == k then 1 else 2
  {
    if j > 0 {
      CoversAt(rs[1..], j - 1, k - 1, a);
    } else if k > 0 {
      CoversAt(rs[1..], k - 1, k - 1, a);
    }
  }

  /**
   What an allocation gives: its symbol holds `size` bytes, each of them free before or from the break up, and every
   other symbol holds what it held.
   */
  lemma AllocHolds(s: Space, id: nat, size: nat, a: nat)
    requires Shaped(s) && id < SYMBOLS && Request(size)
    ensures var r := Alloc(s, id, size).live[id];
            && r.end == r.start + size
            && (Has(r, a) ==> if AnyFits(s, size) then Covers(s.free, a) > 0 else Has(Grown(s, size), a))
    ensures |Alloc(s, id, size).live| == SYMBOLS
    ensures forall j :: 0 <= j < SYMBOLS && j != id ==> Alloc(s, id, size).live[j] == s.live[j]
    ensures !AnyFits(s, size) ==> Alloc(s, id, size).free == s.free
  {
    var k := FirstFit(s.free, size);
    if k.Some? && Has(Alloc(s, id, size).live[id], a) {
      CoversAt(s.free, k.value, k.value, a);
    }
  }

  /** __free accepts a symbol in use and no other. */
  predicate InUse(s: Space, id: nat)
    requires Shaped(s) && id < SYMBOLS
  {
    s.live[id] != Region(0, 0)
  }

  /**
   What a free does: the symbol is in use no more, every other symbol holds what it held, and its region, unless empty,
   is the first of the free list, before all that were there; freeing a symbol not in use changes nothing.
   */
  lemma FreeReleases(s: Space, id: nat)
    requires Shaped(s) && id < SYMBOLS
    ensures Shaped(Free(s, id)) && !InUse(Free(s, id), id)
    ensures forall j :: 0 <= j < SYMBOLS && j != id ==> Free(s, id).live[j] == s.live[j]
    ensures s.live[id].start < s.live[id].end ==>
              Free(s, id).free != [] && Free(s, id).free[0] == s.live[id] && Free(s, id).free[1..] == s.free
    ensures s.live[id].start == s.live[id].end ==> Free(s, id).free == s.free
    ensures !InUse(s, id) ==> Free(s, id) == s
  {
  }

  /**
   Round trip: a symbol's region, once freed, is what the next allocation of its size gets, and the space is as it was.
   (The code keeps a list without free regions from being empty again: it then leaves an empty one in it.)
   */
  lemma FreeThenAlloc(s: Space, id: nat)
    requires Shaped(s) && id < SYMBOLS && s.live[id].start < s.live[id].end
    requires Request(s.live[id].end - s.live[id].start)
    ensures var r := s.live[id];
            && Shaped(Free(s, id))
            && Alloc(Free(s, id), id, r.end - r.start) ==
               s.(free := if s.free == [] then [Region(r.end, r.end)] else s.free)
  {
    var r, s1 := s.live[id], Free(s, id);
    assert s1.free[0] == r && FirstFit(s1.free, r.end - r.start) == Some(0);
    assert s1.live[id := r] == s.live;
    if s.free == [] {
      assert s1.free == [r];
    } else {
      assert Without(s1.free, 0) == s.free;
    }
  }

  // ---- disjointness --------------------------------------------------------------------------------------

  /** No byte lies in two free regions, in two symbols, or in one of each. */
  ghost predicate Disjoint(s: Space)
  {
    && (forall j, k, a: nat :: 0 <= j < k < |s.free| && Has(s.free[j], a) ==> !Has(s.free[k], a))
    && (forall j, k, a: nat :: 0 <= j < k < |s.live| && Has(s.live[j], a) ==> !Has(s.live[k], a))
    && (forall j, k, a: nat :: 0 <= j < |s.free| && 0 <= k < |s.live| && Has(s.free[j], a) ==> !Has(s.live[k], a))
  }

  /** Byte `a` is free or belongs to a symbol. */
  ghost predicate Owned(s: Space, a: nat)
  {
    (exists k :: 0 <= k < |s.free| && Has(s.free[k], a)) || exists k :: 0 <= k < |s.live| && Has(s.live[k], a)
  }

  /** A list covers a byte at most once if no two positions contain it, and then only if one does. */
  lemma {:induction false} CoversOnce(rs: seq<Region>, a: nat)
    ensures Covers(rs, a) == 0 <==> forall k :: 0 <= k < |rs| ==> !Has(rs[k], a)
    ensures Covers(rs, a) <= 1 <== forall j, k :: 0 <= j < k < |rs| && Has(rs[j], a) ==> !Has(rs[k], a)
  {
    if rs == [] {
    } else {
      CoversOnce(rs[1..], a);
      assert forall k :: 0 < k < |rs| ==> rs[k] == rs[1..][k - 1];
      assert forall k :: 0 <= k < |rs| - 1 ==> rs[1..][k] == rs[k + 1];
    }
  }

  lemma DisjointIsOnce(s: Space)
    ensures Disjoint(s) <==> forall a: nat :: Owners(s, a) <= 1
  {
    if Disjoint(s) {
      forall a: nat ensures Owners(s, a) <= 1 {
        CoversOnce(s.free, a);
        CoversOnce(s.live, a);
      }
    }
    if forall a: nat :: Owners(s, a) <= 1 {
      forall j, k, a: nat | 0 <= j < k < |s.free| && Has(s.free[j], a) ensures !Has(s.free[k], a) {
        assert Owners(s, a) <= 1;
        if Has(s.free[k], a) { CoversAt(s.free, j, k, a); }
      }
      forall j, k, a: nat | 0 <= j < k < |s.live| && Has(s.live[j], a) ensures !Has(s.live[k], a) {
        assert Owners(s, a) <= 1;
        if Has(s.live[k], a) { CoversAt(s.live, j, k, a); }
      }
      forall j, k, a: nat | 0 <= j < |s.free| && 0 <= k < |s.live| && Has(s.free[j], a) ensures !Has(s.live[k], a) {
        assert Owners(s, a) <= 1;
        if Has(s.live[k], a) { CoversAt(s.free, j, j, a); CoversAt(s.live, k, k, a); }
      }
    }
  }

  lemma OwnedIsOwners(s: Space, a: nat)
    ensures Owned(s, a) <==> Owners(s, a) >= 1
  {
    CoversOnce(s.free, a);
    CoversOnce(s.live, a);
  }

  // ---- one allocation: when it keeps what there is -------------------------------------------------------

  /**
   The bytes owned after an allocation: those owned before, without the ones the symbol held, and if nothing fits
   those from the break up.
   */
  lemma AllocOwned(s: Space, id: nat, size: nat, a: nat)
    requires Shaped(s) && Disjoint(s) && id < SYMBOLS && Request(size)
    ensures Owned(Alloc(s, id, size), a) <==>
              (Owned(s, a) && !Has(s.live[id], a)) || (!AnyFits(s, size) && Has(Grown(s, size), a))
  {
    AllocConserves(s, id, size, a);
    DisjointIsOnce(s);
    assert Owners(s, a) <= 1;
    OwnedIsOwners(s, a);
    OwnedIsOwners(Alloc(s, id, size), a);
    assert Has(s.live[id], a) ==> Owned(s, a);
  }

  /** The symbol's old bytes stay owned: it holds none, or growth hands out the very same ones again. */
  ghost predicate Keeps(s: Space, id: nat, size: nat)
    requires Shaped(s) && id < SYMBOLS && Request(size)
  {
    forall a: nat :: Has(s.live[id], a) ==> !AnyFits(s, size) && Has(Grown(s, size), a)
  }

  /** No byte that growth hands out is free or in use, unless the symbol itself gives it up. */
  ghost predicate RoomAtBreak(s: Space, id: nat, size: nat)
    requires Shaped(s) && id < SYMBOLS && Request(size)
  {
    forall a: nat :: Has(Grown(s, size), a) && !Has(s.live[id], a) ==> !Owned(s, a)
  }

  /** An allocation, into any symbol, loses no byte exactly when the bytes the symbol held come back to it. */
  lemma ReuseLosesBytes(s: Space, id: nat, size: nat)
    requires Shaped(s) && Disjoint(s) && id < SYMBOLS && Request(size)
    ensures (forall a: nat :: Owned(s, a) ==> Owned(Alloc(s, id, size), a)) <==> Keeps(s, id, size)
  {
    var s' := Alloc(s, id, size);
    forall a: nat
      ensures Owned(s', a) <==>
                (Owned(s, a) && !Has(s.live[id], a)) || (!AnyFits(s, size) && Has(Grown(s, size), a))
    {
      AllocOwned(s, id, size, a);
    }
    assert forall a: nat :: Has(s.live[id], a) ==> Owned(s, a);
  }

  /**
   An allocation, into any symbol, keeps regions disjoint exactly when something fits, or else no byte from the break
   up belongs to anything but that symbol.
   */
  lemma GrowthOverlaps(s: Space, id: nat, size: nat)
    requires Shaped(s) && Disjoint(s) && id < SYMBOLS && Request(size)
    ensures Disjoint(Alloc(s, id, size)) <==> AnyFits(s, size) || RoomAtBreak(s, id, size)
  {
    var s' := Alloc(s, id, size);
    DisjointIsOnce(s);
    DisjointIsOnce(s');
    forall a: nat
      ensures Owners(s', a) + (if Has(s.live[id], a) then 1 else 0) ==
              Owners(s, a) + if !AnyFits(s, size) && Has(Grown(s, size), a) then 1 else 0
    {
      AllocConserves(s, id, size, a);
    }
    forall a: nat ensures Owned(s, a) <==> Owners(s, a) >= 1 { OwnedIsOwners(s, a); }
    if AnyFits(s, size) || RoomAtBreak(s, id, size) {
      forall a: nat ensures Owners(s', a) <= 1 { assert Owners(s, a) <= 1; }
    } else {
      var a: nat :| Has(Grown(s, size), a) && !Has(s.live[id], a) && Owned(s, a);
      assert Owners(s', a) > 1;
    }
  }

  // ---- runs ----------------------------------------------------------------------------------------------

  datatype Op = DoAlloc(id: nat, size: nat) | DoFree(id: nat)

  /** Requests keep the bytes their symbol holds and, where nothing fits, find room at the break. */
  ghost predicate Allowed(s: Space, op: Op)
    requires Shaped(s)
  {
    && op.id < SYMBOLS
    && (op.DoAlloc? ==> && Request(op.size) && Keeps(s, op.id, op.size)
                        && (AnyFits(s, op.size) || RoomAtBreak(s, op.id, op.size)))
  }

  function After(s: Space, op: Op): Space
    requires Shaped(s) && op.id < SYMBOLS && (op.DoAlloc? ==> Request(op.size))
  {
    match op
    case DoAlloc(id, size) => Alloc(s, id, size)
    case DoFree(id) => Free(s, id)
  }

  /** The bytes an operation adds to the area: those from the break up, if it is an allocation that nothing fits. */
  ghost predicate Adds(s: Space, op: Op, a: nat)
    requires Shaped(s) && (op.DoAlloc? ==> Request(op.size))
  {
    op.DoAlloc? && !AnyFits(s, op.size) && Has(Grown(s, op.size), a)
  }

  lemma FreeKeeps(s: Space, id: nat)
    requires Shaped(s) && Disjoint(s) && id < SYMBOLS
    ensures Shaped(Free(s, id)) && Disjoint(Free(s, id))
    ensures forall a: nat :: Owned(Free(s, id), a) <==> Owned(s, a)
  {
    var s' := Free(s, id);
    FreeConserves(s, id, 0);
    DisjointIsOnce(s);
    forall a: nat ensures Owners(s', a) <= 1 && (Owned(s', a) <==> Owned(s, a)) {
      FreeConserves(s, id, a);
      OwnedIsOwners(s, a);
      OwnedIsOwners(s', a);
      assert Owners(s, a) <= 1;
    }
    DisjointIsOnce(s');
  }

  /** An allowed operation keeps regions disjoint; it loses no byte and adds only those it grows by. */
  lemma StepConserves(s: Space, op: Op)
    requires Shaped(s) && Disjoint(s) && Allowed(s, op)
    ensures Shaped(After(s, op)) && Disjoint(After(s, op)) && After(s, op).brk == s.brk
    ensures forall a: nat :: Owned(After(s, op), a) <==> Owned(s, a) || Adds(s, op, a)
  {
    match op
    case DoAlloc(id, size) =>
      AllocConserves(s, id, size, 0);
      GrowthOverlaps(s, id, size);
      hide Shaped, Disjoint, Owned, Has, AnyFits, Alloc;
      forall a: nat ensures Owned(Alloc(s, id, size), a) <==> Owned(s, a) || Adds(s, op, a) {
        AllocOwned(s, id, size, a);
      }
    case DoFree(id) => FreeKeeps(s, id);
  }

  ghost predicate Runs(s: Space, ops: seq<Op>)
    requires Shaped(s)
    decreases |ops|
  {
    ops == [] || (Allowed(s, ops[0]) && Shaped(After(s, ops[0])) && Runs(After(s, ops[0]), ops[1..]))
  }

  ghost function RunOf(s: Space, ops: seq<Op>): Space
    requires Shaped(s) && Runs(s, ops)
    decreases |ops|
  {
    if ops == [] then s else RunOf(After(s, ops[0]), ops[1..])
  }

  /** Some operation of the run adds byte `a`. */
  ghost predicate RunAdds(s: Space, ops: seq<Op>, a: nat)
    requires Shaped(s) && Runs(s, ops)
    decreases |ops|
  {
    ops != [] && (Adds(s, ops[0], a) || RunAdds(After(s, ops[0]), ops[1..], a))
  }

  /**
   First-fit conservation: from disjoint free regions and symbols, any run of allocations and frees leaves them
   disjoint, with the bytes there were and those the run grew by; so with exactly the same bytes if all of it fitted.
   */
  lemma {:induction false} RegionsConserved(s: Space, ops: seq<Op>)
    requires Shaped(s) && Disjoint(s) && Runs(s, ops)
    ensures Shaped(RunOf(s, ops)) && Disjoint(RunOf(s, ops)) && RunOf(s, ops).brk == s.brk
    ensures forall a: nat :: Owned(RunOf(s, ops), a) <==> Owned(s, a) || RunAdds(s, ops, a)
    decreases |ops|
  {
    if ops == [] {
    } else {
      hide Disjoint, Owned, Adds, Allowed, Shaped;
      StepConserves(s, ops[0]);
      RegionsConserved(After(s, ops[0]), ops[1..]);
    }
  }

  // ---- a freed symbol ------------------------------------------------------------------------------------

  /** Operations on symbols of the table, with sizes of requests. */
  predicate Sane(ops: seq<Op>) { forall op :: op in ops ==> op.id < SYMBOLS && (op.DoAlloc? ==> Request(op.size)) }

  /** Any such operations one after the other, whatever they do to the area. */
  function AfterAll(s: Space, ops: seq<Op>): Space
    requires Shaped(s) && Sane(ops)
    decreases |ops|
  {
    if ops == [] then s
    else
      assert ops[0] in ops;
      AfterShaped(s, ops[0]);
      AfterAll(After(s, ops[0]), ops[1..])
  }

  lemma AfterShaped(s: Space, op: Op)
    requires Shaped(s) && op.id < SYMBOLS && (op.DoAlloc? ==> Request(op.size))
    ensures Shaped(After(s, op))
  {
    if op.DoAlloc? { AllocConserves(s, op.id, op.size, 0); } else { FreeConserves(s, op.id, 0); }
  }

  /** Operations on other symbols, and frees of this one, leave a symbol that is not in use as it is. */
  lemma {:induction false} UnusedStays(s: Space, id: nat, ops: seq<Op>)
    requires Shaped(s) && id < SYMBOLS && Sane(ops) && !InUse(s, id)
    requires forall op :: op in ops && op.DoAlloc? ==> op.id != id
    ensures Shaped(AfterAll(s, ops)) && !InUse(AfterAll(s, ops), id)
    decreases |ops|
  {
    if ops == [] {
    } else {
      hide Shaped;
      var op := ops[0];
      assert op in ops;
      AfterShaped(s, op);
      if op.DoAlloc? { AllocHolds(s, op.id, op.size, 0); } else { FreeReleases(s, op.id); }
      UnusedStays(After(s, op), id, ops[1..]);
    }
  }

  /**
   A symbol is freed once: after a free, whatever is done short of an allocation into that symbol, a further free of it
   finds it not in use and changes nothing.
   */
  lemma FreedOnce(s: Space, id: nat, ops: seq<Op>)
    requires Shaped(s) && id < SYMBOLS && Sane(ops) && forall op :: op in ops && op.DoAlloc? ==> op.id != id
    ensures Shaped(Free(s, id))
    ensures var s' := AfterAll(Free(s, id), ops); Shaped(s') && !InUse(s', id) && Free(s', id) == s'
  {
    FreeReleases(s, id);
    UnusedStays(Free(s, id), id, ops);
  }

  // ---- from a new area -----------------------------------------------------------------------------------

  /** The area init_mm leaves. */
  function NewSpace(): Space { Space([Region(0, 0)], seq(SYMBOLS, _ => Region(0, 0)), 0) }

  /** The same with symbol 0 holding a region and other regions free. */
  function OneSymbol(free: seq<Region>, r: Region): Space { Space(free, NewSpace().live[0 := r], 0) }

  lemma FourSteps()
    ensures Shaped(NewSpace()) && NewSpace() == OneSymbol([Region(0, 0)], Region(0, 0)) && !AnyFits(NewSpace(), 100)
    ensures Alloc(NewSpace(), 0, 100) == OneSymbol([Region(0, 0)], Region(0, 100))
    ensures Free(OneSymbol([Region(0, 0)], Region(0, 100)), 0) ==
            OneSymbol([Region(0, 100), Region(0, 0)], Region(0, 0))
  {
    assert NewSpace().live[0 := Region(0, 0)] == NewSpace().live;
    assert [Region(0, 100)] + [Region(0, 0)] == [Region(0, 100), Region(0, 0)];
    assert NewSpace().live[0 := Region(0, 100)][0 := Region(0, 0)] == NewSpace().live[0 := Region(0, 0)];
  }

  lemma TakenAgain()
    ensures var s := OneSymbol([Region(0, 100), Region(0, 0)], Region(0, 0));
            Shaped(s) && AnyFits(s, 40) && Alloc(s, 0, 40) == OneSymbol([Region(40, 100), Region(0, 0)], Region(0, 40))
    ensures var s := OneSymbol([Region(40, 100), Region(0, 0)], Region(0, 40));
            Shaped(s) && AnyFits(s, 30) && Alloc(s, 0, 30) == OneSymbol([Region(70, 100), Region(0, 0)], Region(40, 70))
  {
    assert NewSpace().live[0 := Region(0, 0)][0 := Region(0, 40)] == NewSpace().live[0 := Region(0, 40)];
    assert NewSpace().live[0 := Region(0, 40)][0 := Region(40, 70)] == NewSpace().live[0 := Region(40, 70)];
  }

  /** Nothing of a new area is owned. */
  lemma NewSpaceEmpty()
    ensures Disjoint(NewSpace()) && forall a: nat :: !Owned(NewSpace(), a)
  {
  }

  lemma {:induction false} OneByOne(s: Space, op: Op, rest: seq<Op>)
    requires Shaped(s) && Allowed(s, op) && Shaped(After(s, op)) && Runs(After(s, op), rest)
    ensures Runs(s, [op] + rest) && RunOf(s, [op] + rest) == RunOf(After(s, op), rest)
  {
    hide Shaped, Allowed, After;
    assert ([op] + rest)[1..] == rest;
  }

  lemma FirstGrowth()
    ensures Shaped(NewSpace()) && Allowed(NewSpace(), DoAlloc(0, 100)) && Disjoint(NewSpace())
    ensures After(NewSpace(), DoAlloc(0, 100)) == OneSymbol([Region(0, 0)], Region(0, 100))
    ensures Shaped(OneSymbol([Region(0, 0)], Region(0, 100)))
  {
    FourSteps();
    NewSpaceEmpty();
  }

  lemma ThenFreed()
    ensures var s := OneSymbol([Region(0, 0)], Region(0, 100));
            Shaped(s) && Allowed(s, DoFree(0)) &&
              After(s, DoFree(0)) == OneSymbol([Region(0, 100), Region(0, 0)], Region(0, 0))
  {
    FourSteps();
  }

  lemma ThenReused()
    ensures var s := OneSymbol([Region(0, 100), Region(0, 0)], Region(0, 0));
            && Shaped(s) && Allowed(s, DoAlloc(0, 40))
            && After(s, DoAlloc(0, 40)) == OneSymbol([Region(40, 100), Region(0, 0)], Region(0, 40))
    ensures Shaped(OneSymbol([Region(40, 100), Region(0, 0)], Region(0, 40)))
  {
    TakenAgain();
  }

  /**
   From there: 100 bytes for symbol 0, freed, 40 of them taken again, and then 30 into the same symbol: byte 0 is
   lost.
   */
  lemma BytesLost()
    ensures var ops := [DoAlloc(0, 100), DoFree(0), DoAlloc(0, 40)];
            && Shaped(NewSpace()) && Runs(NewSpace(), ops)
            && var s := RunOf(NewSpace(), ops); Shaped(s) && Owned(s, 0) && !Owned(Alloc(s, 0, 30), 0)
  {
    hide NewSpace, OneSymbol, Shaped, Allowed, After, Alloc, Owned, Disjoint, Runs, RunOf;
    FirstGrowth();
    ThenFreed();
    ThenReused();
    LastReuse();
    var s1, s2 := OneSymbol([Region(0, 0)], Region(0, 100)), OneSymbol([Region(0, 100), Region(0, 0)], Region(0, 0));
    var s3 := OneSymbol([Region(40, 100), Region(0, 0)], Region(0, 40));
    NoOps(s3);
    assert [DoAlloc(0, 40)] + [] == [DoAlloc(0, 40)] && [DoFree(0)] + [DoAlloc(0, 40)] == [DoFree(0), DoAlloc(0, 40)];
    assert [DoAlloc(0, 100)] + [DoFree(0), DoAlloc(0, 40)] == [DoAlloc(0, 100), DoFree(0), DoAlloc(0, 40)];
    OneByOne(s2, DoAlloc(0, 40), []);
    OneByOne(s1, DoFree(0), [DoAlloc(0, 40)]);
    OneByOne(NewSpace(), DoAlloc(0, 100), [DoFree(0), DoAlloc(0, 40)]);
  }

  lemma NoOps(s: Space)
    requires Shaped(s)
    ensures Runs(s, []) && RunOf(s, []) == s
  {
  }

  lemma LastReuse()
    ensures var s := OneSymbol([Region(40, 100), Region(0, 0)], Region(0, 40));
            Shaped(s) && Owned(s, 0) && !Owned(Alloc(s, 0, 30), 0)
  {
    TakenAgain();
    var s := OneSymbol([Region(40, 100), Region(0, 0)], Region(0, 40));
    assert Has(s.live[0], 0);
  }

  /**
   Growth is safe once: after any run from a new area that grew, a later allocation that nothing fits, into any symbol
   but one that holds byte 0, makes regions overlap.
   */
  lemma GrowsOnce(ops: seq<Op>, id: nat, size: nat)
    requires Shaped(NewSpace()) && Runs(NewSpace(), ops) && RunAdds(NewSpace(), ops, 0)
    requires id < SYMBOLS && 1 <= size && Request(size)
    requires var s := RunOf(NewSpace(), ops); Shaped(s) && !AnyFits(s, size) && !Has(s.live[id], 0)
    ensures !Disjoint(Alloc(RunOf(NewSpace(), ops), id, size))
  {
    NewSpaceEmpty();
    assert NewSpace().brk == 0;
    RegionsConserved(NewSpace(), ops);
    var s := RunOf(NewSpace(), ops);
    hide NewSpace, Shaped, Disjoint, Runs, RunOf, RunAdds, Owned, AnyFits, Alloc;
    GrowthOverlaps(s, id, size);
    assert Has(Grown(s, size), 0) && Owned(s, 0);
  }

  /** From there: 100 bytes each for symbols 0 and 1, while nothing is free: both hold byte 0. */
  lemma SymbolsCollide()
    ensures Shaped(NewSpace()) && Runs(NewSpace(), [DoAlloc(0, 100)])
    ensures var s := RunOf(NewSpace(), [DoAlloc(0, 100)]);
            Shaped(s) && Disjoint(s) && s.live[1] == Region(0, 0) && !Disjoint(Alloc(s, 1, 100))
  {
    hide NewSpace, OneSymbol, Shaped, Allowed, After, Alloc, Owned, Disjoint, Runs, RunOf;
    FirstGrowth();
    var s := OneSymbol([Region(0, 0)], Region(0, 100));
    NoOps(s);
    OneByOne(NewSpace(), DoAlloc(0, 100), []);
    assert [DoAlloc(0, 100)] + [] == [DoAlloc(0, 100)];
    StepConserves(NewSpace(), DoAlloc(0, 100));
    Full();
    GrowthOverlaps(s, 1, 100);
  }

  lemma Full()
    ensures var s := OneSymbol([Region(0, 0)], Region(0, 100));
            Shaped(s) && !AnyFits(s, 100) && s.live[1] == Region(0, 0) && !RoomAtBreak(s, 1, 100)
  {
    var s := OneSymbol([Region(0, 0)], Region(0, 100));
    assert Has(Grown(s, 100), 0) && Has(s.live[0], 0) && Owned(s, 0);
  }

  // ---- the linked list -----------------------------------------------------------------------------------

  /** struct vm_rg_struct */
  class RgNode {
    var start: nat
    var end: nat
    var next: RgNode?

    constructor (start: nat, end: nat)
      ensures this.start == start && this.end == end && next == null
    {
      this.start, this.end, next := start, end, null;
    }
  }

  /** The node at position `k` of a chain; past its end, none. */
  ghost function NodeAt(nodes: seq<RgNode>, k: nat): RgNode? { if k < |nodes| then nodes[k] else null }

  /** Node `k` of the chain leads to the next one and shows region `k` of the list. */
  ghost predicate NodeOk(nodes: seq<RgNode>, free: seq<Region>, k: nat)
    requires k < |nodes| == |free|
    reads nodes
  {
    nodes[k].next == NodeAt(nodes, k + 1) && free[k] == Region(nodes[k].start, nodes[k].end)
  }

  /** `nodes` are the nodes of the chain from `first`, in order, and `free` their regions. */
  ghost predicate Chained(first: RgNode?, nodes: seq<RgNode>, free: seq<Region>)
    reads nodes
  {
    NoDup(nodes) && first == NodeAt(nodes, 0) && |free| == |nodes| && forall k :: 0 <= k < |nodes| ==>
      NodeOk(nodes, free, k)
  }

  /** The area of a process: vm_freerg_list as a chain of nodes, symrgtbl, and the break. */
  class Area {
    var freeList: RgNode?
    const symrgtbl: array<Region>
    var sbrk: nat
    ghost var nodes: seq<RgNode>
    ghost var space: Space

    /** `nodes` are the nodes of the free list in order, and `space` is what they and the table show. */
    ghost predicate Valid()
      reads this, nodes, symrgtbl
    {
      Chained(freeList, nodes, space.free) && space.live == symrgtbl[..] && space.brk == sbrk && Shaped(space)
    }

    /** As init_mm leaves it: no symbol in use, and one free region, which is empty. */
    constructor ()
      ensures Valid() && space == NewSpace()
      ensures fresh(symrgtbl) && fresh(nodes)
    {
      symrgtbl := new Region[SYMBOLS](_ => Region(0, 0));
      var first := new RgNode(0, 0);
      freeList := first;
      sbrk := 0;
      nodes := [first];
      space := NewSpace();
      new;
      assert NodeOk(nodes, space.free, 0);
    }

    /** enlist_vm_freerg_list */
    method EnlistVmFreergList(element: RgNode) returns (ok: bool)
      requires Valid() && element !in nodes && Bounded(Region(element.start, element.end))
      requires freeList == null ==> element.next == null
      modifies this, element
      ensures Valid() && ok == (element.start < element.end)
      ensures element.start == old(element.start) && element.end == old(element.end)
      ensures space == old(space).(free := space.free)
      ensures space.free == if ok then [Region(element.start, element.end)] + old(space.free) else old(space.free)
      ensures nodes == if ok then [element] + old(nodes) else old(nodes)
    {
      if element.start >= element.end { return false; }
      if freeList != null { element.next := freeList; }
      freeList := element;
      nodes := [element] + nodes;
      space := space.(free := [Region(element.start, element.end)] + space.free);
      forall j | 0 <= j < |nodes| ensures NodeOk(nodes, space.free, j) {
        assert j > 0 ==> old(NodeOk(nodes, space.free, j - 1));
      }
      return true;
    }

    /** The node at position `k` takes over the region and the place of the one after it, which goes. */
    method CloneNext(rgit: RgNode, ghost k: nat)
      requires Valid() && k + 1 < |nodes| && rgit == nodes[k]
      modifies this`nodes, this`space, rgit
      ensures Valid() && nodes == Without(old(nodes), k + 1)
      ensures space == old(space.(free := Without(space.free, k)))
    {
      hide Shaped;
      ghost var was, free := nodes, space.free;
      ShapedWithout(space, k);
      assert NodeOk(was, free, k) && NodeOk(was, free, k + 1);
      var nextrg := rgit.next;
      rgit.start := nextrg.start;
      rgit.end := nextrg.end;
      rgit.next := nextrg.next;
      nodes := Without(was, k + 1);
      space := space.(free := Without(free, k));
      forall j | 0 <= j < |nodes| ensures NodeOk(nodes, space.free, j) {
        assert nodes[j] == if j <= k then was[j] else was[j + 1];
        assert old(NodeOk(was, free, if j <= k then j else j + 1));
      }
    }

    lemma ChainAt(k: nat)
      requires Valid() && k < |nodes|
      ensures |space.free| == |nodes| && NodeOk(nodes, space.free, k) && Bounded(space.free[k])
    {
    }

    /** The node at position `k` now starts at `start`. */
    method SetStart(rgit: RgNode, ghost k: nat, start: nat)
      requires Valid() && k < |nodes| == |space.free| && rgit == nodes[k] && start <= rgit.end
      modifies this`space, rgit`start
      ensures Valid() && space == old(space.(free := space.free[k := Region(start, rgit.end)]))
    {
      ChainAt(k);
      rgit.start := start;
      space := space.(free := space.free[k := Region(start, rgit.end)]);
      forall j | 0 <= j < |nodes| ensures NodeOk(nodes, space.free, j) {
        assert old(NodeOk(nodes, space.free, j));
      }
    }

    /** The last node of the list is left in it with an empty region. */
    method Exhaust(rgit: RgNode, ghost k: nat)
      requires Valid() && k + 1 == |nodes| == |space.free| && rgit == nodes[k]
      modifies this`space, rgit
      ensures Valid() && space == old(space.(free := space.free[k := Region(rgit.end, rgit.end)]))
    {
      ChainAt(k);
      rgit.start := rgit.end;
      rgit.next := null;
      space := space.(free := space.free[k := Region(rgit.end, rgit.end)]);
      forall j | 0 <= j < |nodes| ensures NodeOk(nodes, space.free, j) {
        assert old(NodeOk(nodes, space.free, j));
      }
    }

    /**
     The chosen node `rgit`, at position `k`, gives up `size` bytes: it shrinks, takes over its successor, or goes
     empty.
     */
    method Carve(rgit: RgNode, ghost k: nat, size: nat)
      requires Valid() && Request(size) && k < |nodes| == |space.free| && rgit == nodes[k]
      requires space.free[k] == Region(rgit.start, rgit.end) && rgit.start + size <= rgit.end
      modifies this`nodes, this`space, rgit
      ensures Valid() && space == old(space.(free := Carved(space.free, k, size)))
      ensures forall node :: node in nodes ==> node in old(nodes)
    {
      hide Shaped, Chained;
      ChainAt(k);
      if rgit.start + size < rgit.end {
        SetStart(rgit, k, rgit.start + size);
      } else if rgit.next != null {
        CloneNext(rgit, k);
      } else {
        Exhaust(rgit, k);
      }
    }

    /** get_free_vmrg_area */
    method GetFreeVmrgArea(size: nat) returns (ok: bool, newrg: Region)
      requires Valid() && Request(size)
      modifies this`nodes, this`space, nodes
      ensures Valid() && ok == FirstFit(old(space.free), size).Some?
      ensures !ok ==> space == old(space)
      ensures ok ==>
                var k := FirstFit(old(space.free), size).value;
                && newrg == Region(old(space.free)[k].start, old(space.free)[k].start + size)
                && space == old(space).(free := Carved(old(space.free), k, size))
      ensures forall node :: node in nodes ==> node in old(nodes)
    {
      var rgit := freeList;
      newrg := Region(0, 0);
      if rgit == null { return false, newrg; }
      newrg := Region(WORDS - 1, WORDS - 1);
      ghost var k: nat := 0;
      while rgit != null
        invariant k <= |nodes| && rgit == NodeAt(nodes, k)
        invariant unchanged(this) && unchanged(set node | node in nodes)
        invariant k <= |space.free| && forall j :: 0 <= j < k ==> space.free[j].end < space.free[j].start + size
        invariant newrg == Region(WORDS - 1, WORDS - 1)
        decreases |nodes| - k
      {
        ChainAt(k);
        if Sum64(rgit.start, size) <= rgit.end {
          newrg := Region(rgit.start, Sum64(rgit.start, size));
          assert FirstFit(space.free, size) == Some(k);
          Carve(rgit, k, size);
          break;
        } else {
          rgit := rgit.next;
          k := k + 1;
        }
      }
      ok := newrg.start != WORDS - 1;
    }

    /** __alloc of the area's own id: the address handed out. */
    method AllocRegion(id: nat, size: nat) returns (address: nat)
      requires Valid() && id < SYMBOLS && Request(size)
      modifies this`nodes, this`space, nodes, symrgtbl
      ensures Valid() && space == Alloc(old(space), id, size)
      ensures space.live[id] == Region(address, address + size)
    {
      hide FirstFit, Carved, Chained, Fits, NoDup;
      AllocConserves(space, id, size, 0);
      var ok, newrg := GetFreeVmrgArea(size);
      assert symrgtbl.Length == SYMBOLS && symrgtbl[..] == space.live;
      hide Shaped;
      var oldSbrk := sbrk;
      var region := if ok then newrg else Region(oldSbrk, oldSbrk + size);
      symrgtbl[id] := region;
      space := space.(live := space.live[id := region]);
      assert symrgtbl[..] == space.live;
      return region.start;
    }

    /** __free */
    method FreeRegion(id: int) returns (ok: bool)
      requires Valid() && id != SYMBOLS
      modifies this, symrgtbl
      ensures Valid()
      ensures ok == (0 <= id < SYMBOLS && InUse(old(space), id))
      ensures space == if ok then Free(old(space), id) else old(space)
    {
      if id < 0 || id > SYMBOLS { return false; }
      var rgnode := symrgtbl[id];
      if rgnode.start == 0 && rgnode.end == 0 { return false; }
      var freerg := new RgNode(rgnode.start, rgnode.end);
      symrgtbl[id] := Region(0, 0);
      space := space.(live := space.live[id := Region(0, 0)]);
      var _ := EnlistVmFreergList(freerg);
      return true;
    }
  }
}
