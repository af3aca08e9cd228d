/**
 The memory device of mm-memphy.c: a byte array with a list of free frames, and page copies between devices.
 */
module PhysicalMemory {
  import opened Prelude
  import opened PageTable

  const CELLS := 256   // PAGING_PAGESZ: the unit MEMPHY_format counts and __swap_cp_page copies

  function UpTo(n: nat): (s: seq<nat>)
    ensures |s| == n && forall i :: 0 <= i < n ==> s[i] == i
  {
    seq(n, i => i)
  }

  /** A random-access device. */
  class MemPhy {
    var storage: array<Byte>
    var maxsz: nat
    var freeFpList: seq<nat>

    ghost predicate Valid() reads this { storage.Length == maxsz }

    /** What the page-table functions speak of. */
    ghost function State(): PMem reads this, storage { PMem(storage[..], freeFpList) }

    /** init_memphy: all bytes zero, every frame number free. A single frame leaves the list without an end. */
    constructor (maxSize: nat)
      requires maxSize / CELLS >= 2
      ensures Valid() && fresh(storage) && maxsz == maxSize
      ensures State() == PMem(seq(maxSize, _ => 0), UpTo(maxSize / CELLS))
    {
      storage := new Byte[maxSize](_ => 0);
      maxsz := maxSize;
      freeFpList := [];
      new;
      var formatted := Format(CELLS);
      assert storage[..] == seq(maxSize, _ => 0);
    }

    method Format(pagesz: nat) returns (ok: bool)
      requires Valid() && pagesz > 0 && maxsz / pagesz != 1
      modifies this`freeFpList
      ensures ok == (maxsz / pagesz > 0)
      ensures freeFpList == if ok then UpTo(maxsz / pagesz) else old(freeFpList)
    {
      var numfp := maxsz / pagesz;
      if numfp <= 0 {
        return false;
      }
      var list := [0];
      var iter := 1;
      while iter < numfp
        invariant 1 <= iter <= numfp && list == UpTo(iter)
      {
        list := list + [iter];
        iter := iter + 1;
      }
      freeFpList := list;
      return true;
    }

    method Read(addr: nat) returns (value: Byte)
      requires Valid() && addr < maxsz
      ensures value == storage[addr]
    {
      value := storage[addr];
    }

    method Write(addr: nat, data: Byte)
      requires Valid() && addr < maxsz
      modifies storage
      ensures storage[..] == old(storage[..])[addr := data]
    {
      storage[addr] := data;
    }

    method GetFreeFp() returns (ok: bool, fpn: nat)
      modifies this`freeFpList
      ensures ok == (old(freeFpList) != [])
      ensures ok ==> old(freeFpList) == [fpn] + freeFpList
      ensures !ok ==> freeFpList == old(freeFpList)
    {
      if freeFpList == [] {
        return false, 0;
      }
      fpn := freeFpList[0];
      freeFpList := freeFpList[1..];
      return true, fpn;
    }

    method PutFreeFp(fpn: nat)
      modifies this`freeFpList
      ensures freeFpList == [fpn] + old(freeFpList)
    {
      freeFpList := [fpn] + freeFpList;
    }
  }

  // ---- frames are conserved ------------------------------------------------------------------------------

  datatype FrameOp = Get | Put(fpn: nat)

  /** The free list, and the frames that have been handed out and not yet returned. */
  datatype Pool = Pool(free: seq<nat>, out: set<nat>)

  function PoolStep(p: Pool, op: FrameOp): Pool
  {
    match op
    case Get => if p.free == [] then p else Pool(p.free[1..], p.out + {p.free[0]})
    case Put(f) => Pool([f] + p.free, p.out - {f})
  }

  /** Every frame returned in the run was out when it was returned. */
  predicate ReturnsOwn(p: Pool, ops: seq<FrameOp>)
    decreases |ops|
  {
    ops == [] || ((ops[0].Put? ==> ops[0].fpn in p.out) && ReturnsOwn(PoolStep(p, ops[0]), ops[1..]))
  }

  function PoolRun(p: Pool, ops: seq<FrameOp>): Pool
    decreases |ops|
  {
    if ops == [] then p else PoolRun(PoolStep(p, ops[0]), ops[1..])
  }

  /** Each of the frames 0 to n-1 is once on the free list or handed out, and no other number is either. */
  ghost predicate Partitioned(p: Pool, n: nat)
  {
    && NoDup(p.free)
    && (forall f :: f in p.free ==> f !in p.out)
    && (forall f :: f in p.free || f in p.out <==> 0 <= f < n)
  }

  /** Over any run of gets and of returns of frames handed out, no frame is lost, doubled or invented. */
  lemma {:induction false} FramesConserved(p: Pool, ops: seq<FrameOp>, n: nat)
    requires Partitioned(p, n) && ReturnsOwn(p, ops)
    ensures Partitioned(PoolRun(p, ops), n)
    decreases |ops|
  {
    if ops == [] {
    } else {
      var p1 := PoolStep(p, ops[0]);
      if ops[0].Get? && p.free != [] {
        assert p.free == [p.free[0]] + p1.free;
      }
      assert forall f :: f in p1.free || f in p1.out <==> f in p.free || f in p.out;
      FramesConserved(p1, ops[1..], n);
    }
  }

  /** The list init_memphy makes, with nothing handed out, is such a partition; its frames lie in the device. */
  lemma FreshPool(maxsz: nat, ops: seq<FrameOp>, f: nat)
    requires ReturnsOwn(Pool(UpTo(maxsz / CELLS), {}), ops)
    ensures var p := PoolRun(Pool(UpTo(maxsz / CELLS), {}), ops);
            Partitioned(p, maxsz / CELLS) && (f in p.out ==> (f + 1) * CELLS <= maxsz)
  {
    var n := maxsz / CELLS;
    forall f | 0 <= f < n ensures f in UpTo(n) { assert UpTo(n)[f] == f; }
    FramesConserved(Pool(UpTo(n), {}), ops, n);
  }

  // ---- copying pages between devices ---------------------------------------------------------------------

  /** `dst` with its frame `df` replaced by frame `sf` of `src`. */
  function CopyFrame(src: seq<Byte>, sf: nat, dst: seq<Byte>, df: nat): (r: seq<Byte>)
    requires (sf + 1) * CELLS <= |src| && (df + 1) * CELLS <= |dst|
    ensures |r| == |dst|
  {
    dst[..df * CELLS] + src[sf * CELLS..(sf + 1) * CELLS] + dst[(df + 1) * CELLS..]
  }

  /** __swap_cp_page, cell by cell; source and destination may be one device. */
  method SwapCpPage(mpsrc: MemPhy, srcfpn: nat, mpdst: MemPhy, dstfpn: nat)
    requires mpsrc.Valid() && mpdst.Valid()
    requires (srcfpn + 1) * CELLS <= mpsrc.maxsz && (dstfpn + 1) * CELLS <= mpdst.maxsz
    modifies mpdst.storage
    ensures mpdst.storage[..] == CopyFrame(old(mpsrc.storage[..]), srcfpn, old(mpdst.storage[..]), dstfpn)
    ensures forall a :: 0 <= a < mpdst.maxsz ==>
              mpdst.storage[a] ==
              if dstfpn * CELLS <= a < (dstfpn + 1) * CELLS
              then old(mpsrc.storage[..])[srcfpn * CELLS + a - dstfpn * CELLS]
              else old(mpdst.storage[..])[a]
  {
    ghost var src, dst := mpsrc.storage[..], mpdst.storage[..];
    var cellidx := 0;
    while cellidx < CELLS
      invariant 0 <= cellidx <= CELLS
      invariant forall a :: 0 <= a < mpdst.maxsz ==>
                mpdst.storage[a] == CopiedCell(src, srcfpn, dst, dstfpn, cellidx, a)
      invariant mpsrc.storage != mpdst.storage ==> mpsrc.storage[..] == src
    {
      var data := mpsrc.Read(srcfpn * CELLS + cellidx);
      assert srcfpn * CELLS + cellidx < dstfpn * CELLS || srcfpn * CELLS + cellidx >= dstfpn * CELLS + cellidx;
      label before:
      mpdst.Write(dstfpn * CELLS + cellidx, data);
      assert forall a :: 0 <= a < mpdst.maxsz && a != dstfpn * CELLS + cellidx ==>
             mpdst.storage[..][a] == old@before(mpdst.storage[..])[a];
      assert mpdst.storage[..][dstfpn * CELLS + cellidx] == data;
      cellidx := cellidx + 1;
    }
    assert mpdst.storage[..] == CopyFrame(src, srcfpn, dst, dstfpn);
  }

  /** Cell `a` of the destination after the first `n` cells were copied. */
  ghost function CopiedCell(src: seq<Byte>, sf: nat, dst: seq<Byte>, df: nat, n: nat, a: nat): Byte
    requires n <= CELLS && (sf + 1) * CELLS <= |src| && a < |dst|
  {
    if df * CELLS <= a < df * CELLS + n then src[a - df * CELLS + sf * CELLS] else dst[a]
  }

  /**
   Copying a frame out to a swap device and later back, into any frame of the memory as it has become, restores
   its bytes there, if the swap frame was left alone; no byte outside the destination frames changes.
   */
  lemma SwapRoundTrip(ram: seq<Byte>, f: nat, swp: seq<Byte>, sf: nat, swp': seq<Byte>, ram': seq<Byte>, g: nat)
    requires (f + 1) * CELLS <= |ram| && (sf + 1) * CELLS <= |swp| && (g + 1) * CELLS <= |ram'|
    requires |swp'| == |swp|
    requires swp'[sf * CELLS..(sf + 1) * CELLS] == CopyFrame(ram, f, swp, sf)[sf * CELLS..(sf + 1) * CELLS]
    ensures var back := CopyFrame(swp', sf, ram', g);
            && back[g * CELLS..(g + 1) * CELLS] == ram[f * CELLS..(f + 1) * CELLS]
            && (forall a :: 0 <= a < |ram'| && !(g * CELLS <= a < (g + 1) * CELLS) ==> back[a] == ram'[a])
    ensures forall a :: 0 <= a < |swp| && !(sf * CELLS <= a < (sf + 1) * CELLS) ==>
            CopyFrame(ram, f, swp, sf)[a] == swp[a]
    ensures ram' == ram && g == f ==> CopyFrame(swp', sf, ram', g) == ram
  {
    var out := CopyFrame(ram, f, swp, sf);
    assert out[sf * CELLS..(sf + 1) * CELLS] == ram[f * CELLS..(f + 1) * CELLS];
    var back := CopyFrame(swp', sf, ram', g);
    assert back[g * CELLS..(g + 1) * CELLS] == swp'[sf * CELLS..(sf + 1) * CELLS];
    if ram' == ram && g == f {
      assert ram == ram[..f * CELLS] + ram[f * CELLS..(f + 1) * CELLS] + ram[(f + 1) * CELLS..];
    }
  }
}
