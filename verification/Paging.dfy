/**
 mm64.c itself: the functions that read and change the device, each proved against its specification.
 */
module Paging {
  import opened Prelude
  import opened PageTable
  import opened PageTableUpdate
  import opened MapRam
  import opened PhysicalMemory
  import opened ProcessRuns

  /**
   The paging part of a process: the address of its top directory, and the contents of its list of mapped pages from
   front to back; the list itself is PageList of module FifoPages.
   */
  class MmStruct {
    var pgd: nat
    var fifoPgn: seq<nat>

    constructor ()
      ensures pgd == 0 && fifoPgn == []
    {
      pgd := 0;
      fifoPgn := [];
    }
  }

  // ---- index extraction ----------------------------------------------------------------------------------

  function PgdIndex(addr: nat): nat { addr / 0x1_0000_0000_0000 % FANOUT }
  function P4dIndex(addr: nat): nat { addr / 0x80_0000_0000 % FANOUT }
  function PudIndex(addr: nat): nat { addr / 0x4000_0000 % FANOUT }
  function PmdIndex(addr: nat): nat { addr / 0x20_0000 % FANOUT }
  function PtIndex(addr: nat): nat { addr / 0x1000 % FANOUT }

  /** The address get_pd_from_pagenum makes of a page number: shifted in 64 bits. */
  function PageAddress(pgn: nat): nat { pgn * PAGE % 0x1_0000_0000_0000_0000 }

  /** The five indices of an address are the index bits of its page key, level by level. */
  lemma IndicesOfAddress(root: nat, addr: nat)
    ensures var key := Key(addr / PAGE);
            && PgdIndex(addr) == Way(root, key, 1).Index() && P4dIndex(addr) == Way(root, key, 2).Index()
            && PudIndex(addr) == Way(root, key, 3).Index() && PmdIndex(addr) == Way(root, key, 4).Index()
            && PtIndex(addr) == Way(root, key, 5).Index()
  {
    var p := addr / PAGE;
    hide Key;
    PrefixIndex(p, 1);
    PrefixIndex(p, 2);
    PrefixIndex(p, 3);
    PrefixIndex(p, 4);
    PrefixIndex(p, 5);
    assert addr / 0x1_0000_0000_0000 == p / 0x10_0000_0000;
    assert addr / 0x80_0000_0000 == p / 0x800_0000;
    assert addr / 0x4000_0000 == p / 0x4_0000;
    assert addr / 0x20_0000 == p / 0x200;
  }

  /** Masking a page number to its key loses none of the bits of an index. */
  lemma PrefixIndex(p: nat, level: nat)
    requires 1 <= level <= 5
    ensures Prefix(Key(p), level) % FANOUT == p / Span(level) % FANOUT
  {
    var q, k := p / PAGES, Key(p);
    assert p == q * PAGES + k;
    hide Key;
    if level == 1 {
      LiftedIndex(q, k / 0x10_0000_0000, 0x1);
      assert p / 0x10_0000_0000 == q * 0x1 * FANOUT + k / 0x10_0000_0000;
    } else if level == 2 {
      LiftedIndex(q, k / 0x800_0000, 0x200);
      assert p / 0x800_0000 == q * 0x200 * FANOUT + k / 0x800_0000;
    } else if level == 3 {
      LiftedIndex(q, k / 0x4_0000, 0x4_0000);
      assert p / 0x4_0000 == q * 0x4_0000 * FANOUT + k / 0x4_0000;
    } else if level == 4 {
      LiftedIndex(q, k / 0x200, 0x800_0000);
      assert p / 0x200 == q * 0x800_0000 * FANOUT + k / 0x200;
    } else {
      LiftedIndex(q, k, 0x10_0000_0000);
    }
  }

  lemma LiftedIndex(q: nat, x: nat, n: nat)
    ensures (q * n * FANOUT + x) % FANOUT == x % FANOUT
  {
    var y := q * n;
    assert (y * FANOUT + x) % FANOUT == x % FANOUT;
  }

  lemma DropMultiple(v: nat, q: nat)
    ensures Key(v + q * PAGES) == Key(v)
  {
    DivIs(PAGES, v / PAGES + q, v % PAGES);
  }

  lemma KeyOfPageAddress(pgn: nat)
    ensures Key(PageAddress(pgn) / PAGE) == Key(pgn)
  {
    var w := pgn * PAGE / 0x1_0000_0000_0000_0000;
    var v := pgn - w * 0x10_0000_0000_0000;
    assert PageAddress(pgn) == v * PAGE && v >= 0;
    DivIs(PAGE, v, 0);
    DropMultiple(v, w * 0x80);
  }

  // ---- entries in memory ---------------------------------------------------------------------------------

  function Weight(i: nat): nat
    requires i < 4
  {
    if i == 0 then 1 else if i == 1 then 0x100 else if i == 2 then 0x1_0000 else 0x100_0000
  }

  /** The value of the first `i` bytes of the entry at `a`. */
  ghost function Partial(mem: seq<Byte>, a: nat, i: nat): nat
    requires i <= 4 && a + 4 <= |mem|
  {
    if i == 0 then 0 else Partial(mem, a, i - 1) + mem[a + i - 1] as int * Weight(i - 1)
  }

  lemma PartialWord(mem: seq<Byte>, a: nat)
    requires a + 4 <= |mem|
    ensures Partial(mem, a, 4) == Word(mem, a)
  {
    assert Partial(mem, a, 1) == mem[a] as int;
    assert Partial(mem, a, 2) == mem[a] as int + mem[a + 1] as int * 0x100;
    assert Partial(mem, a, 3) == Partial(mem, a, 2) + mem[a + 2] as int * 0x1_0000;
  }

  /** get_32bit_entry. */
  method Get32BitEntry(base: nat, mp: MemPhy) returns (entry: nat)
    requires mp.Valid() && base + 4 <= mp.maxsz
    ensures entry == Word(mp.storage[..], base)
  {
    entry := 0;
    var i := 0;
    while i < 4
      invariant 0 <= i <= 4 && entry == Partial(mp.storage[..], base, i)
    {
      var byteVal := mp.Read(base + i);
      entry := entry + byteVal as int * Weight(i);
      i := i + 1;
    }
    PartialWord(mp.storage[..], base);
  }

  /** The memory after the first `i` bytes of entry `e` were written at `a`. */
  ghost function Written(mem: seq<Byte>, a: nat, e: nat, i: nat): (r: seq<Byte>)
    requires i <= 4 && a + 4 <= |mem|
    ensures |r| == |mem|
  {
    if i == 0 then mem else Written(mem, a, e, i - 1)[a + i - 1 := e / Weight(i - 1) % 0x100]
  }

  lemma WrittenWord(mem: seq<Byte>, a: nat, e: nat)
    requires a + 4 <= |mem|
    ensures Written(mem, a, e, 4) == PutWord(mem, a, e)
  {
    assert Written(mem, a, e, 1) == mem[a := e % 0x100];
    assert Written(mem, a, e, 2) == Written(mem, a, e, 1)[a + 1 := e / 0x100 % 0x100];
    assert Written(mem, a, e, 3) == Written(mem, a, e, 2)[a + 2 := e / 0x1_0000 % 0x100];
  }

  /** The byte loop that stores an entry. */
  method PutEntry(mp: MemPhy, addr: nat, e: nat)
    requires mp.Valid() && addr + 4 <= mp.maxsz
    modifies mp.storage
    ensures mp.storage[..] == PutWord(old(mp.storage[..]), addr, e)
  {
    var i := 0;
    while i < 4
      invariant 0 <= i <= 4 && mp.storage[..] == Written(old(mp.storage[..]), addr, e, i)
    {
      mp.Write(addr + i, e / Weight(i) % 0x100);
      i := i + 1;
    }
    WrittenWord(old(mp.storage[..]), addr, e);
  }

  // ---- walking the tables --------------------------------------------------------------------------------

  /** A table on the way of a process in well-formed memory lies inside the device. */
  lemma WayBacked(m: PMem, roots: set<nat>, root: nat, key: nat, level: nat)
    requires WellFormed(m, roots, 4) && root in roots && level <= 4 && At(m.mem, Way(root, key, level)).Some?
    ensures Backed(m.mem, At(m.mem, Way(root, key, level)).value)
  {
    assert Live(m.mem, roots, 4, Way(root, key, level));
  }

  /** One step of a walk: the address of the table an entry names, if it is present. */
  method Follow(mp: MemPhy, base: nat, idx: nat, ghost root: nat, ghost key: nat, ghost level: nat)
    returns (ok: bool, next: nat)
    requires mp.Valid() && key < PAGES && 1 <= level <= 5 && idx == Way(root, key, level).Index()
    requires var t := At(mp.storage[..], Way(root, key, level - 1));
             t.Some? && base == t.value * PAGE && Backed(mp.storage[..], t.value)
    ensures ok <==> At(mp.storage[..], Way(root, key, level)).Some?
    ensures ok ==> next == At(mp.storage[..], Way(root, key, level)).value * PAGE
  {
    var entry := Get32BitEntry(base + idx * 4, mp);
    EntOnWay(mp.storage[..], root, key, level);
    ok := Present(entry);
    next := Fpn(entry) * PAGE;
  }

  lemma NothingBelow(mem: seq<Byte>, root: nat, key: nat, level: nat)
    requires key < PAGES && 1 <= level <= 5 && At(mem, Way(root, key, level - 1)).None?
    ensures At(mem, Way(root, key, level)).None? && Ent(mem, Way(root, key, level)) == 0
  {
    WayParent(root, key, level);
  }

  /** The read-only descent shared by translate_address and get_pte_address: the base of the last table. */
  method WalkToTable(mm: MmStruct, mp: MemPhy, addr: nat, ghost root: nat, ghost roots: set<nat>)
      returns (ok: bool, ptBase: nat)
    requires mp.Valid() && mm.pgd == root * PAGE && root in roots && WellFormed(mp.State(), roots, 4)
    ensures var t := At(mp.storage[..], Way(root, Key(addr / PAGE), 4));
            ok == t.Some? && (ok ==> ptBase == t.value * PAGE && Backed(mp.storage[..], t.value))
  {
    ghost var m, key := mp.State(), Key(addr / PAGE);
    hide WellFormed, At, Key, Way;
    IndicesOfAddress(root, addr);
    hide PgdIndex, P4dIndex, PudIndex, PmdIndex, Backed;
    TopOfWay(m.mem, root, key);
    WayBacked(m, roots, root, key, 0);
    ptBase := 0;
    var next: nat;
    ok, next := Follow(mp, mm.pgd, PgdIndex(addr), root, key, 1);
    if !ok {
      NothingBelow(m.mem, root, key, 2);
      NothingBelow(m.mem, root, key, 3);
      NothingBelow(m.mem, root, key, 4);
      return;
    }
    WayBacked(m, roots, root, key, 1);
    ok, next := Follow(mp, next, P4dIndex(addr), root, key, 2);
    if !ok { NothingBelow(m.mem, root, key, 3); NothingBelow(m.mem, root, key, 4); return; }
    WayBacked(m, roots, root, key, 2);
    ok, next := Follow(mp, next, PudIndex(addr), root, key, 3);
    if !ok { NothingBelow(m.mem, root, key, 4); return; }
    WayBacked(m, roots, root, key, 3);
    ok, next := Follow(mp, next, PmdIndex(addr), root, key, 4);
    if !ok { return; }
    WayBacked(m, roots, root, key, 4);
    ptBase := next;
  }

  lemma TopOfWay(mem: seq<Byte>, root: nat, key: nat)
    requires key < PAGES
    ensures At(mem, Way(root, key, 0)) == Some(root)
  {
    WayParent(root, key, 1);
  }

  /** translate_address. */
  method TranslateAddress(mm: MmStruct, mp: MemPhy, vaddr: nat, ghost root: nat, ghost roots: set<nat>)
      returns (ok: bool, paddr: nat)
    requires mp.Valid() && mm.pgd == root * PAGE && root in roots && WellFormed(mp.State(), roots, 4)
    ensures var t := Translate(mp.storage[..], root, vaddr); ok == t.Some? && (ok ==> paddr == t.value)
  {
    ghost var key := Key(vaddr / PAGE);
    var ptBase;
    ok, ptBase := WalkToTable(mm, mp, vaddr, root, roots);
    hide WellFormed, At, Key;
    IndicesOfAddress(root, vaddr);
    paddr := 0;
    if !ok { NothingBelow(mp.storage[..], root, key, 5); return; }
    var pageBase;
    ok, pageBase := Follow(mp, ptBase, PtIndex(vaddr), root, key, 5);
    paddr := pageBase + vaddr % PAGE;
  }

  /** get_pte_address: where the entry of a page is stored. */
  method GetPteAddress(mm: MmStruct, mp: MemPhy, pgn: nat, ghost root: nat, ghost roots: set<nat>)
      returns (ok: bool, pteAddr: nat)
    requires mp.Valid() && mm.pgd == root * PAGE && root in roots && WellFormed(mp.State(), roots, 4)
    ensures var t := At(mp.storage[..], Way(root, Key(pgn), 4));
            && ok == t.Some?
            && (ok ==> pteAddr == t.value * PAGE + Page(root, pgn).Index() * 4 && Backed(mp.storage[..], t.value))
  {
    var addr := PageAddress(pgn);
    KeyOfPageAddress(pgn);
    IndicesOfAddress(root, addr);
    hide WellFormed, At, Key, PageAddress;
    var ptBase;
    ok, ptBase := WalkToTable(mm, mp, addr, root, roots);
    pteAddr := ptBase + PtIndex(addr) * 4;
  }

  /** pte_get_entry. */
  method PteGetEntry(mm: MmStruct, mp: MemPhy, pgn: nat, ghost root: nat, ghost roots: set<nat>) returns (pte: nat)
    requires mp.Valid() && mm.pgd == root * PAGE && root in roots && WellFormed(mp.State(), roots, 4)
    ensures pte == Ent(mp.storage[..], Page(root, pgn))
  {
    ghost var key := Key(pgn);
    var ok, pteAddr := GetPteAddress(mm, mp, pgn, root, roots);
    hide WellFormed, At, Key;
    if !ok {
      NothingBelow(mp.storage[..], root, key, 5);
      return 0;
    }
    EntOnWay(mp.storage[..], root, key, 5);
    pte := Get32BitEntry(pteAddr, mp);
  }

  /** pte_set_entry: the entry takes the value where its table exists, and nothing else changes. */
  method PteSetEntry(mm: MmStruct, mp: MemPhy, pgn: nat, pteVal: nat, ghost root: nat, ghost roots: set<nat>)
      returns (ok: bool)
    requires mp.Valid() && mm.pgd == root * PAGE && root in roots && WellFormed(mp.State(), roots, 4)
    requires pteVal < WORD
    modifies mp.storage
    ensures ok == At(old(mp.storage[..]), Way(root, Key(pgn), 4)).Some?
    ensures !ok ==> mp.storage[..] == old(mp.storage[..])
    ensures ok ==> OnlyPage(old(mp.storage[..]), mp.storage[..], roots, Page(root, pgn), pteVal)
    ensures WellFormed(mp.State(), roots, 4)
  {
    var pteAddr;
    ok, pteAddr := GetPteAddress(mm, mp, pgn, root, roots);
    if ok {
      ghost var m, f := mp.State(), At(mp.storage[..], Way(root, Key(pgn), 4)).value;
      assert Live(m.mem, roots, 4, Way(root, Key(pgn), 4));
      hide WellFormed, At, Ent, Key;
      PageWritten(m, roots, root, pgn, f, pteVal);
      PutEntry(mp, pteAddr, pteVal);
      PageWrittenWellFormed(m, roots, 4, Page(root, pgn), f, pteVal);
    }
  }

  // ---- changing the tables -------------------------------------------------------------------------------

  /** Follow an entry, or take a free frame and record it as a table. */
  method EnsureTableAt(mp: MemPhy, base: nat, idx: nat, ghost f: nat) returns (ok: bool, next: nat)
    requires mp.Valid() && idx < FANOUT && base == f * PAGE && Backed(mp.storage[..], f)
    modifies mp.storage, mp`freeFpList
    ensures var (m', t) := EnsureTable(old(mp.State()), f, idx);
            mp.State() == m' && ok == t.Some? && (ok ==> next == t.value * PAGE)
  {
    var entry := Get32BitEntry(base + idx * 4, mp);
    if !Present(entry) {
      var fpn;
      ok, fpn := mp.GetFreeFp();
      next := 0;
      if !ok { return; }
      entry := 0;
      entry := SetPresent(entry);
      entry := SetFrame(entry, fpn);
      PutEntry(mp, base + idx * 4, entry);
    }
    ok, next := true, Fpn(entry) * PAGE;
  }

  /** One level of pte_set_fpn, as a step of the descent from memory `m`. */
  method DescendOne(mp: MemPhy, base: nat, idx: nat, ghost m: PMem, ghost root: nat, ghost roots: set<nat>,
                    ghost key: nat, ghost level: nat, ghost a: nat, ghost b: nat)
    returns (ok: bool, next: nat)
    requires mp.Valid() && WellFormed(m, roots, 4) && root in roots && 1 <= level <= 4
    requires a <= key < b <= PAGES && FramesReady(m, root, a, b) && idx == Way(root, key, level).Index()
    requires var (m1, t) := Descend(m, root, key, level - 1); mp.State() == m1 && t.Some? && base == t.value * PAGE
    modifies mp.storage, mp`freeFpList
    ensures var (m', t) := Descend(m, root, key, level);
            mp.State() == m' && ok == t.Some? && (ok ==> next == t.value * PAGE)
  {
    DescendGrows(m, roots, 4, root, key, level - 1, a, b);
    ghost var f := Descend(m, root, key, level - 1).1.value;
    WayBacked(mp.State(), roots, root, key, level - 1);
    hide WellFormed, At, Way, FramesReady, EnsureTable, Descended, Backed;
    ok, next := EnsureTableAt(mp, base, idx, f);
    assert Descend(m, root, key, level) == EnsureTable(Descend(m, root, key, level - 1).0, f, idx);
  }

  lemma DescentStops(m: PMem, root: nat, key: nat, level: nat)
    requires 1 <= level <= 4 && Descend(m, root, key, level).1.None?
    ensures Descend(m, root, key, 4) == Descend(m, root, key, level)
    decreases 4 - level
  {
    if level < 4 {
      assert Descend(m, root, key, level + 1) == Descend(m, root, key, level);
      DescentStops(m, root, key, level + 1);
    }
  }

  /** The first four levels of pte_set_fpn. */
  method MakeTables(mm: MmStruct, mp: MemPhy, addr: nat, ghost root: nat, ghost roots: set<nat>, ghost a: nat,
                    ghost b: nat)
    returns (ok: bool, ptBase: nat)
    requires mp.Valid() && mm.pgd == root * PAGE && root in roots && WellFormed(mp.State(), roots, 4)
    requires a <= Key(addr / PAGE) < b <= PAGES && FramesReady(mp.State(), root, a, b)
    modifies mp.storage, mp`freeFpList
    ensures var (m', t) := Descend(old(mp.State()), root, Key(addr / PAGE), 4);
            mp.State() == m' && ok == t.Some? && (ok ==> ptBase == t.value * PAGE)
  {
    ghost var m, key := mp.State(), Key(addr / PAGE);
    IndicesOfAddress(root, addr);
    assert Descend(m, root, key, 0) == (m, Some(root));
    hide WellFormed, At, Way, PgdIndex, P4dIndex, PudIndex, PmdIndex, FramesReady, Descend;
    ok, ptBase := DescendOne(mp, mm.pgd, PgdIndex(addr), m, root, roots, key, 1, a, b);
    if !ok { DescentStops(m, root, key, 1); return; }
    ok, ptBase := DescendOne(mp, ptBase, P4dIndex(addr), m, root, roots, key, 2, a, b);
    if !ok { DescentStops(m, root, key, 2); return; }
    ok, ptBase := DescendOne(mp, ptBase, PudIndex(addr), m, root, roots, key, 3, a, b);
    if !ok { DescentStops(m, root, key, 3); return; }
    ok, ptBase := DescendOne(mp, ptBase, PmdIndex(addr), m, root, roots, key, 4, a, b);
  }

  /** pte_set_fpn. The window `a..b` of page keys says which missing tables the free frames must be able to become. */
  method SetFpn(mm: MmStruct, mp: MemPhy, pgn: nat, fpn: nat, ghost root: nat, ghost roots: set<nat>, ghost a: nat,
                ghost b: nat)
    returns (ok: bool)
    requires mp.Valid() && mm.pgd == root * PAGE && root in roots && WellFormed(mp.State(), roots, 4)
    requires a <= Key(pgn) < b <= PAGES && FramesReady(mp.State(), root, a, b)
    modifies mp.storage, mp`freeFpList
    ensures (mp.State(), ok) == PteSetFpn(old(mp.State()), root, pgn, fpn)
  {
    ghost var m, key := mp.State(), Key(pgn);
    var addr := PageAddress(pgn);
    KeyOfPageAddress(pgn);
    IndicesOfAddress(root, addr);
    SetFpnByParts(m, roots, root, pgn, fpn, a, b);
    hide WellFormed, At, Way, PageAddress, PtIndex, FramesReady;
    hide Descend, OnlineEntry, Key, PutSlot, Slot, PteSetFpn, Backed;
    var ptBase;
    ok, ptBase := MakeTables(mm, mp, addr, root, roots, a, b);
    if ok {
      ok := SetOnline(mp, ptBase, PtIndex(addr), fpn, Descend(m, root, key, 4).1.value);
    }
  }

  /** The specification of pte_set_fpn taken apart at the last table, which lies inside the device. */
  lemma SetFpnByParts(m: PMem, roots: set<nat>, root: nat, pgn: nat, fpn: nat, a: nat, b: nat)
    requires WellFormed(m, roots, 4) && root in roots
    requires a <= Key(pgn) < b <= PAGES && FramesReady(m, root, a, b)
    ensures var (m1, t) := Descend(m, root, Key(pgn), 4); var i := Way(root, Key(pgn), 5).Index();
            if t.Some? then
              && Backed(m1.mem, t.value)
              && PteSetFpn(m, root, pgn, fpn) ==
                 (PMem(PutSlot(m1.mem, t.value, i, OnlineEntry(Slot(m1.mem, t.value, i), fpn)), m1.free), true)
            else PteSetFpn(m, root, pgn, fpn) == (m1, false)
  {
    hide WellFormed, At, FramesReady, Missing, Backed, EnsureTable;
    DescendGrows(m, roots, 4, root, Key(pgn), 4, a, b);
    var r := Descend(m, root, Key(pgn), 4);
    if r.1.Some? {
      WayBacked(r.0, roots, root, Key(pgn), 4);
    }
  }

  /** The last level of pte_set_fpn: the entry becomes present, not swapped, and names the frame. */
  method SetOnline(mp: MemPhy, ptBase: nat, idx: nat, fpn: nat, ghost f: nat) returns (ok: bool)
    requires mp.Valid() && idx < FANOUT && ptBase == f * PAGE && Backed(mp.storage[..], f)
    modifies mp.storage
    ensures ok && mp.storage[..] ==
            PutSlot(old(mp.storage[..]), f, idx, OnlineEntry(Slot(old(mp.storage[..]), f, idx), fpn))
  {
    var pteAddr := ptBase + idx * 4;
    var pte := Get32BitEntry(pteAddr, mp);
    pte := SetPresent(pte);
    pte := ClearSwapped(pte);
    pte := SetFrame(pte, fpn);
    PutEntry(mp, pteAddr, pte);
    ok := true;
  }


  // ---- mapping ranges ------------------------------------------------------------------------------------

  /** alloc_pages_range: the frame list is built at its tail; the count may fall short of the request. */
  method AllocPagesRange(mp: MemPhy, reqPgnum: int) returns (count: int, frames: seq<nat>)
    modifies mp`freeFpList
    ensures (mp.State(), frames) == AllocPages(old(mp.State()), reqPgnum)
    ensures count == if reqPgnum < 0 then reqPgnum else |frames|
  {
    frames := [];
    var pgit := 0;
    while pgit < reqPgnum
      invariant 0 <= pgit == |frames| && (reqPgnum >= 0 ==> pgit <= reqPgnum) && (reqPgnum < 0 ==> pgit == 0)
      invariant old(mp.freeFpList) == frames + mp.freeFpList
      invariant mp.storage[..] == old(mp.storage[..])
    {
      var ok, fpn := mp.GetFreeFp();
      if !ok {
        return pgit, frames;
      }
      frames := frames + [fpn];
      pgit := pgit + 1;
    }
    return reqPgnum, frames;
  }

  /** free_frame_list. */
  method FreeFrameList(mp: MemPhy, frames: seq<nat>)
    modifies mp`freeFpList
    ensures mp.State() == FreeFrames(old(mp.State()), frames)
  {
    var curr := frames;
    while curr != []
      invariant FreeFrames(mp.State(), curr) == FreeFrames(old(mp.State()), frames)
      decreases |curr|
    {
      mp.PutFreeFp(curr[0]);
      curr := curr[1..];
    }
  }

  /** One page of a window set: the form of memory and the table frames ready for the rest of the window. */
  lemma StillReady(m: PMem, roots: set<nat>, root: nat, pgn: nat, fpn: nat, a: nat, b: nat)
    requires WellFormed(m, roots, 4) && root in roots
    requires a <= Key(pgn) < b <= PAGES && FramesReady(m, root, a, b)
    ensures var m' := PteSetFpn(m, root, pgn, fpn).0; WellFormed(m', roots, 4) && FramesReady(m', root, a, b)
  {
    SetFpnInWindow(m, roots, 4, root, pgn, fpn, a, b);
    BalancedReady(m, PteSetFpn(m, root, pgn, fpn).0, root, a, b);
  }

  lemma KeyAhead(pgn: nat, i: nat)
    requires Key(pgn) + i < PAGES
    ensures Key(pgn + i) == Key(pgn) + i
  {
    assert pgn + i == pgn / PAGES * PAGES + (Key(pgn) + i);
  }

  /** The bounds of the region a mapping reports. */
  datatype Range = Range(start: nat, end: nat)

  /** vmap_page_range. */
  method VmapPageRange(mm: MmStruct, mp: MemPhy, addr: nat, pgnum: nat, frames: seq<nat>, ghost root: nat,
                       ghost roots: set<nat>)
    returns (mapped: nat, retRg: Range)
    requires mp.Valid() && mm.pgd == root * PAGE && root in roots && WellFormed(mp.State(), roots, 4)
    requires pgnum > 0 ==> Key(addr / PAGE) + pgnum <= PAGES &&
                           FramesReady(mp.State(), root, Key(addr / PAGE), Key(addr / PAGE) + pgnum)
    modifies mp.storage, mp`freeFpList, mm`fifoPgn
    ensures Mapped(mp.State(), mapped, mm.fifoPgn) ==
            VmapPages(old(mp.State()), root, addr / PAGE, pgnum, frames, old(mm.fifoPgn))
    ensures retRg == Range(addr, addr + (if mapped < Min(pgnum, |frames|) then mapped else pgnum) * PAGE)
  {
    hide WellFormed, FramesReady, Key, PteSetFpn, VmapPages, Ahead;
    var startPgn := addr / PAGE;
    ghost var m, fifo, a, b := mp.State(), mm.fifoPgn, Key(startPgn), Key(startPgn) + pgnum;
    ghost var whole := VmapPages(m, root, startPgn, pgnum, frames, fifo);
    retRg := Range(addr, addr + pgnum * PAGE);
    var fpit := frames;
    var pgit := 0;
    AheadStart(m, root, startPgn, pgnum, frames, fifo);
    while pgit < pgnum && fpit != []
      invariant 0 <= pgit <= pgnum && pgit <= |frames| && fpit == frames[pgit..]
      invariant mm.pgd == root * PAGE && mp.Valid() && mp.storage == old(mp.storage)
      invariant WellFormed(mp.State(), roots, 4) && (pgnum > 0 ==> FramesReady(mp.State(), root, a, b))
      invariant whole == Ahead(mp.State(), root, startPgn, pgnum, frames, mm.fifoPgn, pgit)
    {
      var pgn := startPgn + pgit;
      KeyAhead(startPgn, pgit);
      ghost var m1 := mp.State();
      AheadStep(m1, root, startPgn, pgnum, frames, mm.fifoPgn, pgit);
      StillReady(m1, roots, root, pgn, fpit[0], a, b);
      var ok := SetFpn(mm, mp, pgn, fpit[0], root, roots, a, b);
      if !ok {
        retRg := Range(addr, addr + pgit * PAGE);
        mapped := pgit;
        return;
      }
      mm.fifoPgn := [pgn] + mm.fifoPgn;
      fpit := fpit[1..];
      pgit := pgit + 1;
    }
    AheadDone(mp.State(), root, startPgn, pgnum, frames, mm.fifoPgn, pgit);
    mapped := pgit;
  }

  /** What vmap_page_range will have done in the end, seen from after its first `i` pages. */
  ghost function Ahead(m: PMem, root: nat, pgn: nat, pgnum: nat, frames: seq<nat>, fifo: seq<nat>, i: nat): Mapped
    requires i <= pgnum && i <= |frames|
  {
    var r := VmapPages(m, root, pgn + i, pgnum - i, frames[i..], fifo);
    r.(count := r.count + i)
  }

  lemma AheadStart(m: PMem, root: nat, pgn: nat, pgnum: nat, frames: seq<nat>, fifo: seq<nat>)
    ensures Ahead(m, root, pgn, pgnum, frames, fifo, 0) == VmapPages(m, root, pgn, pgnum, frames, fifo)
  {
    assert frames[0..] == frames;
  }

  lemma AheadStep(m: PMem, root: nat, pgn: nat, pgnum: nat, frames: seq<nat>, fifo: seq<nat>, i: nat)
    requires i < pgnum && i < |frames|
    ensures var s := PteSetFpn(m, root, pgn + i, frames[i]);
            Ahead(m, root, pgn, pgnum, frames, fifo, i) ==
            if s.1 then Ahead(s.0, root, pgn, pgnum, frames, [pgn + i] + fifo, i + 1) else Mapped(s.0, i, fifo)
  {
    hide PteSetFpn;
    assert frames[i..][0] == frames[i] && frames[i..][1..] == frames[i + 1..];
  }

  lemma AheadDone(m: PMem, root: nat, pgn: nat, pgnum: nat, frames: seq<nat>, fifo: seq<nat>, i: nat)
    requires i <= pgnum && i <= |frames| && (i == pgnum || i == |frames|)
    ensures Ahead(m, root, pgn, pgnum, frames, fifo, i) == Mapped(m, i, fifo)
  {
  }

  lemma FewerFree(m: PMem, roots: set<nat>, n: nat)
    requires WellFormed(m, roots, 4) && n <= |m.free|
    ensures WellFormed(PMem(m.mem, m.free[n..]), roots, 4)
  {
    forall x | Live(m.mem, roots, 4, x) ensures At(m.mem, x).value !in m.free[n..] {}
  }

  /** How many pages vm_map_ram enters, if it comes to entering any. */
  function PagesDoneOf(m: PMem, root: nat, mapstart: nat, incpgnum: int, fifo: seq<nat>): Option<nat>
  {
    if 0 <= incpgnum <= |m.free| then Some(PagesDone(m, root, mapstart, incpgnum, fifo)) else None
  }

  /** vm_map_ram; `rg` is what ret_rg held before. */
  method MapRamRange(mm: MmStruct, mp: MemPhy, mapstart: nat, incpgnum: int, rg: Range, ghost root: nat,
                     ghost roots: set<nat>)
    returns (ok: bool, retRg: Range)
    requires mp.Valid() && mm.pgd == root * PAGE && root in roots && WellFormed(mp.State(), roots, 4)
    requires incpgnum > 0 ==>
               Key(mapstart / PAGE) + incpgnum <= PAGES && TablesReady(mp.State(), root, Key(mapstart / PAGE), incpgnum)
    modifies mp.storage, mp`freeFpList, mm`fifoPgn
    ensures MapResult(mp.State(), mm.fifoPgn, ok) ==
            VmMapRam(old(mp.State()), root, mapstart, incpgnum, old(mm.fifoPgn))
    ensures var n := PagesDoneOf(old(mp.State()), root, mapstart, incpgnum, old(mm.fifoPgn));
            retRg == if n.Some? then Range(mapstart, mapstart + n.value * PAGE) else rg
  {
    ghost var m, fifo := mp.State(), mm.fifoPgn;
    retRg := rg;
    var retAlloc, frames := AllocPagesRange(mp, incpgnum);
    if retAlloc < 0 {
      return false, retRg;
    }
    if retAlloc < incpgnum {
      FreeFrameList(mp, frames);
      return false, retRg;
    }
    FewerFree(m, roots, incpgnum);
    assert incpgnum > 0 ==>
           FramesReady(PMem(m.mem, m.free[incpgnum..]), root, Key(mapstart / PAGE), Key(mapstart / PAGE) + incpgnum);
    hide WellFormed, FramesReady, TablesReady, Key, VmapPages, FreeFrames;
    VmapAtMost(PMem(m.mem, m.free[incpgnum..]), root, mapstart / PAGE, incpgnum, frames, fifo);
    var mapped;
    mapped, retRg := VmapPageRange(mm, mp, mapstart, incpgnum, frames, root, roots);
    if mapped < incpgnum {
      FreeFrameList(mp, frames);
      return false, retRg;
    }
    return true, retRg;
  }

  /** The paging part of init_mm: a frame for the top directory, cleared byte by byte, and an empty page list. */
  method InitMm(mm: MmStruct, mp: MemPhy) returns (ok: bool)
    requires mp.Valid() && (mp.freeFpList != [] ==> Backed(mp.storage[..], mp.freeFpList[0]))
    modifies mp.storage, mp`freeFpList, mm
    ensures var (m', g) := NewDirectory(old(mp.State()));
            && mp.State() == m' && ok == g.Some?
            && (ok ==> mm.pgd == g.value * PAGE && mm.fifoPgn == [])
            && (!ok ==> mm.pgd == old(mm.pgd) && mm.fifoPgn == old(mm.fifoPgn))
  {
    ghost var mem := mp.storage[..];
    var pgdFpn;
    ok, pgdFpn := mp.GetFreeFp();
    if !ok {
      return;
    }
    mm.pgd := pgdFpn * PAGE;
    var pgdBase := mm.pgd;
    var i := 0;
    while i < PAGE
      invariant 0 <= i <= PAGE && mm.pgd == pgdBase == pgdFpn * PAGE && mp.Valid() && mp.storage == old(mp.storage)
      invariant mp.freeFpList == old(mp.freeFpList)[1..]
      invariant forall a :: 0 <= a < |mem| ==> mp.storage[..][a] == if pgdBase <= a < pgdBase + i then 0 else mem[a]
    {
      mp.Write(pgdBase + i, 0);
      i := i + 1;
    }
    assert mp.storage[..] == ZeroOut(mem, pgdFpn);
    mm.fifoPgn := [];
  }
}
