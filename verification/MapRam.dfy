/**
 Mapping a range of pages: alloc_pages_range, vmap_page_range, free_frame_list and vm_map_ram of mm64.c as
 functions on memory, when they succeed, and what they keep.
 */
module MapRam {
  import opened Prelude
  import opened PageTable
  import opened PageTableUpdate

  /** Memory with the process's list of mapped pages, newest first. */
  datatype Mapped = Mapped(m: PMem, count: nat, fifo: seq<nat>)

  datatype MapResult = MapResult(m: PMem, fifo: seq<nat>, ok: bool)

  function Min(a: int, b: int): int { if a < b then a else b }

  /** alloc_pages_range: frames from the head of the free list, as many as are asked for and there are. */
  function AllocPages(m: PMem, req: int): (r: (PMem, seq<nat>))
    ensures r.1 + r.0.free == m.free && r.0.mem == m.mem
    ensures |r.1| == if req <= 0 then 0 else Min(req, |m.free|)
  {
    var n := if req <= 0 then 0 else Min(req, |m.free|);
    (PMem(m.mem, m.free[n..]), m.free[..n])
  }

  function PutFree(m: PMem, f: nat): PMem { PMem(m.mem, [f] + m.free) }

  /** free_frame_list: each frame in turn goes to the head of the free list. */
  function FreeFrames(m: PMem, frames: seq<nat>): PMem
    decreases |frames|
  {
    if frames == [] then m else FreeFrames(PutFree(m, frames[0]), frames[1..])
  }

  /** vmap_page_range: consecutive pages take the frames in order until one page lacks a table. */
  function VmapPages(m: PMem, root: nat, pgn: nat, pgnum: int, frames: seq<nat>, fifo: seq<nat>): Mapped
    decreases |frames|
  {
    if pgnum <= 0 || frames == [] then Mapped(m, 0, fifo)
    else
      var (m1, ok) := PteSetFpn(m, root, pgn, frames[0]);
      if !ok then Mapped(m1, 0, fifo)
      else
        var r := VmapPages(m1, root, pgn + 1, pgnum - 1, frames[1..], [pgn] + fifo);
        r.(count := r.count + 1)
  }

  /** vm_map_ram. */
  function VmMapRam(m: PMem, root: nat, mapstart: nat, incpgnum: int, fifo: seq<nat>): MapResult
  {
    if incpgnum < 0 then MapResult(m, fifo, false)
    else
      var (m1, frames) := AllocPages(m, incpgnum);
      if |frames| < incpgnum then MapResult(FreeFrames(m1, frames), fifo, false)
      else
        var r := VmapPages(m1, root, mapstart / PAGE, incpgnum, frames, fifo);
        if r.count < incpgnum then MapResult(FreeFrames(r.m, frames), r.fifo, false)
        else MapResult(r.m, r.fifo, true)
  }

  // ---- frames in hand ------------------------------------------------------------------------------------

  /** Frames taken off the free list for data: distinct, all zero, and led to by no path of at most `depth` levels. */
  ghost predicate InHand(m: PMem, roots: set<nat>, depth: nat, frames: seq<nat>)
  {
    NoDup(frames) && forall f :: f in frames ==> Spare(m, roots, depth, f) && ZeroFrame(m.mem, f)
  }

  /** Taking frames off the free list leaves memory well formed and the frames in hand. */
  lemma AllocKeeps(m: PMem, roots: set<nat>, depth: nat, req: int)
    requires WellFormed(m, roots, depth)
    ensures var (m1, frames) := AllocPages(m, req); WellFormed(m1, roots, depth) && InHand(m1, roots, depth, frames)
  {
    var (m1, frames) := AllocPages(m, req);
    forall x | Live(m1.mem, roots, depth, x) ensures Live(m.mem, roots, depth, x) {}
    forall f | f in frames ensures Spare(m1, roots, depth, f) && ZeroFrame(m1.mem, f) {
      var j :| 0 <= j < |frames| && frames[j] == f;
      assert m.free[j] == f;
      forall x | Live(m1.mem, roots, depth, x) ensures At(m1.mem, x) != Some(f) {
        assert Live(m.mem, roots, depth, x);
      }
    }
  }

  /** Giving back frames in hand leaves memory well formed: the list holds them again, and nothing else new. */
  lemma {:induction false} FreeFramesKeeps(m: PMem, roots: set<nat>, depth: nat, frames: seq<nat>)
    requires WellFormed(m, roots, depth) && InHand(m, roots, depth, frames)
    ensures var r := FreeFrames(m, frames);
            && WellFormed(r, roots, depth) && r.mem == m.mem && |r.free| == |frames| + |m.free|
            && (forall f :: f in r.free <==> f in frames || f in m.free)
            && (forall i :: 0 <= i < |frames| ==> r.free[i] == frames[|frames| - 1 - i]) && r.free[|frames|..] == m.free
    decreases |frames|
  {
    if frames == [] {
    } else {
      var f, rest := frames[0], frames[1..];
      var m1 := PutFree(m, f);
      assert f in frames && frames == [f] + rest;
      forall x | Live(m1.mem, roots, depth, x) ensures Live(m.mem, roots, depth, x) {}
      forall g | g in rest ensures g in frames && g != f {
        var j :| 0 <= j < |rest| && rest[j] == g;
        assert frames[j + 1] == g;
      }
      assert InHand(m1, roots, depth, rest);
      FreeFramesKeeps(m1, roots, depth, rest);
    }
  }

  // ---- mapping the pages ---------------------------------------------------------------------------------

  /** A spare frame is still spare after another frame was given to a page. */
  lemma SpareAfterSet(m: PMem, r: (PMem, bool), roots: set<nat>, depth: nat, root: nat, pgn: nat, fpn: nat,
                      a: nat, b: nat, g: nat)
    requires depth == 4 || (depth == 5 && g != fpn && fpn < FPN_SPAN)
    requires a < b && Spare(m, roots, depth, g) && FpnSet(m, r, roots, depth, root, pgn, fpn, a, b)
    ensures Spare(r.0, roots, depth, g)
  {
    forall x | Live(r.0.mem, roots, depth, x) ensures At(r.0.mem, x) != Some(g) {
      if x.level == 5 {
        if r.1 && x == Page(root, pgn) {
          EntryBits(Ent(m.mem, x), fpn);
        } else {
          assert Ent(r.0.mem, x) == Ent(m.mem, x);
          assert Live(m.mem, roots, depth, x);
        }
      } else if At(r.0.mem, x) == At(m.mem, x) {
        assert Live(m.mem, roots, depth, x);
      }
    }
  }

  /** The entry of page `y` after consecutive pages from `key` on took these frames. */
  function MappedEntry(e: nat, y: Path, root: nat, key: nat, frames: seq<nat>): nat
  {
    if y.root == root && key <= y.prefix < key + |frames| then OnlineEntry(e, frames[y.prefix - key]) else e
  }

  /** The last table of a page of the run is present. */
  ghost predicate TableThere(mem: seq<Byte>, root: nat, key: nat) { At(mem, Way(root, key, 4)).Some? }

  /** Pages in the order the page list holds them: newest first, in front of what was there. */
  function PushedPages(pgn: nat, count: nat, fifo: seq<nat>): seq<nat>
    decreases count
  {
    if count == 0 then fifo else PushedPages(pgn + 1, count - 1, [pgn] + fifo)
  }

  /** What mapping a run of pages does, within a window of pages, having mapped `r.count` of them. */
  ghost predicate PagesMapped(m: PMem, r: Mapped, roots: set<nat>, depth: nat, root: nat, k: nat, frames: seq<nat>,
                              a: nat, b: nat)
    requires a < b
  {
    && WellFormed(r.m, roots, depth)
    && |r.m.mem| == |m.mem|
    && Balanced(m, r.m, root, a, b)
    && TablesKept(m, r.m, roots, root)
    && r.count <= |frames|
    && (forall y: Path {:trigger Ent(r.m.mem, y)} :: y.root in roots && y.level == 5 ==>
          Ent(r.m.mem, y) == MappedEntry(Ent(m.mem, y), y, root, k, frames[..r.count]))
    && (forall key {:trigger TableThere(r.m.mem, root, key)} :: k <= key < k + r.count ==>
       TableThere(r.m.mem, root, key))
    && (r.count < |frames| ==> r.m.free == [] && Missing(r.m.mem, root, a, b) > 0)
  }

  lemma NextKey(pgn: nat)
    requires Key(pgn) + 1 < PAGES
    ensures Key(pgn + 1) == Key(pgn) + 1
  {
    assert (pgn + 1) % PAGES == (pgn % PAGES + 1) % PAGES;
  }

  /** Mapping the first page and then the rest maps the run. */
  lemma FirstThenRest(m: PMem, s: (PMem, bool), r: Mapped, roots: set<nat>, depth: nat, root: nat, pgn: nat,
                      frames: seq<nat>, a: nat, b: nat)
    requires frames != [] && root in roots && a < b
    requires FpnSet(m, s, roots, depth, root, pgn, frames[0], a, b) && s.1
    requires PagesMapped(s.0, r, roots, depth, root, Key(pgn) + 1, frames[1..], a, b)
    ensures PagesMapped(m, r.(count := r.count + 1), roots, depth, root, Key(pgn), frames, a, b)
  {
    var k, m1 := Key(pgn), s.0;
    BalancedTrans(m, m1, r.m, root, a, b);
    FirstThenRestTables(m, m1, r, roots, root, k, |frames|, a, b);
    FirstThenRestEntries(m, s, r, roots, depth, root, pgn, frames, a, b);
    hide At, Ent, Missing, WellFormed, Balanced, TablesKept;
  }

  lemma FirstThenRestEntries(m: PMem, s: (PMem, bool), r: Mapped, roots: set<nat>, depth: nat, root: nat, pgn: nat,
                             frames: seq<nat>,
                             a: nat, b: nat)
    requires frames != [] && root in roots && a < b
    requires FpnSet(m, s, roots, depth, root, pgn, frames[0], a, b) && s.1
    requires PagesMapped(s.0, r, roots, depth, root, Key(pgn) + 1, frames[1..], a, b)
    ensures forall y: Path {:trigger Ent(r.m.mem, y)} :: y.root in roots && y.level == 5 ==>
          Ent(r.m.mem, y) == MappedEntry(Ent(m.mem, y), y, root, Key(pgn), frames[..r.count + 1])
  {
    hide Missing, WellFormed, Balanced, TablesKept, OnlineEntry, TableThere;
    var k, m1 := Key(pgn), s.0;
    assert frames[1..][..r.count] == frames[..r.count + 1][1..];
    forall y: Path | y.root in roots && y.level == 5
      ensures Ent(r.m.mem, y) == MappedEntry(Ent(m.mem, y), y, root, k, frames[..r.count + 1])
    {
      hide At, Ent;
      assert Ent(m1.mem, y) == if y == Path(root, 5, k) then OnlineEntry(Ent(m.mem, y), frames[0]) else Ent(m.mem, y);
      assert Ent(r.m.mem, y) == MappedEntry(Ent(m1.mem, y), y, root, k + 1, frames[1..][..r.count]);
    }
  }

  lemma FirstThenRestTables(m: PMem, m1: PMem, r: Mapped, roots: set<nat>, root: nat, k: nat, n: nat, a: nat, b: nat)
    requires root in roots && a < b && Balanced(m, m1, root, a, b)
    requires TablesKept(m, m1, roots, root) && TablesKept(m1, r.m, roots, root) && TableThere(m1.mem, root, k)
    requires forall key {:trigger TableThere(r.m.mem, root, key)} :: k + 1 <= key < k + 1 + r.count ==>
             TableThere(r.m.mem, root, key)
    ensures TablesKept(m, r.m, roots, root)
    ensures forall key {:trigger TableThere(r.m.mem, root, key)} :: k <= key < k + r.count + 1 ==>
            TableThere(r.m.mem, root, key)
  {
    TablesKeptTrans(m, m1, r.m, roots, root);
    var x := Way(root, k, 4);
    assert At(r.m.mem, x) == At(m1.mem, x) || At(m1.mem, x).None?;
  }

  /**
   Frames that may be given to pages: any, where page frames are of no concern; distinct unused ones, where they
   are.
   */
  ghost predicate MayMap(m: PMem, roots: set<nat>, depth: nat, frames: seq<nat>)
  {
    depth == 4 || (depth == 5 && NoDup(frames) && forall f :: f in frames ==> Unused(m, roots, f))
  }

  lemma MayMapRest(m: PMem, s: (PMem, bool), roots: set<nat>, depth: nat, root: nat, pgn: nat, frames: seq<nat>,
                   a: nat, b: nat)
    requires a < b && frames != [] && MayMap(m, roots, depth, frames)
    requires FpnSet(m, s, roots, depth, root, pgn, frames[0], a, b)
    ensures MayMap(s.0, roots, depth, frames[1..])
  {
    hide FpnSet, Spare;
    assert frames[0] in frames;
    forall g | depth == 5 && g in frames[1..] ensures Unused(s.0, roots, g) {
      var j :| 0 <= j < |frames[1..]| && frames[1..][j] == g;
      assert frames[j + 1] == g && g in frames;
      SpareAfterSet(m, s, roots, depth, root, pgn, frames[0], a, b, g);
    }
  }

  /** Mapping a run of pages with frames in hand, from any well-formed memory with enough usable table frames. */
  lemma {:induction false} VmapKeeps(m: PMem, roots: set<nat>, depth: nat, root: nat, pgn: nat, frames: seq<nat>,
                                     fifo: seq<nat>, a: nat, b: nat)
    requires WellFormed(m, roots, depth) && root in roots
    requires a <= Key(pgn) && Key(pgn) + |frames| <= b <= PAGES && a < b && FramesReady(m, root, a, b)
    requires MayMap(m, roots, depth, frames)
    ensures var r := VmapPages(m, root, pgn, |frames|, frames, fifo);
            PagesMapped(m, r, roots, depth, root, Key(pgn), frames, a, b) && r.fifo == PushedPages(pgn, r.count, fifo)
    decreases |frames|
  {
    if frames == [] {
      NoPages(m, roots, depth, root, Key(pgn), fifo, a, b);
    } else {
      hide WellFormed, Missing, At, Ent, TableThere, MappedEntry;
      var s := PteSetFpn(m, root, pgn, frames[0]);
      assert frames[0] in frames;
      SetFpnInWindow(m, roots, depth, root, pgn, frames[0], a, b);
      if s.1 {
        BalancedReady(m, s.0, root, a, b);
        MayMapRest(m, s, roots, depth, root, pgn, frames, a, b);
        MapRest(m, s, roots, depth, root, pgn, frames, fifo, a, b);
      } else {
        NothingMapped(m, s, roots, depth, root, pgn, frames, fifo, a, b);
      }
    }
  }

  lemma NoPages(m: PMem, roots: set<nat>, depth: nat, root: nat, k: nat, fifo: seq<nat>, a: nat, b: nat)
    requires WellFormed(m, roots, depth) && a < b
    ensures PagesMapped(m, Mapped(m, 0, fifo), roots, depth, root, k, [], a, b)
  {
    GrownSame(m, roots, depth, root, a, b);
    hide WellFormed, Missing, At, Ent, Balanced, TablesKept;
  }

  lemma {:induction false} MapRest(m: PMem, s: (PMem, bool), roots: set<nat>, depth: nat, root: nat, pgn: nat,
                                   frames: seq<nat>, fifo: seq<nat>,
                                   a: nat, b: nat)
    requires frames != [] && root in roots && s == PteSetFpn(m, root, pgn, frames[0]) && s.1
    requires a <= Key(pgn) && Key(pgn) + |frames| <= b <= PAGES && a < b && FramesReady(s.0, root, a, b)
    requires FpnSet(m, s, roots, depth, root, pgn, frames[0], a, b)
    requires MayMap(s.0, roots, depth, frames[1..])
    ensures var r := VmapPages(m, root, pgn, |frames|, frames, fifo);
            PagesMapped(m, r, roots, depth, root, Key(pgn), frames, a, b) && r.fifo == PushedPages(pgn, r.count, fifo)
    decreases |frames|, 0
  {
    hide WellFormed, Missing, At, Ent, TableThere, MappedEntry, TablesKept, Balanced, FramesReady, Unused, PteSetFpn;
    var r := VmapPages(s.0, root, pgn + 1, |frames| - 1, frames[1..], [pgn] + fifo);
    if |frames| > 1 {
      NextKey(pgn);
      VmapKeeps(s.0, roots, depth, root, pgn + 1, frames[1..], [pgn] + fifo, a, b);
    } else {
      assert frames[1..] == [];
      NoPages(s.0, roots, depth, root, Key(pgn) + 1, [pgn] + fifo, a, b);
    }
    FirstThenRest(m, s, r, roots, depth, root, pgn, frames, a, b);
  }

  lemma NothingMapped(m: PMem, s: (PMem, bool), roots: set<nat>, depth: nat, root: nat, pgn: nat, frames: seq<nat>,
                      fifo: seq<nat>, a: nat, b: nat)
    requires frames != [] && root in roots && s == PteSetFpn(m, root, pgn, frames[0]) && !s.1
    requires a < b && FpnSet(m, s, roots, depth, root, pgn, frames[0], a, b)
    ensures VmapPages(m, root, pgn, |frames|, frames, fifo) == Mapped(s.0, 0, fifo)
    ensures PagesMapped(m, Mapped(s.0, 0, fifo), roots, depth, root, Key(pgn), frames, a, b)
  {
    hide WellFormed, Missing, At, Ent, TablesKept, Balanced;
  }

  /** How many pages a mapping has frames for. */
  function Supplied(pgnum: int, frames: seq<nat>): nat { if pgnum <= 0 then 0 else Min(pgnum, |frames|) }

  /** Only the frames a mapping has pages for matter to it. */
  lemma {:induction false} VmapCut(m: PMem, root: nat, pgn: nat, pgnum: int, frames: seq<nat>, fifo: seq<nat>)
    ensures var n := Supplied(pgnum, frames);
            VmapPages(m, root, pgn, pgnum, frames, fifo) == VmapPages(m, root, pgn, n, frames[..n], fifo)
    decreases |frames|
  {
    hide PteSetFpn;
    if pgnum <= 0 || frames == [] {
    } else {
      var n := Supplied(pgnum, frames);
      VmapCut(PteSetFpn(m, root, pgn, frames[0]).0, root, pgn + 1, pgnum - 1, frames[1..], [pgn] + fifo);
      assert frames[..n][1..] == frames[1..][..n - 1];
    }
  }

  lemma {:induction false} VmapAtMost(m: PMem, root: nat, pgn: nat, pgnum: int, frames: seq<nat>, fifo: seq<nat>)
    ensures VmapPages(m, root, pgn, pgnum, frames, fifo).count <= Supplied(pgnum, frames)
    decreases |frames|
  {
    hide PteSetFpn;
    if pgnum <= 0 || frames == [] {
    } else {
      VmapAtMost(PteSetFpn(m, root, pgn, frames[0]).0, root, pgn + 1, pgnum - 1, frames[1..], [pgn] + fifo);
    }
  }

  /** vmap_page_range with any number of pages and of frames: it goes as far as both last and tables can be had. */
  lemma VmapMaps(m: PMem, roots: set<nat>, depth: nat, root: nat, pgn: nat, pgnum: int, frames: seq<nat>,
                 fifo: seq<nat>,
                 a: nat, b: nat)
    requires WellFormed(m, roots, depth) && root in roots && MayMap(m, roots, depth, frames[..Supplied(pgnum, frames)])
    requires a <= Key(pgn) && Key(pgn) + Supplied(pgnum, frames) <= b <= PAGES && a < b && FramesReady(m, root, a, b)
    ensures var r := VmapPages(m, root, pgn, pgnum, frames, fifo);
            && PagesMapped(m, r, roots, depth, root, Key(pgn), frames[..Supplied(pgnum, frames)], a, b)
            && r.fifo == PushedPages(pgn, r.count, fifo)
  {
    hide WellFormed, MayMap, PagesMapped, VmapPages, FramesReady;
    VmapCut(m, root, pgn, pgnum, frames, fifo);
    VmapKeeps(m, roots, depth, root, pgn, frames[..Supplied(pgnum, frames)], fifo, a, b);
  }

  // ---- when mapping succeeds -----------------------------------------------------------------------------

  /** Every table a window spans is reached, where the last tables of its pages are. */
  lemma TableReached(mem: seq<Byte>, root: nat, a: nat, b: nat, level: nat, q: nat)
    requires a < b <= PAGES && 1 <= level <= 4 && Prefix(a, level) <= q < Prefix(b - 1, level) + 1
    requires forall key {:trigger TableThere(mem, root, key)} :: a <= key < b ==> TableThere(mem, root, key)
    ensures At(mem, Path(root, level, q)).Some?
  {
    hide At, TableThere;
    var key := if q == Prefix(a, level) then a else q * Span(level);
    assert Prefix(key, level) == q && a <= key < b;
    assert TableThere(mem, root, key);
    TablesAbove(mem, root, key, level);
  }

  /** With the last table of every page of a window present, the window lacks no table at all. */
  lemma {:induction false} NoneMissing(mem: seq<Byte>, root: nat, a: nat, b: nat, level: nat)
    requires a < b <= PAGES && level <= 4
    requires forall key {:trigger TableThere(mem, root, key)} :: a <= key < b ==> TableThere(mem, root, key)
    ensures MissingDownTo(mem, root, a, b, level) == 0
  {
    hide At, TableThere, Prefix;
    if level == 0 {
    } else {
      NoneMissing(mem, root, a, b, level - 1);
      forall q | Prefix(a, level) <= q < Prefix(b - 1, level) + 1 ensures At(mem, Path(root, level, q)).Some? {
        TableReached(mem, root, a, b, level, q);
      }
      NoneMissingAt(mem, root, level, Prefix(a, level), Prefix(b - 1, level) + 1);
    }
  }

  lemma {:induction false} TablesAbove(mem: seq<Byte>, root: nat, key: nat, level: nat)
    requires key < PAGES && level <= 4 && TableThere(mem, root, key)
    ensures At(mem, Way(root, key, level)).Some?
    decreases 4 - level
  {
    if level < 4 {
      TablesAbove(mem, root, key, level + 1);
      WayParent(root, key, level + 1);
    }
  }

  lemma {:induction false} NoneMissingAt(mem: seq<Byte>, root: nat, level: nat, lo: nat, hi: nat)
    requires forall q :: lo <= q < hi ==> At(mem, Path(root, level, q)).Some?
    ensures MissingAt(mem, root, level, lo, hi) == 0
    decreases hi
  {
    if hi <= lo {
    } else {
      NoneMissingAt(mem, root, level, lo, hi - 1);
    }
  }

  /** The most tables that `k` consecutive pages can span at the level whose entries stand for `span` pages. */
  function TablesSpanned(k: nat, span: nat): nat
    requires k > 0 && span > 0
  {
    (k + span - 2) / span + 1
  }

  lemma {:induction false} MissingAtBound(mem: seq<Byte>, root: nat, level: nat, lo: nat, hi: nat)
    requires lo <= hi
    ensures MissingAt(mem, root, level, lo, hi) <= hi - lo
    decreases hi
  {
    if hi <= lo {
    } else {
      MissingAtBound(mem, root, level, lo, hi - 1);
    }
  }

  lemma PrefixesSpanned(a: nat, k: nat, level: nat)
    requires k > 0 && 1 <= level <= 4
    ensures Prefix(a + k - 1, level) - Prefix(a, level) + 1 <= TablesSpanned(k, Span(level))
  {
  }

  /** However memory looks, `k` consecutive pages lack no more tables than they can span. */
  lemma MissingBound(mem: seq<Byte>, root: nat, a: nat, k: nat)
    requires k > 0
    ensures Missing(mem, root, a, a + k) <=
            TablesSpanned(k, 0x200) + TablesSpanned(k, 0x4_0000) +
            TablesSpanned(k, 0x800_0000) + TablesSpanned(k, 0x10_0000_0000)
  {
    MissingLevelBound(mem, root, a, k, 1);
    MissingLevelBound(mem, root, a, k, 2);
    MissingLevelBound(mem, root, a, k, 3);
    MissingLevelBound(mem, root, a, k, 4);
    hide TablesSpanned;
  }

  lemma MissingLevelBound(mem: seq<Byte>, root: nat, a: nat, k: nat, level: nat)
    requires k > 0 && 1 <= level <= 4
    ensures MissingDownTo(mem, root, a, a + k, level) <=
            MissingDownTo(mem, root, a, a + k, level - 1) + TablesSpanned(k, Span(level))
  {
    PrefixMonotone(a, a + k - 1, level);
    MissingAtBound(mem, root, level, Prefix(a, level), Prefix(a + k - 1, level) + 1);
    PrefixesSpanned(a, k, level);
  }

  // ---- the theorems about vm_map_ram ---------------------------------------------------------------------

  /** The frames a mapping would turn into tables, after the frames for its pages, lie inside memory. */
  ghost predicate TablesReady(m: PMem, root: nat, a: nat, k: nat)
  {
    0 < k <= |m.free| ==> FramesReady(PMem(m.mem, m.free[k..]), root, a, a + k)
  }

  /** And the numbers of the frames for its pages fit an entry. */
  ghost predicate RunReady(m: PMem, root: nat, a: nat, k: nat)
  {
    TablesReady(m, root, a, k) && (k <= |m.free| ==> forall j :: 0 <= j < k ==> m.free[j] < FPN_SPAN)
  }

  /** The allocation phase takes a frame for each page and leaves the table frames next. */
  lemma AllocationPhase(m: PMem, roots: set<nat>, root: nat, a: nat, k: nat)
    requires WellFormed(m, roots, 5) && 0 < k <= |m.free| && RunReady(m, root, a, k)
    ensures var (m1, frames) := AllocPages(m, k);
            && frames == m.free[..k] && m1 == PMem(m.mem, m.free[k..])
            && InHand(m1, roots, 5, frames) && (forall f :: f in frames ==> f < FPN_SPAN)
            && FramesReady(m1, root, a, a + k) && WellFormed(m1, roots, 5)
  {
    AllocKeeps(m, roots, 5, k);
  }

  /** The mapping phase, on the frames the allocation phase took. */
  lemma MappingPhase(m: PMem, roots: set<nat>, root: nat, pgn: nat, k: nat, fifo: seq<nat>)
    requires WellFormed(m, roots, 5) && root in roots && 0 < k <= |m.free|
    requires Key(pgn) + k <= PAGES && RunReady(m, root, Key(pgn), k)
    ensures var m1 := PMem(m.mem, m.free[k..]); var r := VmapPages(m1, root, pgn, k, m.free[..k], fifo);
            && PagesMapped(m1, r, roots, 5, root, Key(pgn), m.free[..k], Key(pgn), Key(pgn) + k)
            && r.fifo == PushedPages(pgn, r.count, fifo)
            && (r.count == k <==> k + Missing(m.mem, root, Key(pgn), Key(pgn) + k) <= |m.free|)
            && (r.count == k ==> r.m.free == m.free[k + Missing(m.mem, root, Key(pgn), Key(pgn) + k)..])
  {
    hide WellFormed, MissingDownTo, At, Ent, MappedEntry, TablesKept, FramesReady, RunReady, VmapPages, TableThere;
    var m1, a := PMem(m.mem, m.free[k..]), Key(pgn);
    AllocationPhase(m, roots, root, a, k);
    VmapKeeps(m1, roots, 5, root, pgn, m.free[..k], fifo, a, a + k);
    var r := VmapPages(m1, root, pgn, k, m.free[..k], fifo);
    if r.count == k {
      NoneMissing(r.m.mem, root, a, a + k, 4);
      assert m.free[k..][Missing(m.mem, root, a, a + k)..] == m.free[k + Missing(m.mem, root, a, a + k)..];
    }
  }

  /**
   vm_map_ram succeeds exactly when the free list holds a frame for each page and for each table the pages
   lack. Then every page of the run has its own frame, present and not swapped, in order; no other entry of
   any process changed; the frames went from the head of the list; the pages joined the page list.
   */
  lemma MapRamRefines(m: PMem, roots: set<nat>, root: nat, mapstart: nat, k: nat, fifo: seq<nat>)
    requires WellFormed(m, roots, 5) && root in roots && k > 0
    requires Key(mapstart / PAGE) + k <= PAGES && RunReady(m, root, Key(mapstart / PAGE), k)
    ensures var r := VmMapRam(m, root, mapstart, k, fifo); var a := Key(mapstart / PAGE);
            var need := k + Missing(m.mem, root, a, a + k);
            && (r.ok <==> need <= |m.free|)
            && (r.ok ==> && WellFormed(r.m, roots, 5) && r.m.free == m.free[need..]
                         && r.fifo == PushedPages(mapstart / PAGE, k, fifo)
                         && (forall y: Path {:trigger Ent(r.m.mem, y)} :: y.root in roots && y.level == 5 ==>
                               Ent(r.m.mem, y) == MappedEntry(Ent(m.mem, y), y, root, a, m.free[..k])))
  {
    hide WellFormed, Missing, At, Ent, TableThere, MappedEntry, TablesKept, Balanced, FramesReady, RunReady, Key;
    if k <= |m.free| {
      AllocationPhase(m, roots, root, Key(mapstart / PAGE), k);
      MappingPhase(m, roots, root, mapstart / PAGE, k, fifo);
      assert m.free[..k][..k] == m.free[..k];
    }
  }

  /** A free list with the most tables the pages could span, and a frame for each page, is always enough. */
  lemma MapRamSucceeds(m: PMem, roots: set<nat>, root: nat, mapstart: nat, k: nat, fifo: seq<nat>)
    requires WellFormed(m, roots, 5) && root in roots && k > 0
    requires Key(mapstart / PAGE) + k <= PAGES && RunReady(m, root, Key(mapstart / PAGE), k)
    requires |m.free| >= k + TablesSpanned(k, 0x200) + TablesSpanned(k, 0x4_0000) +
                         TablesSpanned(k, 0x800_0000) + TablesSpanned(k, 0x10_0000_0000)
    ensures VmMapRam(m, root, mapstart, k, fifo).ok
  {
    hide TablesSpanned;
    MapRamRefines(m, roots, root, mapstart, k, fifo);
    MissingBound(m.mem, root, Key(mapstart / PAGE), k);
  }

  /** Running out of frames in the allocation phase changes no byte and loses no frame; it reverses the free list. */
  lemma AllocationFailure(m: PMem, roots: set<nat>, depth: nat, root: nat, mapstart: nat, k: nat, fifo: seq<nat>)
    requires WellFormed(m, roots, depth) && |m.free| < k
    ensures var r := VmMapRam(m, root, mapstart, k, fifo);
            && !r.ok && r.m.mem == m.mem && r.fifo == fifo && WellFormed(r.m, roots, depth)
            && |r.m.free| == |m.free| && (forall f :: f in r.m.free <==> f in m.free)
            && forall i :: 0 <= i < |m.free| ==> r.m.free[i] == m.free[|m.free| - 1 - i]
  {
    AllocKeeps(m, roots, depth, k);
    var (m1, frames) := AllocPages(m, k);
    assert frames == m.free && m1.free == [];
    FreeFramesKeeps(m1, roots, depth, frames);
  }

  // ---- when the mapping phase fails ----------------------------------------------------------------------

  lemma {:induction false} MissingAtNested(mem: seq<Byte>, root: nat, level: nat, lo: nat, hi: nat, hi': nat)
    requires hi <= hi'
    ensures MissingAt(mem, root, level, lo, hi) <= MissingAt(mem, root, level, lo, hi')
    decreases hi'
  {
    if hi < hi' {
      MissingAtNested(mem, root, level, lo, hi, hi' - 1);
    }
  }

  lemma {:induction false} MissingNested(mem: seq<Byte>, root: nat, a: nat, b: nat, b': nat, level: nat)
    requires a < b <= b' && level <= 4
    ensures MissingDownTo(mem, root, a, b, level) <= MissingDownTo(mem, root, a, b', level)
  {
    if level == 0 {
    } else {
      MissingNested(mem, root, a, b, b', level - 1);
      PrefixMonotone(b - 1, b' - 1, level);
      MissingAtNested(mem, root, level, Prefix(a, level), Prefix(b - 1, level) + 1, Prefix(b' - 1, level) + 1);
    }
  }

  /** One level of the walk writes nothing into a spare frame. */
  lemma EnsureTableKeepsZero(m: PMem, r: (PMem, Option<nat>), roots: set<nat>, depth: nat, root: nat, key: nat,
                             level: nat,
                             a: nat, b: nat, g: nat)
    requires depth == 4 || depth == 5
    requires a < b && 1 <= level <= 4 && root in roots && Spare(m, roots, depth, g)
    requires Descended(m, r, roots, depth, root, key, level - 1, a, b) && r.1.Some? && ZeroFrame(r.0.mem, g)
    ensures ZeroFrame(EnsureTable(r.0, r.1.value, Way(root, key, level).Index()).0.mem, g)
  {
    SpareGrown(m, r.0, roots, depth, root, a, b, g);
    assert Live(r.0.mem, roots, depth, Way(root, key, level - 1));
    if r.0.free != [] {
      ZeroKept(r.0.mem, r.1.value, Way(root, key, level).Index(), TableEntry(r.0.free[0]), g);
    }
    hide At, Ent, WellFormed, Spare, Live, ZeroFrame, PutSlot;
  }

  /** The walk that makes tables writes nothing into a spare frame. */
  lemma {:induction false} DescendKeepsZero(m: PMem, roots: set<nat>, depth: nat, root: nat, key: nat, level: nat,
                                            a: nat, b: nat, g: nat)
    requires depth == 4 || depth == 5
    requires WellFormed(m, roots, depth) && root in roots && level <= 4
    requires a <= key < b <= PAGES && FramesReady(m, root, a, b)
    requires Spare(m, roots, depth, g) && ZeroFrame(m.mem, g)
    ensures ZeroFrame(Descend(m, root, key, level).0.mem, g)
  {
    if level == 0 {
    } else {
      hide At, Ent, WellFormed, Spare, Live, ZeroFrame, PutSlot, Descended, FramesReady;
      DescendKeepsZero(m, roots, depth, root, key, level - 1, a, b, g);
      DescendGrows(m, roots, depth, root, key, level - 1, a, b);
      var r := Descend(m, root, key, level - 1);
      if r.1.Some? {
        EnsureTableKeepsZero(m, r, roots, depth, root, key, level, a, b, g);
        assert Descend(m, root, key, level) == EnsureTable(r.0, r.1.value, Way(root, key, level).Index());
      }
    }
  }

  /** Setting a page leaves the frames in hand in hand, as far as tables are concerned. */
  lemma SetFpnKeepsHand(m: PMem, roots: set<nat>, root: nat, pgn: nat, fpn: nat, a: nat, b: nat, g: nat)
    requires WellFormed(m, roots, 4) && root in roots
    requires a <= Key(pgn) < b <= PAGES && FramesReady(m, root, a, b)
    requires Spare(m, roots, 4, g) && ZeroFrame(m.mem, g)
    ensures var m' := PteSetFpn(m, root, pgn, fpn).0; Spare(m', roots, 4, g) && ZeroFrame(m'.mem, g)
  {
    hide At, Ent, WellFormed, Live, ZeroFrame, PutSlot, FramesReady;
    hide OnlineEntry, Slot, Key, Missing, Balanced, SamePages, TablesKept;
    SetFpnInWindow(m, roots, 4, root, pgn, fpn, a, b);
    SpareAfterSet(m, PteSetFpn(m, root, pgn, fpn), roots, 4, root, pgn, fpn, a, b, g);
    DescendKeepsZero(m, roots, 4, root, Key(pgn), 4, a, b, g);
    DescendGrows(m, roots, 4, root, Key(pgn), 4, a, b);
    var r := Descend(m, root, Key(pgn), 4);
    if r.1.Some? {
      SpareGrown(m, r.0, roots, 4, root, a, b, g);
      NotOnWay(r.0, roots, root, Key(pgn), g);
      var i := Page(root, pgn).Index();
      ZeroKept(r.0.mem, r.1.value, i, OnlineEntry(Slot(r.0.mem, r.1.value, i), fpn), g);
    }
  }

  lemma NotOnWay(m: PMem, roots: set<nat>, root: nat, key: nat, g: nat)
    requires root in roots && Spare(m, roots, 4, g)
    ensures At(m.mem, Way(root, key, 4)) != Some(g)
  {
    assert At(m.mem, Way(root, key, 4)).Some? ==> Live(m.mem, roots, 4, Way(root, key, 4));
  }

  lemma {:induction false} VmapKeepsHand(m: PMem, roots: set<nat>, root: nat, pgn: nat, frames: seq<nat>,
                                         fifo: seq<nat>,
                                         a: nat, b: nat, hand: seq<nat>)
    requires WellFormed(m, roots, 4) && root in roots && InHand(m, roots, 4, hand)
    requires a <= Key(pgn) && Key(pgn) + |frames| <= b <= PAGES && a < b && FramesReady(m, root, a, b)
    ensures InHand(VmapPages(m, root, pgn, |frames|, frames, fifo).m, roots, 4, hand)
    decreases |frames|
  {
    if frames == [] {
    } else {
      hide WellFormed, Missing, At, Ent, Spare, ZeroFrame, FramesReady, PteSetFpn, Key;
      var s := PteSetFpn(m, root, pgn, frames[0]);
      SetFpnInWindow(m, roots, 4, root, pgn, frames[0], a, b);
      BalancedReady(m, s.0, root, a, b);
      forall g | g in hand ensures Spare(s.0, roots, 4, g) && ZeroFrame(s.0.mem, g) {
        SetFpnKeepsHand(m, roots, root, pgn, frames[0], a, b, g);
      }
      if s.1 && |frames| > 1 {
        NextKey(pgn);
        VmapKeepsHand(s.0, roots, root, pgn + 1, frames[1..], [pgn] + fifo, a, b, hand);
      }
    }
  }

  /** How many pages of a range vm_map_ram enters in the page table before it succeeds or gives up. */
  function PagesDone(m: PMem, root: nat, mapstart: nat, k: nat, fifo: seq<nat>): nat
  {
    if k <= |m.free| then VmapPages(PMem(m.mem, m.free[k..]), root, mapstart / PAGE, k, m.free[..k], fifo).count else 0
  }

  /**
   Whatever vm_map_ram comes to - success, too few frames for the pages, or too few for their tables - the tables of
   all processes are in order afterwards, the pages entered took their frames and are on the page list, and no other
   page entry of any process changed.
   */
  lemma MapRamAnyOutcome(m: PMem, roots: set<nat>, root: nat, mapstart: nat, k: nat, fifo: seq<nat>)
    requires WellFormed(m, roots, 4) && root in roots
    requires Key(mapstart / PAGE) + k <= PAGES && TablesReady(m, root, Key(mapstart / PAGE), k)
    ensures var r := VmMapRam(m, root, mapstart, k, fifo); var n := PagesDone(m, root, mapstart, k, fifo);
            && WellFormed(r.m, roots, 4) && |r.m.mem| == |m.mem| && n <= k && n <= |m.free|
            && r.fifo == PushedPages(mapstart / PAGE, n, fifo)
            && TablesKept(m, r.m, roots, root)
            && (forall y: Path {:trigger Ent(r.m.mem, y)} :: y.root in roots && y.level == 5 ==>
                  Ent(r.m.mem, y) == MappedEntry(Ent(m.mem, y), y, root, Key(mapstart / PAGE), m.free[..n]))
  {
    hide At, Ent, WellFormed, Spare, Live, Key;
    hide Missing, FramesReady, VmapPages, FreeFrames, ZeroFrame, TablesKept, Balanced;
    AllocKeeps(m, roots, 4, k);
    var a := Key(mapstart / PAGE);
    var (m1, frames) := AllocPages(m, k);
    if k == 0 {
      NothingToMap(m, root, mapstart, fifo);
      TablesKeptSame(m, roots, root);
    } else if |m.free| < k {
      AllocationFailure(m, roots, 4, root, mapstart, k, fifo);
      TablesKeptSame(m, roots, root);
      SameMemTables(m, VmMapRam(m, root, mapstart, k, fifo).m, roots, root);
    } else {
      hide MappedEntry;
      VmapKeeps(m1, roots, 4, root, mapstart / PAGE, frames, fifo, a, a + k);
      VmapKeepsHand(m1, roots, root, mapstart / PAGE, frames, fifo, a, a + k, frames);
      var r := VmapPages(m1, root, mapstart / PAGE, k, frames, fifo);
      FreeFramesKeeps(r.m, roots, 4, frames);
      assert frames[..r.count] == m.free[..r.count];
      TablesKeptFrom(m, m1, r.m, roots, root);
      TablesKeptLoose(m, r.m, FreeFrames(r.m, frames), roots, root);
    }
  }

  lemma NothingToMap(m: PMem, root: nat, mapstart: nat, fifo: seq<nat>)
    ensures VmMapRam(m, root, mapstart, 0, fifo) == MapResult(m, fifo, true) &&
            PagesDone(m, root, mapstart, 0, fifo) == 0
  {
    assert m.free[0..] == m.free;
  }

  lemma TablesKeptSame(m: PMem, roots: set<nat>, root: nat)
    ensures TablesKept(m, m, roots, root)
  {
  }

  lemma SameMemTables(m: PMem, m': PMem, roots: set<nat>, root: nat)
    requires m'.mem == m.mem
    ensures TablesKept(m, m', roots, root)
  {
  }

  lemma TablesKeptFrom(m: PMem, m1: PMem, m2: PMem, roots: set<nat>, root: nat)
    requires m1.mem == m.mem && (forall f :: f in m1.free ==> f in m.free) && TablesKept(m1, m2, roots, root)
    ensures TablesKept(m, m2, roots, root)
  {
  }

  lemma TablesKeptLoose(m: PMem, m1: PMem, m2: PMem, roots: set<nat>, root: nat)
    requires TablesKept(m, m1, roots, root) && m2.mem == m1.mem
    ensures TablesKept(m, m2, roots, root)
  {
  }

  lemma {:induction false} FreeFramesHolds(m: PMem, frames: seq<nat>)
    ensures FreeFrames(m, frames).mem == m.mem
    ensures forall f :: f in frames || f in m.free ==> f in FreeFrames(m, frames).free
    decreases |frames|
  {
    if frames == [] {
    } else {
      FreeFramesHolds(PutFree(m, frames[0]), frames[1..]);
    }
  }

  /** When not even the first page could be mapped, the frames in hand go back unharmed. */
  lemma NoPageMapped(m: PMem, roots: set<nat>, root: nat, pgn: nat, frames: seq<nat>, fifo: seq<nat>)
    requires WellFormed(m, roots, 5) && root in roots && InHand(m, roots, 5, frames) && frames != []
    requires forall f :: f in frames ==> f < FPN_SPAN
    requires FramesReady(m, root, Key(pgn), Key(pgn) + 1) && !PteSetFpn(m, root, pgn, frames[0]).1
    ensures var r := VmapPages(m, root, pgn, |frames|, frames, fifo);
            r.count == 0 && WellFormed(FreeFrames(r.m, frames), roots, 5)
  {
    var a := Key(pgn);
    assert frames[0] in frames;
    SetFpnInWindow(m, roots, 5, root, pgn, frames[0], a, a + 1);
    var m' := Descend(m, root, a, 4).0;
    DescendGrows(m, roots, 5, root, a, 4, a, a + 1);
    forall f | f in frames ensures Spare(m', roots, 5, f) && ZeroFrame(m'.mem, f) {
      SpareGrown(m, m', roots, 5, root, a, a + 1, f);
      DescendKeepsZero(m, roots, 5, root, a, 4, a, a + 1, f);
    }
    FreeFramesKeeps(m', roots, 5, frames);
  }

  /** When some page was mapped, giving the frames back puts a mapped frame on the free list. */
  lemma SomePageMapped(m: PMem, r: Mapped, roots: set<nat>, root: nat, pgn: nat, frames: seq<nat>, a: nat, b: nat)
    requires root in roots && a < b && frames != [] && frames[0] < FPN_SPAN
    requires PagesMapped(m, r, roots, 5, root, Key(pgn), frames, a, b) && r.count > 0
    ensures var m' := FreeFrames(r.m, frames);
            At(m'.mem, Page(root, pgn)) == Some(frames[0]) && frames[0] in m'.free && !WellFormed(m', roots, 5)
  {
    FreeFramesHolds(r.m, frames);
    var m' := FreeFrames(r.m, frames);
    var y := Page(root, pgn);
    EntryBits(Ent(m.mem, y), frames[0]);
    assert Ent(r.m.mem, y) == MappedEntry(Ent(m.mem, y), y, root, Key(pgn), frames[..r.count]);
    assert Ent(m'.mem, y) == OnlineEntry(Ent(m.mem, y), frames[0]);
    assert Live(m'.mem, roots, 5, y);
  }

  /** The mapping phase on frames in hand, then giving them back: what becomes of the form of memory. */
  lemma FailedPhase(m: PMem, roots: set<nat>, root: nat, pgn: nat, frames: seq<nat>, fifo: seq<nat>)
    requires WellFormed(m, roots, 5) && root in roots && InHand(m, roots, 5, frames) && frames != []
    requires forall f :: f in frames ==> f < FPN_SPAN
    requires Key(pgn) + |frames| <= PAGES && FramesReady(m, root, Key(pgn), Key(pgn) + |frames|)
    requires VmapPages(m, root, pgn, |frames|, frames, fifo).count < |frames|
    ensures var m' := FreeFrames(VmapPages(m, root, pgn, |frames|, frames, fifo).m, frames);
            && (WellFormed(m', roots, 5) <==> |m.free| < Missing(m.mem, root, Key(pgn), Key(pgn) + 1))
            && (!WellFormed(m', roots, 5) ==> At(m'.mem, Page(root, pgn)) == Some(frames[0]) && frames[0] in m'.free)
            && (WellFormed(m', roots, 5) ==> VmapPages(m, root, pgn, |frames|, frames, fifo).count == 0)
  {
    var a, b := Key(pgn), Key(pgn) + |frames|;
    assert frames[0] in frames && frames[0] < FPN_SPAN;
    MissingNested(m.mem, root, a, a + 1, b, 4);
    assert FramesReady(m, root, a, a + 1);
    Shallower(m, roots);
    hide At, Ent, WellFormed, Unused, Live, Key, MissingDownTo, InHand, FramesReady, PteSetFpn;
    HandUnused(m, roots, frames);
    hide MayMap;
    SetFpnRefinesMap(m, roots, root, pgn, frames[0]);
    VmapKeeps(m, roots, 5, root, pgn, frames, fifo, a, b);
    if PteSetFpn(m, root, pgn, frames[0]).1 {
      SomePageMapped(m, VmapPages(m, root, pgn, |frames|, frames, fifo), roots, root, pgn, frames, a, b);
    } else {
      NoPageMapped(m, roots, root, pgn, frames, fifo);
    }
  }

  lemma HandUnused(m: PMem, roots: set<nat>, frames: seq<nat>)
    requires InHand(m, roots, 5, frames) && forall f :: f in frames ==> f < FPN_SPAN
    ensures MayMap(m, roots, 5, frames)
  {
  }

  /**
   A mapping that fails after the allocation phase is harmless exactly when not even its first page could get
   its tables: then no page entry of any process changed. Otherwise vm_map_ram returns to the free list a frame that a
   page entry still names.
   */
  lemma MappingFailure(m: PMem, roots: set<nat>, root: nat, mapstart: nat, k: nat, fifo: seq<nat>)
    requires WellFormed(m, roots, 5) && root in roots && k > 0
    requires Key(mapstart / PAGE) + k <= PAGES && RunReady(m, root, Key(mapstart / PAGE), k)
    requires k <= |m.free| < k + Missing(m.mem, root, Key(mapstart / PAGE), Key(mapstart / PAGE) + k)
    ensures var r := VmMapRam(m, root, mapstart, k, fifo); var a := Key(mapstart / PAGE);
            && !r.ok
            && (WellFormed(r.m, roots, 5) <==> |m.free| < k + Missing(m.mem, root, a, a + 1))
            && (WellFormed(r.m, roots, 5) ==> SamePages(m.mem, r.m.mem, roots))
            && (!WellFormed(r.m, roots, 5) ==>
                  At(r.m.mem, Page(root, mapstart / PAGE)) == Some(m.free[0]) && m.free[0] in r.m.free)
  {
    hide At, Ent, WellFormed, Live, Key, MissingDownTo;
    hide RunReady, InHand, FramesReady, VmapPages, PagesMapped, FreeFrames, SamePages;
    AllocationPhase(m, roots, root, Key(mapstart / PAGE), k);
    MappingPhase(m, roots, root, mapstart / PAGE, k, fifo);
    MappedCount(m, roots, root, mapstart / PAGE, k, fifo);
    FailedPhase(PMem(m.mem, m.free[k..]), roots, root, mapstart / PAGE, m.free[..k], fifo);
    if PagesDone(m, root, mapstart, k, fifo) == 0 { NothingEntered(m, roots, root, mapstart, k, fifo); }
  }

  /** A mapping that entered no page changed no entry. */
  lemma NothingEntered(m: PMem, roots: set<nat>, root: nat, mapstart: nat, k: nat, fifo: seq<nat>)
    requires WellFormed(m, roots, 5) && root in roots
    requires Key(mapstart / PAGE) + k <= PAGES && RunReady(m, root, Key(mapstart / PAGE), k)
    requires PagesDone(m, root, mapstart, k, fifo) == 0
    ensures SamePages(m.mem, VmMapRam(m, root, mapstart, k, fifo).m.mem, roots)
  {
    hide At, Ent, WellFormed, VmMapRam, PagesDone, Key, TablesReady, TablesKept;
    Shallower(m, roots);
    MapRamAnyOutcome(m, roots, root, mapstart, k, fifo);
  }

  lemma MappedCount(m: PMem, roots: set<nat>, root: nat, pgn: nat, k: nat, fifo: seq<nat>)
    requires 0 < k <= |m.free|
    requires PagesMapped(PMem(m.mem, m.free[k..]), VmapPages(PMem(m.mem, m.free[k..]), root, pgn, k, m.free[..k], fifo),
                         roots, 5, root, Key(pgn), m.free[..k], Key(pgn), Key(pgn) + k)
    ensures VmapPages(PMem(m.mem, m.free[k..]), root, pgn, k, m.free[..k], fifo).count <= k
  {
  }
}
