/**
 No frame is lost or invented: setting and mapping pages turns free frames into tables and page frames, and over whole
 runs the frames of the memory are always partitioned into free ones and ones in use.
 */
module FrameConservation {
  import opened Prelude
  import opened PageTable
  import opened PageTableUpdate
  import opened MapRam
  import opened PhysicalMemory
  import opened ProcessRuns

  /** Some process reaches frame `f` by a path of at most `depth` levels. */
  ghost predicate Used(mem: seq<Byte>, roots: set<nat>, depth: nat, f: nat)
  {
    exists x {:trigger Live(mem, roots, depth, x)} :: Live(mem, roots, depth, x) && At(mem, x) == Some(f)
  }

  /** Frame `f` is free or in use. */
  ghost predicate Accounted(m: PMem, roots: set<nat>, f: nat) { f in m.free || Used(m.mem, roots, 5, f) }

  /** Of the free frames of `m`, those no longer free in `m'` are tables there. */
  ghost predicate SpentOnTables(m: PMem, m': PMem, roots: set<nat>)
  {
    forall f :: f in m.free ==> f in m'.free || Used(m'.mem, roots, 4, f)
  }

  lemma UsedKept(m: PMem, m': PMem, roots: set<nat>, root: nat, f: nat)
    requires TablesKept(m, m', roots, root) && Used(m.mem, roots, 4, f)
    ensures Used(m'.mem, roots, 4, f)
  {
    var x :| Live(m.mem, roots, 4, x) && At(m.mem, x) == Some(f);
    assert At(m'.mem, x) == At(m.mem, x);
    assert Live(m'.mem, roots, 4, x);
  }

  lemma SpentTrans(m: PMem, m1: PMem, m2: PMem, roots: set<nat>, root: nat)
    requires SpentOnTables(m, m1, roots) && SpentOnTables(m1, m2, roots) && TablesKept(m1, m2, roots, root)
    ensures SpentOnTables(m, m2, roots)
  {
    forall f | f in m.free ensures f in m2.free || Used(m2.mem, roots, 4, f) {
      if f !in m1.free { UsedKept(m1, m2, roots, root, f); }
    }
  }

  lemma EnsureTableSpends(m: PMem, roots: set<nat>, root: nat, key: nat, level: nat, a: nat, b: nat)
    requires WellFormed(m, roots, 4) && root in roots
    requires 1 <= level <= 4 && a <= key < b <= PAGES && FramesReady(m, root, a, b)
    requires At(m.mem, Way(root, key, level - 1)).Some?
    ensures SpentOnTables(m,
            EnsureTable(m, At(m.mem, Way(root, key, level - 1)).value, Way(root, key, level).Index()).0, roots)
  {
    hide WellFormed, FramesReady, Missing;
    EnsureTableGrows(m, roots, 4, root, key, level, a, b);
    EnsureTableCases(m, root, key, level);
    var c := Way(root, key, level);
    var r := EnsureTable(m, At(m.mem, Way(root, key, level - 1)).value, c.Index());
    if At(m.mem, c).None? && m.free != [] {
      assert At(r.0.mem, c) == r.1;
      Headroom(m, root, key, level, a, b);
      assert Live(r.0.mem, roots, 4, c);
      assert m.free == [m.free[0]] + m.free[1..];
    }
  }

  /** The free frame that becomes a missing table of the window has a number that fits an entry. */
  lemma Headroom(m: PMem, root: nat, key: nat, level: nat, a: nat, b: nat)
    requires 1 <= level <= 4 && a <= key < b <= PAGES && FramesReady(m, root, a, b) && m.free != []
    requires At(m.mem, Way(root, key, level)).None?
    ensures m.free[0] < FPN_SPAN
  {
    MissingHere(m.mem, root, key, level, a, b);
  }

  /** One more level of the walk, after the levels above. */
  lemma LevelSpends(m: PMem, m1: PMem, roots: set<nat>, root: nat, key: nat, level: nat, a: nat, b: nat)
    requires root in roots && 1 <= level <= 4 && a <= key < b <= PAGES && FramesReady(m, root, a, b)
    requires Grown(m, m1, roots, 4, root, a, b) && SpentOnTables(m, m1, roots)
    requires At(m1.mem, Way(root, key, level - 1)).Some?
    ensures SpentOnTables(m,
            EnsureTable(m1, At(m1.mem, Way(root, key, level - 1)).value, Way(root, key, level).Index()).0, roots)
  {
    hide WellFormed, FramesReady, SpentOnTables, EnsureTable, Missing, Balanced, SamePages, TablesKept, At, Way;
    BalancedReady(m, m1, root, a, b);
    EnsureTableSpends(m1, roots, root, key, level, a, b);
    EnsureTableGrows(m1, roots, 4, root, key, level, a, b);
    var m2 := EnsureTable(m1, At(m1.mem, Way(root, key, level - 1)).value, Way(root, key, level).Index()).0;
    SpentTrans(m, m1, m2, roots, root);
  }

  lemma {:induction false} DescendSpends(m: PMem, roots: set<nat>, root: nat, key: nat, level: nat, a: nat, b: nat)
    requires WellFormed(m, roots, 4) && root in roots && level <= 4
    requires a <= key < b <= PAGES && FramesReady(m, root, a, b)
    ensures SpentOnTables(m, Descend(m, root, key, level).0, roots)
  {
    hide WellFormed, FramesReady, EnsureTable, Missing, Grown, At, Way, Used;
    if level == 0 {
    } else {
      DescendSpends(m, roots, root, key, level - 1, a, b);
      DescendGrows(m, roots, 4, root, key, level - 1, a, b);
      var r := Descend(m, root, key, level - 1);
      if r.1.Some? {
        LevelSpends(m, r.0, roots, root, key, level, a, b);
      }
    }
  }

  /** pte_set_fpn, whether it succeeds or runs out of frames, spends free frames on tables only. */
  lemma SetFpnSpends(m: PMem, roots: set<nat>, root: nat, pgn: nat, fpn: nat, a: nat, b: nat)
    requires WellFormed(m, roots, 4) && root in roots
    requires a <= Key(pgn) < b <= PAGES && FramesReady(m, root, a, b)
    ensures SpentOnTables(m, PteSetFpn(m, root, pgn, fpn).0, roots)
  {
    DescendSpends(m, roots, root, Key(pgn), 4, a, b);
    DescendGrows(m, roots, 4, root, Key(pgn), 4, a, b);
    var r := Descend(m, root, Key(pgn), 4);
    if r.1.Some? {
      var c := Page(root, pgn);
      var e := OnlineEntry(Slot(r.0.mem, r.1.value, c.Index()), fpn);
      var mem' := PutSlot(r.0.mem, r.1.value, c.Index(), e);
      EntryBits(Slot(r.0.mem, r.1.value, c.Index()), fpn);
      PageWritten(r.0, roots, root, pgn, r.1.value, e);
      hide WellFormed, FramesReady, PutSlot, OnlineEntry, Missing, Descend;
      forall f | f in m.free ensures f in r.0.free || Used(mem', roots, 4, f) {
        if f !in r.0.free {
          var x :| Live(r.0.mem, roots, 4, x) && At(r.0.mem, x) == Some(f);
          OnlyPageAt(r.0.mem, mem', roots, c, e, x);
          assert Live(mem', roots, 4, x);
        }
      }
    }
  }

  /** Mapping a run of pages spends free frames on tables only. */
  lemma {:induction false} VmapSpends(m: PMem, roots: set<nat>, root: nat, pgn: nat, frames: seq<nat>,
                                      fifo: seq<nat>, a: nat, b: nat)
    requires WellFormed(m, roots, 5) && root in roots
    requires a <= Key(pgn) && Key(pgn) + |frames| <= b <= PAGES && a < b && FramesReady(m, root, a, b)
    requires MayMap(m, roots, 5, frames)
    ensures SpentOnTables(m, VmapPages(m, root, pgn, |frames|, frames, fifo).m, roots)
    decreases |frames|
  {
    if frames == [] {
    } else {
      hide WellFormed, Missing, At, Ent, TableThere, MappedEntry, SpentOnTables, PteSetFpn, FramesReady;
      var s := PteSetFpn(m, root, pgn, frames[0]);
      assert frames[0] in frames;
      Shallower(m, roots);
      SetFpnSpends(m, roots, root, pgn, frames[0], a, b);
      SetFpnInWindow(m, roots, 5, root, pgn, frames[0], a, b);
      if s.1 {
        BalancedReady(m, s.0, root, a, b);
        MayMapRest(m, s, roots, 5, root, pgn, frames, a, b);
        RestSpends(m, s.0, roots, root, pgn, frames, fifo, a, b);
      }
    }
  }

  lemma {:induction false} RestSpends(m: PMem, m1: PMem, roots: set<nat>, root: nat, pgn: nat, frames: seq<nat>,
                                      fifo: seq<nat>,
                                      a: nat, b: nat)
    requires WellFormed(m1, roots, 5) && root in roots && frames != []
    requires a <= Key(pgn) && Key(pgn) + |frames| <= b <= PAGES && a < b && FramesReady(m1, root, a, b)
    requires MayMap(m1, roots, 5, frames[1..])
    requires SpentOnTables(m, m1, roots)
    ensures SpentOnTables(m, VmapPages(m1, root, pgn + 1, |frames| - 1, frames[1..], [pgn] + fifo).m, roots)
    decreases |frames|, 0
  {
    hide WellFormed, Missing, At, Ent, TableThere, MappedEntry, SpentOnTables, FramesReady, Unused, VmapPages;
    var r := VmapPages(m1, root, pgn + 1, |frames| - 1, frames[1..], [pgn] + fifo);
    if |frames| > 1 {
      NextKey(pgn);
      VmapSpends(m1, roots, root, pgn + 1, frames[1..], [pgn] + fifo, a, b);
      VmapKeeps(m1, roots, 5, root, pgn + 1, frames[1..], [pgn] + fifo, a, b);
      SpentTrans(m, m1, r.m, roots, root);
    } else {
      NothingLeftToMap(m1, root, pgn + 1, frames[1..], [pgn] + fifo);
    }
  }

  lemma NothingLeftToMap(m: PMem, root: nat, pgn: nat, frames: seq<nat>, fifo: seq<nat>)
    requires frames == []
    ensures VmapPages(m, root, pgn, |frames|, frames, fifo).m == m
  {
  }

  // ---- vm_map_ram ----------------------------------------------------------------------------------------

  /** None of the `k` pages from key `a` on is mapped. */
  ghost predicate Bare(mem: seq<Byte>, root: nat, a: nat, k: nat)
  {
    forall key {:trigger Path(root, 5, key)} :: a <= key < a + k ==> At(mem, Path(root, 5, key)).None?
  }

  /** The same frames are free or in use. */
  ghost predicate SameFrames(m: PMem, m': PMem, roots: set<nat>)
  {
    forall f :: Accounted(m, roots, f) <==> Accounted(m', roots, f)
  }

  /** What a successful vm_map_ram did, frame by frame. */
  ghost predicate RangeMapped(m: PMem, m': PMem, roots: set<nat>, root: nat, a: nat, k: nat)
    requires k <= |m.free|
  {
    && WellFormed(m', roots, 5) && (forall f :: f in m'.free ==> f in m.free[k..])
    && TablesKept(PMem(m.mem, m.free[k..]), m', roots, root)
    && SpentOnTables(PMem(m.mem, m.free[k..]), m', roots)
    && (forall i :: 0 <= i < k ==> m.free[i] < FPN_SPAN)
    && (forall y: Path {:trigger Ent(m'.mem, y)} :: y.root in roots && y.level == 5 ==>
          Ent(m'.mem, y) == MappedEntry(Ent(m.mem, y), y, root, a, m.free[..k]))
  }

  lemma HandUnusedAfter(m: PMem, roots: set<nat>, root: nat, a: nat, k: nat)
    requires WellFormed(m, roots, 5) && 0 < k <= |m.free| && RunReady(m, root, a, k)
    ensures MayMap(PMem(m.mem, m.free[k..]), roots, 5, m.free[..k]) && forall i :: 0 <= i < k ==> m.free[i] < FPN_SPAN
  {
    AllocationPhase(m, roots, root, a, k);
    HandUnused(PMem(m.mem, m.free[k..]), roots, m.free[..k]);
  }

  lemma MapRamMaps(m: PMem, roots: set<nat>, root: nat, mapstart: nat, k: nat, fifo: seq<nat>)
    requires WellFormed(m, roots, 5) && root in roots && k > 0
    requires Key(mapstart / PAGE) + k <= PAGES && RunReady(m, root, Key(mapstart / PAGE), k)
    requires VmMapRam(m, root, mapstart, k, fifo).ok
    ensures k <= |m.free| &&
            RangeMapped(m, VmMapRam(m, root, mapstart, k, fifo).m, roots, root, Key(mapstart / PAGE), k)
  {
    hide WellFormed, Missing, At, Ent, MappedEntry, TablesKept;
    hide Balanced, FramesReady, Key, SpentOnTables, VmapPages, Unused;
    MapRamRefines(m, roots, root, mapstart, k, fifo);
    HandUnusedAfter(m, roots, root, Key(mapstart / PAGE), k);
    var m1, a := PMem(m.mem, m.free[k..]), Key(mapstart / PAGE);
    AllocationPhase(m, roots, root, a, k);
    MappingPhase(m, roots, root, mapstart / PAGE, k, fifo);
    VmapSpends(m1, roots, root, mapstart / PAGE, m.free[..k], fifo, a, a + k);
  }

  /** Frame `i` of those handed to the pages is in use. */
  lemma HandedOut(m: PMem, m': PMem, roots: set<nat>, root: nat, a: nat, k: nat, i: nat)
    requires k <= |m.free| && i < k && root in roots && RangeMapped(m, m', roots, root, a, k)
    ensures Used(m'.mem, roots, 5, m.free[i])
  {
    hide WellFormed, TablesKept, SpentOnTables;
    var y := Path(root, 5, a + i);
    EntryBits(Ent(m.mem, y), m.free[i]);
    assert Ent(m'.mem, y) == OnlineEntry(Ent(m.mem, y), m.free[..k][i]);
    hide OnlineEntry, Ent;
    assert Live(m'.mem, roots, 5, y) && At(m'.mem, y) == Some(m.free[i]);
  }

  lemma ForwardFree(m: PMem, m': PMem, roots: set<nat>, root: nat, a: nat, k: nat, f: nat)
    requires k <= |m.free| && root in roots && RangeMapped(m, m', roots, root, a, k) && f in m.free
    ensures Accounted(m', roots, f)
  {
    hide WellFormed, TablesKept, MappedEntry, Ent, At;
    var i :| 0 <= i < |m.free| && m.free[i] == f;
    if i < k {
      HandedOut(m, m', roots, root, a, k, i);
    } else {
      assert m.free[k..][i - k] == f;
      if f !in m'.free { Deeper(m'.mem, roots, f); }
    }
  }

  lemma Deeper(mem: seq<Byte>, roots: set<nat>, f: nat)
    requires Used(mem, roots, 4, f)
    ensures Used(mem, roots, 5, f)
  {
    var x :| Live(mem, roots, 4, x) && At(mem, x) == Some(f);
    assert Live(mem, roots, 5, x);
  }

  /** A path in use whose page, if it is one, is not in the range leads where it led. */
  lemma OutsideKept(m: PMem, m': PMem, roots: set<nat>, root: nat, a: nat, k: nat, x: Path)
    requires k <= |m.free| && RangeMapped(m, m', roots, root, a, k) && Live(m.mem, roots, 5, x)
    requires !(x.level == 5 && x.root == root && a <= x.prefix < a + k)
    ensures At(m'.mem, x) == At(m.mem, x)
  {
    hide WellFormed, SpentOnTables;
    if x.level == 5 { assert Ent(m'.mem, x) == Ent(m.mem, x); }
  }

  /** Frames in use afterwards were free or in use before; a page of the range uses a frame that was free. */
  lemma Backward(m: PMem, m': PMem, roots: set<nat>, root: nat, a: nat, k: nat, x: Path)
    requires k <= |m.free| && RangeMapped(m, m', roots, root, a, k) && Live(m'.mem, roots, 5, x)
    ensures At(m'.mem, x).value in m.free || At(m.mem, x) == At(m'.mem, x)
    ensures x.level == 5 && x.root == root && a <= x.prefix < a + k ==> At(m'.mem, x).value in m.free
  {
    hide WellFormed, SpentOnTables;
    if x.level == 5 {
      if x.root == root && a <= x.prefix < a + k {
        var i := x.prefix - a;
        EntryBits(Ent(m.mem, x), m.free[i]);
        assert Ent(m'.mem, x) == OnlineEntry(Ent(m.mem, x), m.free[..k][i]);
      } else {
        assert Ent(m'.mem, x) == Ent(m.mem, x);
      }
    }
  }

  /** A page of the range that was mapped gives up its frame, and nothing else takes it. */
  lemma Orphaned(m: PMem, m': PMem, roots: set<nat>, root: nat, a: nat, k: nat, key: nat)
    requires k <= |m.free| && root in roots && WellFormed(m, roots, 5) && RangeMapped(m, m', roots, root, a, k)
    requires a <= key < a + k && At(m.mem, Path(root, 5, key)).Some?
    ensures var f := At(m.mem, Path(root, 5, key)).value; Accounted(m, roots, f) && !Accounted(m', roots, f)
  {
    hide MappedEntry, Ent, At, TablesKept, SpentOnTables;
    var y := Path(root, 5, key);
    var f := At(m.mem, y).value;
    assert Live(m.mem, roots, 5, y);
    forall x | Live(m'.mem, roots, 5, x) ensures At(m'.mem, x) != Some(f) {
      Backward(m, m', roots, root, a, k, x);
      assert At(m.mem, x) == Some(f) ==> x == y || !Live(m.mem, roots, 5, x);
    }
  }

  /**
   Frame conservation of vm_map_ram: a successful mapping keeps the frames that are free or in use, all told, exactly
   when none of its pages was mapped before; the old frame of a page mapped again is neither afterwards.
   */
  lemma MapRamConserves(m: PMem, roots: set<nat>, root: nat, mapstart: nat, k: nat, fifo: seq<nat>)
    requires WellFormed(m, roots, 5) && root in roots && k > 0
    requires Key(mapstart / PAGE) + k <= PAGES && RunReady(m, root, Key(mapstart / PAGE), k)
    requires VmMapRam(m, root, mapstart, k, fifo).ok
    ensures SameFrames(m, VmMapRam(m, root, mapstart, k, fifo).m, roots) <==> Bare(m.mem, root, Key(mapstart / PAGE), k)
  {
    MapRamMaps(m, roots, root, mapstart, k, fifo);
    var m', a := VmMapRam(m, root, mapstart, k, fifo).m, Key(mapstart / PAGE);
    hide VmMapRam, RunReady, Key, WellFormed, At, Accounted;
    if Bare(m.mem, root, a, k) {
      BareConserves(m, m', roots, root, a, k);
    } else {
      var key :| a <= key < a + k && At(m.mem, Path(root, 5, key)).Some?;
      Orphaned(m, m', roots, root, a, k, key);
    }
  }

  lemma BareConserves(m: PMem, m': PMem, roots: set<nat>, root: nat, a: nat, k: nat)
    requires k <= |m.free| && root in roots && RangeMapped(m, m', roots, root, a, k) && Bare(m.mem, root, a, k)
    ensures SameFrames(m, m', roots)
  {
    forall f | Accounted(m, roots, f) ensures Accounted(m', roots, f) {
      hide RangeMapped, At;
      if f in m.free {
        ForwardFree(m, m', roots, root, a, k, f);
      } else {
        var x :| Live(m.mem, roots, 5, x) && At(m.mem, x) == Some(f);
        assert x.level == 5 && x.root == root ==> x == Path(root, 5, x.prefix);
        OutsideKept(m, m', roots, root, a, k, x);
        assert Live(m'.mem, roots, 5, x);
      }
    }
    forall f | Accounted(m', roots, f) ensures Accounted(m, roots, f) {
      hide At, Ent, MappedEntry, TablesKept, SpentOnTables;
      if f !in m'.free {
        var x :| Live(m'.mem, roots, 5, x) && At(m'.mem, x) == Some(f);
        Backward(m, m', roots, root, a, k, x);
        assert At(m.mem, x) == At(m'.mem, x) ==> Live(m.mem, roots, 5, x);
      } else {
        assert f in m.free[k..];
      }
    }
  }

  // ---- runs ----------------------------------------------------------------------------------------------

  /** A run of new address spaces and of mappings of pages not mapped before. */
  ghost predicate FirstMappings(s: Kernel, ops: seq<Op>)
    decreases |ops|
  {
    ops == [] ||
      (!ops[0].SetPage? && (ops[0].MapRange? ==> Bare(s.m.mem, ops[0].root, Key(ops[0].addr / PAGE), ops[0].k))
                  && FirstMappings(Step(s, ops[0]), ops[1..]))
  }

  /** A new address space turns the first free frame into a directory. */
  lemma NewMmConserves(s: Kernel, f: nat)
    requires WellFormed(s.m, s.roots, 5) && Allowed(s, NewMm, 5)
    ensures var s' := Step(s, NewMm); Accounted(s'.m, s'.roots, f) <==> Accounted(s.m, s.roots, f)
  {
    if s.m.free != [] {
      NewDirectoryKeeps(s.m, s.roots, 5);
      hide WellFormed;
      var s', g := Step(s, NewMm), s.m.free[0];
      assert s.m.free == [g] + s'.m.free;
      assert Live(s'.m.mem, s'.roots, 5, Path(g, 0, 0));
      forall x | Live(s.m.mem, s.roots, 5, x) ensures Live(s'.m.mem, s'.roots, 5, x) {}
      forall x: Path | x.root == g && x.level >= 1 ensures At(s'.m.mem, x).None? {
        assert Ent(s'.m.mem, x) == 0;
      }
      forall x | Live(s'.m.mem, s'.roots, 5, x) && x != Path(g, 0, 0) ensures Live(s.m.mem, s.roots, 5, x) {}
    }
  }

  /** A mapping that gives up before its first page makes tables of some frames and returns the rest. */
  lemma HarmlessConserves(m: PMem, roots: set<nat>, root: nat, mapstart: nat, k: nat, fifo: seq<nat>)
    requires WellFormed(m, roots, 5) && root in roots && k > 0
    requires Key(mapstart / PAGE) + k <= PAGES && RunReady(m, root, Key(mapstart / PAGE), k)
    requires var a := Key(mapstart / PAGE);
             k <= |m.free| < k + Missing(m.mem, root, a, a + k) && |m.free| < k + Missing(m.mem, root, a, a + 1)
    ensures SameFrames(m, VmMapRam(m, root, mapstart, k, fifo).m, roots)
  {
    hide WellFormed, Missing, At, Ent, TablesKept, SamePages, Key;
    hide RunReady, VmapPages, SpentOnTables, Used, Live, MayMap, MappedEntry;
    var a := Key(mapstart / PAGE);
    var m1, frames := PMem(m.mem, m.free[k..]), m.free[..k];
    var r := VmapPages(m1, root, mapstart / PAGE, k, frames, fifo);
    AllocationPhase(m, roots, root, a, k);
    HandUnusedAfter(m, roots, root, a, k);
    MappingPhase(m, roots, root, mapstart / PAGE, k, fifo);
    MappingFailure(m, roots, root, mapstart, k, fifo);
    VmapSpends(m1, roots, root, mapstart / PAGE, frames, fifo, a, a + k);
    FreeFramesExactly(r.m, frames);
    Reshuffled(m, m1, frames, r.m, FreeFrames(r.m, frames), roots, root);
  }

  lemma {:induction false} FreeFramesExactly(m: PMem, frames: seq<nat>)
    ensures FreeFrames(m, frames).mem == m.mem
    ensures forall f :: f in FreeFrames(m, frames).free <==> f in frames || f in m.free
    decreases |frames|
  {
    if frames == [] {
    } else {
      FreeFramesExactly(PutFree(m, frames[0]), frames[1..]);
      assert frames == [frames[0]] + frames[1..];
    }
  }

  /** From `m`, frames taken into a hand, tables made of others, and the hand returned, with no page changed. */
  lemma Reshuffled(m: PMem, m1: PMem, hand: seq<nat>, m2: PMem, m': PMem, roots: set<nat>, root: nat)
    requires m1.mem == m.mem && m.free == hand + m1.free
    requires TablesKept(m1, m2, roots, root) && SpentOnTables(m1, m2, roots) &&
             (forall f :: f in m2.free ==> f in m1.free)
    requires m'.mem == m2.mem && SamePages(m.mem, m'.mem, roots)
    requires forall f :: f in m'.free <==> f in hand || f in m2.free
    ensures SameFrames(m, m', roots)
  {
    forall f | Accounted(m, roots, f) ensures Accounted(m', roots, f) {
      if f in m1.free {
        if f !in m2.free { Deeper(m'.mem, roots, f); }
      } else if f !in hand {
        var x :| Live(m.mem, roots, 5, x) && At(m.mem, x) == Some(f);
        if x.level == 5 { assert Ent(m'.mem, x) == Ent(m.mem, x); } else { assert At(m2.mem, x) == At(m1.mem, x); }
        assert Live(m'.mem, roots, 5, x);
      }
    }
    forall f | Accounted(m', roots, f) ensures Accounted(m, roots, f) {
      if f !in m'.free {
        var x :| Live(m'.mem, roots, 5, x) && At(m'.mem, x) == Some(f);
        if x.level == 5 {
          assert Ent(m'.mem, x) == Ent(m.mem, x);
          assert Live(m.mem, roots, 5, x);
        } else if At(m2.mem, x) == At(m1.mem, x) {
          assert Live(m.mem, roots, 5, x);
        }
      }
    }
  }

  lemma StepConserves(s: Kernel, op: Op, f: nat)
    requires WellFormed(s.m, s.roots, 5) && Allowed(s, op, 5) && !op.SetPage?
    requires op.MapRange? ==> Bare(s.m.mem, op.root, Key(op.addr / PAGE), op.k)
    ensures var s' := Step(s, op); Accounted(s'.m, s'.roots, f) <==> Accounted(s.m, s.roots, f)
  {
    match op
    case NewMm => NewMmConserves(s, f);
    case MapRange(root, addr, k) => MapRangeConserves(s, root, addr, k, f);
  }

  lemma MapRangeConserves(s: Kernel, root: nat, addr: nat, k: nat, f: nat)
    requires WellFormed(s.m, s.roots, 5) && Allowed(s, MapRange(root, addr, k), 5) &&
             Bare(s.m.mem, root, Key(addr / PAGE), k)
    ensures Accounted(VmMapRam(s.m, root, addr, k, []).m, s.roots, f) <==> Accounted(s.m, s.roots, f)
  {
    hide WellFormed, At, Ent, MissingDownTo, Bare, Used, Key, TablesReady, MappedEntry;
    if k == 0 {
      NothingToMap(s.m, root, addr, []);
    } else if |s.m.free| < k {
      AllocationFailure(s.m, s.roots, 5, root, addr, k, []);
    } else {
      var a := Key(addr / PAGE);
      hide VmMapRam;
      if k + Missing(s.m.mem, root, a, a + k) <= |s.m.free| {
        MapRamRefines(s.m, s.roots, root, addr, k, []);
        MapRamConserves(s.m, s.roots, root, addr, k, []);
      } else {
        HarmlessConserves(s.m, s.roots, root, addr, k, []);
      }
    }
  }

  lemma {:induction false} RunConserves(s: Kernel, ops: seq<Op>, f: nat)
    requires WellFormed(s.m, s.roots, 5) && AllowedRun(s, ops, 5) && FirstMappings(s, ops)
    ensures var s' := Run(s, ops); Accounted(s'.m, s'.roots, f) <==> Accounted(s.m, s.roots, f)
    decreases |ops|
  {
    if ops == [] {
    } else {
      hide WellFormed, Accounted, Bare, Allowed, Step, Key;
      StepConserves(s, ops[0], f);
      StepKeeps(s, ops[0], 5);
      RunConserves(Step(s, ops[0]), ops[1..], f);
    }
  }

  /**
   From a fresh memory, after any run of new address spaces and first mappings by any processes, the frames 0 to
   maxsz/256 - 1 are partitioned: each is free, or reached by exactly one path - as a directory, a table or a page -
   and no other number is either.
   */
  lemma FramesPartitioned(maxsz: nat, ops: seq<Op>, f: nat, x: Path, y: Path)
    requires AllowedRun(Fresh(maxsz), ops, 5) && FirstMappings(Fresh(maxsz), ops)
    ensures var s := Run(Fresh(maxsz), ops);
            && (f < maxsz / CELLS <==> f in s.m.free || Used(s.m.mem, s.roots, 5, f))
            && !(f in s.m.free && Used(s.m.mem, s.roots, 5, f))
            && (Live(s.m.mem, s.roots, 5, x) && Live(s.m.mem, s.roots, 5, y) && At(s.m.mem, x) == At(s.m.mem, y) ==>
               x == y)
  {
    FreshWellFormed(maxsz, 5);
    FreshFrames(maxsz, f);
    RunConserves(Fresh(maxsz), ops, f);
    RunKeeps(Fresh(maxsz), ops, 5);
    hide Run, Fresh;
  }

  lemma FreshFrames(maxsz: nat, f: nat)
    ensures Accounted(Fresh(maxsz).m, {}, f) <==> f < maxsz / CELLS
  {
    var free := UpTo(maxsz / CELLS);
    if f < maxsz / CELLS { assert free[f] == f; }
    forall x ensures !Live(Fresh(maxsz).m.mem, {}, 5, x) {}
  }
}
