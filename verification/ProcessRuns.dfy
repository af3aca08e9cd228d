/**
 Whole runs of many processes sharing one memory: new address spaces, single pages set, ranges mapped.
 A process is known by the frame of its top directory, which mm->pgd points to.
 */
module ProcessRuns {
  import opened Prelude
  import opened PageTable
  import opened PageTableUpdate
  import opened MapRam
  import opened PhysicalMemory
  import A = PageMap

  /** The bytes of frame `f` set to zero, as init_mm does with a new top directory. */
  function ZeroOut(mem: seq<Byte>, f: nat): (r: seq<Byte>)
    ensures |r| == |mem|
    ensures forall a :: 0 <= a < |mem| ==> r[a] == if f * PAGE <= a < (f + 1) * PAGE then 0 else mem[a]
  {
    seq(|mem|, a requires 0 <= a < |mem| => if f * PAGE <= a < (f + 1) * PAGE then 0 else mem[a])
  }

  /** The directory part of init_mm: the first free frame, cleared, becomes the top directory. */
  function NewDirectory(m: PMem): (PMem, Option<nat>)
  {
    if m.free == [] then (m, None) else (PMem(ZeroOut(m.mem, m.free[0]), m.free[1..]), Some(m.free[0]))
  }

  /** A new address space maps nothing, shares no table with another process and changes no other page entry. */
  lemma NewDirectoryKeeps(m: PMem, roots: set<nat>, depth: nat)
    requires 4 <= depth <= 5 && WellFormed(m, roots, depth) && m.free != [] && Backed(m.mem, m.free[0])
    ensures var (m', g) := NewDirectory(m);
            && g == Some(m.free[0]) && g.value !in roots
            && m'.mem == m.mem
            && WellFormed(m', roots + {g.value}, depth)
            && (forall y: Path {:trigger Ent(m'.mem, y)} :: y.root == g.value && y.level >= 1 ==> Ent(m'.mem, y) == 0)
  {
    var g := m.free[0];
    assert g in m.free && ZeroFrame(m.mem, g);
    assert ZeroOut(m.mem, g) == m.mem;
    if g in roots {
      assert Live(m.mem, roots, depth, Path(g, 0, 0));
    }
    forall y: Path | y.root == g && y.level >= 1 ensures Ent(m.mem, y) == 0 {
      EmptyDirectory(m.mem, g, y);
    }
    var roots' := roots + {g};
    forall x | Live(m.mem, roots', depth, x)
      ensures x == Path(g, 0, 0) || (Live(m.mem, roots, depth, x) && x.root != g)
    {
    }
  }

  /** A new directory is empty whatever its frame held before, and no byte outside the frame changes. */
  lemma NewDirectoryClears(m: PMem, y: Path, a: nat)
    requires m.free != [] && Backed(m.mem, m.free[0])
    ensures var m' := NewDirectory(m).0;
            && (y.root == m.free[0] && y.level >= 1 ==> Ent(m'.mem, y) == 0)
            && |m'.mem| == |m.mem|
            && (a < |m.mem| && !(m.free[0] * PAGE <= a < (m.free[0] + 1) * PAGE) ==> m'.mem[a] == m.mem[a])
  {
    if y.root == m.free[0] && y.level >= 1 { EmptyDirectory(NewDirectory(m).0.mem, m.free[0], y); }
  }

  // ---- the meaning of memory -----------------------------------------------------------------------------

  /** The address spaces that the bytes of a memory stand for. */
  ghost function Abs(m: PMem, roots: set<nat>): A.Spaces
  {
    A.Spaces(roots, iset x: Path | x.root in roots && 1 <= x.level <= 4 && At(m.mem, x).Some?,
             imap y: Path | y.root in roots && y.level == 5 :: Ent(m.mem, y), m.free)
  }

  /** A memory that gained the table of path `c` from the head of the free list. */
  lemma GainedAbs(m: PMem, m': PMem, roots: set<nat>, c: Path)
    requires m.free != [] && m'.free == m.free[1..] && SamePages(m.mem, m'.mem, roots)
    requires c.root in roots && 1 <= c.level <= 4 && At(m'.mem, c).Some? && OnlyWay(m.mem, m'.mem, roots, c)
    ensures Abs(m', roots) == Abs(m, roots).(tables := Abs(m, roots).tables + iset{c}, free := m.free[1..])
  {
    var s, s' := Abs(m, roots), Abs(m', roots);
    forall x: Path | x.root in roots && 1 <= x.level <= 4 && x != c ensures At(m'.mem, x) == At(m.mem, x) {}
    assert s'.tables == s.tables + iset{c};
    assert s'.entry == s.entry by {
      forall y | y in s.entry ensures y in s'.entry && s'.entry[y] == s.entry[y] {
        assert Ent(m'.mem, y) == Ent(m.mem, y);
      }
    }
  }

  lemma EnsureTableAbs(m: PMem, roots: set<nat>, root: nat, key: nat, level: nat, a: nat, b: nat)
    requires WellFormed(m, roots, 4) && root in roots
    requires 1 <= level <= 4 && a <= key < b <= PAGES && FramesReady(m, root, a, b)
    requires At(m.mem, Way(root, key, level - 1)).Some?
    ensures var (m', t) := EnsureTable(m, At(m.mem, Way(root, key, level - 1)).value, Way(root, key, level).Index());
            (Abs(m', roots), t.Some?) == A.EnsurePath(Abs(m, roots), Way(root, key, level))
  {
    hide WellFormed, FramesReady, Missing, Balanced, TablesKept, SamePages;
    EnsureTableGrows(m, roots, 4, root, key, level, a, b);
    EnsureTableCases(m, root, key, level);
    var c := Way(root, key, level);
    var (m', t) := EnsureTable(m, At(m.mem, Way(root, key, level - 1)).value, c.Index());
    if At(m.mem, c).None? && m.free != [] {
      GainedAbs(m, m', roots, c);
    }
  }

  lemma {:induction false} DescendAbs(m: PMem, roots: set<nat>, root: nat, key: nat, level: nat, a: nat, b: nat)
    requires WellFormed(m, roots, 4) && root in roots && level <= 4
    requires a <= key < b <= PAGES && FramesReady(m, root, a, b)
    ensures var (m', t) := Descend(m, root, key, level);
            (Abs(m', roots), t.Some?) == A.EnsureWay(Abs(m, roots), root, key, level)
  {
    hide WellFormed, FramesReady, EnsureTable, Missing, At, Way, Abs, A.EnsurePath, SamePages, TablesKept, Balanced;
    if level == 0 {
    } else {
      DescendAbs(m, roots, root, key, level - 1, a, b);
      DescendGrows(m, roots, 4, root, key, level - 1, a, b);
      var r := Descend(m, root, key, level - 1);
      if r.1.Some? {
        BalancedReady(m, r.0, root, a, b);
        EnsureTableAbs(r.0, roots, root, key, level, a, b);
      }
    }
  }

  /** The last step of pte_set_fpn, in terms of address spaces. */
  lemma PageWrittenAbs(m: PMem, roots: set<nat>, root: nat, pgn: nat, f: nat, fpn: nat)
    requires WellFormed(m, roots, 4) && root in roots && At(m.mem, Way(root, Key(pgn), 4)) == Some(f)
    ensures var i, y, s := Page(root, pgn).Index(), Page(root, pgn), Abs(m, roots);
            Abs(PMem(PutSlot(m.mem, f, i, OnlineEntry(Slot(m.mem, f, i), fpn)), m.free), roots) ==
            s.(entry := s.entry[y := OnlineEntry(A.EntryOf(s, y), fpn)])
  {
    var i, y, s := Page(root, pgn).Index(), Page(root, pgn), Abs(m, roots);
    var e := OnlineEntry(Slot(m.mem, f, i), fpn);
    EntryBits(Slot(m.mem, f, i), fpn);
    PageWritten(m, roots, root, pgn, f, e);
    hide WellFormed, PutSlot, Slot, OnlineEntry;
    var mem' := PutSlot(m.mem, f, i, e);
    var s' := Abs(PMem(mem', m.free), roots);
    forall x: Path | x.root in roots && x.level <= 4 ensures At(mem', x) == At(m.mem, x) {
      OnlyPageAt(m.mem, mem', roots, y, e, x);
    }
    assert s'.tables == s.tables;
    assert s'.entry == s.entry[y := e];
  }

  lemma SetFpnAbs(m: PMem, roots: set<nat>, root: nat, pgn: nat, fpn: nat, a: nat, b: nat)
    requires WellFormed(m, roots, 4) && root in roots
    requires a <= Key(pgn) < b <= PAGES && FramesReady(m, root, a, b)
    ensures var (m', ok) := PteSetFpn(m, root, pgn, fpn);
            (Abs(m', roots), ok) == A.SetPage(Abs(m, roots), root, pgn, fpn)
  {
    hide WellFormed, FramesReady, Missing, At, Abs, SamePages;
    hide TablesKept, Balanced, OnlineEntry, PutSlot, Slot, A.EnsureWay;
    DescendAbs(m, roots, root, Key(pgn), 4, a, b);
    DescendGrows(m, roots, 4, root, Key(pgn), 4, a, b);
    var r := Descend(m, root, Key(pgn), 4);
    if r.1.Some? { PageWrittenAbs(r.0, roots, root, pgn, r.1.value, fpn); }
  }

  lemma {:induction false} VmapAbs(m: PMem, roots: set<nat>, root: nat, pgn: nat, frames: seq<nat>, fifo: seq<nat>,
                                   a: nat, b: nat)
    requires WellFormed(m, roots, 4) && root in roots
    requires a <= Key(pgn) && Key(pgn) + |frames| <= b <= PAGES && a < b && FramesReady(m, root, a, b)
    ensures var r := VmapPages(m, root, pgn, |frames|, frames, fifo);
            (Abs(r.m, roots), r.count) == A.SetPages(Abs(m, roots), root, pgn, frames)
    decreases |frames|
  {
    hide WellFormed, FramesReady, Missing, At, Ent, Abs, PteSetFpn, A.SetPage, Key;
    if frames == [] {
    } else {
      var s := PteSetFpn(m, root, pgn, frames[0]);
      SetFpnAbs(m, roots, root, pgn, frames[0], a, b);
      SetFpnInWindow(m, roots, 4, root, pgn, frames[0], a, b);
      if s.1 {
        BalancedReady(m, s.0, root, a, b);
        RestAbs(s.0, roots, root, pgn, frames, fifo, a, b);
      }
    }
  }

  lemma {:induction false} RestAbs(m1: PMem, roots: set<nat>, root: nat, pgn: nat, frames: seq<nat>,
                                   fifo: seq<nat>, a: nat, b: nat)
    requires WellFormed(m1, roots, 4) && root in roots && frames != []
    requires a <= Key(pgn) && Key(pgn) + |frames| <= b <= PAGES && a < b && FramesReady(m1, root, a, b)
    ensures var r := VmapPages(m1, root, pgn + 1, |frames| - 1, frames[1..], [pgn] + fifo);
            (Abs(r.m, roots), r.count) == A.SetPages(Abs(m1, roots), root, pgn + 1, frames[1..])
    decreases |frames|, 0
  {
    hide WellFormed, FramesReady, Missing, Abs;
    if |frames| == 1 {
      assert frames[1..] == [];
    } else {
      NextKey(pgn);
      VmapAbs(m1, roots, root, pgn + 1, frames[1..], [pgn] + fifo, a, b);
    }
  }

  lemma {:induction false} FreeFramesAbs(m: PMem, roots: set<nat>, frames: seq<nat>)
    ensures Abs(FreeFrames(m, frames), roots) == Abs(m, roots).(free := A.Returned(m.free, frames))
    decreases |frames|
  {
    if frames == [] {
    } else {
      FreeFramesAbs(PutFree(m, frames[0]), roots, frames[1..]);
      SameMemAbs(m, PutFree(m, frames[0]), roots);
    }
  }

  lemma SameMemAbs(m: PMem, m': PMem, roots: set<nat>)
    requires m'.mem == m.mem
    ensures Abs(m', roots) == Abs(m, roots).(free := m'.free)
  {
  }

  /** vm_map_ram, whatever it comes to, is the mapping of pages on address spaces. */
  lemma MapRamAbs(m: PMem, roots: set<nat>, root: nat, mapstart: nat, k: nat, fifo: seq<nat>)
    requires WellFormed(m, roots, 4) && root in roots
    requires Key(mapstart / PAGE) + k <= PAGES && TablesReady(m, root, Key(mapstart / PAGE), k)
    ensures var r := VmMapRam(m, root, mapstart, k, fifo);
            (Abs(r.m, roots), r.ok) == A.MapPages(Abs(m, roots), root, mapstart / PAGE, k)
  {
    hide WellFormed, Key, FramesReady, VmapPages, FreeFrames, Abs, A.SetPages, A.Returned;
    var (m1, frames) := AllocPages(m, k);
    AbsFree(m, roots);
    SameMemAbs(m, m1, roots);
    if k == 0 {
      NothingSet(m, roots, root, mapstart, fifo);
    } else if |m.free| < k {
      assert frames == m.free && m1.free == [];
      FreeFramesAbs(m1, roots, frames);
    } else {
      AllocKeeps(m, roots, 4, k);
      VmapAbs(m1, roots, root, mapstart / PAGE, frames, fifo, Key(mapstart / PAGE), Key(mapstart / PAGE) + k);
      var r := VmapPages(m1, root, mapstart / PAGE, k, frames, fifo);
      AbsFree(r.m, roots);
      FreeFramesAbs(r.m, roots, frames);
    }
  }

  lemma AbsFree(m: PMem, roots: set<nat>)
    ensures Abs(m, roots).free == m.free && Abs(m, roots).roots == roots
  {
  }

  lemma NothingSet(m: PMem, roots: set<nat>, root: nat, mapstart: nat, fifo: seq<nat>)
    ensures VmMapRam(m, root, mapstart, 0, fifo) == MapResult(m, fifo, true)
    ensures A.MapPages(Abs(m, roots), root, mapstart / PAGE, 0) == (Abs(m, roots), true)
  {
    assert m.free[0..] == m.free;
  }

  /** init_mm is the new address space. */
  lemma NewDirectoryAbs(m: PMem, roots: set<nat>, depth: nat)
    requires 4 <= depth <= 5 && WellFormed(m, roots, depth) && m.free != [] && Backed(m.mem, m.free[0])
    ensures Abs(NewDirectory(m).0, roots + {m.free[0]}) == A.NewSpace(Abs(m, roots))
  {
    NewDirectoryKeeps(m, roots, depth);
    hide WellFormed;
    var m', g := NewDirectory(m).0, m.free[0];
    var s, s' := A.NewSpace(Abs(m, roots)), Abs(m', roots + {g});
    forall x: Path | x.root == g && x.level >= 1 ensures At(m'.mem, x).None? || x.level > 4 {
      assert Ent(m'.mem, x) == 0;
    }
    assert s'.tables == s.tables;
    assert s'.entry == s.entry by {
      forall y: Path | y.root in roots + {g} && y.level == 5 ensures s'.entry[y] == s.entry[y] {
        assert y.root == g ==> Ent(m'.mem, y) == 0;
      }
    }
  }

  // ---- runs ----------------------------------------------------------------------------------------------

  datatype Op = NewMm | SetPage(root: nat, pgn: nat, fpn: nat) | MapRange(root: nat, addr: nat, k: nat)

  /** The shared memory and the processes using it. */
  datatype Kernel = Kernel(m: PMem, roots: set<nat>)

  function Step(s: Kernel, op: Op): Kernel
  {
    match op
    case NewMm =>
      var (m', g) := NewDirectory(s.m);
      if g.None? then s else Kernel(m', s.roots + {g.value})
    case SetPage(root, pgn, fpn) => s.(m := PteSetFpn(s.m, root, pgn, fpn).0)
    case MapRange(root, addr, k) => s.(m := VmMapRam(s.m, root, addr, k, []).m)
  }

  /** What an operation needs from its caller: a process that exists, and usable frames where tables are to be made. */
  ghost predicate TablesAllowed(s: Kernel, op: Op)
  {
    match op
    case NewMm => s.m.free == [] || Backed(s.m.mem, s.m.free[0])
    case SetPage(root, pgn, fpn) => root in s.roots && FramesReady(s.m, root, Key(pgn), Key(pgn) + 1)
    case MapRange(root, addr, k) =>
      root in s.roots && Key(addr / PAGE) + k <= PAGES && TablesReady(s.m, root, Key(addr / PAGE), k)
  }

  /**
   What it needs besides where the frames of pages matter: a single page is given a frame that is nobody's, and no
   mapping gives up after its first page.
   */
  ghost predicate PagesAllowed(s: Kernel, op: Op)
  {
    match op
    case NewMm => true
    case SetPage(root, pgn, fpn) => Unused(s.m, s.roots, fpn)
    case MapRange(root, addr, k) =>
      var a := Key(addr / PAGE);
      && RunReady(s.m, root, a, k)
      && (0 < k <= |s.m.free| ==> || k + Missing(s.m.mem, root, a, a + k) <= |s.m.free|
                                  || |s.m.free| < k + Missing(s.m.mem, root, a, a + 1))
  }

  ghost predicate Allowed(s: Kernel, op: Op, depth: nat)
  {
    TablesAllowed(s, op) && (depth == 5 ==> PagesAllowed(s, op))
  }

  /** The states a run goes through, every operation allowed where it happens. */
  ghost predicate AllowedRun(s: Kernel, ops: seq<Op>, depth: nat)
    decreases |ops|
  {
    ops == [] || (Allowed(s, ops[0], depth) && AllowedRun(Step(s, ops[0]), ops[1..], depth))
  }

  function Run(s: Kernel, ops: seq<Op>): Kernel
    decreases |ops|
  {
    if ops == [] then s else Run(Step(s, ops[0]), ops[1..])
  }

  /** The same operation on address spaces. */
  ghost function MapStep(s: A.Spaces, op: Op): A.Spaces
  {
    match op
    case NewMm => A.NewSpace(s)
    case SetPage(root, pgn, fpn) => A.SetPage(s, root, pgn, fpn).0
    case MapRange(root, addr, k) => A.MapPages(s, root, addr / PAGE, k).0
  }

  ghost function MapRun(s: A.Spaces, ops: seq<Op>): A.Spaces
    decreases |ops|
  {
    if ops == [] then s else MapRun(MapStep(s, ops[0]), ops[1..])
  }

  /** Abstraction commutes with every operation, failed mappings included. */
  lemma StepAbs(s: Kernel, op: Op)
    requires WellFormed(s.m, s.roots, 4) && TablesAllowed(s, op)
    ensures var s' := Step(s, op); Abs(s'.m, s'.roots) == MapStep(Abs(s.m, s.roots), op)
  {
    hide WellFormed, Abs, Missing, Key, TablesReady;
    hide FramesReady, A.NewSpace, A.SetPage, A.MapPages, PteSetFpn, VmMapRam;
    match op
    case NewMm =>
      AbsFree(s.m, s.roots);
      if s.m.free == [] { NoNewSpace(Abs(s.m, s.roots)); } else { NewDirectoryAbs(s.m, s.roots, 4); }
    case SetPage(root, pgn, fpn) => SetFpnAbs(s.m, s.roots, root, pgn, fpn, Key(pgn), Key(pgn) + 1);
    case MapRange(root, addr, k) => MapRamAbs(s.m, s.roots, root, addr, k, []);
  }

  lemma NoNewSpace(s: A.Spaces)
    requires s.free == []
    ensures A.NewSpace(s) == s
  {
  }

  /** An allowed operation keeps memory well formed: its tables at depth 4, the frames of its pages too at depth 5. */
  lemma StepKeeps(s: Kernel, op: Op, depth: nat)
    requires 4 <= depth <= 5 && WellFormed(s.m, s.roots, depth) && Allowed(s, op, depth)
    ensures var s' := Step(s, op); WellFormed(s'.m, s'.roots, depth) && s.roots <= s'.roots
  {
    hide WellFormed, At, Ent, Missing, Unused, OnlineEntry, MappedEntry, Key, TablesKept, PteSetFpn, VmMapRam;
    match op
    case NewMm =>
      if s.m.free != [] { NewDirectoryKeeps(s.m, s.roots, depth); }
    case SetPage(root, pgn, fpn) =>
      SetFpnInWindow(s.m, s.roots, depth, root, pgn, fpn, Key(pgn), Key(pgn) + 1);
    case MapRange(root, addr, k) =>
      if depth == 4 {
        MapRamAnyOutcome(s.m, s.roots, root, addr, k, []);
      } else {
        MapRangeKeeps(s, root, addr, k);
      }
  }

  lemma MapRangeKeeps(s: Kernel, root: nat, addr: nat, k: nat)
    requires WellFormed(s.m, s.roots, 5) && Allowed(s, MapRange(root, addr, k), 5)
    ensures WellFormed(VmMapRam(s.m, root, addr, k, []).m, s.roots, 5)
  {
    hide WellFormed, At, Ent, MissingDownTo, Unused, MappedEntry, Key, SamePages, TablesReady;
    if k == 0 {
      NothingToMap(s.m, root, addr, []);
    } else if |s.m.free| < k {
      AllocationFailure(s.m, s.roots, 5, root, addr, k, []);
    } else {
      var a := Key(addr / PAGE);
      hide VmMapRam;
      if k + Missing(s.m.mem, root, a, a + k) <= |s.m.free| {
        MapRamRefines(s.m, s.roots, root, addr, k, []);
      } else {
        MappingFailure(s.m, s.roots, root, addr, k, []);
      }
    }
  }

  lemma {:induction false} RunKeeps(s: Kernel, ops: seq<Op>, depth: nat)
    requires 4 <= depth <= 5 && WellFormed(s.m, s.roots, depth) && AllowedRun(s, ops, depth)
    ensures var s' := Run(s, ops); WellFormed(s'.m, s'.roots, depth) && s.roots <= s'.roots
    decreases |ops|
  {
    if ops == [] {
    } else {
      hide WellFormed, Step, Allowed;
      StepKeeps(s, ops[0], depth);
      RunKeeps(Step(s, ops[0]), ops[1..], depth);
    }
  }

  /**
   Refinement over whole runs: whatever the processes do, new ones included and failed mappings included, the bytes at
   the end stand for exactly the address spaces that the same operations make of maps.
   */
  lemma {:induction false} RunRefinesMap(s: Kernel, ops: seq<Op>)
    requires WellFormed(s.m, s.roots, 4) && AllowedRun(s, ops, 4)
    ensures var s' := Run(s, ops);
            && WellFormed(s'.m, s'.roots, 4)
            && Abs(s'.m, s'.roots) == MapRun(Abs(s.m, s.roots), ops)
    decreases |ops|
  {
    if ops == [] {
    } else {
      hide WellFormed, Step, TablesAllowed, Abs, MapStep;
      StepAbs(s, ops[0]);
      StepKeeps(s, ops[0], 4);
      RunRefinesMap(Step(s, ops[0]), ops[1..]);
    }
  }

  /** A run allowed where page frames matter is allowed where they do not. */
  lemma {:induction false} AllowedShallower(s: Kernel, ops: seq<Op>)
    requires AllowedRun(s, ops, 5)
    ensures AllowedRun(s, ops, 4)
    decreases |ops|
  {
    hide TablesAllowed, PagesAllowed, Step;
    if ops == [] {
    } else {
      AllowedShallower(Step(s, ops[0]), ops[1..]);
    }
  }

  // ---- isolation -----------------------------------------------------------------------------------------

  predicate ActsOn(op: Op, root: nat)
  {
    match op
    case NewMm => false
    case SetPage(r, _, _) => r == root
    case MapRange(r, _, _) => r == root
  }

  /** On address spaces, what others do leaves a process's pages as they were. */
  lemma {:induction false} MapRunElsewhere(s: A.Spaces, ops: seq<Op>, y: Path)
    requires y.root in s.roots && y.level == 5 && y in s.entry && forall op :: op in ops ==> !ActsOn(op, y.root)
    ensures var s' := MapRun(s, ops); y in s'.entry && s'.entry[y] == s.entry[y]
    decreases |ops|
  {
    if ops == [] {
    } else {
      assert ops[0] in ops;
      match ops[0] {
        case NewMm =>
        case SetPage(root, pgn, fpn) => A.EnsureWayElsewhere(s, root, Key(pgn), 4);
        case MapRange(root, addr, k) => A.MapPagesElsewhere(s, root, addr / PAGE, k);
      }
      MapRunElsewhere(MapStep(s, ops[0]), ops[1..], y);
    }
  }

  /**
   Isolation: what other processes do, however long, with mappings that fail and mappings that succeed, leaves every
   page entry of a process as it was.
   */
  lemma OthersLeaveAlone(s: Kernel, ops: seq<Op>, y: Path)
    requires WellFormed(s.m, s.roots, 4) && AllowedRun(s, ops, 4)
    requires y.root in s.roots && y.level == 5 && forall op :: op in ops ==> !ActsOn(op, y.root)
    ensures Ent(Run(s, ops).m.mem, y) == Ent(s.m.mem, y)
  {
    RunRefinesMap(s, ops);
    RunKeeps(s, ops, 4);
    MapRunElsewhere(Abs(s.m, s.roots), ops, y);
    hide WellFormed, AllowedRun, MapRun, Run;
    var s' := Run(s, ops);
    assert y in Abs(s'.m, s'.roots).entry;
  }

  // ---- from the beginning --------------------------------------------------------------------------------

  /** The memory init_memphy makes: all zero, every 256-byte frame number free, in order; no process yet. */
  function Fresh(maxsz: nat): Kernel
  {
    Kernel(PMem(seq(maxsz, _ => 0), UpTo(maxsz / CELLS)), {})
  }

  lemma FreshWellFormed(maxsz: nat, depth: nat)
    ensures WellFormed(Fresh(maxsz).m, {}, depth)
  {
    var m := Fresh(maxsz).m;
    forall x ensures !Live(m.mem, {}, depth, x) {}
  }

  /** No process, no table, no page, and every frame free. */
  ghost function NoSpaces(maxsz: nat): A.Spaces { A.Spaces({}, iset{}, imap[], UpTo(maxsz / CELLS)) }

  /**
   From a fresh memory, after any run: the processes are those of the address spaces run alongside, every page of every
   one of them reads as the entry it has there, its tables are the tables it has there, and the same frames are free.
   */
  lemma FreshRefinesMap(maxsz: nat, ops: seq<Op>, depth: nat, y: Path)
    requires 4 <= depth <= 5 && AllowedRun(Fresh(maxsz), ops, depth)
    requires y.root in Run(Fresh(maxsz), ops).roots && 1 <= y.level <= 5
    ensures var s, a := Run(Fresh(maxsz), ops), MapRun(NoSpaces(maxsz), ops);
            && a.roots == s.roots && a.free == s.m.free
            && (y.level == 5 ==> y in a.entry && Ent(s.m.mem, y) == a.entry[y])
            && (y.level <= 4 ==> (At(s.m.mem, y).Some? <==> y in a.tables))
  {
    if depth == 5 { AllowedShallower(Fresh(maxsz), ops); }
    FreshWellFormed(maxsz, 4);
    RunRefinesMap(Fresh(maxsz), ops);
    var none := Fresh(maxsz);
    assert Abs(none.m, none.roots) == NoSpaces(maxsz) by {
      assert Abs(none.m, none.roots).tables == iset{};
      assert Abs(none.m, none.roots).entry == imap[];
    }
    hide Run, MapRun, AllowedRun, Fresh, NoSpaces;
  }

  /** After any run from a fresh memory no two processes share a table frame. */
  lemma TablesUnshared(maxsz: nat, ops: seq<Op>, x: Path, y: Path)
    requires AllowedRun(Fresh(maxsz), ops, 4)
    requires var s := Run(Fresh(maxsz), ops); x.root in s.roots && y.root in s.roots && x.root != y.root
    requires x.level <= 4 && y.level <= 4
    ensures var m := Run(Fresh(maxsz), ops).m; At(m.mem, x).Some? && At(m.mem, y).Some? ==> At(m.mem, x) != At(m.mem, y)
  {
    FreshWellFormed(maxsz, 4);
    RunKeeps(Fresh(maxsz), ops, 4);
    hide Run, Fresh, AllowedRun;
    DistinctFrames(Run(Fresh(maxsz), ops), 4, x, y);
  }

  /**
   From a fresh memory, after any run of new address spaces and ranges mapped by any processes, two different
   addresses - of one process or of two - that both translate have different physical addresses, and neither
   lies in a frame that holds a page table.
   */
  lemma TranslationInjective(maxsz: nat, ops: seq<Op>, r1: nat, v1: nat, r2: nat, v2: nat, x: Path)
    requires AllowedRun(Fresh(maxsz), ops, 5)
    requires var s := Run(Fresh(maxsz), ops);
             && r1 in s.roots && r2 in s.roots && (r1 != r2 || v1 != v2)
             && v1 < PAGES * PAGE && v2 < PAGES * PAGE
             && Translate(s.m.mem, r1, v1).Some? && Translate(s.m.mem, r2, v2).Some?
             && x.root in s.roots && x.level <= 4 && At(s.m.mem, x).Some?
    ensures var s := Run(Fresh(maxsz), ops);
            && Translate(s.m.mem, r1, v1) != Translate(s.m.mem, r2, v2)
            && Translate(s.m.mem, r1, v1).value / PAGE != At(s.m.mem, x).value
  {
    FreshWellFormed(maxsz, 5);
    RunKeeps(Fresh(maxsz), ops, 5);
    var s := Run(Fresh(maxsz), ops);
    hide Run;
    InjectiveWhenWellFormed(s, r1, v1, r2, v2, x);
  }

  lemma InjectiveWhenWellFormed(s: Kernel, r1: nat, v1: nat, r2: nat, v2: nat, x: Path)
    requires WellFormed(s.m, s.roots, 5) && r1 in s.roots && r2 in s.roots && (r1 != r2 || v1 != v2)
    requires v1 < PAGES * PAGE && v2 < PAGES * PAGE
    requires Translate(s.m.mem, r1, v1).Some? && Translate(s.m.mem, r2, v2).Some?
    requires x.root in s.roots && x.level <= 4 && At(s.m.mem, x).Some?
    ensures Translate(s.m.mem, r1, v1) != Translate(s.m.mem, r2, v2)
    ensures Translate(s.m.mem, r1, v1).value / PAGE != At(s.m.mem, x).value
  {
    hide WellFormed, At, Ent;
    var y1, y2 := Page(r1, v1 / PAGE), Page(r2, v2 / PAGE);
    DistinctFrames(s, 5, y1, x);
    if y1 != y2 {
      DistinctFrames(s, 5, y1, y2);
    }
  }

  lemma DistinctFrames(s: Kernel, depth: nat, x: Path, y: Path)
    requires WellFormed(s.m, s.roots, depth) && x.root in s.roots && y.root in s.roots && x.level <= depth &&
             y.level <= depth
    requires x != y
    ensures At(s.m.mem, x).Some? && At(s.m.mem, y).Some? ==> At(s.m.mem, x) != At(s.m.mem, y)
  {
    if At(s.m.mem, x).Some? && At(s.m.mem, y).Some? {
      assert Live(s.m.mem, s.roots, depth, x) && Live(s.m.mem, s.roots, depth, y);
    }
  }
}
