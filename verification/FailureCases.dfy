/**
 Runs from a fresh memory in which mapping pages goes wrong: a frame is free and mapped at once, and a frame is lost.
 */
module FailureCases {
  import opened Prelude
  import opened PageTable
  import opened PageTableUpdate
  import opened MapRam
  import opened PhysicalMemory
  import opened ProcessRuns
  import opened FrameConservation
  import A = PageMap

  /** Nine page-table frames, 144 frame numbers. */
  const MEMORY := 0x9000

  /** One process maps pages 0 to 2 and then pages 3 to 136; or page 0 once and again. */
  function FillUp(): seq<Op> { [NewMm, MapRange(0, 0, 3), MapRange(0, 3 * PAGE, 134)] }

  function MapTwice(): seq<Op> { [NewMm, MapRange(0, 0, 1), MapRange(0, 0, 1)] }

  // ---- the state after the first mapping -----------------------------------------------------------------

  lemma {:induction false} BareDirectory(mem: seq<Byte>, level: nat, lo: nat, hi: nat)
    requires level >= 1 && lo <= hi && ZeroFrame(mem, 0)
    ensures MissingAt(mem, 0, level, lo, hi) == hi - lo
    decreases hi
  {
    if hi <= lo {
    } else {
      BareDirectory(mem, level, lo, hi - 1);
      EmptyDirectory(mem, 0, Path(0, level, hi - 1));
    }
  }

  lemma BareWindow(mem: seq<Byte>, a: nat, b: nat)
    requires a < b && ZeroFrame(mem, 0)
    ensures Missing(mem, 0, a, b) == (Prefix(b - 1, 1) - Prefix(a, 1)) + (Prefix(b - 1, 2) - Prefix(a, 2)) +
                                     (Prefix(b - 1, 3) - Prefix(a, 3)) + (Prefix(b - 1, 4) - Prefix(a, 4)) + 4
  {
    BareLevel(mem, a, b, 1);
    BareLevel(mem, a, b, 2);
    BareLevel(mem, a, b, 3);
    BareLevel(mem, a, b, 4);
  }

  lemma BareLevel(mem: seq<Byte>, a: nat, b: nat, level: nat)
    requires a < b && 1 <= level <= 4 && ZeroFrame(mem, 0)
    ensures MissingDownTo(mem, 0, a, b, level) ==
            MissingDownTo(mem, 0, a, b, level - 1) + Prefix(b - 1, level) - Prefix(a, level) + 1
  {
    PrefixMonotone(a, b - 1, level);
    BareDirectory(mem, level, Prefix(a, level), Prefix(b - 1, level) + 1);
  }

  /** A process in a fresh memory, and the same with its first `k` pages mapped. */
  function Started(): Kernel { Step(Fresh(MEMORY), NewMm) }

  function FirstMapped(k: nat): Kernel { Step(Started(), MapRange(0, 0, k)) }

  lemma StartedIs()
    ensures Started().roots == {0} && Started().m.free == UpTo(144)[1..] && |Started().m.mem| == MEMORY
    ensures ZeroFrame(Started().m.mem, 0) && WellFormed(Started().m, {0}, 5) && Allowed(Fresh(MEMORY), NewMm, 5)
    ensures forall y: Path {:trigger Ent(Started().m.mem, y)} :: y.root == 0 && y.level >= 1 ==>
            Ent(Started().m.mem, y) == 0
  {
    FreshWellFormed(MEMORY, 5);
    var m := Fresh(MEMORY).m;
    assert m.free[0] == 0 && Backed(m.mem, 0);
    NewDirectoryKeeps(m, {}, 5);
    assert 0 in m.free && ZeroFrame(m.mem, 0);
    hide WellFormed;
    assert {} + {0} == {0};
  }

  /** The tables of pages 0 to 511, at the levels down to `level`. */
  ghost function TablesTo(level: nat): iset<Path>
  {
    iset x: Path | x.root == 0 && x.prefix == 0 && 1 <= x.level <= level
  }

  ghost function FirstTables(): iset<Path> { TablesTo(4) }

  lemma NextTable(level: nat)
    requires level >= 1
    ensures TablesTo(level) == TablesTo(level - 1) + iset{Path(0, level, 0)} &&
            Path(0, level, 0) !in TablesTo(level - 1)
    ensures TablesTo(0) == iset{}
  {
  }

  lemma FirstWay(key: nat, level: nat)
    requires key < 512 && 1 <= level <= 4
    ensures Way(0, key, level) == Path(0, level, 0)
  {
  }

  /** On address spaces, one way made from nothing. */
  lemma {:induction false} WayMade(s: A.Spaces, level: nat)
    requires s.tables == iset{} && |s.free| >= 4 && level <= 4
    ensures A.EnsureWay(s, 0, 0, level) == (s.(tables := TablesTo(level), free := s.free[level..]), true)
  {
    hide TablesTo;
    if level == 0 {
      NextTable(1);
    } else {
      WayMade(s, level - 1);
      FirstWay(0, level);
      NextTable(level);
      assert s.free[level - 1..][1..] == s.free[level..];
    }
  }

  /** Where the way is there already, nothing is spent on it. */
  lemma {:induction false} WayThere(s: A.Spaces, key: nat, level: nat)
    requires s.tables == FirstTables() && key < 512 && level <= 4
    ensures A.EnsureWay(s, 0, key, level) == (s, true)
  {
    if level == 0 {
    } else {
      WayThere(s, key, level - 1);
      FirstWay(key, level);
    }
  }

  lemma {:induction false} PagesThere(s: A.Spaces, pgn: nat, frames: seq<nat>)
    requires s.tables == FirstTables() && pgn + |frames| <= 512
    ensures var (s', n) := A.SetPages(s, 0, pgn, frames); n == |frames| && s'.tables == s.tables && s'.free == s.free
    decreases |frames|
  {
    if frames == [] {
    } else {
      WayThere(s, Key(pgn), 4);
      hide FirstTables;
      PagesThere(A.SetPage(s, 0, pgn, frames[0]).0, pgn + 1, frames[1..]);
    }
  }

  /** The first pages of a process that has none. */
  lemma PagesMade(s: A.Spaces, k: nat)
    requires s.tables == iset{} && 1 <= k <= 512 && |s.free| >= k + 4
    ensures var (s', ok) := A.MapPages(s, 0, 0, k); ok && s'.tables == FirstTables() && s'.free == s.free[k + 4..]
  {
    var s1, frames := s.(free := s.free[k..]), s.free[..k];
    WayMade(s1, 4);
    assert s1.free[4..] == s.free[k + 4..];
    hide FirstTables, A.EnsureWay;
    PagesThere(A.SetPage(s1, 0, 0, frames[0]).0, 1, frames[1..]);
  }

  /** More pages of the same last table. */
  lemma PagesMore(s: A.Spaces, pgn: nat, k: nat)
    requires s.tables == FirstTables() && pgn + k <= 512 && |s.free| >= k
    ensures var (s', ok) := A.MapPages(s, 0, pgn, k); ok && s'.tables == FirstTables() && s'.free == s.free[k..]
  {
    PagesThere(s.(free := s.free[k..]), pgn, s.free[..k]);
  }

  // ---- the concrete runs ---------------------------------------------------------------------------------

  /** The frames free once those below `n` are taken. */
  function FreeFrom(n: nat): seq<nat>
    requires n <= 144
  {
    UpTo(144)[n..]
  }

  /** What is known of a state in which only process 0 runs, with the tables of its first 512 pages. */
  ghost predicate OneProcess(s: Kernel, n: nat)
    requires n <= 144
  {
    && s.roots == {0} && s.m.free == FreeFrom(n) && |s.m.mem| == MEMORY && WellFormed(s.m, {0}, 5)
    && Abs(s.m, {0}).tables == FirstTables()
  }

  lemma NoTables(m: PMem)
    requires forall y: Path {:trigger Ent(m.mem, y)} :: y.root == 0 && y.level >= 1 ==> Ent(m.mem, y) == 0
    ensures Abs(m, {0}).tables == iset{}
  {
    forall x: Path | x.root == 0 && x.level >= 1 ensures At(m.mem, x).None? { assert Ent(m.mem, x) == 0; }
    assert Abs(m, {0}).tables == iset{};
  }

  lemma FirstReady(m: PMem, k: nat)
    requires 1 <= k <= 4 && m.free == UpTo(144)[1..] && |m.mem| == MEMORY && Missing(m.mem, 0, 0, k) == 4
    ensures RunReady(m, 0, 0, k) && k + 4 <= |m.free|
  {
    hide MissingDownTo;
    forall j | 0 <= j < |m.free| - k && j < 4 ensures Backed(m.mem, m.free[k..][j]) {
      assert m.free[k..][j] == j + k + 1;
    }
  }

  lemma StartedMissing(k: nat)
    requires 1 <= k <= 4
    ensures Missing(Started().m.mem, 0, 0, k) == 4 && Abs(Started().m, {0}).tables == iset{}
    ensures Allowed(Started(), MapRange(0, 0, k), 5) && k + 4 <= |Started().m.free|
  {
    StartedIs();
    hide Started, WellFormed, Ent, Abs, FramesReady, MissingDownTo, ZeroFrame;
    var m := Started().m;
    BareWindow(m.mem, 0, k);
    NoTables(m);
    FirstReady(m, k);
    hide RunReady;
    RunReadyTables(m, 0, 0, k);
  }

  lemma RunReadyTables(m: PMem, root: nat, a: nat, k: nat)
    requires RunReady(m, root, a, k)
    ensures TablesReady(m, root, a, k)
  {
  }

  lemma FirstMappedIs(k: nat)
    requires 1 <= k <= 4
    ensures OneProcess(FirstMapped(k), k + 5)
    ensures forall i :: 0 <= i < k ==> At(FirstMapped(k).m.mem, Page(0, i)) == Some(i + 1)
  {
    StartedIs();
    StartedMissing(k);
    var s := Started();
    assert s == Kernel(s.m, {0}) && Key(0) == 0;
    hide Started, WellFormed, At, Ent, Missing, Abs, A.MapPages;
    MapRamMaps1(s, k);
    MapRamAbs(s.m, {0}, 0, 0, k, []);
    Shallower(s.m, {0});
    AbsFree(s.m, {0});
    PagesMade(Abs(s.m, {0}), k);
    AbsFree(VmMapRam(s.m, 0, 0, k, []).m, {0});
    assert UpTo(144)[1..][k + 4..] == FreeFrom(k + 5);
  }

  lemma MapRamMaps1(s: Kernel, k: nat)
    requires s.roots == {0} && WellFormed(s.m, {0}, 5) && s.m.free == UpTo(144)[1..] && |s.m.mem| == MEMORY
    requires 1 <= k <= 4 && Allowed(s, MapRange(0, 0, k), 5) && Missing(s.m.mem, 0, 0, k) == 4 && k + 4 <= |s.m.free|
    ensures var m' := VmMapRam(s.m, 0, 0, k, []).m;
            && WellFormed(m', {0}, 5) && WellFormed(s.m, {0}, 4) && |m'.mem| == MEMORY
            && forall i :: 0 <= i < k ==> At(m'.mem, Page(0, i)) == Some(i + 1)
  {
    hide WellFormed, Missing, TablesKept, MappedEntry, At, Ent;
    MapRamRefines(s.m, {0}, 0, 0, k, []);
    Shallower(s.m, {0});
    MapRamAnyOutcome(s.m, {0}, 0, 0, k, []);
    MapRamMaps(s.m, {0}, 0, 0, k, []);
    forall i | 0 <= i < k ensures At(VmMapRam(s.m, 0, 0, k, []).m.mem, Page(0, i)) == Some(i + 1) {
      FrameOfPage(s.m, VmMapRam(s.m, 0, 0, k, []).m, k, i);
    }
  }

  lemma FrameOfPage(m: PMem, m': PMem, k: nat, i: nat)
    requires i < k <= 4 && m.free == UpTo(144)[1..] && RangeMapped(m, m', {0}, 0, 0, k)
    ensures At(m'.mem, Page(0, i)) == Some(i + 1)
  {
    hide WellFormed, TablesKept, SpentOnTables;
    var y := Page(0, i);
    EntryBits(Ent(m.mem, y), m.free[i]);
    assert y == Path(0, 5, i);
    assert Ent(m'.mem, y) == OnlineEntry(Ent(m.mem, y), m.free[..k][i]);
  }

  /** Runs of two and of three operations. */
  lemma ThreeSteps(s: Kernel, o1: Op, o2: Op, o3: Op)
    requires Allowed(s, o1, 5) && Allowed(Step(s, o1), o2, 5) && Allowed(Step(Step(s, o1), o2), o3, 5)
    ensures Run(s, [o1, o2]) == Step(Step(s, o1), o2)
    ensures AllowedRun(s, [o1, o2, o3], 5) && Run(s, [o1, o2, o3]) == Step(Step(Step(s, o1), o2), o3)
  {
    hide Allowed, Step, Run, AllowedRun;
    FirstStep(s, o1, [o2, o3]);
    FirstStep(Step(s, o1), o2, [o3]);
    FirstStep(Step(Step(s, o1), o2), o3, []);
    FirstStep(s, o1, [o2]);
    FirstStep(Step(s, o1), o2, []);
    NoSteps(Step(Step(Step(s, o1), o2), o3));
    NoSteps(Step(Step(s, o1), o2));
    assert [o1] + [o2, o3] == [o1, o2, o3] && [o2] + [o3] == [o2, o3] && [o1] + [o2] == [o1, o2];
    assert [o3] + [] == [o3] && [o2] + [] == [o2];
  }

  lemma FirstStep(s: Kernel, op: Op, rest: seq<Op>)
    ensures Run(s, [op] + rest) == Run(Step(s, op), rest)
    ensures AllowedRun(s, [op] + rest, 5) <==> Allowed(s, op, 5) && AllowedRun(Step(s, op), rest, 5)
  {
    hide Allowed, Step;
    assert ([op] + rest)[1..] == rest;
  }

  lemma NoSteps(s: Kernel)
    ensures Run(s, []) == s && AllowedRun(s, [], 5)
  {
  }

  // ---- a frame free and mapped at once -------------------------------------------------------------------

  /** With the tables of the first 512 pages present, those pages lack none, and page 512 lacks its last. */
  lemma MissingInside(s: Kernel, n: nat, a: nat, b: nat)
    requires n <= 144 && OneProcess(s, n) && a < b <= 512
    ensures Missing(s.m.mem, 0, a, b) == 0 && Missing(s.m.mem, 0, 511, 513) > 0
  {
    hide WellFormed, At;
    forall key | a <= key < b ensures TableThere(s.m.mem, 0, key) {
      FirstWay(key, 4);
      assert Path(0, 4, 0) in Abs(s.m, {0}).tables;
    }
    NoneMissing(s.m.mem, 0, a, b, 4);
    var far := Way(0, 512, 4);
    assert far == Path(0, 4, 1) && far !in Abs(s.m, {0}).tables;
    MissingHere(s.m.mem, 0, 512, 4, 511, 513);
  }

  /** After the second mapping of FillUp, frames 142 and 143 are left. */
  lemma FilledUp(s: Kernel)
    requires OneProcess(s, 8)
    ensures Allowed(s, MapRange(0, 3 * PAGE, 134), 5) && OneProcess(Step(s, MapRange(0, 3 * PAGE, 134)), 142)
  {
    hide WellFormed, At, Ent, Abs, A.MapPages, FirstTables, MissingDownTo, VmMapRam, TablesKept, MappedEntry;
    assert 3 * PAGE / PAGE == 3 && Key(3) == 3;
    MissingInside(s, 8, 3, 137);
    Shallower(s.m, {0});
    StepKeeps(s, MapRange(0, 3 * PAGE, 134), 5);
    MapRamAnyOutcome(s.m, {0}, 0, 3 * PAGE, 134, []);
    MapRamAbs(s.m, {0}, 0, 3 * PAGE, 134, []);
    AbsFree(s.m, {0});
    PagesMore(Abs(s.m, {0}), 3, 134);
    AbsFree(VmMapRam(s.m, 0, 3 * PAGE, 134, []).m, {0});
    assert FreeFrom(8)[134..] == FreeFrom(142);
  }

  /**
   From a fresh memory, a process that mapped pages 0 to 136 asks for pages 511 and 512: vm_map_ram fails for want of
   one table, with page 511 still mapped to frame 142 and frame 142 free again.
   */
  lemma LeakHappens()
    ensures AllowedRun(Fresh(MEMORY), FillUp(), 5)
    ensures var s := Run(Fresh(MEMORY), FillUp()); var r := VmMapRam(s.m, 0, 511 * PAGE, 2, []);
            s.roots == {0} && !r.ok && At(r.m.mem, Page(0, 511)) == Some(142) && 142 in r.m.free
  {
    hide WellFormed, At, Ent, Abs, VmMapRam, Allowed, Fresh, OneProcess, FirstTables, Step, Run, AllowedRun, ZeroFrame;
    StartedIs();
    StartedMissing(3);
    FirstMappedIs(3);
    FilledUp(FirstMapped(3));
    ThreeSteps(Fresh(MEMORY), NewMm, MapRange(0, 0, 3), MapRange(0, 3 * PAGE, 134));
    LeakFrom(Step(FirstMapped(3), MapRange(0, 3 * PAGE, 134)));
  }

  lemma LeakFrom(s: Kernel)
    requires OneProcess(s, 142)
    ensures var r := VmMapRam(s.m, 0, 511 * PAGE, 2, []);
            s.roots == {0} && !r.ok && At(r.m.mem, Page(0, 511)) == Some(142) && 142 in r.m.free
  {
    hide WellFormed, At, Abs, VmMapRam, FirstTables, MissingDownTo;
    assert 511 * PAGE / PAGE == 511 && Key(511) == 511;
    MissingInside(s, 142, 511, 512);
    assert s.m.free == [142, 143];
    MappingFailure(s.m, {0}, 0, 511 * PAGE, 2, []);
  }

  // ---- a frame lost --------------------------------------------------------------------------------------

  /** From a fresh memory, a process that maps page 0 twice: its first frame, 1, is then neither free nor in use. */
  lemma FrameLost()
    ensures AllowedRun(Fresh(MEMORY), MapTwice(), 5)
    ensures var s := Run(Fresh(MEMORY), MapTwice()[..2]);
            && At(s.m.mem, Page(0, 0)) == Some(1)
            && Accounted(s.m, s.roots, 1)
    ensures var s := Run(Fresh(MEMORY), MapTwice()); !Accounted(s.m, s.roots, 1)
  {
    hide WellFormed, At, Ent, Abs, VmMapRam, Allowed, Fresh;
    hide OneProcess, FirstTables, Step, Run, AllowedRun, ZeroFrame, Accounted;
    StartedIs();
    StartedMissing(1);
    FirstMappedIs(1);
    assert MapTwice()[..2] == [NewMm, MapRange(0, 0, 1)];
    LostFrom(FirstMapped(1));
    ThreeSteps(Fresh(MEMORY), NewMm, MapRange(0, 0, 1), MapRange(0, 0, 1));
    StepRoots(FirstMapped(1), 0, 0, 1);
  }

  lemma StepRoots(s: Kernel, root: nat, addr: nat, k: nat)
    ensures Step(s, MapRange(root, addr, k)).roots == s.roots
  {
  }

  lemma LostFrom(s: Kernel)
    requires OneProcess(s, 6) && At(s.m.mem, Page(0, 0)) == Some(1)
    ensures Allowed(s, MapRange(0, 0, 1), 5) && Accounted(s.m, s.roots, 1)
    ensures !Accounted(Step(s, MapRange(0, 0, 1)).m, s.roots, 1)
  {
    hide WellFormed, At, Abs, VmMapRam, FirstTables, MissingDownTo, Accounted, MappedEntry, TablesKept;
    assert Key(0) == 0 && Page(0, 0) == Path(0, 5, 0);
    MissingInside(s, 6, 0, 1);
    MapRamRefines(s.m, {0}, 0, 0, 1, []);
    MapRamMaps(s.m, {0}, 0, 0, 1, []);
    Orphaned(s.m, VmMapRam(s.m, 0, 0, 1, []).m, {0}, 0, 0, 1, 0);
  }
}
