/**
 Mapping one page: pte_set_fpn of mm64.c as a function on memory, and what it keeps.
 */
module PageTableUpdate {
  import opened Prelude
  import opened PageTable

  /** The prefix of a page key at a level: the index bits of that level and above. */
  function Prefix(key: nat, level: nat): nat
    requires level <= 5
  {
    key / Span(level)
  }

  /** How many pages one entry of a level stands for. */
  function Span(level: nat): (s: nat)
    requires level <= 5
    ensures s > 0
  {
    if level == 5 then 1
    else if level == 4 then 0x200
    else if level == 3 then 0x4_0000
    else if level == 2 then 0x800_0000
    else if level == 1 then 0x10_0000_0000
    else PAGES
  }

  /** The path of the table or page entry at `level` on the way to a page. */
  function Way(root: nat, key: nat, level: nat): (x: Path)
    requires level <= 5
  {
    Path(root, level, Prefix(key, level))
  }

  lemma WayParent(root: nat, key: nat, level: nat)
    requires key < PAGES && 1 <= level <= 5
    ensures Way(root, key, level).Parent() == Way(root, key, level - 1)
    ensures Way(root, key, level - 1).Child(Way(root, key, level).Index()) == Way(root, key, level)
    ensures Prefix(key, 0) == 0
  {
    assert key / Span(level) / FANOUT == key / Span(level - 1);
  }

  // ---- one level -----------------------------------------------------------------------------------------

  /**
   Follow entry `i` of the table in frame `f`; where it is not present, take the first free frame and
   record it there. The new table is not cleared.
   */
  function EnsureTable(m: PMem, f: nat, i: nat): (PMem, Option<nat>)
    requires i < FANOUT
  {
    var e := Slot(m.mem, f, i);
    if Present(e) then (m, Some(Fpn(e)))
    else if m.free == [] then (m, None)
    else
      var e' := TableEntry(m.free[0]);
      (PMem(PutSlot(m.mem, f, i, e'), m.free[1..]), Some(Fpn(e')))
  }

  /** Memory `mem'` differs from `mem`, as walks see it, only in that path `c` now leads to frame `g`. */
  ghost predicate OnlyGains(mem: seq<Byte>, mem': seq<Byte>, roots: set<nat>, c: Path, g: nat)
  {
    && |mem'| == |mem|
    && At(mem, c).None? && At(mem', c) == Some(g)
    && (forall y: Path {:trigger Ent(mem', y)} ::
          y.root in roots && 1 <= y.level <= 5 && y != c ==> Ent(mem', y) == Ent(mem, y))
  }

  lemma ElsewhereSame(mem: seq<Byte>, mem': seq<Byte>, roots: set<nat>, c: Path, g: nat, y: Path)
    requires OnlyGains(mem, mem', roots, c, g) && y.root in roots && y.level <= 5 && y != c
    ensures At(mem', y) == At(mem, y)
  {
    if y.level > 0 {
      assert Ent(mem', y) == Ent(mem, y);
    }
  }

  lemma ZeroKept(mem: seq<Byte>, f: nat, i: nat, e: nat, g: nat)
    requires ZeroFrame(mem, g) && g != f && i < FANOUT
    ensures ZeroFrame(PutSlot(mem, f, i, e), g)
  {
  }

  /** Recording frame `g`, all zero, at a missing entry makes that one path lead to `g`. */
  lemma TableGained(m: PMem, roots: set<nat>, x: Path, f: nat, i: nat, g: nat, e: nat)
    requires WellFormed(m, roots, 4) && g in m.free && e < WORD && Present(e) && Fpn(e) == g
    requires x.root in roots && x.level < 4 && At(m.mem, x) == Some(f) && i < FANOUT
    requires At(m.mem, x.Child(i)).None?
    ensures OnlyGains(m.mem, PutSlot(m.mem, f, i, e), roots, x.Child(i), g)
  {
    var c := x.Child(i);
    var mem' := PutSlot(m.mem, f, i, e);
    assert Live(m.mem, roots, 4, x);
    forall y: Path | y.root in roots && 1 <= y.level <= 5
      ensures Ent(mem', y) == if y == c then e else Ent(m.mem, y)
    {
      EntAfterPut(m, roots, x, f, i, e, y);
    }
  }

  /** A memory that gained one table from the head of the free list is well formed again. */
  lemma GainedWellFormed(m: PMem, roots: set<nat>, depth: nat, f: nat, i: nat, e: nat, c: Path)
    requires depth <= 5 && WellFormed(m, roots, depth) && m.free != [] && Backed(m.mem, m.free[0])
    requires f !in m.free && i < FANOUT
    requires OnlyGains(m.mem, PutSlot(m.mem, f, i, e), roots, c, m.free[0])
    ensures WellFormed(PMem(PutSlot(m.mem, f, i, e), m.free[1..]), roots, depth)
  {
    var m' := PMem(PutSlot(m.mem, f, i, e), m.free[1..]);
    forall y | Live(m'.mem, roots, depth, y) && y != c
      ensures Live(m.mem, roots, depth, y) && At(m'.mem, y) == At(m.mem, y)
    {
      ElsewhereSame(m.mem, m'.mem, roots, c, m.free[0], y);
    }
    forall h | h in m'.free ensures h in m.free && h != m.free[0] && ZeroFrame(m'.mem, h) {
      ZeroKept(m.mem, f, i, e, h);
    }
  }

  // ---- counting missing tables ---------------------------------------------------------------------------

  /** How many paths of a level with prefixes in `lo..hi` lead nowhere. */
  ghost function MissingAt(mem: seq<Byte>, root: nat, level: nat, lo: nat, hi: nat): nat
    decreases hi - lo
  {
    if hi <= lo then 0
    else MissingAt(mem, root, level, lo, hi - 1) + if At(mem, Path(root, level, hi - 1)).None? then 1 else 0
  }

  /** How many tables the pages with keys in `a..b` lack at levels 1 up to `level`. */
  ghost function MissingDownTo(mem: seq<Byte>, root: nat, a: nat, b: nat, level: nat): nat
    requires a < b && level <= 4
  {
    if level == 0 then 0
    else MissingDownTo(mem, root, a, b, level - 1) +
         MissingAt(mem, root, level, Prefix(a, level), Prefix(b - 1, level) + 1)
  }

  /** How many tables the pages with keys in `a..b` lack, at all four levels below the directory. */
  ghost function Missing(mem: seq<Byte>, root: nat, a: nat, b: nat): nat
    requires a < b
  {
    MissingDownTo(mem, root, a, b, 4)
  }

  lemma {:induction false} MissingAtGains(mem: seq<Byte>, mem': seq<Byte>, roots: set<nat>, c: Path, g: nat,
                                          root: nat, level: nat, lo: nat, hi: nat)
    requires OnlyGains(mem, mem', roots, c, g) && root in roots && level <= 5
    ensures MissingAt(mem', root, level, lo, hi) ==
            MissingAt(mem, root, level, lo, hi) -
            if c.root == root && c.level == level && lo <= c.prefix < hi then 1 else 0
    decreases hi
  {
    if hi <= lo {
    } else {
      MissingAtGains(mem, mem', roots, c, g, root, level, lo, hi - 1);
      var y := Path(root, level, hi - 1);
      if y != c {
        ElsewhereSame(mem, mem', roots, c, g, y);
      }
    }
  }

  lemma {:induction false} MissingDownToGains(mem: seq<Byte>, mem': seq<Byte>, roots: set<nat>, c: Path, g: nat,
                                              root: nat, a: nat, b: nat, level: nat)
    requires 1 <= c.level <= 4 && a < b && level <= 4 && root in roots && c.root == root
    requires Prefix(a, c.level) <= c.prefix <= Prefix(b - 1, c.level)
    requires OnlyGains(mem, mem', roots, c, g)
    ensures MissingDownTo(mem', root, a, b, level) ==
            MissingDownTo(mem, root, a, b, level) - if c.level <= level then 1 else 0
  {
    hide OnlyGains, MissingAt, Prefix;
    PrefixMonotone(a, b - 1, level);
    if level > 0 {
      MissingDownToGains(mem, mem', roots, c, g, root, a, b, level - 1);
      MissingAtGains(mem, mem', roots, c, g, root, level, Prefix(a, level), Prefix(b - 1, level) + 1);
    }
  }

  lemma PrefixMonotone(a: nat, b: nat, level: nat)
    requires a <= b && level <= 5
    ensures Prefix(a, level) <= Prefix(b, level)
  {
  }

  /** The free frames that would become tables for the pages `a..b` all lie inside memory. */
  ghost predicate FramesReady(m: PMem, root: nat, a: nat, b: nat)
    requires a < b
  {
    forall j {:trigger m.free[j]} :: 0 <= j < |m.free| && j < Missing(m.mem, root, a, b) ==> Backed(m.mem, m.free[j])
  }

  // ---- the walk that makes tables ------------------------------------------------------------------------

  /** Descend to the table of `level` on the way to a page, making each missing table. */
  function Descend(m: PMem, root: nat, key: nat, level: nat): (PMem, Option<nat>)
    requires level <= 4
  {
    if level == 0 then (m, Some(root))
    else
      var (m1, t) := Descend(m, root, key, level - 1);
      match t
      case None => (m1, None)
      case Some(f) => EnsureTable(m1, f, Way(root, key, level).Index())
  }

  /** pte_set_fpn: descend to the last table, then set the page's frame, present and not swapped. */
  function PteSetFpn(m: PMem, root: nat, pgn: nat, fpn: nat): (PMem, bool)
  {
    var key := Key(pgn);
    var (m1, t) := Descend(m, root, key, 4);
    match t
    case None => (m1, false)
    case Some(f) =>
      var i := Page(root, pgn).Index();
      (PMem(PutSlot(m1.mem, f, i, OnlineEntry(Slot(m1.mem, f, i), fpn)), m1.free), true)
  }

  /** No page entry of any process differs between the two memories. */
  ghost predicate SamePages(mem: seq<Byte>, mem': seq<Byte>, roots: set<nat>)
  {
    forall y: Path {:trigger Ent(mem', y)} :: y.root in roots && y.level == 5 ==> Ent(mem', y) == Ent(mem, y)
  }

  /** Every table is still where it was, and a new one belongs to process `root` and was a free frame. */
  ghost predicate TablesKept(m: PMem, m': PMem, roots: set<nat>, root: nat)
  {
    forall x: Path {:trigger At(m'.mem, x)} :: x.root in roots && x.level <= 4 ==>
      || At(m'.mem, x) == At(m.mem, x)
      || (x.root == root && At(m.mem, x).None? && At(m'.mem, x).Some? && At(m'.mem, x).value in m.free)
  }

  /** Every table but that of path `c` is where it was, and is new nowhere else. */
  ghost predicate OnlyWay(mem: seq<Byte>, mem': seq<Byte>, roots: set<nat>, c: Path)
  {
    forall y: Path {:trigger At(mem', y)} :: y.root in roots && y.level <= 4 && y != c ==> At(mem', y) == At(mem, y)
  }

  lemma GrownTrans(m: PMem, m1: PMem, m2: PMem, roots: set<nat>, depth: nat, root: nat, a: nat, b: nat)
    requires a < b && Grown(m, m1, roots, depth, root, a, b) && Grown(m1, m2, roots, depth, root, a, b)
    ensures Grown(m, m2, roots, depth, root, a, b)
  {
    BalancedTrans(m, m1, m2, root, a, b);
    TablesKeptTrans(m, m1, m2, roots, root);
  }

  lemma TablesKeptTrans(m: PMem, m1: PMem, m2: PMem, roots: set<nat>, root: nat)
    requires TablesKept(m, m1, roots, root) && TablesKept(m1, m2, roots, root)
    requires forall f :: f in m1.free ==> f in m.free
    ensures TablesKept(m, m2, roots, root)
  {
    forall x: Path | x.root in roots && x.level <= 4
      ensures || At(m2.mem, x) == At(m.mem, x)
              || (x.root == root && At(m.mem, x).None? && At(m2.mem, x).Some? && At(m2.mem, x).value in m.free)
    {
      assert At(m1.mem, x) == At(m1.mem, x);
    }
  }

  /** As many free frames went, from the head of the list, as the window lacks fewer tables. */
  ghost predicate Balanced(m: PMem, m': PMem, root: nat, a: nat, b: nat)
    requires a < b
  {
    && |m'.free| <= |m.free|
    && m'.free == m.free[|m.free| - |m'.free|..]
    && Missing(m'.mem, root, a, b) == Missing(m.mem, root, a, b) - (|m.free| - |m'.free|)
  }

  lemma BalancedTrans(m: PMem, m1: PMem, m2: PMem, root: nat, a: nat, b: nat)
    requires a < b && Balanced(m, m1, root, a, b) && Balanced(m1, m2, root, a, b)
    ensures Balanced(m, m2, root, a, b)
  {
    assert m2.free == m.free[|m.free| - |m1.free|..][|m1.free| - |m2.free|..];
  }

  lemma BalancedReady(m: PMem, m': PMem, root: nat, a: nat, b: nat)
    requires a < b && Balanced(m, m', root, a, b) && FramesReady(m, root, a, b) && |m'.mem| == |m.mem|
    ensures FramesReady(m', root, a, b)
  {
    var n := |m.free| - |m'.free|;
    forall j | 0 <= j < |m'.free| && j < Missing(m'.mem, root, a, b) ensures Backed(m'.mem, m'.free[j]) {
      assert m'.free[j] == m.free[n + j];
    }
  }

  /**
   What making tables keeps, from `m` to `m'`, for a process and a window of its pages: the form of memory,
   every page entry, and the balance of free frames against missing tables.
   */
  ghost predicate Grown(m: PMem, m': PMem, roots: set<nat>, depth: nat, root: nat, a: nat, b: nat)
    requires a < b
  {
    && WellFormed(m', roots, depth)
    && |m'.mem| == |m.mem|
    && SamePages(m.mem, m'.mem, roots)
    && TablesKept(m, m', roots, root)
    && Balanced(m, m', root, a, b)
  }

  lemma GrownSame(m: PMem, roots: set<nat>, depth: nat, root: nat, a: nat, b: nat)
    requires a < b && WellFormed(m, roots, depth)
    ensures Grown(m, m, roots, depth, root, a, b)
  {
    assert m.free[0..] == m.free;
  }

  /** The entry EnsureTable looks at is the entry at the end of the way. */
  lemma EntOnWay(mem: seq<Byte>, root: nat, key: nat, level: nat)
    requires key < PAGES && 1 <= level <= 5 && At(mem, Way(root, key, level - 1)).Some?
    ensures Ent(mem, Way(root, key, level)) ==
            Slot(mem, At(mem, Way(root, key, level - 1)).value, Way(root, key, level).Index())
  {
    WayParent(root, key, level);
  }

  /** What EnsureTable does on the way to a page, in terms of where the way leads. */
  lemma EnsureTableCases(m: PMem, root: nat, key: nat, level: nat)
    requires key < PAGES && 1 <= level <= 4 && At(m.mem, Way(root, key, level - 1)).Some?
    ensures var f, c := At(m.mem, Way(root, key, level - 1)).value, Way(root, key, level);
            var r := EnsureTable(m, f, c.Index());
            if At(m.mem, c).Some? then r == (m, At(m.mem, c))
            else if m.free == [] then r == (m, None)
            else r.0.free == m.free[1..] && (m.free[0] < FPN_SPAN ==> r.1 == Some(m.free[0]))
  {
    EntOnWay(m.mem, root, key, level);
    if m.free != [] {
      EntryBits(0, m.free[0]);
    }
  }

  /** Where a table is missing and a frame is free, the frame becomes the table. */
  lemma NewTableGrows(m: PMem, roots: set<nat>, depth: nat, root: nat, key: nat, level: nat, a: nat, b: nat)
    requires depth == 4 || depth == 5
    requires WellFormed(m, roots, depth) && root in roots && m.free != [] && Backed(m.mem, m.free[0])
    requires 1 <= level <= 4 && a <= key < b <= PAGES
    requires At(m.mem, Way(root, key, level - 1)).Some? && At(m.mem, Way(root, key, level)).None?
    ensures var (m', t) := EnsureTable(m, At(m.mem, Way(root, key, level - 1)).value, Way(root, key, level).Index());
            && Grown(m, m', roots, depth, root, a, b) && At(m'.mem, Way(root, key, level)) == t && t.Some?
            && OnlyWay(m.mem, m'.mem, roots, Way(root, key, level))
  {
    var x, c := Way(root, key, level - 1), Way(root, key, level);
    var f, i, g := At(m.mem, x).value, c.Index(), m.free[0];
    var m' := PMem(PutSlot(m.mem, f, i, TableEntry(g)), m.free[1..]);
    WayParent(root, key, level);
    EnsureTableCases(m, root, key, level);
    if depth == 5 { Shallower(m, roots); }
    EntryBits(0, g);
    TableGained(m, roots, x, f, i, g, TableEntry(g));
    assert Live(m.mem, roots, depth, x);
    GainedWellFormed(m, roots, depth, f, i, TableEntry(g), c);
    PrefixMonotone(a, key, level);
    PrefixMonotone(key, b - 1, level);
    MissingDownToGains(m.mem, m'.mem, roots, c, g, root, a, b, 4);
    assert m'.free == m.free[1..];
    forall y: Path | y.root in roots && y.level <= 4 && y != c ensures At(m'.mem, y) == At(m.mem, y) {
      ElsewhereSame(m.mem, m'.mem, roots, c, g, y);
    }
  }

  /** One level of the walk: the table is there afterwards, or no frame was free and nothing changed. */
  lemma EnsureTableGrows(m: PMem, roots: set<nat>, depth: nat, root: nat, key: nat, level: nat, a: nat, b: nat)
    requires depth == 4 || depth == 5
    requires WellFormed(m, roots, depth) && root in roots
    requires 1 <= level <= 4 && a <= key < b <= PAGES && FramesReady(m, root, a, b)
    requires At(m.mem, Way(root, key, level - 1)).Some?
    ensures var (m', t) := EnsureTable(m, At(m.mem, Way(root, key, level - 1)).value, Way(root, key, level).Index());
            && Grown(m, m', roots, depth, root, a, b)
            && At(m'.mem, Way(root, key, level)) == t
            && OnlyWay(m.mem, m'.mem, roots, Way(root, key, level))
            && (t.None? ==> m' == m && m.free == [] && Missing(m.mem, root, a, b) > 0)
  {
    EnsureTableCases(m, root, key, level);
    GrownSame(m, roots, depth, root, a, b);
    if At(m.mem, Way(root, key, level)).None? {
      MissingHere(m.mem, root, key, level, a, b);
      if m.free != [] {
        assert Backed(m.mem, m.free[0]);
        NewTableGrows(m, roots, depth, root, key, level, a, b);
      }
    }
  }

  /** A missing table on the way to a page of the window counts. */
  lemma MissingHere(mem: seq<Byte>, root: nat, key: nat, level: nat, a: nat, b: nat)
    requires 1 <= level <= 4 && a <= key < b && At(mem, Way(root, key, level)).None?
    ensures Missing(mem, root, a, b) > 0
  {
    PrefixMonotone(a, key, level);
    PrefixMonotone(key, b - 1, level);
    MissingAtHere(mem, root, level, Prefix(a, level), Prefix(b - 1, level) + 1, Prefix(key, level));
    MissingDownToHere(mem, root, a, b, level, 4);
  }

  lemma {:induction false} MissingAtHere(mem: seq<Byte>, root: nat, level: nat, lo: nat, hi: nat, q: nat)
    requires lo <= q < hi && At(mem, Path(root, level, q)).None?
    ensures MissingAt(mem, root, level, lo, hi) > 0
    decreases hi
  {
    if q < hi - 1 {
      MissingAtHere(mem, root, level, lo, hi - 1, q);
    }
  }

  lemma {:induction false} MissingDownToHere(mem: seq<Byte>, root: nat, a: nat, b: nat, level: nat, last: nat)
    requires a < b && 1 <= level <= last <= 4
    requires MissingAt(mem, root, level, Prefix(a, level), Prefix(b - 1, level) + 1) > 0
    ensures MissingDownTo(mem, root, a, b, last) > 0
    decreases last
  {
    if level < last {
      MissingDownToHere(mem, root, a, b, level, last - 1);
    }
  }

  /** How a descent to `level` ends: at the table, or with the frames used up and tables still missing. */
  ghost predicate Descended(m: PMem, r: (PMem, Option<nat>), roots: set<nat>, depth: nat, root: nat, key: nat,
                            level: nat,
                            a: nat, b: nat)
    requires a < b && level <= 4
  {
    && Grown(m, r.0, roots, depth, root, a, b)
    && (r.1.Some? ==> At(r.0.mem, Way(root, key, level)) == r.1)
    && (r.1.None? ==> r.0.free == [] && Missing(r.0.mem, root, a, b) > 0)
  }

  lemma OneMoreLevel(m: PMem, m1: PMem, roots: set<nat>, depth: nat, root: nat, key: nat, level: nat, a: nat, b: nat)
    requires depth == 4 || depth == 5
    requires root in roots && 1 <= level <= 4 && a <= key < b <= PAGES && FramesReady(m, root, a, b)
    requires Grown(m, m1, roots, depth, root, a, b) && At(m1.mem, Way(root, key, level - 1)).Some?
    ensures Descended(m, EnsureTable(m1, At(m1.mem, Way(root, key, level - 1)).value, Way(root, key, level).Index()),
                      roots, depth, root, key, level, a, b)
  {
    BalancedReady(m, m1, root, a, b);
    EnsureTableGrows(m1, roots, depth, root, key, level, a, b);
    var (m2, _) := EnsureTable(m1, At(m1.mem, Way(root, key, level - 1)).value, Way(root, key, level).Index());
    GrownTrans(m, m1, m2, roots, depth, root, a, b);
  }

  lemma {:induction false} DescendGrows(m: PMem, roots: set<nat>, depth: nat, root: nat, key: nat, level: nat,
                                        a: nat, b: nat)
    requires depth == 4 || depth == 5
    requires WellFormed(m, roots, depth) && root in roots && level <= 4
    requires a <= key < b <= PAGES && FramesReady(m, root, a, b)
    ensures Descended(m, Descend(m, root, key, level), roots, depth, root, key, level, a, b)
  {
    if level == 0 {
      GrownSame(m, roots, depth, root, a, b);
      WayParent(root, key, 1);
    } else {
      hide Grown, FramesReady, At, Way, WellFormed;
      DescendGrows(m, roots, depth, root, key, level - 1, a, b);
      var r := Descend(m, root, key, level - 1);
      if r.1.Some? {
        OneMoreLevel(m, r.0, roots, depth, root, key, level, a, b);
        assert Descend(m, root, key, level) == EnsureTable(r.0, r.1.value, Way(root, key, level).Index());
      } else {
        assert Descend(m, root, key, level) == r;
      }
    }
  }

  // ---- setting a page entry ------------------------------------------------------------------------------

  /** Between the two memories only the entry of page `c` differs, and it became `e`. */
  ghost predicate OnlyPage(mem: seq<Byte>, mem': seq<Byte>, roots: set<nat>, c: Path, e: nat)
    requires c.level > 0
  {
    && |mem'| == |mem|
    && Ent(mem', c) == e
    && (forall y: Path {:trigger Ent(mem', y)} ::
          y.root in roots && 1 <= y.level <= 5 && y != c ==> Ent(mem', y) == Ent(mem, y))
  }

  /** A write to the last table changes that page's entry and nothing else any walk can see. */
  lemma PageWritten(m: PMem, roots: set<nat>, root: nat, pgn: nat, f: nat, e: nat)
    requires WellFormed(m, roots, 4) && root in roots && e < WORD
    requires At(m.mem, Way(root, Key(pgn), 4)) == Some(f)
    ensures OnlyPage(m.mem, PutSlot(m.mem, f, Page(root, pgn).Index(), e), roots, Page(root, pgn), e)
    ensures Ent(m.mem, Page(root, pgn)) == Slot(m.mem, f, Page(root, pgn).Index())
  {
    var x, c := Way(root, Key(pgn), 4), Page(root, pgn);
    var mem' := PutSlot(m.mem, f, c.Index(), e);
    WayParent(root, Key(pgn), 5);
    assert Live(m.mem, roots, 4, x);
    forall y: Path | y.root in roots && 1 <= y.level <= 5
      ensures Ent(mem', y) == if y == c then e else Ent(m.mem, y)
    {
      EntAfterPut(m, roots, x, f, c.Index(), e, y);
    }
  }

  lemma OnlyPageAt(mem: seq<Byte>, mem': seq<Byte>, roots: set<nat>, c: Path, e: nat, y: Path)
    requires c.level == 5 && OnlyPage(mem, mem', roots, c, e) && y.root in roots && y.level <= 5 && y != c
    ensures At(mem', y) == At(mem, y)
  {
    if y.level > 0 {
      assert Ent(mem', y) == Ent(mem, y);
    }
  }

  /** The frame is not free and no path of at most `depth` levels leads to it. */
  ghost predicate Spare(m: PMem, roots: set<nat>, depth: nat, f: nat)
  {
    f !in m.free && forall x {:trigger Live(m.mem, roots, depth, x)} :: Live(m.mem, roots, depth, x) ==>
      At(m.mem, x) != Some(f)
  }

  /** The frame is nobody's, and its number fits an entry: it is the mapper's to hand to a page. */
  ghost predicate Unused(m: PMem, roots: set<nat>, fpn: nat) { fpn < FPN_SPAN && Spare(m, roots, 5, fpn) }

  /** Setting a page entry keeps memory well formed; to depth 5 when the frame was nobody's. */
  lemma PageWrittenWellFormed(m: PMem, roots: set<nat>, depth: nat, c: Path, f: nat, e: nat)
    requires WellFormed(m, roots, depth) && c.root in roots && c.level == 5 && f !in m.free
    requires depth == 4 || (depth == 5 && Present(e) && Unused(m, roots, Fpn(e)))
    requires OnlyPage(m.mem, PutSlot(m.mem, f, c.Index(), e), roots, c, e)
    ensures WellFormed(PMem(PutSlot(m.mem, f, c.Index(), e), m.free), roots, depth)
  {
    var m' := PMem(PutSlot(m.mem, f, c.Index(), e), m.free);
    forall y | Live(m'.mem, roots, depth, y) && y != c
      ensures Live(m.mem, roots, depth, y) && At(m'.mem, y) == At(m.mem, y)
    {
      OnlyPageAt(m.mem, m'.mem, roots, c, e, y);
    }
    forall h | h in m.free ensures ZeroFrame(m'.mem, h) {
      ZeroKept(m.mem, f, c.Index(), e, h);
    }
  }

  lemma {:induction false} MissingAtSame(mem: seq<Byte>, mem': seq<Byte>, roots: set<nat>, c: Path, e: nat,
                                         root: nat, level: nat, lo: nat, hi: nat)
    requires c.level == 5 && OnlyPage(mem, mem', roots, c, e) && root in roots && level <= 4
    ensures MissingAt(mem', root, level, lo, hi) == MissingAt(mem, root, level, lo, hi)
    decreases hi
  {
    if hi <= lo {
    } else {
      MissingAtSame(mem, mem', roots, c, e, root, level, lo, hi - 1);
      OnlyPageAt(mem, mem', roots, c, e, Path(root, level, hi - 1));
    }
  }

  lemma {:induction false} MissingSame(mem: seq<Byte>, mem': seq<Byte>, roots: set<nat>, c: Path, e: nat,
                                       root: nat, a: nat, b: nat, level: nat)
    requires c.level == 5 && OnlyPage(mem, mem', roots, c, e) && root in roots && a < b && level <= 4
    ensures MissingDownTo(mem', root, a, b, level) == MissingDownTo(mem, root, a, b, level)
  {
    if level == 0 {
    } else {
      MissingSame(mem, mem', roots, c, e, root, a, b, level - 1);
      MissingAtSame(mem, mem', roots, c, e, root, level, Prefix(a, level), Prefix(b - 1, level) + 1);
    }
  }

  // ---- the theorems about pte_set_fpn --------------------------------------------------------------------

  /** translate_address: the physical address a virtual address of a process stands for. */
  function Translate(mem: seq<Byte>, root: nat, vaddr: nat): Option<nat>
  {
    match At(mem, Page(root, vaddr / PAGE))
    case None => None
    case Some(f) => Some(f * PAGE + vaddr % PAGE)
  }

  /**
   What one pte_set_fpn does, for a process and a window of pages containing the page set: the entry of that
   page alone changes, on success only; memory stays well formed; frames balance tables made.
   */
  ghost predicate FpnSet(m: PMem, r: (PMem, bool), roots: set<nat>, depth: nat, root: nat, pgn: nat, fpn: nat,
                         a: nat, b: nat)
    requires a < b
  {
    && WellFormed(r.0, roots, depth)
    && |r.0.mem| == |m.mem|
    && Balanced(m, r.0, root, a, b)
    && TablesKept(m, r.0, roots, root)
    && (forall y: Path {:trigger Ent(r.0.mem, y)} :: y.root in roots && y.level == 5 ==>
          Ent(r.0.mem, y) == if r.1 && y == Page(root, pgn) then OnlineEntry(Ent(m.mem, y), fpn) else Ent(m.mem, y))
    && (r.1 ==> At(r.0.mem, Way(root, Key(pgn), 4)).Some?)
    && (!r.1 ==> r.0.free == [] && Missing(r.0.mem, root, a, b) > 0)
  }

  /** A spare frame is still spare after tables were made from the free list. */
  lemma SpareGrown(m: PMem, m': PMem, roots: set<nat>, depth: nat, root: nat, a: nat, b: nat, f: nat)
    requires depth == 4 || depth == 5
    requires a < b && Spare(m, roots, depth, f) && Grown(m, m', roots, depth, root, a, b)
    ensures Spare(m', roots, depth, f)
  {
    forall x | Live(m'.mem, roots, depth, x) ensures At(m'.mem, x) != Some(f) {
      if x.level == 5 {
        assert Ent(m'.mem, x) == Ent(m.mem, x);
        assert Live(m.mem, roots, depth, x);
      } else if At(m'.mem, x) == At(m.mem, x) {
        assert Live(m.mem, roots, depth, x);
      }
    }
  }

  /** The last step of pte_set_fpn, on the memory the walk left. */
  lemma LastStep(m: PMem, m1: PMem, f: nat, roots: set<nat>, depth: nat, root: nat, pgn: nat, fpn: nat, a: nat, b: nat)
    requires depth == 4 || (depth == 5 && Unused(m, roots, fpn))
    requires root in roots && a < b && Grown(m, m1, roots, depth, root, a, b)
    requires At(m1.mem, Way(root, Key(pgn), 4)) == Some(f)
    ensures var e := OnlineEntry(Slot(m1.mem, f, Page(root, pgn).Index()), fpn);
            FpnSet(m, (PMem(PutSlot(m1.mem, f, Page(root, pgn).Index(), e), m1.free), true), roots, depth, root, pgn,
              fpn, a, b)
  {
    hide MissingDownTo, MissingAt, Word, PutSlot, SetPresent, ClearSwapped, SetFrame;
    var c, old_e := Page(root, pgn), Slot(m1.mem, f, Page(root, pgn).Index());
    var e := OnlineEntry(old_e, fpn);
    var mem' := PutSlot(m1.mem, f, c.Index(), e);
    EntryBits(old_e, fpn);
    if depth == 5 {
      Shallower(m1, roots);
      SpareGrown(m, m1, roots, 5, root, a, b, fpn);
    }
    PageWritten(m1, roots, root, pgn, f, e);
    assert Live(m1.mem, roots, depth, Way(root, Key(pgn), 4));
    PageWrittenWellFormed(m1, roots, depth, c, f, e);
    MissingSame(m1.mem, mem', roots, c, e, root, a, b, 4);
    PageWrittenTables(m, m1, mem', roots, root, c, e);
    OnlyPageAt(m1.mem, mem', roots, c, e, Way(root, Key(pgn), 4));
  }

  lemma PageWrittenTables(m: PMem, m1: PMem, mem': seq<Byte>, roots: set<nat>, root: nat, c: Path, e: nat)
    requires TablesKept(m, m1, roots, root) && c.level == 5 && OnlyPage(m1.mem, mem', roots, c, e)
    ensures TablesKept(m, PMem(mem', m1.free), roots, root)
  {
    forall x: Path | x.root in roots && x.level <= 4 ensures At(mem', x) == At(m1.mem, x) {
      OnlyPageAt(m1.mem, mem', roots, c, e, x);
    }
  }

  lemma SetFpnInWindow(m: PMem, roots: set<nat>, depth: nat, root: nat, pgn: nat, fpn: nat, a: nat, b: nat)
    requires depth == 4 || (depth == 5 && Unused(m, roots, fpn))
    requires WellFormed(m, roots, depth) && root in roots
    requires a <= Key(pgn) < b <= PAGES && FramesReady(m, root, a, b)
    ensures FpnSet(m, PteSetFpn(m, root, pgn, fpn), roots, depth, root, pgn, fpn, a, b)
  {
    DescendGrows(m, roots, depth, root, Key(pgn), 4, a, b);
    var r := Descend(m, root, Key(pgn), 4);
    if r.1.Some? {
      LastStep(m, r.0, r.1.value, roots, depth, root, pgn, fpn, a, b);
    }
  }

  /** A page whose last table is reached has no table missing. */
  lemma {:induction false} ReachedNoneMissing(mem: seq<Byte>, root: nat, key: nat, level: nat)
    requires key < PAGES && level <= 4 && At(mem, Way(root, key, level)).Some?
    ensures MissingDownTo(mem, root, key, key + 1, level) == 0
  {
    if level == 0 {
    } else {
      WayParent(root, key, level);
      assert At(mem, Way(root, key, level - 1)).Some?;
      ReachedNoneMissing(mem, root, key, level - 1);
      assert MissingAt(mem, root, level, Prefix(key, level), Prefix(key, level)) == 0;
    }
  }

  /**
   pte_set_fpn refines assignment in a map from pages to entries. It succeeds exactly when the free list can
   supply the tables the page lacks; then that one entry, of all entries of all processes, takes the frame,
   present and not swapped. When it fails no entry changes. Either way memory is well formed afterwards.
   */
  lemma SetFpnRefinesMap(m: PMem, roots: set<nat>, root: nat, pgn: nat, fpn: nat)
    requires WellFormed(m, roots, 4) && root in roots
    requires FramesReady(m, root, Key(pgn), Key(pgn) + 1)
    ensures var (m', ok) := PteSetFpn(m, root, pgn, fpn); var need := Missing(m.mem, root, Key(pgn), Key(pgn) + 1);
            && WellFormed(m', roots, 4)
            && (ok <==> need <= |m.free|)
            && m'.free == (if ok then m.free[need..] else [])
            && (forall r, other {:trigger Page(r, other)} :: r in roots ==>
                  Ent(m'.mem, Page(r, other)) ==
                  if ok && Page(r, other) == Page(root, pgn) then OnlineEntry(Ent(m.mem, Page(r, other)), fpn)
                  else Ent(m.mem, Page(r, other)))
  {
    SetFpnInWindow(m, roots, 4, root, pgn, fpn, Key(pgn), Key(pgn) + 1);
    var (m', ok) := PteSetFpn(m, root, pgn, fpn);
    if ok {
      ReachedNoneMissing(m'.mem, root, Key(pgn), 4);
    }
  }

  /** After a successful pte_set_fpn every address of the page translates into the frame, at the same offset. */
  lemma SetFpnTranslates(m: PMem, roots: set<nat>, root: nat, pgn: nat, fpn: nat, off: nat)
    requires WellFormed(m, roots, 4) && root in roots
    requires FramesReady(m, root, Key(pgn), Key(pgn) + 1) && PteSetFpn(m, root, pgn, fpn).1
    requires fpn < FPN_SPAN && off < PAGE
    ensures Translate(PteSetFpn(m, root, pgn, fpn).0.mem, root, pgn * PAGE + off) == Some(fpn * PAGE + off)
  {
    SetFpnInWindow(m, roots, 4, root, pgn, fpn, Key(pgn), Key(pgn) + 1);
    EntryBits(Ent(m.mem, Page(root, pgn)), fpn);
    assert (pgn * PAGE + off) / PAGE == pgn && (pgn * PAGE + off) % PAGE == off;
    assert Present(Ent(PteSetFpn(m, root, pgn, fpn).0.mem, Page(root, pgn)));
  }
}
