/**
 The five-level page table of mm64.c, read straight out of the bytes of physical memory.

 A table is one 4096-byte frame; its entries are little-endian 32-bit words. A table is named by the path
 that reaches it: the frame of its process's top directory, its level below that directory, and the page
 number bits consumed so far. Level 5 names the frame a page is mapped to.
 */
module PageTable {
  import opened Prelude

  type Byte = b: int | 0 <= b < 256

  const PAGE := 4096              // PAGING64_PAGESZ, the stride of table frames
  const FANOUT := 512             // nine index bits per level
  const PAGES := 0x2000_0000_0000 // 2^45 page numbers
  const PRESENT := 0x8000_0000    // bit 31
  const SWAPPED := 0x4000_0000    // bit 30
  const FPN_SPAN := 8192          // thirteen frame-number bits
  const WORD := 0x1_0000_0000

  /** Physical memory as the code sees it: its bytes and its list of free frames. */
  datatype PMem = PMem(mem: seq<Byte>, free: seq<nat>)

  // ---- entries -------------------------------------------------------------------------------------------

  predicate Present(e: nat) { e / PRESENT % 2 == 1 }

  function Fpn(e: nat): nat { e % FPN_SPAN }

  function SetPresent(e: nat): nat { if Present(e) then e else e + PRESENT }

  function ClearSwapped(e: nat): nat { if e / SWAPPED % 2 == 1 then e - SWAPPED else e }

  function SetFrame(e: nat, fpn: nat): nat { e - e % FPN_SPAN + fpn % FPN_SPAN }

  /** The entry written for a new table. */
  function TableEntry(fpn: nat): nat { SetFrame(SetPresent(0), fpn) }

  /** The entry pte_set_fpn writes over an old page entry. */
  function OnlineEntry(e: nat, fpn: nat): nat { SetFrame(ClearSwapped(SetPresent(e)), fpn) }

  lemma EntryBits(e: nat, fpn: nat)
    requires e < WORD
    ensures TableEntry(fpn) < WORD && Present(TableEntry(fpn)) && Fpn(TableEntry(fpn)) == fpn % FPN_SPAN
    ensures OnlineEntry(e, fpn) < WORD && Present(OnlineEntry(e, fpn)) && Fpn(OnlineEntry(e, fpn)) == fpn % FPN_SPAN
    ensures OnlineEntry(e, fpn) / SWAPPED % 2 == 0
    ensures fpn < FPN_SPAN ==> Fpn(TableEntry(fpn)) == fpn && Fpn(OnlineEntry(e, fpn)) == fpn
  {
    var a := SetPresent(e);
    assert PRESENT <= a < WORD && Present(a);
    var b := ClearSwapped(a);
    assert PRESENT <= b < PRESENT + SWAPPED;
    var c := SetFrame(b, fpn);
    assert b - b % FPN_SPAN == b / FPN_SPAN * FPN_SPAN;
    assert PRESENT <= c < PRESENT + SWAPPED;
  }

  // ---- words in memory -----------------------------------------------------------------------------------

  /** A frame that lies inside the memory and whose number fits the frame field of an entry. */
  predicate Backed(mem: seq<Byte>, f: nat) { (f + 1) * PAGE <= |mem| && f < FPN_SPAN }

  function Word(mem: seq<Byte>, a: nat): (e: nat)
    requires a + 4 <= |mem|
    ensures e < WORD
  {
    mem[a] as int + 0x100 * mem[a + 1] as int + 0x1_0000 * mem[a + 2] as int + 0x100_0000 * mem[a + 3] as int
  }

  function PutWord(mem: seq<Byte>, a: nat, e: nat): (r: seq<Byte>)
    requires a + 4 <= |mem|
    ensures |r| == |mem|
  {
    mem[a := e % 0x100][a + 1 := e / 0x100 % 0x100][a + 2 := e / 0x1_0000 % 0x100][a + 3 := e / 0x100_0000 % 0x100]
  }

  /** Entry `i` of the table in frame `f`; a frame outside the memory has no entries. */
  function Slot(mem: seq<Byte>, f: nat, i: nat): (e: nat)
    requires i < FANOUT
    ensures e < WORD
  {
    if Backed(mem, f) then Word(mem, f * PAGE + i * 4) else 0
  }

  function PutSlot(mem: seq<Byte>, f: nat, i: nat, e: nat): (r: seq<Byte>)
    requires i < FANOUT
    ensures |r| == |mem|
  {
    if Backed(mem, f) then PutWord(mem, f * PAGE + i * 4, e) else mem
  }

  lemma ReadBack(mem: seq<Byte>, a: nat, e: nat)
    requires a + 4 <= |mem| && e < WORD
    ensures Word(PutWord(mem, a, e), a) == e
    ensures PutWord(mem, a, e)[a] == e % 0x100 && PutWord(mem, a, e)[a + 3] == e / 0x100_0000
    ensures PutWord(mem, a, e)[..a] == mem[..a] && PutWord(mem, a, e)[a + 4..] == mem[a + 4..]
  {
    assert e / 0x100 == e / 0x1_0000 * 0x100 + e / 0x100 % 0x100;
    assert e / 0x1_0000 == e / 0x100_0000 * 0x100 + e / 0x1_0000 % 0x100;
  }

  /** Writing one entry changes that entry and no other entry of any table. */
  lemma SlotAfterPut(mem: seq<Byte>, f: nat, i: nat, e: nat, g: nat, j: nat)
    requires Backed(mem, f) && i < FANOUT && j < FANOUT && e < WORD
    ensures Slot(PutSlot(mem, f, i, e), g, j) == if g == f && j == i then e else Slot(mem, g, j)
  {
    if g == f && j == i {
      ReadBack(mem, f * PAGE + i * 4, e);
    } else {
      assert f * PAGE + i * 4 + 4 <= g * PAGE + j * 4 || g * PAGE + j * 4 + 4 <= f * PAGE + i * 4;
    }
  }

  ghost predicate ZeroFrame(mem: seq<Byte>, f: nat)
  {
    Backed(mem, f) ==> forall a {:trigger mem[a]} :: f * PAGE <= a < (f + 1) * PAGE ==> mem[a] == 0
  }

  lemma ZeroSlot(mem: seq<Byte>, f: nat, i: nat)
    requires ZeroFrame(mem, f) && i < FANOUT
    ensures Slot(mem, f, i) == 0
  {
  }

  // ---- walking the tree ----------------------------------------------------------------------------------

  datatype Path = Path(root: nat, level: nat, prefix: nat) {
    function Parent(): Path requires level > 0 { Path(root, level - 1, prefix / FANOUT) }
    function Index(): (i: nat) ensures i < FANOUT { prefix % FANOUT }
    function Child(i: nat): Path { Path(root, level + 1, prefix * FANOUT + i) }
  }

  /** The frame a path leads to, following present entries from the top directory. */
  function At(mem: seq<Byte>, x: Path): Option<nat>
    decreases x.level
  {
    if x.level == 0 then if x.prefix == 0 then Some(x.root) else None
    else if Present(Ent(mem, x)) then Some(Fpn(Ent(mem, x))) else None
  }

  /** The entry at the end of a path, 0 where a table on the way is missing. */
  function Ent(mem: seq<Byte>, x: Path): (e: nat)
    requires x.level > 0
    ensures e < WORD
    decreases x.level, 0
  {
    match At(mem, x.Parent())
    case None => 0
    case Some(f) => Slot(mem, f, x.Index())
  }

  /** The page-table index bits of a page number: everything above bit 44 is masked away. */
  function Key(pgn: nat): (k: nat) ensures k < PAGES { pgn % PAGES }

  function Page(root: nat, pgn: nat): Path { Path(root, 5, Key(pgn)) }

  /** Beneath a cleared top directory every entry reads as 0. */
  lemma {:induction false} EmptyDirectory(mem: seq<Byte>, g: nat, y: Path)
    requires ZeroFrame(mem, g) && y.root == g && y.level >= 1
    ensures Ent(mem, y) == 0
    decreases y.level
  {
    if y.level == 1 {
      ZeroSlot(mem, g, y.Index());
    } else {
      EmptyDirectory(mem, g, y.Parent());
    }
  }

  // ---- well-formed memory --------------------------------------------------------------------------------

  /** `x` is the path of a frame in use by one of the processes whose top directories are `roots`. */
  ghost predicate Live(mem: seq<Byte>, roots: set<nat>, depth: nat, x: Path)
  {
    x.root in roots && x.level <= depth && At(mem, x).Some?
  }

  /**
   Each frame in use is reached by one path and is not free; tables lie inside memory; free frames are listed
   once and hold zeroes. `depth` 4 speaks of tables, 5 also of the frames pages are mapped to.
   */
  ghost predicate WellFormed(m: PMem, roots: set<nat>, depth: nat)
  {
    && (forall x {:trigger Live(m.mem, roots, depth, x)} :: Live(m.mem, roots, depth, x) ==>
          At(m.mem, x).value !in m.free && (x.level <= 4 ==> Backed(m.mem, At(m.mem, x).value)))
    && (forall x, y {:trigger Live(m.mem, roots, depth, x), Live(m.mem, roots, depth, y)} ::
          Live(m.mem, roots, depth, x) && Live(m.mem, roots, depth, y) && x != y ==> At(m.mem, x) != At(m.mem, y))
    && NoDup(m.free)
    && (forall f :: f in m.free ==> ZeroFrame(m.mem, f))
  }

  lemma Shallower(m: PMem, roots: set<nat>)
    requires WellFormed(m, roots, 5)
    ensures WellFormed(m, roots, 4)
  {
    forall x | Live(m.mem, roots, 4, x) ensures Live(m.mem, roots, 5, x) {}
  }

  /**
   The write lemma. Putting `v` at entry `i` of the table reached by `x` changes the entry of the path
   `x.Child(i)` and of no other path of any process, provided nothing hung beneath that entry and
   the frame `v` names, if it becomes a table, holds zeroes.
   */
  lemma {:induction false} EntAfterPut(m: PMem, roots: set<nat>, x: Path, f: nat, i: nat, v: nat, y: Path)
    requires WellFormed(m, roots, 4)
    requires Live(m.mem, roots, 4, x) && At(m.mem, x) == Some(f) && i < FANOUT && v < WORD
    requires x.level < 4 ==> At(m.mem, x.Child(i)).None? && Present(v) && ZeroFrame(m.mem, Fpn(v)) && Fpn(v) != f
    requires y.root in roots && 1 <= y.level <= 5
    ensures Ent(PutSlot(m.mem, f, i, v), y) == if y == x.Child(i) then v else Ent(m.mem, y)
    decreases y.level
  {
    var mem, mem' := m.mem, PutSlot(m.mem, f, i, v);
    var p, c := y.Parent(), x.Child(i);
    if p.level > 0 {
      EntAfterPut(m, roots, x, f, i, v, p);
    }
    if p == c {
      SlotAfterPut(mem, f, i, v, Fpn(v), y.Index());
      ZeroSlot(mem, Fpn(v), y.Index());
      assert y != c;
    } else if At(mem, p).Some? {
      var g := At(mem, p).value;
      assert At(mem', p) == Some(g);
      SlotAfterPut(mem, f, i, v, g, y.Index());
      assert Live(mem, roots, 4, p);
      if g == f && y.Index() == i {
        assert p == x;
        assert y.prefix == x.prefix * FANOUT + i;
      } else if y == c {
        ChildParent(x, i);
      }
    } else if y == c {
      ChildParent(x, i);
    }
  }

  lemma ChildParent(x: Path, i: nat)
    requires i < FANOUT
    ensures x.Child(i).Parent() == x && x.Child(i).Index() == i
  {
    assert (x.prefix * FANOUT + i) / FANOUT == x.prefix;
  }
}
