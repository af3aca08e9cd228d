/**
 Address spaces without bytes: what paging is meant to be. A state is which table paths exist, the entry of each page of
 each process, and the free frames in order; every operation is defined on that alone.
 */
module PageMap {
  import opened PageTable
  import opened PageTableUpdate

  /**
   The processes, by their top directories; the tables below those; the entries of all their pages; the free frames.
   */
  datatype Spaces = Spaces(roots: set<nat>, tables: iset<Path>, entry: imap<Path, nat>, free: seq<nat>)

  /** Table `c` is there already, or takes the first free frame, or cannot be had. */
  ghost function EnsurePath(s: Spaces, c: Path): (Spaces, bool)
  {
    if c in s.tables then (s, true)
    else if s.free == [] then (s, false)
    else (s.(tables := s.tables + iset{c}, free := s.free[1..]), true)
  }

  /** The tables on the way to a page, from the top down, until one cannot be had. */
  ghost function EnsureWay(s: Spaces, root: nat, key: nat, level: nat): (Spaces, bool)
    requires level <= 4
  {
    if level == 0 then (s, true)
    else
      var (s1, ok) := EnsureWay(s, root, key, level - 1);
      if ok then EnsurePath(s1, Way(root, key, level)) else (s1, false)
  }

  ghost function EntryOf(s: Spaces, y: Path): nat { if y in s.entry then s.entry[y] else 0 }

  /** Assigning a frame to one page. */
  ghost function SetPage(s: Spaces, root: nat, pgn: nat, fpn: nat): (Spaces, bool)
  {
    var (s1, ok) := EnsureWay(s, root, Key(pgn), 4);
    var y := Page(root, pgn);
    if ok then (s1.(entry := s1.entry[y := OnlineEntry(EntryOf(s1, y), fpn)]), true) else (s1, false)
  }

  /** Assigning frames to consecutive pages until one fails, and how many did not. */
  ghost function SetPages(s: Spaces, root: nat, pgn: nat, frames: seq<nat>): (Spaces, nat)
    decreases |frames|
  {
    if frames == [] then (s, 0)
    else
      var (s1, ok) := SetPage(s, root, pgn, frames[0]);
      if !ok then (s1, 0)
      else
        var (s2, n) := SetPages(s1, root, pgn + 1, frames[1..]);
        (s2, n + 1)
  }

  /** Frames returned one by one to the head of the free list. */
  ghost function Returned(free: seq<nat>, frames: seq<nat>): seq<nat>
    decreases |frames|
  {
    if frames == [] then free else Returned([frames[0]] + free, frames[1..])
  }

  /**
   Mapping `k` pages: all their frames first, then the pages; a failure returns the frames and undoes nothing else.
   */
  ghost function MapPages(s: Spaces, root: nat, pgn: nat, k: nat): (Spaces, bool)
  {
    if |s.free| < k then (s.(free := Returned([], s.free)), false)
    else
      var (s1, n) := SetPages(s.(free := s.free[k..]), root, pgn, s.free[..k]);
      if n < k then (s1.(free := Returned(s1.free, s.free[..k])), false) else (s1, true)
  }

  /** A new process gets the first free frame as its top directory and maps nothing. */
  ghost function NewSpace(s: Spaces): Spaces
  {
    if s.free == [] then s
    else
      var g := s.free[0];
      Spaces(s.roots + {g}, s.tables,
             imap y: Path | y.root in s.roots + {g} && y.level == 5 :: if y.root in s.roots then EntryOf(s, y) else 0,
             s.free[1..])
  }

  // ---- what one process does to another ------------------------------------------------------------------

  /** Between the two states nothing of the processes other than `root` changed. */
  ghost predicate Elsewhere(s: Spaces, s': Spaces, root: nat)
  {
    && s'.roots == s.roots
    && (forall y: Path :: y.root != root ==> (y in s'.entry <==> y in s.entry) && EntryOf(s', y) == EntryOf(s, y))
    && (forall x: Path :: x.root != root ==> (x in s'.tables <==> x in s.tables))
  }

  lemma {:induction false} EnsureWayElsewhere(s: Spaces, root: nat, key: nat, level: nat)
    requires level <= 4
    ensures Elsewhere(s, EnsureWay(s, root, key, level).0, root)
  {
    if level == 0 {
    } else {
      EnsureWayElsewhere(s, root, key, level - 1);
    }
  }

  lemma {:induction false} SetPagesElsewhere(s: Spaces, root: nat, pgn: nat, frames: seq<nat>)
    ensures Elsewhere(s, SetPages(s, root, pgn, frames).0, root)
    decreases |frames|
  {
    if frames == [] {
    } else {
      EnsureWayElsewhere(s, root, Key(pgn), 4);
      SetPagesElsewhere(SetPage(s, root, pgn, frames[0]).0, root, pgn + 1, frames[1..]);
    }
  }

  /** Mapping pages of one process leaves the tables and the entries of all others as they were. */
  lemma MapPagesElsewhere(s: Spaces, root: nat, pgn: nat, k: nat)
    ensures Elsewhere(s, MapPages(s, root, pgn, k).0, root)
  {
    if k <= |s.free| { SetPagesElsewhere(s.(free := s.free[k..]), root, pgn, s.free[..k]); }
  }
}
