/**
 The page list of a process, mm->fifo_pgn: pages are pushed at the front and victims taken from the back, which
 makes a first-in first-out queue.
 */
module FifoPages {
  import opened Prelude
  import MapRam

  // ---- the queue -----------------------------------------------------------------------------------------

  /** A page mapped, or a victim asked for. */
  datatype Op = Enlist(pgn: nat) | Victim

  function Last<T>(s: seq<T>): T
    requires s != []
  {
    s[|s| - 1]
  }

  function Reversed<T>(s: seq<T>): (r: seq<T>)
    ensures |r| == |s|
  {
    if s == [] then [] else Reversed(s[1..]) + [s[0]]
  }

  lemma {:induction false} ReversedAppend<T>(s: seq<T>, x: T)
    ensures Reversed(s + [x]) == [x] + Reversed(s)
  {
    if s == [] {
      assert s + [x] == [x];
    } else {
      ReversedAppend(s[1..], x);
      assert (s + [x])[1..] == s[1..] + [x];
    }
  }

  /** A list from front to back after an operation, and the victim chosen. */
  function ListAfter(list: seq<nat>, op: Op): seq<nat>
    requires op.Victim? ==> list != []
  {
    if op.Enlist? then [op.pgn] + list else list[..|list| - 1]
  }

  /** The victims are asked for only while two pages or more are listed. */
  predicate Runs(list: seq<nat>, ops: seq<Op>)
    decreases |ops|
  {
    ops == [] || ((ops[0].Victim? ==> |list| >= 2) && Runs(ListAfter(list, ops[0]), ops[1..]))
  }

  /** The victims a run takes from the back of the list, in order. */
  function Victims(list: seq<nat>, ops: seq<Op>): seq<nat>
    requires Runs(list, ops)
    decreases |ops|
  {
    if ops == [] then []
    else
      var rest := Victims(ListAfter(list, ops[0]), ops[1..]);
      if ops[0].Victim? then [Last(list)] + rest else rest
  }

  /** The list at the end of a run. */
  function ListOf(list: seq<nat>, ops: seq<Op>): seq<nat>
    requires Runs(list, ops)
    decreases |ops|
  {
    if ops == [] then list else ListOf(ListAfter(list, ops[0]), ops[1..])
  }

  /** The pages a run enlists, in order. */
  function Enlisted(ops: seq<Op>): seq<nat>
  {
    if ops == [] then []
    else if ops[0].Enlist? then [ops[0].pgn] + Enlisted(ops[1..])
    else Enlisted(ops[1..])
  }

  /**
   FIFO order: over any run, the victims taken and then the pages still listed, from the back, are the pages listed
   at the start, from the back, and then the pages enlisted, in order.
   */
  lemma {:induction false} FirstInFirstOut(list: seq<nat>, ops: seq<Op>)
    requires Runs(list, ops)
    ensures Victims(list, ops) + Reversed(ListOf(list, ops)) == Reversed(list) + Enlisted(ops)
    decreases |ops|
  {
    if ops == [] {
      assert Reversed(list) + [] == Reversed(list);
    } else {
      FirstInFirstOut(ListAfter(list, ops[0]), ops[1..]);
      FirstStep(list, ops);
    }
  }

  lemma Regroup<T>(a: seq<T>, b: seq<T>, c: seq<T>)
    ensures (a + b) + c == a + (b + c)
  {
  }

  lemma FirstStep(list: seq<nat>, ops: seq<Op>)
    requires Runs(list, ops) && ops != []
    requires var rest := ListAfter(list, ops[0]);
             Victims(rest, ops[1..]) + Reversed(ListOf(rest, ops[1..])) == Reversed(rest) + Enlisted(ops[1..])
    ensures Victims(list, ops) + Reversed(ListOf(list, ops)) == Reversed(list) + Enlisted(ops)
  {
    var rest := ListAfter(list, ops[0]);
    var victims, end, later := Victims(rest, ops[1..]), Reversed(ListOf(rest, ops[1..])), Enlisted(ops[1..]);
    if ops[0].Enlist? {
      assert rest[1..] == list;
      Regroup(Reversed(list), [ops[0].pgn], later);
    } else {
      var x := [Last(list)];
      ReversedAppend(rest, Last(list));
      assert rest + x == list;
      Regroup(x, victims, end);
      Regroup(x, Reversed(rest), later);
    }
  }

  /** From an empty list, the k-th victim of any run is the k-th page enlisted. */
  lemma VictimsInMappingOrder(ops: seq<Op>, k: nat)
    requires Runs([], ops) && k < |Victims([], ops)|
    ensures k < |Enlisted(ops)| && Victims([], ops)[k] == Enlisted(ops)[k]
  {
    FirstInFirstOut([], ops);
    var all := Victims([], ops) + Reversed(ListOf([], ops));
    assert all == Enlisted(ops);
    assert all[k] == Victims([], ops)[k];
  }

  /** The enlistments of a range of pages, in order. */
  function Mapping(pgn: nat, count: nat): (ops: seq<Op>)
    ensures |ops| == count
    decreases count
  {
    if count == 0 then [] else [Enlist(pgn)] + Mapping(pgn + 1, count - 1)
  }

  /** What mapping a range of pages does to the list is to enlist them in ascending order. */
  lemma {:induction false} MappingEnlists(pgn: nat, count: nat, list: seq<nat>, k: nat)
    requires k < count
    ensures Runs(list, Mapping(pgn, count)) && ListOf(list, Mapping(pgn, count)) == MapRam.PushedPages(pgn, count, list)
    ensures |Enlisted(Mapping(pgn, count))| == count && Enlisted(Mapping(pgn, count))[k] == pgn + k
    decreases count
  {
    assert Mapping(pgn, count)[1..] == Mapping(pgn + 1, count - 1);
    if count > 1 { MappingEnlists(pgn + 1, count - 1, [pgn] + list, if k > 0 then k - 1 else 0); }
  }

  // ---- the linked list -----------------------------------------------------------------------------------

  /** struct pgn_t */
  class PgnNode {
    const pgn: nat
    var next: PgnNode?

    constructor (pgn: nat, next: PgnNode?)
      ensures this.pgn == pgn && this.next == next
    {
      this.pgn, this.next := pgn, next;
    }
  }

  /** The node at position `k` of a chain; past its end, none. */
  ghost function NodeAt(nodes: seq<PgnNode>, k: nat): PgnNode? { if k < |nodes| then nodes[k] else null }

  class PageList {
    var head: PgnNode?
    ghost var nodes: seq<PgnNode>
    ghost var pages: seq<nat>

    ghost predicate NodeOk(k: nat)
      requires k < |nodes| == |pages|
      reads this, nodes
    {
      nodes[k].next == NodeAt(nodes, k + 1) && nodes[k].pgn == pages[k]
    }

    /** `nodes` are the nodes of the list from front to back, and `pages` their pages. */
    ghost predicate Valid()
      reads this, nodes
    {
      && NoDup(nodes) && head == NodeAt(nodes, 0) && |nodes| == |pages|
      && forall k :: 0 <= k < |nodes| ==> NodeOk(k)
    }

    constructor ()
      ensures Valid() && pages == [] && nodes == []
    {
      head := null;
      nodes, pages := [], [];
    }

    /** enlist_pgn_node */
    method EnlistPgnNode(pgn: nat)
      requires Valid()
      modifies this
      ensures Valid() && pages == ListAfter(old(pages), Enlist(pgn))
      ensures fresh(nodes[0]) && nodes[1..] == old(nodes)
    {
      var pnode := new PgnNode(pgn, head);
      head := pnode;
      nodes := [pnode] + nodes;
      pages := [pgn] + pages;
      forall k | 0 <= k < |nodes| ensures NodeOk(k) {
        assert k > 0 ==> old(NodeOk(k - 1));
      }
    }

    /** find_victim_page: from an empty list no page; otherwise the last one, which leaves the list. */
    method FindVictimPage() returns (victim: Option<nat>)
      requires Valid() && |pages| != 1
      modifies this, nodes
      ensures Valid()
      ensures old(pages) == [] ==> victim == None && pages == []
      ensures old(pages) != [] ==> victim == Some(Last(old(pages))) && pages == ListAfter(old(pages), Victim)
    {
      var pg := head;
      if pg == null { return None; }
      var prev: PgnNode? := null;
      ghost var k: nat := 0;
      assert NodeOk(0);
      while pg.next != null
        invariant k < |nodes| && pg == nodes[k] && NodeOk(k)
        invariant prev == if k == 0 then null else nodes[k - 1]
        decreases |nodes| - k
      {
        prev := pg;
        pg := pg.next;
        k := k + 1;
        assert NodeOk(k);
      }
      assert k == |nodes| - 1 && prev != null;
      victim := Some(pg.pgn);
      prev.next := null;
      nodes, pages := nodes[..k], pages[..k];
      forall j | 0 <= j < |nodes| ensures NodeOk(j) {
        assert old(NodeOk(j));
      }
    }
  }
}
