/** The bounded process queue of queue.c. A handle stands for a pointer to a process control block. */
module Queue {
  import opened Prelude

  const MAX_QUEUE_SIZE := 50

  /** A process: its identity, its priority, and the number of instructions it has to run. */
  datatype Proc = Proc(pid: nat, prio: nat, size: nat)

  /** Position `k` holds the first process of lowest priority value. */
  predicate FirstBest(s: seq<Proc>, k: nat)
  {
    && k < |s|
    && (forall j :: 0 <= j < |s| ==> s[k].prio <= s[j].prio)
    && (forall j :: 0 <= j < k ==> s[k].prio < s[j].prio)
  }

  function BestIndex(s: seq<Proc>): (k: nat)
    requires s != []
    ensures FirstBest(s, k)
  {
    if |s| == 1 then 0
    else
      var k := BestIndex(s[..|s| - 1]);
      assert forall j :: 0 <= j < |s| - 1 ==> s[..|s| - 1][j] == s[j];
      if s[|s| - 1].prio < s[k].prio then |s| - 1 else k
  }

  lemma FirstBestUnique(s: seq<Proc>, k: nat)
    requires FirstBest(s, k)
    ensures s != [] && k == BestIndex(s)
  {
  }

  function Enqueued(s: seq<Proc>, p: Proc): seq<Proc>
  {
    if |s| >= MAX_QUEUE_SIZE then s else s + [p]
  }

  /** The queue with its first occurrence of the process, if any, taken out. */
  function Purged(s: seq<Proc>, p: Proc): (r: seq<Proc>)
    ensures |r| <= |s|
  {
    if s == [] then [] else if s[0] == p then s[1..] else [s[0]] + Purged(s[1..], p)
  }

  lemma {:induction false} PurgedAt(s: seq<Proc>, p: Proc, i: nat)
    requires i < |s| && s[i] == p && forall j :: 0 <= j < i ==> s[j] != p
    ensures Purged(s, p) == Without(s, i)
  {
    if i == 0 {
    } else {
      PurgedAt(s[1..], p, i - 1);
      assert Without(s, i) == [s[0]] + Without(s[1..], i - 1);
    }
  }

  lemma {:induction false} PurgedAbsent(s: seq<Proc>, p: Proc)
    requires p !in s
    ensures Purged(s, p) == s
  {
    if s == [] {
    } else {
      PurgedAbsent(s[1..], p);
    }
  }

  /** Taking a process out of a duplicate-free queue leaves the others, each once. */
  lemma {:induction false} PurgedOthers(s: seq<Proc>, p: Proc)
    requires NoDup(s)
    ensures NoDup(Purged(s, p)) && forall x :: x in Purged(s, p) <==> x in s && x != p
  {
    if s == [] {
    } else {
      PurgedOthers(s[1..], p);
      assert s == [s[0]] + s[1..];
      assert s[0] !in s[1..];
      assert Purged(s, p) == if s[0] == p then s[1..] else [s[0]] + Purged(s[1..], p);
    }
  }

  class ProcQueue {
    const proc: array<Proc>
    var size: nat

    ghost predicate Valid() reads this, proc { proc.Length == MAX_QUEUE_SIZE && size <= MAX_QUEUE_SIZE }

    ghost function Contents(): (s: seq<Proc>)
      requires Valid()
      reads this, proc
      ensures |s| == size
    {
      proc[..size]
    }

    constructor ()
      ensures Valid() && fresh(proc) && Contents() == []
    {
      proc := new Proc[MAX_QUEUE_SIZE](_ => Proc(0, 0, 0));
      size := 0;
    }

    method Enqueue(p: Proc)
      requires Valid()
      modifies this`size, proc
      ensures Valid() && Contents() == Enqueued(old(Contents()), p)
    {
      if size >= MAX_QUEUE_SIZE {
        return;
      }
      proc[size] := p;
      size := size + 1;
    }

    /** The shift both removals share: everything after position `k` moves one place down. */
    method ShiftOut(k: nat)
      requires Valid() && k < size
      modifies this`size, proc
      ensures Valid() && Contents() == Without(old(Contents()), k)
    {
      var i := k;
      while i < size - 1
        invariant k <= i <= size - 1 && size == old(size)
        invariant forall j :: 0 <= j < k ==> proc[j] == old(proc[j])
        invariant forall j :: k <= j < i ==> proc[j] == old(proc[j + 1])
        invariant forall j :: i < j < size ==> proc[j] == old(proc[j])
      {
        proc[i] := proc[i + 1];
        i := i + 1;
      }
      size := size - 1;
    }

    method Dequeue() returns (ret: Option<Proc>)
      requires Valid()
      modifies this`size, proc
      ensures Valid()
      ensures old(Contents()) == [] ==> ret == None && Contents() == []
      ensures old(Contents()) != [] ==>
                var k := BestIndex(old(Contents()));
                && ret == Some(old(Contents())[k])
                && Contents() == Without(old(Contents()), k)
    {
      if size == 0 {
        return None;
      }
      var best := 0;
      var i := 1;
      while i < size
        invariant 1 <= i <= size && FirstBest(proc[..i], best)
      {
        if proc[i].prio < proc[best].prio {
          best := i;
        }
        i := i + 1;
      }
      FirstBestUnique(Contents(), best);
      ret := Some(proc[best]);
      ShiftOut(best);
    }

    method PurgeQueue(p: Proc) returns (ret: Option<Proc>)
      requires Valid()
      modifies this`size, proc
      ensures Valid() && Contents() == Purged(old(Contents()), p)
      ensures ret == if p in old(Contents()) then Some(p) else None
    {
      var i := 0;
      while i < size
        invariant 0 <= i <= size && size == old(size) && proc[..] == old(proc[..])
        invariant forall j :: 0 <= j < i ==> proc[j] != p
      {
        if proc[i] == p {
          PurgedAt(Contents(), p, i);
          ret := Some(proc[i]);
          ShiftOut(i);
          return;
        }
        i := i + 1;
      }
      PurgedAbsent(Contents(), p);
      return None;
    }
  }
}
