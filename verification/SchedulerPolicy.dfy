/**
 The multi-level queue policy of sched.c as functions on its state, and what it guarantees over whole runs:
 fair shares between slot resets and a bound on waiting.
 */
module SchedulerPolicy {
  import opened Prelude
  import opened Queue

  const MAX_PRIO := 140
  const ALL_SLOTS := 9870   // the sum of 140, 139, ..., 1

  /** The ready queue and remaining slots of each priority, and the running list. */
  datatype Sched = Sched(ready: seq<seq<Proc>>, slot: seq<nat>, running: seq<Proc>)

  function FullSlots(): (s: seq<nat>)
    ensures |s| == MAX_PRIO && forall p :: 0 <= p < MAX_PRIO ==> s[p] == MAX_PRIO - p
  {
    seq(MAX_PRIO, p requires 0 <= p < MAX_PRIO => MAX_PRIO - p)
  }

  ghost predicate Shaped(s: Sched) { |s.ready| == MAX_PRIO && |s.slot| == MAX_PRIO }

  /** Queues hold processes of their own priority, and no priority has more slots than its share. */
  ghost predicate Sound(s: Sched)
  {
    && Shaped(s)
    && (forall p :: 0 <= p < MAX_PRIO ==> s.slot[p] <= MAX_PRIO - p)
    && (forall p, k :: 0 <= p < MAX_PRIO && 0 <= k < |s.ready[p]| ==> s.ready[p][k].prio == p)
  }

  function Start(): Sched { Sched(seq(MAX_PRIO, _ => []), FullSlots(), []) }

  // ---- the policy ----------------------------------------------------------------------------------------

  predicate Eligible(ready: seq<seq<Proc>>, slot: seq<nat>, p: nat)
    requires p < |ready| && p < |slot|
  {
    ready[p] != [] && slot[p] > 0
  }

  predicate AllEmpty(ready: seq<seq<Proc>>) { forall p :: 0 <= p < |ready| ==> ready[p] == [] }

  /** The least priority value below `n` with a process waiting and a slot left. */
  function FirstBelow(ready: seq<seq<Proc>>, slot: seq<nat>, n: nat): (r: Option<nat>)
    requires n <= |ready| && n <= |slot|
    ensures r.Some? ==> r.value < n && Eligible(ready, slot, r.value)
    ensures r.Some? ==> forall q :: 0 <= q < r.value ==> !Eligible(ready, slot, q)
    ensures r.None? ==> forall q :: 0 <= q < n ==> !Eligible(ready, slot, q)
  {
    if n == 0 then None
    else
      var r := FirstBelow(ready, slot, n - 1);
      if r.Some? then r else if Eligible(ready, slot, n - 1) then Some(n - 1) else None
  }

  function FirstEligible(ready: seq<seq<Proc>>, slot: seq<nat>): (r: Option<nat>)
    requires |ready| == |slot| == MAX_PRIO
    ensures r.Some? ==> r.value < MAX_PRIO && Eligible(ready, slot, r.value)
    ensures r.Some? ==> forall q :: 0 <= q < r.value ==> !Eligible(ready, slot, q)
    ensures r.None? ==> forall q :: 0 <= q < MAX_PRIO ==> !Eligible(ready, slot, q)
  {
    FirstBelow(ready, slot, |ready|)
  }

  /** A get that finds processes waiting but no slot for any of them starts a new round of slots. */
  predicate Resets(s: Sched)
    requires Shaped(s)
  {
    !AllEmpty(s.ready) && FirstEligible(s.ready, s.slot).None?
  }

  function SlotsUsed(s: Sched): (slot: seq<nat>)
    requires Shaped(s)
    ensures |slot| == MAX_PRIO
  {
    if Resets(s) then FullSlots() else s.slot
  }

  /** The priority a get serves. */
  function Chosen(s: Sched): (p: nat)
    requires Shaped(s) && !AllEmpty(s.ready)
    ensures p < MAX_PRIO && Eligible(s.ready, SlotsUsed(s), p)
    ensures forall q :: 0 <= q < p ==> !Eligible(s.ready, SlotsUsed(s), q)
  {
    SomeoneEligible(s);
    FirstEligible(s.ready, SlotsUsed(s)).value
  }

  lemma SomeoneEligible(s: Sched)
    requires Shaped(s) && !AllEmpty(s.ready)
    ensures FirstEligible(s.ready, SlotsUsed(s)).Some?
  {
    if Resets(s) {
      var p :| 0 <= p < |s.ready| && s.ready[p] != [];
      assert Eligible(s.ready, SlotsUsed(s), p);
    }
  }

  /** The search as the code makes it: once over the slots left, and again over full slots if that finds none. */
  lemma SearchTwice(s: Sched)
    requires Shaped(s) && !AllEmpty(s.ready)
    ensures FirstEligible(s.ready, s.slot).Some? ==>
              SlotsUsed(s) == s.slot && FirstEligible(s.ready, s.slot) == Some(Chosen(s))
    ensures FirstEligible(s.ready, s.slot).None? ==>
              SlotsUsed(s) == FullSlots() && FirstEligible(s.ready, FullSlots()) == Some(Chosen(s))
  {
    SomeoneEligible(s);
  }

  /** get_mlq_proc. */
  function GetProc(s: Sched): (Sched, Option<Proc>)
    requires Shaped(s)
  {
    if AllEmpty(s.ready) then (s, None)
    else
      var p := Chosen(s);
      var k := BestIndex(s.ready[p]);
      var x := s.ready[p][k];
      (Sched(s.ready[p := Without(s.ready[p], k)], SlotsUsed(s)[p := SlotsUsed(s)[p] - 1], Enqueued(s.running, x)),
        Some(x))
  }

  /** The parts of a successful get, for the queue `q` it serves and the slots `u` it draws on. */
  lemma GetParts(s: Sched, c: nat, u: seq<nat>, q: seq<Proc>)
    requires Shaped(s) && !AllEmpty(s.ready) && c == Chosen(s) && u == SlotsUsed(s) && q == s.ready[c]
    ensures q != [] && u[c] > 0
    ensures GetProc(s) ==
            (Sched(s.ready[c := Without(q, BestIndex(q))], u[c := u[c] - 1], Enqueued(s.running, q[BestIndex(q)])),
                           Some(q[BestIndex(q)]))
  {
  }

  /** put_mlq_proc and add_mlq_proc: off the running list, onto the end of its priority's queue. */
  function PutProc(s: Sched, x: Proc): Sched
    requires Shaped(s) && x.prio < MAX_PRIO
  {
    Sched(s.ready[x.prio := Enqueued(s.ready[x.prio], x)], s.slot, Purged(s.running, x))
  }

  /** A get answers with a process exactly when one waits. */
  lemma GetAnswers(s: Sched)
    requires Shaped(s)
    ensures GetProc(s).1.None? <==> forall p :: 0 <= p < MAX_PRIO ==> s.ready[p] == []
    ensures GetProc(s).1.None? ==> GetProc(s).0 == s
  {
  }

  /** In a sound state a get serves its queue in arrival order: the process at the front. */
  lemma FrontServed(s: Sched)
    requires Sound(s) && !AllEmpty(s.ready)
    ensures var p := Chosen(s); BestIndex(s.ready[p]) == 0 && GetProc(s).1 == Some(s.ready[p][0])
    ensures var p := Chosen(s); GetProc(s).0.ready == s.ready[p := s.ready[p][1..]]
  {
    var p := Chosen(s);
    FirstBestUnique(s.ready[p], 0);
    assert Without(s.ready[p], 0) == s.ready[p][1..];
  }

  /**
   Strict priority: whoever a get serves, every more urgent priority is empty or out of slots; and where all waiting
   priorities are out of slots, the most urgent of them is served.
   */
  lemma UrgentFirst(s: Sched, q: nat)
    requires Sound(s) && !AllEmpty(s.ready)
    requires GetProc(s).1.Some? ==> q < GetProc(s).1.value.prio
    ensures GetProc(s).1.Some? && q < MAX_PRIO
    ensures s.ready[q] == [] || (s.slot[q] == 0 && exists p :: q < p < MAX_PRIO && s.ready[p] != [] && s.slot[p] > 0)
  {
    FrontServed(s);
    var p := Chosen(s);
    assert p == GetProc(s).1.value.prio && Eligible(s.ready, SlotsUsed(s), p) && !Eligible(s.ready, SlotsUsed(s), q);
  }

  lemma GetSound(s: Sched)
    requires Sound(s)
    ensures Sound(GetProc(s).0)
  {
    if !AllEmpty(s.ready) {
      FrontServed(s);
    }
  }

  lemma PutSound(s: Sched, x: Proc)
    requires Sound(s) && x.prio < MAX_PRIO
    ensures Sound(PutProc(s, x))
  {
  }

  // ---- runs of the scheduler -----------------------------------------------------------------------------

  /** Get, or a process joining the ready queues, put back by a CPU or added by the loader. */
  datatype Call = Get | Join(x: Proc)

  predicate Callable(calls: seq<Call>) { forall i :: 0 <= i < |calls| && calls[i].Join? ==> calls[i].x.prio < MAX_PRIO }

  function After(s: Sched, c: Call): Sched
    requires Shaped(s) && (c.Join? ==> c.x.prio < MAX_PRIO)
  {
    match c
    case Get => GetProc(s).0
    case Join(x) => PutProc(s, x)
  }

  function AfterAll(s: Sched, calls: seq<Call>): (r: Sched)
    requires Shaped(s) && Callable(calls)
    ensures Shaped(r)
    decreases |calls|
  {
    if calls == [] then s else AfterAll(After(s, calls[0]), calls[1..])
  }

  /** The processes handed out over a run, in order. */
  function Served(s: Sched, calls: seq<Call>): seq<Proc>
    requires Shaped(s) && Callable(calls)
    decreases |calls|
  {
    if calls == [] then []
    else
      (if calls[0].Get? && GetProc(s).1.Some? then [GetProc(s).1.value] else []) +
      Served(After(s, calls[0]), calls[1..])
  }

  lemma AfterSound(s: Sched, c: Call)
    requires Sound(s) && (c.Join? ==> c.x.prio < MAX_PRIO)
    ensures Sound(After(s, c))
  {
    if c.Get? { GetSound(s); } else { PutSound(s, c.x); }
  }

  // ---- fair shares ---------------------------------------------------------------------------------------

  /** No get of the run starts a new round of slots. */
  predicate NoReset(s: Sched, calls: seq<Call>)
    requires Shaped(s) && Callable(calls)
    decreases |calls|
  {
    calls == [] || ((calls[0].Get? ==> !Resets(s)) && NoReset(After(s, calls[0]), calls[1..]))
  }

  function CountPrio(xs: seq<Proc>, p: nat): nat
  {
    if xs == [] then 0 else (if xs[0].prio == p then 1 else 0) + CountPrio(xs[1..], p)
  }

  /** Within a round, what a priority was served and what it has left stay in balance. */
  lemma {:induction false} SlotsAccount(s: Sched, calls: seq<Call>, p: nat)
    requires Sound(s) && Callable(calls) && NoReset(s, calls) && p < MAX_PRIO
    ensures Sound(AfterAll(s, calls))
    ensures CountPrio(Served(s, calls), p) + AfterAll(s, calls).slot[p] == s.slot[p]
    decreases |calls|
  {
    if calls == [] {
    } else {
      var s1 := After(s, calls[0]);
      AfterSound(s, calls[0]);
      SlotsAccount(s1, calls[1..], p);
      if calls[0].Get? && !AllEmpty(s.ready) {
        FrontServed(s);
        assert Served(s, calls)[1..] == Served(s1, calls[1..]);
      } else {
        assert Served(s, calls) == Served(s1, calls[1..]);
      }
    }
  }

  /**
   From one reset of the slots to just before the next, priority `p` is served at most 140 - p times, and
   exactly that often if it has a process waiting when the next reset comes.
   */
  lemma FairShare(s: Sched, calls: seq<Call>, p: nat)
    requires Sound(s) && Resets(s) && calls != [] && calls[0] == Get && Callable(calls) && p < MAX_PRIO
    requires NoReset(GetProc(s).0, calls[1..])
    ensures var n := CountPrio(Served(s, calls), p); var s' := AfterAll(s, calls);
            n <= MAX_PRIO - p && (Resets(s') && s'.ready[p] != [] ==> n == MAX_PRIO - p)
  {
    FrontServed(s);
    GetSound(s);
    var s1 := GetProc(s).0;
    SlotsAccount(s1, calls[1..], p);
    assert Served(s, calls)[1..] == Served(s1, calls[1..]);
    var s' := AfterAll(s, calls);
    if Resets(s') && s'.ready[p] != [] {
      assert !Eligible(s'.ready, s'.slot, p);
    }
  }

  /**
   The same from the very start: up to the first reset, priority `p` is served at most 140 - p times, and exactly that
   often if it has a process waiting when that reset comes.
   */
  lemma FairShareFromStart(calls: seq<Call>, p: nat)
    requires Callable(calls) && p < MAX_PRIO && NoReset(Start(), calls)
    ensures Sound(Start()) && AllEmpty(Start().ready)
    ensures var n, s := CountPrio(Served(Start(), calls), p), AfterAll(Start(), calls);
            n <= MAX_PRIO - p && (Resets(s) && s.ready[p] != [] ==> n == MAX_PRIO - p)
  {
    SlotsAccount(Start(), calls, p);
    var s := AfterAll(Start(), calls);
    if Resets(s) && s.ready[p] != [] {
      assert !Eligible(s.ready, s.slot, p);
    }
  }

  // ---- bounded waiting -----------------------------------------------------------------------------------

  function Sum(xs: seq<nat>): nat { if xs == [] then 0 else xs[0] + Sum(xs[1..]) }

  lemma {:induction false} SumUpdate(xs: seq<nat>, i: nat, v: nat)
    requires i < |xs|
    ensures Sum(xs[i := v]) == Sum(xs) - xs[i] + v
  {
    if i == 0 {
      assert xs[0 := v][1..] == xs[1..];
    } else {
      assert xs[i := v][1..] == xs[1..][i - 1 := v];
      SumUpdate(xs[1..], i - 1, v);
    }
  }

  lemma {:induction false} SumFrom(p: nat)
    requires p <= MAX_PRIO
    ensures 2 * Sum(FullSlots()[p..]) == (MAX_PRIO - p) * (MAX_PRIO - p + 1)
    decreases MAX_PRIO - p
  {
    hide FullSlots;
    if p < MAX_PRIO {
      SumFrom(p + 1);
      assert FullSlots()[p..][1..] == FullSlots()[p + 1..];
      Triangle(MAX_PRIO - p);
    }
  }

  lemma Triangle(n: nat)
    requires n > 0
    ensures n * (n + 1) == (n - 1) * n + 2 * n
  {
  }

  lemma FullSlotsSum()
    ensures Sum(FullSlots()) == ALL_SLOTS
  {
    SumFrom(0);
    assert FullSlots()[0..] == FullSlots();
  }

  /** Rounds of `d` needed to cover `x`: x / d rounded up, 0 for x <= 0. */
  function Rounds(x: int, d: nat): nat
    requires d > 0
    decreases if x > 0 then x else 0
  {
    if x <= 0 then 0 else 1 + Rounds(x - d, d)
  }

  lemma {:induction false} RoundsCover(x: nat, d: nat)
    requires d > 0
    ensures x <= d * Rounds(x, d) < x + d
    decreases x
  {
    if x == 0 {
    } else if x <= d {
      assert Rounds(x, d) == 1 + Rounds(x - d, d) == 1;
    } else {
      RoundsCover(x - d, d);
      OneMore(d, Rounds(x - d, d));
    }
  }

  lemma {:induction false} RoundsMonotone(x: int, y: int, d: nat)
    requires d > 0 && x <= y
    ensures Rounds(x, d) <= Rounds(y, d)
    decreases if y > 0 then y else 0
  {
    if x <= 0 {
    } else {
      RoundsMonotone(x - d, y - d, d);
    }
  }

  /** What is left to wait for the process at place `k` of queue `p`: the slots of this round and whole rounds. */
  function Wait(s: Sched, p: nat, k: nat): nat
    requires Shaped(s) && p < MAX_PRIO
  {
    Sum(s.slot) + ALL_SLOTS * Rounds(k + 1 - s.slot[p], MAX_PRIO - p)
  }

  /** The slots after a get: this round's or a new round's, one fewer for the priority served. */
  lemma SlotsAfterGet(s: Sched)
    requires Sound(s) && !AllEmpty(s.ready)
    ensures var q, u, s' := Chosen(s), SlotsUsed(s), GetProc(s).0;
            && s'.slot == u[q := u[q] - 1] && Sum(s'.slot) == Sum(u) - 1
            && (Resets(s) ==>
                  && u == FullSlots() && Sum(u) == ALL_SLOTS
                  && forall p :: 0 <= p < MAX_PRIO && s.ready[p] != [] ==> s.slot[p] == 0)
            && (!Resets(s) ==> u == s.slot)
  {
    var q, u := Chosen(s), SlotsUsed(s);
    SumUpdate(u, q, u[q] - 1);
    if Resets(s) {
      FullSlotsSum();
      forall p | 0 <= p < MAX_PRIO && s.ready[p] != [] ensures s.slot[p] == 0 {
        assert !Eligible(s.ready, s.slot, p);
      }
    }
  }

  /** A get shortens the wait at place `k`, or at place `k - 1` when it served that very queue. */
  lemma GetLowersWait(s: Sched, p: nat, k: nat)
    requires Sound(s) && p < MAX_PRIO && k < |s.ready[p]|
    ensures !AllEmpty(s.ready) && (Chosen(s) == p ==> k == 0 || Wait(GetProc(s).0, p, k - 1) < Wait(s, p, k))
    ensures Chosen(s) != p ==> Wait(GetProc(s).0, p, k) < Wait(s, p, k)
  {
    assert !AllEmpty(s.ready);
    SlotsAfterGet(s);
    var s' := GetProc(s).0;
    hide GetProc, FullSlots, Sum, Chosen, SlotsUsed, FirstEligible;
    if Resets(s) {
      assert Rounds(k + 1, MAX_PRIO - p) == 1 + Rounds(k + 1 - (MAX_PRIO - p), MAX_PRIO - p);
    }
  }

  /** Every get that does not hand out the waiting process brings it nearer. */
  lemma GetShortensWait(s: Sched, p: nat, k: nat)
    requires Sound(s) && p < MAX_PRIO && k < |s.ready[p]|
    ensures var s' := GetProc(s).0; var q := if AllEmpty(s.ready) then 0 else Chosen(s);
            && !AllEmpty(s.ready) && GetProc(s).1.Some? && Wait(s, p, k) > 0
            && (q != p ==> k < |s'.ready[p]| && s'.ready[p][k] == s.ready[p][k] && Wait(s', p, k) < Wait(s, p, k))
            && (q == p && k == 0 ==> GetProc(s).1.value == s.ready[p][0])
            && (q == p && k > 0 ==> && k - 1 < |s'.ready[p]| && s'.ready[p][k - 1] == s.ready[p][k]
                                    && Wait(s', p, k - 1) < Wait(s, p, k))
  {
    assert s.ready[p] != [] && !AllEmpty(s.ready);
    FrontServed(s);
    GetLowersWait(s, p, k);
    SumPositive(s.slot, p);
    hide Sum, SlotsUsed, FirstEligible, GetProc, BestIndex;
  }

  lemma {:induction false} SumPositive(xs: seq<nat>, i: nat)
    requires i < |xs|
    ensures Sum(xs) >= xs[i]
  {
    if i == 0 {
    } else {
      SumPositive(xs[1..], i - 1);
    }
  }

  /** Joining processes go behind: places and slots of those waiting stay. */
  lemma JoinKeepsWait(s: Sched, x: Proc, p: nat, k: nat)
    requires Sound(s) && x.prio < MAX_PRIO && p < MAX_PRIO && k < |s.ready[p]|
    ensures var s' := PutProc(s, x);
            k < |s'.ready[p]| && s'.ready[p][k] == s.ready[p][k] && Wait(s', p, k) == Wait(s, p, k)
  {
  }

  /** Of a shorter wait after one more process was served. */
  lemma ServedLater(x: Proc, head: Proc, tail: seq<Proc>, w: nat, w': nat)
    requires w < w' <= |tail| + 1 && x in tail[..w]
    ensures x in ([head] + tail)[..w']
  {
    var i :| 0 <= i < w && tail[..w][i] == x;
    assert ([head] + tail)[..w'][i + 1] == x;
  }

  /** A waiting process is among the next `Wait` processes served, whatever joins meanwhile. */
  lemma {:induction false} ServedInTime(s: Sched, calls: seq<Call>, p: nat, k: nat)
    requires Sound(s) && Callable(calls) && p < MAX_PRIO && k < |s.ready[p]|
    requires |Served(s, calls)| >= Wait(s, p, k)
    ensures s.ready[p][k] in Served(s, calls)[..Wait(s, p, k)]
    decreases |calls|
  {
    GetShortensWait(s, p, k);
    if calls != [] {
      var s1, rest := After(s, calls[0]), calls[1..];
      AfterSound(s, calls[0]);
      hide Wait, GetProc, Chosen, AllEmpty, Sound;
      if calls[0].Join? {
        JoinKeepsWait(s, calls[0].x, p, k);
        assert Served(s, calls) == Served(s1, rest);
        ServedInTime(s1, rest, p, k);
      } else {
        var head := GetProc(s).1.value;
        assert Served(s, calls) == [head] + Served(s1, rest);
        if Chosen(s) == p && k == 0 {
          assert Served(s, calls)[..Wait(s, p, k)][0] == head;
        } else {
          var k1 := if Chosen(s) == p then k - 1 else k;
          ServedInTime(s1, rest, p, k1);
          ServedLater(s.ready[p][k], head, Served(s1, rest), Wait(s1, p, k1), Wait(s, p, k));
        }
      }
    }
  }

  /** The bound on waiting at place `k` of queue `p`: one round, and one more for each 140 - p places begun. */
  function WaitBound(p: nat, k: nat): nat
    requires p < MAX_PRIO
  {
    ALL_SLOTS * (1 + (k + MAX_PRIO - p) / (MAX_PRIO - p))
  }

  lemma RoundsIsCeiling(p: nat, k: nat)
    requires p < MAX_PRIO
    ensures WaitBound(p, k) == ALL_SLOTS * (1 + Rounds(k + 1, MAX_PRIO - p))
  {
    RoundsCover(k + 1, MAX_PRIO - p);
    CeilingIs(k + 1, MAX_PRIO - p, Rounds(k + 1, MAX_PRIO - p));
  }

  lemma WaitAtMost(s: Sched, p: nat, k: nat)
    requires Sound(s) && p < MAX_PRIO
    ensures Wait(s, p, k) <= WaitBound(p, k)
  {
    hide Sum, Rounds, FullSlots;
    FullSlotsSum();
    SumAtMost(s.slot, FullSlots());
    RoundsIsCeiling(p, k);
    RoundsMonotone(k + 1 - s.slot[p], k + 1, MAX_PRIO - p);
  }

  /** Process `x` is among the first `n` processes a run serves. */
  predicate ServedWithin(s: Sched, calls: seq<Call>, x: Proc, n: nat)
    requires Shaped(s) && Callable(calls)
  {
    n <= |Served(s, calls)| && x in Served(s, calls)[..n]
  }

  /**
   Bounded waiting: the process at place `k` of ready queue `p` is among the next 9870 * (1 + ceil((k+1)/(140-p)))
   processes served, under any interleaving of processes joining; WaitBound divides k + 140 - p, rounding down.
   */
  lemma BoundedWaiting(s: Sched, calls: seq<Call>, p: nat, k: nat)
    requires Sound(s) && Callable(calls) && p < MAX_PRIO && k < |s.ready[p]|
    requires |Served(s, calls)| >= WaitBound(p, k)
    ensures ServedWithin(s, calls, s.ready[p][k], WaitBound(p, k))
  {
    WaitAtMost(s, p, k);
    ServedInTime(s, calls, p, k);
    hide Wait, WaitBound, Served, Sound;
    var x, w := s.ready[p][k], Wait(s, p, k);
    var i :| 0 <= i < w && Served(s, calls)[..w][i] == x;
    assert Served(s, calls)[..WaitBound(p, k)][i] == x;
  }

  lemma {:induction false} SumAtMost(xs: seq<nat>, ys: seq<nat>)
    requires |xs| == |ys| && forall i :: 0 <= i < |xs| ==> xs[i] <= ys[i]
    ensures Sum(xs) <= Sum(ys)
  {
    if xs == [] {
    } else {
      SumAtMost(xs[1..], ys[1..]);
    }
  }
}
