/** sched.c: the shared scheduler state and the bodies of its critical sections. */
module Scheduler {
  import opened Prelude
  import opened Queue
  import opened SchedulerPolicy

  class MlqScheduler {
    const mlqReadyQueue: array<ProcQueue>
    const slot: array<nat>
    const runningList: ProcQueue
    var mlqInited: bool
    ghost var state: Sched   // what the policy speaks of

    ghost predicate Shape()
      reads this, mlqReadyQueue
      reads set i | 0 <= i < mlqReadyQueue.Length :: mlqReadyQueue[i]
    {
      && mlqReadyQueue.Length == MAX_PRIO && slot.Length == MAX_PRIO && mlqInited
      && (forall i :: 0 <= i < MAX_PRIO ==>
            mlqReadyQueue[i] != runningList && mlqReadyQueue[i].proc != runningList.proc)
      && (forall i, j :: 0 <= i < j < MAX_PRIO ==>
            mlqReadyQueue[i] != mlqReadyQueue[j] && mlqReadyQueue[i].proc != mlqReadyQueue[j].proc)
    }

    ghost predicate Valid()
      reads this, mlqReadyQueue, slot, runningList, runningList.proc
      reads set i | 0 <= i < mlqReadyQueue.Length :: mlqReadyQueue[i]
      reads set i | 0 <= i < mlqReadyQueue.Length :: mlqReadyQueue[i].proc
    {
      && Shape() && Shaped(state)
      && runningList.Valid() && state.running == runningList.Contents()
      && state.slot == slot[..]
      && (forall i :: 0 <= i < MAX_PRIO ==> mlqReadyQueue[i].Valid() && state.ready[i] == mlqReadyQueue[i].Contents())
    }

    /** The loop of init_scheduler: an empty queue and a full share of slots for each priority. */
    static method FreshQueues(running: ProcQueue) returns (queues: array<ProcQueue>, slots: array<nat>)
      requires running.Valid()
      ensures fresh(queues) && fresh(slots) && queues.Length == slots.Length == MAX_PRIO && slots[..] == FullSlots()
      ensures forall j :: 0 <= j < MAX_PRIO ==> queues[j].Valid() && queues[j].size == 0
      ensures forall j :: 0 <= j < MAX_PRIO ==> fresh(queues[j]) && fresh(queues[j].proc)
      ensures forall j, k :: 0 <= j < k < MAX_PRIO ==> queues[j] != queues[k] && queues[j].proc != queues[k].proc
    {
      queues := new ProcQueue[MAX_PRIO](_ => running);
      slots := new nat[MAX_PRIO](_ => 0);
      var i := 0;
      while i < MAX_PRIO
        invariant 0 <= i <= MAX_PRIO
        invariant forall j :: 0 <= j < i ==> queues[j].Valid() && queues[j].size == 0 && slots[j] == MAX_PRIO - j
        invariant forall j :: 0 <= j < i ==> fresh(queues[j]) && fresh(queues[j].proc)
        invariant forall j, k :: 0 <= j < k < i ==> queues[j] != queues[k] && queues[j].proc != queues[k].proc
      {
        queues[i] := new ProcQueue();
        slots[i] := MAX_PRIO - i;
        i := i + 1;
      }
      assert slots[..] == FullSlots();
    }

    /** init_scheduler. */
    constructor ()
      ensures Valid() && fresh(mlqReadyQueue) && fresh(slot) && fresh(runningList) && fresh(runningList.proc)
      ensures forall i :: 0 <= i < MAX_PRIO ==> fresh(mlqReadyQueue[i]) && fresh(mlqReadyQueue[i].proc)
      ensures state == Start()
    {
      var running := new ProcQueue();
      var queues, slots := FreshQueues(running);
      mlqReadyQueue := queues;
      slot := slots;
      runningList := running;
      mlqInited := true;
      state := Start();
      new;
    }

    /** queue_empty. */
    method QueueEmpty() returns (isEmpty: bool)
      requires Valid()
      ensures isEmpty == AllEmpty(state.ready)
    {
      var prio := 0;
      while prio < MAX_PRIO
        invariant 0 <= prio <= MAX_PRIO && forall q :: 0 <= q < prio ==> state.ready[q] == []
      {
        assert state.ready[prio] == mlqReadyQueue[prio].Contents();
        if mlqReadyQueue[prio].size != 0 {
          return false;
        }
        prio := prio + 1;
      }
      return true;
    }

    /** The search loop of get_mlq_proc: the least priority value with a process and a slot, or -1. */
    method FindPrio() returns (chosenPrio: int)
      requires Valid()
      ensures var r := FirstEligible(state.ready, state.slot);
              chosenPrio == if r.Some? then r.value else -1
    {
      var p := 0;
      while p < MAX_PRIO
        invariant 0 <= p <= MAX_PRIO && forall q :: 0 <= q < p ==> !Eligible(state.ready, state.slot, q)
      {
        assert state.ready[p] == mlqReadyQueue[p].Contents() && state.slot[p] == slot[p];
        if mlqReadyQueue[p].size != 0 && slot[p] > 0 {
          assert Eligible(state.ready, state.slot, p);
          return p;
        }
        p := p + 1;
      }
      return -1;
    }

    method ResetSlots()
      requires Valid()
      modifies slot, this`state
      ensures Valid() && state == old(state).(slot := FullSlots())
    {
      var p := 0;
      while p < MAX_PRIO
        invariant 0 <= p <= MAX_PRIO && forall q :: 0 <= q < p ==> slot[q] == MAX_PRIO - q
        modifies slot
      {
        slot[p] := MAX_PRIO - p;
        p := p + 1;
      }
      state := state.(slot := slot[..]);
      assert slot[..] == FullSlots();
    }

    /** The middle part of get_mlq_proc, where some queue is not empty: search, and reset the slots if need be. */
    method ChoosePrio(ghost s: Sched, ghost c: nat, ghost u: seq<nat>) returns (chosenPrio: int)
      requires Valid() && state == s && !AllEmpty(s.ready) && c == Chosen(s) && u == SlotsUsed(s)
      modifies slot, this`state
      ensures Valid() && chosenPrio == c && state == s.(slot := u)
    {
      SearchTwice(s);
      hide Valid, Chosen, SlotsUsed, FirstEligible, FullSlots, AllEmpty;
      chosenPrio := FindPrio();
      if chosenPrio < 0 {
        ResetSlots();
        chosenPrio := FindPrio();
      }
    }

    /** The last part of get_mlq_proc: the chosen queue gives up a process, which joins the running list. */
    method TakeFrom(chosenPrio: nat, ghost s: Sched) returns (x: Proc)
      requires Valid() && Shaped(s) && !AllEmpty(s.ready)
      requires chosenPrio == Chosen(s) && state == s.(slot := SlotsUsed(s))
      modifies slot, this`state, runningList, runningList.proc, mlqReadyQueue[chosenPrio],
        mlqReadyQueue[chosenPrio].proc
      ensures Valid() && (state, Some(x)) == GetProc(s)
    {
      ghost var q := mlqReadyQueue[chosenPrio].Contents();
      GetParts(s, chosenPrio, slot[..], q);
      hide GetProc, Chosen, SlotsUsed, FirstEligible, BestIndex, AllEmpty, FullSlots, Resets, Without, Enqueued;
      var proc := mlqReadyQueue[chosenPrio].Dequeue();
      x := proc.value;
      slot[chosenPrio] := slot[chosenPrio] - 1;
      runningList.Enqueue(x);
      state := GetProc(s).0;
      assert forall i :: 0 <= i < MAX_PRIO && i != chosenPrio ==>
             mlqReadyQueue[i].Contents() == old(mlqReadyQueue[i].Contents());
    }

    /** get_mlq_proc. */
    method GetMlqProc() returns (proc: Option<Proc>)
      requires Valid()
      modifies slot, this`state, runningList, runningList.proc
      modifies set i | 0 <= i < mlqReadyQueue.Length :: mlqReadyQueue[i]
      modifies set i | 0 <= i < mlqReadyQueue.Length :: mlqReadyQueue[i].proc
      ensures Valid() && (state, proc) == GetProc(old(state))
    {
      var isEmpty := QueueEmpty();
      if isEmpty {
        return None;
      }
      ghost var s := state;
      hide GetProc, FirstEligible, FullSlots, AllEmpty, Resets;
      var chosenPrio := ChoosePrio(s, Chosen(s), SlotsUsed(s));
      var x := TakeFrom(chosenPrio, s);
      return Some(x);
    }

    /** put_mlq_proc and add_mlq_proc, which differ only in who calls them. */
    method PutMlqProc(proc: Proc)
      requires Valid() && proc.prio < MAX_PRIO
      modifies this`state, runningList, runningList.proc, mlqReadyQueue[proc.prio], mlqReadyQueue[proc.prio].proc
      ensures Valid() && state == PutProc(old(state), proc)
    {
      var _ := runningList.PurgeQueue(proc);
      mlqReadyQueue[proc.prio].Enqueue(proc);
      state := PutProc(state, proc);
      assert forall i :: 0 <= i < MAX_PRIO && i != proc.prio ==>
             mlqReadyQueue[i].Contents() == old(mlqReadyQueue[i].Contents());
    }
  }
}
