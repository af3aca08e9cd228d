/**
 What every run of the simulator keeps: no process is lost or shared, every process is dispatched exactly as often
 as its length asks, the loader is punctual, and no CPU stops while there is work left.
 */
module MachineRuns {
  import opened Prelude
  import opened Queue
  import opened SchedulerPolicy
  import opened Machine
  import B = SlotBarrier

  // ---- threads and devices -------------------------------------------------------------------------------

  /** A device that is working has ended as many slots as the clock shows; no device has ended more than one more. */
  lemma DeviceClock(s: B.State, d: nat)
    requires B.Inv(s) && d < |s.dev|
    ensures s.dev[d].phase == B.Working ==> s.dev[d].ended == s.time
    ensures s.dev[d].phase == B.Detached ==> s.dev[d].ended <= s.time
  {
    assert B.DeviceOk(s.dev[d]);
  }

  /** The clock does not move while a device is working. */
  lemma ClockHeld(s: B.State, e: B.Step, d: nat)
    requires B.Inv(s) && B.Enabled(s, e) && d < |s.dev|
    ensures s.time <= B.Next(s, e).time
    ensures s.dev[d].phase == B.Working ==> B.Next(s, e).time == s.time
  {
    assert B.DeviceOk(s.dev[d]);
  }

  /** What a barrier step does to the devices' phases. */
  lemma BarrierPhases(s: B.State, e: B.Step, d: nat)
    requires B.Enabled(s, e) && d < |s.dev|
    ensures |B.Next(s, e).dev| == |s.dev|
    ensures B.Next(s, e).dev[d].phase ==
            if e == B.Arrive(d) then B.Waiting else if e == B.Resume(d) then B.Working
            else if e == B.Detach(d) then B.Detached else s.dev[d].phase
  {
  }

  /** What a barrier step does to the CPU threads: the one concerned, if any, moves along its program. */
  lemma BarrierCpu(cfg: Config, s: State, e: B.Step, c: nat)
    requires Enabled(cfg, s, Barrier(e)) && c < cfg.cpus
    ensures |BarrierStep(cfg, s, e).cpu| == cfg.cpus
    ensures BarrierStep(cfg, s, e).cpu[c] ==
            if e == B.Arrive(c) then s.cpu[c].(at := InBarrier) else if e == B.Resume(c) then s.cpu[c].(at := Top)
            else if e == B.Detach(c) then s.cpu[c].(at := Stopped) else s.cpu[c]
    ensures e == B.Detach(c) ==> s.cpu[c].at == Stopping
  {
  }

  lemma BarrierLoader(cfg: Config, s: State, e: B.Step)
    requires Enabled(cfg, s, Barrier(e))
    ensures BarrierStep(cfg, s, e).ld ==
            if e == B.Arrive(cfg.cpus) then LdInBarrier
            else if e == B.Resume(cfg.cpus) then if s.i < |cfg.jobs| then Check else SetDone
            else if e == B.Detach(cfg.cpus) then Left else s.ld
    ensures e == B.Arrive(cfg.cpus) ==> s.ld == LdToArrive
    ensures e == B.Detach(cfg.cpus) ==> s.ld == Leaving
    ensures BarrierStep(cfg, s, e) ==
            s.(b := B.Next(s.b, e), cpu := BarrierStep(cfg, s, e).cpu, ld := BarrierStep(cfg, s, e).ld)
  {
  }

  /** From `s` to `s'` only CPU `c` moves, and stays outside the barrier. */
  ghost predicate OnlyCpu(s: State, s': State, c: nat)
    requires c < |s.cpu|
  {
    && s' == s.(cpu := s'.cpu, sched := s'.sched, pc := s'.pc, place := s'.place, dispatched := s'.dispatched)
    && c < |s'.cpu| && s'.cpu == s.cpu[c := s'.cpu[c]] && s'.cpu[c].at != InBarrier && s'.cpu[c].at != Stopped
  }

  lemma TakeAlone(s: State, c: nat, found: CpuAt, missed: CpuAt, timeLeft: nat)
    requires c < |s.cpu| && Shaped(s.sched) && found == Recheck && missed in {Recheck, ToArrive}
    ensures OnlyCpu(s, Take(s, c, found, missed, timeLeft), c)
  {
    hide GetProc;
  }

  lemma CpuAlone(cfg: Config, s: State, c: nat)
    requires Enabled(cfg, s, OnCpu(c))
    ensures OnlyCpu(s, CpuStep(cfg, s, c), c)
  {
    hide GetProc, PutProc, ConfigOk, PcOf, Take, B.Enabled;
    var u := s.cpu[c];
    if (u.at == Top && u.proc.None?) || u.at == AfterPut || u.at == AfterFinish {
      TakeAlone(s, c, Recheck, if u.at == Top then ToArrive else Recheck,
                if u.at == AfterFinish then 0 else u.timeLeft);
    }
  }

  /** The thread of CPU `c` and its device agree. */
  ghost predicate InStep(u: Cpu, phase: B.Phase)
  {
    (u.at == InBarrier <==> phase == B.Waiting) && (u.at == Stopped <==> phase == B.Detached)
  }

  lemma LinkedParts(cfg: Config, s: State)
    ensures Linked(cfg, s) <==>
              && ConfigOk(cfg) && B.Inv(s.b)
              && |s.cpu| == cfg.cpus && |s.b.dev| == cfg.cpus + 1 && s.i <= |cfg.jobs|
              && (forall c :: 0 <= c < cfg.cpus ==> InStep(s.cpu[c], s.b.dev[c].phase))
              && (s.ld == LdInBarrier <==> s.b.dev[cfg.cpus].phase == B.Waiting)
              && (s.ld == Left <==> s.b.dev[cfg.cpus].phase == B.Detached)
  {
    hide B.Inv, ConfigOk;
  }

  lemma BarrierLinked(cfg: Config, s: State, e: B.Step)
    requires Linked(cfg, s) && Enabled(cfg, s, Barrier(e))
    ensures Linked(cfg, BarrierStep(cfg, s, e))
  {
    B.NextInv(s.b, e);
    LinkedParts(cfg, s);
    LinkedParts(cfg, BarrierStep(cfg, s, e));
    BarrierLoader(cfg, s, e);
    BarrierPhases(s.b, e, cfg.cpus);
    hide B.Inv, B.Next, ConfigOk, Linked, BarrierStep;
    forall c | 0 <= c < cfg.cpus
      ensures |BarrierStep(cfg, s, e).cpu| == cfg.cpus
      ensures InStep(BarrierStep(cfg, s, e).cpu[c], B.Next(s.b, e).dev[c].phase)
    {
      BarrierPhases(s.b, e, c);
      BarrierCpu(cfg, s, e, c);
    }
  }

  lemma CpuLinked(cfg: Config, s: State, c: nat)
    requires Linked(cfg, s) && Enabled(cfg, s, OnCpu(c))
    ensures Linked(cfg, CpuStep(cfg, s, c))
  {
    CpuAlone(cfg, s, c);
    LinkedParts(cfg, s);
    LinkedParts(cfg, CpuStep(cfg, s, c));
    hide B.Inv, ConfigOk, Linked, CpuStep;
    assert InStep(s.cpu[c], s.b.dev[c].phase);
    assert InStep(CpuStep(cfg, s, c).cpu[c], s.b.dev[c].phase);
  }

  lemma LoaderLinked(cfg: Config, s: State)
    requires Linked(cfg, s) && Enabled(cfg, s, OnLoader)
    ensures Linked(cfg, LoaderStep(cfg, s))
  {
    hide B.Inv, PutProc;
  }

  lemma BarrierHands(cfg: Config, s: State, e: B.Step)
    requires Linked(cfg, s) && Hands(s) && Enabled(cfg, s, Barrier(e))
    ensures Hands(BarrierStep(cfg, s, e))
  {
    BarrierCpu(cfg, s, e, 0);
    hide B.Inv, BarrierStep, ConfigOk;
    forall c | 0 <= c < cfg.cpus ensures HandOk(BarrierStep(cfg, s, e).cpu[c]) {
      BarrierCpu(cfg, s, e, c);
      assert HandOk(s.cpu[c]);
    }
  }

  lemma CpuHands(cfg: Config, s: State, c: nat)
    requires Hands(s) && Enabled(cfg, s, OnCpu(c))
    ensures Hands(CpuStep(cfg, s, c))
  {
    CpuAlone(cfg, s, c);
    hide GetProc, PutProc, ConfigOk, PcOf, B.Enabled;
    assert HandOk(s.cpu[c]);
  }

  // ---- dispatch accounting -------------------------------------------------------------------------------

  /**
   What one added process has run and how often it was dispatched: `quantum` instructions per dispatch, less what
   its CPU has left over.
   */
  ghost predicate AccountOk(q: nat, cpu: seq<Cpu>, at: Place, pc: nat, dispatches: nat, x: Proc)
  {
    && 1 <= x.size && pc <= x.size
    && match at
       case Ready => pc < x.size && pc == q * dispatches
       case Held(c) =>
         && c < |cpu| && cpu[c].timeLeft < q && pc + cpu[c].timeLeft == q * dispatches
         && (cpu[c].at == Recheck ==> pc < x.size)
       case Finished => pc == x.size && x.size <= q * dispatches < x.size + q
  }

  ghost predicate Accounted(cfg: Config, s: State)
  {
    forall x :: x in s.place ==>
      && x in s.pc && x in s.dispatched
      && AccountOk(cfg.quantum, s.cpu, s.place[x], s.pc[x], s.dispatched[x], x)
  }

  lemma BarrierAccounted(cfg: Config, s: State, e: B.Step)
    requires Linked(cfg, s) && Accounted(cfg, s) && Enabled(cfg, s, Barrier(e))
    ensures Accounted(cfg, BarrierStep(cfg, s, e))
  {
    var s' := BarrierStep(cfg, s, e);
    BarrierLoader(cfg, s, e);
    forall x | x in s.place
      ensures AccountOk(cfg.quantum, s'.cpu, s.place[x], s.pc[x], s.dispatched[x], x)
    {
      hide B.Inv, BarrierStep;
      if s.place[x].Held? && s.place[x].c < cfg.cpus { BarrierCpu(cfg, s, e, s.place[x].c); }
      assert AccountOk(cfg.quantum, s.cpu, s.place[x], s.pc[x], s.dispatched[x], x);
    }
  }

  /** A process that a get hands out was ready. */
  lemma TakenWasReady(cfg: Config, s: State)
    requires Placed(cfg, s) && GetProc(s.sched).1.Some?
    ensures var x := GetProc(s.sched).1.value; x in s.place && s.place[x] == Ready
  {
    FrontServed(s.sched);
    var p := Chosen(s.sched);
    assert s.sched.ready[p][0] in s.sched.ready[p];
  }

  /** The processes CPU `c` does not hold keep their account while only that CPU moves. */
  lemma OthersAccount(q: nat, cpu: seq<Cpu>, c: nat, u: Cpu, at: Place, pc: nat, dispatches: nat, x: Proc)
    requires AccountOk(q, cpu, at, pc, dispatches, x) && c < |cpu| && at != Held(c)
    ensures AccountOk(q, cpu[c := u], at, pc, dispatches, x)
  {
  }

  lemma TakeAccounted(cfg: Config, s: State, c: nat, found: CpuAt, missed: CpuAt)
    requires ConfigOk(cfg) && Placed(cfg, s) && Accounted(cfg, s) && c < |s.cpu| && s.cpu[c].proc.None?
    ensures Accounted(cfg, Take(s, c, found, missed, 0))
  {
    var s' := Take(s, c, found, missed, 0);
    var r := GetProc(s.sched).1;
    if r.Some? { TakenWasReady(cfg, s); }
    hide GetProc, Sound, ReadyOk, ListedOk, KnownOk;
    forall x | x in s'.place
      ensures x in s.place && AccountOk(cfg.quantum, s'.cpu, s'.place[x], s.pc[x], s.dispatched[x], x)
    {
      assert AccountOk(cfg.quantum, s.cpu, s.place[x], s.pc[x], s.dispatched[x], x);
      if r != Some(x) { OthersAccount(cfg.quantum, s.cpu, c, s'.cpu[c], s.place[x], s.pc[x], s.dispatched[x], x); }
    }
  }

  lemma RunAccounted(cfg: Config, s: State, c: nat, x: Proc)
    requires ConfigOk(cfg) && HandsOk(s.cpu, s.place) && Accounted(cfg, s)
    requires c < |s.cpu| && s.cpu[c].at == Recheck && s.cpu[c].proc == Some(x)
    ensures Accounted(cfg, RunOn(cfg, s, c, x))
    ensures RunOn(cfg, s, c, x).pc == s.pc[x := PcOf(s, x) + 1] && PcOf(s, x) + 1 <= x.size
  {
    var s' := RunOn(cfg, s, c, x);
    assert x in s.place && s.place[x] == Held(c);
    OneMore(cfg.quantum, s.dispatched[x]);
    assert AccountOk(cfg.quantum, s'.cpu, s'.place[x], s'.pc[x], s'.dispatched[x], x);
    forall y | y in s.place && y != x
      ensures AccountOk(cfg.quantum, s'.cpu, s.place[y], s.pc[y], s.dispatched[y], y)
    {
      OthersAccount(cfg.quantum, s.cpu, c, s'.cpu[c], s.place[y], s.pc[y], s.dispatched[y], y);
    }
  }

  /** CPU `c` lets go of `x`, which goes to `at`. */
  lemma LetGoAccounted(cfg: Config, s: State, c: nat, x: Proc, u: Cpu, at: Place, s': State)
    requires ConfigOk(cfg) && HandsOk(s.cpu, s.place) && Accounted(cfg, s)
    requires c < |s.cpu| && s.cpu[c].proc == Some(x) && x in s.place && !at.Held?
    requires at == Finished ==> PcOf(s, x) == x.size
    requires at == Ready ==> PcOf(s, x) != x.size && s.cpu[c].timeLeft == 0
    requires s'.cpu == s.cpu[c := u] && s'.place == s.place[x := at] && s'.pc == s.pc && s'.dispatched == s.dispatched
    ensures Accounted(cfg, s')
  {
    assert AccountOk(cfg.quantum, s'.cpu, at, s.pc[x], s.dispatched[x], x);
    forall y | y in s.place && y != x
      ensures AccountOk(cfg.quantum, s'.cpu, s.place[y], s.pc[y], s.dispatched[y], y)
    {
      OthersAccount(cfg.quantum, s.cpu, c, u, s.place[y], s.pc[y], s.dispatched[y], y);
    }
  }

  /** A CPU that looks at its process and goes on with it. */
  lemma GoOnAccounted(cfg: Config, s: State, c: nat, u: Cpu)
    requires HandsOk(s.cpu, s.place) && Accounted(cfg, s) && c < |s.cpu|
    requires u == s.cpu[c].(at := u.at) &&
             (u.at == Recheck ==> u.proc.Some? && PcOf(s, u.proc.value) != u.proc.value.size)
    ensures Accounted(cfg, s.(cpu := s.cpu[c := u]))
  {
    forall x | x in s.place
      ensures AccountOk(cfg.quantum, s.cpu[c := u], s.place[x], s.pc[x], s.dispatched[x], x)
    {
      assert AccountOk(cfg.quantum, s.cpu, s.place[x], s.pc[x], s.dispatched[x], x);
    }
  }

  lemma CpuAccounted(cfg: Config, s: State, c: nat)
    requires Linked(cfg, s) && Placed(cfg, s) && Hands(s) && Accounted(cfg, s) && Enabled(cfg, s, OnCpu(c))
    ensures Accounted(cfg, CpuStep(cfg, s, c))
  {
    hide B.Inv, B.Enabled, ReadyOk, ListedOk, Sound, KnownOk, GetProc, PutProc, Accounted;
    var u, s' := s.cpu[c], CpuStep(cfg, s, c);
    if (u.at == Top && u.proc.None?) || u.at == AfterPut || u.at == AfterFinish {
      TakeAccounted(cfg, s, c, Recheck, if u.at == Top then ToArrive else Recheck);
    } else if u.at == Top && (PcOf(s, u.proc.value) == u.proc.value.size || u.timeLeft == 0) {
      var x := u.proc.value;
      LetGoPlaced(cfg, s, c, x);
      LetGoAccounted(cfg, s, c, x, s'.cpu[c], s'.place[x], s');
    } else if u.at == Recheck && u.proc.Some? {
      RunAccounted(cfg, s, c, u.proc.value);
    } else {
      GoOnAccounted(cfg, s, c, s'.cpu[c]);
    }
  }

  lemma LoaderAccounted(cfg: Config, s: State)
    requires Linked(cfg, s) && Placed(cfg, s) && Accounted(cfg, s) && Enabled(cfg, s, OnLoader)
    ensures Accounted(cfg, LoaderStep(cfg, s))
  {
    hide B.Inv, B.Enabled, ReadyOk, ListedOk, Sound, PutProc;
    if s.ld == Check && s.i < |cfg.jobs| {
      AddedNext(cfg, s.i, s.place, Ready);
    }
  }

  // ---- the loader's timing -------------------------------------------------------------------------------

  /** The slot in which the loader is due to add process `j`: its start time, but one slot after the one before. */
  function AddSlot(start: seq<nat>, j: nat): nat
    requires j < |start|
  {
    if j == 0 then start[0]
    else if AddSlot(start, j - 1) + 1 > start[j] then AddSlot(start, j - 1) + 1 else start[j]
  }

  /** That slot is the greatest, over the processes up to `j`, of a start time plus the processes still to come. */
  lemma {:induction false} AddSlotIsMax(start: seq<nat>, j: nat) returns (k: nat)
    requires j < |start|
    ensures k <= j && AddSlot(start, j) == start[k] + (j - k)
    ensures forall i :: 0 <= i <= j ==> start[i] + (j - i) <= AddSlot(start, j)
  {
    if j == 0 { return 0; }
    k := AddSlotIsMax(start, j - 1);
    if AddSlot(start, j) == start[j] { k := j; }
  }

  /** The slot of the last process added, or -1. */
  function LastAdd(s: State): int { if s.addedAt == [] then -1 else s.addedAt[|s.addedAt| - 1] }

  /** Process `i`, if there is one, is not due before slot `slot`. */
  ghost predicate NotLate(cfg: Config, i: nat, slot: nat)
  {
    i < |cfg.jobs| && i < |cfg.start| ==> slot <= AddSlot(cfg.start, i)
  }

  /**
   The loader at `ld`, having ended `slots` slots and added `i` processes, the last in slot `last`. Once all are added
   it ends that slot and no other.
   */
  ghost predicate OnTime(cfg: Config, ld: LdAt, i: nat, slots: nat, last: int)
  {
    match ld
    case Check => i < |cfg.jobs| && last < slots && NotLate(cfg, i, slots)
    case LdToArrive => last <= slots && NotLate(cfg, i, slots + 1) && (i == |cfg.jobs| ==> slots == last)
    case LdInBarrier => last < slots && NotLate(cfg, i, slots) && (i == |cfg.jobs| ==> slots == last + 1)
    case _ => i == |cfg.jobs| && slots == last + 1
  }

  ghost predicate Timed(cfg: Config, s: State)
    requires cfg.cpus < |s.b.dev|
  {
    && |s.addedAt| == s.i <= |cfg.jobs| == |cfg.start|
    && (forall j :: 0 <= j < s.i ==> s.addedAt[j] == AddSlot(cfg.start, j))
    && OnTime(cfg, s.ld, s.i, s.b.dev[cfg.cpus].ended, LastAdd(s))
    && (s.done <==> s.ld in {Leaving, Left})
  }

  lemma BarrierTimed(cfg: Config, s: State, e: B.Step)
    requires Linked(cfg, s) && Timed(cfg, s) && Enabled(cfg, s, Barrier(e))
    ensures cfg.cpus < |BarrierStep(cfg, s, e).b.dev| && Timed(cfg, BarrierStep(cfg, s, e))
  {
    var n := cfg.cpus;
    BarrierLoader(cfg, s, e);
    BarrierPhases(s.b, e, n);
    assert B.Next(s.b, e).dev[n].ended == s.b.dev[n].ended + if e == B.Arrive(n) then 1 else 0;
    hide B.Inv, B.Next, BarrierStep, NotLate;
  }

  lemma LoaderTimed(cfg: Config, s: State)
    requires Linked(cfg, s) && Timed(cfg, s) && Enabled(cfg, s, OnLoader)
    ensures cfg.cpus < |LoaderStep(cfg, s).b.dev| && Timed(cfg, LoaderStep(cfg, s))
  {
    DeviceClock(s.b, cfg.cpus);
    hide B.Inv, PutProc;
  }

  // ---- no abandoned work ---------------------------------------------------------------------------------

  /** A CPU that found no process after the last one was added, and is not about to ask again. */
  predicate Idle(u: Cpu, last: int)
  {
    u.proc.None? && u.at in {Recheck, ToArrive, InBarrier, Stopping, Stopped} && last < u.gotAt
  }

  /** Where CPU `u` stands is fit for its last answer from the scheduler, at clock `time`. */
  ghost predicate AskedOk(u: Cpu, time: nat, done: bool, last: int)
  {
    && u.gotAt <= time
    && (u.at in {Recheck, ToArrive} && u.proc.None? ==> u.gotAt == time)
    && (u.at in {Stopping, Stopped} ==> done && last < u.gotAt)
  }

  ghost predicate Asked(s: State) { forall c :: 0 <= c < |s.cpu| ==> AskedOk(s.cpu[c], s.b.time, s.done, LastAdd(s)) }

  /** If every CPU is idle, nothing waits. */
  ghost predicate Drained(s: State)
  {
    (forall c :: 0 <= c < |s.cpu| ==> Idle(s.cpu[c], LastAdd(s))) ==> AllEmpty(s.sched.ready)
  }

  lemma BarrierAsked(cfg: Config, s: State, e: B.Step)
    requires Linked(cfg, s) && Asked(s) && Drained(s) && Enabled(cfg, s, Barrier(e))
    ensures Asked(BarrierStep(cfg, s, e)) && Drained(BarrierStep(cfg, s, e))
  {
    var s' := BarrierStep(cfg, s, e);
    BarrierLoader(cfg, s, e);
    BarrierCpu(cfg, s, e, 0);
    forall c | 0 <= c < cfg.cpus
      ensures AskedOk(s'.cpu[c], s'.b.time, s'.done, LastAdd(s'))
      ensures Idle(s'.cpu[c], LastAdd(s')) ==> Idle(s.cpu[c], LastAdd(s))
    {
      BarrierCpu(cfg, s, e, c);
      ClockHeld(s.b, e, c);
      hide B.Inv, B.Next, BarrierStep, AllEmpty;
      assert AskedOk(s.cpu[c], s.b.time, s.done, LastAdd(s));
    }
    hide B.Inv, B.Next, BarrierStep, AllEmpty, Idle;
  }

  /** While the loader is done adding, the clock is past the last addition. */
  lemma DoneIsLate(cfg: Config, s: State)
    requires Linked(cfg, s) && Timed(cfg, s) && s.done
    ensures LastAdd(s) < s.b.time
  {
    DeviceClock(s.b, cfg.cpus);
    hide B.Inv;
  }

  /** A CPU that was not idle, or is idle because it just found nothing. */
  lemma CpuAsked(cfg: Config, s: State, c: nat)
    requires Linked(cfg, s) && Timed(cfg, s) && Hands(s) && Asked(s) && Drained(s) && Enabled(cfg, s, OnCpu(c))
    ensures Asked(CpuStep(cfg, s, c)) && Drained(CpuStep(cfg, s, c))
  {
    var u, s' := s.cpu[c], CpuStep(cfg, s, c);
    CpuAlone(cfg, s, c);
    if s.done { DoneIsLate(cfg, s); }
    GetAnswers(s.sched);
    assert AskedOk(u, s.b.time, s.done, LastAdd(s)) && HandOk(u);
    CpuAnswer(cfg, s, c);
    hide GetProc, PutProc, CpuStep, Linked, Timed, AllEmpty, HandOk;
    assert forall d :: 0 <= d < |s.cpu| && d != c ==> s'.cpu[d] == s.cpu[d];
  }

  /** Asking is answered in this slot: with nothing, and then nothing is ready, or with a process. */
  lemma TakeAnswer(s: State, c: nat, found: CpuAt, missed: CpuAt, timeLeft: nat)
    requires c < |s.cpu| && Shaped(s.sched) && found == Recheck && missed in {Recheck, ToArrive}
    ensures var s' := Take(s, c, found, missed, timeLeft);
            && c < |s'.cpu| && s'.cpu[c].gotAt == s.b.time && s'.cpu[c].at in {Recheck, ToArrive}
            && (s'.cpu[c].proc.None? ==> AllEmpty(s.sched.ready) && s'.sched.ready == s.sched.ready)
  {
    GetAnswers(s.sched);
    hide GetProc;
  }

  /** What the step of CPU `c` makes of its standing: it turns idle only by finding nothing ready. */
  lemma CpuAnswer(cfg: Config, s: State, c: nat)
    requires Enabled(cfg, s, OnCpu(c)) && HandOk(s.cpu[c]) && AskedOk(s.cpu[c], s.b.time, s.done, LastAdd(s))
    requires s.done ==> LastAdd(s) < s.b.time
    ensures var s' := CpuStep(cfg, s, c); c < |s'.cpu| && AskedOk(s'.cpu[c], s.b.time, s.done, LastAdd(s))
    ensures var s' := CpuStep(cfg, s, c);
            Idle(s'.cpu[c], LastAdd(s)) ==>
              s'.sched.ready == s.sched.ready && (Idle(s.cpu[c], LastAdd(s)) || AllEmpty(s.sched.ready))
  {
    hide Take, PutProc, ConfigOk, PcOf, B.Enabled, AllEmpty, LastAdd;
    var u := s.cpu[c];
    if (u.at == Top && u.proc.None?) || u.at == AfterPut || u.at == AfterFinish {
      TakeAnswer(s, c, Recheck, if u.at == Top then ToArrive else Recheck,
                 if u.at == AfterFinish then 0 else u.timeLeft);
    }
  }

  lemma LoaderAsked(cfg: Config, s: State)
    requires Linked(cfg, s) && Timed(cfg, s) && Asked(s) && Drained(s) && Enabled(cfg, s, OnLoader)
    ensures Asked(LoaderStep(cfg, s)) && Drained(LoaderStep(cfg, s))
  {
    var s' := LoaderStep(cfg, s);
    assert AskedOk(s.cpu[0], s.b.time, s.done, LastAdd(s));
    hide B.Inv, PutProc, AllEmpty;
    if s'.addedAt != s.addedAt { assert !Idle(s'.cpu[0], LastAdd(s')); }
  }

  // ---- runs ----------------------------------------------------------------------------------------------

  ghost predicate Inv(cfg: Config, s: State)
  {
    Linked(cfg, s) && Placed(cfg, s) && Hands(s) && Accounted(cfg, s) && Timed(cfg, s) && Asked(s) && Drained(s)
  }

  lemma InitInv(cfg: Config)
    requires ConfigOk(cfg)
    ensures Inv(cfg, Init(cfg))
  {
    B.InitInv(cfg.cpus + 1);
  }

  lemma NextInv(cfg: Config, s: State, e: Step)
    requires Inv(cfg, s) && Enabled(cfg, s, e)
    ensures Inv(cfg, Next(cfg, s, e))
  {
    hide Linked, Placed, Hands, Accounted, Timed, Asked, Drained, Enabled, BarrierStep, CpuStep, LoaderStep;
    match e
    case Barrier(e) =>
      BarrierLinked(cfg, s, e); BarrierPlaced(cfg, s, e); BarrierHands(cfg, s, e);
      BarrierAccounted(cfg, s, e); BarrierTimed(cfg, s, e); BarrierAsked(cfg, s, e);
    case OnCpu(c) =>
      CpuLinked(cfg, s, c); CpuPlaced(cfg, s, c); CpuHands(cfg, s, c);
      CpuAccounted(cfg, s, c); CpuTimed(cfg, s, c); CpuAsked(cfg, s, c);
    case OnLoader =>
      LoaderLinked(cfg, s); LoaderPlaced(cfg, s); LoaderHands(cfg, s);
      LoaderAccounted(cfg, s); LoaderTimed(cfg, s); LoaderAsked(cfg, s);
  }

  lemma CpuTimed(cfg: Config, s: State, c: nat)
    requires Linked(cfg, s) && Timed(cfg, s) && Enabled(cfg, s, OnCpu(c))
    ensures cfg.cpus < |CpuStep(cfg, s, c).b.dev| && Timed(cfg, CpuStep(cfg, s, c))
  {
    CpuAlone(cfg, s, c);
    hide CpuStep;
  }

  lemma LoaderHands(cfg: Config, s: State)
    requires Hands(s) && Enabled(cfg, s, OnLoader)
    ensures Hands(LoaderStep(cfg, s))
  {
  }

  /** The steps can be taken one after the other. */
  ghost predicate Runs(cfg: Config, s: State, steps: seq<Step>)
    decreases |steps|
  {
    steps == [] || (Enabled(cfg, s, steps[0]) && Runs(cfg, Next(cfg, s, steps[0]), steps[1..]))
  }

  ghost function RunOf(cfg: Config, s: State, steps: seq<Step>): State
    requires Runs(cfg, s, steps)
    decreases |steps|
  {
    if steps == [] then s else RunOf(cfg, Next(cfg, s, steps[0]), steps[1..])
  }

  lemma {:induction false} RunInv(cfg: Config, s: State, steps: seq<Step>)
    requires Inv(cfg, s) && Runs(cfg, s, steps)
    ensures Inv(cfg, RunOf(cfg, s, steps))
    decreases |steps|
  {
    hide Inv, Enabled, Next;
    if steps == [] {
    } else {
      NextInv(cfg, s, steps[0]);
      RunInv(cfg, Next(cfg, s, steps[0]), steps[1..]);
    }
  }

  /** Some run from the initial state ends in `s`. */
  ghost predicate Reachable(cfg: Config, s: State)
  {
    ConfigOk(cfg) && exists steps :: Runs(cfg, Init(cfg), steps) && RunOf(cfg, Init(cfg), steps) == s
  }

  lemma ReachableInv(cfg: Config, s: State)
    requires Reachable(cfg, s)
    ensures Inv(cfg, s)
  {
    hide Inv, Init;
    InitInv(cfg);
    var steps :| Runs(cfg, Init(cfg), steps) && RunOf(cfg, Init(cfg), steps) == s;
    RunInv(cfg, Init(cfg), steps);
  }

  // ---- conservation of processes -------------------------------------------------------------------------

  /** `x` waits in ready queue `p`. */
  ghost predicate WaitsIn(s: State, p: nat, x: Proc) { p < |s.sched.ready| && x in s.sched.ready[p] }

  ghost predicate HeldBy(s: State, c: nat, x: Proc) { c < |s.cpu| && s.cpu[c].proc == Some(x) }

  /** Neither waiting nor held. */
  ghost predicate Released(s: State, x: Proc)
  {
    (forall p: nat :: !WaitsIn(s, p, x)) && (forall c: nat :: !HeldBy(s, c, x))
  }

  /** Where `x` is, in terms of the queues and the CPUs' hands alone. */
  lemma PlaceShows(cfg: Config, s: State, x: Proc)
    requires Inv(cfg, s)
    ensures x in s.place <==> Added(cfg, s.i, x)
    ensures forall p: nat :: WaitsIn(s, p, x) <==> x in s.place && s.place[x] == Ready && p == x.prio
    ensures forall c: nat :: HeldBy(s, c, x) <==> x in s.place && s.place[x] == Held(c)
  {
    hide Linked, Hands, Accounted, Timed, Asked, Drained, ListedOk, Sound, ConfigOk;
    assert forall p: nat :: WaitsIn(s, p, x) ==> x in s.place && s.place[x] == Ready && p == x.prio;
  }

  /**
   Conservation and exclusive dispatch: in every reachable state an added process that is unfinished waits in the
   queue of its priority or is held by a CPU; no process waits in two queues or twice in one, is held by two CPUs, or
   waits while it is held; and nothing but added processes is anywhere.
   */
  lemma ExclusiveDispatch(cfg: Config, s: State, x: Proc)
    requires Reachable(cfg, s)
    ensures && (Added(cfg, s.i, x) && PcOf(s, x) < x.size ==> WaitsIn(s, x.prio, x) || exists c: nat :: HeldBy(s, c, x))
            && (forall p: nat :: WaitsIn(s, p, x) ==>
                  p == x.prio && NoDup(s.sched.ready[p]) && forall c: nat :: !HeldBy(s, c, x))
            && (forall c: nat, d: nat :: HeldBy(s, c, x) && HeldBy(s, d, x) ==> c == d)
            && (Released(s, x) || Added(cfg, s.i, x))
  {
    ReachableInv(cfg, s);
    PlaceShows(cfg, s, x);
    hide Linked, Hands, Timed, Asked, Drained, ListedOk, Sound, ConfigOk, WaitsIn, HeldBy, HandsOk, Reachable;
    assert forall p: nat :: WaitsIn(s, p, x) ==> NoDup(s.sched.ready[p]);
    if x in s.place {
      assert AccountOk(cfg.quantum, s.cpu, s.place[x], s.pc[x], s.dispatched[x], x);
    }
  }

  /** The process a step puts on a ready queue, if it does: one coming back from a CPU, or one the loader adds. */
  ghost predicate Joins(cfg: Config, s: State, e: Step, x: Proc)
    requires Enabled(cfg, s, e)
  {
    (e.OnCpu? && HeldBy(s, e.c, x) && !HeldBy(Next(cfg, s, e), e.c, x) && PcOf(s, x) != x.size)
    || (e.OnLoader? && s.ld == Check && s.i < |cfg.jobs| && cfg.start[s.i] <= s.b.time && x == cfg.jobs[s.i])
  }

  /** A step gives `x` to a CPU. */
  ghost predicate Dispatches(cfg: Config, s: State, e: Step, x: Proc)
    requires Enabled(cfg, s, e)
  {
    e.OnCpu? && !HeldBy(s, e.c, x) && HeldBy(Next(cfg, s, e), e.c, x)
  }

  /**
   No enqueue of any run drops a process: whoever joins stands at the end of the queue of its priority, and whoever a
   CPU gets leaves the front of its queue and stands at the end of the running list.
   */
  lemma NothingDropped(cfg: Config, s: State, e: Step, x: Proc)
    requires Reachable(cfg, s) && Enabled(cfg, s, e)
    ensures Joins(cfg, s, e, x) ==>
              && x.prio < MAX_PRIO
              && Next(cfg, s, e).sched.ready == s.sched.ready[x.prio := s.sched.ready[x.prio] + [x]]
    ensures Dispatches(cfg, s, e, x) ==>
              && x.prio < MAX_PRIO && s.sched.ready[x.prio] != [] && s.sched.ready[x.prio][0] == x
              && Next(cfg, s, e).sched.ready == s.sched.ready[x.prio := s.sched.ready[x.prio][1..]]
              && Next(cfg, s, e).sched.running == s.sched.running + [x]
  {
    ReachableInv(cfg, s);
    hide Reachable, Linked, Placed, Accounted, Timed, Asked, Drained, Hands, ConfigOk, PutProc, Next;
    if Joins(cfg, s, e, x) {
      if e.OnCpu? { BackToQueue(cfg, s, e.c, x); } else { NewToQueue(cfg, s); }
      JoinsPut(cfg, s, e, x);
    }
    if Dispatches(cfg, s, e, x) {
      DispatchGets(cfg, s, e.c, x);
      FrontTaken(cfg, s, x);
    }
  }

  lemma TakeGets(s: State, c: nat, found: CpuAt, missed: CpuAt, timeLeft: nat)
    requires c < |s.cpu| && Shaped(s.sched)
    ensures var s' := Take(s, c, found, missed, timeLeft);
            && s'.sched == GetProc(s.sched).0 && c < |s'.cpu| && s'.cpu[c].proc == GetProc(s.sched).1
            && s'.cpu[c].at in {found, missed}
  {
    hide GetProc;
  }

  lemma DispatchGets(cfg: Config, s: State, c: nat, x: Proc)
    requires Enabled(cfg, s, OnCpu(c)) && Dispatches(cfg, s, OnCpu(c), x)
    ensures Next(cfg, s, OnCpu(c)).sched == GetProc(s.sched).0 && GetProc(s.sched).1 == Some(x)
  {
    var u := s.cpu[c];
    TakeGets(s, c, Recheck, if u.at == Top then ToArrive else Recheck, if u.at == AfterFinish then 0 else u.timeLeft);
    hide GetProc, PutProc, ConfigOk, B.Enabled, PcOf, Take, B.Next;
  }

  lemma FrontTaken(cfg: Config, s: State, x: Proc)
    requires ConfigOk(cfg) && Placed(cfg, s) && GetProc(s.sched).1 == Some(x)
    ensures x.prio < MAX_PRIO && s.sched.ready[x.prio] != [] && s.sched.ready[x.prio][0] == x
    ensures GetProc(s.sched).0.ready == s.sched.ready[x.prio := s.sched.ready[x.prio][1..]]
    ensures GetProc(s.sched).0.running == s.sched.running + [x]
  {
    TakenWasReady(cfg, s);
    RunningRoom(cfg, s, x);
    FrontServed(s.sched);
    var p := Chosen(s.sched);
    assert x in s.sched.ready[p];
  }

  lemma JoinsPut(cfg: Config, s: State, e: Step, x: Proc)
    requires Enabled(cfg, s, e) && Joins(cfg, s, e, x) && x.prio < MAX_PRIO && Hands(s)
    ensures Next(cfg, s, e).sched == PutProc(s.sched, x)
  {
    hide GetProc, PutProc, ConfigOk, B.Enabled, BarrierStep;
    assert e.OnCpu? ==> HandOk(s.cpu[e.c]);
  }

  lemma BackToQueue(cfg: Config, s: State, c: nat, x: Proc)
    requires ConfigOk(cfg) && Placed(cfg, s) && HeldBy(s, c, x)
    ensures x.prio < MAX_PRIO && PutProc(s.sched, x).ready == s.sched.ready[x.prio := s.sched.ready[x.prio] + [x]]
  {
    LetGoPlaced(cfg, s, c, x);
    ReadyRoom(cfg, s, x);
    hide ReadyOk, HandsOk, ListedOk, KnownOk, Sound, Enqueued;
  }

  lemma NewToQueue(cfg: Config, s: State)
    requires ConfigOk(cfg) && Placed(cfg, s) && s.i < |cfg.jobs|
    ensures var x := cfg.jobs[s.i];
            x.prio < MAX_PRIO && PutProc(s.sched, x).ready == s.sched.ready[x.prio := s.sched.ready[x.prio] + [x]]
  {
    AddedNext(cfg, s.i, s.place, Ready);
    ReadyRoom(cfg, s, cfg.jobs[s.i]);
    hide ReadyOk, HandsOk, ListedOk, KnownOk, Sound, Enqueued;
  }

  // ---- dispatch accounting -------------------------------------------------------------------------------

  /**
   Dispatch accounting: in every reachable state a process that was added and is neither waiting nor held has run
   all of its instructions and was dispatched exactly once per started quantum of them, on whatever CPUs; one
   that waits has used up every quantum it was given; one that is held has the rest of its quantum left.
   */
  lemma DispatchAccounting(cfg: Config, s: State, x: Proc)
    requires Reachable(cfg, s) && Added(cfg, s.i, x)
    ensures && PcOf(s, x) <= x.size
            && (Released(s, x) ==>
                  PcOf(s, x) == x.size && DispatchedOf(s, x) == (x.size + cfg.quantum - 1) / cfg.quantum)
            && (WaitsIn(s, x.prio, x) ==> PcOf(s, x) == cfg.quantum * DispatchedOf(s, x))
            && (forall c: nat :: HeldBy(s, c, x) ==> PcOf(s, x) + s.cpu[c].timeLeft == cfg.quantum * DispatchedOf(s, x))
  {
    ReachableInv(cfg, s);
    PlaceShows(cfg, s, x);
    assert AccountOk(cfg.quantum, s.cpu, s.place[x], s.pc[x], s.dispatched[x], x);
    hide Linked, Placed, Hands, Timed, Asked, Drained, Accounted, ConfigOk, Reachable;
    if s.place[x] == Finished { CeilingIs(x.size, cfg.quantum, s.dispatched[x]); }
    assert s.place[x] == Ready ==> WaitsIn(s, x.prio, x);
    assert s.place[x].Held? ==> HeldBy(s, s.place[x].c, x);
  }

  /** Time left over belongs to a process held: a CPU that holds none has none, past the line that resets it. */
  lemma NoTimeLeftOver(cfg: Config, s: State, c: nat)
    requires Reachable(cfg, s)
    requires c < |s.cpu| && s.cpu[c].proc.None? && s.cpu[c].at != AfterFinish
    ensures s.cpu[c].timeLeft == 0
  {
    ReachableInv(cfg, s);
    assert HandOk(s.cpu[c]);
  }

  /** Every call of `run` advances the program counter of the process it is given, by one, and no other. */
  lemma RunAdvances(cfg: Config, s: State, c: nat, x: Proc)
    requires Reachable(cfg, s)
    requires Enabled(cfg, s, OnCpu(c)) && s.cpu[c].at == Recheck && HeldBy(s, c, x)
    ensures PcOf(s, x) < x.size && Next(cfg, s, OnCpu(c)).pc == s.pc[x := PcOf(s, x) + 1]
  {
    ReachableInv(cfg, s);
    RunAccounted(cfg, s, c, x);
  }

  // ---- the loader and the end of work --------------------------------------------------------------------

  /** Loader timing: process `j` is added in the slot its own and the earlier start times ask for. */
  lemma LoaderTiming(cfg: Config, s: State, j: nat) returns (k: nat)
    requires Reachable(cfg, s) && j < s.i
    ensures && |s.addedAt| == s.i <= |cfg.start|
            && (forall i :: 0 <= i <= j ==> cfg.start[i] + (j - i) <= s.addedAt[j])
            && k <= j && s.addedAt[j] == cfg.start[k] + (j - k)
  {
    ReachableInv(cfg, s);
    k := AddSlotIsMax(cfg.start, j);
  }

  /** A step that adds a process records the slot the clock then shows. */
  lemma AdditionsRecorded(cfg: Config, s: State, e: Step)
    requires Enabled(cfg, s, e)
    ensures Next(cfg, s, e).i != s.i ==>
              Next(cfg, s, e).i == s.i + 1 && Next(cfg, s, e).addedAt == s.addedAt + [s.b.time] && s.i < |cfg.jobs|
    ensures Next(cfg, s, e).i == s.i ==> Next(cfg, s, e).addedAt == s.addedAt
  {
    match e
    case Barrier(e) => BarrierLoader(cfg, s, e);
    case OnCpu(c) => CpuAlone(cfg, s, c);
    case OnLoader =>
  }

  /**
   No abandoned work: in every reachable state, if an added process is unfinished, or one is still to be added,
   then some CPU has not stopped and is not about to.
   */
  lemma NoAbandonedWork(cfg: Config, s: State, x: Proc) returns (c: nat)
    requires Reachable(cfg, s) && x in cfg.jobs
    requires Added(cfg, s.i, x) ==> PcOf(s, x) < x.size
    ensures c < |s.cpu| && s.cpu[c].at != Stopped && s.cpu[c].at != Stopping
  {
    ReachableInv(cfg, s);
    if working :| 0 <= working < |s.cpu| && s.cpu[working].at != Stopped && s.cpu[working].at != Stopping {
      return working;
    }
    c := 0;
    hide AllEmpty, Sound, KnownOk, ReadyOk, HandsOk, ListedOk, Accounted, B.Inv, Reachable;
    forall d | 0 <= d < |s.cpu| ensures Idle(s.cpu[d], LastAdd(s)) && s.cpu[d].proc.None? && s.done {
      assert AskedOk(s.cpu[d], s.b.time, s.done, LastAdd(s)) && HandOk(s.cpu[d]);
    }
    assert s.cpu[0].proc.None? && s.done;
    NothingLeft(cfg, s, x);
  }

  /** With nothing waiting and nothing held, every process of the machine is finished once the loader is. */
  lemma NothingLeft(cfg: Config, s: State, x: Proc)
    requires Inv(cfg, s) && x in cfg.jobs && AllEmpty(s.sched.ready) && s.i == |cfg.jobs|
    requires forall d :: 0 <= d < |s.cpu| ==> s.cpu[d].proc.None?
    ensures Added(cfg, s.i, x) && PcOf(s, x) >= x.size
  {
    hide Linked, Hands, Timed, Asked, Drained, ListedOk, Sound, ConfigOk;
    assert Added(cfg, s.i, x);
    PlaceShows(cfg, s, x);
    assert AccountOk(cfg.quantum, s.cpu, s.place[x], s.pc[x], s.dispatched[x], x);
    assert s.place[x] == Ready ==> WaitsIn(s, x.prio, x);
    assert s.place[x].Held? ==> HeldBy(s, s.place[x].c, x);
  }

  /** A CPU that stops last asked for a process in a slot after the one in which the last process was added. */
  lemma StopsAfterLastAdd(cfg: Config, s: State, c: nat)
    requires Reachable(cfg, s)
    requires c < |s.cpu| && s.cpu[c].at in {Stopping, Stopped}
    ensures && s.done && s.i == |cfg.jobs| == |s.addedAt|
            && forall j :: 0 <= j < |s.addedAt| ==> s.addedAt[j] < s.cpu[c].gotAt
  {
    ReachableInv(cfg, s);
    assert AskedOk(s.cpu[c], s.b.time, s.done, LastAdd(s));
    forall j | 0 <= j < |s.addedAt| ensures s.addedAt[j] < s.cpu[c].gotAt {
      AddSlotsRise(cfg.start, j, |s.addedAt| - 1);
    }
  }

  lemma {:induction false} AddSlotsRise(start: seq<nat>, i: nat, j: nat)
    requires i <= j < |start|
    ensures AddSlot(start, i) + (j - i) <= AddSlot(start, j)
  {
    if i < j { AddSlotsRise(start, i, j - 1); }
  }

  /** No run of the whole machine gets stuck: until the timer is gone, some step other than stopping it is enabled. */
  lemma MachineNeverStuck(cfg: Config, s: State) returns (e: Step)
    requires Reachable(cfg, s) && !s.b.timer.Gone?
    ensures Enabled(cfg, s, e) && e != Barrier(B.Stop)
  {
    ReachableInv(cfg, s);
    hide Hands, Accounted, Timed, Asked, Drained, ReadyOk, HandsOk, ListedOk, KnownOk, ConfigOk, Reachable;
    if B.TimerEnabled(s.b) { return Barrier(B.Tick); }
    var k := s.b.timer.k;
    assert B.DeviceOk(s.b.dev[k]);
    if s.b.dev[k].phase == B.Waiting { return Barrier(B.Resume(k)); }
    if k < cfg.cpus {
      return if s.cpu[k].at == ToArrive then Barrier(B.Arrive(k))
             else if s.cpu[k].at == Stopping then Barrier(B.Detach(k)) else OnCpu(k);
    }
    return if s.ld == LdToArrive then Barrier(B.Arrive(k)) else if s.ld == Leaving then Barrier(B.Detach(k))
           else OnLoader;
  }
}
