/**
 Which CPUs stop: one that finds nothing after letting a process go, once the loader is done, and no other. A CPU that
 finds nothing at the head of its loop waits for the next slot without looking at `done`.
 */
module MachineStops {
  import opened Prelude
  import opened Queue
  import opened SchedulerPolicy
  import opened Machine
  import opened MachineRuns
  import opened MachineProgress
  import B = SlotBarrier

  // ---- a CPU on its way out ------------------------------------------------------------------------------

  /** The CPU whose thread a step moves, if it moves one. */
  predicate Moves(e: Step, c: nat)
  {
    match e
    case OnCpu(d) => d == c
    case OnLoader => false
    case Barrier(e) => !e.Stop? && !e.Tick? && e.d == c
  }

  function OwnSteps(steps: seq<Step>, c: nat): nat
  {
    if steps == [] then 0 else (if Moves(steps[0], c) then 1 else 0) + OwnSteps(steps[1..], c)
  }

  /** The CPU holds nothing and is past its last look at the queues. */
  ghost predicate Leaves(s: State, c: nat)
  {
    s.done && c < |s.cpu| && s.cpu[c].proc.None? && s.cpu[c].at in {Recheck, Stopping, Stopped}
  }

  /** How many steps it has left. */
  function StepsOut(at: CpuAt): nat { if at == Recheck then 2 else if at == Stopping then 1 else 0 }

  lemma LeaveStep(cfg: Config, s: State, e: Step, c: nat)
    requires Linked(cfg, s) && Leaves(s, c) && Enabled(cfg, s, e)
    ensures var s' := Next(cfg, s, e);
            Leaves(s', c) && StepsOut(s.cpu[c].at) == StepsOut(s'.cpu[c].at) + if Moves(e, c) then 1 else 0
  {
    LinkedParts(cfg, s);
    assert InStep(s.cpu[c], s.b.dev[c].phase);
    hide Linked, ConfigOk, B.Inv, BarrierStep;
    match e
    case Barrier(e) => BarrierCpu(cfg, s, e, c); BarrierLoader(cfg, s, e);
    case OnCpu(d) => CpuAlone(cfg, s, d); LeaveCpu(cfg, s, d);
    case OnLoader => LeaveLoader(cfg, s);
  }

  lemma LeaveCpu(cfg: Config, s: State, c: nat)
    requires Enabled(cfg, s, OnCpu(c)) && s.done
    ensures var s' := CpuStep(cfg, s, c);
            s'.done && (Leaves(s, c) ==> Leaves(s', c) && s.cpu[c].at == Recheck && s'.cpu[c].at == Stopping)
  {
    hide GetProc, PutProc, ConfigOk, PcOf, B.Enabled;
  }

  lemma LeaveLoader(cfg: Config, s: State)
    requires Enabled(cfg, s, OnLoader) && s.done
    ensures LoaderStep(cfg, s).cpu == s.cpu && LoaderStep(cfg, s).done
  {
    hide PutProc, ConfigOk;
  }

  lemma {:induction false} LeaveRun(cfg: Config, s: State, steps: seq<Step>, c: nat)
    requires Inv(cfg, s) && Leaves(s, c) && Runs(cfg, s, steps)
    ensures var s' := RunOf(cfg, s, steps);
            Leaves(s', c) && StepsOut(s.cpu[c].at) == StepsOut(s'.cpu[c].at) + OwnSteps(steps, c)
    decreases |steps|
  {
    hide Enabled, Next, Moves, Placed, Accounted, Timed, Drained, Asked, Hands, Linked;
    if steps == [] {
    } else {
      NextInv(cfg, s, steps[0]);
      LeaveStep(cfg, s, steps[0], c);
      LeaveRun(cfg, Next(cfg, s, steps[0]), steps[1..], c);
    }
  }

  /**
   With the loader done, a CPU that finds nothing after putting a process back or finishing one stops: its next step
   takes it out of its loop, the one after detaches it, and it takes no third.
   */
  lemma NoWorkStops(cfg: Config, s: State, c: nat, steps: seq<Step>)
    requires Reachable(cfg, s) && Enabled(cfg, s, OnCpu(c)) && s.cpu[c].at in {AfterPut, AfterFinish}
    requires s.done && AllEmpty(s.sched.ready) && Runs(cfg, Next(cfg, s, OnCpu(c)), steps)
    ensures var u := RunOf(cfg, Next(cfg, s, OnCpu(c)), steps).cpu; var n := OwnSteps(steps, c);
            && c < |u| && n <= 2 && u[c].proc.None?
            && u[c].at == if n == 0 then Recheck else if n == 1 then Stopping else Stopped
  {
    ReachableInv(cfg, s);
    NextInv(cfg, s, OnCpu(c));
    FindsNothing(cfg, s, c);
    hide Inv, Next, Enabled, Runs, RunOf, OwnSteps, Reachable, AllEmpty;
    LeaveRun(cfg, Next(cfg, s, OnCpu(c)), steps, c);
  }

  lemma FindsNothing(cfg: Config, s: State, c: nat)
    requires Enabled(cfg, s, OnCpu(c)) && AllEmpty(s.sched.ready)
    requires s.cpu[c].at in {AfterPut, AfterFinish} || (s.cpu[c].at == Top && s.cpu[c].proc.None?)
    ensures var s' := CpuStep(cfg, s, c);
            && s'.done == s.done && s'.sched == s.sched && s'.place == s.place && s'.pc == s.pc
            && c < |s'.cpu| && s'.cpu[c].proc.None? && s'.cpu[c].at == if s.cpu[c].at == Top then ToArrive else Recheck
  {
    GetAnswers(s.sched);
    hide GetProc, PutProc, ConfigOk, RunOn, B.Enabled, AllEmpty;
  }

  // ---- which CPUs stop -----------------------------------------------------------------------------------

  /** The loader is done and every process has run to its end. */
  ghost predicate AllRun(cfg: Config, s: State)
  {
    s.done && s.i == |cfg.jobs| && forall x :: x in cfg.jobs ==> PcOf(s, x) >= x.size
  }

  /** The CPU holds a process, is past letting one go, or is out of its loop. */
  predicate Ending(u: Cpu) { u.proc.Some? || u.at in {AfterPut, AfterFinish, Recheck, Stopping, Stopped} }

  /** The slots it can have ended when it stops. */
  function LastSlot(u: Cpu, ended: nat): nat { if u.at == ToArrive then ended + 1 else ended }

  /** With everything run, nothing waits and no CPU is about to run an instruction. */
  lemma NothingToRun(cfg: Config, s: State)
    requires Inv(cfg, s) && AllRun(cfg, s)
    ensures AllEmpty(s.sched.ready)
    ensures forall c :: 0 <= c < |s.cpu| && s.cpu[c].proc.Some? ==>
              s.cpu[c].at != Recheck && PcOf(s, s.cpu[c].proc.value) == s.cpu[c].proc.value.size
  {
    forall p | 0 <= p < |s.sched.ready| ensures s.sched.ready[p] == [] {
      if s.sched.ready[p] != [] { Waiting(cfg, s, p); }
    }
    forall c | 0 <= c < |s.cpu| && s.cpu[c].proc.Some?
      ensures s.cpu[c].at != Recheck && PcOf(s, s.cpu[c].proc.value) == s.cpu[c].proc.value.size
    {
      Holding(cfg, s, c);
    }
  }

  lemma Waiting(cfg: Config, s: State, p: nat)
    requires Inv(cfg, s) && p < |s.sched.ready| && s.sched.ready[p] != []
    ensures exists x :: x in cfg.jobs && PcOf(s, x) < x.size
  {
    var x := s.sched.ready[p][0];
    hide Linked, Hands, Timed, Asked, Drained, ListedOk, HandsOk, Sound, ConfigOk;
    assert x in s.sched.ready[p];
    assert x in s.place && s.place[x] == Ready && Added(cfg, s.i, x);
    assert AccountOk(cfg.quantum, s.cpu, s.place[x], s.pc[x], s.dispatched[x], x);
  }

  lemma Holding(cfg: Config, s: State, c: nat)
    requires Inv(cfg, s) && c < |s.cpu| && s.cpu[c].proc.Some?
    ensures var x := s.cpu[c].proc.value;
            x in cfg.jobs && PcOf(s, x) <= x.size && (s.cpu[c].at == Recheck ==> PcOf(s, x) < x.size)
  {
    var x := s.cpu[c].proc.value;
    hide Linked, Hands, Timed, Asked, Drained, ListedOk, ReadyOk, Sound, ConfigOk;
    assert x in s.place && s.place[x] == Held(c) && Added(cfg, s.i, x);
    assert AccountOk(cfg.quantum, s.cpu, s.place[x], s.pc[x], s.dispatched[x], x);
  }

  /** What a CPU's own step is then. */
  lemma CpuEnding(cfg: Config, s: State, c: nat)
    requires Enabled(cfg, s, OnCpu(c)) && s.done && AllEmpty(s.sched.ready)
    requires s.cpu[c].proc.Some? ==> s.cpu[c].at != Recheck && PcOf(s, s.cpu[c].proc.value) == s.cpu[c].proc.value.size
    ensures var u, s' := s.cpu[c], CpuStep(cfg, s, c);
            && OnlyCpu(s, s', c) && s'.pc == s.pc
            && (Ending(s'.cpu[c]) <==> Ending(u)) && (s'.cpu[c].at == ToArrive ==> !Ending(u))
  {
    CpuAlone(cfg, s, c);
    if s.cpu[c].at in {AfterPut, AfterFinish} || (s.cpu[c].at == Top && s.cpu[c].proc.None?) {
      FindsNothing(cfg, s, c);
    }
    hide GetProc, PutProc, ConfigOk, RunOn, B.Enabled, AllEmpty, Take, PcOf;
  }

  lemma BarrierEnding(cfg: Config, s: State, e: B.Step, c: nat)
    requires Linked(cfg, s) && AllRun(cfg, s) && Enabled(cfg, s, Barrier(e)) && c < cfg.cpus
    ensures var s' := BarrierStep(cfg, s, e);
            && AllRun(cfg, s') && c < |s'.cpu| && c < |s'.b.dev|
            && (Ending(s'.cpu[c]) <==> Ending(s.cpu[c]))
            && LastSlot(s'.cpu[c], s'.b.dev[c].ended) <= LastSlot(s.cpu[c], s.b.dev[c].ended)
  {
    BarrierCpu(cfg, s, e, c);
    BarrierLoader(cfg, s, e);
    EndedOnArrival(s.b, e, c);
    LinkedParts(cfg, s);
    assert InStep(s.cpu[c], s.b.dev[c].phase);
    var s' := BarrierStep(cfg, s, e);
    assert forall x :: PcOf(s', x) == PcOf(s, x);
    hide BarrierStep, B.Next, B.Inv, Linked, ConfigOk;
  }

  lemma CpuStillEnding(cfg: Config, s: State, d: nat, c: nat)
    requires Linked(cfg, s) && AllRun(cfg, s) && Enabled(cfg, s, OnCpu(d)) && c < cfg.cpus && AllEmpty(s.sched.ready)
    requires s.cpu[d].proc.Some? ==> s.cpu[d].at != Recheck && PcOf(s, s.cpu[d].proc.value) == s.cpu[d].proc.value.size
    ensures var s' := CpuStep(cfg, s, d);
            && AllRun(cfg, s') && c < |s'.cpu| && s'.b == s.b
            && (Ending(s'.cpu[c]) <==> Ending(s.cpu[c]))
            && (Ending(s.cpu[c]) ==> LastSlot(s'.cpu[c], s.b.dev[c].ended) <= LastSlot(s.cpu[c], s.b.dev[c].ended))
  {
    CpuEnding(cfg, s, d);
    var s' := CpuStep(cfg, s, d);
    assert forall x :: PcOf(s', x) == PcOf(s, x);
    hide CpuStep, B.Inv, ConfigOk, AllEmpty, B.Enabled;
  }

  lemma StillAllRun(cfg: Config, s: State, e: Step, c: nat)
    requires Inv(cfg, s) && AllRun(cfg, s) && Enabled(cfg, s, e) && c < cfg.cpus
    ensures var s' := Next(cfg, s, e);
            && AllRun(cfg, s') && c < |s'.cpu| && c < |s'.b.dev|
            && (Ending(s'.cpu[c]) <==> Ending(s.cpu[c]))
            && (Ending(s.cpu[c]) ==> LastSlot(s'.cpu[c], s'.b.dev[c].ended) <= LastSlot(s.cpu[c], s.b.dev[c].ended))
  {
    NothingToRun(cfg, s);
    hide Placed, Accounted, Asked, Drained, Hands, AllRun, B.Inv, ConfigOk;
    hide BarrierStep, CpuStep, LoaderStep, AllEmpty, Ending;
    match e
    case Barrier(e) => BarrierEnding(cfg, s, e, c);
    case OnCpu(d) => CpuStillEnding(cfg, s, d, c);
    case OnLoader => LoaderGone(cfg, s);
  }

  /** Once `done` is set the loader has only to detach. */
  lemma LoaderGone(cfg: Config, s: State)
    requires Linked(cfg, s) && Timed(cfg, s) && AllRun(cfg, s)
    ensures s.ld in {Leaving, Left}
  {
  }

  lemma {:induction false} EndingRun(cfg: Config, s: State, steps: seq<Step>, c: nat)
    requires Inv(cfg, s) && AllRun(cfg, s) && Runs(cfg, s, steps) && c < cfg.cpus
    ensures |s.cpu| == cfg.cpus && |s.b.dev| == cfg.cpus + 1
    ensures var s' := RunOf(cfg, s, steps);
            && Inv(cfg, s') && AllRun(cfg, s') && c < |s'.cpu| && c < |s'.b.dev|
            && (Ending(s'.cpu[c]) <==> Ending(s.cpu[c]))
            && (Ending(s.cpu[c]) ==> LastSlot(s'.cpu[c], s'.b.dev[c].ended) <= LastSlot(s.cpu[c], s.b.dev[c].ended))
    decreases |steps|
  {
    AtLeastOne(cfg, s);
    hide Inv, Enabled, Next, AllRun, Ending, LastSlot, Linked;
    if steps == [] {
    } else {
      NextInv(cfg, s, steps[0]);
      StillAllRun(cfg, s, steps[0], c);
      EndingRun(cfg, Next(cfg, s, steps[0]), steps[1..], c);
    }
  }

  /**
   Which CPUs stop: in every reachable state with the loader done and all processes run, a CPU that holds a process or
   has just let one go has stopped by two slots later, however the threads are scheduled; any other CPU never stops.
   */
  lemma StopsExactly(cfg: Config, s: State, steps: seq<Step>, c: nat)
    requires Reachable(cfg, s) && AllRun(cfg, s) && Runs(cfg, s, steps) && c < cfg.cpus
    ensures |s.cpu| == cfg.cpus && |RunOf(cfg, s, steps).cpu| == cfg.cpus
    ensures var s' := RunOf(cfg, s, steps);
            && (Ending(s.cpu[c]) && s'.b.time >= s.b.time + 2 ==> s'.cpu[c].at == Stopped)
            && (!Ending(s.cpu[c]) ==> s'.cpu[c].at !in {Stopping, Stopped})
  {
    ReachableInv(cfg, s);
    EndingRun(cfg, s, steps, c);
    AtLeastOne(cfg, s);
    AtLeastOne(cfg, RunOf(cfg, s, steps));
    SlotsEnded(cfg, s, c);
    SlotsEnded(cfg, RunOf(cfg, s, steps), c);
    hide Inv, Runs, RunOf, AllRun, Reachable, Linked;
  }

  /** A CPU has ended the slots before the clock's, and this one at most; unless it stopped, those before it all. */
  lemma SlotsEnded(cfg: Config, s: State, c: nat)
    requires Linked(cfg, s) && c < cfg.cpus
    ensures LastSlot(s.cpu[c], s.b.dev[c].ended) <= s.b.time + 1
    ensures s.cpu[c].at != Stopped ==> s.b.dev[c].ended >= s.b.time
  {
    assert B.DeviceOk(s.b.dev[c]);
  }

  // ---- a machine that never stops ------------------------------------------------------------------------

  /** The CPU asks, finds nothing and waits, over and over. */
  predicate Waits(u: Cpu) { u.proc.None? && u.at in {Top, ToArrive, InBarrier} }

  lemma WaitsOn(cfg: Config, s: State, e: Step, c: nat)
    requires Inv(cfg, s) && cfg.jobs == [] && Enabled(cfg, s, e)
    requires forall c :: 0 <= c < |s.cpu| ==> Waits(s.cpu[c])
    requires c < cfg.cpus
    ensures c < |Next(cfg, s, e).cpu| && Waits(Next(cfg, s, e).cpu[c])
  {
    NoneReady(cfg, s);
    hide Placed, Accounted, Timed, Asked, Drained, Hands, B.Inv, ConfigOk, AllEmpty;
    match e
    case Barrier(e) => BarrierCpu(cfg, s, e, c);
    case OnCpu(d) =>
      CpuAlone(cfg, s, d);
      FindsNothing(cfg, s, d);
      hide CpuStep;
    case OnLoader =>
  }

  lemma NoneReady(cfg: Config, s: State)
    requires Inv(cfg, s) && cfg.jobs == []
    ensures AllEmpty(s.sched.ready)
  {
    forall p | 0 <= p < |s.sched.ready| ensures s.sched.ready[p] == [] {
      if s.sched.ready[p] != [] { Waiting(cfg, s, p); }
    }
  }

  lemma {:induction false} WaitsForever(cfg: Config, s: State, steps: seq<Step>)
    requires Inv(cfg, s) && cfg.jobs == [] && Runs(cfg, s, steps) && forall c :: 0 <= c < |s.cpu| ==> Waits(s.cpu[c])
    ensures forall c :: 0 <= c < |RunOf(cfg, s, steps).cpu| ==> Waits(RunOf(cfg, s, steps).cpu[c])
    decreases |steps|
  {
    hide Inv, Enabled, Next, Waits;
    if steps == [] {
    } else {
      NextInv(cfg, s, steps[0]);
      AtLeastOneCpu(cfg, Next(cfg, s, steps[0]));
      forall c | 0 <= c < |Next(cfg, s, steps[0]).cpu| ensures Waits(Next(cfg, s, steps[0]).cpu[c]) {
        WaitsOn(cfg, s, steps[0], c);
      }
      WaitsForever(cfg, Next(cfg, s, steps[0]), steps[1..]);
    }
  }

  lemma AtLeastOneCpu(cfg: Config, s: State)
    requires Inv(cfg, s)
    ensures |s.cpu| == cfg.cpus
  {
  }

  /** A machine with no processes never stops: no CPU does, so the timer does not either. */
  lemma NeverStops(cfg: Config, s: State)
    requires Reachable(cfg, s) && cfg.jobs == []
    ensures forall c :: 0 <= c < |s.cpu| ==> s.cpu[c].at !in {Stopping, Stopped}
    ensures !s.b.timer.Gone?
  {
    var steps :| Runs(cfg, Init(cfg), steps) && RunOf(cfg, Init(cfg), steps) == s;
    InitInv(cfg);
    RunInv(cfg, Init(cfg), steps);
    WaitsForever(cfg, Init(cfg), steps);
    hide Runs, RunOf, Init, Placed, Accounted, Timed, Asked, Drained, Hands, Reachable;
    assert Waits(s.cpu[0]);
  }

  // ---- when the loader is done ---------------------------------------------------------------------------

  /** The loader is done by the second slot after the one in which it adds the last process, and only with all added. */
  lemma DoneInTime(cfg: Config, s: State)
    requires Reachable(cfg, s)
    ensures s.done ==> s.i == |cfg.jobs|
    ensures cfg.jobs != [] && s.b.time > AddSlot(cfg.start, |cfg.jobs| - 1) + 1 ==> s.done && s.ld == Left
  {
    ReachableInv(cfg, s);
    assert B.DeviceOk(s.b.dev[cfg.cpus]);
    if s.i < |cfg.jobs| { AddSlotsRise(cfg.start, s.i, |cfg.jobs| - 1); }
    hide Placed, Accounted, Asked, Drained, Hands, Reachable;
  }
}
