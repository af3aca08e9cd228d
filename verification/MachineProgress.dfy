/**
 How fast the machine gets its work done: in every slot after the last addition that ends with work left, some CPU runs
 an instruction, so all processes are finished within as many slots as there are instructions.
 */
module MachineProgress {
  import opened Prelude
  import opened Queue
  import opened SchedulerPolicy
  import opened Machine
  import opened MachineRuns
  import B = SlotBarrier

  // ---- instructions --------------------------------------------------------------------------------------

  /** Instructions run of these processes, and instructions in all. */
  function Executed(xs: seq<Proc>, pc: map<Proc, nat>): nat
  {
    if xs == [] then 0 else (if xs[0] in pc then pc[xs[0]] else 0) + Executed(xs[1..], pc)
  }

  function Work(xs: seq<Proc>): nat { if xs == [] then 0 else xs[0].size + Work(xs[1..]) }

  lemma {:induction false} ExecutedElsewhere(xs: seq<Proc>, pc: map<Proc, nat>, x: Proc, n: nat)
    requires x !in xs
    ensures Executed(xs, pc[x := n]) == Executed(xs, pc)
  {
    if xs == [] {
    } else {
      ExecutedElsewhere(xs[1..], pc, x, n);
    }
  }

  lemma {:induction false} OneMoreExecuted(xs: seq<Proc>, pc: map<Proc, nat>, x: Proc)
    requires NoDup(xs) && x in xs && x in pc
    ensures Executed(xs, pc[x := pc[x] + 1]) == Executed(xs, pc) + 1
  {
    if xs[0] == x {
      ExecutedElsewhere(xs[1..], pc, x, pc[x] + 1);
    } else {
      OneMoreExecuted(xs[1..], pc, x);
    }
  }

  lemma {:induction false} WorkLeft(xs: seq<Proc>, pc: map<Proc, nat>)
    requires forall y :: y in xs && y in pc ==> pc[y] <= y.size
    ensures Executed(xs, pc) <= Work(xs)
    ensures (exists y :: y in xs && (y !in pc || pc[y] < y.size) && y.size > 0) ==> Executed(xs, pc) < Work(xs)
  {
    if xs == [] {
    } else {
      WorkLeft(xs[1..], pc);
      assert forall y :: y in xs ==> y == xs[0] || y in xs[1..];
    }
  }

  // ---- the invariant -------------------------------------------------------------------------------------

  /** The CPU has had its turn in slot `time`: it is about to arrive, has arrived, or has stopped. */
  predicate Acted(u: Cpu, v: B.Device, time: nat)
  {
    u.at == ToArrive || (u.at == InBarrier && v.ended == time + 1) || u.at == Stopping || u.at == Stopped
  }

  /** A CPU that arrived with nothing in its hands asked in this very slot. */
  ghost predicate Missed(cfg: Config, s: State)
    requires Linked(cfg, s)
  {
    forall c :: 0 <= c < cfg.cpus ==>
      (s.cpu[c].at == InBarrier && s.cpu[c].proc.None? && s.b.dev[c].ended == s.b.time + 1 ==>
         s.cpu[c].gotAt == s.b.time)
  }

  ghost predicate Unfinished(cfg: Config, s: State) { exists x :: x in cfg.jobs && PcOf(s, x) < x.size }

  /** No CPU that has had its turn in this slot holds a process: none has run an instruction in it. */
  ghost predicate NoneRan(cfg: Config, s: State)
    requires Linked(cfg, s)
  {
    forall c :: 0 <= c < cfg.cpus && Acted(s.cpu[c], s.b.dev[c], s.b.time) ==> s.cpu[c].proc.None?
  }

  /** Where the count starts: after this slot, with so many instructions run. */
  datatype Base = Base(slot: int, run: nat)

  /** The slot to count from: that of the base, or that of the last addition if it is later. */
  function From(s: State, base: Base): int { if base.slot < LastAdd(s) then LastAdd(s) else base.slot }

  /** While work is left, an instruction was run for each slot since the base, this one perhaps excepted. */
  ghost predicate Moving(cfg: Config, s: State, base: Base)
    requires Linked(cfg, s)
  {
    var n := Executed(cfg.jobs, s.pc) - base.run;
    && n >= 0 && (base.run > 0 ==> s.i == |cfg.jobs|)
    && (s.i == |cfg.jobs| && Unfinished(cfg, s) ==>
          s.b.time - From(s, base) <= n || (s.b.time - 1 - From(s, base) <= n && NoneRan(cfg, s)))
  }

  ghost predicate Paced(cfg: Config, s: State, base: Base) { Linked(cfg, s) && Missed(cfg, s) && Moving(cfg, s, base) }

  // ---- the steps -----------------------------------------------------------------------------------------

  /**
   When a slot after the last addition ends with work left, some CPU that had its turn in it holds a process: it ran an
   instruction.
   */
  lemma SomeoneRan(cfg: Config, s: State)
    requires Inv(cfg, s) && Missed(cfg, s) && s.b.timer.Scan? && s.b.timer.k == |s.b.dev|
    requires s.i == |cfg.jobs| && LastAdd(s) < s.b.time && Unfinished(cfg, s)
    ensures exists c :: 0 <= c < cfg.cpus && Acted(s.cpu[c], s.b.dev[c], s.b.time) && s.cpu[c].proc.Some?
  {
    if NoneRan(cfg, s) {
      forall c | 0 <= c < |s.cpu| ensures Idle(s.cpu[c], LastAdd(s)) && s.cpu[c].proc.None? {
        SettledIdle(cfg, s, c);
      }
      assert AllEmpty(s.sched.ready);
      var x :| x in cfg.jobs && PcOf(s, x) < x.size;
      NothingLeft(cfg, s, x);
    }
  }

  lemma SettledIdle(cfg: Config, s: State, c: nat)
    requires Inv(cfg, s) && Missed(cfg, s) && NoneRan(cfg, s) && s.b.timer.Scan? && s.b.timer.k == |s.b.dev|
    requires c < cfg.cpus && LastAdd(s) < s.b.time
    ensures Idle(s.cpu[c], LastAdd(s)) && s.cpu[c].proc.None?
  {
    hide Placed, Accounted, Timed, Drained, ConfigOk;
    assert B.Settled(s.b.dev[c]) && B.DeviceOk(s.b.dev[c]);
    assert AskedOk(s.cpu[c], s.b.time, s.done, LastAdd(s));
    assert Acted(s.cpu[c], s.b.dev[c], s.b.time);
  }

  /** What a CPU's own step means for the pace: it runs one instruction, or it has no turn yet, or it has nothing. */
  lemma CpuTurn(cfg: Config, s: State, c: nat)
    requires Enabled(cfg, s, OnCpu(c))
    ensures var u, s' := s.cpu[c], CpuStep(cfg, s, c);
            && OnlyCpu(s, s', c)
            && if u.at == Recheck && u.proc.Some? then s' == RunOn(cfg, s, c, u.proc.value)
               else s'.pc == s.pc && (s'.cpu[c].at in {ToArrive, Stopping} ==> s'.cpu[c].proc.None?)
  {
    CpuAlone(cfg, s, c);
    hide GetProc, PutProc, ConfigOk, PcOf, B.Enabled, RunOn;
  }

  lemma CpuPaced(cfg: Config, s: State, c: nat, base: Base)
    requires Inv(cfg, s) && Paced(cfg, s, base) && Enabled(cfg, s, OnCpu(c))
    ensures Paced(cfg, CpuStep(cfg, s, c), base)
  {
    hide CpuStep, Linked, Placed, Accounted, Timed, Drained, Hands;
    hide Asked, ConfigOk, B.Inv, Missed, Moving, RunOn, OnlyCpu;
    var u, s' := s.cpu[c], CpuStep(cfg, s, c);
    CpuLinked(cfg, s, c);
    CpuTurn(cfg, s, c);
    if u.at == Recheck && u.proc.Some? {
      RunMoves(cfg, s, c, u.proc.value, s', base);
    } else {
      NoRunMoves(cfg, s, c, s', base);
    }
  }

  /** A step without an instruction keeps the pace. */
  lemma NoRunMoves(cfg: Config, s: State, c: nat, s': State, base: Base)
    requires Paced(cfg, s, base) && Linked(cfg, s') && c < cfg.cpus
    requires OnlyCpu(s, s', c) && s'.pc == s.pc && (s'.cpu[c].at in {ToArrive, Stopping} ==> s'.cpu[c].proc.None?)
    ensures Missed(cfg, s') && Moving(cfg, s', base)
  {
    hide ConfigOk, B.Inv;
    assert forall x :: PcOf(s', x) == PcOf(s, x);
  }

  lemma HeldJob(cfg: Config, s: State, c: nat, x: Proc)
    requires Inv(cfg, s) && c < |s.cpu| && s.cpu[c].proc == Some(x)
    ensures NoDup(cfg.jobs) && x in cfg.jobs && x in s.pc && HandsOk(s.cpu, s.place) && Accounted(cfg, s) &&
            ConfigOk(cfg)
  {
    assert x in s.place && Added(cfg, s.i, x);
  }

  /** An instruction is run, on a process of the machine. */
  lemma OneRun(cfg: Config, s: State, c: nat, x: Proc)
    requires Inv(cfg, s) && c < |s.cpu| && s.cpu[c].at == Recheck && s.cpu[c].proc == Some(x)
    ensures var s' := RunOn(cfg, s, c, x);
            && Executed(cfg.jobs, s'.pc) == Executed(cfg.jobs, s.pc) + 1
            && (Unfinished(cfg, s') ==> Unfinished(cfg, s))
            && s'.b == s.b && s'.i == s.i && s'.addedAt == s.addedAt
            && |s'.cpu| == |s.cpu| && (forall d :: 0 <= d < |s.cpu| && d != c ==> s'.cpu[d] == s.cpu[d]) &&
               s'.cpu[c].at == ToArrive
  {
    hide Inv, Accounted, HandsOk, ConfigOk;
    HeldJob(cfg, s, c, x);
    RunAccounted(cfg, s, c, x);
    OneMoreExecuted(cfg.jobs, s.pc, x);
    var s' := RunOn(cfg, s, c, x);
    if Unfinished(cfg, s') {
      var y :| y in cfg.jobs && PcOf(s', y) < y.size;
      assert PcOf(s, y) <= PcOf(s', y);
    }
  }

  /** A step that runs an instruction quickens it. */
  lemma RunMoves(cfg: Config, s: State, c: nat, x: Proc, s': State, base: Base)
    requires Inv(cfg, s) && Paced(cfg, s, base) && c < |s.cpu| && s.cpu[c].at == Recheck && s.cpu[c].proc == Some(x)
    requires s' == RunOn(cfg, s, c, x) && Linked(cfg, s')
    ensures Missed(cfg, s') && Moving(cfg, s', base)
  {
    hide Inv, RunOn, Executed, Unfinished, ConfigOk, B.Inv;
    OneRun(cfg, s, c, x);
  }

  lemma LoaderTurn(cfg: Config, s: State)
    requires Enabled(cfg, s, OnLoader)
    ensures var s' := LoaderStep(cfg, s);
            && s'.cpu == s.cpu && s'.b == s.b
            && (if s'.i == s.i then s'.pc == s.pc && s'.addedAt == s.addedAt
                else LastAdd(s') == s.b.time && s.i < |cfg.jobs|)
  {
    hide PutProc, ConfigOk;
  }

  /** The step of the loader that adds the last process starts the count; none of its steps slows it. */
  lemma LoaderPaced(cfg: Config, s: State, base: Base)
    requires Linked(cfg, s) && Paced(cfg, s, base) && Enabled(cfg, s, OnLoader)
    ensures Paced(cfg, LoaderStep(cfg, s), base)
  {
    hide Executed, ConfigOk, B.Inv, LoaderStep, Linked, Enabled;
    LoaderLinked(cfg, s);
    LoaderTurn(cfg, s);
    var s' := LoaderStep(cfg, s);
    if s'.i == s.i { assert forall x :: PcOf(s', x) == PcOf(s, x); }
  }

  /** What a barrier step other than the tick of the clock does to a CPU that has had its turn. */
  lemma TurnKept(cfg: Config, s: State, e: B.Step, c: nat)
    requires Linked(cfg, s) && Enabled(cfg, s, Barrier(e)) && c < cfg.cpus && B.Next(s.b, e).time == s.b.time
    ensures var s' := BarrierStep(cfg, s, e);
            && |s'.cpu| == cfg.cpus && |s'.b.dev| == |s.b.dev| && s'.b.time == s.b.time
            && s'.cpu[c].proc == s.cpu[c].proc && s'.cpu[c].gotAt == s.cpu[c].gotAt
            && (Acted(s'.cpu[c], s'.b.dev[c], s.b.time) ==> Acted(s.cpu[c], s.b.dev[c], s.b.time))
            && (s'.cpu[c].at == InBarrier && s.cpu[c].at != InBarrier ==> s.cpu[c].at == ToArrive)
            && (s'.cpu[c].at == InBarrier && s.cpu[c].at == InBarrier ==> s'.b.dev[c].ended == s.b.dev[c].ended)
  {
    BarrierCpu(cfg, s, e, c);
    BarrierLoader(cfg, s, e);
    BarrierPhases(s.b, e, c);
    EndedOnArrival(s.b, e, c);
    LinkedParts(cfg, s);
    assert InStep(s.cpu[c], s.b.dev[c].phase);
    hide BarrierStep, B.Next, B.Inv, Linked, ConfigOk;
  }

  /** A device's count of slots ended moves when it arrives, and not otherwise. */
  lemma EndedOnArrival(s: B.State, e: B.Step, d: nat)
    requires B.Enabled(s, e) && d < |s.dev|
    ensures |B.Next(s, e).dev| == |s.dev|
    ensures B.Next(s, e).dev[d].ended == s.dev[d].ended + if e == B.Arrive(d) then 1 else 0
  {
  }

  lemma AtLeastOne(cfg: Config, s: State)
    requires Linked(cfg, s)
    ensures cfg.cpus >= 1 && |s.cpu| == cfg.cpus && |s.b.dev| == cfg.cpus + 1
  {
  }

  lemma QuietMissed(cfg: Config, s: State, e: B.Step)
    requires Linked(cfg, s) && Asked(s) && Missed(cfg, s) && Enabled(cfg, s, Barrier(e)) &&
             B.Next(s.b, e).time == s.b.time
    requires Linked(cfg, BarrierStep(cfg, s, e))
    ensures Missed(cfg, BarrierStep(cfg, s, e))
  {
    hide ConfigOk, B.Inv, B.Next, B.Enabled, BarrierStep, Linked, Enabled, Acted, Asked;
    var s' := BarrierStep(cfg, s, e);
    AtLeastOne(cfg, s);
    AtLeastOne(cfg, s');
    forall c | 0 <= c < cfg.cpus && s'.cpu[c].at == InBarrier && s'.b.dev[c].ended == s'.b.time + 1 &&
      s'.cpu[c].proc.None?
      ensures s'.cpu[c].gotAt == s'.b.time
    {
      TurnKept(cfg, s, e, c);
      if s.cpu[c].at != InBarrier { AskedHere(cfg, s, c); }
    }
  }

  lemma QuietMoving(cfg: Config, s: State, e: B.Step, base: Base)
    requires Linked(cfg, s) && Moving(cfg, s, base) && Enabled(cfg, s, Barrier(e)) && B.Next(s.b, e).time == s.b.time
    requires Linked(cfg, BarrierStep(cfg, s, e))
    ensures Moving(cfg, BarrierStep(cfg, s, e), base)
  {
    hide ConfigOk, B.Inv, B.Next, B.Enabled, BarrierStep, Linked, Enabled, Acted, Executed;
    var s' := BarrierStep(cfg, s, e);
    BarrierLoader(cfg, s, e);
    AtLeastOne(cfg, s);
    TurnKept(cfg, s, e, 0);
    assert forall x :: PcOf(s', x) == PcOf(s, x);
    if NoneRan(cfg, s) {
      forall c | 0 <= c < cfg.cpus && Acted(s'.cpu[c], s'.b.dev[c], s'.b.time) ensures s'.cpu[c].proc.None? {
        TurnKept(cfg, s, e, c);
      }
    }
  }

  lemma QuietBarrierPaced(cfg: Config, s: State, e: B.Step, base: Base)
    requires Linked(cfg, s) && Asked(s) && Paced(cfg, s, base) && Enabled(cfg, s, Barrier(e)) &&
             B.Next(s.b, e).time == s.b.time
    ensures Paced(cfg, BarrierStep(cfg, s, e), base)
  {
    hide BarrierStep, Linked, Enabled, Asked, Missed, Moving;
    BarrierLinked(cfg, s, e);
    QuietMissed(cfg, s, e);
    QuietMoving(cfg, s, e, base);
  }

  lemma AskedHere(cfg: Config, s: State, c: nat)
    requires Linked(cfg, s) && Asked(s) && c < cfg.cpus && s.cpu[c].at == ToArrive && s.cpu[c].proc.None?
    ensures s.cpu[c].gotAt == s.b.time
  {
    assert AskedOk(s.cpu[c], s.b.time, s.done, LastAdd(s));
  }

  /** The tick of the clock: the slot that ends has had its instruction, and nobody has had a turn in the next. */
  lemma TickPaced(cfg: Config, s: State, base: Base)
    requires Inv(cfg, s) && Paced(cfg, s, base) && Enabled(cfg, s, Barrier(B.Tick)) && s.b.timer.Scan? &&
             s.b.timer.k == |s.b.dev|
    ensures Paced(cfg, BarrierStep(cfg, s, B.Tick), base)
  {
    hide Placed, Accounted, Timed, Drained, Asked, ConfigOk;
    hide B.Inv, BarrierStep, Linked, Enabled, Acted, Executed, Hands;
    var s' := BarrierStep(cfg, s, B.Tick);
    BarrierLinked(cfg, s, B.Tick);
    BarrierLoader(cfg, s, B.Tick);
    TickShape(s.b);
    AtLeastOne(cfg, s);
    NextTurn(cfg, s, 0);
    if s.i == |cfg.jobs| && LastAdd(s) < s.b.time && Unfinished(cfg, s) { SomeoneRan(cfg, s); }
    forall c | 0 <= c < cfg.cpus
      ensures Acted(s'.cpu[c], s'.b.dev[c], s'.b.time) ==> s'.cpu[c].proc.None?
      ensures !(s'.cpu[c].at == InBarrier && s'.b.dev[c].ended == s'.b.time + 1)
    {
      NextTurn(cfg, s, c);
      StoppedEmpty(s, c);
    }
    assert forall x :: PcOf(s', x) == PcOf(s, x);
  }

  lemma StoppedEmpty(s: State, c: nat)
    requires Hands(s) && c < |s.cpu|
    ensures s.cpu[c].at in {Stopping, Stopped} ==> s.cpu[c].proc.None?
  {
    assert HandOk(s.cpu[c]);
  }

  lemma TickShape(s: B.State)
    requires s.timer.Scan? && s.timer.k == |s.dev|
    ensures B.TimerEnabled(s) && B.TimerStep(s).dev == s.dev && B.TimerStep(s).time == s.time + 1
  {
  }

  lemma NextTurn(cfg: Config, s: State, c: nat)
    requires Linked(cfg, s) && Enabled(cfg, s, Barrier(B.Tick)) && s.b.timer.Scan? && s.b.timer.k == |s.b.dev| &&
             c < cfg.cpus
    ensures var s' := BarrierStep(cfg, s, B.Tick);
            && s'.cpu == s.cpu && |s'.b.dev| == |s.b.dev|
            && !(s'.cpu[c].at == InBarrier && s'.b.dev[c].ended == s'.b.time + 1)
            && (Acted(s'.cpu[c], s'.b.dev[c], s'.b.time) ==> s.cpu[c].at in {Stopping, Stopped})
  {
    assert B.Settled(s.b.dev[c]) && B.DeviceOk(s.b.dev[c]);
  }

  // ---- runs ----------------------------------------------------------------------------------------------

  lemma InitPaced(cfg: Config)
    requires ConfigOk(cfg)
    ensures Paced(cfg, Init(cfg), Base(-1, 0))
  {
    InitInv(cfg);
  }

  /** Only the tick that ends a scan of all devices moves the clock. */
  lemma OnlyTick(cfg: Config, s: State, e: B.Step)
    requires Linked(cfg, s) && B.Enabled(s.b, e)
    ensures B.Next(s.b, e).time != s.b.time ==> e == B.Tick && s.b.timer.Scan? && s.b.timer.k == |s.b.dev|
  {
  }

  lemma NextPaced(cfg: Config, s: State, e: Step, base: Base)
    requires Inv(cfg, s) && Paced(cfg, s, base) && Enabled(cfg, s, e)
    ensures Paced(cfg, Next(cfg, s, e), base)
  {
    hide Linked, Placed, Hands, Accounted, Timed, Asked, Drained, BarrierStep, CpuStep, LoaderStep, Missed, Moving;
    match e
    case Barrier(e) =>
      OnlyTick(cfg, s, e);
      if B.Next(s.b, e).time == s.b.time { QuietBarrierPaced(cfg, s, e, base); } else { TickPaced(cfg, s, base); }
    case OnCpu(c) => CpuPaced(cfg, s, c, base);
    case OnLoader => LoaderPaced(cfg, s, base);
  }

  lemma {:induction false} RunPaced(cfg: Config, s: State, steps: seq<Step>, base: Base)
    requires Inv(cfg, s) && Paced(cfg, s, base) && Runs(cfg, s, steps)
    ensures Paced(cfg, RunOf(cfg, s, steps), base)
    decreases |steps|
  {
    hide Inv, Enabled, Next, Paced;
    if steps == [] {
    } else {
      NextInv(cfg, s, steps[0]);
      NextPaced(cfg, s, steps[0], base);
      RunPaced(cfg, Next(cfg, s, steps[0]), steps[1..], base);
    }
  }

  lemma ReachablePaced(cfg: Config, s: State)
    requires Reachable(cfg, s)
    ensures Paced(cfg, s, Base(-1, 0))
  {
    hide Inv, Init, Paced;
    InitInv(cfg);
    InitPaced(cfg);
    var steps :| Runs(cfg, Init(cfg), steps) && RunOf(cfg, Init(cfg), steps) == s;
    RunPaced(cfg, Init(cfg), steps, Base(-1, 0));
  }

  /** Past the slot in which the last process is due, all have been added. */
  lemma AllAdded(cfg: Config, s: State)
    requires Linked(cfg, s) && Timed(cfg, s) && cfg.jobs != [] && s.b.time > AddSlot(cfg.start, |cfg.jobs| - 1)
    ensures s.i == |cfg.jobs| && LastAdd(s) == AddSlot(cfg.start, |cfg.jobs| - 1)
  {
    var v := s.b.dev[cfg.cpus];
    assert B.DeviceOk(v);
    if s.i < |cfg.jobs| {
      AddSlotsRise(cfg.start, s.i, |cfg.jobs| - 1);
    }
  }

  /** No process has run more instructions than it has. */
  lemma PcWithin(cfg: Config, s: State)
    requires Inv(cfg, s) && s.i == |cfg.jobs|
    ensures forall y :: y in cfg.jobs ==> y in s.pc && s.pc[y] <= y.size && y.size > 0
  {
    hide ReadyOk, HandsOk, ListedOk, Sound, Linked, Asked, Drained, Timed;
    forall y | y in cfg.jobs ensures y in s.pc && s.pc[y] <= y.size && y.size > 0 {
      assert Added(cfg, s.i, y);
      assert y in s.place && AccountOk(cfg.quantum, s.cpu, s.place[y], s.pc[y], s.dispatched[y], y);
    }
  }

  /**
   Bounded completion: once the clock is past the slot of the last addition by as many slots as the processes have
   instructions in all, every process of the machine has been added and has run all of its instructions.
   */
  lemma BoundedCompletion(cfg: Config, s: State, x: Proc)
    requires Reachable(cfg, s) && x in cfg.jobs
    requires s.b.time > AddSlot(cfg.start, |cfg.jobs| - 1) + Work(cfg.jobs)
    ensures Added(cfg, s.i, x) && PcOf(s, x) == x.size
  {
    hide Enabled, Next, Init, B.Inv, Placed, Asked, Drained, Hands;
    ReachableInv(cfg, s);
    ReachablePaced(cfg, s);
    AllAdded(cfg, s);
    assert Added(cfg, s.i, x);
    PcWithin(cfg, s);
    WorkLeft(cfg.jobs, s.pc);
    assert PcOf(s, x) < x.size ==> Unfinished(cfg, s);
  }

  /** Just after the clock moved no CPU has had its turn. */
  lemma NobodyYet(cfg: Config, s: State)
    requires Linked(cfg, s) && Hands(s) && s.b.timer.Release? && s.b.timer.k == 0
    ensures NoneRan(cfg, s)
  {
    forall c | 0 <= c < cfg.cpus && Acted(s.cpu[c], s.b.dev[c], s.b.time) ensures s.cpu[c].proc.None? {
      assert B.Settled(s.b.dev[c]) && B.DeviceOk(s.b.dev[c]);
      StoppedEmpty(s, c);
    }
  }

  /** Where the count starts for a stretch of a run from `s`. */
  function BaseAt(cfg: Config, s: State): Base
  {
    Base(if s.b.timer.Release? && s.b.timer.k == 0 && LastAdd(s) < s.b.time then s.b.time - 1 else s.b.time,
         Executed(cfg.jobs, s.pc))
  }

  lemma CountedFrom(cfg: Config, s: State, s': State)
    requires LastAdd(s) <= s.b.time && Paced(cfg, s', BaseAt(cfg, s))
    requires s'.i == |cfg.jobs| && s'.addedAt == s.addedAt && Unfinished(cfg, s')
    ensures && s'.b.time - s.b.time - 1 <= Executed(cfg.jobs, s'.pc) - Executed(cfg.jobs, s.pc)
            && (s.b.timer.Release? && s.b.timer.k == 0 && LastAdd(s) < s.b.time ==>
                  s'.b.time - s.b.time <= Executed(cfg.jobs, s'.pc) - Executed(cfg.jobs, s.pc))
  {
    hide Executed, NoneRan, Linked, Missed, Unfinished;
  }

  lemma Rebased(cfg: Config, s: State)
    requires Inv(cfg, s) && Paced(cfg, s, Base(-1, 0)) && s.i == |cfg.jobs|
    ensures Paced(cfg, s, BaseAt(cfg, s)) && LastAdd(s) <= s.b.time
  {
    hide Placed, Accounted, Asked, Drained;
    if s.b.timer.Release? && s.b.timer.k == 0 { NobodyYet(cfg, s); }
    hide Executed, Linked, Missed, Hands, NoneRan, Unfinished;
  }

  /** Past the last addition nothing is added. */
  lemma {:induction false} SameAdds(cfg: Config, s: State, steps: seq<Step>)
    requires s.i == |cfg.jobs| && Runs(cfg, s, steps)
    ensures RunOf(cfg, s, steps).i == s.i && RunOf(cfg, s, steps).addedAt == s.addedAt
    decreases |steps|
  {
    hide Enabled, Next;
    if steps == [] {
    } else {
      AdditionsRecorded(cfg, s, steps[0]);
      SameAdds(cfg, Next(cfg, s, steps[0]), steps[1..]);
    }
  }

  /**
   Steady progress: over any stretch of any run after the last addition that ends with work left, there is an
   instruction for each slot that ends in it, but for a slot it starts in the middle of.
   */
  lemma EverySlotRuns(cfg: Config, s: State, steps: seq<Step>)
    requires Reachable(cfg, s) && s.i == |cfg.jobs|
    requires Runs(cfg, s, steps) && Unfinished(cfg, RunOf(cfg, s, steps))
    ensures var s' := RunOf(cfg, s, steps);
            && s'.b.time - s.b.time - 1 <= Executed(cfg.jobs, s'.pc) - Executed(cfg.jobs, s.pc)
            && (s.b.timer.Release? && s.b.timer.k == 0 && LastAdd(s) < s.b.time ==>
                  s'.b.time - s.b.time <= Executed(cfg.jobs, s'.pc) - Executed(cfg.jobs, s.pc))
  {
    hide *;
    ReachableInv(cfg, s);
    ReachablePaced(cfg, s);
    Rebased(cfg, s);
    SameAdds(cfg, s, steps);
    RunPaced(cfg, s, steps, BaseAt(cfg, s));
    CountedFrom(cfg, s, RunOf(cfg, s, steps));
  }
}
