/**
 Preemption over whole runs: how often a process leaves its ready queue, counted from the queues and the CPUs' hands,
 and how much it may run each time.
 */
module MachineTurns {
  import opened Prelude
  import opened Queue
  import opened SchedulerPolicy
  import opened Machine
  import opened MachineRuns
  import B = SlotBarrier

  /** How many steps of a run give `x` to a CPU. */
  ghost function Gets(cfg: Config, s: State, steps: seq<Step>, x: Proc): nat
    requires Runs(cfg, s, steps)
    decreases |steps|
  {
    if steps == [] then 0
    else (if Dispatches(cfg, s, steps[0], x) then 1 else 0) + Gets(cfg, Next(cfg, s, steps[0]), steps[1..], x)
  }

  /** Some CPU took `x` and has not run it since. */
  ghost predicate JustTaken(s: State, x: Proc)
  {
    exists c: nat :: HeldBy(s, c, x) && s.cpu[c].at == Recheck && s.cpu[c].timeLeft == 0
  }

  // ---- one step ------------------------------------------------------------------------------------------

  /** A process at `at` was taken and has not run since. */
  predicate Pending(cpu: seq<Cpu>, at: Place)
  {
    at.Held? && at.c < |cpu| && cpu[at.c].at == Recheck && cpu[at.c].timeLeft == 0
  }

  /** The gets that the dispatches of `x` account for, with the one it has not run on yet. */
  function Owed(s: State, x: Proc): nat
  {
    if x in s.place then DispatchedOf(s, x) + (if Pending(s.cpu, s.place[x]) then 1 else 0) else 0
  }

  lemma BarrierOwed(cfg: Config, s: State, e: B.Step, x: Proc)
    requires Inv(cfg, s) && Enabled(cfg, s, Barrier(e))
    ensures Owed(BarrierStep(cfg, s, e), x) == Owed(s, x)
  {
    BarrierLoader(cfg, s, e);
    LinkedParts(cfg, s);
    if x in s.place && s.place[x].Held? {
      var c := s.place[x].c;
      assert HandsOk(s.cpu, s.place);
      BarrierCpu(cfg, s, e, c);
      assert InStep(s.cpu[c], s.b.dev[c].phase);
    }
    hide Inv, BarrierStep, Linked, ConfigOk, B.Inv, HandsOk;
  }

  lemma LoaderOwed(cfg: Config, s: State, x: Proc)
    requires Inv(cfg, s) && Enabled(cfg, s, OnLoader)
    ensures Owed(LoaderStep(cfg, s), x) == Owed(s, x)
  {
    if s.i < |cfg.jobs| { AddedNext(cfg, s.i, s.place, Ready); }
    hide Inv, PutProc, ConfigOk, KnownOk, Added;
  }

  /** A get makes the process handed out owed one more. */
  lemma TakeOwed(cfg: Config, s: State, c: nat, missed: CpuAt, x: Proc)
    requires ConfigOk(cfg) && Placed(cfg, s) && Accounted(cfg, s) && c < |s.cpu| && s.cpu[c].proc.None?
    ensures Owed(Take(s, c, Recheck, missed, 0), x) == Owed(s, x) + if GetProc(s.sched).1 == Some(x) then 1 else 0
  {
    var r := GetProc(s.sched).1;
    if r.Some? { TakenWasReady(cfg, s); }
    assert HandsOk(s.cpu, s.place);
    hide GetProc, Sound, ReadyOk, ListedOk, KnownOk, Accounted, ConfigOk;
  }

  /** A run uses up the get that was owed, if there was one. */
  lemma RunOwed(cfg: Config, s: State, c: nat, y: Proc, x: Proc)
    requires HandsOk(s.cpu, s.place) && c < |s.cpu| && s.cpu[c].at == Recheck && s.cpu[c].proc == Some(y)
    ensures Owed(RunOn(cfg, s, c, y), x) == Owed(s, x)
  {
  }

  lemma LookShape(cfg: Config, s: State, c: nat)
    requires Enabled(cfg, s, OnCpu(c)) && s.cpu[c].at == Top && s.cpu[c].proc.Some?
    requires s.cpu[c].proc.value.prio < MAX_PRIO
    ensures var s', y := CpuStep(cfg, s, c), s.cpu[c].proc.value;
            && s'.dispatched == s.dispatched && c < |s'.cpu| && s'.cpu == s.cpu[c := s'.cpu[c]]
            && (s'.place == s.place[y := Ready] || s'.place == s.place[y := Finished] ||
                (s'.place == s.place && s'.cpu[c].timeLeft > 0))
  {
    hide PutProc, GetProc, ConfigOk, PcOf, B.Enabled, Take, RunOn;
  }

  /** A CPU that looks at the process it holds: it lets it go, or goes on with time left. */
  lemma LookOwed(cfg: Config, s: State, c: nat, x: Proc)
    requires Placed(cfg, s) && HandsOk(s.cpu, s.place) && Enabled(cfg, s, OnCpu(c))
    requires s.cpu[c].at == Top && s.cpu[c].proc.Some?
    ensures Owed(CpuStep(cfg, s, c), x) == Owed(s, x)
  {
    LetGoPlaced(cfg, s, c, s.cpu[c].proc.value);
    LookShape(cfg, s, c);
    hide Placed, ConfigOk, KnownOk, CpuStep, Enabled;
  }

  /** Whether CPU `c` is about to ask for a process. */
  predicate Asks(u: Cpu) { (u.at == Top && u.proc.None?) || u.at == AfterPut || u.at == AfterFinish }

  /** A CPU is given a process exactly by asking for one. */
  lemma DispatchIsGet(cfg: Config, s: State, c: nat, x: Proc)
    requires Enabled(cfg, s, OnCpu(c)) && HandOk(s.cpu[c])
    ensures Dispatches(cfg, s, OnCpu(c), x) <==> Asks(s.cpu[c]) && GetProc(s.sched).1 == Some(x)
  {
    var u := s.cpu[c];
    TakeGets(s, c, Recheck, if u.at == Top then ToArrive else Recheck, if u.at == AfterFinish then 0 else u.timeLeft);
    hide GetProc, PutProc, ConfigOk, B.Enabled, PcOf, Take, B.Next;
  }

  lemma Parts(cfg: Config, s: State)
    requires Inv(cfg, s)
    ensures ConfigOk(cfg) && Placed(cfg, s) && Accounted(cfg, s) && HandsOk(s.cpu, s.place) && Hands(s)
  {
  }

  lemma CpuOwed(cfg: Config, s: State, c: nat, x: Proc)
    requires Inv(cfg, s) && Enabled(cfg, s, OnCpu(c))
    ensures Owed(CpuStep(cfg, s, c), x) == Owed(s, x) + if Dispatches(cfg, s, OnCpu(c), x) then 1 else 0
  {
    hide Inv, Placed, Accounted, HandsOk, PutProc, GetProc, ConfigOk, PcOf, RunOn, Take, Owed, B.Enabled, Dispatches;
    var u := s.cpu[c];
    Parts(cfg, s);
    assert HandOk(u);
    DispatchIsGet(cfg, s, c, x);
    if Asks(u) {
      TakeOwed(cfg, s, c, if u.at == Top then ToArrive else Recheck, x);
    } else if u.at == Top {
      LookOwed(cfg, s, c, x);
    } else if u.proc.Some? {
      RunOwed(cfg, s, c, u.proc.value, x);
    } else {
      NoneOwed(cfg, s, c, x);
    }
  }

  /** A CPU that found nothing goes on without. */
  lemma NoneOwed(cfg: Config, s: State, c: nat, x: Proc)
    requires HandsOk(s.cpu, s.place) && Enabled(cfg, s, OnCpu(c)) && s.cpu[c].at == Recheck && s.cpu[c].proc.None?
    ensures Owed(CpuStep(cfg, s, c), x) == Owed(s, x)
  {
    hide PutProc, GetProc, ConfigOk, PcOf, B.Enabled, Take, RunOn;
  }

  /** Each step adds to what is owed exactly the get it makes. */
  lemma StepOwed(cfg: Config, s: State, e: Step, x: Proc)
    requires Inv(cfg, s) && Enabled(cfg, s, e)
    ensures Owed(Next(cfg, s, e), x) == Owed(s, x) + if Dispatches(cfg, s, e, x) then 1 else 0
  {
    hide Inv, Enabled, Owed, BarrierStep, CpuStep, LoaderStep;
    match e
    case Barrier(e) => BarrierOwed(cfg, s, e, x);
    case OnCpu(c) => CpuOwed(cfg, s, c, x);
    case OnLoader => LoaderOwed(cfg, s, x);
  }

  // ---- runs ----------------------------------------------------------------------------------------------

  lemma {:induction false} RunOwes(cfg: Config, s: State, steps: seq<Step>, x: Proc)
    requires Inv(cfg, s) && Runs(cfg, s, steps)
    ensures Owed(RunOf(cfg, s, steps), x) == Owed(s, x) + Gets(cfg, s, steps, x)
    decreases |steps|
  {
    hide Inv, Enabled, Next, Owed, Dispatches;
    if steps == [] {
    } else {
      NextInv(cfg, s, steps[0]);
      StepOwed(cfg, s, steps[0], x);
      RunOwes(cfg, Next(cfg, s, steps[0]), steps[1..], x);
    }
  }

  /** What is owed, in terms of the instructions run and the quantum. */
  lemma OwedInstructions(cfg: Config, s: State, x: Proc)
    requires Inv(cfg, s) && Added(cfg, s.i, x)
    ensures Owed(s, x) == DispatchedOf(s, x) + if JustTaken(s, x) then 1 else 0
    ensures PcOf(s, x) <= cfg.quantum * Owed(s, x) <= PcOf(s, x) + cfg.quantum
    ensures WaitsIn(s, x.prio, x) ==> PcOf(s, x) == cfg.quantum * Owed(s, x)
    ensures Released(s, x) ==> PcOf(s, x) == x.size && Owed(s, x) == (x.size + cfg.quantum - 1) / cfg.quantum
  {
    Parts(cfg, s);
    PlaceShows(cfg, s, x);
    assert AccountOk(cfg.quantum, s.cpu, s.place[x], s.pc[x], s.dispatched[x], x);
    hide Inv, Placed, Accounted, HandsOk, ConfigOk, Hands, Added;
    OneMore(cfg.quantum, s.dispatched[x]);
    assert s.place[x] == Ready ==> WaitsIn(s, x.prio, x);
    assert s.place[x].Held? ==> HeldBy(s, s.place[x].c, x);
    if s.place[x] == Finished { CeilingIs(x.size, cfg.quantum, s.dispatched[x]); }
  }

  lemma InitOwes(cfg: Config, x: Proc)
    requires ConfigOk(cfg)
    ensures Inv(cfg, Init(cfg)) && Owed(Init(cfg), x) == 0
  {
    InitInv(cfg);
    hide Inv;
  }

  /** Processes stay added. */
  lemma {:induction false} StaysAdded(cfg: Config, s: State, steps: seq<Step>, x: Proc)
    requires Added(cfg, s.i, x) && Runs(cfg, s, steps)
    ensures Added(cfg, RunOf(cfg, s, steps).i, x)
    decreases |steps|
  {
    hide Enabled, Next;
    if steps == [] {
    } else {
      AdditionsRecorded(cfg, s, steps[0]);
      StaysAdded(cfg, Next(cfg, s, steps[0]), steps[1..], x);
    }
  }

  /**
   Preemption: at the end of any run a process was given to a CPU - out of its ready queue - once for each dispatch, and
   once more if it was just taken; it has run at most a quantum of instructions for each time, and all of every quantum
   but the last. So one that waits has used up every quantum it was given, and one that has finished its n instructions
   left its queue exactly ceil(n / quantum) times.
   */
  lemma GetsAccount(cfg: Config, steps: seq<Step>, x: Proc)
    requires ConfigOk(cfg) && Runs(cfg, Init(cfg), steps) && Added(cfg, RunOf(cfg, Init(cfg), steps).i, x)
    ensures var s, g := RunOf(cfg, Init(cfg), steps), Gets(cfg, Init(cfg), steps, x);
            && g == DispatchedOf(s, x) + (if JustTaken(s, x) then 1 else 0)
            && PcOf(s, x) <= cfg.quantum * g <= PcOf(s, x) + cfg.quantum
            && (WaitsIn(s, x.prio, x) ==> PcOf(s, x) == cfg.quantum * g)
            && (Released(s, x) ==> PcOf(s, x) == x.size && g == (x.size + cfg.quantum - 1) / cfg.quantum)
  {
    hide *;
    InitOwes(cfg, x);
    RunInv(cfg, Init(cfg), steps);
    RunOwes(cfg, Init(cfg), steps, x);
    OwedInstructions(cfg, RunOf(cfg, Init(cfg), steps), x);
  }

  /** Over any stretch of a run a process that starts in its ready queue runs at most a quantum each time it leaves. */
  lemma TurnsBounded(cfg: Config, s: State, steps: seq<Step>, x: Proc)
    requires Reachable(cfg, s) && Added(cfg, s.i, x) && WaitsIn(s, x.prio, x)
    requires Runs(cfg, s, steps)
    ensures PcOf(RunOf(cfg, s, steps), x) - PcOf(s, x) <= cfg.quantum * Gets(cfg, s, steps, x)
  {
    hide *;
    ReachableInv(cfg, s);
    StaysAdded(cfg, s, steps, x);
    RunInv(cfg, s, steps);
    RunOwes(cfg, s, steps, x);
    OwedInstructions(cfg, s, x);
    OwedInstructions(cfg, RunOf(cfg, s, steps), x);
    Distribute(cfg.quantum, Owed(s, x), Gets(cfg, s, steps, x));
  }

  lemma Distribute(q: nat, a: nat, b: nat)
    ensures q * (a + b) == q * a + q * b
  {
  }
}
