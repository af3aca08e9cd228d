/**
 How long the machine can go on without its clock moving: every step brings a thread or the timer forward along a path
 of bounded length through the slot, so runs that are long enough reach every slot, and with it the end of all work.
 */
module MachineClock {
  import opened Prelude
  import opened Queue
  import opened SchedulerPolicy
  import opened Machine
  import opened MachineRuns
  import opened MachineProgress
  import B = SlotBarrier

  // ---- where everything stands ---------------------------------------------------------------------------

  /** How far along its slot a CPU is. */
  function CpuMark(at: CpuAt): nat
  {
    match at
    case InBarrier => 0
    case Top => 1
    case AfterPut => 2
    case AfterFinish => 2
    case Recheck => 3
    case ToArrive => 4
    case Stopping => 4
    case Stopped => 5
  }

  function LoaderMark(at: LdAt): nat
  {
    match at
    case LdInBarrier => 0
    case Check => 1
    case SetDone => 2
    case Leaving => 3
    case LdToArrive => 4
    case Left => 5
  }

  /** How far the timer is, of `n` devices, since it last moved the clock. */
  function TimerMark(timer: B.Timer, n: nat): nat
  {
    match timer
    case Release(k, _) => k
    case Head => n + 1
    case Gone(_) => n + 2
    case Scan(k, _) => n + 2 + k
  }

  /** The marks of the first `k` CPUs, with five for each slot they ended. */
  function CpuRank(cpu: seq<Cpu>, dev: seq<B.Device>, k: nat): nat
    requires k <= |cpu| && k <= |dev|
  {
    if k == 0 then 0 else CpuRank(cpu, dev, k - 1) + 5 * dev[k - 1].ended + CpuMark(cpu[k - 1].at)
  }

  function LoaderRank(s: State, d: nat): nat
    requires d < |s.b.dev|
  {
    5 * s.b.dev[d].ended + LoaderMark(s.ld)
  }

  function TimerRank(b: B.State): nat { (2 * |b.dev| + 3) * b.time + TimerMark(b.timer, |b.dev|) }

  function Rank(cfg: Config, s: State): nat
    requires |s.cpu| == cfg.cpus && |s.b.dev| == cfg.cpus + 1
  {
    CpuRank(s.cpu, s.b.dev, cfg.cpus) + LoaderRank(s, cfg.cpus) + TimerRank(s.b)
  }

  /** If no CPU goes back, the marks do not fall; if one of the first `k` goes forward, they rise. */
  lemma {:induction false} CpuRankRises(cpu: seq<Cpu>, dev: seq<B.Device>, cpu': seq<Cpu>, dev': seq<B.Device>, k: nat,
                                        c: nat)
    requires k <= |cpu| == |cpu'| && k <= |dev| == |dev'|
    requires forall j :: 0 <= j < k && j != c ==> cpu'[j].at == cpu[j].at && dev'[j].ended == dev[j].ended
    requires c < k ==> 5 * dev[c].ended + CpuMark(cpu[c].at) < 5 * dev'[c].ended + CpuMark(cpu'[c].at)
    ensures CpuRank(cpu', dev', k) >= CpuRank(cpu, dev, k) + if c < k then 1 else 0
  {
    if k == 0 {
    } else {
      CpuRankRises(cpu, dev, cpu', dev', k - 1, c);
    }
  }

  // ---- every step goes forward ---------------------------------------------------------------------------

  lemma OneMoreTime(n: nat, t: nat)
    ensures (2 * n + 3) * (t + 1) == (2 * n + 3) * t + 2 * n + 3
  {
  }

  lemma TimerForward(b: B.State)
    requires B.Inv(b) && B.TimerEnabled(b)
    ensures var b' := B.TimerStep(b);
            && |b'.dev| == |b.dev| && TimerRank(b') > TimerRank(b)
            && forall d :: 0 <= d < |b.dev| ==> b'.dev[d].ended == b.dev[d].ended
  {
    OneMoreTime(|b.dev|, b.time);
  }

  /** Where a CPU's own step takes it. */
  lemma CpuGoes(cfg: Config, s: State, c: nat)
    requires Enabled(cfg, s, OnCpu(c))
    ensures var at, s' := s.cpu[c].at, CpuStep(cfg, s, c);
            && c < |s'.cpu|
            && (at == Top ==> s'.cpu[c].at in {AfterPut, AfterFinish, Recheck, ToArrive})
            && (at in {AfterPut, AfterFinish} ==> s'.cpu[c].at == Recheck)
            && (at == Recheck ==> s'.cpu[c].at in {ToArrive, Stopping})
  {
    var u := s.cpu[c];
    TakeGets(s, c, Recheck, if u.at == Top then ToArrive else Recheck, if u.at == AfterFinish then 0 else u.timeLeft);
    hide GetProc, PutProc, ConfigOk, PcOf, B.Enabled, Take;
  }

  lemma CpuForward(cfg: Config, s: State, c: nat)
    requires Enabled(cfg, s, OnCpu(c))
    ensures c < |CpuStep(cfg, s, c).cpu| && CpuMark(CpuStep(cfg, s, c).cpu[c].at) > CpuMark(s.cpu[c].at)
  {
    CpuGoes(cfg, s, c);
    hide CpuStep, ConfigOk, B.Enabled;
  }

  lemma LoaderForward(cfg: Config, s: State)
    requires Enabled(cfg, s, OnLoader)
    ensures var s' := LoaderStep(cfg, s);
            s'.cpu == s.cpu && s'.b == s.b && LoaderMark(s'.ld) > LoaderMark(s.ld)
  {
    hide PutProc, ConfigOk;
  }

  /** A barrier step of one device takes the CPU thread it concerns forward, and no other. */
  lemma DeviceCpu(cfg: Config, s: State, e: B.Step, c: nat)
    requires Linked(cfg, s) && Enabled(cfg, s, Barrier(e)) && !e.Tick? && c < cfg.cpus
    ensures var s' := BarrierStep(cfg, s, e);
            && |s'.cpu| == cfg.cpus && |s'.b.dev| == cfg.cpus + 1
            && if e.Stop? || e.d != c then s'.cpu[c].at == s.cpu[c].at && s'.b.dev[c].ended == s.b.dev[c].ended
               else 5 * s.b.dev[c].ended + CpuMark(s.cpu[c].at) < 5 * s'.b.dev[c].ended + CpuMark(s'.cpu[c].at)
  {
    BarrierCpu(cfg, s, e, c);
    BarrierLoader(cfg, s, e);
    EndedOnArrival(s.b, e, c);
    LinkedParts(cfg, s);
    assert InStep(s.cpu[c], s.b.dev[c].phase);
    hide BarrierStep, B.Next, B.Inv, Linked, ConfigOk;
  }

  lemma DeviceLoader(cfg: Config, s: State, e: B.Step)
    requires Linked(cfg, s) && Enabled(cfg, s, Barrier(e)) && !e.Tick?
    ensures var s', n := BarrierStep(cfg, s, e), cfg.cpus;
            && |s'.b.dev| == n + 1 && TimerRank(s'.b) == TimerRank(s.b)
            && LoaderRank(s', n) >= LoaderRank(s, n) + if !e.Stop? && e.d >= n then 1 else 0
  {
    BarrierLoader(cfg, s, e);
    EndedOnArrival(s.b, e, cfg.cpus);
    LinkedParts(cfg, s);
    hide BarrierStep, B.Inv, Linked, ConfigOk;
  }

  /** A barrier step of one device takes its thread forward. */
  lemma DeviceForward(cfg: Config, s: State, e: B.Step)
    requires Linked(cfg, s) && Enabled(cfg, s, Barrier(e)) && !e.Tick?
    ensures var s' := BarrierStep(cfg, s, e);
            && |s'.cpu| == cfg.cpus && |s'.b.dev| == cfg.cpus + 1
            && Rank(cfg, s') >= Rank(cfg, s) + if e == B.Stop then 0 else 1
  {
    hide BarrierStep, B.Inv, Linked, ConfigOk, Enabled, LoaderRank, TimerRank, CpuMark;
    var s', n := BarrierStep(cfg, s, e), cfg.cpus;
    AtLeastOne(cfg, s);
    DeviceCpu(cfg, s, e, 0);
    DeviceLoader(cfg, s, e);
    var c := if e.Stop? then n else e.d;
    forall j | 0 <= j < n && j != c ensures s'.cpu[j].at == s.cpu[j].at && s'.b.dev[j].ended == s.b.dev[j].ended {
      DeviceCpu(cfg, s, e, j);
    }
    if c < n { DeviceCpu(cfg, s, e, c); }
    CpuRankRises(s.cpu, s.b.dev, s'.cpu, s'.b.dev, n, c);
  }

  /** Every step of the machine but stopping the timer raises the rank. */
  lemma StepForward(cfg: Config, s: State, e: Step)
    requires Linked(cfg, s) && Enabled(cfg, s, e)
    ensures var s' := Next(cfg, s, e);
            && |s'.cpu| == cfg.cpus && |s'.b.dev| == cfg.cpus + 1
            && Rank(cfg, s') >= Rank(cfg, s) + if e == Barrier(B.Stop) then 0 else 1
  {
    var s', n := Next(cfg, s, e), cfg.cpus;
    match e
    case Barrier(e) =>
      if e.Tick? {
        TimerForward(s.b);
        CpuRankRises(s.cpu, s.b.dev, s'.cpu, s'.b.dev, n, n);
      } else {
        DeviceForward(cfg, s, e);
      }
    case OnCpu(c) =>
      CpuAlone(cfg, s, c);
      CpuForward(cfg, s, c);
      CpuRankRises(s.cpu, s.b.dev, s'.cpu, s'.b.dev, n, c);
    case OnLoader =>
      LoaderForward(cfg, s);
  }

  // ---- no rank beyond the slot ---------------------------------------------------------------------------

  /** No thread is further than the end of the clock's slot. */
  lemma ThreadAtMost(cfg: Config, s: State, d: nat)
    requires Linked(cfg, s) && d <= cfg.cpus
    ensures d < cfg.cpus ==> 5 * s.b.dev[d].ended + CpuMark(s.cpu[d].at) <= 5 * s.b.time + 5
    ensures d == cfg.cpus ==> LoaderRank(s, d) <= 5 * s.b.time + 5
  {
    assert B.DeviceOk(s.b.dev[d]);
  }

  lemma {:induction false} CpuRankAtMost(cfg: Config, s: State, k: nat)
    requires Linked(cfg, s) && k <= cfg.cpus
    ensures CpuRank(s.cpu, s.b.dev, k) <= k * (5 * s.b.time + 5)
  {
    if k == 0 {
    } else {
      CpuRankAtMost(cfg, s, k - 1);
      ThreadAtMost(cfg, s, k - 1);
      assert k * (5 * s.b.time + 5) == (k - 1) * (5 * s.b.time + 5) + 5 * s.b.time + 5;
    }
  }

  lemma AllMarks(n: nat, t: nat)
    ensures n * (5 * t + 5) + 5 * t + 5 + (2 * (n + 1) + 3) * t + 2 * n + 4 == (7 * n + 10) * t + 7 * n + 9
  {
  }

  lemma RankAtMost(cfg: Config, s: State)
    requires Linked(cfg, s)
    ensures Rank(cfg, s) <= (7 * cfg.cpus + 10) * s.b.time + 7 * cfg.cpus + 9
  {
    var n, t := cfg.cpus, s.b.time;
    CpuRankAtMost(cfg, s, n);
    ThreadAtMost(cfg, s, n);
    assert TimerMark(s.b.timer, n + 1) <= 2 * n + 4;
    AllMarks(n, t);
    hide CpuRank, LoaderRank, TimerMark, Linked;
  }

  lemma {:induction false} FirstRank(cpu: seq<Cpu>, dev: seq<B.Device>, k: nat)
    requires k <= |cpu| && k <= |dev|
    requires forall c :: 0 <= c < k ==> cpu[c].at == Top && dev[c].ended == 0
    ensures CpuRank(cpu, dev, k) == k
  {
    if k == 0 {
    } else {
      FirstRank(cpu, dev, k - 1);
    }
  }

  // ---- runs ----------------------------------------------------------------------------------------------

  /** How many of the steps are other than stopping the timer. */
  function Moves(steps: seq<Step>): nat
  {
    if steps == [] then 0 else (if steps[0] == Barrier(B.Stop) then 0 else 1) + Moves(steps[1..])
  }

  lemma {:induction false} RunForward(cfg: Config, s: State, steps: seq<Step>)
    requires Inv(cfg, s) && Runs(cfg, s, steps)
    ensures var s' := RunOf(cfg, s, steps);
            && Linked(cfg, s') && |s.cpu| == cfg.cpus && |s.b.dev| == cfg.cpus + 1
            && Rank(cfg, s') >= Rank(cfg, s) + Moves(steps)
    decreases |steps|
  {
    hide Enabled, Next, Rank;
    if steps == [] {
    } else {
      NextInv(cfg, s, steps[0]);
      StepForward(cfg, s, steps[0]);
      RunForward(cfg, Next(cfg, s, steps[0]), steps[1..]);
    }
  }

  /** The clock moves: a run in which it stands at t has taken at most (7n + 10)t + 5n + 6 steps, on n CPUs. */
  lemma ClockMoves(cfg: Config, steps: seq<Step>)
    requires ConfigOk(cfg) && Runs(cfg, Init(cfg), steps)
    ensures Moves(steps) <= (7 * cfg.cpus + 10) * RunOf(cfg, Init(cfg), steps).b.time + 5 * cfg.cpus + 6
  {
    InitInv(cfg);
    RunForward(cfg, Init(cfg), steps);
    FirstRank(Init(cfg).cpu, Init(cfg).b.dev, cfg.cpus);
    RankAtMost(cfg, RunOf(cfg, Init(cfg), steps));
    assert Rank(cfg, Init(cfg)) >= 2 * cfg.cpus + 3;
  }

  /**
   Every run finishes: whatever threads are scheduled when, a run of more steps than this has added every process of
   the machine and run all of its instructions.
   */
  lemma EveryRunFinishes(cfg: Config, steps: seq<Step>, x: Proc)
    requires ConfigOk(cfg) && x in cfg.jobs && Runs(cfg, Init(cfg), steps)
    requires Moves(steps) >
             (7 * cfg.cpus + 10) * (AddSlot(cfg.start, |cfg.jobs| - 1) + Work(cfg.jobs)) + 5 * cfg.cpus + 6
    ensures var s := RunOf(cfg, Init(cfg), steps); Added(cfg, s.i, x) && PcOf(s, x) == x.size
  {
    var s := RunOf(cfg, Init(cfg), steps);
    ClockMoves(cfg, steps);
    assert Reachable(cfg, s);
    hide Runs, RunOf, Init, Moves, AddSlot, Work, Reachable, ConfigOk;
    var due := AddSlot(cfg.start, |cfg.jobs| - 1) + Work(cfg.jobs);
    if s.b.time <= due { Monotone(7 * cfg.cpus + 10, s.b.time, due); }
    BoundedCompletion(cfg, s, x);
  }

  /** A run that can go on no further but by stopping the timer has finished every process of the machine. */
  lemma EndIsCompletion(cfg: Config, s: State, x: Proc)
    requires Reachable(cfg, s) && x in cfg.jobs
    requires forall e :: Enabled(cfg, s, e) ==> e == Barrier(B.Stop)
    ensures Added(cfg, s.i, x) && PcOf(s, x) == x.size
  {
    ReachableInv(cfg, s);
    if !s.b.timer.Gone? {
      var e := MachineNeverStuck(cfg, s);
    } else if Added(cfg, s.i, x) && PcOf(s, x) >= x.size {
      DispatchAccounting(cfg, s, x);
    } else {
      var c := NoAbandonedWork(cfg, s, x);
    }
  }
}
