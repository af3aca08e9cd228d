/**
 The whole simulator of os.c: the timer, the CPUs, the loader and the shared scheduler as one interleaved
 transition system. Critical sections of the scheduler and of the barrier are single steps, as are a CPU's own
 computations between them.
 */
module Machine {
  import opened Prelude
  import opened Queue
  import opened SchedulerPolicy
  import B = SlotBarrier

  /** What the machine is given: CPUs, the dispatch quantum, and the processes with their start times, in order. */
  datatype Config = Config(cpus: nat, quantum: nat, jobs: seq<Proc>, start: seq<nat>)

  ghost predicate ConfigOk(cfg: Config)
  {
    && cfg.cpus >= 1 && cfg.quantum >= 1 && |cfg.start| == |cfg.jobs| <= MAX_QUEUE_SIZE
    && NoDup(cfg.jobs)
    && forall j :: 0 <= j < |cfg.jobs| ==> cfg.jobs[j].prio < MAX_PRIO && cfg.jobs[j].size >= 1
  }

  /** The program points of cpu_routine. */
  datatype CpuAt = Top | AfterPut | AfterFinish | Recheck | ToArrive | InBarrier | Stopping | Stopped

  /** A CPU thread: its place, its `proc` and `time_left`, and when it last asked for a process. */
  datatype Cpu = Cpu(at: CpuAt, proc: Option<Proc>, timeLeft: nat, gotAt: int)

  /** The program points of ld_routine; `i` is how many processes it has added. */
  datatype LdAt = Check | LdToArrive | LdInBarrier | SetDone | Leaving | Left

  /** Where a process that was added is. */
  datatype Place = Ready | Held(c: nat) | Finished

  /**
   The state. `place`, `dispatched` and `addedAt` record history; no step reads them.
   */
  datatype State = State(
    b: B.State, cpu: seq<Cpu>, ld: LdAt, i: nat, sched: Sched, done: bool, pc: map<Proc, nat>,
    place: map<Proc, Place>, dispatched: map<Proc, nat>, addedAt: seq<nat>)

  function Init(cfg: Config): State
  {
    State(B.Init(cfg.cpus + 1), seq(cfg.cpus, _ => Cpu(Top, None, 0, -1)), if cfg.jobs == [] then SetDone else Check, 0,
          Start(), false, map[], map[], map[], [])
  }

  datatype Step = Barrier(e: B.Step) | OnCpu(c: nat) | OnLoader

  // ---- the steps -----------------------------------------------------------------------------------------

  function PcOf(s: State, x: Proc): nat { if x in s.pc then s.pc[x] else 0 }

  function DispatchedOf(s: State, x: Proc): nat { if x in s.dispatched then s.dispatched[x] else 0 }

  ghost predicate Enabled(cfg: Config, s: State, e: Step)
  {
    && ConfigOk(cfg) && |s.cpu| == cfg.cpus && |s.b.dev| == cfg.cpus + 1 && Shaped(s.sched)
    && match e
       case Barrier(e) =>
         && B.Enabled(s.b, e)
         && (e.Arrive? ==> if e.d < cfg.cpus then s.cpu[e.d].at == ToArrive else s.ld == LdToArrive)
         && (e.Detach? ==> if e.d < cfg.cpus then s.cpu[e.d].at == Stopping else s.ld == Leaving)
       case OnCpu(c) => c < cfg.cpus && s.b.dev[c].phase == B.Working &&
                        s.cpu[c].at in {Top, AfterPut, AfterFinish, Recheck}
       case OnLoader => s.b.dev[cfg.cpus].phase == B.Working && s.ld in {Check, SetDone}
  }

  function Next(cfg: Config, s: State, e: Step): State
    requires Enabled(cfg, s, e)
  {
    match e
    case Barrier(e) => BarrierStep(cfg, s, e)
    case OnCpu(c) => CpuStep(cfg, s, c)
    case OnLoader => LoaderStep(cfg, s)
  }

  /** A step of the barrier moves the thread it concerns along its program. */
  function BarrierStep(cfg: Config, s: State, e: B.Step): State
    requires Enabled(cfg, s, Barrier(e))
  {
    var s1 := s.(b := B.Next(s.b, e));
    match e
    case Arrive(d) => if d < cfg.cpus then s1.(cpu := s.cpu[d := s.cpu[d].(at := InBarrier)])
                      else s1.(ld := LdInBarrier)
    case Resume(d) =>
      if d < cfg.cpus then s1.(cpu := s.cpu[d := s.cpu[d].(at := Top)])
      else s1.(ld := if s.i < |cfg.jobs| then Check else SetDone)
    case Detach(d) => if d < cfg.cpus then s1.(cpu := s.cpu[d := s.cpu[d].(at := Stopped)]) else s1.(ld := Left)
    case _ => s1
  }

  /** get_proc by CPU `c`, which goes on at `found` or `missed` with `timeLeft` left. */
  function Take(s: State, c: nat, found: CpuAt, missed: CpuAt, timeLeft: nat): State
    requires c < |s.cpu| && Shaped(s.sched)
  {
    var (sched', r) := GetProc(s.sched);
    s.(sched := sched',
       cpu := s.cpu[c := Cpu(if r.Some? then found else missed, r, timeLeft, s.b.time)],
       place := if r.Some? then s.place[r.value := Held(c)] else s.place)
  }

  /** The part of cpu_routine from one program point to the next. */
  function CpuStep(cfg: Config, s: State, c: nat): State
    requires Enabled(cfg, s, OnCpu(c))
  {
    var u := s.cpu[c];
    match u.at
    case Top =>
      if u.proc.None? then Take(s, c, Recheck, ToArrive, u.timeLeft)
      else
        var x := u.proc.value;
        if PcOf(s, x) == x.size then
          s.(cpu := s.cpu[c := u.(at := AfterFinish, proc := None)], place := s.place[x := Finished])
        else if u.timeLeft == 0 && x.prio < MAX_PRIO then
          s.(sched := PutProc(s.sched, x), cpu := s.cpu[c := u.(at := AfterPut, proc := None)],
             place := s.place[x := Ready])
        else s.(cpu := s.cpu[c := u.(at := Recheck)])
    case AfterPut => Take(s, c, Recheck, Recheck, u.timeLeft)
    case AfterFinish => Take(s, c, Recheck, Recheck, 0)
    case _ =>
      if u.proc.None? then s.(cpu := s.cpu[c := u.(at := if s.done then Stopping else ToArrive)])
      else RunOn(cfg, s, c, u.proc.value)
  }

  /** The end of the loop body: dispatch if the quantum is used up, run one instruction, spend one unit of time. */
  function RunOn(cfg: Config, s: State, c: nat, x: Proc): State
    requires c < |s.cpu|
  {
    var u := s.cpu[c];
    var left := if u.timeLeft == 0 then cfg.quantum else u.timeLeft;
    s.(cpu := s.cpu[c := u.(at := ToArrive, timeLeft := if left > 0 then left - 1 else 0)],
       dispatched := if u.timeLeft == 0 then s.dispatched[x := DispatchedOf(s, x) + 1] else s.dispatched,
       pc := if PcOf(s, x) >= x.size then s.pc else s.pc[x := PcOf(s, x) + 1])
  }

  /** The part of ld_routine from one program point to the next. */
  function LoaderStep(cfg: Config, s: State): State
    requires Enabled(cfg, s, OnLoader)
  {
    if s.ld == SetDone then s.(done := true, ld := Leaving)
    else if s.i >= |cfg.jobs| then s.(ld := SetDone)
    else if s.b.time < cfg.start[s.i] then s.(ld := LdToArrive)
    else
      var x := cfg.jobs[s.i];
      s.(sched := PutProc(s.sched, x), ld := LdToArrive, i := s.i + 1,
         pc := s.pc[x := 0], place := s.place[x := Ready], dispatched := s.dispatched[x := 0],
         addedAt := s.addedAt + [s.b.time])
  }

  // ---- the invariant -------------------------------------------------------------------------------------

  /** `x` is one of the first `i` processes. */
  ghost predicate Added(cfg: Config, i: nat, x: Proc) { exists j :: 0 <= j < i && j < |cfg.jobs| && cfg.jobs[j] == x }

  /** Threads stand in the barrier exactly when their devices do. */
  ghost predicate Linked(cfg: Config, s: State)
  {
    && ConfigOk(cfg) && B.Inv(s.b)
    && |s.cpu| == cfg.cpus && |s.b.dev| == cfg.cpus + 1 && s.i <= |cfg.jobs|
    && (forall c :: 0 <= c < cfg.cpus ==>
          && (s.cpu[c].at == InBarrier <==> s.b.dev[c].phase == B.Waiting)
          && (s.cpu[c].at == Stopped <==> s.b.dev[c].phase == B.Detached))
    && (s.ld == LdInBarrier <==> s.b.dev[cfg.cpus].phase == B.Waiting)
    && (s.ld == Left <==> s.b.dev[cfg.cpus].phase == B.Detached)
  }

  /** Exactly the processes added have a place. */
  ghost predicate KnownOk(cfg: Config, i: nat, place: map<Proc, Place>) { forall x :: x in place <==> Added(cfg, i, x) }

  /** The ready queues hold each process whose place is there once, in the queue of its priority, and no other. */
  ghost predicate ReadyOk(ready: seq<seq<Proc>>, place: map<Proc, Place>)
  {
    && |ready| == MAX_PRIO
    && (forall p :: 0 <= p < MAX_PRIO ==> NoDup(ready[p]))
    && (forall p, x :: 0 <= p < MAX_PRIO && x in ready[p] ==> x in place && place[x] == Ready && x.prio == p)
    && (forall x :: x in place && place[x] == Ready ==> x.prio < MAX_PRIO && x in ready[x.prio])
  }

  /** A CPU holds exactly the process whose place is with it. */
  ghost predicate HandsOk(cpu: seq<Cpu>, place: map<Proc, Place>)
  {
    && (forall c :: 0 <= c < |cpu| && cpu[c].proc.Some? ==>
          cpu[c].proc.value in place && place[cpu[c].proc.value] == Held(c))
    && (forall x :: x in place && place[x].Held? ==> place[x].c < |cpu| && cpu[place[x].c].proc == Some(x))
  }

  /** The running list names each process at most once, and every process some CPU holds; finished ones linger. */
  ghost predicate ListedOk(running: seq<Proc>, place: map<Proc, Place>)
  {
    && NoDup(running)
    && (forall x :: x in running ==> x in place && place[x] != Ready)
    && (forall x :: x in place && place[x].Held? ==> x in running)
  }

  /** Every added process is in one place: its ready queue, one CPU, or done with. */
  ghost predicate Placed(cfg: Config, s: State)
  {
    && Sound(s.sched) && KnownOk(cfg, s.i, s.place) && ReadyOk(s.sched.ready, s.place)
    && HandsOk(s.cpu, s.place) && ListedOk(s.sched.running, s.place)
  }

  /** At these program points a CPU holds nothing; time left over belongs to a process held. */
  ghost predicate HandOk(u: Cpu)
  {
    && (u.proc.None? ==> u.timeLeft == 0 || u.at == AfterFinish)
    && (u.at in {AfterPut, AfterFinish, Stopping, Stopped} ==> u.proc.None?)
  }

  ghost predicate Hands(s: State) { forall c :: 0 <= c < |s.cpu| ==> HandOk(s.cpu[c]) }

  // ---- places --------------------------------------------------------------------------------------------

  lemma {:induction false} DistinctCount(xs: seq<Proc>)
    ensures |Elements(xs)| <= |xs|
  {
    if xs == [] {
    } else {
      DistinctCount(xs[1..]);
      assert Elements(xs) == {xs[0]} + Elements(xs[1..]);
    }
  }

  /** A duplicate-free list of added processes other than `x`, itself one of the jobs, has room for `x`. */
  lemma RoomFor(cfg: Config, s: State, xs: seq<Proc>, x: Proc)
    requires ConfigOk(cfg) && NoDup(xs) && x !in xs && x in cfg.jobs
    requires forall y :: y in xs ==> Added(cfg, s.i, y)
    ensures |xs| < MAX_QUEUE_SIZE && Enqueued(xs, x) == xs + [x]
  {
    var all := xs + [x];
    forall y | y in all ensures y in Elements(cfg.jobs) {
      if y in xs { assert Added(cfg, s.i, y); }
    }
    NoDupFits(all, Elements(cfg.jobs));
    DistinctCount(cfg.jobs);
  }

  lemma TakeReady(ready: seq<seq<Proc>>, place: map<Proc, Place>, p: nat, c: nat)
    requires ReadyOk(ready, place) && p < MAX_PRIO && ready[p] != []
    ensures var x := ready[p][0]; ReadyOk(ready[p := ready[p][1..]], place[x := Held(c)])
  {
    var x := ready[p][0];
    var ready' := ready[p := ready[p][1..]];
    assert ready[p] == [x] + ready[p][1..] && x in ready[p];
    forall q, y | 0 <= q < MAX_PRIO && y in ready'[q] ensures y in ready[q] && y != x {}
  }

  lemma TakeHands(cpu: seq<Cpu>, place: map<Proc, Place>, c: nat, u: Cpu, x: Proc)
    requires HandsOk(cpu, place) && c < |cpu| && cpu[c].proc.None? && u.proc == Some(x) && x in place && !place[x].Held?
    ensures HandsOk(cpu[c := u], place[x := Held(c)])
  {
  }

  lemma TakeListed(running: seq<Proc>, place: map<Proc, Place>, c: nat, x: Proc)
    requires ListedOk(running, place) && x in place && place[x] == Ready
    ensures ListedOk(running + [x], place[x := Held(c)])
  {
  }

  /** A get moves the front of one ready queue into the hands of CPU `c`; nothing is dropped. */
  lemma TakePlaced(cfg: Config, s: State, c: nat, found: CpuAt, missed: CpuAt, timeLeft: nat)
    requires ConfigOk(cfg) && Placed(cfg, s) && c < |s.cpu| && s.cpu[c].proc.None?
    ensures Placed(cfg, Take(s, c, found, missed, timeLeft))
  {
    var s' := Take(s, c, found, missed, timeLeft);
    GetSound(s.sched);
    if !AllEmpty(s.sched.ready) {
      FrontServed(s.sched);
      var p := Chosen(s.sched);
      var x := s.sched.ready[p][0];
      assert x in s.sched.ready[p] && x in s.place && Added(cfg, s.i, x);
      RunningRoom(cfg, s, x);
      TakeReady(s.sched.ready, s.place, p, c);
      TakeHands(s.cpu, s.place, c, s'.cpu[c], x);
      TakeListed(s.sched.running, s.place, c, x);
      hide ReadyOk, HandsOk, ListedOk, AllEmpty, Chosen, Sound;
    }
  }

  lemma RunningRoom(cfg: Config, s: State, x: Proc)
    requires ConfigOk(cfg) && KnownOk(cfg, s.i, s.place) && ListedOk(s.sched.running, s.place) && x in s.place &&
             s.place[x] == Ready
    ensures Enqueued(s.sched.running, x) == s.sched.running + [x]
  {
    assert Added(cfg, s.i, x);
    RoomFor(cfg, s, s.sched.running, x);
  }

  lemma PutReady(ready: seq<seq<Proc>>, place: map<Proc, Place>, x: Proc)
    requires ReadyOk(ready, place) && x.prio < MAX_PRIO && (x in place ==> place[x] != Ready)
    ensures ReadyOk(ready[x.prio := ready[x.prio] + [x]], place[x := Ready])
  {
    var ready' := ready[x.prio := ready[x.prio] + [x]];
    assert x !in ready[x.prio];
    forall q, y | 0 <= q < MAX_PRIO && y in ready'[q] ensures (y == x && q == x.prio) || y in ready[q] {}
    forall y: Proc | y.prio < MAX_PRIO && y in ready[y.prio] ensures y in ready'[y.prio] {}
  }

  lemma PutListed(running: seq<Proc>, place: map<Proc, Place>, x: Proc)
    requires ListedOk(running, place)
    ensures ListedOk(Purged(running, x), place[x := Ready])
  {
    PurgedOthers(running, x);
  }

  /** The queue a process joins has room for it. */
  lemma ReadyRoom(cfg: Config, s: State, x: Proc)
    requires ConfigOk(cfg) && KnownOk(cfg, s.i, s.place) && ReadyOk(s.sched.ready, s.place) && x in cfg.jobs
    requires x.prio < MAX_PRIO && (x in s.place ==> s.place[x] != Ready)
    ensures Enqueued(s.sched.ready[x.prio], x) == s.sched.ready[x.prio] + [x]
  {
    forall y | y in s.sched.ready[x.prio] ensures Added(cfg, s.i, y) { assert y in s.place; }
    RoomFor(cfg, s, s.sched.ready[x.prio], x);
  }

  /** A process joining the ready queues, from a CPU's hands or from outside, is dropped nowhere. */
  lemma JoinPlaced(cfg: Config, s: State, x: Proc)
    requires ConfigOk(cfg) && Placed(cfg, s) && x in cfg.jobs && x.prio < MAX_PRIO &&
             (x in s.place ==> s.place[x] != Ready)
    ensures var t, place' := PutProc(s.sched, x), s.place[x := Ready];
            Sound(t) && ReadyOk(t.ready, place') && ListedOk(t.running, place')
  {
    PutSound(s.sched, x);
    ReadyRoom(cfg, s, x);
    PutReady(s.sched.ready, s.place, x);
    PutListed(s.sched.running, s.place, x);
    hide ReadyOk, ListedOk, Sound;
  }

  /** When a CPU lets go of its process, the hands still agree with the places. */
  lemma LetGo(cpu: seq<Cpu>, place: map<Proc, Place>, c: nat, u: Cpu, x: Proc, to_: Place)
    requires HandsOk(cpu, place) && c < |cpu| && cpu[c].proc == Some(x) && u.proc.None? && !to_.Held?
    ensures HandsOk(cpu[c := u], place[x := to_])
  {
  }

  lemma SameHands(cpu: seq<Cpu>, place: map<Proc, Place>, c: nat, u: Cpu)
    requires HandsOk(cpu, place) && c < |cpu| && u.proc == cpu[c].proc
    ensures HandsOk(cpu[c := u], place)
  {
  }

  lemma FinishPlaces(s: State, x: Proc, c: nat)
    requires ReadyOk(s.sched.ready, s.place) && ListedOk(s.sched.running, s.place) && x in s.place &&
             s.place[x] == Held(c)
    ensures ReadyOk(s.sched.ready, s.place[x := Finished]) && ListedOk(s.sched.running, s.place[x := Finished])
  {
  }

  /** A CPU that is done with its process, or puts it back. */
  lemma LetGoPlaced(cfg: Config, s: State, c: nat, x: Proc)
    requires ConfigOk(cfg) && Placed(cfg, s) && c < |s.cpu| && s.cpu[c].proc == Some(x)
    ensures s.place.Keys == (s.place[x := Finished]).Keys == (s.place[x := Ready]).Keys && x in cfg.jobs &&
            x.prio < MAX_PRIO
    ensures KnownOk(cfg, s.i, s.place[x := Finished]) && KnownOk(cfg, s.i, s.place[x := Ready])
    ensures s.place[x] == Held(c)
  {
    assert x in s.place && s.place[x] == Held(c) && Added(cfg, s.i, x);
  }

  lemma FinishPlaced(cfg: Config, s: State, c: nat, x: Proc, u: Cpu)
    requires ConfigOk(cfg) && Placed(cfg, s) && c < |s.cpu| && s.cpu[c].proc == Some(x) && u.proc.None?
    ensures Placed(cfg, s.(cpu := s.cpu[c := u], place := s.place[x := Finished]))
  {
    hide ReadyOk, HandsOk, ListedOk, Sound, KnownOk;
    LetGoPlaced(cfg, s, c, x);
    LetGo(s.cpu, s.place, c, u, x, Finished);
    FinishPlaces(s, x, c);
  }

  lemma PutBackPlaced(cfg: Config, s: State, c: nat, x: Proc, u: Cpu)
    requires ConfigOk(cfg) && Placed(cfg, s) && c < |s.cpu| && s.cpu[c].proc == Some(x) && u.proc.None? &&
             x.prio < MAX_PRIO
    ensures Placed(cfg, s.(sched := PutProc(s.sched, x), cpu := s.cpu[c := u], place := s.place[x := Ready]))
  {
    hide ReadyOk, HandsOk, ListedOk, Sound, KnownOk;
    LetGoPlaced(cfg, s, c, x);
    LetGo(s.cpu, s.place, c, u, x, Ready);
    JoinPlaced(cfg, s, x);
  }

  lemma CpuPlaced(cfg: Config, s: State, c: nat)
    requires Linked(cfg, s) && Placed(cfg, s) && Hands(s) && Enabled(cfg, s, OnCpu(c))
    ensures Placed(cfg, CpuStep(cfg, s, c))
  {
    hide ReadyOk, HandsOk, ListedOk, Sound, KnownOk, GetProc, PutProc, Chosen, AllEmpty, B.Inv;
    var u, s' := s.cpu[c], CpuStep(cfg, s, c);
    if (u.at == Top && u.proc.None?) || u.at == AfterPut || u.at == AfterFinish {
      TakePlaced(cfg, s, c, Recheck, if u.at == Top then ToArrive else Recheck,
                 if u.at == AfterFinish then 0 else u.timeLeft);
    } else if u.at == Top && (PcOf(s, u.proc.value) == u.proc.value.size || u.timeLeft == 0) {
      var x := u.proc.value;
      LetGoPlaced(cfg, s, c, x);
      if PcOf(s, x) == x.size {
        FinishPlaced(cfg, s, c, x, s'.cpu[c]);
      } else {
        PutBackPlaced(cfg, s, c, x, s'.cpu[c]);
      }
    } else {
      SameHands(s.cpu, s.place, c, s'.cpu[c]);
    }
  }

  lemma AddedNext(cfg: Config, i: nat, place: map<Proc, Place>, at: Place)
    requires ConfigOk(cfg) && KnownOk(cfg, i, place) && i < |cfg.jobs|
    ensures cfg.jobs[i] !in place && KnownOk(cfg, i + 1, place[cfg.jobs[i] := at])
  {
    var x := cfg.jobs[i];
    assert Added(cfg, i + 1, x);
    forall y | y != x ensures Added(cfg, i + 1, y) == Added(cfg, i, y) {}
  }

  lemma LoaderPlaced(cfg: Config, s: State)
    requires Linked(cfg, s) && Placed(cfg, s) && Enabled(cfg, s, OnLoader)
    ensures Placed(cfg, LoaderStep(cfg, s))
  {
    hide ReadyOk, ListedOk, Sound, KnownOk, PutProc, B.Inv;
    var s' := LoaderStep(cfg, s);
    if s'.i > s.i {
      var x := cfg.jobs[s.i];
      AddedNext(cfg, s.i, s.place, Ready);
      JoinPlaced(cfg, s, x);
      assert HandsOk(s.cpu, s.place[x := Ready]);
    }
  }

  lemma BarrierPlaced(cfg: Config, s: State, e: B.Step)
    requires Linked(cfg, s) && Placed(cfg, s) && Enabled(cfg, s, Barrier(e))
    ensures Placed(cfg, BarrierStep(cfg, s, e))
  {
    hide ReadyOk, HandsOk, ListedOk, Sound, KnownOk, B.Inv, B.Next;
    if (e.Arrive? || e.Resume? || e.Detach?) && e.d < cfg.cpus {
      SameHands(s.cpu, s.place, e.d, BarrierStep(cfg, s, e).cpu[e.d]);
    }
  }
}
