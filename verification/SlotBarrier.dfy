/**
 The slot barrier of timer.c: any number of devices and the timer thread as an interleaved transition system.
 Every critical section is one step; a condition wait is a guard on the step that ends it.
 */
module SlotBarrier {

  /** Where a device stands: working in a slot, waiting in next_slot with its arrival recorded, or detached. */
  datatype Phase = Working | Waiting | Detached

  /** A device's flags as in timer_id_t, and how many slots it has ended and been released from. */
  datatype Device = Device(phase: Phase, done: bool, fsh: bool, ended: nat, released: nat)

  /**
   Where the timer stands: at the head of its loop, about to look at device `k` with `fsh` finished ones among
   those seen, about to release device `k` with the count the scan ended with, or gone.
   */
  datatype Timer = Head | Scan(k: nat, fsh: nat) | Release(k: nat, fsh: nat) | Gone(finished: bool)

  datatype State = State(time: nat, stop: bool, timer: Timer, dev: seq<Device>)

  datatype Step = Arrive(d: nat) | Resume(d: nat) | Detach(d: nat) | Stop | Tick

  function Init(n: nat): State
  {
    State(0, false, Head, seq(n, _ => Device(Working, false, false, 0, 0)))
  }

  // ---- the steps -----------------------------------------------------------------------------------------

  predicate Enabled(s: State, e: Step)
  {
    match e
    case Arrive(d) => d < |s.dev| && s.dev[d].phase == Working
    case Resume(d) => d < |s.dev| && s.dev[d].phase == Waiting && !s.dev[d].done
    case Detach(d) => d < |s.dev| && s.dev[d].phase == Working
    case Stop => forall d :: 0 <= d < |s.dev| ==> s.dev[d].phase == Detached
    case Tick => TimerEnabled(s)
  }

  /** The timer waits only for a device that has neither arrived nor finished. */
  predicate TimerEnabled(s: State)
  {
    match s.timer
    case Scan(k, _) => k < |s.dev| ==> s.dev[k].done || s.dev[k].fsh
    case Gone(_) => false
    case _ => true
  }

  function Next(s: State, e: Step): State
    requires Enabled(s, e)
  {
    match e
    case Arrive(d) => s.(dev := s.dev[d := s.dev[d].(phase := Waiting, done := true, ended := s.dev[d].ended + 1)])
    case Resume(d) => s.(dev := s.dev[d := s.dev[d].(phase := Working)])
    case Detach(d) => s.(dev := s.dev[d := s.dev[d].(phase := Detached, fsh := true)])
    case Stop => s.(stop := true)
    case Tick => TimerStep(s)
  }

  function TimerStep(s: State): State
    requires TimerEnabled(s)
  {
    match s.timer
    case Head => s.(timer := if s.stop then Gone(false) else Scan(0, 0))
    case Scan(k, fsh) =>
      if k < |s.dev| then s.(timer := Scan(k + 1, fsh + if s.dev[k].fsh then 1 else 0))
      else s.(time := s.time + 1, timer := Release(0, fsh))
    case Release(k, fsh) =>
      if k < |s.dev| then s.(timer := Release(k + 1, fsh),
                             dev := s.dev[k := s.dev[k].(done := false, released := s.dev[k].released + 1)])
      else s.(timer := if fsh == |s.dev| then Gone(true) else Head)
  }

  // ---- the invariant -------------------------------------------------------------------------------------

  /** A device that has done its part of the current slot, or left. */
  predicate Settled(v: Device) { (v.phase == Waiting && v.done) || v.phase == Detached }

  predicate DeviceOk(v: Device)
  {
    && (v.fsh <==> v.phase == Detached)
    && (v.phase == Working ==> !v.done && v.ended == v.released)
    && (v.phase == Waiting ==> v.ended == v.released + if v.done then 1 else 0)
    && (v.phase == Detached ==> v.ended <= v.released)
  }

  /** How many of the first `k` devices are detached. */
  function DetachedAmong(dev: seq<Device>, k: nat): nat
    requires k <= |dev|
  {
    if k == 0 then 0 else DetachedAmong(dev, k - 1) + if dev[k - 1].phase == Detached then 1 else 0
  }

  /** Every device has been released once for each tick of the clock. */
  ghost predicate AllReleased(s: State) { forall d :: 0 <= d < |s.dev| ==> s.dev[d].released == s.time }

  ghost predicate AllDetached(s: State) { forall d :: 0 <= d < |s.dev| ==> s.dev[d].phase == Detached }

  ghost predicate TimerOk(s: State)
  {
    match s.timer
    case Head => AllReleased(s)
    case Scan(k, fsh) =>
      k <= |s.dev| && AllReleased(s) && fsh == DetachedAmong(s.dev, k) && forall d :: 0 <= d < k ==> Settled(s.dev[d])
    case Release(k, fsh) =>
      && k <= |s.dev| && (fsh == |s.dev| ==> AllDetached(s))
      && (forall d :: 0 <= d < k ==> s.dev[d].released == s.time)
      && (forall d :: k <= d < |s.dev| ==> s.dev[d].released + 1 == s.time && Settled(s.dev[d]))
    case Gone(_) => AllReleased(s) && AllDetached(s)
  }

  ghost predicate Inv(s: State)
  {
    && (forall d :: 0 <= d < |s.dev| ==> DeviceOk(s.dev[d]))
    && (s.stop ==> AllDetached(s))
    && TimerOk(s)
  }

  lemma InitInv(n: nat)
    ensures Inv(Init(n))
  {
  }

  lemma {:induction false} DetachedAmongSame(dev: seq<Device>, dev': seq<Device>, k: nat)
    requires k <= |dev| == |dev'| && forall d :: 0 <= d < k ==> dev'[d].phase == dev[d].phase
    ensures DetachedAmong(dev', k) == DetachedAmong(dev, k)
  {
    if k == 0 {
    } else {
      DetachedAmongSame(dev, dev', k - 1);
    }
  }

  lemma {:induction false} DetachedAmongAll(dev: seq<Device>, k: nat)
    requires k <= |dev|
    ensures DetachedAmong(dev, k) <= k
    ensures DetachedAmong(dev, k) == k <==> forall d :: 0 <= d < k ==> dev[d].phase == Detached
  {
    if k == 0 {
    } else {
      DetachedAmongAll(dev, k - 1);
    }
  }

  lemma DeviceStepInv(s: State, e: Step)
    requires Inv(s) && Enabled(s, e) && !e.Tick?
    ensures Inv(Next(s, e))
  {
    if s.timer.Scan? {
      DetachedAmongSame(s.dev, Next(s, e).dev, s.timer.k);
    }
  }

  lemma TimerStepInv(s: State)
    requires Inv(s) && TimerEnabled(s)
    ensures Inv(TimerStep(s))
  {
    if s.timer.Scan? && s.timer.k == |s.dev| {
      DetachedAmongAll(s.dev, |s.dev|);
    }
  }

  lemma NextInv(s: State, e: Step)
    requires Inv(s) && Enabled(s, e)
    ensures Inv(Next(s, e))
  {
    if e.Tick? { TimerStepInv(s); } else { DeviceStepInv(s, e); }
  }

  // ---- runs ----------------------------------------------------------------------------------------------

  /** The steps can be taken one after the other. */
  predicate Runs(s: State, steps: seq<Step>)
    decreases |steps|
  {
    steps == [] || (Enabled(s, steps[0]) && Runs(Next(s, steps[0]), steps[1..]))
  }

  function RunOf(s: State, steps: seq<Step>): State
    requires Runs(s, steps)
    decreases |steps|
  {
    if steps == [] then s else RunOf(Next(s, steps[0]), steps[1..])
  }

  lemma {:induction false} RunInv(s: State, steps: seq<Step>)
    requires Inv(s) && Runs(s, steps)
    ensures Inv(RunOf(s, steps))
    decreases |steps|
  {
    if steps == [] {
    } else {
      NextInv(s, steps[0]);
      RunInv(Next(s, steps[0]), steps[1..]);
    }
  }

  /**
   Barrier safety: in every reachable state, a device that has been let into slot `t` - released `t` times - finds
   every device not detached with slot `t - 1` ended; so the slots that live devices work in, or are about to
   resume in, differ by at most one.
   */
  lemma BarrierSafety(n: nat, steps: seq<Step>, d: nat, e: nat)
    requires Runs(Init(n), steps)
    requires var s := RunOf(Init(n), steps); d < |s.dev| && e < |s.dev| && s.dev[e].phase != Detached
    ensures var s := RunOf(Init(n), steps);
            && s.dev[e].ended >= s.dev[d].released
            && (s.dev[d].phase != Detached ==> -1 <= s.dev[d].released - s.dev[e].released <= 1)
  {
    InitInv(n);
    RunInv(Init(n), steps);
    var s := RunOf(Init(n), steps);
    assert DeviceOk(s.dev[e]) && DeviceOk(s.dev[d]);
  }

  /**
   Clock stability: in every reachable state the clock stands at the number of times a working device was
   released, and the step that moves the clock is enabled only when no device is working.
   */
  lemma ClockStability(n: nat, steps: seq<Step>, d: nat, e: Step)
    requires Runs(Init(n), steps)
    requires var s := RunOf(Init(n), steps); d < |s.dev| && s.dev[d].phase == Working && Enabled(s, e)
    ensures var s := RunOf(Init(n), steps);
            && s.time == s.dev[d].released == s.dev[d].ended
            && Next(s, e).time == s.time
  {
    InitInv(n);
    RunInv(Init(n), steps);
    var s := RunOf(Init(n), steps);
    assert DeviceOk(s.dev[d]) && !Settled(s.dev[d]);
  }

  /** An arrival that was recorded is taken back only by the timer releasing that very device. */
  lemma ArrivalStands(s: State, e: Step, d: nat)
    requires Enabled(s, e) && d < |s.dev| && s.dev[d].done && !Next(s, e).dev[d].done
    ensures e == Tick && s.timer.Release? && s.timer.k == d
  {
  }

  /** Each tick of the clock follows an arrival of every device still attached, and no arrival serves two ticks. */
  lemma TickNeedsAll(s: State, d: nat)
    requires Inv(s) && s.timer.Scan? && s.timer.k == |s.dev| && d < |s.dev|
    ensures TimerStep(s).time == s.time + 1
    ensures s.dev[d].phase != Detached ==> s.dev[d].done && s.dev[d].ended == s.time + 1
  {
    assert Settled(s.dev[d]) && DeviceOk(s.dev[d]);
  }

  /** No stuck barrier: until the timer is gone, some step other than stopping is enabled. */
  lemma NeverStuck(n: nat, steps: seq<Step>) returns (e: Step)
    requires Runs(Init(n), steps) && !RunOf(Init(n), steps).timer.Gone?
    ensures Enabled(RunOf(Init(n), steps), e) && e != Stop
  {
    InitInv(n);
    RunInv(Init(n), steps);
    var s := RunOf(Init(n), steps);
    if TimerEnabled(s) {
      return Tick;
    }
    var k := s.timer.k;
    assert DeviceOk(s.dev[k]);
    if s.dev[k].phase == Working { return Arrive(k); }
    return Resume(k);
  }

  /** The timer leaves only when every device is detached, by its finish count or by being stopped. */
  lemma TimerLeavesLast(n: nat, steps: seq<Step>, d: nat)
    requires Runs(Init(n), steps)
    requires RunOf(Init(n), steps).timer.Gone? && d < |RunOf(Init(n), steps).dev|
    ensures RunOf(Init(n), steps).dev[d].phase == Detached
  {
    InitInv(n);
    RunInv(Init(n), steps);
  }

  // ---- the timer's exit ----------------------------------------------------------------------------------

  /**
   What a pass of the timer that began its release at `s0` has come to in `s`: it stands before the clock's move, in
   the release, or at its end, where it is gone for being finished exactly if all devices were detached in `s0`.
   */
  ghost predicate PassOf(s0: State, s: State)
  {
    && |s.dev| == |s0.dev| && s.time >= s0.time
    && (s.time == s0.time ==> s.timer == s0.timer && (AllDetached(s) <==> AllDetached(s0)))
    && (s.time == s0.time + 1 ==>
          match s.timer
          case Release(_, fsh) => fsh == |s0.dev| <==> AllDetached(s0)
          case Gone(finished) => finished <==> AllDetached(s0)
          case _ => !AllDetached(s0))
    && (s.time > s0.time + 1 ==> !AllDetached(s0))
  }

  lemma PassStep(s0: State, s: State, e: Step)
    requires Inv(s0) && s0.timer.Scan? && s0.timer.k == |s0.dev|
    requires Inv(s) && Enabled(s, e) && PassOf(s0, s)
    ensures PassOf(s0, Next(s, e))
  {
    DetachedAmongAll(s.dev, |s.dev|);
    DetachedAmongAll(s0.dev, |s0.dev|);
  }

  lemma {:induction false} PassRun(s0: State, s: State, steps: seq<Step>)
    requires Inv(s0) && s0.timer.Scan? && s0.timer.k == |s0.dev|
    requires Inv(s) && PassOf(s0, s) && Runs(s, steps)
    ensures PassOf(s0, RunOf(s, steps))
    decreases |steps|
  {
    hide Inv, Enabled, Next, PassOf;
    if steps == [] {
    } else {
      NextInv(s, steps[0]);
      PassStep(s0, s, steps[0]);
      PassRun(s0, Next(s, steps[0]), steps[1..]);
    }
  }

  /**
   The finish count: whenever the timer has looked at all devices, the pass it is in ends with the timer gone for being
   finished if and only if every device was detached then; otherwise it is back at the head of its loop. That holds
   however the devices move meanwhile.
   */
  lemma ExitsWhenFinished(n: nat, before: seq<Step>, after: seq<Step>)
    requires Runs(Init(n), before)
    requires var s := RunOf(Init(n), before); s.timer.Scan? && s.timer.k == |s.dev| && Runs(s, after)
    requires var s := RunOf(Init(n), before); RunOf(s, after).time == s.time + 1 && !RunOf(s, after).timer.Release?
    ensures var s := RunOf(Init(n), before);
            RunOf(s, after).timer == Gone(true) <==> AllDetached(s)
  {
    InitInv(n);
    RunInv(Init(n), before);
    var s := RunOf(Init(n), before);
    PassRun(s, s, after);
  }

  /** How many ticks the timer has left once all devices are detached: to the end of its pass, and one pass more. */
  function TicksLeft(s: State): nat
  {
    var n := |s.dev|;
    var pass := if s.stop then 1 else 2 * n + 3;
    match s.timer
    case Gone(_) => 0
    case Head => pass
    case Scan(k, _) => if k <= n then 2 * n + 2 - k else 0
    case Release(k, fsh) => if k > n then 0 else n - k + 1 + if fsh == n then 0 else pass
  }

  function Ticks(steps: seq<Step>): nat
  {
    if steps == [] then 0 else (if steps[0].Tick? then 1 else 0) + Ticks(steps[1..])
  }

  /** With all devices detached every tick brings the timer nearer its end. */
  lemma TickNearer(s: State, e: Step)
    requires Inv(s) && AllDetached(s) && Enabled(s, e)
    ensures AllDetached(Next(s, e)) && |Next(s, e).dev| == |s.dev|
    ensures TicksLeft(Next(s, e)) + (if e.Tick? then 1 else 0) <= TicksLeft(s)
  {
    DetachedAmongAll(s.dev, |s.dev|);
  }

  lemma {:induction false} TicksRunOut(s: State, steps: seq<Step>)
    requires Inv(s) && AllDetached(s) && Runs(s, steps)
    ensures Ticks(steps) + TicksLeft(RunOf(s, steps)) <= TicksLeft(s)
    decreases |steps|
  {
    hide Inv, Enabled, Next, AllDetached, TicksLeft;
    if steps == [] {
    } else {
      NextInv(s, steps[0]);
      TickNearer(s, steps[0]);
      TicksRunOut(Next(s, steps[0]), steps[1..]);
    }
  }

  lemma {:induction false} AllTicks(steps: seq<Step>)
    requires forall e :: e in steps ==> e.Tick?
    ensures Ticks(steps) == |steps|
  {
    if steps == [] {
    } else {
      AllTicks(steps[1..]);
    }
  }

  /** Where ticks alone can have taken the timer from the head of its loop, all devices detached and no stop set. */
  ghost predicate OnExit(s0: State, s: State)
  {
    && AllDetached(s) && |s.dev| == |s0.dev| && !s.stop
    && match s.timer
       case Release(_, fsh) => s.time == s0.time + 1 && fsh == |s.dev|
       case Gone(finished) => s.time == s0.time + 1 && finished
       case _ => s.time == s0.time
  }

  lemma {:induction false} ExitRun(s0: State, s: State, steps: seq<Step>)
    requires Inv(s) && OnExit(s0, s) && Runs(s, steps) && forall e :: e in steps ==> e.Tick?
    ensures OnExit(s0, RunOf(s, steps))
    decreases |steps|
  {
    if steps == [] {
    } else {
      assert steps[0] == Tick;
      NextInv(s, Tick);
      DetachedAmongAll(s.dev, |s.dev|);
      ExitRun(s0, Next(s, Tick), steps[1..]);
    }
  }

  /**
   The timer exits: from any reachable state in which every device is detached, no run ticks more than 3n + 4 times, and
   from the head of the loop, unless the timer is stopped, 2n + 3 ticks end it as finished, one slot later.
   */
  lemma TimerExits(n: nat, before: seq<Step>, steps: seq<Step>)
    requires Runs(Init(n), before) && AllDetached(RunOf(Init(n), before)) && Runs(RunOf(Init(n), before), steps)
    ensures var s := RunOf(Init(n), before);
            && Ticks(steps) <= 3 * |s.dev| + 4
            && (s.timer.Head? && (forall e :: e in steps ==> e.Tick?) && |steps| == 2 * |s.dev| + 3 ==>
                  RunOf(s, steps).timer == Gone(true) && RunOf(s, steps).time == s.time + 1)
  {
    InitInv(n);
    RunInv(Init(n), before);
    var s := RunOf(Init(n), before);
    TicksRunOut(s, steps);
    RunInv(s, steps);
    if s.timer.Head? && (forall e :: e in steps ==> e.Tick?) && |steps| == 2 * |s.dev| + 3 {
      AllTicks(steps);
      ExitRun(s, s, steps);
    }
  }
}
