/**
 * The creep-completion evaluator: a gate on distance or waiting time, a
 * scan of the dynamic obstacles for one that blocks, and a debounce on a
 * persistent counter that releases the creep after five clear evaluations.
 */
module CreepCompletion {
  import opened PlanningTypes
  import CreepPolicy

  /** Below this traveled s an obstacle counts as not moving against the vehicle. */
  const TRAVELED_S_EPSILON: real := 0.000001

  /** Consecutive clear evaluations that complete the creep. */
  const CLEAR_COUNT_THRESHOLD: uint32 := 5

  /** bottom_left.s - bottom_right.s of the obstacle's ST boundary. */
  function TraveledS(o: Obstacle): real
  {
    o.st.bottomLeftS - o.st.bottomRightS
  }

  /**
   * An obstacle already on the reference line and moving along with the
   * vehicle: all three ignore conditions hold.
   */
  function IsIgnored(o: Obstacle, cfg: DeciderCreepConfig): (ignored: bool)
    ensures TraveledS(o) >= TRAVELED_S_EPSILON ==> !ignored
    ensures o.st.minT >= cfg.ignoreMaxStMinT ==> !ignored
    ensures o.st.minS <= cfg.ignoreMinStMinS ==> !ignored
    ensures (o.st.bottomLeftS < o.st.bottomRightS && o.st.minT < cfg.ignoreMaxStMinT
             && o.st.minS > cfg.ignoreMinStMinS) ==> ignored
  {
    && TraveledS(o) < TRAVELED_S_EPSILON
    && o.st.minT < cfg.ignoreMaxStMinT
    && o.st.minS > cfg.ignoreMinStMinS
  }

  /** A dynamic obstacle whose ST boundary starts too soon and which is not ignored. */
  function IsBlocker(o: Obstacle, cfg: DeciderCreepConfig): (blocks: bool)
    ensures blocks ==> !o.isVirtual && !o.isStatic && o.st.minT < cfg.minBoundaryT
    ensures !o.isVirtual && !o.isStatic && o.st.minT < cfg.minBoundaryT && TraveledS(o) >= TRAVELED_S_EPSILON
            ==> blocks
    ensures !blocks && !o.isVirtual && !o.isStatic && o.st.minT < cfg.minBoundaryT ==>
              o.st.minT < cfg.ignoreMaxStMinT && o.st.minS > cfg.ignoreMinStMinS
    ensures IsIgnored(o, cfg) ==> !blocks
  {
    !o.isVirtual && !o.isStatic && o.st.minT < cfg.minBoundaryT && !IsIgnored(o, cfg)
  }

  /** The scan's verdict: no obstacle blocks. */
  predicate AllFarAway(items: seq<Obstacle>, cfg: DeciderCreepConfig)
  {
    forall i :: 0 <= i < |items| ==> !IsBlocker(items[i], cfg)
  }

  /**
   * The obstacle scan: skips virtual and static obstacles and ignored ones,
   * and stops at the first blocker.
   */
  method ScanForBlockers(items: seq<Obstacle>, cfg: DeciderCreepConfig) returns (allFarAway: bool)
    ensures allFarAway <==> AllFarAway(items, cfg)
  {
    allFarAway := true;
    var i := 0;
    while i < |items|
      invariant 0 <= i <= |items|
      invariant allFarAway
      invariant forall k :: 0 <= k < i ==> !IsBlocker(items[k], cfg)
    {
      var obstacle := items[i];
      i := i + 1;
      if obstacle.isVirtual || obstacle.isStatic {
        continue;
      }
      if obstacle.st.minT < cfg.minBoundaryT {
        var traveledS := obstacle.st.bottomLeftS - obstacle.st.bottomRightS;
        if traveledS < TRAVELED_S_EPSILON && obstacle.st.minT < cfg.ignoreMaxStMinT
           && obstacle.st.minS > cfg.ignoreMinStMinS {
          continue;
        }
        allFarAway := false;
        break;
      }
    }
  }

  /**
   * An obstacle that does not block (virtual, static, outside the time
   * horizon, or ignored) leaves the scan's verdict as it was; one that
   * blocks makes it false.
   */
  lemma AllFarAwayAppend(items: seq<Obstacle>, o: Obstacle, cfg: DeciderCreepConfig)
    ensures AllFarAway(items + [o], cfg) <==> AllFarAway(items, cfg) && !IsBlocker(o, cfg)
  {
    var extended := items + [o];
    assert extended[|items|] == o;
    assert forall i :: 0 <= i < |items| ==> extended[i] == items[i];
  }

  /** The scan's verdict depends on which obstacles there are, not on their order. */
  lemma {:induction false} AllFarAwayOrderFree(items: seq<Obstacle>, reordered: seq<Obstacle>, cfg: DeciderCreepConfig)
    requires multiset(items) == multiset(reordered)
    ensures AllFarAway(items, cfg) <==> AllFarAway(reordered, cfg)
  {
    if AllFarAway(items, cfg) {
      FarAwayCarriesOver(items, reordered, cfg);
    }
    if AllFarAway(reordered, cfg) {
      FarAwayCarriesOver(reordered, items, cfg);
    }
  }

  lemma FarAwayCarriesOver(items: seq<Obstacle>, reordered: seq<Obstacle>, cfg: DeciderCreepConfig)
    requires multiset(items) == multiset(reordered)
    requires AllFarAway(items, cfg)
    ensures AllFarAway(reordered, cfg)
  {
    forall j | 0 <= j < |reordered|
      ensures !IsBlocker(reordered[j], cfg)
    {
      assert reordered[j] in multiset(reordered);
      var i :| 0 <= i < |items| && items[i] == reordered[j];
    }
  }

  /**
   * The gate of the evaluator: the vehicle's front is within
   * `maxValidStopDistance` of the creep target, or the wait timed out.
   */
  function GateOpen(creepStopS: real, adcEndS: real, waitTimeSec: real, timeoutSec: real, cfg: DeciderCreepConfig): (open: bool)
    ensures creepStopS - adcEndS < cfg.maxValidStopDistance ==> open
    ensures waitTimeSec >= timeoutSec ==> open
    ensures !open ==> adcEndS + cfg.maxValidStopDistance <= creepStopS && waitTimeSec < timeoutSec
  {
    creepStopS - adcEndS < cfg.maxValidStopDistance || waitTimeSec >= timeoutSec
  }

  /** The counter's `+ 1` in 32-bit unsigned arithmetic. */
  function WrappingIncrement(counter: uint32): (next: uint32)
    ensures counter < 0xFFFF_FFFF ==> next as int == counter as int + 1
    ensures counter == 0xFFFF_FFFF ==> next == 0
  {
    ((counter as int + 1) % 0x1_0000_0000) as uint32
  }

  /** The counter after one evaluation and whether the creep is done. */
  datatype Verdict = Verdict(counter: uint32, creepDone: bool)

  /**
   * One debounce step. A closed gate leaves the counter alone; an open gate
   * counts a clear scan up and resets on a blocker, and reaching the
   * threshold resets the counter and completes the creep.
   */
  function Debounce(counter: uint32, gateOpen: bool, allFarAway: bool): (v: Verdict)
    ensures !gateOpen ==> v == Verdict(counter, false)
    ensures gateOpen ==> v.counter < CLEAR_COUNT_THRESHOLD
    ensures gateOpen && !allFarAway ==> v == Verdict(0, false)
    ensures gateOpen && allFarAway && counter < CLEAR_COUNT_THRESHOLD - 1 ==> v == Verdict(counter + 1, false)
    ensures gateOpen && allFarAway && CLEAR_COUNT_THRESHOLD - 1 <= counter < 0xFFFF_FFFF ==> v == Verdict(0, true)
    ensures gateOpen && allFarAway && counter == 0xFFFF_FFFF ==> v == Verdict(0, false)
    ensures v.creepDone ==> gateOpen && allFarAway && v.counter == 0
  {
    if !gateOpen then Verdict(counter, false)
    else
      var next := if allFarAway then WrappingIncrement(counter) else 0;
      if next >= CLEAR_COUNT_THRESHOLD then Verdict(0, true) else Verdict(next, false)
  }

  /** The inputs of one call of the evaluator. */
  datatype Cycle = Cycle(stopLineEndS: real, waitTimeSec: real, timeoutSec: real, adcEndS: real, items: seq<Obstacle>)

  predicate Open(cfg: DeciderCreepConfig, c: Cycle)
  {
    GateOpen(CreepPolicy.CreepStopS(c.stopLineEndS), c.adcEndS, c.waitTimeSec, c.timeoutSec, cfg)
  }

  predicate Clear(cfg: DeciderCreepConfig, c: Cycle)
  {
    AllFarAway(c.items, cfg)
  }

  /** One call of the evaluator from a given counter. */
  function Evaluate(cfg: DeciderCreepConfig, counter: uint32, c: Cycle): (v: Verdict)
    ensures !Open(cfg, c) ==> v == Verdict(counter, false)
    ensures Open(cfg, c) && !Clear(cfg, c) ==> v == Verdict(0, false)
    ensures v.creepDone ==> Open(cfg, c) && Clear(cfg, c) && v.counter == 0
  {
    Debounce(counter, Open(cfg, c), Clear(cfg, c))
  }

  /**
   * A closed gate: the call returns false and leaves the counter as it
   * was, whatever the obstacles are.
   */
  lemma ClosedGateIgnoresObstacles(cfg: DeciderCreepConfig, counter: uint32, c: Cycle, otherItems: seq<Obstacle>)
    requires !Open(cfg, c)
    ensures Evaluate(cfg, counter, c) == Verdict(counter, false)
    ensures Evaluate(cfg, counter, c.(items := otherItems)) == Evaluate(cfg, counter, c)
  {
  }

  /** The counter after a run of calls and what each call returned. */
  datatype Trace = Trace(counter: uint32, released: seq<bool>)

  function Run(cfg: DeciderCreepConfig, counter: uint32, cycles: seq<Cycle>): (t: Trace)
    ensures |t.released| == |cycles|
    decreases |cycles|
  {
    if cycles == [] then Trace(counter, [])
    else
      var before := Run(cfg, counter, cycles[..|cycles| - 1]);
      var v := Evaluate(cfg, before.counter, cycles[|cycles| - 1]);
      Trace(v.counter, before.released + [v.creepDone])
  }

  /**
   * The reference for the debounce: the number of open-gate clear calls
   * since the last open-gate call that found a blocker. Closed-gate calls
   * neither count nor reset.
   */
  function ClearStreak(cfg: DeciderCreepConfig, cycles: seq<Cycle>): nat
    decreases |cycles|
  {
    if cycles == [] then 0
    else
      var last := cycles[|cycles| - 1];
      var before := ClearStreak(cfg, cycles[..|cycles| - 1]);
      if !Open(cfg, last) then before
      else if Clear(cfg, last) then before + 1
      else 0
  }

  /**
   * From the initial counter 0, the counter is the clear streak modulo 5,
   * and a call releases the creep exactly when it is an open-gate clear
   * call that brings the streak to a multiple of 5.
   */
  lemma {:induction false} RunTracksClearStreak(cfg: DeciderCreepConfig, cycles: seq<Cycle>)
    ensures Run(cfg, 0, cycles).counter as int == ClearStreak(cfg, cycles) % 5
    ensures forall k :: 0 <= k < |cycles| ==>
              Run(cfg, 0, cycles).released[k]
              == (Open(cfg, cycles[k]) && Clear(cfg, cycles[k]) && ClearStreak(cfg, cycles[..k + 1]) % 5 == 0)
    decreases |cycles|
  {
    if cycles != [] {
      var n := |cycles|;
      var init := cycles[..n - 1];
      var last := cycles[n - 1];
      RunTracksClearStreak(cfg, init);
      var before := Run(cfg, 0, init);
      var v := Evaluate(cfg, before.counter, last);
      assert Run(cfg, 0, cycles) == Trace(v.counter, before.released + [v.creepDone]);
      DebounceTracksStreak(ClearStreak(cfg, init), before.counter, Open(cfg, last), Clear(cfg, last));
      assert cycles[..n] == cycles;
      forall k | 0 <= k < n - 1
        ensures init[..k + 1] == cycles[..k + 1] && init[k] == cycles[k]
      {
      }
    }
  }

  /** One debounce step keeps the counter equal to the clear streak modulo 5. */
  lemma DebounceTracksStreak(streak: nat, counter: uint32, gateOpen: bool, allFarAway: bool)
    requires counter as int == streak % 5
    ensures var next := if !gateOpen then streak else if allFarAway then streak + 1 else 0;
            var v := Debounce(counter, gateOpen, allFarAway);
            v.counter as int == next % 5 && v.creepDone == (gateOpen && allFarAway && next % 5 == 0)
  {
  }

  /**
   * No premature release: a call that releases the creep is an open-gate
   * clear call preceded, since the last blocker, by at least four more.
   */
  lemma NoPrematureRelease(cfg: DeciderCreepConfig, cycles: seq<Cycle>, k: nat)
    requires k < |cycles| && Run(cfg, 0, cycles).released[k]
    ensures Open(cfg, cycles[k]) && Clear(cfg, cycles[k])
    ensures ClearStreak(cfg, cycles[..k + 1]) >= 5
  {
    RunTracksClearStreak(cfg, cycles);
    var prefix := cycles[..k + 1];
    assert prefix[..k] == cycles[..k] && prefix[k] == cycles[k];
    assert ClearStreak(cfg, prefix) == ClearStreak(cfg, cycles[..k]) + 1;
  }

  /** Over open-gate clear calls only, the streak is the number of calls. */
  lemma {:induction false} StreakOfClearCalls(cfg: DeciderCreepConfig, cycles: seq<Cycle>)
    requires forall i :: 0 <= i < |cycles| ==> Open(cfg, cycles[i]) && Clear(cfg, cycles[i])
    ensures ClearStreak(cfg, cycles) == |cycles|
    decreases |cycles|
  {
    if cycles != [] {
      StreakOfClearCalls(cfg, cycles[..|cycles| - 1]);
    }
  }

  /**
   * From counter 0, in a run of open-gate clear calls, exactly every fifth
   * call returns true: the 5th, the 10th, and so on.
   */
  lemma EveryFifthClearCallReleases(cfg: DeciderCreepConfig, cycles: seq<Cycle>)
    requires forall i :: 0 <= i < |cycles| ==> Open(cfg, cycles[i]) && Clear(cfg, cycles[i])
    ensures forall k :: 0 <= k < |cycles| ==> Run(cfg, 0, cycles).released[k] == ((k + 1) % 5 == 0)
  {
    RunTracksClearStreak(cfg, cycles);
    var released := Run(cfg, 0, cycles).released;
    forall k | 0 <= k < |cycles|
      ensures released[k] == ((k + 1) % 5 == 0)
    {
      StreakOfClearCalls(cfg, cycles[..k + 1]);
    }
  }

  /** Between calls the counter stays below the threshold, from any start below it. */
  lemma {:induction false} RunKeepsCounterBelowThreshold(cfg: DeciderCreepConfig, counter: uint32, cycles: seq<Cycle>)
    requires counter < CLEAR_COUNT_THRESHOLD
    ensures Run(cfg, counter, cycles).counter < CLEAR_COUNT_THRESHOLD
    decreases |cycles|
  {
    if cycles != [] {
      RunKeepsCounterBelowThreshold(cfg, counter, cycles[..|cycles| - 1]);
    }
  }
}
