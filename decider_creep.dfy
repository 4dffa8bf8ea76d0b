/**
 * The creep decider task: on each planning cycle it places a stop wall the
 * creep distance past the binding stop line, and it tells the owning
 * scenario when the creep is done.
 */
module DeciderCreep {
  import opened Wrappers
  import opened PlanningTypes
  import opened CreepPolicy
  import opened StopWall
  import opened CreepCompletion

  class DeciderCreep {
    const config: DeciderCreepConfig
    /** The prefix of the creep decider's virtual-obstacle ids. */
    const voIdPrefix: string
    /** The clear counter that persists between evaluations. */
    var creepClearCounter: uint32

    /** Between evaluations the counter is below the release threshold. */
    ghost predicate Valid()
      reads this
    {
      creepClearCounter < CLEAR_COUNT_THRESHOLD
    }

    constructor (config: DeciderCreepConfig, voIdPrefix: string)
      ensures Valid()
      ensures this.config == config && this.voIdPrefix == voIdPrefix && creepClearCounter == 0
    {
      this.config := config;
      this.voIdPrefix := voIdPrefix;
      creepClearCounter := 0;
    }

    /**
     * Resolves the stop line and, when it is positive, builds the stop wall.
     * `refresh` looks the stop-sign overlap up on the reference line again;
     * `create` and `admitted` stand for the obstacle factory and store.
     */
    method Process(referenceLineInfo: ReferenceLineInfo, stopSignOverlapId: string,
                   refresh: string -> Option<PathOverlap>, trafficLightOverlaps: seq<PathOverlap>,
                   create: (string, real) -> Option<Obstacle>, admitted: bool)
      returns (status: Status)
      modifies referenceLineInfo
      ensures status == Ok
      ensures var stopLineS := ResolveStopLine(stopSignOverlapId, refresh, trafficLightOverlaps);
              referenceLineInfo.State()
              == if stopLineS > 0.0
                 then ApplyStopWall(old(referenceLineInfo.State()), stopLineS, config.stopDistance,
                                    voIdPrefix + STOP_WALL_SUFFIX, create, admitted, referenceLineInfo.referenceLine).state
                 else old(referenceLineInfo.State())
    {
      var stopLineS := 0.0;
      if stopSignOverlapId != "" {
        var currentStopSignOverlap := refresh(stopSignOverlapId);
        if currentStopSignOverlap.Some? {
          stopLineS := currentStopSignOverlap.value.endS;
        }
      } else if |trafficLightOverlaps| > 0 {
        stopLineS := trafficLightOverlaps[0].endS;
      }
      if stopLineS > 0.0 {
        var built := BuildStopDecision(stopLineS, referenceLineInfo, create, admitted);
      }
      status := Ok;
    }

    /**
     * Creates the virtual stop wall at the creep target, registers it and
     * records the creep stop decision against it.
     */
    method BuildStopDecision(stopLineS: real, referenceLineInfo: ReferenceLineInfo,
                             create: (string, real) -> Option<Obstacle>, admitted: bool)
      returns (ok: bool)
      modifies referenceLineInfo
      ensures BuildOutcome(ok, referenceLineInfo.State())
              == ApplyStopWall(old(referenceLineInfo.State()), stopLineS, config.stopDistance,
                               voIdPrefix + STOP_WALL_SUFFIX, create, admitted, referenceLineInfo.referenceLine)
    {
      var creepStopS := stopLineS + FindCreepDistance();
      var virtualObstacleId := voIdPrefix + STOP_WALL_SUFFIX;
      var obstacle := create(virtualObstacleId, creepStopS);
      if obstacle.None? {
        return false;
      }
      var stopWall := referenceLineInfo.AddObstacle(obstacle.value, admitted);
      if stopWall.None? {
        return false;
      }
      var stop := CreeperStop(creepStopS, config.stopDistance, referenceLineInfo.referenceLine);
      referenceLineInfo.AddLongitudinalDecision(CREEPER_TAG, stopWall.value.id, stop);
      ok := true;
    }

    /**
     * One evaluation of creep completion. `items` are the reference line's
     * obstacles in their stored order and `adcEndS` is the end station of
     * the vehicle's SL boundary.
     */
    method CheckCreepDone(items: seq<Obstacle>, adcEndS: real, stopSignOverlapEndS: real,
                          waitTimeSec: real, timeoutSec: real)
      returns (creepDone: bool)
      modifies this`creepClearCounter
      ensures Verdict(creepClearCounter, creepDone)
              == Evaluate(config, old(creepClearCounter),
                          Cycle(stopSignOverlapEndS, waitTimeSec, timeoutSec, adcEndS, items))
      ensures old(Valid()) ==> Valid()
    {
      creepDone := false;
      var creepStopS := stopSignOverlapEndS + FindCreepDistance();
      var distance := creepStopS - adcEndS;
      if distance < config.maxValidStopDistance || waitTimeSec >= timeoutSec {
        var allFarAway := ScanForBlockers(items, config);
        creepClearCounter := if allFarAway then WrappingIncrement(creepClearCounter) else 0;
        if creepClearCounter >= CLEAR_COUNT_THRESHOLD {
          creepClearCounter := 0;
          creepDone := true;
        }
      }
    }
  }

  /**
   * With no current stop sign and no traffic light, or with a stop sign
   * whose overlap is no longer on the reference line, the stop line is 0.0
   * and no stop wall is built.
   */
  lemma NoActiveRegulationBuildsNothing(stopSignOverlapId: string, refresh: string -> Option<PathOverlap>,
                                        trafficLightOverlaps: seq<PathOverlap>)
    requires || (stopSignOverlapId == "" && trafficLightOverlaps == [])
             || (stopSignOverlapId != "" && refresh(stopSignOverlapId) == None)
    ensures !(ResolveStopLine(stopSignOverlapId, refresh, trafficLightOverlaps) > 0.0)
  {
  }
}
