/**
 * The virtual stop wall at the creep target and the longitudinal stop
 * decision recorded against it in the reference line's decision ledger.
 */
module StopWall {
  import opened Wrappers
  import opened PlanningTypes
  import CreepPolicy

  /** The decision source under which the creep decider records its stop. */
  const CREEPER_TAG: string := "Creeper"

  /** The suffix appended to the virtual-obstacle prefix to name the wall. */
  const STOP_WALL_SUFFIX: string := "SS"

  /** A ledger key: (decision source, obstacle id). */
  type DecisionKey = (string, string)

  /** The obstacle set and the decision ledger of one reference line. */
  datatype DecisionState = DecisionState(obstacles: map<string, Obstacle>, decisions: map<DecisionKey, ObjectDecision>)

  /** Whether a stop wall was built, and the state afterwards. */
  datatype BuildOutcome = BuildOutcome(ok: bool, state: DecisionState)

  /**
   * The creep stop decision against a wall at `creepStopS`: reason CREEPER,
   * stopping `stopDistance` short of the wall, with the stop point and
   * heading of the reference line at the station the signed offset leads to.
   */
  function CreeperStop(creepStopS: real, stopDistance: real, referenceLine: real -> ReferencePoint): (d: ObjectDecision)
    ensures d.stop.reasonCode == StopReasonCreeper
    ensures d.stop.distanceS == -stopDistance
    ensures var pose := referenceLine(creepStopS + d.stop.distanceS);
            d.stop.stopPoint == PointENU(pose.x, pose.y, 0.0) && d.stop.stopHeading == pose.heading
  {
    var stopS := creepStopS - stopDistance;
    var stopPoint := referenceLine(stopS);
    Stop(ObjectStop(StopReasonCreeper, -stopDistance, stopPoint.heading, PointENU(stopPoint.x, stopPoint.y, 0.0)))
  }

  /**
   * The effect of building the stop wall for `stopLineS` on a reference
   * line's state. `create` stands for the frame's stop-obstacle factory and
   * `admitted` for whether the reference line accepts the new obstacle.
   * Either failure leaves the state as it was; on success the wall joins
   * the obstacle set and exactly one ledger entry, under ("Creeper", wall
   * id), is written or overwritten.
   */
  function ApplyStopWall(st: DecisionState, stopLineS: real, stopDistance: real, wallId: string,
                         create: (string, real) -> Option<Obstacle>, admitted: bool,
                         referenceLine: real -> ReferencePoint): (r: BuildOutcome)
    ensures r.ok <==> create(wallId, CreepPolicy.CreepStopS(stopLineS)).Some? && admitted
    ensures !r.ok ==> r.state == st
    ensures r.ok ==>
              var wall := create(wallId, CreepPolicy.CreepStopS(stopLineS)).value;
              var key := (CREEPER_TAG, wall.id);
              && r.state.obstacles.Keys == st.obstacles.Keys + {wall.id}
              && r.state.obstacles[wall.id] == wall
              && (forall id :: id in st.obstacles && id != wall.id ==> r.state.obstacles[id] == st.obstacles[id])
              && r.state.decisions.Keys == st.decisions.Keys + {key}
              && r.state.decisions[key] == CreeperStop(CreepPolicy.CreepStopS(stopLineS), stopDistance, referenceLine)
              && (forall k :: k in st.decisions && k != key ==> r.state.decisions[k] == st.decisions[k])
  {
    var creepStopS := CreepPolicy.CreepStopS(stopLineS);
    match create(wallId, creepStopS)
    case None => BuildOutcome(false, st)
    case Some(wall) =>
      if !admitted then BuildOutcome(false, st)
      else
        var decision := CreeperStop(creepStopS, stopDistance, referenceLine);
        BuildOutcome(true, DecisionState(st.obstacles[wall.id := wall],
                                         st.decisions[(CREEPER_TAG, wall.id) := decision]))
  }

  /**
   * Building the wall again with the same inputs overwrites the ledger
   * entry instead of adding a second one: the state is that of one build.
   */
  lemma StopWallIdempotent(st: DecisionState, stopLineS: real, stopDistance: real, wallId: string,
                           create: (string, real) -> Option<Obstacle>, admitted: bool,
                           referenceLine: real -> ReferencePoint)
    ensures var once := ApplyStopWall(st, stopLineS, stopDistance, wallId, create, admitted, referenceLine);
            var twice := ApplyStopWall(once.state, stopLineS, stopDistance, wallId, create, admitted, referenceLine);
            twice == once
  {
  }

  /**
   * The recorded stop lies `stopDistance` before the wall, which stands
   * the creep distance past the stop line.
   */
  lemma StopPointBeforeWall(st: DecisionState, stopLineS: real, stopDistance: real, wallId: string,
                            create: (string, real) -> Option<Obstacle>, admitted: bool,
                            referenceLine: real -> ReferencePoint)
    requires ApplyStopWall(st, stopLineS, stopDistance, wallId, create, admitted, referenceLine).ok
    ensures var r := ApplyStopWall(st, stopLineS, stopDistance, wallId, create, admitted, referenceLine);
            var wall := create(wallId, CreepPolicy.CreepStopS(stopLineS)).value;
            var pose := referenceLine(stopLineS + 0.5 - stopDistance);
            r.state.decisions[(CREEPER_TAG, wall.id)].stop.stopPoint == PointENU(pose.x, pose.y, 0.0)
  {
  }

  /** The reference line: its obstacle set, its decision ledger and its geometry. */
  class ReferenceLineInfo {
    var obstacles: map<string, Obstacle>
    var decisions: map<DecisionKey, ObjectDecision>
    /** The pose lookup of the reference line by station. */
    const referenceLine: real -> ReferencePoint

    constructor (referenceLine: real -> ReferencePoint)
      ensures this.referenceLine == referenceLine
      ensures obstacles == map[] && decisions == map[]
    {
      this.referenceLine := referenceLine;
      obstacles := map[];
      decisions := map[];
    }

    function State(): DecisionState
      reads this
    {
      DecisionState(obstacles, decisions)
    }

    /**
     * Registers an obstacle; `admitted` is the store's verdict. Returns the
     * stored obstacle, or None with nothing changed.
     */
    method AddObstacle(obstacle: Obstacle, admitted: bool) returns (stored: Option<Obstacle>)
      modifies this`obstacles
      ensures admitted ==> stored == Some(obstacle) && obstacles == old(obstacles)[obstacle.id := obstacle]
      ensures !admitted ==> stored == None && obstacles == old(obstacles)
    {
      if admitted {
        obstacles := obstacles[obstacle.id := obstacle];
        stored := Some(obstacle);
      } else {
        stored := None;
      }
    }

    /** Records `decision` under (tag, objectId), replacing an earlier one. */
    method AddLongitudinalDecision(tag: string, objectId: string, decision: ObjectDecision)
      modifies this`decisions
      ensures decisions == old(decisions)[(tag, objectId) := decision]
    {
      decisions := decisions[(tag, objectId) := decision];
    }
  }
}
