/**
 * The planner's value types that the creep decider reads and writes:
 * obstacles with their ST boundary, path overlaps, reference points,
 * object decisions and the decider's configuration.
 */
module PlanningTypes {

  /** The width of the decider's persistent clear counter. */
  newtype uint32 = x: int | 0 <= x < 0x1_0000_0000

  /** The status a task returns to the planning pipeline. */
  datatype Status = Ok | Error(message: string)

  /**
   * The part of an obstacle's ST boundary on the reference line that the
   * decider reads: the earliest time and station of the boundary and the
   * stations of its bottom-left and bottom-right corners.
   */
  datatype StBoundary = StBoundary(minT: real, minS: real, bottomLeftS: real, bottomRightS: real)

  datatype Obstacle = Obstacle(id: string, isVirtual: bool, isStatic: bool, st: StBoundary)

  /** An overlap of a map object (stop sign, traffic light) with the reference line. */
  datatype PathOverlap = PathOverlap(objectId: string, startS: real, endS: real)

  /** The pose of the reference line at some station. */
  datatype ReferencePoint = ReferencePoint(x: real, y: real, heading: real)

  datatype PointENU = PointENU(x: real, y: real, z: real)

  datatype StopReasonCode = StopReasonCreeper

  /** A longitudinal stop: why, how far before the obstacle, and where. */
  datatype ObjectStop = ObjectStop(reasonCode: StopReasonCode, distanceS: real, stopHeading: real, stopPoint: PointENU)

  /** The object decision the creep decider writes: always a stop. */
  datatype ObjectDecision = Stop(stop: ObjectStop)

  /** The decider_creep_config block of the task configuration. */
  datatype DeciderCreepConfig = DeciderCreepConfig(
    stopDistance: real,
    maxValidStopDistance: real,
    minBoundaryT: real,
    ignoreMaxStMinT: real,
    ignoreMinStMinS: real)
}
