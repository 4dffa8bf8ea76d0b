/**
 * Where the creep stops: the binding stop line, taken from the current stop
 * sign or else the first traffic light, and the creep target a fixed
 * distance past it.
 */
module CreepPolicy {
  import opened Wrappers
  import opened PlanningTypes

  /** The distance the vehicle may creep past the stop line. */
  const CREEP_DISTANCE: real := 0.5

  /**
   * The creep distance policy. The planner passes the frame and the
   * reference line, which the current policy does not consult.
   */
  function FindCreepDistance(): (d: real)
    ensures 0.0 <= d
    ensures d == 0.5
  {
    CREEP_DISTANCE
  }

  /** The creep target on the reference line for a given stop line. */
  function CreepStopS(stopLineS: real): (s: real)
    ensures stopLineS < s
    ensures s - stopLineS == FindCreepDistance()
  {
    stopLineS + FindCreepDistance()
  }

  /**
   * The stop line that binds the creep. A non-empty stop-sign overlap id
   * is refreshed on the reference line (`refresh` stands for that lookup);
   * an overlap no longer found gives 0.0 and the traffic lights are not
   * consulted. Without a stop sign the first traffic-light overlap binds.
   * Without either the stop line stays 0.0.
   */
  function ResolveStopLine(stopSignOverlapId: string, refresh: string -> Option<PathOverlap>,
                           trafficLightOverlaps: seq<PathOverlap>): (stopLineS: real)
    ensures stopSignOverlapId != "" && refresh(stopSignOverlapId).Some? ==>
              stopLineS == refresh(stopSignOverlapId).value.endS
    ensures stopSignOverlapId != "" && refresh(stopSignOverlapId).None? ==> stopLineS == 0.0
    ensures stopSignOverlapId == "" && trafficLightOverlaps != [] ==> stopLineS == trafficLightOverlaps[0].endS
    ensures stopSignOverlapId == "" && trafficLightOverlaps == [] ==> stopLineS == 0.0
  {
    if stopSignOverlapId != "" then
      match refresh(stopSignOverlapId)
      case Some(overlap) => overlap.endS
      case None => 0.0
    else if |trafficLightOverlaps| > 0 then
      trafficLightOverlaps[0].endS
    else
      0.0
  }

  /** A current stop sign shadows the traffic lights entirely. */
  lemma StopSignShadowsTrafficLights(stopSignOverlapId: string, refresh: string -> Option<PathOverlap>,
                                     lights: seq<PathOverlap>, otherLights: seq<PathOverlap>)
    requires stopSignOverlapId != ""
    ensures ResolveStopLine(stopSignOverlapId, refresh, lights)
         == ResolveStopLine(stopSignOverlapId, refresh, otherLights)
  {
  }

  /** Only the first traffic-light overlap matters. */
  lemma OnlyFirstTrafficLightBinds(refresh: string -> Option<PathOverlap>,
                                   lights: seq<PathOverlap>, otherLights: seq<PathOverlap>)
    requires lights != [] && otherLights != [] && lights[0].endS == otherLights[0].endS
    ensures ResolveStopLine("", refresh, lights) == ResolveStopLine("", refresh, otherLights)
  {
  }

  /**
   * A non-zero stop line is the end of a stop-sign overlap the refresh
   * found, or of the first traffic light when there is no stop sign.
   */
  lemma StopLineComesFromAnOverlap(stopSignOverlapId: string, refresh: string -> Option<PathOverlap>,
                                   lights: seq<PathOverlap>)
    requires ResolveStopLine(stopSignOverlapId, refresh, lights) != 0.0
    ensures var s := ResolveStopLine(stopSignOverlapId, refresh, lights);
            || (stopSignOverlapId != "" && refresh(stopSignOverlapId) != None && refresh(stopSignOverlapId).value.endS == s)
            || (stopSignOverlapId == "" && lights != [] && lights[0].endS == s)
  {
  }
}
