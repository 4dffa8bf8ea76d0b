# Creep decider

A model of the creep decider of the Apollo motion planner
(`modules/planning/tasks/deciders/decider_creep.cc`). The task lets the
vehicle creep past a stop sign or traffic-light stop line and decides when
the creep is finished. It has three parts.

- **Stop-line resolution** (`CreepPolicy.ResolveStopLine`, used by
  `DeciderCreep.DeciderCreep.Process`). A current stop-sign overlap is looked
  up again on the reference line and its `end_s` binds. If the lookup fails
  the stop line stays 0.0. Traffic lights are not consulted then. Without a
  stop sign, the first traffic-light overlap binds. A stop wall is built
  only for a stop line `> 0.0`, and `Process` always returns OK.
- **Stop-wall building** (`StopWall.ApplyStopWall`, implemented by
  `DeciderCreep.DeciderCreep.BuildStopDecision`). The wall stands at
  `stop_line_s + 0.5`. Creating it and registering it can each fail; either
  failure returns false with nothing written. On success the wall joins the
  reference line's obstacle set. A CREEPER stop with `distance_s =
  -stop_distance` is recorded under ("Creeper", wall id). Its stop point
  and heading are the reference line's pose at `creep_stop_s -
  stop_distance`, with `z = 0`.
- **Creep-completion evaluator** (`CreepCompletion`, implemented by
  `DeciderCreep.DeciderCreep.CheckCreepDone`). A gate opens when the
  vehicle's front is within `max_valid_stop_distance` of the creep target
  or the wait has timed out. A closed gate returns false and leaves the
  counter alone. An open gate scans the obstacles. A non-virtual,
  non-static obstacle whose ST boundary starts before `min_boundary_t`
  blocks, unless all three ignore conditions hold (`IsBlocker`,
  `IsIgnored`). A clear scan increments the persistent counter and a
  blocker resets it. Reaching 5 resets it and returns true.
  `ClearStreak` is an independent reference: the number of open-gate
  clear calls since the last open-gate blocked call. The trace lemmas
  prove that the counter is that streak modulo 5. They also prove that
  a call releases exactly when it brings the streak to a multiple of 5.

The ignore test on the obstacle's traveled distance is one-sided in the
code: `bottom_left.s - bottom_right.s < 1e-6`. A large negative value (an
obstacle moving forward along the reference line) passes it. A reading of
this test as "stationary within tolerance" would be two-sided. The model
follows the code.

Foreign calls are inputs. `refresh` stands for
`scenario::util::RefreshOverlapOnReferenceLine`. `create` stands for
`Frame::CreateStopObstacle`. The `admitted` flag is the verdict of
`ReferenceLineInfo::AddObstacle`. `referenceLine` is
`ReferenceLine::GetReferencePoint`, as an uninterpreted function. The
stop-sign id and the traffic-light overlaps from `PlanningContext` are
parameters of `Process`. Doubles are `real`. The counter is a 32-bit
unsigned value with an explicit wrapping increment.

## Model

| member | source | states |
|---|---|---|
| `CreepPolicy.FindCreepDistance` | modules/planning/tasks/deciders/decider_creep.cc:75-79 | the creep distance is the fixed, non-negative 0.5 |
| `CreepPolicy.CreepStopS` | modules/planning/tasks/deciders/decider_creep.cc:88-89 | the creep target lies exactly the creep distance (0.5) past the stop line, the same in wall building and in the evaluator (lines 134-135) |
| `CreepPolicy.ResolveStopLine` | modules/planning/tasks/deciders/decider_creep.cc:48-67 | stop sign set: refreshed overlap's end_s, or 0.0 when the refresh fails; no stop sign: first traffic light's end_s, or 0.0 when there is none |
| `CreepPolicy.StopSignShadowsTrafficLights` | modules/planning/tasks/deciders/decider_creep.cc:52-62 | with a stop-sign id set, the traffic lights do not affect the stop line |
| `CreepPolicy.OnlyFirstTrafficLightBinds` | modules/planning/tasks/deciders/decider_creep.cc:62-67 | without a stop sign, only element 0 of the traffic-light list matters |
| `CreepPolicy.StopLineComesFromAnOverlap` | modules/planning/tasks/deciders/decider_creep.cc:48-67 | a non-zero stop line is the end_s of the refreshed stop-sign overlap or of the first traffic light |
| `StopWall.CreeperStop` | modules/planning/tasks/deciders/decider_creep.cc:106-119 | reason CREEPER, distance_s = -stop_distance, and the stop point (z = 0) and heading are the reference pose at the wall's s plus that signed offset |
| `StopWall.ApplyStopWall` | modules/planning/tasks/deciders/decider_creep.cc:88-124 | success iff creation and registration both succeed; on failure nothing changes; on success the wall is added, exactly the ("Creeper", wall id) ledger entry is written, and every other obstacle and entry is kept |
| `StopWall.StopWallIdempotent` | modules/planning/tasks/deciders/decider_creep.cc:121-122 | building again with the same inputs overwrites the entry: the state equals that of one build, with no extra decisions |
| `StopWall.StopPointBeforeWall` | modules/planning/tasks/deciders/decider_creep.cc:88-119 | the recorded stop point is the reference pose at stop_line_s + 0.5 - stop_distance |
| `StopWall.ReferenceLineInfo.AddObstacle` | modules/planning/tasks/deciders/decider_creep.cc:99-103 | a registration either stores the obstacle under its id and returns it, or returns nothing and changes nothing |
| `StopWall.ReferenceLineInfo.AddLongitudinalDecision` | modules/planning/tasks/deciders/decider_creep.cc:121-122 | the decision is stored under (tag, obstacle id), replacing an earlier one |
| `CreepCompletion.IsIgnored` | modules/planning/tasks/deciders/decider_creep.cc:149-167 | each of the three ignore conditions is necessary: traveled s (`bottom_left.s - bottom_right.s`, lines 150-152) below 1e-6, `min_t < ignore_max_st_min_t`, `min_s > ignore_min_st_min_s`; an obstacle moving forward (`bottom_left.s < bottom_right.s`) that meets the other two is ignored |
| `CreepCompletion.IsBlocker` | modules/planning/tasks/deciders/decider_creep.cc:144-169 | a blocker is a non-virtual, non-static obstacle with `min_t < min_boundary_t`; such an obstacle blocks whenever its traveled s is at least 1e-6, and otherwise fails to block only when the other two ignore conditions hold; an ignored obstacle never blocks |
| `CreepCompletion.GateOpen` | modules/planning/tasks/deciders/decider_creep.cc:137-140 | either release condition opens the gate (distance to the creep target below `max_valid_stop_distance`, or `wait_time >= timeout`); a closed gate means both fail |
| `CreepCompletion.ScanForBlockers` | modules/planning/tasks/deciders/decider_creep.cc:141-171 | the early-break scan returns true iff no obstacle is a blocker |
| `CreepCompletion.AllFarAwayAppend` | modules/planning/tasks/deciders/decider_creep.cc:141-171 | one more obstacle leaves the scan verdict unchanged when it does not block (virtual, static, outside the horizon or ignored) and makes it false when it blocks |
| `CreepCompletion.AllFarAwayOrderFree` | modules/planning/tasks/deciders/decider_creep.cc:141-171 | the scan verdict is the same for any reordering of the obstacles |
| `CreepCompletion.WrappingIncrement` | modules/planning/tasks/deciders/decider_creep.cc:173-173 | the counter's + 1 is 32-bit unsigned: exact below 2^32 - 1, 0 at 2^32 - 1 |
| `CreepCompletion.Debounce` | modules/planning/tasks/deciders/decider_creep.cc:173-177 | closed gate: counter unchanged, false; open gate: blocker resets to 0, clear counts up, a count reaching 5 or more resets to 0 and returns true, except that at 2^32 - 1 the increment wraps to 0 and the call returns false; the counter stays below 5 after an open gate |
| `CreepCompletion.Evaluate` | modules/planning/tasks/deciders/decider_creep.cc:132-177 | one call on the raw inputs: closed gate returns false with the counter kept; an open gate with a blocker resets to 0 and returns false; a release happens only on an open-gate clear call and leaves the counter at 0 |
| `CreepCompletion.DebounceTracksStreak` | modules/planning/tasks/deciders/decider_creep.cc:173-177 | one step keeps the counter equal to the clear streak modulo 5, and releases exactly when an open-gate clear call makes the streak a multiple of 5 |
| `CreepCompletion.ClosedGateIgnoresObstacles` | modules/planning/tasks/deciders/decider_creep.cc:137-140 | with the gate closed, the call returns false, keeps the counter and does not depend on the obstacles |
| `CreepCompletion.Run` | modules/planning/tasks/deciders/decider_creep.cc:127-180 | a run of evaluations yields one result per call |
| `CreepCompletion.RunTracksClearStreak` | modules/planning/tasks/deciders/decider_creep.cc:173-177 | from counter 0 the counter equals the clear streak modulo 5, and a call returns true iff it is an open-gate clear call making the streak a multiple of 5 |
| `CreepCompletion.NoPrematureRelease` | modules/planning/tasks/deciders/decider_creep.cc:173-177 | a call returning true is an open-gate clear call with a clear streak of at least 5 |
| `CreepCompletion.EveryFifthClearCallReleases` | modules/planning/tasks/deciders/decider_creep.cc:173-177 | from counter 0, among consecutive open-gate clear calls exactly the 5th, 10th, ... return true |
| `CreepCompletion.RunKeepsCounterBelowThreshold` | modules/planning/tasks/deciders/decider_creep.cc:173-177 | started below 5, the counter is below 5 between calls |
| `DeciderCreep.DeciderCreep.constructor` | modules/planning/tasks/deciders/decider_creep.cc:36-41 | a new decider has a zero counter and so satisfies the counter invariant |
| `DeciderCreep.DeciderCreep.Process` | modules/planning/tasks/deciders/decider_creep.cc:43-73 | returns OK; the reference line's state is that of building the wall for the resolved stop line when it is > 0.0, and unchanged otherwise |
| `DeciderCreep.DeciderCreep.BuildStopDecision` | modules/planning/tasks/deciders/decider_creep.cc:82-125 | the result and the new obstacle set and ledger are those of ApplyStopWall on the old state |
| `DeciderCreep.DeciderCreep.CheckCreepDone` | modules/planning/tasks/deciders/decider_creep.cc:127-180 | the new counter and the result are one Debounce step on the gate and the scan verdict; the counter invariant is kept |
| `DeciderCreep.NoActiveRegulationBuildsNothing` | modules/planning/tasks/deciders/decider_creep.cc:59-70 | with neither stop sign nor traffic light, or with an expired stop-sign overlap, no stop wall is built |

## Left out

- Logging (`AERROR`, `ADEBUG`) has no effect on the model.
- `CHECK_NOTNULL(reference_line_info)` becomes the non-null `ReferenceLineInfo` reference. The frame is not modelled: its obstacle factory is the `create` parameter, so `CHECK_NOTNULL(frame)` has no counterpart. `CHECK(config_.has_decider_creep_config())` becomes the decider constructor's `config` argument.
- `PlanningContext`: the stop-sign overlap id and the traffic-light overlaps are parameters of `Process`.
- `RefreshOverlapOnReferenceLine`, `Frame::CreateStopObstacle`, `ReferenceLineInfo::AddObstacle` and `ReferenceLine::GetReferencePoint` are foreign calls. They are function parameters or a verdict flag, and their code is not part of this model.
- The frame's own obstacle list, which `Frame::CreateStopObstacle` also updates, is not modelled.
- `PathDecision::AddLongitudinalDecision` merges a decision into the obstacle's decisions. The model keeps a ledger keyed by (source, obstacle id) where a later write replaces an earlier one.
- `decider_creep.h` is not part of this model. The value of `CREEP_VO_ID_PREFIX` is therefore a constructor argument of the decider (`voIdPrefix`).
- The frame and reference-line arguments of `FindCreepDistance` are dropped, since the policy does not read them.
- `CheckCreepDone` receives the obstacles of `path_decision().obstacles().Items()` as a sequence in stored order, and the vehicle's SL-boundary `end_s` as a number.
- The counter is static in the source, shared by every decider instance and every thread. The model keeps it as a field of one decider object.
- IEEE double rounding is not modelled: all distances and times are exact reals, and `1e-6` is exact.
