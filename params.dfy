/**
 * The simulation's tunable constants, as defined at the top of
 * ai_waste_route_demo.py (lines 10-22), the base position (line 111), the
 * drone speed (line 74) and the literals of the update step.
 * Python floats are modelled as Dafny reals.
 */
module Params {
  /** Side of the square area; every coordinate lies in [0, MapSize]. */
  const MapSize: real := 100.0
  /** Length of one tick. */
  const Dt: real := 0.1

  const MaxCapacity: real := 50.0
  const BatteryMax: real := 100.0

  const BatteryMoveCost: real := 0.4
  const BatteryCollectCost: real := 0.3
  const BatteryIdentifyCost: real := 0.2

  /** The ambient current is resampled on every frame number divisible by this. */
  const CurrentChangeInterval: nat := 40
  const SonarRange: real := 10.0
  /** Duration of the camera identification of a reached target. */
  const IdentifyTime: real := 1.0

  /** Drone speed (Drone.speed, never changed after construction). */
  const DroneSpeed: real := 12.0
  /** The home base (BASE). */
  const BaseX: real := 50.0
  const BaseY: real := 50.0

  /** Battery level at or below which the drone is sent home. */
  const ReturnBattery: real := 20.0
  /** Distance below which the drone has reached its target. */
  const TargetReach: real := 1.2
  /** Distance below which the drone has reached the base. */
  const BaseReach: real := 1.5
  /** Collection time per unit of amount. */
  const CollectTimePerUnit: real := 0.3
  /** Weight of the amount in the priority score. */
  const PriorityWeight: real := 10.0
  /** Priority given to anything that is not trash. */
  const NonTrashPriority: real := -999.0
}
