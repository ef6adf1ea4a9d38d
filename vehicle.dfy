/**
 * The collection drone (class Drone, ai_waste_route_demo.py lines 71-90):
 * its position, cargo, battery, operating state, target and countdown.
 */
module Vehicle {
  import opened Params
  import opened Options
  import opened Geometry
  import opened Ocean

  /** The drone's operating states: IDLE, MOVING, IDENTIFYING, COLLECTING and RETURN. */
  datatype Mode = Idle | Moving | Identifying | Collecting | Return

  /**
   * The drone's state as a value. The target is the index of the pursued
   * object in the object list; the speed is the constant DroneSpeed.
   */
  datatype DroneState = DroneState(x: real, y: real, load: real, battery: real,
                                   mode: Mode, target: Option<nat>, timer: real)

  /** The states in which the drone works on a target. */
  predicate Busy(m: Mode) {
    m == Moving || m == Identifying || m == Collecting
  }

  /** The state Drone() starts in: at the base, empty, fully charged, idle. */
  function Initial(): (d: DroneState)
    ensures d.x == BaseX && d.y == BaseY && d.load == 0.0 && d.battery == BatteryMax
    ensures d.mode == Idle && d.target == None && d.timer == 0.0
  {
    DroneState(BaseX, BaseY, 0.0, BatteryMax, Idle, None, 0.0)
  }

  /**
   * drone.dist(obj): the distance from the drone to an object, for a length
   * h non-negative and zero exactly when the drone is at the object.
   */
  function DistTo(h: Hypot, d: DroneState, o: Obj): (r: real)
    ensures IsHypot(h) ==> 0.0 <= r && (r == 0.0 <==> d.x == o.x && d.y == o.y)
  {
    Dist(h, d.x, d.y, o.x, o.y)
  }

  /**
   * move_to(tx, ty): a step of DroneSpeed * Dt along the unit vector towards
   * (tx, ty), paid for with BatteryMoveCost; when the distance is zero
   * nothing happens. Only position and battery ever change.
   */
  function MovedToward(d: DroneState, tx: real, ty: real, h: Hypot): (r: DroneState)
    ensures r.load == d.load && r.mode == d.mode && r.target == d.target && r.timer == d.timer
    ensures r == d || r.battery == d.battery - BatteryMoveCost
    ensures r.battery <= d.battery
  {
    var dx := tx - d.x;
    var dy := ty - d.y;
    var dd := h(dx, dy);
    if dd > 0.0 then
      d.(x := d.x + dx / dd * DroneSpeed * Dt, y := d.y + dy / dd * DroneSpeed * Dt,
         battery := d.battery - BatteryMoveCost)
    else d
  }

  /** move_to the drone's own position (distance zero) changes nothing. */
  lemma MoveToHereIsNoOp(d: DroneState, h: Hypot)
    requires IsHypot(h)
    ensures MovedToward(d, d.x, d.y, h) == d
  {
    assert h(d.x - d.x, d.y - d.y) == 0.0;
  }

  /** move_to any other point costs exactly BatteryMoveCost. */
  lemma MoveToElsewhereCosts(d: DroneState, tx: real, ty: real, h: Hypot)
    requires IsHypot(h)
    requires tx != d.x || ty != d.y
    ensures MovedToward(d, tx, ty, h).battery == d.battery - BatteryMoveCost
    ensures MovedToward(d, tx, ty, h) != d
  {
    assert h(tx - d.x, ty - d.y) > 0.0;
  }

  /** The drone (class Drone), updated in place by the simulation step. */
  class Drone {
    var x: real
    var y: real
    var load: real
    var battery: real
    var mode: Mode
    var target: Option<nat>
    var timer: real

    function Snapshot(): (s: DroneState)
      reads this
      ensures s.mode == mode && s.target == target && s.load == load && s.battery == battery
    {
      DroneState(x, y, load, battery, mode, target, timer)
    }

    /** Drone(): at the base, empty, fully charged and idle. */
    constructor ()
      ensures Snapshot() == Initial()
    {
      x, y := BaseX, BaseY;
      load := 0.0;
      battery := BatteryMax;
      mode := Idle;
      target := None;
      timer := 0.0;
    }

    /** drone.dist(obj). */
    function Dist(o: OceanObject, h: Hypot): (r: real)
      reads this, o
      ensures r == DistTo(h, Snapshot(), o.Snapshot())
    {
      h(x - o.x, y - o.y)
    }

    /** move_to(tx, ty), in place. */
    method MoveTo(tx: real, ty: real, h: Hypot)
      modifies this
      ensures Snapshot() == MovedToward(old(Snapshot()), tx, ty, h)
    {
      var dx, dy := tx - x, ty - y;
      var d := h(dx, dy);
      if d > 0.0 {
        x := x + dx / d * DroneSpeed * Dt;
        y := y + dy / d * DroneSpeed * Dt;
        battery := battery - BatteryMoveCost;
      }
    }
  }
}
