/**
 * One tick of the simulation (the non-rendering body of update,
 * ai_waste_route_demo.py lines 128-205), as a function on values:
 * resample the current, drift and sense every object, run the drone's state
 * machine, apply the return override, and run the return step.
 */
module Simulation {
  import opened Params
  import opened Options
  import opened Geometry
  import opened Ocean
  import opened Vehicle
  import opened Selector

  /** The whole simulation state: the objects, the drone, the current and frame_count. */
  datatype WorldState = WorldState(objects: seq<Obj>, drone: DroneState, current: Vec, frame: nat)

  /** objects.remove(obj) for the object at index t. */
  function RemoveAt<T>(s: seq<T>, t: nat): (r: seq<T>)
    requires t < |s|
    ensures |r| == |s| - 1
    ensures forall i :: 0 <= i < t ==> r[i] == s[i]
    ensures forall i :: t <= i < |r| ==> r[i] == s[i + 1]
  {
    s[..t] + s[t + 1..]
  }

  /** Python's min(a, b). */
  function Min(a: real, b: real): (r: real)
    ensures r <= a && r <= b && (r == a || r == b)
  {
    if b < a then b else a
  }

  /** The object at index i is frozen: the drone is identifying or collecting it (line 144). */
  predicate Locked(d: DroneState, i: nat): (b: bool)
    ensures b ==> Busy(d.mode) && d.mode != Moving && d.target == Some(i)
  {
    (d.mode == Collecting || d.mode == Identifying) && d.target == Some(i)
  }

  /** The drone's target, where it has one, names an existing object. */
  predicate TargetOk(w: WorldState) {
    Busy(w.drone.mode) ==> w.drone.target.Some? && w.drone.target.value < |w.objects|
  }

  /**
   * A battery or cargo limit that sends the drone home (line 196): a drone
   * that hits neither has more than ReturnBattery left and room in its cargo.
   */
  predicate LimitHit(d: DroneState): (b: bool)
    ensures !b ==> ReturnBattery < d.battery && d.load < MaxCapacity
  {
    d.battery <= ReturnBattery || d.load >= MaxCapacity
  }

  /**
   * The invariant every tick keeps: every object is valid; the cargo lies in
   * [0, MaxCapacity] and the battery never exceeds BatteryMax; the drone has
   * a target exactly in MOVING, IDENTIFYING and COLLECTING, and that target
   * is an existing object that is not an animal; and the drone is in RETURN
   * exactly when a limit is hit.
   */
  predicate Inv(w: WorldState) {
    var d := w.drone;
    (forall i :: 0 <= i < |w.objects| ==> ObjOk(w.objects[i]))
    && 0.0 <= d.load <= MaxCapacity && d.battery <= BatteryMax
    && (d.target.Some? <==> Busy(d.mode))
    && (d.target.Some? ==> d.target.value < |w.objects| && w.objects[d.target.value].kind != Animal)
    && (d.mode == Return <==> LimitHit(d))
  }

  /** The state of the simulation before its first frame. */
  predicate IsStart(w: WorldState) {
    (forall i :: 0 <= i < |w.objects| ==> ObjOk(w.objects[i]))
    && w.drone == Vehicle.Initial() && w.frame == 0
  }

  /** Lines 130 and 137-141: count the frame and resample the current every CurrentChangeInterval frames. */
  function Resample(w: WorldState, sample: Vec): (r: WorldState)
    ensures r.objects == w.objects && r.drone == w.drone && r.frame == w.frame + 1
    ensures r.current == if (w.frame + 1) % CurrentChangeInterval == 0 then sample else w.current
  {
    var f := w.frame + 1;
    w.(frame := f, current := if f % CurrentChangeInterval == 0 then sample else w.current)
  }

  /**
   * One object's share of lines 143-149: drift unless locked, then the sonar
   * sweep. A locked object keeps its position and velocity, an unlocked one
   * ends inside the area; kind and amount never change, detection is never
   * withdrawn, and a valid object stays valid.
   */
  function AdvanceObject(o: Obj, i: nat, d: DroneState, c: Vec, h: Hypot): (r: Obj)
    ensures Locked(d, i) ==> r == o.(detected := r.detected)
    ensures !Locked(d, i) ==> InArea(r.x) && InArea(r.y)
    ensures r.kind == o.kind && r.amount == o.amount
    ensures o.detected ==> r.detected
    ensures ObjOk(o) ==> ObjOk(r)
  {
    var m := Drifted(o, c.x, c.y, Locked(d, i));
    Sensed(m, DistTo(h, d, m))
  }

  /** Lines 143-149: every object drifts and is swept by the sonar. */
  function AdvanceAll(w: WorldState, h: Hypot): (r: WorldState)
    ensures r.drone == w.drone && r.current == w.current && r.frame == w.frame
    ensures |r.objects| == |w.objects|
    ensures forall i :: 0 <= i < |w.objects| ==>
      r.objects[i] == AdvanceObject(w.objects[i], i, w.drone, w.current, h)
  {
    w.(objects := seq(|w.objects|, i requires 0 <= i < |w.objects| =>
                       AdvanceObject(w.objects[i], i, w.drone, w.current, h)))
  }

  /**
   * Lines 154-157: an idle drone takes select_target's pick as its target,
   * and is MOVING if there is one and IDLE otherwise; nothing else changes.
   */
  function IdleStep(w: WorldState, h: Hypot): (r: WorldState)
    ensures r.objects == w.objects && r.current == w.current && r.frame == w.frame
    ensures r.drone.target == SelectTarget(w.drone, w.objects, h)
    ensures r.drone.mode == (if r.drone.target.Some? then Moving else Idle)
    ensures r.drone == w.drone.(target := r.drone.target, mode := r.drone.mode)
  {
    var t := SelectTarget(w.drone, w.objects, h);
    w.(drone := w.drone.(target := t, mode := if t.Some? then Moving else Idle))
  }

  /** Lines 159-163: move towards the target; on reaching it start identifying. */
  function MovingStep(w: WorldState, h: Hypot): (r: WorldState)
    requires w.drone.target.Some? && w.drone.target.value < |w.objects|
    ensures r.objects == w.objects && r.current == w.current && r.frame == w.frame
    ensures r.drone.target == w.drone.target && r.drone.load == w.drone.load
    ensures r.drone.battery == w.drone.battery || r.drone.battery == w.drone.battery - BatteryMoveCost
    ensures (r.drone.mode == Identifying && r.drone.timer == IdentifyTime)
            || (r.drone.mode == w.drone.mode && r.drone.timer == w.drone.timer)
  {
    var o := w.objects[w.drone.target.value];
    var d := MovedToward(w.drone, o.x, o.y, h);
    if DistTo(h, d, o) < TargetReach then w.(drone := d.(timer := IdentifyTime, mode := Identifying))
    else w.(drone := d)
  }

  /**
   * Lines 165-176: count down the identification; when it ends, an animal is
   * removed and the drone goes idle, trash starts being collected.
   */
  function IdentifyingStep(w: WorldState): (r: WorldState)
    requires w.drone.target.Some? && w.drone.target.value < |w.objects|
    ensures r.current == w.current && r.frame == w.frame
    ensures r.drone.x == w.drone.x && r.drone.y == w.drone.y && r.drone.load == w.drone.load
    ensures r.drone.battery == w.drone.battery - BatteryIdentifyCost
    ensures (r.objects == w.objects && r.drone.target == w.drone.target)
            || (w.objects[w.drone.target.value].kind == Animal
                && r.objects == RemoveAt(w.objects, w.drone.target.value)
                && r.drone.target == None && r.drone.mode == Idle)
  {
    var t := w.drone.target.value;
    var d := w.drone.(timer := w.drone.timer - Dt, battery := w.drone.battery - BatteryIdentifyCost);
    if d.timer <= 0.0 then
      if w.objects[t].kind == Animal then
        w.(objects := RemoveAt(w.objects, t), drone := d.(target := None, mode := Idle))
      else
        w.(drone := d.(timer := w.objects[t].amount * CollectTimePerUnit, mode := Collecting))
    else w.(drone := d)
  }

  /**
   * Lines 178-194: count down the collection; when it ends, move
   * min(amount, MaxCapacity - load) from the target to the cargo, remove the
   * target if it is depleted, and go idle.
   */
  function CollectingStep(w: WorldState): (r: WorldState)
    requires w.drone.target.Some? && w.drone.target.value < |w.objects|
    ensures r.current == w.current && r.frame == w.frame
    ensures r.drone.x == w.drone.x && r.drone.y == w.drone.y
    ensures r.drone.timer == w.drone.timer - Dt && r.drone.battery == w.drone.battery - BatteryCollectCost
    ensures (r.objects == w.objects && r.drone.target == w.drone.target && r.drone.mode == w.drone.mode
             && r.drone.load == w.drone.load)
            || (r.drone.timer <= 0.0 && r.drone.target == None && r.drone.mode == Idle)
  {
    var w1 := w.(drone := w.drone.(timer := w.drone.timer - Dt, battery := w.drone.battery - BatteryCollectCost));
    if w1.drone.timer <= 0.0 then CollectionDone(w1) else w1
  }

  /** Lines 183-194: the transfer that ends a collection. */
  function CollectionDone(w: WorldState): (r: WorldState)
    requires w.drone.target.Some? && w.drone.target.value < |w.objects|
    ensures r.current == w.current && r.frame == w.frame
    ensures r.drone == w.drone.(load := r.drone.load, target := None, mode := Idle)
    ensures |r.objects| == |w.objects| ==>
      var t := w.drone.target.value;
      r.drone.load + r.objects[t].amount == w.drone.load + w.objects[t].amount && 0.0 < r.objects[t].amount
    ensures |r.objects| != |w.objects| ==>
      r.objects == RemoveAt(w.objects, w.drone.target.value)
      && r.drone.load == w.drone.load + w.objects[w.drone.target.value].amount
    ensures 0.0 <= w.drone.load <= MaxCapacity && 0.0 <= w.objects[w.drone.target.value].amount ==>
      w.drone.load <= r.drone.load <= MaxCapacity
  {
    var t := w.drone.target.value;
    var o := w.objects[t];
    var c := Min(o.amount, MaxCapacity - w.drone.load);
    var o' := o.(amount := o.amount - c);
    var objs := if o'.amount <= 0.0 then RemoveAt(w.objects, t) else w.objects[t := o'];
    w.(objects := objs, drone := w.drone.(load := w.drone.load + c, target := None, mode := Idle))
  }

  /** Lines 154-194: the state machine, one branch per state (RETURN has none). */
  function StateMachine(w: WorldState, h: Hypot): (r: WorldState)
    requires TargetOk(w)
    ensures r.current == w.current && r.frame == w.frame
    ensures |w.objects| - 1 <= |r.objects| <= |w.objects|
  {
    match w.drone.mode
    case Idle => IdleStep(w, h)
    case Moving => MovingStep(w, h)
    case Identifying => IdentifyingStep(w)
    case Collecting => CollectingStep(w)
    case Return => w
  }

  /** Lines 196-198: a hit limit abandons any activity and sends the drone home. */
  function Override(w: WorldState): (r: WorldState)
    ensures r.objects == w.objects && r.current == w.current && r.frame == w.frame
    ensures LimitHit(w.drone) ==> r.drone == w.drone.(mode := Return, target := None)
    ensures !LimitHit(w.drone) ==> r == w
  {
    if LimitHit(w.drone) then w.(drone := w.drone.(mode := Return, target := None)) else w
  }

  /**
   * Lines 200-205, run in the same tick as the override: a returning drone
   * moves towards the base and, on reaching it, unloads, recharges and goes idle.
   */
  function ReturnStep(w: WorldState, h: Hypot): (r: WorldState)
    ensures r.objects == w.objects && r.current == w.current && r.frame == w.frame
    ensures w.drone.mode != Return ==> r == w
  {
    if w.drone.mode == Return then
      var d := MovedToward(w.drone, BaseX, BaseY, h);
      if Dist(h, d.x, d.y, BaseX, BaseY) < BaseReach then
        w.(drone := d.(load := 0.0, battery := BatteryMax, mode := Idle))
      else w.(drone := d)
    else w
  }

  /** One call of update: the phases in their source order. */
  function Tick(w: WorldState, sample: Vec, h: Hypot): (r: WorldState)
    requires TargetOk(w)
    ensures r.frame == w.frame + 1
    ensures r.current == if (w.frame + 1) % CurrentChangeInterval == 0 then sample else w.current
    ensures |w.objects| - 1 <= |r.objects| <= |w.objects|
  {
    var w1 := Resample(w, sample);
    var w2 := AdvanceAll(w1, h);
    var w3 := StateMachine(w2, h);
    ReturnStep(Override(w3), h)
  }
}
