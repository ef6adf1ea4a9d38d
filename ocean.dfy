/**
 * Ocean objects (class OceanObject, ai_waste_route_demo.py lines 27-66):
 * surface trash, animals and seabed trash that drift with the current.
 */
module Ocean {
  import opened Params

  datatype Kind = SurfaceTrash | Animal | SeabedTrash

  /**
   * The state of one object as the simulation sees it. The cosmetic
   * visual_size is left out; move_factor is determined by the kind
   * (MoveFactor).
   */
  datatype Obj = Obj(kind: Kind, detected: bool, x: real, y: real, vx: real, vy: real, amount: real)

  /** The drift scale of each kind: seabed trash is anchored and drifts at a quarter. */
  function MoveFactor(k: Kind): (f: real)
    ensures 0.0 < f <= 1.0
  {
    if k == SeabedTrash then 0.25 else 1.0
  }

  predicate InArea(v: real) {
    0.0 <= v <= MapSize
  }

  /** np.clip(v, 0, MAP_SIZE). */
  function Clip(v: real): (r: real)
    ensures InArea(r)
    ensures InArea(v) ==> r == v
    ensures v < 0.0 ==> r == 0.0
    ensures MapSize < v ==> r == MapSize
  {
    if v < 0.0 then 0.0 else if MapSize < v then MapSize else v
  }

  /**
   * The boundary test of move: a coordinate at or beyond either wall. A
   * coordinate for which it is false lies inside the area and is left alone
   * by the clip; one for which it is true is clipped onto a wall.
   */
  predicate AtWall(v: real): (b: bool)
    ensures !b ==> InArea(v) && Clip(v) == v
    ensures b ==> Clip(v) == 0.0 || Clip(v) == MapSize
  {
    v <= 0.0 || v >= MapSize
  }

  /**
   * What an object promises at every tick: it lies in the area, an animal
   * carries nothing, trash carries a positive amount (depleted trash is
   * removed), and only seabed trash can be undetected.
   */
  predicate ObjOk(o: Obj) {
    InArea(o.x) && InArea(o.y)
    && (if o.kind == Animal then o.amount == 0.0 else o.amount > 0.0)
    && (o.kind != SeabedTrash ==> o.detected)
  }

  /**
   * OceanObject.move: one drift step under the current (cx, cy). A locked
   * object stays exactly as it was; otherwise the position moves by
   * (velocity + current) * move factor, each velocity component is flipped
   * when its new coordinate is at a wall, and the position is clipped into
   * the area. So a bounce only reverses a component, and only an object
   * left on a wall has a reversed one.
   */
  function Drifted(o: Obj, cx: real, cy: real, locked: bool): (r: Obj)
    ensures locked ==> r == o
    ensures !locked ==> InArea(r.x) && InArea(r.y)
    ensures !locked ==> r.x == Clip(o.x + (o.vx + cx) * MoveFactor(o.kind))
                        && r.y == Clip(o.y + (o.vy + cy) * MoveFactor(o.kind))
    ensures r.kind == o.kind && r.detected == o.detected && r.amount == o.amount
    ensures ObjOk(o) ==> ObjOk(r)
    ensures DriftedVelocity(o, cx, cy, locked, r)
    ensures (r.vx == o.vx || r.vx == -o.vx) && (r.vy == o.vy || r.vy == -o.vy)
    ensures r.vx != o.vx ==> r.x == 0.0 || r.x == MapSize
    ensures r.vy != o.vy ==> r.y == 0.0 || r.y == MapSize
  {
    if locked then o
    else
      var nx := o.x + (o.vx + cx) * MoveFactor(o.kind);
      var ny := o.y + (o.vy + cy) * MoveFactor(o.kind);
      o.(x := Clip(nx), y := Clip(ny),
         vx := if AtWall(nx) then -o.vx else o.vx,
         vy := if AtWall(ny) then -o.vy else o.vy)
  }

  /**
   * How move treats the velocity: vx is negated exactly when the unclipped
   * new x is at a wall and kept otherwise; likewise vy with y.
   */
  predicate DriftedVelocity(o: Obj, cx: real, cy: real, locked: bool, r: Obj) {
    var nx := o.x + (o.vx + cx) * MoveFactor(o.kind);
    var ny := o.y + (o.vy + cy) * MoveFactor(o.kind);
    !locked ==>
      (r.vx == if AtWall(nx) then -o.vx else o.vx)
      && (r.vy == if AtWall(ny) then -o.vy else o.vy)
      && (!AtWall(nx) ==> r.x == nx)
      && (!AtWall(ny) ==> r.y == ny)
  }

  /**
   * The passive sonar sweep of update (lines 147-149): undetected seabed
   * trash within SonarRange of the drone becomes detected. Detection is
   * never withdrawn and nothing else changes.
   */
  function Sensed(o: Obj, dist: real): (r: Obj)
    ensures o.detected ==> r.detected
    ensures r.detected <==> o.detected || (o.kind == SeabedTrash && dist < SonarRange)
    ensures r == o.(detected := r.detected)
  {
    if o.kind == SeabedTrash && !o.detected && dist < SonarRange then o.(detected := true) else o
  }

  /**
   * An object of the simulation (class OceanObject). Its kind never changes;
   * its position, velocity, amount and detection are updated in place.
   */
  class OceanObject {
    const kind: Kind
    var detected: bool
    var x: real
    var y: real
    var vx: real
    var vy: real
    var amount: real

    /** The object's current state as a value. */
    function Snapshot(): (s: Obj)
      reads this
      ensures s.kind == kind && s.amount == amount
    {
      Obj(kind, detected, x, y, vx, vy, amount)
    }

    /**
     * The constructor with its random draws as parameters: x0 and y0 are
     * uniform in [10, MAP_SIZE - 10], amount0 in [5, 12] for surface trash
     * and in [10, 25] for seabed trash, which also sinks by a depth in
     * [5, 10]; the velocity components are uniform in [-0.3, 0.3].
     */
    constructor (kind: Kind, x0: real, y0: real, amount0: real, depth: real, vx0: real, vy0: real)
      requires 10.0 <= x0 <= MapSize - 10.0 && 10.0 <= y0 <= MapSize - 10.0
      requires kind == SurfaceTrash ==> 5.0 <= amount0 <= 12.0
      requires kind == SeabedTrash ==> 10.0 <= amount0 <= 25.0 && 5.0 <= depth <= 10.0
      requires -0.3 <= vx0 <= 0.3 && -0.3 <= vy0 <= 0.3
      ensures Snapshot() == Obj(kind, kind != SeabedTrash, x0,
                                if kind == SeabedTrash then y0 - depth else y0,
                                vx0, vy0, if kind == Animal then 0.0 else amount0)
      ensures ObjOk(Snapshot())
    {
      this.kind := kind;
      detected := kind != SeabedTrash;
      x := x0;
      if kind == SurfaceTrash {
        y := y0;
        amount := amount0;
      } else if kind == Animal {
        y := y0;
        amount := 0.0;
      } else {
        y := y0 - depth;
        amount := amount0;
      }
      vx := vx0;
      vy := vy0;
    }

    /** OceanObject.move: one drift step in place. */
    method Move(cx: real, cy: real, locked: bool)
      modifies this
      ensures Snapshot() == Drifted(old(Snapshot()), cx, cy, locked)
    {
      if locked {
        return;
      }
      x := x + (vx + cx) * MoveFactor(kind);
      y := y + (vy + cy) * MoveFactor(kind);
      if x <= 0.0 || x >= MapSize {
        vx := -vx;
      }
      if y <= 0.0 || y >= MapSize {
        vy := -vy;
      }
      x := Clip(x);
      y := Clip(y);
    }
  }
}
