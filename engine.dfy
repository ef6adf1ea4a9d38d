/**
 * The simulation as the source runs it: mutable objects in a list, one
 * mutable drone, and the globals current and frame_count, advanced in place
 * by update (ai_waste_route_demo.py lines 113-205). Each method is proved to
 * do to the heap what Simulation says of values.
 */
module Engine {
  import opened Params
  import opened Options
  import opened Geometry
  import opened Ocean
  import opened Vehicle
  import opened Selector
  import opened Simulation
  import opened Properties

  /** The states of a list of objects, in order. */
  function States(objs: seq<OceanObject>): (r: seq<Obj>)
    reads objs
    ensures |r| == |objs|
    ensures forall i :: 0 <= i < |objs| ==> r[i] == objs[i].Snapshot()
  {
    seq(|objs|, i reads objs requires 0 <= i < |objs| => objs[i].Snapshot())
  }

  /** No object occurs twice in the list. */
  predicate Distinct(objs: seq<OceanObject>) {
    forall i, j :: 0 <= i < j < |objs| ==> objs[i] != objs[j]
  }

  lemma RemoveAtDistinct(objs: seq<OceanObject>, t: nat)
    requires Distinct(objs) && t < |objs|
    ensures Distinct(RemoveAt(objs, t))
    ensures forall o :: o in RemoveAt(objs, t) ==> o in objs
  {
    var r := RemoveAt(objs, t);
    forall i, j | 0 <= i < j < |r| ensures r[i] != r[j] {
      var i' := if i < t then i else i + 1;
      var j' := if j < t then j else j + 1;
      assert r[i] == objs[i'] && r[j] == objs[j'];
    }
    forall o | o in r ensures o in objs {
      var k :| 0 <= k < |r| && r[k] == o;
      assert o == objs[if k < t then k else k + 1];
    }
  }

  /** The world: the object list, the drone, the current and the frame counter. */
  class World {
    /** math.hypot, which the model does not compute. */
    const hypot: Hypot
    const drone: Drone
    var objects: seq<OceanObject>
    var current: Vec
    var frameCount: nat

    function Model(): WorldState
      reads this, drone, objects
    {
      WorldState(States(objects), drone.Snapshot(), current, frameCount)
    }

    ghost predicate Valid()
      reads this, drone, objects
    {
      Distinct(objects) && Inv(Model())
    }

    /**
     * The initialisation of lines 113-121: seven surface trash objects, four
     * animals and six seabed trash objects, a fresh drone, the first current
     * drawn from [-0.4, 0.4] in each component, and frame_count = 0.
     */
    constructor (objs: seq<OceanObject>, current0: Vec, h: Hypot)
      requires Distinct(objs) && |objs| == 17
      requires forall i :: 0 <= i < |objs| ==> ObjOk(objs[i].Snapshot())
      requires forall i :: 0 <= i < 7 ==> objs[i].kind == SurfaceTrash
      requires forall i :: 7 <= i < 11 ==> objs[i].kind == Animal
      requires forall i :: 11 <= i < 17 ==> objs[i].kind == SeabedTrash
      requires -0.4 <= current0.x <= 0.4 && -0.4 <= current0.y <= 0.4
      ensures Valid() && fresh(drone)
      ensures objects == objs && hypot == h
      ensures IsStart(Model()) && Model().objects == States(objs) && Model().current == current0
    {
      hypot := h;
      drone := new Drone();
      objects := objs;
      current := current0;
      frameCount := 0;
      new;
      StartInv(Model());
    }

    /** Lines 130 and 137-141. */
    method ResampleCurrent(sample: Vec)
      modifies this
      ensures objects == old(objects)
      ensures Model() == Resample(old(Model()), sample)
    {
      frameCount := frameCount + 1;
      if frameCount % CurrentChangeInterval == 0 {
        current := sample;
      }
    }

    /** Lines 143-149: the loop that drifts and senses every object in place. */
    method AdvanceObjects()
      requires Distinct(objects)
      modifies objects
      ensures Model() == AdvanceAll(old(Model()), hypot)
    {
      ghost var d := drone.Snapshot();
      ghost var objs := States(objects);
      ghost var target := AdvanceAll(Model(), hypot).objects;
      var i: nat := 0;
      while i < |objects|
        invariant i <= |objects| && drone.Snapshot() == d
        invariant forall j :: 0 <= j < i ==> objects[j].Snapshot() == target[j]
        invariant forall j :: i <= j < |objects| ==> objects[j].Snapshot() == objs[j]
      {
        assert forall j :: 0 <= j < |objects| && j != i ==> objects[j] != objects[i];
        AdvanceOne(objects[i], i);
        i := i + 1;
      }
      assert States(objects) == target;
    }

    /** One pass of that loop: drift unless locked (lines 144-145), then the sonar sweep (lines 147-149). */
    method AdvanceOne(o: OceanObject, i: nat)
      modifies o
      ensures o.Snapshot() == AdvanceObject(old(o.Snapshot()), i, drone.Snapshot(), current, hypot)
    {
      var locked := (drone.mode == Collecting || drone.mode == Identifying) && drone.target == Some(i);
      o.Move(current.x, current.y, locked);
      if o.kind == SeabedTrash && !o.detected {
        if drone.Dist(o, hypot) < SonarRange {
          o.detected := true;
        }
      }
    }

    /** Lines 154-194: the drone's state machine, in place. */
    method RunStateMachine()
      requires Distinct(objects) && TargetOk(Model())
      modifies drone, objects, this`objects
      ensures Distinct(objects) && forall o :: o in objects ==> o in old(objects)
      ensures Model() == StateMachine(old(Model()), hypot)
    {
      match drone.mode
      case Idle => IdleInPlace();
      case Moving => MovingInPlace();
      case Identifying => IdentifyingInPlace();
      case Collecting => CollectingInPlace();
      case Return =>
    }

    /** Lines 154-157. */
    method IdleInPlace()
      requires drone.mode == Idle
      modifies drone
      ensures Model() == IdleStep(old(Model()), hypot)
    {
      ghost var objs := States(objects);
      var t := SelectTarget(drone.Snapshot(), States(objects), hypot);
      drone.target := t;
      if t.Some? {
        drone.mode := Moving;
      }
      assert States(objects) == objs;
    }

    /** Lines 159-163. */
    method MovingInPlace()
      requires drone.mode == Moving && drone.target.Some? && drone.target.value < |objects|
      modifies drone
      ensures Model() == MovingStep(old(Model()), hypot)
    {
      ghost var objs := States(objects);
      var o := objects[drone.target.value];
      drone.MoveTo(o.x, o.y, hypot);
      if drone.Dist(o, hypot) < TargetReach {
        drone.timer := IdentifyTime;
        drone.mode := Identifying;
      }
      assert States(objects) == objs;
    }

    /** Lines 165-176. */
    method IdentifyingInPlace()
      requires drone.mode == Identifying && Distinct(objects) && drone.target.Some? && drone.target.value < |objects|
      modifies drone, this`objects
      ensures Distinct(objects) && forall o :: o in objects ==> o in old(objects)
      ensures Model() == IdentifyingStep(old(Model()))
    {
      ghost var objs := States(objects);
      drone.timer := drone.timer - Dt;
      drone.battery := drone.battery - BatteryIdentifyCost;
      assert States(objects) == objs;
      if drone.timer <= 0.0 {
        var t := drone.target.value;
        if objects[t].kind == Animal {
          RemoveObject(t);
          drone.target := None;
          drone.mode := Idle;
        } else {
          drone.timer := objects[t].amount * CollectTimePerUnit;
          drone.mode := Collecting;
          assert States(objects) == objs;
        }
      }
    }

    /** Lines 178-194. */
    method CollectingInPlace()
      requires drone.mode == Collecting && Distinct(objects)
      requires drone.target.Some? && drone.target.value < |objects|
      modifies drone, objects, this`objects
      ensures Distinct(objects) && forall o :: o in objects ==> o in old(objects)
      ensures Model() == CollectingStep(old(Model()))
    {
      ghost var objs := States(objects);
      drone.timer := drone.timer - Dt;
      drone.battery := drone.battery - BatteryCollectCost;
      assert States(objects) == objs;
      if drone.timer <= 0.0 {
        FinishCollection();
      }
    }

    /** Lines 183-194. */
    method FinishCollection()
      requires Distinct(objects) && drone.target.Some? && drone.target.value < |objects|
      modifies drone, objects, this`objects
      ensures Distinct(objects) && forall o :: o in objects ==> o in old(objects)
      ensures Model() == CollectionDone(old(Model()))
    {
      ghost var w := Model();
      var t := drone.target.value;
      var o := objects[t];
      var c := Min(o.amount, MaxCapacity - drone.load);
      ghost var r := CollectionDone(w);
      drone.load := drone.load + c;
      Drain(t, c);
      if o.amount <= 0.0 {
        RemoveObject(t);
      }
      ghost var objs := States(objects);
      assert objs == r.objects;
      drone.target := None;
      drone.mode := Idle;
      assert drone.Snapshot() == r.drone;
      assert States(objects) == objs;
    }

    /** target.real_amount -= c (line 188). */
    method Drain(t: nat, c: real)
      requires Distinct(objects) && t < |objects|
      modifies objects[t]
      ensures States(objects) == old(States(objects))[t := old(objects[t].Snapshot()).(amount := old(objects[t].amount) - c)]
    {
      objects[t].amount := objects[t].amount - c;
    }

    /** objects.remove(target) (lines 171 and 191) for the target at index t. */
    method RemoveObject(t: nat)
      requires Distinct(objects) && t < |objects|
      modifies this`objects
      ensures objects == RemoveAt(old(objects), t)
      ensures States(objects) == RemoveAt(old(States(objects)), t)
      ensures Distinct(objects) && forall o :: o in objects ==> o in old(objects)
    {
      RemoveAtDistinct(objects, t);
      objects := RemoveAt(objects, t);
    }

    /** Lines 196-198. */
    method ApplyOverride()
      modifies drone
      ensures Model() == Override(old(Model()))
    {
      ghost var objs := States(objects);
      if drone.battery <= ReturnBattery || drone.load >= MaxCapacity {
        drone.mode := Return;
        drone.target := None;
      }
      assert States(objects) == objs;
    }

    /** Lines 200-205. */
    method ReturnToBase()
      modifies drone
      ensures Model() == ReturnStep(old(Model()), hypot)
    {
      ghost var objs := States(objects);
      if drone.mode == Return {
        drone.MoveTo(BaseX, BaseY, hypot);
        if hypot(drone.x - BaseX, drone.y - BaseY) < BaseReach {
          drone.load := 0.0;
          drone.battery := BatteryMax;
          drone.mode := Idle;
        }
      }
      assert States(objects) == objs;
    }

    /**
     * update(frame) without its drawing: one tick, in place. The world
     * afterwards is Tick of the world before, and stays valid.
     */
    method Step(sample: Vec)
      requires Valid()
      requires -0.5 <= sample.x <= 0.5 && -0.5 <= sample.y <= 0.5
      modifies this, drone, objects
      ensures Valid() && forall o :: o in objects ==> o in old(objects)
      ensures forall k :: 0 <= k < |objects| ==> objects[k] in old(objects)
      ensures Model() == Tick(old(Model()), sample, hypot)
    {
      ghost var w := Model();
      ResampleCurrent(sample);
      AdvanceObjects();
      RunStateMachine();
      ApplyOverride();
      ReturnToBase();
      TickKeepsInv(w, sample, hypot);
    }

    /**
     * The animation loop driving update once per frame, samples[k] being the
     * current drawn should frame k resample it: the world ends where
     * Properties.Run takes it, and stays valid.
     */
    method Animate(samples: seq<Vec>)
      requires Valid()
      requires forall k :: 0 <= k < |samples| ==> -0.5 <= samples[k].x <= 0.5 && -0.5 <= samples[k].y <= 0.5
      modifies this, drone, objects
      ensures Valid() && forall o :: o in objects ==> o in old(objects)
      ensures Model() == Run(old(Model()), samples, hypot)
    {
      ghost var target := Run(Model(), samples, hypot);
      var rest := samples;
      while rest != []
        invariant Valid()
        invariant forall o :: o in objects ==> o in old(objects)
        invariant forall k :: 0 <= k < |objects| ==> objects[k] in old(objects)
        invariant forall k :: 0 <= k < |rest| ==> -0.5 <= rest[k].x <= 0.5 && -0.5 <= rest[k].y <= 0.5
        invariant Run(Model(), rest, hypot) == target
        decreases |rest|
      {
        StepOfRun(rest);
        rest := rest[1..];
      }
    }

    /** One frame of Animate: the first sample's tick, leaving the run of the others. */
    method StepOfRun(rest: seq<Vec>)
      requires Valid() && rest != []
      requires -0.5 <= rest[0].x <= 0.5 && -0.5 <= rest[0].y <= 0.5
      modifies this, drone, objects
      ensures Valid() && forall o :: o in objects ==> o in old(objects)
      ensures forall k :: 0 <= k < |objects| ==> objects[k] in old(objects)
      ensures Run(Model(), rest[1..], hypot) == Run(old(Model()), rest, hypot)
    {
      RunUnfolds(Model(), rest, hypot);
      Step(rest[0]);
    }
  }
}
