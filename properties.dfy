/**
 * What one tick of the simulation promises, proved about Simulation.Tick
 * and its phases.
 */
module Properties {
  import opened Params
  import opened Options
  import opened Geometry
  import opened Ocean
  import opened Vehicle
  import opened Selector
  import opened Simulation

  /**
   * Inv without its RETURN clause, which the override re-establishes: what
   * holds between the state machine and the override.
   */
  predicate BeforeOverride(w: WorldState) {
    var d := w.drone;
    (forall i :: 0 <= i < |w.objects| ==> ObjOk(w.objects[i]))
    && 0.0 <= d.load <= MaxCapacity && d.battery <= BatteryMax
    && (d.target.Some? <==> Busy(d.mode))
    && (d.target.Some? ==> d.target.value < |w.objects| && w.objects[d.target.value].kind != Animal)
    && (d.mode == Return ==> LimitHit(d))
  }

  /** The first frame satisfies the invariant. */
  lemma StartInv(w: WorldState)
    requires IsStart(w)
    ensures Inv(w)
  {
  }

  /** Drift and sonar keep every object valid and leave the drone alone. */
  lemma {:induction false} AdvanceKeepsInv(w: WorldState, h: Hypot)
    requires Inv(w)
    ensures Inv(AdvanceAll(w, h))
  {
    var r := AdvanceAll(w, h);
    forall i | 0 <= i < |w.objects|
      ensures ObjOk(r.objects[i]) && r.objects[i].kind == w.objects[i].kind
    {
      var m := Drifted(w.objects[i], w.current.x, w.current.y, Locked(w.drone, i));
      assert ObjOk(m);
    }
  }

  /** The idle step selects a valid, non-animal target or stays idle. */
  lemma IdleStepKeeps(w: WorldState, h: Hypot)
    requires Inv(w) && w.drone.mode == Idle
    ensures BeforeOverride(StateMachine(w, h))
  {
    SelectTargetNeverAnimal(w.drone, w.objects, h);
  }

  /** Lines 154-157 in the state machine: the idle drone takes select_target's pick and moves if there is one. */
  lemma IdleSelects(w: WorldState, h: Hypot)
    requires w.drone.mode == Idle
    ensures var t := SelectTarget(w.drone, w.objects, h);
      var r := StateMachine(w, h);
      r.objects == w.objects && r.drone.target == t
      && r.drone.mode == (if t.Some? then Moving else Idle)
      && r.drone == w.drone.(target := t, mode := r.drone.mode)
  {
  }

  /** The collection step keeps the cargo within capacity and every remaining object valid. */
  lemma CollectingStepKeeps(w: WorldState, h: Hypot)
    requires Inv(w) && w.drone.mode == Collecting
    ensures BeforeOverride(StateMachine(w, h))
  {
    var t := w.drone.target.value;
    var r := StateMachine(w, h);
    if w.drone.timer - Dt <= 0.0 {
      var o := w.objects[t];
      var c := Min(o.amount, MaxCapacity - w.drone.load);
      if o.amount - c > 0.0 {
        assert r.objects == w.objects[t := o.(amount := o.amount - c)];
        forall i | 0 <= i < |r.objects| ensures ObjOk(r.objects[i]) {
          if i != t {
            assert r.objects[i] == w.objects[i];
          }
        }
      } else {
        assert r.objects == RemoveAt(w.objects, t);
        forall i | 0 <= i < |r.objects| ensures ObjOk(r.objects[i]) {
          if i < t {
            assert r.objects[i] == w.objects[i];
          } else {
            assert r.objects[i] == w.objects[i + 1];
          }
        }
      }
    }
  }

  /** The state machine keeps everything the invariant says except the RETURN clause. */
  lemma StateMachineKeeps(w: WorldState, h: Hypot)
    requires Inv(w)
    ensures BeforeOverride(StateMachine(w, h))
  {
    match w.drone.mode
    case Idle => IdleStepKeeps(w, h);
    case Moving =>
    case Identifying =>
    case Collecting => CollectingStepKeeps(w, h);
    case Return =>
  }

  /** The override re-establishes the invariant. */
  lemma OverrideRestores(w: WorldState)
    requires BeforeOverride(w)
    ensures Inv(Override(w))
  {
  }

  /** The return step keeps the invariant. */
  lemma ReturnStepKeeps(w: WorldState, h: Hypot)
    requires Inv(w)
    ensures Inv(ReturnStep(w, h))
  {
  }

  /** Every tick keeps the invariant. */
  lemma TickKeepsInv(w: WorldState, sample: Vec, h: Hypot)
    requires Inv(w)
    ensures Inv(Tick(w, sample, h))
  {
    var w1 := Resample(w, sample);
    var w2 := AdvanceAll(w1, h);
    AdvanceKeepsInv(w1, h);
    StateMachineKeeps(w2, h);
    var w3 := StateMachine(w2, h);
    OverrideRestores(w3);
    ReturnStepKeeps(Override(w3), h);
  }

  /** Reaching the target while moving (lines 159-163) starts an identification of exactly IdentifyTime. */
  lemma MovingArrival(w: WorldState, h: Hypot)
    requires w.drone.mode == Moving && w.drone.target.Some? && w.drone.target.value < |w.objects|
    ensures var o := w.objects[w.drone.target.value];
      var d := MovedToward(w.drone, o.x, o.y, h);
      var r := StateMachine(w, h);
      r.objects == w.objects && r.drone.target == w.drone.target
      && r.drone.x == d.x && r.drone.y == d.y && r.drone.battery == d.battery
      && (DistTo(h, d, o) < TargetReach ==> r.drone.mode == Identifying && r.drone.timer == IdentifyTime)
      && (TargetReach <= DistTo(h, d, o) ==> r.drone.mode == Moving && r.drone.timer == w.drone.timer)
  {
  }

  /**
   * The end of an identification (lines 165-176): an animal target is
   * removed, and only it, with the drone idle, target-less and its cargo
   * unchanged; a trash target starts a collection lasting amount * 0.3.
   */
  lemma IdentifyingEnds(w: WorldState, h: Hypot)
    requires w.drone.mode == Identifying && w.drone.target.Some? && w.drone.target.value < |w.objects|
    requires w.drone.timer - Dt <= 0.0
    ensures var t := w.drone.target.value;
      var r := StateMachine(w, h);
      r.drone.battery == w.drone.battery - BatteryIdentifyCost && r.drone.load == w.drone.load
      && (w.objects[t].kind == Animal ==>
            r.objects == RemoveAt(w.objects, t) && r.drone.target == None && r.drone.mode == Idle)
      && (w.objects[t].kind != Animal ==>
            r.objects == w.objects && r.drone.target == w.drone.target && r.drone.mode == Collecting
            && r.drone.timer == w.objects[t].amount * CollectTimePerUnit)
  {
  }

  /** While the identification countdown runs, only the timer and the battery change. */
  lemma IdentifyingContinues(w: WorldState, h: Hypot)
    requires w.drone.mode == Identifying && w.drone.target.Some? && w.drone.target.value < |w.objects|
    requires 0.0 < w.drone.timer - Dt
    ensures StateMachine(w, h) ==
      w.(drone := w.drone.(timer := w.drone.timer - Dt, battery := w.drone.battery - BatteryIdentifyCost))
  {
  }

  /**
   * In every reachable state the animal branch of identification is dead
   * code: the selector never picks an animal, so identifying never removes
   * an object.
   */
  lemma IdentifyingNeverRemoves(w: WorldState, h: Hypot)
    requires Inv(w) && w.drone.mode == Identifying
    ensures StateMachine(w, h).objects == w.objects
  {
  }

  /**
   * The end of a collection (lines 182-194): c = min(amount, MaxCapacity -
   * load) moves from the target to the cargo, so load + amount is unchanged,
   * the cargo stays within capacity and the amount stays non-negative; a
   * partial transfer fills the cargo. The target is removed exactly when
   * its amount is now zero; every other object is untouched.
   */
  lemma CollectingEnds(w: WorldState, h: Hypot)
    requires w.drone.mode == Collecting && w.drone.target.Some? && w.drone.target.value < |w.objects|
    requires w.drone.timer - Dt <= 0.0
    requires 0.0 <= w.drone.load <= MaxCapacity && 0.0 <= w.objects[w.drone.target.value].amount
    ensures var t := w.drone.target.value;
      var o := w.objects[t];
      var c := Min(o.amount, MaxCapacity - w.drone.load);
      var r := StateMachine(w, h);
      0.0 <= c && r.drone.load == w.drone.load + c && r.drone.load <= MaxCapacity
      && 0.0 <= o.amount - c
      && (c < o.amount ==> r.drone.load == MaxCapacity)
      && r.drone.target == None && r.drone.mode == Idle
      && r.drone.battery == w.drone.battery - BatteryCollectCost
      && (o.amount - c <= 0.0 ==> c == o.amount && r.objects == RemoveAt(w.objects, t))
      && (0.0 < o.amount - c ==> r.objects == w.objects[t := o.(amount := o.amount - c)]
                                 && r.drone.load + r.objects[t].amount == w.drone.load + o.amount)
  {
  }

  /** While the collection countdown runs, only the timer and the battery change. */
  lemma CollectingContinues(w: WorldState, h: Hypot)
    requires w.drone.mode == Collecting && w.drone.target.Some? && w.drone.target.value < |w.objects|
    requires 0.0 < w.drone.timer - Dt
    ensures StateMachine(w, h) ==
      w.(drone := w.drone.(timer := w.drone.timer - Dt, battery := w.drone.battery - BatteryCollectCost))
  {
  }

  /**
   * The override and the return step of one tick (lines 196-205): when the
   * state machine leaves a limit hit, the target is dropped whatever the
   * remaining countdown, and, since the return step is an `if` and not an
   * `elif`, the drone moves towards the base in that same tick: it ends
   * the tick returning, or idle at the base, unloaded and recharged.
   */
  lemma LimitSendsHome(w: WorldState, sample: Vec, h: Hypot)
    requires TargetOk(w)
    ensures var m := StateMachine(AdvanceAll(Resample(w, sample), h), h);
      var home := MovedToward(m.drone, BaseX, BaseY, h);
      var r := Tick(w, sample, h);
      LimitHit(m.drone) ==>
        r.drone.target == None && r.drone.timer == m.drone.timer
        && r.drone.x == home.x && r.drone.y == home.y
        && (r.drone.mode == Return || (r.drone.mode == Idle && r.drone.load == 0.0 && r.drone.battery == BatteryMax))
  {
  }

  /** Reaching the base (distance below BaseReach) unloads, recharges and idles the drone. */
  lemma BaseArrival(w: WorldState, h: Hypot)
    requires w.drone.mode == Return
    ensures var d := MovedToward(w.drone, BaseX, BaseY, h);
      var r := ReturnStep(w, h);
      (Dist(h, d.x, d.y, BaseX, BaseY) < BaseReach ==>
         r.drone.load == 0.0 && r.drone.battery == BatteryMax && r.drone.mode == Idle)
      && (BaseReach <= Dist(h, d.x, d.y, BaseX, BaseY) ==> r.drone == d)
  {
  }

  /**
   * The battery rises, and the cargo falls, only on arrival at the base,
   * which leaves the drone idle, empty and fully charged. Otherwise one tick
   * costs at most two moves' worth of battery.
   */
  lemma BatteryAndCargoAccounting(w: WorldState, sample: Vec, h: Hypot)
    requires Inv(w)
    ensures var r := Tick(w, sample, h);
      (w.drone.battery < r.drone.battery || r.drone.load < w.drone.load) ==>
        r.drone.battery == BatteryMax && r.drone.load == 0.0 && r.drone.mode == Idle
    ensures var r := Tick(w, sample, h);
      r.drone.battery == BatteryMax || w.drone.battery - 2.0 * BatteryMoveCost <= r.drone.battery
  {
    var w2 := AdvanceAll(Resample(w, sample), h);
    AdvanceKeepsInv(Resample(w, sample), h);
    var m := StateMachine(w2, h);
    assert w.drone.battery - BatteryMoveCost <= m.drone.battery <= w.drone.battery;
    assert w.drone.load <= m.drone.load;
  }

  /**
   * A tick changes the object list at the drone's target only: either the
   * list is as drift and sonar left it, or the target's amount fell while
   * staying positive, or the target was removed after its whole amount went
   * into the cargo.
   */
  lemma TickChangesOnlyTarget(w: WorldState, sample: Vec, h: Hypot)
    requires Inv(w)
    ensures var w2 := AdvanceAll(Resample(w, sample), h);
      var a := w2.objects;
      var r := Tick(w, sample, h).objects;
      var t := w.drone.target.GetOr(0);
      r == a
      || (w.drone.target.Some? && t < |a| && |r| == |a| && 0.0 < r[t].amount < a[t].amount
          && r == a[t := a[t].(amount := r[t].amount)])
      || (w.drone.target.Some? && t < |a| && a[t].kind != Animal
          && Min(a[t].amount, MaxCapacity - w.drone.load) == a[t].amount
          && r == RemoveAt(a, t))
  {
    var w2 := AdvanceAll(Resample(w, sample), h);
    AdvanceKeepsInv(Resample(w, sample), h);
    match w2.drone.mode
    case Idle =>
    case Moving =>
    case Identifying =>
    case Collecting =>
      if w2.drone.timer - Dt <= 0.0 {
        CollectingEnds(w2, h);
      }
    case Return =>
  }

  /** The index an object had before a tick, given the index the tick removed, if any. */
  function Origin(i: nat, removed: Option<nat>): nat {
    if removed.Some? && removed.value <= i then i + 1 else i
  }

  /** The index a tick removed from the object list: the target's, or none. */
  function RemovedIndex(w: WorldState, sample: Vec, h: Hypot): Option<nat>
    requires TargetOk(w)
  {
    if |Tick(w, sample, h).objects| < |w.objects| then w.drone.target else None
  }

  /**
   * Sonar detection is monotone: every object that survives a tick keeps its
   * kind, and it is still detected if it was detected before.
   */
  lemma TickKeepsDetection(w: WorldState, sample: Vec, h: Hypot)
    requires Inv(w)
    ensures var r := Tick(w, sample, h).objects;
      var rm := RemovedIndex(w, sample, h);
      forall i :: 0 <= i < |r| ==>
        Origin(i, rm) < |w.objects|
        && r[i].kind == w.objects[Origin(i, rm)].kind
        && (w.objects[Origin(i, rm)].detected ==> r[i].detected)
  {
    var a := AdvanceAll(Resample(w, sample), h).objects;
    var r := Tick(w, sample, h).objects;
    var rm := RemovedIndex(w, sample, h);
    TickChangesOnlyTarget(w, sample, h);
    forall i | 0 <= i < |r|
      ensures Origin(i, rm) < |w.objects| && r[i].kind == w.objects[Origin(i, rm)].kind
      ensures w.objects[Origin(i, rm)].detected ==> r[i].detected
    {
      var j := Origin(i, rm);
      assert a[j] == AdvanceObject(w.objects[j], j, w.drone, w.current, h) ||
             a[j] == AdvanceObject(w.objects[j], j, w.drone, sample, h);
      if |r| < |a| {
        assert r[i] == a[j];
      } else if r != a {
        assert r[i].kind == a[i].kind && r[i].detected == a[i].detected;
      }
    }
  }

  /**
   * An object the drone is identifying or collecting does not drift: unless
   * the tick removes it, it ends the tick exactly where it was, with the
   * same velocity.
   */
  lemma LockedTargetStaysPut(w: WorldState, sample: Vec, h: Hypot)
    requires Inv(w) && w.drone.target.Some? && Locked(w.drone, w.drone.target.value)
    ensures var t := w.drone.target.value;
      var r := Tick(w, sample, h).objects;
      RemovedIndex(w, sample, h).None? ==>
        t < |r| && r[t].x == w.objects[t].x && r[t].y == w.objects[t].y
        && r[t].vx == w.objects[t].vx && r[t].vy == w.objects[t].vy
  {
    TickChangesOnlyTarget(w, sample, h);
  }

  /** The first frame of a run is one tick, the rest a run from its result. */
  lemma RunUnfolds(w: WorldState, samples: seq<Vec>, h: Hypot)
    requires Inv(w) && samples != []
    ensures Inv(Tick(w, samples[0], h)) && Run(w, samples, h) == Run(Tick(w, samples[0], h), samples[1..], h)
  {
    TickKeepsInv(w, samples[0], h);
  }

  /**
   * The simulation driven for |samples| frames, samples[k] being the current
   * drawn should frame k resample it. It keeps the invariant throughout and
   * zero frames change nothing.
   */
  function Run(w: WorldState, samples: seq<Vec>, h: Hypot): (r: WorldState)
    requires Inv(w)
    ensures Inv(r) && r.frame == w.frame + |samples|
    ensures samples == [] ==> r == w
    decreases |samples|
  {
    if samples == [] then w
    else
      TickKeepsInv(w, samples[0], h);
      Run(Tick(w, samples[0], h), samples[1..], h)
  }
}
