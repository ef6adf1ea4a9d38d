/**
 * Target selection (priority and select_target, ai_waste_route_demo.py
 * lines 95-106): a pure scoring rule over the detected objects.
 */
module Selector {
  import opened Params
  import opened Options
  import opened Geometry
  import opened Ocean
  import opened Vehicle

  /**
   * priority(drone, obj): amount * 10 minus the distance for trash, -999 for
   * anything else. A distance is never negative, so trash never scores
   * above ten times its amount.
   */
  function Priority(d: DroneState, o: Obj, h: Hypot): (r: real)
    ensures o.kind == Animal ==> r == NonTrashPriority
    ensures IsHypot(h) && (o.kind == SurfaceTrash || o.kind == SeabedTrash) ==> r <= o.amount * PriorityWeight
  {
    if o.kind != SurfaceTrash && o.kind != SeabedTrash then NonTrashPriority
    else o.amount * PriorityWeight - DistTo(h, d, o)
  }

  /**
   * The filter of select_target's list comprehension. A valid animal never
   * passes it (its amount is zero), and nothing passes it once the cargo is full.
   */
  predicate IsCandidate(d: DroneState, o: Obj): (b: bool)
    ensures b && ObjOk(o) ==> o.kind != Animal
    ensures MaxCapacity <= d.load ==> !b
  {
    o.detected && o.amount > 0.0 && d.load < MaxCapacity
  }

  /**
   * k is what Python's max returns on the candidates among objs[..n]: a
   * candidate whose priority no candidate exceeds, and which every candidate
   * before it falls strictly short of (max keeps the first of equal scores).
   */
  predicate IsFirstBest(d: DroneState, objs: seq<Obj>, h: Hypot, n: nat, k: nat)
    requires n <= |objs|
  {
    k < n && IsCandidate(d, objs[k])
    && (forall j :: 0 <= j < n && IsCandidate(d, objs[j]) ==> Priority(d, objs[j], h) <= Priority(d, objs[k], h))
    && (forall j :: 0 <= j < k && IsCandidate(d, objs[j]) ==> Priority(d, objs[j], h) < Priority(d, objs[k], h))
  }

  predicate NoCandidate(d: DroneState, objs: seq<Obj>, n: nat)
    requires n <= |objs|
  {
    forall j :: 0 <= j < n ==> !IsCandidate(d, objs[j])
  }

  /** max over the candidates among objs[..n], scanning left to right. */
  function BestAmong(d: DroneState, objs: seq<Obj>, h: Hypot, n: nat): (r: Option<nat>)
    requires n <= |objs|
    ensures r.None? <==> NoCandidate(d, objs, n)
    ensures r.Some? ==> IsFirstBest(d, objs, h, n, r.value)
    decreases n
  {
    if n == 0 then None
    else
      var b := BestAmong(d, objs, h, n - 1);
      if IsCandidate(d, objs[n - 1]) && (b.None? || Priority(d, objs[n - 1], h) > Priority(d, objs[b.value], h))
      then Some(n - 1)
      else b
  }

  /**
   * select_target(drone, objs): None exactly when no detected object carries
   * a positive amount while the drone has room, and otherwise the index of
   * the first candidate of maximal priority.
   */
  function SelectTarget(d: DroneState, objs: seq<Obj>, h: Hypot): (r: Option<nat>)
    ensures r.None? <==> NoCandidate(d, objs, |objs|)
    ensures r.Some? ==> IsFirstBest(d, objs, h, |objs|, r.value)
  {
    BestAmong(d, objs, h, |objs|)
  }

  /**
   * The heuristic priority rewards amount and penalises distance: of two
   * trash objects, one with at least the amount and at most the distance
   * scores at least as high, and strictly higher when either is strict.
   */
  lemma PriorityPrefersMoreAndNearer(d: DroneState, o1: Obj, o2: Obj, h: Hypot)
    requires o1.kind != Animal && o2.kind != Animal
    requires o2.amount <= o1.amount && DistTo(h, d, o1) <= DistTo(h, d, o2)
    ensures Priority(d, o2, h) <= Priority(d, o1, h)
    ensures o2.amount < o1.amount || DistTo(h, d, o1) < DistTo(h, d, o2) ==> Priority(d, o2, h) < Priority(d, o1, h)
  {
  }

  /** The characterisation of SelectTarget admits one index only. */
  lemma FirstBestUnique(d: DroneState, objs: seq<Obj>, h: Hypot, k: nat)
    requires IsFirstBest(d, objs, h, |objs|, k)
    ensures SelectTarget(d, objs, h) == Some(k)
  {
    assert !NoCandidate(d, objs, |objs|);
  }

  /**
   * Animals are never selected when the objects are valid: their amount is
   * zero. A full drone selects nothing.
   */
  lemma SelectTargetNeverAnimal(d: DroneState, objs: seq<Obj>, h: Hypot)
    requires forall i :: 0 <= i < |objs| ==> ObjOk(objs[i])
    ensures var r := SelectTarget(d, objs, h);
      r.Some? ==> r.value < |objs| && objs[r.value].kind != Animal && objs[r.value].amount > 0.0
    ensures MaxCapacity <= d.load ==> SelectTarget(d, objs, h).None?
  {
  }
}
