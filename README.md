# OceanTrashTracker in Dafny

A model of the simulation core of `ai_waste_route_demo.py`. One
collection drone works an ocean area of 100 × 100 units that holds
surface trash, animals and seabed trash. Every object drifts with its own
velocity plus an ambient current, bounces off the walls and is clipped
into the area. Seabed trash drifts at a quarter of the speed, and it is
undetected until the drone's passive sonar comes within 10 units of it.

The drone runs a state machine: IDLE → MOVING → IDENTIFYING → COLLECTING → IDLE.
- When idle, it picks the detected object with the best priority, `amount * 10 - distance`. Ties go to the first in list order.
- It flies to the object and spends one second identifying it.
- It then collects for `amount * 0.3` seconds and takes `min(amount, 50 - load)` into its cargo.
- A depleted object, or an identified animal, is removed from the object list.
- A battery at or below 20, or a full cargo, overrides the state machine and forces RETURN.
- In that same tick the drone moves towards the base at (50, 50). On reaching it, the drone unloads, recharges and goes idle.

The project has two layers:

- **Values.** `Ocean`, `Vehicle`, `Selector` and `Simulation` describe the state as datatypes. Each operation is a function, and one tick of `update` is the function `Simulation.Tick`. `Properties` proves what a tick promises:
  - the invariant every tick keeps;
  - the outcome of each state transition;
  - resource accounting;
  - monotone detection;
  - locked objects staying put.
- **Objects in place.** `Ocean.OceanObject`, `Vehicle.Drone` and `Engine.World` are classes whose methods update fields the way the source does. Examples are the `for` loop over the objects and `objects.remove`. Each method is proved to produce exactly the new state that the value layer gives for the old state (`Model() == Tick(old(Model()), sample, hypot)`). So every property proved about `Tick` holds for `World.Step`.

Modelling choices:
- Python floats are Dafny `real`s.
- The random draws become parameters: initial positions, amounts, velocities and seabed depth are constructor arguments, and the resampled current is an argument of `Step`. The ranges they are drawn from become preconditions.
- `math.hypot` is a parameter `h` of type `(real, real) -> real`. The proofs use only the facts they need about it. Two lemmas about `move_to` assume `IsHypot(h)`: `h` is non-negative and zero exactly at the origin.
- The drone's target is the index of the object in the list, not a reference to it. Both identity tests on the target are modelled through that index: the lock test at line 144 and `objects.remove` at lines 171 and 191. The `World` keeps its objects distinct (`Distinct`), so removal by index removes the same object that removal by identity would.

Notes on the code:
- The candidate filter at line 103 does not test the kind of an object. Animals are excluded only because their amount is 0 (`Selector.SelectTargetNeverAnimal`).
- move_to charges a fixed 0.4 battery per move (line 90), whatever the distance covered.
- An idle drone becomes MOVING in the same tick it selects a target (lines 155-157).

## Model

| member | source | states |
|---|---|---|
| Ocean.MoveFactor | ai_waste_route_demo.py:37-47 | the drift factor is 0.25 for seabed trash and 1.0 otherwise, so always in (0, 1] |
| Ocean.Clip | ai_waste_route_demo.py:65-66 | the clipped value lies in [0, MAP_SIZE]; it is the input when the input already lies there, and the nearer bound otherwise |
| Ocean.AtWall | ai_waste_route_demo.py:60-66 | the boundary test of move: a coordinate for which AtWall is false lies in the area and is left alone by the clip; one for which it is true is clipped onto a wall |
| Ocean.Drifted | ai_waste_route_demo.py:53-66 | a locked move changes nothing; an unlocked move sets each coordinate to the clip of (position + (velocity + current) * move factor), so in [0, MAP_SIZE] and the nearer bound when outside; vx is negated exactly when the unclipped new x is at or beyond a wall and kept otherwise, likewise vy; a reversed component leaves the object on a wall; kind, detection and amount are untouched and object validity is preserved |
| Ocean.Sensed | ai_waste_route_demo.py:147-149 | an object is detected afterwards iff it was detected before or it is seabed trash closer than SONAR_RANGE; detection is never withdrawn; nothing else changes |
| Ocean.OceanObject.constructor | ai_waste_route_demo.py:28-51 | each kind gets the amount and the depth offset the source draws for it, given as arguments in their ranges; only seabed trash starts undetected; the new object is valid |
| Ocean.OceanObject.Move | ai_waste_route_demo.py:53-66 | the in-place move leaves the object in the state Drifted gives for its old state |
| Vehicle.Initial | ai_waste_route_demo.py:72-79 | definition of the starting drone (base, empty, fully charged, idle, no target, timer 0); its ensures list those fields, and what it guarantees is proved by Properties.StartInv |
| Geometry.Dist | ai_waste_route_demo.py:202 | math.hypot of the coordinate differences; for a length it is non-negative and zero exactly when the two points coincide |
| Vehicle.DistTo | ai_waste_route_demo.py:81-82 | drone.dist(obj) on values; for a length it is non-negative and zero exactly when the drone is at the object |
| Vehicle.MovedToward | ai_waste_route_demo.py:84-90 | move_to changes only position and battery; either nothing changes or the battery drops by exactly BATTERY_MOVE_COST; the battery never rises |
| Vehicle.MoveToHereIsNoOp | ai_waste_route_demo.py:86-87 | move_to towards the drone's own position (distance 0) changes nothing |
| Vehicle.MoveToElsewhereCosts | ai_waste_route_demo.py:86-90 | move_to towards any other point costs exactly BATTERY_MOVE_COST and changes the state |
| Vehicle.Drone.constructor | ai_waste_route_demo.py:72-79 | Drone() starts in the state Initial describes |
| Vehicle.Drone.Dist | ai_waste_route_demo.py:81-82 | drone.dist(obj) is the hypot of the coordinate differences between the drone and the object |
| Vehicle.Drone.MoveTo | ai_waste_route_demo.py:84-90 | the in-place move_to leaves the drone in the state MovedToward gives for its old state |
| Selector.Priority | ai_waste_route_demo.py:95-98 | -999 for a non-trash object (an animal); for trash, amount * 10 minus the distance, so never more than ten times the amount |
| Selector.PriorityPrefersMoreAndNearer | ai_waste_route_demo.py:98 | of two trash objects, one with at least the amount and at most the distance scores at least as high, and strictly higher when either difference is strict |
| Selector.IsCandidate | ai_waste_route_demo.py:101-105 | the filter: detected, a positive amount and load < MAX_CAPACITY; a valid animal never passes it, and nothing passes once the cargo is full |
| Selector.BestAmong | ai_waste_route_demo.py:100-106 | the scan over the first n objects returns None iff none of them is a candidate, and otherwise the index of a candidate that no candidate exceeds in priority and that every earlier candidate falls strictly short of (Python's max keeps the first of equal scores) |
| Selector.SelectTarget | ai_waste_route_demo.py:95-106 | select_target returns None iff no object is detected with a positive amount while load < MAX_CAPACITY, otherwise the first candidate of maximal priority |
| Selector.FirstBestUnique | ai_waste_route_demo.py:95-106 | that characterisation admits exactly one index: any index meeting it is what select_target returns |
| Selector.SelectTargetNeverAnimal | ai_waste_route_demo.py:42-106 | on valid objects the selected object is never an animal and carries a positive amount; a full drone selects nothing |
| Simulation.RemoveAt | ai_waste_route_demo.py:191 | objects.remove of the object at index t: the list is one shorter, objects before t keep their index and later ones move down by one |
| Simulation.Min | ai_waste_route_demo.py:183-186 | min(a, b) is one of its arguments and at most both |
| Simulation.Locked | ai_waste_route_demo.py:144 | definition of the lock test: the drone is IDENTIFYING or COLLECTING that index; its ensures only rephrase this, and the property of locked objects is proved by Simulation.AdvanceObject and Properties.LockedTargetStaysPut |
| Simulation.LimitHit | ai_waste_route_demo.py:196 | definition of the limit test, battery <= 20 or load >= MAX_CAPACITY; its ensures is only the contrapositive, and what a hit limit does is proved by Properties.OverrideRestores and Properties.LimitSendsHome |
| Simulation.Resample | ai_waste_route_demo.py:130-141 | frame_count rises by one; the current becomes the new sample exactly when the new frame count is a multiple of CURRENT_CHANGE_INTERVAL; objects and drone unchanged |
| Simulation.AdvanceAll | ai_waste_route_demo.py:143-149 | every object, by index, drifts (frozen when it is the drone's identifying or collecting target) and is then swept by the sonar; drone, current and frame unchanged |
| Simulation.AdvanceObject | ai_waste_route_demo.py:144-149 | one object's drift and sonar sweep: a locked object keeps position and velocity, an unlocked one ends in the area; kind and amount are unchanged, detection is never withdrawn, a valid object stays valid |
| Simulation.IdleStep | ai_waste_route_demo.py:154-157 | the target becomes select_target's pick and the drone is MOVING if there is one, IDLE otherwise; nothing else changes |
| Simulation.MovingStep | ai_waste_route_demo.py:159-163 | objects, target and load unchanged; the battery is unchanged or lower by BATTERY_MOVE_COST; the drone is IDENTIFYING with timer IDENTIFY_TIME, or keeps its state and timer |
| Simulation.IdentifyingStep | ai_waste_route_demo.py:165-176 | the battery drops by BATTERY_IDENTIFY_COST, position and load are unchanged; either objects and target are unchanged, or the target is an animal, it alone is removed, and the drone is IDLE without target |
| Simulation.CollectingStep | ai_waste_route_demo.py:178-194 | the timer drops by DT and the battery by BATTERY_COLLECT_COST, position unchanged; either nothing else changes, or the countdown has run out and the drone is IDLE without target |
| Simulation.CollectionDone | ai_waste_route_demo.py:183-194 | the drone goes IDLE without target and only its load changes; when the target stays, load + amount is unchanged and its amount is positive; when it goes, it alone is removed and its whole amount is in the cargo; a cargo in [0, MAX_CAPACITY] grows and stays within it |
| Simulation.StateMachine | ai_waste_route_demo.py:154-194 | the state machine leaves current and frame alone and removes at most one object |
| Simulation.Override | ai_waste_route_demo.py:196-198 | when battery <= 20 or load >= MAX_CAPACITY the drone is set to RETURN without target and nothing else changes; otherwise nothing changes |
| Simulation.ReturnStep | ai_waste_route_demo.py:200-205 | only a returning drone changes; objects, current and frame never do |
| Simulation.Tick | ai_waste_route_demo.py:129-205 | one update advances the frame by one, resamples the current on the interval and removes at most one object |
| Properties.StartInv | ai_waste_route_demo.py:113-121 | the initial world (valid objects, new drone, frame 0) satisfies the invariant |
| Properties.AdvanceKeepsInv | ai_waste_route_demo.py:143-149 | drift and sonar keep the invariant |
| Properties.IdleSelects | ai_waste_route_demo.py:154-157 | in the state machine an idle drone takes select_target's pick as its target and is MOVING if there is one, IDLE otherwise; the objects and the rest of the drone are unchanged |
| Properties.IdleStepKeeps | ai_waste_route_demo.py:154-157 | the idle step keeps the invariant except its RETURN clause: the target it picks, if any, is an existing non-animal object |
| Properties.CollectingStepKeeps | ai_waste_route_demo.py:178-194 | the collecting step keeps the cargo in [0, MAX_CAPACITY] and every remaining object valid |
| Properties.StateMachineKeeps | ai_waste_route_demo.py:154-194 | the state machine keeps the invariant except its RETURN clause |
| Properties.OverrideRestores | ai_waste_route_demo.py:196-198 | the override re-establishes that the drone is in RETURN exactly when a limit is hit |
| Properties.ReturnStepKeeps | ai_waste_route_demo.py:200-205 | the return step keeps the invariant |
| Properties.TickKeepsInv | ai_waste_route_demo.py:129-205 | every tick keeps the invariant: valid objects (amount positive for trash, 0 for animals, inside the area), 0 <= load <= MAX_CAPACITY, battery <= BATTERY_MAX, a target exactly in MOVING, IDENTIFYING and COLLECTING that names an existing non-animal object, RETURN exactly when a limit is hit |
| Properties.MovingArrival | ai_waste_route_demo.py:159-163 | a moving drone moves towards its target; within 1.2 of it, it starts identifying with the timer exactly IDENTIFY_TIME, otherwise it keeps moving |
| Properties.IdentifyingEnds | ai_waste_route_demo.py:165-176 | when identification ends, an animal target, and only it, is removed and the drone goes idle without target, load unchanged; a trash target starts a collection with timer amount * 0.3 |
| Properties.IdentifyingContinues | ai_waste_route_demo.py:165-169 | while the countdown runs, only timer and battery change |
| Properties.IdentifyingNeverRemoves | ai_waste_route_demo.py:165-176 | in every state satisfying the invariant, identification never removes an object: the animal branch is unreachable |
| Properties.CollectingEnds | ai_waste_route_demo.py:182-194 | collection completion moves c = min(amount, MAX_CAPACITY - load) into the cargo; load stays <= MAX_CAPACITY, the amount stays >= 0, load + amount is unchanged, a partial transfer fills the cargo; the target is removed exactly when its amount is now <= 0, every other object is untouched; the drone goes idle without target |
| Properties.CollectingContinues | ai_waste_route_demo.py:178-182 | while the countdown runs, only timer and battery change |
| Properties.LimitSendsHome | ai_waste_route_demo.py:196-205 | when the state machine leaves a limit hit, the tick ends without target whatever the countdown, and the drone has already moved towards the base in that same tick: it is returning, or idle at the base, unloaded and recharged |
| Properties.BaseArrival | ai_waste_route_demo.py:200-205 | a returning drone within 1.5 of the base after its move unloads, recharges and goes idle; otherwise only the move happens |
| Properties.BatteryAndCargoAccounting | ai_waste_route_demo.py:154-205 | the battery rises, or the cargo falls, only on arrival at the base, which leaves the drone idle, empty and fully charged; otherwise a tick costs at most two moves' worth of battery |
| Properties.TickChangesOnlyTarget | ai_waste_route_demo.py:143-194 | after a tick the object list is what drift and sonar made of it, or only the target's amount has fallen while staying positive, or the target alone was removed after its whole amount went into the cargo |
| Properties.TickKeepsDetection | ai_waste_route_demo.py:143-149 | every object that survives a tick keeps its kind and stays detected if it was detected |
| Properties.LockedTargetStaysPut | ai_waste_route_demo.py:143-145 | an object being identified or collected keeps its position and velocity through a tick unless the tick removes it |
| Properties.RunUnfolds | ai_waste_route_demo.py:128-205 | the first frame of a run is one tick that keeps the invariant, and the rest is a run from its result |
| Properties.Run | ai_waste_route_demo.py:128-205 | running any number of frames keeps the invariant and advances the frame count by that number; zero frames change nothing |
| Engine.World.constructor | ai_waste_route_demo.py:113-121 | seven surface trash objects, four animals and six seabed trash objects, a new drone, a current in [-0.4, 0.4]² and frame 0 form a valid starting world |
| Engine.World.ResampleCurrent | ai_waste_route_demo.py:130-141 | the in-place frame count and current update is Resample |
| Engine.World.AdvanceObjects | ai_waste_route_demo.py:143-149 | the in-place loop over the objects ends in the state AdvanceAll gives (loop invariant: objects before the cursor advanced, the rest unchanged) |
| Engine.World.AdvanceOne | ai_waste_route_demo.py:144-149 | one pass of that loop updates its object as AdvanceObject says |
| Engine.World.RunStateMachine | ai_waste_route_demo.py:154-194 | the in-place state machine is StateMachine, and the list stays a list of distinct objects it already held |
| Engine.World.IdleInPlace | ai_waste_route_demo.py:154-157 | the in-place idle branch is the idle step |
| Engine.World.MovingInPlace | ai_waste_route_demo.py:159-163 | the in-place moving branch is the moving step |
| Engine.World.IdentifyingInPlace | ai_waste_route_demo.py:165-176 | the in-place identifying branch is the identifying step |
| Engine.World.CollectingInPlace | ai_waste_route_demo.py:178-194 | the in-place collecting branch is the collecting step |
| Engine.World.FinishCollection | ai_waste_route_demo.py:183-194 | the in-place transfer and removal is the collection completion |
| Engine.World.Drain | ai_waste_route_demo.py:188 | only the target's amount falls, by c |
| Engine.World.RemoveObject | ai_waste_route_demo.py:191 | objects.remove(target) removes that object only and keeps the list distinct |
| Engine.World.ApplyOverride | ai_waste_route_demo.py:196-198 | the in-place override is Override |
| Engine.World.ReturnToBase | ai_waste_route_demo.py:200-205 | the in-place return step is ReturnStep |
| Engine.World.Step | ai_waste_route_demo.py:128-205 | one in-place update, drawing excluded, leaves the world in the state Tick gives for the old world, keeps it valid, and leaves only objects the list already held, so the next frame's update can be called |
| Engine.World.StepOfRun | ai_waste_route_demo.py:240 | one frame of the animation: the first sample's update, after which the run of the remaining samples reaches the same world |
| Engine.World.Animate | ai_waste_route_demo.py:240 | the animation loop calling update once per frame: after one update per sample the world is where Properties.Run takes it, and stays valid |

## Left out

- Rendering: the matplotlib figure and the drawing at lines 132-135 and 207-241. None of it feeds back into the state. The animation loop at line 240 is modelled as `Engine.World.Animate` over a finite sequence of frames, without FuncAnimation's timer.
- Randomness: the draws at lines 32-51, 120 and 138-141 are parameters whose ranges are preconditions. The model keeps the rule that a new current is drawn exactly when frame_count is a multiple of 40.
- Vehicle.MovedToward: `math.hypot` and the unit-vector normalisation are not computed. Distance is a parameter `h`, so the model does not prove that a step has length 1.2 (DroneSpeed * Dt) or that the drone makes progress towards its target or towards the base.
- IEEE-754 rounding: arithmetic is exact. For example, ten subtractions of 0.1 from 1.0 reach 0 exactly in the model. In floating point they leave a small positive remainder, so identification takes one tick more there.
- visual_size, which only drawing uses. move_factor is not stored, because it is the function MoveFactor of the kind.
- Numpy specifics: `np.clip` and the current as `np.array` become the real-valued Clip and the pair Vec.
- Identity: the target is an index rather than a reference. This is only sound because the objects are distinct, which `Engine.World.Valid` keeps.
- The -999 branch of priority is modelled, but in a valid world animals are never candidates, so the branch never decides a selection.
