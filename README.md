# cbump in Dafny

A model of cbump, a small swept-AABB collision library in C. A moving
axis-aligned box is swept along a displacement through a list of static
obstacle boxes. The library finds the nearest obstacle the box would run into,
moves the box to the moment of impact and builds a collision record. It then
hands the record to a resolver, which decides what is left of the movement
(stop, cross, slide or bounce), and repeats. Each obstacle that was hit is
swapped out of the active part of the caller's array.

The model has six modules, one per part of `src/cbump.c` and `src/cbump.h`:

- `Geometry`: the value types.
  - `Vec2`, `Box` and the collision record `Collision`.
  - The centre constructor `BoxCenter`.
  - `Advance`, a box moved by a fraction of a displacement.
  - `MovingBox`, a class with the fields `x, y, w, h` that the sweep updates in place.
- `Overlap`: the half-open range test and the box overlap test.
- `Impact`: the per-axis time of impact.
- `Sweeping`: a single sweep.
  - `MoveSimple` is the imperative sweep. It is a method with a `for` loop over an `array<Box>` that moves a `MovingBox`.
  - It is proved equal to `Sweep`. `Sweep` is specified as a left fold (`Scan`) of one step per obstacle (`Step`).
  - The properties of the sweep are lemmas about `Scan` and `Sweep`.
- `Resolvers`: the four built-in resolvers and the dispatch on a `Resolver` value.
- `Move`: the move loop.
  - `Move` is the imperative loop over the caller's `array<Box>` with an active count. Each pass is `Round`.
  - `Move` is proved equal to `MoveLoop`, a recursive function on values.
  - The outcome lemmas are about `MoveLoop`.

Coordinates are `real`. The C code divides by a displacement component that
may be zero (src/cbump.c:24-25). Here a zero component instead gives a time of
1 on that axis. In C the same case gives ±infinity when the distance is not
zero, and the clamp turns that into 1, as here. When the distance is also zero,
C computes 0 / 0, which is NaN. On the x axis that happens only when the
obstacle's right edge is the box's left edge. `collide_x` then fails because a
comparison with NaN is false. `collide_y` fails because the x ranges abut, so
they do not overlap. The y axis is the same with the roles swapped. In that case
neither test holds, in C or in the model, so the obstacle is skipped in both,
and src/cbump.c:54 is not reached. `Sweeping.StepSkipsAbuttingAtRest` states
the model's half of this.

The axis rule is a parameter (`AxisRule`) of `Step`, `Scan`, `Sweep` and
`MoveLoop`:

- `CompareTimes` is the rule at src/cbump.c:54 as written: the smaller axis time wins, and a tie goes to y. It is what the methods `MoveSimple` and `Move` use.
- `CollidingAxis` takes the axis whose collision test held. It is the corrected rule of the finding below.

## Model

| member | source | states |
|---|---|---|
| Geometry.BoxCenter | src/cbump.h:40-43 | the extents are kept and the centre of the resulting box is the given point |
| Geometry.BoxCenterOfCenter | src/cbump.h:40-43 | building a box from another box's centre and extents gives that box back |
| Geometry.Advance | src/cbump.c:64-66 | the box's centre moves by the fraction times the displacement and its extents are kept |
| Overlap.RangeOverlap | src/cbump.c:5-10 | the test holds exactly when neither range ends at or before the start of the other, as the source's comment says; `RangeOverlapIffCommonPoint` and `ThinRangeOverlap` give its meaning |
| Overlap.RangeOverlapIffCommonPoint | src/cbump.c:5-10 | for positive widths the range test holds exactly when some number lies in both half-open ranges |
| Overlap.ThinRangeOverlap | src/cbump.c:7-10 | a zero-width range overlaps another range exactly when it lies strictly inside it; two zero-width ranges never overlap |
| Overlap.BoxOverlap | src/cbump.c:12-16 | the boxes overlap on both axes, and the test does not depend on the order of its arguments; `BoxOverlapIffCommonPoint` and `SharedEdgeIsNoOverlap` give its meaning |
| Overlap.BoxOverlapIffCommonPoint | src/cbump.c:12-16 | for positive extents, boxes overlap exactly when some point lies in both half-open boxes |
| Overlap.SharedEdgeIsNoOverlap | src/cbump.c:7-16 | boxes that share only an edge do not overlap |
| Impact.AxisImpact | src/cbump.c:19-28 | the axis time lies in [0, 1]; a zero displacement component gives 1; a time below 1 puts the leading face on the facing face of the obstacle |
| Impact.TimeOfImpact | src/cbump.c:18-31 | both components lie in [0, 1], are 1 for a zero displacement component, and below 1 are contact factors on their axis |
| Impact.AxisImpactIsContactFactor | src/cbump.h:48-55 | any contact factor in [0, 1] on an axis is the time reported for that axis |
| Impact.AxisImpactWhenOverlapping | src/cbump.h:54 | boxes already overlapping on an axis get time 1 on that axis |
| Impact.SelfImpact | src/cbump.c:20-28 | a box with positive extents has time of impact (1, 1) against itself |
| Sweeping.Scan | src/cbump.c:37-63 | the scanned time lies in [0, 1], and a time below 1 comes with an index inside the list |
| Sweeping.Sweep | src/cbump.c:64-72 | time in [0, 1]; the movement left is (1 - time) times the displacement, and zero when time is 1; for a non-empty list the index is inside it and the obstacle is the entry at that index; for an empty list there is no obstacle, time 1 and a zero normal |
| Sweeping.MoveSimple | src/cbump.c:33-73 | the returned record is the sweep of the first n entries from the box's old position, and the box is moved by time times the displacement with its extents kept; the array is not written |
| Sweeping.CollidesX | src/cbump.c:44-45 | no contract of its own: `CollideTestsMeanTouch` states that `collide_x` means an x impact before the current time at which the box touches the obstacle's x face |
| Sweeping.CollidesY | src/cbump.c:46-47 | no contract of its own: `CollideTestsMeanTouch` states the same for `collide_y` and the y face |
| Sweeping.CollideTestsMeanTouch | src/cbump.c:43-47 | when either test holds, the displacement moves along that axis, the axis time is before the current time, and the box advanced to it touches the obstacle along that face |
| Sweeping.Step | src/cbump.c:40-62 | no contract of its own: one loop iteration, whose properties `StepOutcome`, `StepTime`, `StepKeepsEarlierOnTie`, `StepIgnoresSelf` and `StepSkipsAbuttingAtRest` state |
| Sweeping.StepOutcome | src/cbump.c:44-62 | an accepted obstacle strictly lowers the time, becomes the recorded index and, under the source's rule, sets the time to the smaller axis time; any other obstacle leaves the state unchanged |
| Sweeping.StepKeepsEarlierOnTie | src/cbump.c:44-47 | an obstacle whose axis times are no earlier than the current time never replaces the recorded one |
| Sweeping.StepIgnoresSelf | src/cbump.c:42-50 | a box with positive extents is never accepted as its own obstacle |
| Sweeping.StepSkipsAbuttingAtRest | src/cbump.c:20-50 | with no displacement along an axis on which the ranges exactly abut (the 0 / 0 case of the source), the obstacle is skipped |
| Sweeping.StepTime | src/cbump.c:44-50 | a step never raises the time, and from time 1 it stays at 1 exactly when the obstacle does not qualify |
| Sweeping.ScanZeroMove | src/cbump.c:39-63 | a zero displacement gives time 1 for any obstacle list |
| Sweeping.ScanTimeFalls | src/cbump.c:39-63 | the time never rises from one prefix of the list to a longer one |
| Sweeping.ScanMissIffNoneQualifies | src/cbump.c:39-66 | the sweep reports time 1 (and so moves the whole way) exactly when no obstacle in the list qualifies |
| Sweeping.ScanIsEarliest | src/cbump.h:58-59 | the reported time is no later than either axis time of any obstacle whose test on that axis holds |
| Sweeping.ScanRecordsHit | src/cbump.c:53-62 | when something is hit, the recorded index names the obstacle whose axis time and normal were recorded, chosen as the rule says |
| Sweeping.ScanKeepsFirstOnTie | src/cbump.c:44-53 | no obstacle listed before the recorded one is hit, on an axis whose test holds, at or before the reported time: on a tie the earlier obstacle is kept |
| Sweeping.HitStopsAgainst | src/cbump.c:54-66 | a recorded hit below time 1 leaves the box against that obstacle: a unit normal against a non-zero displacement component, meeting faces, no overlap |
| Sweeping.SweepStopsAgainstObstacle | src/cbump.c:54-66 | a sweep with time below 1 reports the obstacle at its index and a face normal of one axis opposite to a non-zero displacement component, and leaves the box with the selected faces meeting and not overlapping the obstacle |
| Sweeping.SweepAxisByComparingTimes | src/cbump.c:54-62 | as written, the time and normal come from the x axis when toi.x < toi.y and from the y axis otherwise, ties included |
| Sweeping.HitTouches | src/cbump.h:58-59 | under the colliding-axis rule a recorded hit qualifies and the box touches the obstacle along the recorded face |
| Sweeping.SweepCollidingAxisTouches | src/cbump.h:58-59 | with the colliding-axis rule, a sweep below time 1 stops touching a qualifying obstacle, and no obstacle is hit earlier |
| Sweeping.AsWrittenStopsShortOfContact | src/cbump.c:54-62 | for box (0, 0, 1, 1), move (2, 2), obstacle (2, 1.5, 1, 10) the rule as written reports time 1/4, normal (0, -1) and no contact, while the colliding-axis rule reports time 1/2, normal (-1, 0) and contact |
| Sweeping.ScanIgnoresSelf | examples/test.c:9 | listing the moving box among its own obstacles, at any position, changes neither the time nor the normal of the sweep |
| Sweeping.ScanIgnoresSelfBetween | examples/test.c:9 | the same with the list split around the inserted box, by induction on the part after it |
| Resolvers.ResolveTouch | src/cbump.c:76-80 | no contract of its own: the box stays put; `TouchSweepsOnce` states that a move with it sweeps once |
| Resolvers.ResolveCross | src/cbump.c:82-85 | no contract of its own: the movement left is kept; `CrossReachesTarget` states that a move with it reaches the whole displacement |
| Resolvers.ResolveSlide | src/cbump.c:87-97 | no contract of its own: `SlideCancelsNormal` and `BounceTwiceSlideOnce` state what it does |
| Resolvers.ResolveBounce | src/cbump.c:99-109 | no contract of its own: `BounceReflects` and `BounceTwiceSlideOnce` state what it does |
| Resolvers.Resolve | src/cbump.c:76-109 | every built-in resolver turns a record with nothing left to move into no movement, so the move loop ends after it |
| Resolvers.SlideCancelsNormal | src/cbump.c:87-97 | for a face normal, the slid movement has no component along the normal and keeps the component along the surface |
| Resolvers.BounceReflects | src/cbump.c:99-109 | for a face normal, bouncing negates the component along the normal, keeps the one along the surface and keeps the length |
| Resolvers.BounceTwiceSlideOnce | src/cbump.c:87-109 | bouncing twice gives the movement back; sliding twice is sliding once |
| Move.RemoveHit | src/cbump.c:122-125 | the hit obstacle lands in the last active slot, the entry from that slot lands where the hit one was, every other entry is kept, and the array is a permutation of what it was |
| Move.MoveLoop | src/cbump.c:112-127 | the array keeps its length; a zero displacement performs no sweep and changes nothing; otherwise there are between 1 and n + 1 sweeps |
| Move.MoveLoopPermutes | src/cbump.h:76-79 | the move only reorders the active part of the obstacle array (the same boxes remain and the inactive tail is untouched) and keeps the box's extents |
| Move.MoveLoopStep | src/cbump.c:118-125 | the outcome of a move is the outcome of the rest of the loop from where its first sweep stopped, with the resolver's displacement and the hit obstacle swapped out |
| Move.Round | src/cbump.c:119-124 | one pass sweeps the active obstacles, moves the box, applies the resolver and, with a non-zero active count, swaps the hit obstacle into the last active slot and decrements the count |
| Move.Move | src/cbump.c:112-127 | the final box and array are those of the move loop on values, with slide when no resolver is given; the array holds the same boxes as before |
| Move.TouchSweepsOnce | src/cbump.c:118-125 | with the touch resolver and a non-zero move there is exactly one sweep; the box stays where it stopped and only the hit obstacle is swapped |
| Move.AdvanceThenRest | src/cbump.c:64-70 | moving by time times the displacement and then by the movement left reaches the same place as the whole displacement |
| Move.CrossReachesTarget | src/cbump.c:82-85 | with the cross resolver the box ends at its start plus the whole displacement, whatever the obstacles |
| Move.SlideAlongGround | examples/test.c:7-16 | the 20 x 20 box centred at (30, 30) moved by (50, -50) first stops at (40, 0) on the ground and slides on to (70, 0) |
| Move.SlideAlongGroundListingSelf | examples/test.c:7-16 | the same with the moving box listed after the ground and both active, as the example program does: the box ends at (70, 0) |
| Move.SlideAfterEarlyStop | src/cbump.c:54-62 | as written, the move of the finding's counterexample with slide, with a distant second obstacle (100, 100, 1, 1) so that the active count never runs out, ends at (2, 1/2), under the obstacle |
| Move.SlideAfterContact | src/cbump.c:54-62 | with the colliding-axis rule the same move ends at (1, 2), slid up the obstacle's left face |

## Left out

- Floating point: rounding, infinities, NaN and the `-0.0` that bounce can produce are not modelled. Coordinates are exact reals, and a zero displacement component is an explicit branch, as argued above.
- User data and custom resolvers: the `userdata` pass-through and caller-supplied resolver functions are left out. The resolver is one of the four built-ins, and a missing resolver means slide.
- Object identity: `collision.moving` and the address held in `collision.obstacle` are left out. The record carries the hit obstacle by value and by its index.
- Aliasing: the moving box is a separate object from the array's entries. When the list holds a copy of the box, that copy stays at the box's start position. In C the entry is the box itself and moves with it. `ScanIgnoresSelf` shows that a copy at the box's current position is never hit. `SlideAlongGroundListingSelf` shows the same outcome with the stale copy.
- Active count of zero: in C, the swap after a sweep with no active obstacles decrements the unsigned count past zero (src/cbump.c:123) and then indexes the array with the wrapped value (src/cbump.c:124). That is undefined behaviour, and when the caller passes a count of 0 the read of `obstacles[0]` (src/cbump.c:68) can be one too. Here such a sweep reports no obstacle and the swap is skipped. Its movement left is zero, so every resolver ends the loop.
- NULL entries in the obstacle list (src/cbump.h:77) are not modelled.
- Move.MoveLoop: the sweep count is bounded by n + 1, not n. One sweep with no active obstacles is needed when the movement is not used up.
- Sweeping.SweepStopsAgainstObstacle: under the rule as written the box is not shown to touch the obstacle on the other axis. That is false in general, as the finding shows. Touching is proved for the colliding-axis rule in `SweepCollidingAxisTouches`.
- examples/pong.c is not part of this model.

## Findings

| source | as written | input that shows it | evidently intended | confidence | as-written member | corrected member |
|---|---|---|---|---|---|---|
| src/cbump.c:54 | the axis of an accepted obstacle is chosen by `toi.x < toi.y`, even when only the x test held | box (0, 0, 1, 1), move (2, 2), obstacle (2, 1.5, 1, 10): the x test holds at 1/2 and the y test fails, yet the smaller y time 1/4 is taken; the box stops at (0.5, 0.5), half a unit from the obstacle, with normal (0, -1); with slide, and a distant second obstacle (100, 100, 1, 1) listed after it so that the active count stays positive for the second sweep, it ends at (2, 0.5) | take the axis whose test held (x when only x held, y when only y held, the smaller time when both held), so the box stops touching the obstacle | not executed | Sweeping.AsWrittenStopsShortOfContact | Sweeping.SweepCollidingAxisTouches |

The methods `MoveSimple` and `Move` keep the rule as written. The corrected
rule is `CollidingAxis`, and the same functions are proved with it.
`Move.SlideAfterEarlyStop` and `Move.SlideAfterContact` give the effect on a
whole move.
