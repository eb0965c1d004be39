/** cbump_move_simple: one sweep of a box along a displacement through a list of
    obstacles, stopping at the nearest qualifying obstacle.

    The scan over the obstacles is specified as a left fold (`Scan`) of one step per
    obstacle (`Step`). The choice of the collision axis is a parameter: `CompareTimes`
    is the rule of src/cbump.c:54 (the smaller axis time wins, ties go to y), used by
    the method `MoveSimple`; `CollidingAxis` takes the axis whose test held. */
module Sweeping {
  import opened Geometry
  import opened Overlap
  import opened Impact

  datatype AxisRule = CompareTimes | CollidingAxis

  /** What the scan keeps of the nearest collision so far. */
  datatype ScanState = ScanState(time: real, normal: Vec2, index: nat)

  const Start := ScanState(1.0, Zero, 0)

  /** The normal component that points against a displacement component. */
  function Opposite(m: real): real { if m > 0.0 then -1.0 else 1.0 }

  function Sign(m: real): real { if m > 0.0 then 1.0 else if m < 0.0 then -1.0 else 0.0 }

  function Min(a: real, b: real): real { if a < b then a else b }

  /** With `b` advanced by t * m, its y extent overlaps the obstacle's. */
  predicate YOverlapAt(b: Box, o: Box, m: Vec2, t: real) {
    RangeOverlap(b.y + t * m.y, b.h, o.y, o.h)
  }

  /** With `b` advanced by t * m, its x extent overlaps the obstacle's. */
  predicate XOverlapAt(b: Box, o: Box, m: Vec2, t: real) {
    RangeOverlap(b.x + t * m.x, b.w, o.x, o.w)
  }

  /** collide_x: the x axis is hit before `time` and the boxes overlap on y then. */
  predicate CollidesX(b: Box, o: Box, m: Vec2, time: real) {
    var toi := TimeOfImpact(b, o, m);
    toi.x < time && YOverlapAt(b, o, m, toi.x)
  }

  /** collide_y: the y axis is hit before `time` and the boxes overlap on x then. */
  predicate CollidesY(b: Box, o: Box, m: Vec2, time: real) {
    var toi := TimeOfImpact(b, o, m);
    toi.y < time && XOverlapAt(b, o, m, toi.y)
  }

  /** The obstacle would be accepted by a scan that has found nothing yet. */
  predicate Qualifies(b: Box, o: Box, m: Vec2) {
    CollidesX(b, o, m, 1.0) || CollidesY(b, o, m, 1.0)
  }

  /** Whether the accepted collision is taken on the x axis. */
  predicate PicksX(rule: AxisRule, toi: Vec2, cx: bool, cy: bool) {
    match rule
    case CompareTimes => toi.x < toi.y
    case CollidingAxis => cx && (!cy || toi.x < toi.y)
  }

  /** One iteration of the loop of cbump_move_simple, for obstacle `o` at index `i`. */
  function Step(rule: AxisRule, b: Box, m: Vec2, st: ScanState, i: nat, o: Box): ScanState {
    var toi := TimeOfImpact(b, o, m);
    var cx := CollidesX(b, o, m, st.time);
    var cy := CollidesY(b, o, m, st.time);
    if !cx && !cy then st
    else if PicksX(rule, toi, cx, cy) then ScanState(toi.x, Vec2(Opposite(m.x), 0.0), i)
    else ScanState(toi.y, Vec2(0.0, Opposite(m.y)), i)
  }

  /** The state after scanning all of `obs`, in list order. */
  function Scan(rule: AxisRule, b: Box, m: Vec2, obs: seq<Box>): (st: ScanState)
    ensures 0.0 <= st.time <= 1.0
    ensures st.index < |obs| || st.index == 0
    ensures st.time < 1.0 ==> st.index < |obs|
    decreases |obs|
  {
    if |obs| == 0 then Start
    else Step(rule, b, m, Scan(rule, b, m, obs[..|obs| - 1]), |obs| - 1, obs[|obs| - 1])
  }

  /** The collision record cbump_move_simple returns for a sweep of `b` by `m`. */
  function Sweep(rule: AxisRule, b: Box, m: Vec2, obs: seq<Box>): (c: Collision)
    ensures 0.0 <= c.time <= 1.0
    ensures c.moveleft == Scale(1.0 - c.time, m)
    ensures c.time == 1.0 ==> c.moveleft == Zero
    ensures |obs| > 0 ==> c.index < |obs| && c.obstacle == Some(obs[c.index])
    ensures |obs| == 0 ==> c.obstacle == None && c.time == 1.0 && c.normal == Zero
  {
    var st := Scan(rule, b, m, obs);
    Collision(if |obs| > 0 then Some(obs[st.index]) else None, st.normal,
              Scale(1.0 - st.time, m), st.time, st.index)
  }

  /** cbump_move_simple. The obstacles are read, never written; the box is moved to
      the time of impact (the whole way when nothing is hit). */
  method MoveSimple(box: MovingBox, move: Vec2, n: nat, obstacles: array<Box>) returns (c: Collision)
    requires n <= obstacles.Length
    modifies box
    ensures c == Sweep(CompareTimes, old(box.Value()), move, obstacles[..n])
    ensures box.Value() == Advance(old(box.Value()), move, c.time)
  {
    var b := box.Value();
    var time, normal, index := 1.0, Zero, 0;
    for i := 0 to n
      invariant box.Value() == b
      invariant ScanState(time, normal, index) == Scan(CompareTimes, b, move, obstacles[..i])
    {
      assert obstacles[..i + 1][..i] == obstacles[..i];
      var obstacle := obstacles[i];
      var toi := TimeOfImpact(b, obstacle, move);
      var collideX := CollidesX(b, obstacle, move, time);
      var collideY := CollidesY(b, obstacle, move, time);
      if !collideX && !collideY {
        continue;
      }
      index := i;
      if toi.x < toi.y {
        time := toi.x;
        normal := Vec2(if move.x > 0.0 then -1.0 else 1.0, 0.0);
      } else {
        time := toi.y;
        normal := Vec2(0.0, if move.y > 0.0 then -1.0 else 1.0);
      }
    }
    var moved := Advance(b, move, time);
    box.x, box.y := moved.x, moved.y;
    var obstacle := if n > 0 then Some(obstacles[index]) else None;
    c := Collision(obstacle, normal, Scale(1.0 - time, move), time, index);
  }

  // ---------------------------------------------------------------- one step

  /** An accepted obstacle strictly lowers the time and becomes the recorded index;
      under the source's rule the new time is the smaller axis time. Any other
      obstacle leaves the state as it was. */
  lemma StepOutcome(rule: AxisRule, b: Box, m: Vec2, st: ScanState, i: nat, o: Box)
    ensures var s := Step(rule, b, m, st, i, o);
      var toi := TimeOfImpact(b, o, m);
      if CollidesX(b, o, m, st.time) || CollidesY(b, o, m, st.time) then
        s.time < st.time && s.index == i && (rule == CompareTimes ==> s.time == Min(toi.x, toi.y))
      else s == st
  {
  }

  /** The tests are strict: an obstacle whose axis times are no earlier than the
      current time never replaces the recorded one. */
  lemma StepKeepsEarlierOnTie(rule: AxisRule, b: Box, m: Vec2, st: ScanState, i: nat, o: Box)
    requires Min(TimeOfImpact(b, o, m).x, TimeOfImpact(b, o, m).y) >= st.time
    ensures Step(rule, b, m, st, i, o) == st
  {
  }

  /** A box with positive extents listed among its own obstacles is never accepted. */
  lemma StepIgnoresSelf(rule: AxisRule, b: Box, m: Vec2, st: ScanState, i: nat)
    requires b.w > 0.0 && b.h > 0.0 && st.time <= 1.0
    ensures Step(rule, b, m, st, i, b) == st
  {
  }

  /** Where the displacement has no component along an axis on which the ranges
      exactly abut, the C time of impact on that axis is 0 / 0. Neither test
      holds then, in the source or here, so the obstacle is skipped. */
  lemma StepSkipsAbuttingAtRest(rule: AxisRule, b: Box, m: Vec2, st: ScanState, i: nat, o: Box)
    requires st.time <= 1.0
    requires (m.x == 0.0 && b.x == o.x + o.w) || (m.y == 0.0 && b.y == o.y + o.h)
    ensures Step(rule, b, m, st, i, o) == st
  {
  }

  // ---------------------------------------------------------------- the whole scan

  /** A zero displacement meets nothing: the time stays 1. */
  lemma {:induction false} ScanZeroMove(rule: AxisRule, b: Box, obs: seq<Box>)
    ensures Scan(rule, b, Zero, obs).time == 1.0
    decreases |obs|
  {
    if |obs| > 0 {
      ScanZeroMove(rule, b, obs[..|obs| - 1]);
    }
  }

  /** The time never rises from one prefix of the list to the next. */
  lemma {:induction false} ScanTimeFalls(rule: AxisRule, b: Box, m: Vec2, obs: seq<Box>, k: nat)
    requires k <= |obs|
    ensures Scan(rule, b, m, obs).time <= Scan(rule, b, m, obs[..k]).time
    decreases |obs|
  {
    if k < |obs| {
      var pre := obs[..|obs| - 1];
      assert pre[..k] == obs[..k];
      ScanTimeFalls(rule, b, m, pre, k);
    } else {
      assert obs[..k] == obs;
    }
  }

  /** One step never raises the time, and from time 1 it stays at 1 exactly when
      the obstacle does not qualify. */
  lemma StepTime(rule: AxisRule, b: Box, m: Vec2, st: ScanState, i: nat, o: Box)
    requires st.time <= 1.0
    ensures Step(rule, b, m, st, i, o).time <= st.time
    ensures st.time == 1.0 ==> (Step(rule, b, m, st, i, o).time == 1.0 <==> !Qualifies(b, o, m))
  {
  }

  /** The sweep hits nothing (time 1) exactly when no obstacle in the list qualifies. */
  lemma {:induction false} ScanMissIffNoneQualifies(rule: AxisRule, b: Box, m: Vec2, obs: seq<Box>)
    ensures Scan(rule, b, m, obs).time == 1.0 <==> forall j :: 0 <= j < |obs| ==> !Qualifies(b, obs[j], m)
    decreases |obs|
  {
    if |obs| > 0 {
      var k := |obs| - 1;
      var pre := obs[..k];
      ScanMissIffNoneQualifies(rule, b, m, pre);
      var s := Scan(rule, b, m, pre);
      StepTime(rule, b, m, s, k, obs[k]);
      assert Scan(rule, b, m, obs) == Step(rule, b, m, s, k, obs[k]);
      assert forall j :: 0 <= j < k ==> obs[j] == pre[j];
      if s.time < 1.0 {
        var j :| 0 <= j < k && Qualifies(b, pre[j], m);
        assert Qualifies(b, obs[j], m);
      }
    }
  }

  /** The time recorded is no later than either axis time of any obstacle whose
      test on that axis holds: the sweep never skips an earlier collision. */
  predicate NoLaterThanHits(b: Box, o: Box, m: Vec2, t: real) {
    var toi := TimeOfImpact(b, o, m);
    (CollidesX(b, o, m, 1.0) ==> t <= toi.x) && (CollidesY(b, o, m, 1.0) ==> t <= toi.y)
  }

  lemma {:induction false} ScanIsEarliest(rule: AxisRule, b: Box, m: Vec2, obs: seq<Box>)
    ensures forall j :: 0 <= j < |obs| ==> NoLaterThanHits(b, obs[j], m, Scan(rule, b, m, obs).time)
    decreases |obs|
  {
    if |obs| > 0 {
      var pre := obs[..|obs| - 1];
      ScanIsEarliest(rule, b, m, pre);
      var s := Scan(rule, b, m, pre);
      var t := Scan(rule, b, m, obs).time;
      assert t <= s.time;
      forall j | 0 <= j < |obs|
        ensures NoLaterThanHits(b, obs[j], m, t)
      {
        if j < |pre| {
          assert obs[j] == pre[j];
          assert NoLaterThanHits(b, pre[j], m, s.time);
        }
      }
    }
  }

  /** Obstacle `o` is hit on an axis whose test holds, at `t` or earlier. */
  predicate HitsBy(b: Box, o: Box, m: Vec2, t: real) {
    var toi := TimeOfImpact(b, o, m);
    (CollidesX(b, o, m, 1.0) && toi.x <= t) || (CollidesY(b, o, m, 1.0) && toi.y <= t)
  }

  /** The tests are strict, so on a tie the earlier obstacle is kept: no obstacle
      listed before the recorded one is hit by the reported time. */
  lemma {:induction false} ScanKeepsFirstOnTie(rule: AxisRule, b: Box, m: Vec2, obs: seq<Box>)
    ensures var st := Scan(rule, b, m, obs);
      forall j :: 0 <= j < st.index ==> !HitsBy(b, obs[j], m, st.time)
    decreases |obs|
  {
    if |obs| > 0 {
      var k := |obs| - 1;
      var pre := obs[..k];
      ScanKeepsFirstOnTie(rule, b, m, pre);
      ScanIsEarliest(rule, b, m, pre);
      StepOutcome(rule, b, m, Scan(rule, b, m, pre), k, obs[k]);
      assert forall j :: 0 <= j < k ==> obs[j] == pre[j];
    }
  }

  /** The state was written by an accepted step for obstacle `o`: its time and normal
      come from one axis of o's time of impact, chosen as the rule says. */
  predicate RecordsHit(rule: AxisRule, b: Box, m: Vec2, st: ScanState, o: Box) {
    var toi := TimeOfImpact(b, o, m);
    (st.time == toi.x && st.normal == Vec2(Opposite(m.x), 0.0) &&
     (rule == CompareTimes ==> toi.x < toi.y) && (rule == CollidingAxis ==> YOverlapAt(b, o, m, toi.x)))
    ||
    (st.time == toi.y && st.normal == Vec2(0.0, Opposite(m.y)) &&
     (rule == CompareTimes ==> !(toi.x < toi.y)) && (rule == CollidingAxis ==> XOverlapAt(b, o, m, toi.y)))
  }

  /** When something was hit, the recorded index names the obstacle that set the
      time and the normal. */
  lemma {:induction false} ScanRecordsHit(rule: AxisRule, b: Box, m: Vec2, obs: seq<Box>)
    requires Scan(rule, b, m, obs).time < 1.0
    ensures var st := Scan(rule, b, m, obs); st.index < |obs| && RecordsHit(rule, b, m, st, obs[st.index])
    decreases |obs|
  {
    var pre := obs[..|obs| - 1];
    var s := Scan(rule, b, m, pre);
    var i := |obs| - 1;
    if Step(rule, b, m, s, i, obs[i]) == s {
      ScanRecordsHit(rule, b, m, pre);
      assert obs[s.index] == pre[s.index];
    }
  }

  // ---------------------------------------------------------------- the collision record

  /** The faces selected by `n` meet: the moving box `b` lies against `o` on n's axis. */
  predicate FacesMeet(b: Box, o: Box, n: Vec2) {
    (n == Vec2(-1.0, 0.0) ==> b.x + b.w == o.x) &&
    (n == Vec2(1.0, 0.0) ==> b.x == o.x + o.w) &&
    (n == Vec2(0.0, -1.0) ==> b.y + b.h == o.y) &&
    (n == Vec2(0.0, 1.0) ==> b.y == o.y + o.h)
  }

  /** `b` touches `o` along the face with normal `n`: the faces meet and the boxes
      overlap on the other axis. */
  predicate Touching(b: Box, o: Box, n: Vec2) {
    FacesMeet(b, o, n) &&
    (n.y == 0.0 ==> RangeOverlap(b.y, b.h, o.y, o.h)) &&
    (n.x == 0.0 ==> RangeOverlap(b.x, b.w, o.x, o.w))
  }

  /** The moving box `b`, pushed against `o` along the unit normal `n` while moving
      by `m`: n points against a non-zero component of m on its axis, the faces that
      n selects meet, and the boxes do not overlap. */
  predicate StopsAgainst(b: Box, o: Box, n: Vec2, m: Vec2) {
    UnitAxis(n) &&
    (n.y == 0.0 ==> m.x != 0.0 && n.x == -Sign(m.x)) &&
    (n.x == 0.0 ==> m.y != 0.0 && n.y == -Sign(m.y)) &&
    FacesMeet(b, o, n) && !BoxOverlap(b, o)
  }

  /** On one axis: after moving by the contact factor the faces meet, so the ranges
      no longer overlap. */
  lemma AxisContactSeparates(bmin: real, bext: real, omin: real, oext: real, mm: real, t: real)
    requires Contact(bmin, bext, omin, oext, mm, t)
    ensures mm != 0.0
    ensures mm > 0.0 ==> bmin + t * mm + bext == omin
    ensures mm < 0.0 ==> bmin + t * mm == omin + oext
    ensures !RangeOverlap(bmin + t * mm, bext, omin, oext)
  {
  }

  /** Stopping at the x contact factor `t` leaves the box against the x face of `o`. */
  lemma XContactStopsAgainst(b: Box, m: Vec2, o: Box, t: real)
    requires Contact(b.x, b.w, o.x, o.w, m.x, t)
    ensures StopsAgainst(Advance(b, m, t), o, Vec2(Opposite(m.x), 0.0), m)
  {
  }

  /** Stopping at the y contact factor `t` leaves the box against the y face of `o`. */
  lemma YContactStopsAgainst(b: Box, m: Vec2, o: Box, t: real)
    requires Contact(b.y, b.h, o.y, o.h, m.y, t)
    ensures StopsAgainst(Advance(b, m, t), o, Vec2(0.0, Opposite(m.y)), m)
  {
  }

  /** A state recording a hit on `o` below time 1 leaves the box against `o`. */
  lemma HitStopsAgainst(rule: AxisRule, b: Box, m: Vec2, st: ScanState, o: Box)
    requires RecordsHit(rule, b, m, st, o) && st.time < 1.0
    ensures StopsAgainst(Advance(b, m, st.time), o, st.normal, m)
  {
  }

  /** A sweep that hits something (time below 1) reports the obstacle at its index,
      a unit normal on one axis pointing against a non-zero displacement component,
      and leaves the box against that face of the obstacle without overlapping it. */
  lemma SweepStopsAgainstObstacle(rule: AxisRule, b: Box, m: Vec2, obs: seq<Box>)
    requires Sweep(rule, b, m, obs).time < 1.0
    ensures var c := Sweep(rule, b, m, obs);
      c.index < |obs| && c.obstacle == Some(obs[c.index]) &&
      StopsAgainst(Advance(b, m, c.time), obs[c.index], c.normal, m)
  {
    ScanRecordsHit(rule, b, m, obs);
    var st := Scan(rule, b, m, obs);
    HitStopsAgainst(rule, b, m, st, obs[st.index]);
  }

  /** Under the rule of src/cbump.c:54 the axis is chosen by comparing the two axis
      times of the hit obstacle, and a tie goes to the y axis. */
  lemma SweepAxisByComparingTimes(b: Box, m: Vec2, obs: seq<Box>)
    requires Sweep(CompareTimes, b, m, obs).time < 1.0
    ensures var c := Sweep(CompareTimes, b, m, obs);
      var toi := TimeOfImpact(b, obs[c.index], m);
      c.index < |obs| &&
      (toi.x < toi.y ==> c.time == toi.x && c.normal == Vec2(Opposite(m.x), 0.0)) &&
      (!(toi.x < toi.y) ==> c.time == toi.y && c.normal == Vec2(0.0, Opposite(m.y)))
  {
    ScanRecordsHit(CompareTimes, b, m, obs);
  }

  /** Stopping at the x contact factor `t` where the y extents overlap is a touch. */
  lemma XContactTouches(b: Box, m: Vec2, o: Box, t: real)
    requires Contact(b.x, b.w, o.x, o.w, m.x, t) && YOverlapAt(b, o, m, t)
    ensures Touching(Advance(b, m, t), o, Vec2(Opposite(m.x), 0.0))
  {
  }

  /** Stopping at the y contact factor `t` where the x extents overlap is a touch. */
  lemma YContactTouches(b: Box, m: Vec2, o: Box, t: real)
    requires Contact(b.y, b.h, o.y, o.h, m.y, t) && XOverlapAt(b, o, m, t)
    ensures Touching(Advance(b, m, t), o, Vec2(0.0, Opposite(m.y)))
  {
  }

  /** What the two tests check: an impact on that axis before `time` (at most 1)
      at which the box actually touches the obstacle's facing face. */
  lemma CollideTestsMeanTouch(b: Box, o: Box, m: Vec2, time: real)
    requires time <= 1.0
    ensures var toi := TimeOfImpact(b, o, m);
      CollidesX(b, o, m, time) ==> m.x != 0.0 && toi.x < time && Touching(Advance(b, m, toi.x), o, Vec2(Opposite(m.x), 0.0))
    ensures var toi := TimeOfImpact(b, o, m);
      CollidesY(b, o, m, time) ==> m.y != 0.0 && toi.y < time && Touching(Advance(b, m, toi.y), o, Vec2(0.0, Opposite(m.y)))
  {
    var toi := TimeOfImpact(b, o, m);
    if CollidesX(b, o, m, time) {
      XContactTouches(b, m, o, toi.x);
    }
    if CollidesY(b, o, m, time) {
      YContactTouches(b, m, o, toi.y);
    }
  }

  /** Under the colliding-axis rule a recorded hit is a real contact: the obstacle
      qualifies and the box, advanced to the recorded time, touches it. */
  lemma HitTouches(b: Box, m: Vec2, st: ScanState, o: Box)
    requires RecordsHit(CollidingAxis, b, m, st, o) && st.time < 1.0
    ensures Qualifies(b, o, m)
    ensures Touching(Advance(b, m, st.time), o, st.normal)
  {
    var toi := TimeOfImpact(b, o, m);
    if st.time == toi.x && st.normal == Vec2(Opposite(m.x), 0.0) {
      XContactTouches(b, m, o, toi.x);
      assert CollidesX(b, o, m, 1.0);
    } else {
      YContactTouches(b, m, o, toi.y);
      assert CollidesY(b, o, m, 1.0);
    }
  }

  /** With the colliding-axis rule the sweep stops at the first contact: the box
      touches the reported obstacle, which qualifies at the reported time, and no
      obstacle qualifies at an earlier time. */
  lemma SweepCollidingAxisTouches(b: Box, m: Vec2, obs: seq<Box>)
    requires Sweep(CollidingAxis, b, m, obs).time < 1.0
    ensures var c := Sweep(CollidingAxis, b, m, obs);
      c.index < |obs| && Qualifies(b, obs[c.index], m) &&
      Touching(Advance(b, m, c.time), obs[c.index], c.normal) &&
      forall j :: 0 <= j < |obs| ==> NoLaterThanHits(b, obs[j], m, c.time)
  {
    ScanRecordsHit(CollidingAxis, b, m, obs);
    ScanIsEarliest(CollidingAxis, b, m, obs);
    var st := Scan(CollidingAxis, b, m, obs);
    HitTouches(b, m, st, obs[st.index]);
  }

  /** As written, the sweep can stop where the box touches nothing. The box at the
      origin moving by (2, 2) first reaches the obstacle's left face at 1/2; the rule
      of src/cbump.c:54 takes the smaller y time 1/4 instead, where the boxes are
      1/2 apart on x. The colliding-axis rule stops at the contact. */
  lemma AsWrittenStopsShortOfContact(b: Box, m: Vec2, o: Box)
    requires b == Box(0.0, 0.0, 1.0, 1.0) && m == Vec2(2.0, 2.0) && o == Box(2.0, 1.5, 1.0, 10.0)
    ensures var c := Sweep(CompareTimes, b, m, [o]);
      c.time == 0.25 && c.normal == Vec2(0.0, -1.0) && !Touching(Advance(b, m, c.time), o, c.normal)
    ensures var d := Sweep(CollidingAxis, b, m, [o]);
      d.time == 0.5 && d.normal == Vec2(-1.0, 0.0) && Touching(Advance(b, m, d.time), o, d.normal)
  {
    // The x face is reached at 1/2 with the y ranges overlapping; the y face at 1/4
    // with the box at (0.5, 0.5), half a unit left of the obstacle.
    assert TimeOfImpact(b, o, m) == Vec2(0.5, 0.25);
    assert Advance(b, m, 0.25) == Box(0.5, 0.5, 1.0, 1.0) && Advance(b, m, 0.5) == Box(1.0, 1.0, 1.0, 1.0);
  }

  /** The moving box listed among its own obstacles (at any position) changes
      neither the time nor the normal of the sweep. */
  lemma ScanIgnoresSelf(rule: AxisRule, b: Box, m: Vec2, obs: seq<Box>, p: nat)
    requires b.w > 0.0 && b.h > 0.0 && p <= |obs|
    ensures var s := Scan(rule, b, m, obs[..p] + [b] + obs[p..]);
      s.time == Scan(rule, b, m, obs).time && s.normal == Scan(rule, b, m, obs).normal
  {
    ScanIgnoresSelfBetween(rule, b, m, obs[..p], obs[p..]);
    assert obs[..p] + obs[p..] == obs;
  }

  lemma {:induction false} ScanIgnoresSelfBetween(rule: AxisRule, b: Box, m: Vec2, pre: seq<Box>, suf: seq<Box>)
    requires b.w > 0.0 && b.h > 0.0
    ensures Scan(rule, b, m, pre + [b] + suf).time == Scan(rule, b, m, pre + suf).time
    ensures Scan(rule, b, m, pre + [b] + suf).normal == Scan(rule, b, m, pre + suf).normal
    decreases |suf|
  {
    if |suf| == 0 {
      assert pre + [b] + suf == pre + [b] && pre + suf == pre;
      ScanSnoc(rule, b, m, pre, b);
      StepIgnoresSelf(rule, b, m, Scan(rule, b, m, pre), |pre|);
    } else {
      var rest, o := suf[..|suf| - 1], suf[|suf| - 1];
      ScanIgnoresSelfBetween(rule, b, m, pre, rest);
      assert pre + [b] + suf == (pre + [b] + rest) + [o];
      assert pre + suf == (pre + rest) + [o];
      ScanSnoc(rule, b, m, pre + [b] + rest, o);
      ScanSnoc(rule, b, m, pre + rest, o);
      StepDependsOnTimeAndNormal(rule, b, m, Scan(rule, b, m, pre + [b] + rest), |pre + [b] + rest|,
                                 Scan(rule, b, m, pre + rest), |pre + rest|, o);
    }
  }

  /** The time and normal after a step depend only on the time and normal before it. */
  lemma StepDependsOnTimeAndNormal(rule: AxisRule, b: Box, m: Vec2, s1: ScanState, i1: nat, s2: ScanState, i2: nat, o: Box)
    requires s1.time == s2.time && s1.normal == s2.normal
    ensures Step(rule, b, m, s1, i1, o).time == Step(rule, b, m, s2, i2, o).time
    ensures Step(rule, b, m, s1, i1, o).normal == Step(rule, b, m, s2, i2, o).normal
  {
  }

  /** Scanning one more obstacle is one more step. */
  lemma ScanSnoc(rule: AxisRule, b: Box, m: Vec2, xs: seq<Box>, o: Box)
    ensures Scan(rule, b, m, xs + [o]) == Step(rule, b, m, Scan(rule, b, m, xs), |xs|, o)
  {
    assert (xs + [o])[..|xs|] == xs;
  }
}
