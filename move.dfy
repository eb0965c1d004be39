/** cbump_move: repeated sweeps and resolutions until no movement is left. After
    each sweep the hit obstacle is swapped to the end of the active part of the
    caller's array, and the active count shrinks by one.

    The active count `n` is unsigned in the source. When it is already 0, the
    source reads obstacles[0] and decrements past zero. Here that sweep reports no
    obstacle and the swap is skipped. Such a sweep always leaves nothing to move, so
    the loop ends after at most n + 1 sweeps. */
module Move {
  import opened Geometry
  import opened Impact
  import opened Sweeping
  import opened Resolvers

  /** The final box, the final order of the obstacle array, and the number of sweeps. */
  datatype Outcome = Outcome(box: Box, obstacles: seq<Box>, sweeps: nat)

  /** The array after the hit obstacle at `i` is moved to the last active slot `k`. */
  function RemoveHit(obs: seq<Box>, i: nat, k: nat): (r: seq<Box>)
    requires i <= k < |obs|
    ensures |r| == |obs| && r[k] == obs[i] && r[i] == obs[k] && r[k + 1..] == obs[k + 1..]
    ensures forall j :: 0 <= j < |obs| && j != i && j != k ==> r[j] == obs[j]
    ensures multiset(r) == multiset(obs)
  {
    var r := obs[i := obs[k]][k := obs[i]];
    assert r[k + 1..] == obs[k + 1..];
    r
  }

  /** The move loop of cbump_move on values, with the axis rule as a parameter. */
  function MoveLoop(rule: AxisRule, b: Box, m: Vec2, obs: seq<Box>, n: nat, r: Resolver): (o: Outcome)
    requires n <= |obs|
    ensures |o.obstacles| == |obs|
    ensures m == Zero ==> o == Outcome(b, obs, 0)
    ensures m != Zero ==> 1 <= o.sweeps <= n + 1
    decreases n + (if m == Zero then 0 else 1)
  {
    if m == Zero then Outcome(b, obs, 0)
    else
      var c := Sweep(rule, b, m, obs[..n]);
      var next := Resolve(r, c);
      var rest :=
        if n == 0 then MoveLoop(rule, Advance(b, m, c.time), next, obs, 0, r)
        else MoveLoop(rule, Advance(b, m, c.time), next, RemoveHit(obs, c.index, n - 1), n - 1, r);
      Outcome(rest.box, rest.obstacles, rest.sweeps + 1)
  }

  /** The move only reorders the active part of the obstacle array, and never
      resizes the box. */
  lemma {:induction false} MoveLoopPermutes(rule: AxisRule, b: Box, m: Vec2, obs: seq<Box>, n: nat, r: Resolver)
    requires n <= |obs|
    ensures var o := MoveLoop(rule, b, m, obs, n, r);
      o.obstacles[n..] == obs[n..] && multiset(o.obstacles) == multiset(obs) &&
      o.box.w == b.w && o.box.h == b.h
    decreases n + (if m == Zero then 0 else 1)
  {
    if m != Zero {
      var c := Sweep(rule, b, m, obs[..n]);
      var obs' := if n == 0 then obs else RemoveHit(obs, c.index, n - 1);
      var n' := if n == 0 then 0 else n - 1;
      MoveLoopStep(rule, b, m, obs, n, r, c, obs', n');
      MoveLoopPermutes(rule, Advance(b, m, c.time), Resolve(r, c), obs', n', r);
      ReorderStep(obs, obs', MoveLoop(rule, b, m, obs, n, r).obstacles, n, n');
    }
  }

  /** Chaining one swap with the rest of the loop: if `mid` reorders `s` below
      slot n' and `fin` reorders `mid` below slot n', then `fin` reorders `s`
      below slot n. */
  lemma ReorderStep(s: seq<Box>, mid: seq<Box>, fin: seq<Box>, n: nat, n': nat)
    requires n <= |s| == |mid| == |fin|
    requires n' == (if n == 0 then 0 else n - 1)
    requires mid[n..] == s[n..] && multiset(mid) == multiset(s)
    requires fin[n'..] == mid[n'..] && multiset(fin) == multiset(mid)
    ensures fin[n..] == s[n..] && multiset(fin) == multiset(s)
  {
    if n > 0 {
      assert fin[n..] == fin[n'..][1..];
      assert mid[n..] == mid[n'..][1..];
    }
  }

  /** cbump_move. A resolver of None means sliding. The moving box is a separate
      object from the array's entries. */
  method Move(box: MovingBox, move: Vec2, n: nat, obstacles: array<Box>, resolver: Option<Resolver>)
    requires n <= obstacles.Length
    modifies box, obstacles
    ensures var r := if resolver.Some? then resolver.value else Slide;
      var o := MoveLoop(CompareTimes, old(box.Value()), move, old(obstacles[..]), n, r);
      box.Value() == o.box && obstacles[..] == o.obstacles
    ensures multiset(obstacles[..]) == multiset(old(obstacles[..]))
  {
    var r := if resolver.Some? then resolver.value else Slide;
    ghost var final := MoveLoop(CompareTimes, box.Value(), move, obstacles[..], n, r);
    MoveLoopPermutes(CompareTimes, box.Value(), move, obstacles[..], n, r);
    var m := move;
    var k: nat := n;
    ghost var b, obs := box.Value(), obstacles[..];
    while m.x != 0.0 || m.y != 0.0
      invariant k <= obstacles.Length
      invariant box.Value() == b && obstacles[..] == obs
      invariant MoveLoop(CompareTimes, b, m, obs, k, r).box == final.box
      invariant MoveLoop(CompareTimes, b, m, obs, k, r).obstacles == final.obstacles
      decreases k + (if m == Zero then 0 else 1)
    {
      ghost var m0, k0 := m, k;
      var collision;
      collision, m, k := Round(box, m, k, obstacles, r);
      ghost var obs' := if k0 == 0 then obs else RemoveHit(obs, collision.index, k0 - 1);
      MoveLoopStep(CompareTimes, b, m0, obs, k0, r, collision, obs', k);
      b, obs := box.Value(), obs';
    }
  }

  /** One pass of the loop of cbump_move: a sweep of the `k` active obstacles, the
      resolver's new displacement, and the hit obstacle swapped to the last active
      slot, which then leaves the active part. */
  method Round(box: MovingBox, m: Vec2, k: nat, obstacles: array<Box>, r: Resolver)
    returns (collision: Collision, next: Vec2, k': nat)
    requires k <= obstacles.Length
    modifies box, obstacles
    ensures collision == Sweep(CompareTimes, old(box.Value()), m, old(obstacles[..])[..k])
    ensures box.Value() == Advance(old(box.Value()), m, collision.time)
    ensures next == Resolve(r, collision)
    ensures k' == (if k == 0 then 0 else k - 1)
    ensures obstacles[..] == if k == 0 then old(obstacles[..]) else RemoveHit(old(obstacles[..]), collision.index, k - 1)
  {
    collision := MoveSimple(box, m, k, obstacles);
    next := Resolve(r, collision);
    k' := k;
    if k > 0 {
      ghost var obs := obstacles[..];
      assert collision.obstacle.value == obs[collision.index];
      k' := k - 1;
      obstacles[collision.index] := obstacles[k'];
      obstacles[k'] := collision.obstacle.value;
      assert obstacles[..] == RemoveHit(obs, collision.index, k');
    }
  }

  /** One round of the move loop: the outcome from `b` is the outcome of the rest of
      the loop, from where the sweep `c` of the active obstacles stopped, with the
      resolver's new displacement and the hit obstacle swapped out of the active part. */
  lemma MoveLoopStep(rule: AxisRule, b: Box, m: Vec2, obs: seq<Box>, n: nat, r: Resolver,
                     c: Collision, obs': seq<Box>, n': nat)
    requires n <= |obs| && m != Zero
    requires c == Sweep(rule, b, m, obs[..n])
    requires n' == (if n == 0 then 0 else n - 1)
    requires obs' == (if n == 0 then obs else RemoveHit(obs, c.index, n - 1))
    ensures MoveLoop(rule, b, m, obs, n, r).box == MoveLoop(rule, Advance(b, m, c.time), Resolve(r, c), obs', n', r).box
    ensures MoveLoop(rule, b, m, obs, n, r).obstacles == MoveLoop(rule, Advance(b, m, c.time), Resolve(r, c), obs', n', r).obstacles
  {
  }

  // ---------------------------------------------------------------- outcomes

  /** With the touch resolver there is exactly one sweep: the box stops where that
      sweep put it, and only the hit obstacle has moved to the end. */
  lemma TouchSweepsOnce(rule: AxisRule, b: Box, m: Vec2, obs: seq<Box>, n: nat)
    requires 0 < n <= |obs| && m != Zero
    ensures var c := Sweep(rule, b, m, obs[..n]);
      MoveLoop(rule, b, m, obs, n, Touch) == Outcome(Advance(b, m, c.time), RemoveHit(obs, c.index, n - 1), 1)
  {
  }

  /** Moving by the fraction t and then by the rest of the displacement reaches the
      same place as moving by the whole of it. */
  lemma AdvanceThenRest(b: Box, m: Vec2, t: real)
    ensures Advance(Advance(b, m, t), Scale(1.0 - t, m), 1.0) == Advance(b, m, 1.0)
  {
  }

  /** With the cross resolver the path is never shortened: the box ends at its start
      plus the whole displacement, whatever the obstacles. */
  lemma {:induction false} CrossReachesTarget(rule: AxisRule, b: Box, m: Vec2, obs: seq<Box>, n: nat)
    requires n <= |obs|
    ensures MoveLoop(rule, b, m, obs, n, Cross).box == Advance(b, m, 1.0)
    decreases n + (if m == Zero then 0 else 1)
  {
    if m != Zero {
      var c := Sweep(rule, b, m, obs[..n]);
      var a := Advance(b, m, c.time);
      var next := Resolve(Cross, c);
      assert next == Scale(1.0 - c.time, m);
      AdvanceThenRest(b, m, c.time);
      var obs' := if n == 0 then obs else RemoveHit(obs, c.index, n - 1);
      var n' := if n == 0 then 0 else n - 1;
      MoveLoopStep(rule, b, m, obs, n, Cross, c, obs', n');
      CrossReachesTarget(rule, a, next, obs', n');
      assert MoveLoop(rule, a, next, obs', n', Cross).box == Advance(a, next, 1.0);
      assert Advance(a, next, 1.0) == Advance(b, m, 1.0);
    }
  }

  /** The regression scenario: a 20 x 20 box centred at (30, 30) moved by (50, -50)
      with the default slide resolver lands on the ground line at y = 0 with x = 40
      and slides on to (70, 0). */
  lemma SlideAlongGround()
    ensures var ground := Box(0.0, 0.0, 100.0, 0.0);
      var b := BoxCenter(30.0, 30.0, 20.0, 20.0);
      var m := Vec2(50.0, -50.0);
      Advance(b, m, Sweep(CompareTimes, b, m, [ground]).time) == Box(40.0, 0.0, 20.0, 20.0) &&
      MoveLoop(CompareTimes, b, m, [ground], 1, Slide).box == Box(70.0, 0.0, 20.0, 20.0)
  {
    // The box starts at corner (20, 20) and reaches the ground on the y axis at
    // 0.4, with (30, -30) left to move; sliding keeps (30, 0).
  }

  /** The regression scenario as the example program writes it: the moving box is
      listed after the ground among its own obstacles, and both are active. The copy
      of the box in the list is never hit, and the box still ends at (70, 0). */
  lemma SlideAlongGroundListingSelf(ground: Box, b: Box, m: Vec2)
    requires ground == Box(0.0, 0.0, 100.0, 0.0) && b == BoxCenter(30.0, 30.0, 20.0, 20.0) && m == Vec2(50.0, -50.0)
    ensures MoveLoop(CompareTimes, b, m, [ground, b], 2, Slide).box == Box(70.0, 0.0, 20.0, 20.0)
  {
    assert b == Box(20.0, 20.0, 20.0, 20.0);
    var obs := [ground, b];
    var c := GroundThenSelfSweep(ground, b, m);
    var a := Box(40.0, 0.0, 20.0, 20.0);
    var next := Vec2(30.0, 0.0);
    assert Advance(b, m, c.time) == a;
    assert Resolve(Slide, c) == next;
    var obs' := RemoveHit(obs, 0, 1);
    assert obs' == [b, ground];
    MoveLoopStep(CompareTimes, b, m, obs, 2, Slide, c, obs', 1);
    var c2 := PassStaleSelf(a, b, next, ground);
    assert Resolve(Slide, c2) == Zero;
    assert RemoveHit(obs', 0, 0) == obs';
    MoveLoopStep(CompareTimes, a, next, obs', 1, Slide, c2, obs', 0);
    assert Advance(a, next, 1.0) == Box(70.0, 0.0, 20.0, 20.0);
  }

  /** The first sweep of that scenario hits the ground at 0.4 on the y axis; the copy
      of the box after it changes nothing. */
  lemma GroundThenSelfSweep(ground: Box, b: Box, m: Vec2) returns (c: Collision)
    requires ground == Box(0.0, 0.0, 100.0, 0.0) && b == Box(20.0, 20.0, 20.0, 20.0) && m == Vec2(50.0, -50.0)
    ensures c == Sweep(CompareTimes, b, m, [ground, b][..2])
    ensures c == Collision(Some(ground), Vec2(0.0, 1.0), Vec2(30.0, -30.0), 0.4, 0)
  {
    assert AxisImpact(b.x, b.w, ground.x, ground.w, m.x) == 1.0;
    assert AxisImpact(b.y, b.h, ground.y, ground.h, m.y) == 0.4;
    assert TimeOfImpact(b, ground, m) == Vec2(1.0, 0.4);
    assert !CollidesX(b, ground, m, 1.0) && CollidesY(b, ground, m, 1.0);
    var obs := [ground, b];
    assert obs[..2] == obs && obs[..1] == [ground] && [ground][..0] == [];
    var st := Step(CompareTimes, b, m, Start, 0, ground);
    assert st == ScanState(0.4, Vec2(0.0, 1.0), 0);
    assert Scan(CompareTimes, b, m, [ground]) == st;
    StepIgnoresSelf(CompareTimes, b, m, st, 1);
    assert Scan(CompareTimes, b, m, obs) == st;
    c := Sweep(CompareTimes, b, m, obs[..2]);
    assert c.moveleft == Scale(0.6, m) == Vec2(30.0, -30.0);
  }

  /** The second sweep of that scenario: the box, now on the ground at (40, 0) and
      sliding by (30, 0), moves away from the copy of its start in the list. */
  lemma PassStaleSelf(a: Box, b: Box, next: Vec2, ground: Box) returns (c: Collision)
    requires a == Box(40.0, 0.0, 20.0, 20.0) && b == Box(20.0, 20.0, 20.0, 20.0) && next == Vec2(30.0, 0.0)
    ensures c == Sweep(CompareTimes, a, next, [b, ground][..1])
    ensures c.time == 1.0 && c.moveleft == Zero
  {
    assert AxisImpact(a.x, a.w, b.x, b.w, next.x) == 1.0;
    assert TimeOfImpact(a, b, next) == Vec2(1.0, 1.0);
    assert [b, ground][..1] == [b] && [b][..0] == [];
    assert Scan(CompareTimes, a, next, [b]) == Step(CompareTimes, a, next, Start, 0, b);
    c := Sweep(CompareTimes, a, next, [b, ground][..1]);
  }

  /** The move of AsWrittenStopsShortOfContact with the slide resolver, as written,
      with a distant second obstacle so that the active count never runs out: the
      box is deflected under the obstacle and ends at (2, 1/2). */
  lemma SlideAfterEarlyStop(b: Box, m: Vec2, o: Box, far: Box)
    requires b == Box(0.0, 0.0, 1.0, 1.0) && m == Vec2(2.0, 2.0) && o == Box(2.0, 1.5, 1.0, 10.0)
    requires far == Box(100.0, 100.0, 1.0, 1.0)
    ensures MoveLoop(CompareTimes, b, m, [o, far], 2, Slide).box == Box(2.0, 0.5, 1.0, 1.0)
  {
    var a, next := Box(0.5, 0.5, 1.0, 1.0), Vec2(1.5, 0.0);
    assert Advance(b, m, Sweep(CompareTimes, b, m, [o]).time) == a &&
           ResolveSlide(Sweep(CompareTimes, b, m, [o])) == next by {
      AsWrittenStopsShortOfContact(b, m, o);
      assert Sweep(CompareTimes, b, m, [o]).moveleft == Scale(0.75, m);
    }
    assert TimeOfImpact(b, far, m) == Vec2(1.0, 1.0);
    assert TimeOfImpact(a, far, next) == Vec2(1.0, 1.0);
    SlideThenFinish(CompareTimes, b, m, o, far, a, next);
  }

  /** The same move with the colliding-axis rule: the box stops at the obstacle's
      left face and slides up along it to (1, 2). */
  lemma SlideAfterContact(b: Box, m: Vec2, o: Box, far: Box)
    requires b == Box(0.0, 0.0, 1.0, 1.0) && m == Vec2(2.0, 2.0) && o == Box(2.0, 1.5, 1.0, 10.0)
    requires far == Box(100.0, 100.0, 1.0, 1.0)
    ensures MoveLoop(CollidingAxis, b, m, [o, far], 2, Slide).box == Box(1.0, 2.0, 1.0, 1.0)
  {
    var a, next := Box(1.0, 1.0, 1.0, 1.0), Vec2(0.0, 1.0);
    assert Advance(b, m, Sweep(CollidingAxis, b, m, [o]).time) == a &&
           ResolveSlide(Sweep(CollidingAxis, b, m, [o])) == next by {
      AsWrittenStopsShortOfContact(b, m, o);
      assert Sweep(CollidingAxis, b, m, [o]).moveleft == Scale(0.5, m);
    }
    assert TimeOfImpact(b, far, m) == Vec2(1.0, 1.0);
    assert TimeOfImpact(a, far, next) == Vec2(1.0, 1.0);
    SlideThenFinish(CollidingAxis, b, m, o, far, a, next);
  }

  /** A move against `o` and an obstacle `far` that is never reached: the first
      sweep stops at `a` on `o` with `next` left after sliding, and the second sweep,
      over `far` alone, is free. */
  lemma SlideThenFinish(rule: AxisRule, b: Box, m: Vec2, o: Box, far: Box, a: Box, next: Vec2)
    requires m != Zero
    requires TimeOfImpact(b, far, m) == Vec2(1.0, 1.0) && TimeOfImpact(a, far, next) == Vec2(1.0, 1.0)
    requires Advance(b, m, Sweep(rule, b, m, [o]).time) == a
    requires ResolveSlide(Sweep(rule, b, m, [o])) == next
    ensures MoveLoop(rule, b, m, [o, far], 2, Slide).box == Advance(a, next, 1.0)
  {
    var obs := [o, far];
    var c := Sweep(rule, b, m, [o]);
    SweepPastFar(rule, b, m, o, far);
    assert Resolve(Slide, c) == next;
    var obs' := RemoveHit(obs, c.index, 1);
    assert obs' == [far, o];
    MoveLoopStep(rule, b, m, obs, 2, Slide, c, obs', 1);
    FinishPastFar(rule, a, next, far, o);
  }

  /** Sliding on by `next` with only `far` active, which is never reached, ends at
      the full displacement. */
  lemma FinishPastFar(rule: AxisRule, a: Box, next: Vec2, far: Box, o: Box)
    requires TimeOfImpact(a, far, next) == Vec2(1.0, 1.0)
    ensures MoveLoop(rule, a, next, [far, o], 1, Slide).box == Advance(a, next, 1.0)
  {
    var obs := [far, o];
    if next != Zero {
      var c := Sweep(rule, a, next, obs[..1]);
      assert c.time == 1.0 by {
        assert obs[..1] == [] + [far];
        ScanSnoc(rule, a, next, [], far);
        StepMissesFar(rule, a, next, Start, 0, far);
      }
      assert Resolve(Slide, c) == Zero;
      assert RemoveHit(obs, c.index, 0) == obs;
      MoveLoopStep(rule, a, next, obs, 1, Slide, c, obs, 0);
    }
  }

  /** Listing `far` after `o` changes nothing in a sweep that never reaches `far`. */
  lemma SweepPastFar(rule: AxisRule, b: Box, m: Vec2, o: Box, far: Box)
    requires TimeOfImpact(b, far, m) == Vec2(1.0, 1.0)
    ensures Sweep(rule, b, m, [o, far][..2]) == Sweep(rule, b, m, [o])
  {
    assert [o, far][..2] == [o] + [far];
    ScanSnoc(rule, b, m, [o], far);
    StepMissesFar(rule, b, m, Scan(rule, b, m, [o]), 1, far);
  }

  /** An obstacle whose time of impact is (1, 1) is never accepted. */
  lemma StepMissesFar(rule: AxisRule, b: Box, m: Vec2, st: ScanState, i: nat, far: Box)
    requires TimeOfImpact(b, far, m) == Vec2(1.0, 1.0) && st.time <= 1.0
    ensures Step(rule, b, m, st, i, far) == st
  {
  }
}
