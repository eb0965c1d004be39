/** The four built-in collision resolvers of src/cbump.c. Each maps a collision
    record to the displacement the moving box still attempts; none changes the
    record, which is passed by value. */
module Resolvers {
  import opened Geometry

  /** Which built-in resolver a move uses. */
  datatype Resolver = Touch | Cross | Slide | Bounce

  /** cbump_resolve_touch: the box stays where it touched. */
  function ResolveTouch(c: Collision): Vec2 {
    Zero
  }

  /** cbump_resolve_cross: the box carries on through the obstacle. */
  function ResolveCross(c: Collision): Vec2 {
    c.moveleft
  }

  /** cbump_resolve_slide: the component of the remaining movement on the normal's
      axis is cancelled (y when the normal has no x component, else x) and the other
      is kept. */
  function ResolveSlide(c: Collision): Vec2 {
    var remaining := c.moveleft;
    if c.normal.x == 0.0 then remaining.(y := 0.0) else remaining.(x := 0.0)
  }

  /** cbump_resolve_bounce: the component of the remaining movement on the normal's
      axis is reversed and the other kept. */
  function ResolveBounce(c: Collision): Vec2 {
    var remaining := c.moveleft;
    if c.normal.x == 0.0 then remaining.(y := -remaining.y) else remaining.(x := -remaining.x)
  }

  /** The resolver a move applies after each sweep. Every one of them turns a
      record with nothing left to move into no movement, which ends the move loop. */
  function Resolve(r: Resolver, c: Collision): (v: Vec2)
    ensures c.moveleft == Zero ==> v == Zero
  {
    match r
    case Touch => ResolveTouch(c)
    case Cross => ResolveCross(c)
    case Slide => ResolveSlide(c)
    case Bounce => ResolveBounce(c)
  }

  /** Sliding keeps the movement along the surface and removes the movement into it:
      nothing is left along a face normal. */
  lemma SlideCancelsNormal(c: Collision)
    requires UnitAxis(c.normal)
    ensures Dot(ResolveSlide(c), c.normal) == 0.0
    ensures Dot(ResolveSlide(c), Tangent(c.normal)) == Dot(c.moveleft, Tangent(c.normal))
  {
  }

  /** Bouncing reflects the movement in the surface: the normal component changes
      sign, the tangential one is kept, and so is the length. */
  lemma BounceReflects(c: Collision)
    requires UnitAxis(c.normal)
    ensures Dot(ResolveBounce(c), c.normal) == -Dot(c.moveleft, c.normal)
    ensures Dot(ResolveBounce(c), Tangent(c.normal)) == Dot(c.moveleft, Tangent(c.normal))
    ensures Dot(ResolveBounce(c), ResolveBounce(c)) == Dot(c.moveleft, c.moveleft)
  {
  }

  /** Bouncing twice off the same surface gives back the movement; sliding twice
      is sliding once. */
  lemma BounceTwiceSlideOnce(c: Collision)
    ensures ResolveBounce(c.(moveleft := ResolveBounce(c))) == c.moveleft
    ensures ResolveSlide(c.(moveleft := ResolveSlide(c))) == ResolveSlide(c)
  {
  }
}
