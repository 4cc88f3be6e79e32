/** The side-view player of player.py: no jumping; one frame accelerates or
    brakes the horizontal speed, moves, clamps to the world, snaps against
    the level's solid rectangles and stands the player on the ground. */
module SidePlayers {
  import opened Common
  import opened Pygame
  import Levels

  /** `PLAYER_MAX_SPEED`, `PLAYER_ACCEL`, `PLAYER_FRICTION` (pixels and
      seconds) and the later `PLAYER_SIZE` of settings.py. */
  const MaxSpeed: real := 260.0
  const Accel: real := 1200.0
  const Friction: real := 1600.0
  const Width: int := 72
  const Height: int := 90

  function Abs(v: real): real { if v < 0.0 then -v else v }

  /** `move = [D] - [A]`. */
  function Move(right: bool, left: bool): (m: int)
    ensures -1 <= m <= 1
    ensures m > 0 <==> right && !left
    ensures m < 0 <==> left && !right
  {
    (if right then 1 else 0) - (if left then 1 else 0)
  }

  /** Acceleration with input, friction without. */
  function Drive(vx: real, move: int, dt: real): real
  {
    if move != 0 then vx + move as real * Accel * dt
    else if vx > 0.0 then MaxR(0.0, vx - Friction * dt)
    else if vx < 0.0 then MinR(0.0, vx + Friction * dt)
    else vx
  }

  /** With input the speed changes by `ACCEL * dt` in the input's direction. */
  lemma InputAccelerates(vx: real, move: int, dt: real)
    requires move == 1 || move == -1
    requires dt >= 0.0
    ensures move > 0 ==> Drive(vx, move, dt) >= vx
    ensures move < 0 ==> Drive(vx, move, dt) <= vx
    ensures Abs(Drive(vx, move, dt) - vx) == Accel * dt
  {
  }

  /** Without input, friction brings the speed toward zero by at most
      `FRICTION * dt` (exactly that much while it lasts) and never makes it
      change sign. */
  lemma FrictionTowardZero(vx: real, dt: real)
    requires dt >= 0.0
    ensures vx >= 0.0 ==> 0.0 <= Drive(vx, 0, dt) <= vx
    ensures vx <= 0.0 ==> vx <= Drive(vx, 0, dt) <= 0.0
    ensures Abs(vx) - Abs(Drive(vx, 0, dt)) <= Friction * dt
    ensures Abs(vx) >= Friction * dt ==> Abs(vx) - Abs(Drive(vx, 0, dt)) == Friction * dt
    ensures Abs(vx) <= Friction * dt ==> Drive(vx, 0, dt) == 0.0
  {
  }

  /** The speed limit. */
  function ClampSpeed(v: real): (r: real)
    ensures -MaxSpeed <= r <= MaxSpeed
    ensures -MaxSpeed <= v <= MaxSpeed ==> r == v
    ensures v > MaxSpeed ==> r == MaxSpeed
    ensures v < -MaxSpeed ==> r == -MaxSpeed
  {
    MaxR(-MaxSpeed, MinR(MaxSpeed, v))
  }

  /** `max(0, min(world_w - w, x))`: the left edge stays in the world; a
      world narrower than the player pins it at 0. */
  function WorldClamp(x: real, worldW: int, w: int): (r: real)
    ensures 0.0 <= r
    ensures w <= worldW ==> r <= (worldW - w) as real
    ensures 0.0 <= x <= (worldW - w) as real ==> r == x
    ensures w > worldW ==> r == 0.0
  {
    MaxR(0.0, MinR((worldW - w) as real, x))
  }

  /** The move by `vel.x * dt`, clamped to the world. */
  function Advance(x: real, v: real, dt: real, worldW: int, w: int): real
  {
    WorldClamp(x + v * dt, worldW, w)
  }

  /** `self.rect`: the position truncated toward zero. */
  function RectAt(x: real, y: real, w: int, h: int): (r: Rect)
    ensures r.w == w && r.h == h
    ensures x >= 0.0 ==> r.x as real <= x < r.x as real + 1.0
    ensures y >= 0.0 ==> r.y as real <= y < r.y as real + 1.0
  {
    Rect(Trunc(x), Trunc(y), w, h)
  }

  // -----------------------------------------------------------------------
  // Collision against the solid rectangles
  // -----------------------------------------------------------------------

  /** The horizontal position and speed the collision loop updates. */
  datatype Slide = Slide(x: real, vx: real)

  /** One pass of the collision loop: an overlapping rectangle stops the
      player and puts it against the side it came from (`old_x` is the
      position before this frame's move). */
  function SnapOn(s: Slide, oldX: real, y: real, w: int, h: int, wall: Rect): Slide
  {
    if !Collide(RectAt(s.x, y, w, h), wall) then s
    else if s.x > oldX then Slide((wall.Left() - w) as real, 0.0)
    else if s.x < oldX then Slide(wall.Right() as real, 0.0)
    else Slide(s.x, 0.0)
  }

  /** The collision loop over `walls` in order. */
  function Resolve(s: Slide, oldX: real, y: real, w: int, h: int, walls: seq<Rect>): Slide
  {
    if walls == [] then s
    else
      var n := |walls| - 1;
      SnapOn(Resolve(s, oldX, y, w, h, walls[..n]), oldX, y, w, h, walls[n])
  }

  /** After a snap the player touches the rectangle it hit but no longer
      overlaps it. */
  lemma SnapClears(s: Slide, oldX: real, y: real, w: int, h: int, wall: Rect)
    requires w > 0 && wall.w > 0 && s.x != oldX
    requires Collide(RectAt(s.x, y, w, h), wall)
    ensures !Collide(RectAt(SnapOn(s, oldX, y, w, h, wall).x, y, w, h), wall)
    ensures SnapOn(s, oldX, y, w, h, wall).vx == 0.0
  {
    var r := SnapOn(s, oldX, y, w, h, wall);
    if s.x > oldX {
      TruncOfInt(wall.Left() - w);
    } else {
      TruncOfInt(wall.Right());
    }
  }

  /** A snap pushes the player back against its motion: left when it was
      moving right, right when it was moving left. */
  lemma SnapPushesBack(s: Slide, oldX: real, y: real, w: int, h: int, wall: Rect)
    requires s.x >= 0.0 && w > 0 && wall.w > 0
    requires Collide(RectAt(s.x, y, w, h), wall)
    ensures s.x > oldX ==> SnapOn(s, oldX, y, w, h, wall).x < s.x
    ensures s.x < oldX ==> SnapOn(s, oldX, y, w, h, wall).x > s.x
  {
    var k := Trunc(s.x);
    assert k < wall.x + wall.w && k + w > wall.x;
  }

  /** A loop that meets no overlapping rectangle changes nothing. */
  lemma {:induction false} ResolveClear(s: Slide, oldX: real, y: real, w: int, h: int, walls: seq<Rect>)
    requires forall k :: 0 <= k < |walls| ==> !Collide(RectAt(s.x, y, w, h), walls[k])
    ensures Resolve(s, oldX, y, w, h, walls) == s
  {
    if walls != [] {
      var n := |walls| - 1;
      ResolveClear(s, oldX, y, w, h, walls[..n]);
    }
  }

  /** The loop either leaves the player alone or stops it, and where it
      leaves it is its position before the loop or an edge the player was
      put against. */
  lemma {:induction false} ResolveOutcome(s: Slide, oldX: real, y: real, w: int, h: int, walls: seq<Rect>)
    ensures Resolve(s, oldX, y, w, h, walls) == s || Resolve(s, oldX, y, w, h, walls).vx == 0.0
    ensures var r := Resolve(s, oldX, y, w, h, walls);
      r.x == s.x || exists k :: 0 <= k < |walls| && (r.x == (walls[k].Left() - w) as real || r.x == walls[k].Right() as real)
  {
    if walls != [] {
      var n := |walls| - 1;
      var p := Resolve(s, oldX, y, w, h, walls[..n]);
      ResolveOutcome(s, oldX, y, w, h, walls[..n]);
      if p.x != s.x {
        var k :| 0 <= k < n && (p.x == (walls[..n][k].Left() - w) as real || p.x == walls[..n][k].Right() as real);
        assert walls[..n][k] == walls[k];
      }
    }
  }

  // -----------------------------------------------------------------------
  // One frame
  // -----------------------------------------------------------------------

  /** The fields `pos`, `vel.x` and `facing` (`vel.y` stays 0). */
  datatype Body = Body(x: real, y: real, vx: real, facing: int)

  /** The speed after input, friction and the limit, and the position it
      carries the player to inside the world, before collisions. */
  function Launch(b: Body, dt: real, move: int, worldW: int, w: int): Slide
  {
    var vx := ClampSpeed(Drive(b.vx, move, dt));
    Slide(Advance(b.x, vx, dt, worldW, w), vx)
  }

  lemma LaunchIs(b: Body, dt: real, move: int, worldW: int, w: int, v: real)
    requires v == ClampSpeed(Drive(b.vx, move, dt))
    ensures Launch(b, dt, move, worldW, w) == Slide(Advance(b.x, v, dt, worldW, w), v)
  {
  }

  /** `update(dt, keys, level)`, with the level's `world_w`, solid
      rectangles and ground polyline. */
  function Step(b: Body, dt: real, move: int, worldW: int, walls: seq<Rect>, segs: seq<(int, int)>, w: int, h: int): Body
    requires segs != []
  {
    var s := Resolve(Launch(b, dt, move, worldW, w), b.x, b.y, w, h, walls);
    var facing := if move == 0 then b.facing else if move > 0 then 1 else -1;
    Body(s.x, (Levels.GroundY(segs, RectAt(s.x, b.y, w, h).CenterX()) - h) as real, s.vx, facing)
  }

  lemma StepIs(b: Body, dt: real, move: int, worldW: int, walls: seq<Rect>, segs: seq<(int, int)>, w: int, h: int,
                s: Slide, top: int)
    requires segs != []
    requires s == Resolve(Launch(b, dt, move, worldW, w), b.x, b.y, w, h, walls)
    requires top == Levels.GroundY(segs, RectAt(s.x, b.y, w, h).CenterX()) - h
    ensures Step(b, dt, move, worldW, walls, segs, w, h)
            == Body(s.x, top as real, s.vx, if move == 0 then b.facing else if move > 0 then 1 else -1)
  {
  }

  /** After a frame the speed is within the limit, the player faces the way
      it was pushed (or as before without input), and it stands on the
      ground: its rectangle's bottom is the ground height under its centre. */
  lemma StepBounds(b: Body, dt: real, move: int, worldW: int, walls: seq<Rect>, segs: seq<(int, int)>, w: int, h: int)
    requires segs != []
    ensures var n := Step(b, dt, move, worldW, walls, segs, w, h);
      && -MaxSpeed <= n.vx <= MaxSpeed
      && (move > 0 ==> n.facing == 1)
      && (move < 0 ==> n.facing == -1)
      && (move == 0 ==> n.facing == b.facing)
      && RectAt(n.x, n.y, w, h).Bottom() == Levels.GroundY(segs, RectAt(n.x, n.y, w, h).CenterX())
  {
    var start := Launch(b, dt, move, worldW, w);
    var s := Resolve(start, b.x, b.y, w, h, walls);
    ResolveOutcome(start, b.x, b.y, w, h, walls);
    var g := Levels.GroundY(segs, RectAt(s.x, b.y, w, h).CenterX()) - h;
    TruncOfInt(g);
  }

  /** Where nothing is in the way the player moves by `vel.x * dt`,
      clamped to the world, and keeps its speed. */
  lemma StepUnobstructed(b: Body, dt: real, move: int, worldW: int, walls: seq<Rect>, segs: seq<(int, int)>, w: int, h: int)
    requires segs != []
    requires forall k :: 0 <= k < |walls| ==> !Collide(RectAt(Launch(b, dt, move, worldW, w).x, b.y, w, h), walls[k])
    ensures Step(b, dt, move, worldW, walls, segs, w, h).x == Launch(b, dt, move, worldW, w).x
    ensures Step(b, dt, move, worldW, walls, segs, w, h).vx == Launch(b, dt, move, worldW, w).vx
  {
    ResolveClear(Launch(b, dt, move, worldW, w), b.x, b.y, w, h, walls);
  }

  /** A player at rest inside the world with no input and nothing in the
      way stays where it is. */
  lemma StepAtRest(b: Body, dt: real, worldW: int, walls: seq<Rect>, segs: seq<(int, int)>, w: int, h: int)
    requires segs != [] && b.vx == 0.0 && 0.0 <= b.x <= (worldW - w) as real
    requires forall k :: 0 <= k < |walls| ==> !Collide(RectAt(b.x, b.y, w, h), walls[k])
    ensures Step(b, dt, 0, worldW, walls, segs, w, h).x == b.x
    ensures Step(b, dt, 0, worldW, walls, segs, w, h).vx == 0.0
    ensures Step(b, dt, 0, worldW, walls, segs, w, h).facing == b.facing
  {
    assert b.x + 0.0 * dt == b.x;
    LaunchIs(b, dt, 0, worldW, w, 0.0);
    StepUnobstructed(b, dt, 0, worldW, walls, segs, w, h);
  }

  /** `Player`. */
  class Player {
    var x: real
    var y: real
    var vx: real
    var w: int
    var h: int
    var facing: int

    /** `Player(start_pos)`: at rest, facing right, `PLAYER_SIZE` big. */
    constructor (startX: real, startY: real)
      ensures x == startX && y == startY && vx == 0.0 && facing == 1
      ensures w == Width && h == Height
    {
      x := startX;
      y := startY;
      vx := 0.0;
      w := Width;
      h := Height;
      facing := 1;
    }

    function State(): Body
      reads this
    {
      Body(x, y, vx, facing)
    }

    /** `rect`. */
    function Bounds(): (r: Rect)
      reads this
      ensures r == RectAt(x, y, w, h)
    {
      Rect(Trunc(x), Trunc(y), w, h)
    }

    /** `update(dt, keys, level)`; `pressed` holds the keys held down. */
    method Update(dt: real, pressed: set<int>, level: Levels.Level)
      requires level.groundSegments != []
      modifies this`x, this`y, this`vx, this`facing
      ensures State() == Step(old(State()), dt, Move(K_d in pressed, K_a in pressed), level.worldW,
                              level.GetSolidRects(), level.groundSegments, w, h)
    {
      ghost var b := State();
      var move := Move(K_d in pressed, K_a in pressed);
      var oldX := x;
      Travel(move, dt, level.worldW);
      ghost var launched := Slide(x, vx);

      var solids := level.GetSolidRects();
      SnapAgainst(solids, oldX);
      assert Slide(x, vx) == Resolve(launched, b.x, b.y, w, h, solids);

      var top := level.SurfaceY(Bounds());
      StepIs(b, dt, move, level.worldW, solids, level.groundSegments, w, h, Slide(x, vx), top);
      y := top as real;
    }

    /** The first half of `update`: speed, facing, and the move clamped to
        the world. */
    method Travel(move: int, dt: real, worldW: int)
      modifies this`x, this`vx, this`facing
      ensures Slide(x, vx) == Launch(old(State()), dt, move, worldW, w)
      ensures facing == if move == 0 then old(facing) else if move > 0 then 1 else -1
    {
      ghost var b := State();
      var x0 := x;
      Accelerate(move, dt);
      var v := vx;
      var px := x0 + v * dt;
      px := WorldClamp(px, worldW, w);
      assert px == Advance(x0, v, dt, worldW, w);
      LaunchIs(b, dt, move, worldW, w, v);
      x := px;
    }

    /** The input and speed-limit part of `update`. */
    method Accelerate(move: int, dt: real)
      modifies this`vx, this`facing
      ensures vx == ClampSpeed(Drive(old(vx), move, dt))
      ensures facing == if move == 0 then old(facing) else if move > 0 then 1 else -1
    {
      if move != 0 {
        vx := vx + move as real * Accel * dt;
        facing := if move > 0 then 1 else -1;
      } else {
        if vx > 0.0 {
          vx := MaxR(0.0, vx - Friction * dt);
        } else if vx < 0.0 {
          vx := MinR(0.0, vx + Friction * dt);
        }
      }
      vx := MaxR(-MaxSpeed, MinR(MaxSpeed, vx));
    }

    /** The collision loop of `update`. */
    method SnapAgainst(solids: seq<Rect>, oldX: real)
      modifies this`x, this`vx
      ensures Slide(x, vx) == Resolve(old(Slide(x, vx)), oldX, y, w, h, solids)
    {
      var r := Bounds();
      ghost var start := Slide(x, vx);
      for i := 0 to |solids|
        invariant Slide(x, vx) == Resolve(start, oldX, y, w, h, solids[..i])
        invariant r == RectAt(x, y, w, h)
      {
        assert solids[..i + 1][..i] == solids[..i];
        var srect := solids[i];
        if Collide(r, srect) {
          if x > oldX {
            x := (srect.Left() - w) as real;
          } else if x < oldX {
            x := srect.Right() as real;
          }
          vx := 0.0;
          r := Bounds();
        }
      }
      assert solids[..|solids|] == solids;
    }
  }
}
