/** The click-to-move player of game/player.py: a sprite sheet cut into
    frames, a walk toward the last clicked point at a fixed speed with a
    facing and a walking frame, and the expanding rings left by clicks. */
module ClickPlayers {
  import opened Common
  import opened Pygame

  /** `PLAYER_SPEED`, `RING_START_RADIUS` and `RING_DURATION` of config.py,
      and the walking frame period `anim_speed`. */
  const PlayerSpeed: real := 240.0
  const RingStartRadius: int := 20
  const RingDuration: real := 0.5
  const AnimSpeed: real := 0.12

  /** Below this distance the player counts as arrived. */
  const ArriveEps: real := 0.001

  // -----------------------------------------------------------------------
  // Sprite sheet
  // -----------------------------------------------------------------------

  /** Where frame `(r, c)` sits on the sheet. */
  function FrameRect(w: int, h: int, mx: int, my: int, sx: int, sy: int, r: int, c: int): Rect
  {
    Rect(mx + c * (w + sx), my + r * (h + sy), w, h)
  }

  lemma MulStep(a: int, b: int, s: int)
    requires a < b && s >= 0
    ensures a * s + s <= b * s
  {
    assert b * s - a * s == (b - a) * s;
    assert (b - a) * s >= s by {
      assert (b - a) * s == s + (b - a - 1) * s;
    }
  }

  /** With non-negative spacing, two different frames never overlap. */
  lemma FramesDisjoint(w: int, h: int, mx: int, my: int, sx: int, sy: int, r: int, c: int, r2: int, c2: int)
    requires w > 0 && h > 0 && sx >= 0 && sy >= 0
    requires r != r2 || c != c2
    ensures !Collide(FrameRect(w, h, mx, my, sx, sy, r, c), FrameRect(w, h, mx, my, sx, sy, r2, c2))
  {
    if c < c2 {
      MulStep(c, c2, w + sx);
    } else if c2 < c {
      MulStep(c2, c, w + sx);
    } else if r < r2 {
      MulStep(r, r2, h + sy);
    } else {
      MulStep(r2, r, h + sy);
    }
  }

  // -----------------------------------------------------------------------
  // Walking
  // -----------------------------------------------------------------------

  /** The sprite rows: 0 down, 1 up, 2 left, 3 right. */
  datatype Direction = Down | Up | Left | Right

  /** The fields `update` reads and writes. */
  datatype Motion = Motion(x: real, y: real, target: Option<(real, real)>, direction: Direction,
                           animIndex: int, animTimer: real)

  function Abs(v: real): real { if v < 0.0 then -v else v }

  /** `set_target(pos)`: the top-left corner that puts the sprite's centre
      on the clicked point. */
  function TargetFor(px: int, py: int, drawW: int, drawH: int): (t: (real, real))
    ensures t.0 + drawW as real / 2.0 == px as real
    ensures t.1 + drawH as real / 2.0 == py as real
  {
    (px as real - drawW as real / 2.0, py as real - drawH as real / 2.0)
  }

  /** The facing while walking: horizontal when the horizontal distance is
      the larger one, vertical otherwise (ties go vertical). */
  function Heading(dx: real, dy: real): (d: Direction)
    ensures Abs(dx) > Abs(dy) && dx > 0.0 ==> d == Right
    ensures Abs(dx) > Abs(dy) && dx <= 0.0 ==> d == Left
    ensures Abs(dx) <= Abs(dy) && dy > 0.0 ==> d == Down
    ensures Abs(dx) <= Abs(dy) && dy <= 0.0 ==> d == Up
  {
    if Abs(dx) > Abs(dy) then (if dx > 0.0 then Right else Left)
    else (if dy > 0.0 then Down else Up)
  }

  /** `1 + ((anim_index - 1) % 3)` with Python's non-negative `%`. */
  function NextFrame(i: int): int
  {
    1 + (i - 1) % 3
  }

  /** The next walking frame is always one of the walking frames 1..3, and
      every walking frame is its own successor: once a walk has ticked,
      the frame no longer changes. */
  lemma NextFrameFixed(i: int)
    ensures 1 <= NextFrame(i) <= 3
    ensures NextFrame(NextFrame(i)) == NextFrame(i)
    ensures 1 <= i <= 3 ==> NextFrame(i) == i
    ensures i == 0 ==> NextFrame(i) == 3
  {
  }

  /** Reaching the target: on it, target cleared, idle frame. */
  function Arrive(m: Motion): Motion
    requires m.target.Some?
  {
    Motion(m.target.value.0, m.target.value.1, None, m.direction, 0, 0.0)
  }

  /** `update(dt)`; `dist` is `math.hypot(dx, dy)` of the remaining way. */
  function WalkStep(m: Motion, dt: real, dist: real, speed: real, animSpeed: real): Motion
  {
    if m.target.None? then m.(animIndex := 0, animTimer := 0.0)
    else if dist <= ArriveEps || speed * dt >= dist then Arrive(m)
    else
      var dx := m.target.value.0 - m.x;
      var dy := m.target.value.1 - m.y;
      var step := speed * dt;
      var timer := m.animTimer + dt;
      Motion(m.x + dx / dist * step, m.y + dy / dist * step, m.target, Heading(dx, dy),
             if timer >= animSpeed then NextFrame(m.animIndex) else m.animIndex,
             if timer >= animSpeed then 0.0 else timer)
  }

  lemma WalkIs(m: Motion, dt: real, dist: real, speed: real, animSpeed: real,
                x: real, y: real, d: Direction, index: int, timer: real)
    requires m.target.Some? && !(dist <= ArriveEps || speed * dt >= dist)
    requires x == m.x + (m.target.value.0 - m.x) / dist * (speed * dt)
    requires y == m.y + (m.target.value.1 - m.y) / dist * (speed * dt)
    requires d == Heading(m.target.value.0 - m.x, m.target.value.1 - m.y)
    requires m.animTimer + dt >= animSpeed ==> index == NextFrame(m.animIndex) && timer == 0.0
    requires m.animTimer + dt < animSpeed ==> index == m.animIndex && timer == m.animTimer + dt
    ensures WalkStep(m, dt, dist, speed, animSpeed) == Motion(x, y, m.target, d, index, timer)
  {
  }

  /** The squared distance to the target. */
  function Remaining2(m: Motion): real
    requires m.target.Some?
  {
    (m.target.value.0 - m.x) * (m.target.value.0 - m.x) + (m.target.value.1 - m.y) * (m.target.value.1 - m.y)
  }

  /** Without a target nothing moves and the animation rests. */
  lemma IdleWithoutTarget(m: Motion, dt: real, dist: real, speed: real, animSpeed: real)
    requires m.target.None?
    ensures WalkStep(m, dt, dist, speed, animSpeed).x == m.x && WalkStep(m, dt, dist, speed, animSpeed).y == m.y
    ensures WalkStep(m, dt, dist, speed, animSpeed).animIndex == 0
    ensures WalkStep(m, dt, dist, speed, animSpeed).animTimer == 0.0
    ensures WalkStep(m, dt, dist, speed, animSpeed).target.None?
  {
  }

  /** Within reach of this frame's step (or already there) the player lands
      exactly on the target and the target is cleared. */
  lemma ArrivesExactly(m: Motion, dt: real, dist: real, speed: real, animSpeed: real)
    requires m.target.Some?
    requires dist <= ArriveEps || speed * dt >= dist
    ensures WalkStep(m, dt, dist, speed, animSpeed).x == m.target.value.0
    ensures WalkStep(m, dt, dist, speed, animSpeed).y == m.target.value.1
    ensures WalkStep(m, dt, dist, speed, animSpeed).target.None?
    ensures WalkStep(m, dt, dist, speed, animSpeed).animIndex == 0
  {
  }

  /** A click followed by an arrival leaves the sprite centred on the
      clicked point. */
  lemma ClickThenArrive(m: Motion, px: int, py: int, drawW: int, drawH: int, dt: real, dist: real, speed: real, animSpeed: real)
    requires m.target == Some(TargetFor(px, py, drawW, drawH))
    requires dist <= ArriveEps || speed * dt >= dist
    ensures WalkStep(m, dt, dist, speed, animSpeed).x + drawW as real / 2.0 == px as real
    ensures WalkStep(m, dt, dist, speed, animSpeed).y + drawH as real / 2.0 == py as real
  {
  }

  lemma ShrinkCoord(d: real, dist: real, step: real)
    requires dist > 0.0
    ensures (d - d / dist * step) * dist == d * (dist - step)
  {
    assert d / dist * dist == d;
    calc {
      (d - d / dist * step) * dist;
      d * dist - (d / dist * dist) * step;
      d * dist - d * step;
    }
  }

  /** Scaling both components by `rest / dist` scales the length the same
      way. */
  lemma SquareScale(ex: real, ey: real, dx: real, dy: real, dist: real, rest: real)
    requires dist > 0.0
    requires ex * dist == dx * rest && ey * dist == dy * rest
    requires dist * dist == dx * dx + dy * dy
    ensures ex * ex + ey * ey == rest * rest
  {
    var k := rest / dist;
    assert k * dist == rest;
    assert ex == dx * k by {
      assert ex * dist == dx * k * dist;
    }
    assert ey == dy * k by {
      assert ey * dist == dy * k * dist;
    }
    calc {
      ex * ex + ey * ey;
      (dx * k) * (dx * k) + (dy * k) * (dy * k);
      (dx * dx + dy * dy) * (k * k);
      (dist * dist) * (k * k);
      (k * dist) * (k * dist);
      rest * rest;
    }
  }

  /** Moving `step` along the unit vector of `(dx, dy)` leaves a vector of
      length `dist - step`. */
  lemma Approach(dx: real, dy: real, dist: real, step: real)
    requires dist > 0.0 && dist * dist == dx * dx + dy * dy
    ensures (dx - dx / dist * step) * (dx - dx / dist * step) + (dy - dy / dist * step) * (dy - dy / dist * step)
            == (dist - step) * (dist - step)
  {
    ShrinkCoord(dx, dist, step);
    ShrinkCoord(dy, dist, step);
    SquareScale(dx - dx / dist * step, dy - dy / dist * step, dx, dy, dist, dist - step);
  }

  /** A step short of the target moves straight toward it: the distance
      left is exactly the distance before less the step, and is positive. */
  lemma StepTowardTarget(m: Motion, dt: real, dist: real, speed: real, animSpeed: real)
    requires m.target.Some?
    requires dist >= 0.0 && dist * dist == Remaining2(m)
    requires !(dist <= ArriveEps || speed * dt >= dist)
    ensures WalkStep(m, dt, dist, speed, animSpeed).target == m.target
    ensures Remaining2(WalkStep(m, dt, dist, speed, animSpeed)) == (dist - speed * dt) * (dist - speed * dt)
    ensures dist - speed * dt > 0.0
  {
    var dx := m.target.value.0 - m.x;
    var dy := m.target.value.1 - m.y;
    var step := speed * dt;
    var n := WalkStep(m, dt, dist, speed, animSpeed);
    assert n.target.value.0 - n.x == dx - dx / dist * step;
    assert n.target.value.1 - n.y == dy - dy / dist * step;
    Approach(dx, dy, dist, step);
  }

  /** While walking the player faces along the larger component of the way
      left, and the walking frame stays in 1..3 once it has ticked. */
  lemma WalkFacing(m: Motion, dt: real, dist: real, speed: real, animSpeed: real)
    requires m.target.Some?
    requires !(dist <= ArriveEps || speed * dt >= dist)
    requires 0 <= m.animIndex <= 3
    ensures WalkStep(m, dt, dist, speed, animSpeed).direction == Heading(m.target.value.0 - m.x, m.target.value.1 - m.y)
    ensures 0 <= WalkStep(m, dt, dist, speed, animSpeed).animIndex <= 3
    ensures m.animIndex >= 1 ==> WalkStep(m, dt, dist, speed, animSpeed).animIndex == m.animIndex
  {
    NextFrameFixed(m.animIndex);
  }

  // -----------------------------------------------------------------------
  // Click rings
  // -----------------------------------------------------------------------

  /** A ring: where it was clicked and when (milliseconds). */
  datatype Ring = Ring(cx: int, cy: int, st: int)

  /** A ring is still drawn while less than `duration` seconds old. */
  predicate Alive(g: Ring, now: int, duration: real)
  {
    (now - g.st) as real / 1000.0 < duration
  }

  /** The rings `update_and_draw_click_rings` keeps, in order. */
  function Live(rings: seq<Ring>, now: int, duration: real): (r: seq<Ring>)
    ensures |r| <= |rings|
  {
    if rings == [] then []
    else
      var n := |rings| - 1;
      Live(rings[..n], now, duration) + (if Alive(rings[n], now, duration) then [rings[n]] else [])
  }

  /** Pruning keeps exactly the rings still alive. */
  lemma {:induction false} LiveMembers(rings: seq<Ring>, now: int, duration: real)
    ensures forall g :: g in Live(rings, now, duration) <==> g in rings && Alive(g, now, duration)
  {
    if rings != [] {
      var n := |rings| - 1;
      LiveMembers(rings[..n], now, duration);
      assert rings == rings[..n] + [rings[n]];
    }
  }

  /** Pruning keeps the original order: it distributes over concatenation. */
  lemma {:induction false} LiveAppend(a: seq<Ring>, b: seq<Ring>, now: int, duration: real)
    ensures Live(a + b, now, duration) == Live(a, now, duration) + Live(b, now, duration)
    decreases |b|
  {
    if b != [] {
      var n := |b| - 1;
      assert (a + b)[..|a + b| - 1] == a + b[..n];
      LiveAppend(a, b[..n], now, duration);
    } else {
      assert a + b == a;
    }
  }

  /** Pruning again at the same time or later removes nothing the later
      pruning would keep: rings only age. */
  lemma {:induction false} LiveLater(rings: seq<Ring>, now: int, later: int, duration: real)
    requires now <= later
    ensures Live(Live(rings, now, duration), later, duration) == Live(rings, later, duration)
  {
    if rings != [] {
      var n := |rings| - 1;
      LiveLater(rings[..n], now, later, duration);
      var g := rings[n];
      var tail := if Alive(g, now, duration) then [g] else [];
      LiveAppend(Live(rings[..n], now, duration), tail, later, duration);
      if Alive(g, later, duration) {
        assert (later - g.st) as real >= (now - g.st) as real;
        assert (now - g.st) as real / 1000.0 <= (later - g.st) as real / 1000.0;
      }
    }
  }

  // -----------------------------------------------------------------------
  // The player object
  // -----------------------------------------------------------------------

  class Player {
    var tile: int
    var scale: real
    var drawW: int
    var drawH: int
    var posX: real
    var posY: real
    var speed: real
    var target: Option<(real, real)>
    var direction: Direction
    var animIndex: int
    var animTimer: real
    var animSpeed: real
    var rings: seq<Ring>
    var ringStartRadius: int
    var ringDuration: real

    /** `Player(start_pos, tile=tile, scale=scale)`; loading and scaling the
        sheet is drawing work and is not part of the state. */
    constructor (startX: real, startY: real, tile: int, scale: real)
      ensures this.tile == tile && this.scale == scale
      ensures drawW == Trunc(tile as real * scale) && drawH == drawW
      ensures posX == startX && posY == startY && speed == PlayerSpeed && target.None?
      ensures direction == Down && animIndex == 0 && animTimer == 0.0 && animSpeed == AnimSpeed
      ensures rings == [] && ringStartRadius == RingStartRadius && ringDuration == RingDuration
    {
      this.tile := tile;
      this.scale := scale;
      drawW := Trunc(tile as real * scale);
      drawH := Trunc(tile as real * scale);
      posX, posY := startX, startY;
      speed := PlayerSpeed;
      target := None;
      direction := Down;
      animIndex := 0;
      animTimer := 0.0;
      animSpeed := AnimSpeed;
      rings := [];
      ringStartRadius := RingStartRadius;
      ringDuration := RingDuration;
    }

    function State(): Motion
      reads this
    {
      Motion(posX, posY, target, direction, animIndex, animTimer)
    }

    /** `_slice_sheet_with_spacing`: the frame rectangles, row by row. */
    method SliceSheetWithSpacing(w: int, h: int, cols: int, rows: int, mx: int, my: int, sx: int, sy: int)
      returns (out: seq<seq<Rect>>)
      ensures |out| == Max(rows, 0)
      ensures forall r :: 0 <= r < |out| ==> |out[r]| == Max(cols, 0)
      ensures forall r, c :: 0 <= r < |out| && 0 <= c < |out[r]| ==> out[r][c] == FrameRect(w, h, mx, my, sx, sy, r, c)
    {
      out := [];
      for r := 0 to Max(rows, 0)
        invariant |out| == r
        invariant forall i :: 0 <= i < r ==> |out[i]| == Max(cols, 0)
        invariant forall i, c :: 0 <= i < r && 0 <= c < |out[i]| ==> out[i][c] == FrameRect(w, h, mx, my, sx, sy, i, c)
      {
        var rowFrames := [];
        for c := 0 to Max(cols, 0)
          invariant |rowFrames| == c
          invariant forall j :: 0 <= j < c ==> rowFrames[j] == FrameRect(w, h, mx, my, sx, sy, r, j)
        {
          var x := mx + c * (w + sx);
          var y := my + r * (h + sy);
          rowFrames := rowFrames + [Rect(x, y, w, h)];
        }
        out := out + [rowFrames];
      }
    }

    /** `set_target(pos)`. */
    method SetTarget(px: int, py: int)
      modifies this`target
      ensures target == Some(TargetFor(px, py, drawW, drawH))
    {
      target := Some((px as real - drawW as real / 2.0, py as real - drawH as real / 2.0));
    }

    /** `update(dt)`; `dist` is the `math.hypot` of the way left, so a
        walk that falls short of the target leaves exactly `dist` less the
        step to go. */
    method Update(dt: real, dist: real)
      requires target.Some? ==> dist >= 0.0 && dist * dist == Remaining2(State())
      modifies this`posX, this`posY, this`target, this`direction, this`animIndex, this`animTimer
      ensures State() == WalkStep(old(State()), dt, dist, speed, animSpeed)
      ensures old(target).Some? && !(dist <= ArriveEps || speed * dt >= dist) ==>
                target == old(target) && Remaining2(State()) == (dist - speed * dt) * (dist - speed * dt)
    {
      if target.None? {
        animIndex := 0;
        animTimer := 0.0;
        return;
      }
      var (tx, ty) := target.value;
      if dist <= ArriveEps {
        posX, posY := tx, ty;
        target := None;
        animIndex := 0;
        animTimer := 0.0;
        return;
      }
      var step := speed * dt;
      if step >= dist {
        posX, posY := tx, ty;
        target := None;
        animIndex := 0;
        animTimer := 0.0;
      } else {
        ghost var m := State();
        Stride(dt, dist);
        StepTowardTarget(m, dt, dist, speed, animSpeed);
      }
    }

    /** The walking branch of `update`: a step of `speed * dt` along the
        unit vector toward the target, the facing, and the frame timer. */
    method Stride(dt: real, dist: real)
      requires target.Some? && !(dist <= ArriveEps || speed * dt >= dist)
      modifies this`posX, this`posY, this`direction, this`animIndex, this`animTimer
      ensures State() == WalkStep(old(State()), dt, dist, speed, animSpeed)
    {
      ghost var m := State();
      var step := speed * dt;
      var dx := target.value.0 - posX;
      var dy := target.value.1 - posY;
      var ux, uy := dx / dist, dy / dist;
      var nx := posX + ux * step;
      var ny := posY + uy * step;
      var facing := direction;
      if Abs(dx) > Abs(dy) {
        facing := if dx > 0.0 then Right else Left;
      } else {
        facing := if dy > 0.0 then Down else Up;
      }
      var timer := animTimer + dt;
      var index := animIndex;
      if timer >= animSpeed {
        timer := 0.0;
        index := 1 + ((index - 1) % 3);
      }
      WalkIs(m, dt, dist, speed, animSpeed, nx, ny, facing, index, timer);
      posX, posY, direction, animIndex, animTimer := nx, ny, facing, index, timer;
    }

    /** `spawn_click_ring(x, y)` at time `now`. */
    method SpawnClickRing(x: int, y: int, now: int)
      modifies this`rings
      ensures rings == old(rings) + [Ring(x, y, now)]
    {
      rings := rings + [Ring(x, y, now)];
    }

    /** The pruning loop of `update_and_draw_click_rings` at time `now`. */
    method PruneRings(now: int)
      modifies this`rings
      ensures rings == Live(old(rings), now, ringDuration)
    {
      var kept := [];
      var duration := ringDuration;
      for i := 0 to |rings|
        invariant kept == Live(rings[..i], now, duration)
      {
        assert rings[..i + 1][..i] == rings[..i];
        var g := rings[i];
        var elapsed := (now - g.st) as real / 1000.0;
        if elapsed < duration {
          kept := kept + [g];
        }
      }
      assert rings[..|rings|] == rings;
      rings := kept;
    }
  }
}
