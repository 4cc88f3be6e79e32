/** The top-down camera of isac.py: it follows the player's centre,
    clamped to the world, and eases toward that target each frame. */
module Topdown {
  import opened Common

  const DefaultCamSmooth: real := 10.0
  const TopdownMode: string := "topdown"
  const SideMode: string := "side"

  /** `getattr(level, name, 0)`: a world size the level may not define. */
  function SizeOr0(size: Option<real>): real
  {
    if size.Some? then size.value else 0.0
  }

  /** One axis of `_calc_target`: the player's centre minus half the
      screen, clamped to the world when the world is larger than the
      screen and 0 otherwise. */
  function AxisTarget(pos: real, size: real, screen: real, world: Option<real>): real
  {
    var t := pos + size / 2.0 - screen / 2.0;
    var w := SizeOr0(world);
    if w > screen then MaxR(0.0, MinR(w - screen, t)) else 0.0
  }

  /** The target always shows only the world: it lies in
      `[0, world - screen]` when the world is wider than the screen and is
      0 otherwise; inside those bounds it puts the player's centre in the
      middle of the screen. */
  lemma AxisTargetSpec(pos: real, size: real, screen: real, world: Option<real>)
    ensures SizeOr0(world) > screen ==> 0.0 <= AxisTarget(pos, size, screen, world) <= SizeOr0(world) - screen
    ensures SizeOr0(world) <= screen ==> AxisTarget(pos, size, screen, world) == 0.0
    ensures world.None? && screen >= 0.0 ==> AxisTarget(pos, size, screen, world) == 0.0
    ensures 0.0 <= pos + size / 2.0 - screen / 2.0 <= SizeOr0(world) - screen ==>
              AxisTarget(pos, size, screen, world) + screen / 2.0 == pos + size / 2.0
  {
  }

  /** `_calc_target(player, level, screen_w, screen_h)`. */
  function CalcTarget(posX: real, posY: real, w: real, h: real,
                      worldW: Option<real>, worldH: Option<real>,
                      screenW: real, screenH: real): (real, real)
  {
    (AxisTarget(posX, w, screenW, worldW), AxisTarget(posY, h, screenH, worldH))
  }

  /** `k = min(1, dt * cam_smooth)`. */
  function Blend(dt: real, camSmooth: real): real
  {
    MinR(1.0, dt * camSmooth)
  }

  /** One coordinate of `update`: move the fraction `k` of the way. */
  function Ease(cam: real, target: real, k: real): real
  {
    cam + (target - cam) * k
  }

  /** For `k` in [0, 1] the camera ends between where it was and the
      target, and the gap shrinks by the factor `1 - k`. */
  lemma EaseBetween(cam: real, target: real, k: real)
    requires 0.0 <= k <= 1.0
    ensures target - Ease(cam, target, k) == (target - cam) * (1.0 - k)
    ensures cam <= target ==> cam <= Ease(cam, target, k) <= target
    ensures target <= cam ==> target <= Ease(cam, target, k) <= cam
    ensures k == 1.0 ==> Ease(cam, target, k) == target
  {
    var d := target - cam;
    assert Ease(cam, target, k) == cam + d * k;
    assert d * (1.0 - k) == d - d * k;
    if cam <= target {
      FractionOf(d, k);
    } else {
      FractionOf(-d, k);
      assert (-d) * k == -(d * k);
    }
  }

  /** With `dt` and the smoothing not negative the blend factor is a
      fraction, so `update` neither overshoots nor backs away; a frame long
      enough (`dt * cam_smooth >= 1`) lands on the target. */
  lemma EaseSpec(cam: real, target: real, dt: real, camSmooth: real)
    requires dt >= 0.0 && camSmooth >= 0.0
    ensures 0.0 <= Blend(dt, camSmooth) <= 1.0
    ensures cam <= target ==> cam <= Ease(cam, target, Blend(dt, camSmooth)) <= target
    ensures target <= cam ==> target <= Ease(cam, target, Blend(dt, camSmooth)) <= cam
    ensures dt * camSmooth >= 1.0 ==> Ease(cam, target, Blend(dt, camSmooth)) == target
  {
    if camSmooth > 0.0 {
      MulMonotone(0.0, dt, camSmooth);
    }
    EaseBetween(cam, target, Blend(dt, camSmooth));
  }

  /** An entity that may carry a `mode` attribute (`hasattr(player, "mode")`). */
  class Actor {
    var hasMode: bool
    var mode: string

    constructor (hasMode: bool, mode: string)
      ensures this.hasMode == hasMode && this.mode == mode
    {
      this.hasMode := hasMode;
      this.mode := mode;
    }
  }

  class TopdownView {
    var camSmooth: real
    var cameraX: real
    var cameraY: real

    /** `TopdownView(cam_smooth=...)`: the camera starts at the origin. */
    constructor (camSmooth: real)
      ensures this.camSmooth == camSmooth && cameraX == 0.0 && cameraY == 0.0
    {
      this.camSmooth := camSmooth;
      cameraX := 0.0;
      cameraY := 0.0;
    }

    /** `enter(player)`: switch the player to top-down movement, if it has
        a mode at all. */
    method Enter(player: Actor)
      modifies player`mode
      ensures player.hasMode ==> player.mode == TopdownMode
      ensures !player.hasMode ==> player.mode == old(player.mode)
    {
      if player.hasMode {
        player.mode := TopdownMode;
      }
    }

    /** `exit(player)`: back to side-view movement. */
    method Exit(player: Actor)
      modifies player`mode
      ensures player.hasMode ==> player.mode == SideMode
      ensures !player.hasMode ==> player.mode == old(player.mode)
    {
      if player.hasMode {
        player.mode := SideMode;
      }
    }

    /** `update(dt, player, level, screen_w, screen_h)`; the screen size is
        passed in whether the caller gave it or the display supplied it. */
    method Update(dt: real, posX: real, posY: real, w: real, h: real,
                  worldW: Option<real>, worldH: Option<real>, screenW: real, screenH: real)
      modifies this`cameraX, this`cameraY
      ensures var t := CalcTarget(posX, posY, w, h, worldW, worldH, screenW, screenH);
              && cameraX == Ease(old(cameraX), t.0, Blend(dt, camSmooth))
              && cameraY == Ease(old(cameraY), t.1, Blend(dt, camSmooth))
    {
      var t := CalcTarget(posX, posY, w, h, worldW, worldH, screenW, screenH);
      var k := MinR(1.0, dt * camSmooth);
      cameraX := cameraX + (t.0 - cameraX) * k;
      cameraY := cameraY + (t.1 - cameraY) * k;
    }

    /** `get_camera()`. */
    function GetCamera(): (c: (real, real))
      reads this
      ensures c.0 == cameraX && c.1 == cameraY
    {
      (cameraX, cameraY)
    }
  }
}
