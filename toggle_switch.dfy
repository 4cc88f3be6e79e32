/** The on/off switch widget of ui/toggle_switch.py: a boolean state, an
    animation value that slides toward it, and a callback told of every
    change. */
module Toggles {
  import opened Common
  import opened Pygame

  const DefaultWidth: int := 80
  const DefaultHeight: int := 40
  const DefaultDuration: real := 0.12
  /** The shortest animation `__init__` accepts. */
  const MinDuration: real := 0.01
  const Pad: int := 5

  /** `float(b)`. */
  function Float(b: bool): real { if b then 1.0 else 0.0 }

  /** `_lerp(a, b, t)`. */
  function Lerp(a: real, b: real, t: real): (r: real)
    ensures t == 0.0 ==> r == a
    ensures t == 1.0 ==> r == b
  {
    a + (b - a) * t
  }

  /** For `t` in [0, 1] the interpolation stays between its ends. */
  lemma LerpBetween(a: real, b: real, t: real)
    requires 0.0 <= t <= 1.0
    ensures a <= b ==> a <= Lerp(a, b, t) <= b
    ensures b <= a ==> b <= Lerp(a, b, t) <= a
  {
    var d := b - a;
    assert Lerp(a, b, t) == a + d * t;
    if a <= b {
      FractionOf(d, t);
    } else {
      FractionOf(-d, t);
      assert (-d) * t == -(d * t);
    }
  }

  // -----------------------------------------------------------------------
  // State and animation
  // -----------------------------------------------------------------------

  /** `_state`, `_anim` and `_anim_target`. */
  datatype Switch = Switch(state: bool, anim: real, target: real)

  /** What every operation keeps: the animation heads for the state and
      stays between off (0) and on (1). */
  predicate Inv(s: Switch)
  {
    s.target == Float(s.state) && 0.0 <= s.anim <= 1.0
  }

  /** The state `__init__` sets up. */
  function Initial(initial: bool): (s: Switch)
    ensures Inv(s) && s.anim == s.target
  {
    Switch(initial, if initial then 1.0 else 0.0, Float(initial))
  }

  /** When `set(v, animate)` returns at once. */
  predicate Skips(s: Switch, v: bool, animate: bool)
  {
    v == s.state && (s.target == Float(v) || !animate)
  }

  /** `set(v, animate)` past its early return. */
  function SetTo(s: Switch, v: bool, animate: bool): Switch
  {
    if Skips(s, v, animate) then s
    else Switch(v, if animate then s.anim else Float(v), Float(v))
  }

  /** The calls `set` makes to `on_change`. */
  function Notified(s: Switch, v: bool, animate: bool, hasOnChange: bool): seq<bool>
  {
    if Skips(s, v, animate) || !hasOnChange then [] else [v]
  }

  /** Setting the value it already has does nothing and tells nobody;
      setting the other value switches, notifies the callback once with
      the new value, and either animates from where the knob is or jumps. */
  lemma SetMeans(s: Switch, v: bool, animate: bool, hasOnChange: bool)
    requires Inv(s)
    ensures v == s.state ==> SetTo(s, v, animate) == s && Notified(s, v, animate, hasOnChange) == []
    ensures v != s.state ==> SetTo(s, v, animate).state == v
    ensures v != s.state && hasOnChange ==> Notified(s, v, animate, hasOnChange) == [v]
    ensures v != s.state && animate ==> SetTo(s, v, animate).anim == s.anim
    ensures v != s.state && !animate ==> SetTo(s, v, animate).anim == SetTo(s, v, animate).target
    ensures Inv(SetTo(s, v, animate))
  {
  }

  /** `toggle(animate)`. */
  function Toggled(s: Switch, animate: bool): Switch
  {
    SetTo(s, !s.state, animate)
  }

  /** Toggling twice gives back the value; without animation the whole
      state comes back. */
  lemma ToggleTwice(s: Switch, animate: bool)
    requires Inv(s)
    ensures Toggled(Toggled(s, animate), animate).state == s.state
    ensures !animate && s.anim == s.target ==> Toggled(Toggled(s, false), false) == s
    ensures Toggled(s, animate).state == !s.state
  {
  }

  /** `update(dt)`: the animation value after `dt` seconds at `speed` per
      second, never passing the target. */
  function Advance(anim: real, target: real, speed: real, dt: real): real
  {
    if anim == target then anim
    else
      var dir := if target > anim then 1.0 else -1.0;
      var next := anim + dir * speed * dt;
      if (dir > 0.0 && next >= target) || (dir < 0.0 && next <= target) then target else next
  }

  /** Moving forward in time the value approaches the target, never passes
      it, and lands on it once the step covers the gap. */
  lemma AdvanceApproaches(anim: real, target: real, speed: real, dt: real)
    requires speed > 0.0 && dt >= 0.0
    ensures anim <= target ==> anim <= Advance(anim, target, speed, dt) <= target
    ensures target <= anim ==> target <= Advance(anim, target, speed, dt) <= anim
    ensures anim == target ==> Advance(anim, target, speed, dt) == anim
    ensures speed * dt >= target - anim >= 0.0 ==> Advance(anim, target, speed, dt) == target
    ensures speed * dt >= anim - target >= 0.0 ==> Advance(anim, target, speed, dt) == target
  {
    assert speed * dt >= 0.0;
  }

  /** `update` keeps the invariant. */
  lemma AdvanceKeepsInv(s: Switch, speed: real, dt: real)
    requires Inv(s) && speed > 0.0 && dt >= 0.0
    ensures Inv(s.(anim := Advance(s.anim, s.target, speed, dt)))
  {
    AdvanceApproaches(s.anim, s.target, speed, dt);
  }

  /** Where the knob is drawn: between its left and right stops. */
  lemma KnobOnTrack(leftX: int, rightX: int, anim: real)
    requires leftX <= rightX && 0.0 <= anim <= 1.0
    ensures leftX <= Trunc(Lerp(leftX as real, rightX as real, anim)) <= rightX
  {
    LerpBetween(leftX as real, rightX as real, anim);
    TruncBetween(leftX, rightX, Lerp(leftX as real, rightX as real, anim));
  }

  // -----------------------------------------------------------------------
  // The widget
  // -----------------------------------------------------------------------

  class ToggleSwitch {
    var rect: Rect
    var animationDuration: real
    var animSpeed: real
    var state: bool
    var anim: real
    var animTarget: real
    var pad: int
    var knobSize: int
    var leftX: int
    var rightX: int
    var borderRadius: int
    /** Whether an `on_change` callback was given. */
    var hasOnChange: bool
    /** The values passed to `on_change` so far. */
    var notified: seq<bool>

    function Current(): Switch
      reads this
    {
      Switch(state, anim, animTarget)
    }

    /** `ToggleSwitch(x, y, width, height, initial, on_change=..., animation_duration=...)`
        with the geometry `__init__` derives. */
    constructor (x: int, y: int, width: int, height: int, initial: bool, hasOnChange: bool, animationDuration: real)
      ensures rect == Rect(x, y, width, height)
      ensures this.animationDuration == MaxR(MinDuration, animationDuration)
      ensures this.animationDuration >= MinDuration
      ensures animSpeed == 1.0 / this.animationDuration && animSpeed > 0.0
      ensures Current() == Initial(initial)
      ensures pad == Pad && knobSize == height - 2 * Pad
      ensures leftX == x + Pad && rightX == x + width - Pad - knobSize
      ensures rightX - leftX == width - height
      ensures borderRadius == height / 2
      ensures this.hasOnChange == hasOnChange && notified == []
    {
      rect := Rect(x, y, width, height);
      var duration := MaxR(MinDuration, animationDuration);
      this.animationDuration := duration;
      this.hasOnChange := hasOnChange;
      notified := [];
      state := initial;
      anim := if initial then 1.0 else 0.0;
      animTarget := Float(initial);
      animSpeed := 1.0 / duration;
      pad := Pad;
      knobSize := height - Pad * 2;
      leftX := x + Pad;
      rightX := x + width - Pad - (height - Pad * 2);
      borderRadius := height / 2;
    }

    /** `value`. */
    function Value(): (v: bool)
      reads this
      ensures v == Current().state
    {
      state
    }

    /** `set(v, animate)`. */
    method Set(v: bool, animate: bool)
      modifies this`state, this`anim, this`animTarget, this`notified
      ensures Current() == SetTo(old(Current()), v, animate)
      ensures notified == old(notified) + Notified(old(Current()), v, animate, hasOnChange)
    {
      if v == state && (animTarget == Float(v) || !animate) {
        return;
      }
      state := v;
      animTarget := Float(v);
      if !animate {
        anim := animTarget;
      }
      if hasOnChange {
        notified := notified + [state];
      }
    }

    /** `toggle(animate)`. */
    method Toggle(animate: bool)
      modifies this`state, this`anim, this`animTarget, this`notified
      ensures Current() == Toggled(old(Current()), animate)
      ensures notified == old(notified) + Notified(old(Current()), !old(state), animate, hasOnChange)
    {
      Set(!state, animate);
    }

    /** `handle_event(event)`: a left click inside the switch toggles it. */
    method HandleEvent(e: Event)
      modifies this`state, this`anim, this`animTarget, this`notified
      ensures e.MouseDown? && e.button == 1 && rect.CollidePoint(e.px, e.py) ==>
                Current() == Toggled(old(Current()), true) &&
                notified == old(notified) + Notified(old(Current()), !old(state), true, hasOnChange)
      ensures !(e.MouseDown? && e.button == 1 && rect.CollidePoint(e.px, e.py)) ==>
                Current() == old(Current()) && notified == old(notified)
    {
      if e.MouseDown? && e.button == 1 {
        if rect.CollidePoint(e.px, e.py) {
          Toggle(true);
        }
      }
    }

    /** `update(dt)`. */
    method Update(dt: real)
      modifies this`anim
      ensures anim == Advance(old(anim), animTarget, animSpeed, dt)
    {
      if anim == animTarget {
        return;
      }
      var direction := if animTarget > anim then 1.0 else -1.0;
      anim := anim + direction * animSpeed * dt;
      if (direction > 0.0 && anim >= animTarget) || (direction < 0.0 && anim <= animTarget) {
        anim := animTarget;
      }
    }
  }
}
