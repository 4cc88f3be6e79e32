/** The small part of pygame the game logic depends on: integer rectangles
    with pygame's collision rules, the key codes (pygame 2 / SDL2 values)
    and input events. */
module Pygame {

  /** `pygame.Rect(x, y, w, h)`. */
  datatype Rect = Rect(x: int, y: int, w: int, h: int)
  {
    function Left(): int { x }
    function Top(): int { y }
    function Right(): int { x + w }
    function Bottom(): int { y + h }
    /** `rect.centerx == x + w // 2`. */
    function CenterX(): int { x + w / 2 }
    function CenterY(): int { y + h / 2 }

    /** `rect.collidepoint(px, py)`: the left and top edges are inside, the
        right and bottom edges are not. */
    predicate CollidePoint(px: int, py: int)
    {
      x <= px < x + w && y <= py < y + h
    }
  }

  function MinI(a: int, b: int): int { if a <= b then a else b }
  function MaxI(a: int, b: int): int { if a >= b then a else b }

  /** `a.colliderect(b)`: zero-sized rectangles collide with nothing; the
      others collide when their interiors overlap (shared edges do not
      count). Negative sizes are normalised. */
  predicate Collide(a: Rect, b: Rect)
  {
    && a.w != 0 && a.h != 0 && b.w != 0 && b.h != 0
    && MinI(a.x, a.x + a.w) < MaxI(b.x, b.x + b.w)
    && MinI(a.y, a.y + a.h) < MaxI(b.y, b.y + b.h)
    && MaxI(a.x, a.x + a.w) > MinI(b.x, b.x + b.w)
    && MaxI(a.y, a.y + a.h) > MinI(b.y, b.y + b.h)
  }

  // Key codes.
  const K_BACKSPACE: int := 8
  const K_RETURN: int := 13
  const K_ESCAPE: int := 27
  const K_SPACE: int := 32
  const K_1: int := 49
  const K_9: int := 57
  const K_a: int := 97
  const K_d: int := 100
  const K_e: int := 101
  const K_f: int := 102
  const K_l: int := 108
  const K_s: int := 115
  const K_w: int := 119
  const K_z: int := 122
  const K_RIGHT: int := 1073741903
  const K_LEFT: int := 1073741904
  const K_DOWN: int := 1073741905
  const K_UP: int := 1073741906
  const K_PAGEUP: int := 1073741899
  const K_PAGEDOWN: int := 1073741902

  /** An input event as the handlers read it. */
  datatype Event =
    | KeyDown(key: int, unicode: string)
    | MouseDown(button: int, px: int, py: int)
    | Quit
    | OtherEvent
}
