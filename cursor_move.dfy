/** `MoveCursorRelateToWindow` (common.py): the point the cursor is moved to,
    given as an offset from an edge or the centre of the active window. */
module CursorMove {
  import opened Outcomes

  /** The edges and centre of the active window, in screen pixels. */
  datatype Window = Window(top: int, bottom: int, centerx: int, centery: int, right: int)

  datatype Point = Point(x: real, y: real)

  /** The message of the `IndexError` Python raises for `origin[k]` past the end. */
  const IndexErrorMessage := "string index out of range"

  /** The window coordinate the vertical offset is measured from, by `origin[0]`. */
  function AnchorY(w: Window, c: char): int {
    match c
    case 'b' => w.bottom
    case 'c' => w.centery
    case _ => w.top
  }

  /** +1 where the offset goes down the screen from its anchor, -1 where it goes up. */
  function DirectionY(c: char): real {
    if c == 'b' then -1.0 else 1.0
  }

  /** The window coordinate the horizontal offset is measured from, by `origin[1]`;
      every code but 'c' measures from the right edge. */
  function AnchorX(w: Window, c: char): int {
    if c == 'c' then w.centerx else w.right
  }

  /** +1 where the offset goes right from its anchor, -1 where it goes left. */
  function DirectionX(c: char): real {
    if c == 'r' then -1.0 else 1.0
  }

  /** The target of `execute` for offsets `x`, `y` and the two-letter `origin`:
      the anchor chosen by each letter plus the offset in that letter's direction.
      A shorter `origin` raises `IndexError` (after the vertical choice, before the
      cursor moves). */
  function Target(w: Window, x: real, y: real, origin: string): (r: Result<Point>)
    ensures r.Failure? <==> |origin| < 2
    ensures r.Failure? ==> r.message == IndexErrorMessage
    ensures r.Success? ==>
              r.value.y == AnchorY(w, origin[0]) as real + DirectionY(origin[0]) * y &&
              r.value.x == AnchorX(w, origin[1]) as real + DirectionX(origin[1]) * x
  {
    if |origin| < 1 then Failure(IndexErrorMessage)
    else
      var ty :=
        if origin[0] == 'b' then w.bottom as real - y
        else if origin[0] == 'c' then w.centery as real + y
        else w.top as real + y;
      if |origin| < 2 then Failure(IndexErrorMessage)
      else
        var tx :=
          if origin[1] == 'r' then w.right as real - x
          else if origin[1] == 'c' then w.centerx as real + x
          else w.right as real + x;
        Success(Point(tx, ty))
  }

  /** The offsets that lead from `origin`'s anchors to `p`. */
  function Offsets(w: Window, p: Point, origin: string): (real, real)
    requires |origin| >= 2
  {
    (DirectionX(origin[1]) * (p.x - AnchorX(w, origin[1]) as real),
     DirectionY(origin[0]) * (p.y - AnchorY(w, origin[0]) as real))
  }

  /** For a fixed window and origin, offsets and targets determine each other. */
  lemma TargetOffsetsRoundTrip(w: Window, x: real, y: real, origin: string)
    requires |origin| >= 2
    ensures Target(w, x, y, origin).Success?
    ensures Offsets(w, Target(w, x, y, origin).value, origin) == (x, y)
  {
  }

  lemma OffsetsTargetRoundTrip(w: Window, p: Point, origin: string)
    requires |origin| >= 2
    ensures Target(w, Offsets(w, p, origin).0, Offsets(w, p, origin).1, origin) == Success(p)
  {
  }

  /** Only the first two letters of `origin` are read. */
  lemma TargetReadsTwoLetters(w: Window, x: real, y: real, origin: string)
    requires |origin| >= 2
    ensures Target(w, x, y, origin) == Target(w, x, y, origin[..2])
  {
  }

  /** Measured from the top or the bottom edge, an offset no larger than the
      window's height keeps the target between those edges. */
  lemma TargetWithinHeight(w: Window, x: real, y: real, origin: string)
    requires |origin| >= 2 && origin[0] != 'c'
    requires 0.0 <= y <= (w.bottom - w.top) as real
    ensures w.top as real <= Target(w, x, y, origin).value.y <= w.bottom as real
  {
  }

  /** As written, every horizontal code other than 'r' and 'c' adds the offset to
      the RIGHT edge, so a positive offset puts the target right of the window. */
  lemma TargetFallbackRightOfWindow(w: Window, x: real, y: real, origin: string)
    requires |origin| >= 2 && origin[1] != 'r' && origin[1] != 'c'
    requires x > 0.0
    ensures Target(w, x, y, origin).value.x > w.right as real
  {
  }
}
