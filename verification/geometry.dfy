/** Screen geometry shared by the three application windows: points in pixels
    (top-left origin, pointer coordinates taken as integers) and the rectangle a
    window occupies in windowed and in fullscreen mode. */
module Geometry {

  datatype Point = Point(x: int, y: int)

  function Add(p: Point, q: Point): Point
  {
    Point(p.x + q.x, p.y + q.y)
  }

  function Sub(p: Point, q: Point): Point
  {
    Point(p.x - q.x, p.y - q.y)
  }

  datatype Size = Size(width: int, height: int)

  datatype Rect = Rect(left: int, top: int, width: int, height: int)

  /** Height of the band left free for the taskbar below a fullscreen window. */
  const TaskbarBand: int := 48

  /** The style of a window: fullscreen spans the viewport from its origin down to
      48 units above its bottom edge; windowed is the window's fixed size at `position`. */
  function Layout(size: Size, isFullscreen: bool, position: Point, viewport: Size): Rect
  {
    if isFullscreen then Rect(0, 0, viewport.width, viewport.height - TaskbarBand)
    else Rect(position.x, position.y, size.width, size.height)
  }

  /** Fullscreen: origin (0,0), full width, and the bottom edge exactly 48 units above
      the viewport's, whatever the stored position and the window's own size. */
  lemma FullscreenLayout(size: Size, position: Point, viewport: Size)
    ensures Layout(size, true, position, viewport).left == 0
    ensures Layout(size, true, position, viewport).top == 0
    ensures Layout(size, true, position, viewport).width == viewport.width
    ensures Layout(size, true, position, viewport).top + Layout(size, true, position, viewport).height
            == viewport.height - TaskbarBand
    ensures forall p: Point, z: Size :: Layout(z, true, p, viewport) == Layout(size, true, position, viewport)
  {
  }

  /** Windowed: the window's own size with its top-left corner at `position`,
      whatever the viewport. */
  lemma WindowedLayout(size: Size, position: Point, viewport: Size)
    ensures Layout(size, false, position, viewport).left == position.x
    ensures Layout(size, false, position, viewport).top == position.y
    ensures Layout(size, false, position, viewport).width == size.width
    ensures Layout(size, false, position, viewport).height == size.height
    ensures forall v: Size :: Layout(size, false, position, v) == Layout(size, false, position, viewport)
  {
  }

  /** Subtracting a grab offset and adding a pointer displacement: a window grabbed at
      `grab` with origin `origin` and followed to `grab + d` lands at `origin + d`. */
  lemma FollowDisplacement(grab: Point, origin: Point, d: Point)
    ensures Sub(Add(grab, d), Sub(grab, origin)) == Add(origin, d)
    ensures Sub(grab, Sub(grab, origin)) == origin
  {
  }
}
