/** The drag controller each application window carries: a press on the title bar
    records the grab offset (pointer minus window origin), every pointer move while
    dragging emits pointer minus offset as the window's new origin, and release ends
    the drag. The browser window keeps its pointer listeners attached for as long as
    it is mounted; the settings and file-manager windows attach them only while a
    drag is in progress. Both forms are one class, told apart by `alwaysListening`. */
module DragControl {
  import opened Geometry
  import opened Optional

  class DragController {
    /** True for the browser window, whose listeners stay attached. */
    const alwaysListening: bool
    var dragging: bool
    var offset: Point
    /** Whether the window-level mousemove/mouseup listeners are attached. */
    var listening: bool

    ghost predicate Valid()
      reads this
    {
      listening == (alwaysListening || dragging)
    }

    /** A freshly mounted window: not dragging, offset (0,0). */
    constructor (alwaysListening: bool)
      ensures Valid()
      ensures this.alwaysListening == alwaysListening
      ensures !dragging && offset == Point(0, 0)
    {
      this.alwaysListening := alwaysListening;
      dragging := false;
      offset := Point(0, 0);
      listening := alwaysListening;
    }

    /** Press on the title bar. Ignored while the window is fullscreen; otherwise
        starts a drag with offset `pointer - position`. */
    method MouseDown(pointer: Point, position: Point, isFullscreen: bool)
      requires Valid()
      modifies this
      ensures Valid()
      ensures isFullscreen ==> dragging == old(dragging) && offset == old(offset)
      ensures !isFullscreen ==> dragging && offset == Sub(pointer, position)
      ensures Sub(pointer, offset) == position || (isFullscreen && offset == old(offset))
    {
      if isFullscreen {
        return;
      }
      dragging := true;
      offset := Sub(pointer, position);
      listening := true;
    }

    /** Pointer move anywhere in the page: while dragging, the new window origin
        `pointer - offset`; otherwise nothing is emitted. */
    method MouseMove(pointer: Point) returns (emitted: Option<Point>)
      requires Valid()
      ensures emitted.Some? <==> dragging
      ensures emitted.Some? ==> Add(emitted.value, offset) == pointer
    {
      if !listening || !dragging {
        emitted := None;
      } else {
        emitted := Some(Sub(pointer, offset));
      }
    }

    /** Pointer release: the drag is over; the offset is kept as it was. */
    method MouseUp()
      requires Valid()
      modifies this
      ensures Valid()
      ensures !dragging && offset == old(offset)
    {
      if listening {
        dragging := false;
        listening := alwaysListening;
      }
    }
  }
}
