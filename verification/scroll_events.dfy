/** The record the scroll samplers dispatch (`ScrollEvents`, and its
    `ResizingEvents` extension with the body size). */
module ScrollEvents {
  import Polling

  /** What triggered a sample: a forced update (`null`), a native browser
      event, or a Rate tick. */
  datatype Source = Forced | Native(id: nat) | Tick(e: Polling.PollingEvents)

  datatype ScrollEvents = ScrollEvents(
    kind: string, original: Source, y: int, height: int, width: int,
    bodyWidth: int, bodyHeight: int, bottom: int, previous: int, changed: bool, moving: int)

  /** `new ScrollEvents(type)`: the defaults before any sample. */
  function Blank(kind: string): (e: ScrollEvents)
    ensures e.previous == -1 && e.original == Forced && !e.changed
    ensures e.y == 0 && e.height == 0 && e.width == 0 && e.bottom == 0 && e.moving == 0
  {
    ScrollEvents(kind, Forced, 0, 0, 0, 0, 0, 0, -1, false, 0)
  }
}
