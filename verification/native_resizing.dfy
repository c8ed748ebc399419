/** `NativeResizing`: samples scroll top, window size and body size on every
    native scroll or resize event and reports whether any of them changed.
    `Resizing.js`, which defines its event type, is not part of this model,
    so the type is a construction parameter. */
module NativeResizing {
  import opened Wrappers
  import D = Dispatcher
  import opened ScrollEvents

  datatype Size = Size(width: int, height: int)

  datatype NativeResizing = NativeResizing(
    reg: D.Registry, template: ScrollEvents, window: Size, body: Size, previous: int, attached: bool)

  /** One reading of the page. */
  datatype Sample = Sample(y: int, window: Size, body: Size)

  /** `new NativeResizing()`: every stored value starts at -1. */
  function New(kind: string): (n: NativeResizing)
    ensures n.window == Size(-1, -1) && n.body == Size(-1, -1) && n.previous == -1
    ensures n.template == Blank(kind) && !n.attached
  {
    NativeResizing(D.Fresh, Blank(kind), Size(-1, -1), Size(-1, -1), -1, false)
  }

  /** The six-way change test. */
  predicate Changed(n: NativeResizing, event: Option<nat>, s: Sample)
  {
    event.None? || n.previous != s.y || s.window.height != n.window.height
    || s.window.width != n.window.width || s.body.width != n.body.width || s.body.height != n.body.height
  }

  /** `onUpdate(event)`: dispatches a fresh copy of the template filled from
      the sample, then stores the sample. `event` is `None` when forced. */
  function OnUpdate(n: NativeResizing, event: Option<nat>, s: Sample): (r: (NativeResizing, ScrollEvents))
    ensures r.1.changed <==> event.None? || n.previous != s.y || n.window != s.window || n.body != s.body
    ensures r.0 == n.(window := s.window, body := s.body, previous := s.y)
    ensures r.1.y == s.y && r.1.width == s.window.width && r.1.height == s.window.height
    ensures r.1.bodyWidth == s.body.width && r.1.bodyHeight == s.body.height
    ensures r.1.bottom == s.y + s.window.height && r.1.moving == s.y - n.previous && r.1.previous == n.previous
    ensures r.1.kind == n.template.kind
  {
    var ev := n.template.(original := if event.None? then Forced else Native(event.value),
      y := s.y, height := s.window.height, width := s.window.width,
      bodyWidth := s.body.width, bodyHeight := s.body.height, bottom := s.y + s.window.height,
      changed := Changed(n, event, s), previous := n.previous, moving := s.y - n.previous);
    (n.(window := s.window, body := s.body, previous := s.y), ev)
  }

  /** `fire()`: a forced update, always reported as changed. */
  function Fire(n: NativeResizing, s: Sample): (r: (NativeResizing, ScrollEvents))
    ensures r.1.changed
    ensures r == OnUpdate(n, None, s)
  {
    OnUpdate(n, None, s)
  }

  function Start(n: NativeResizing): (r: NativeResizing)
    ensures r == n.(attached := true)
  {
    Stop(n).(attached := true)
  }

  function Stop(n: NativeResizing): (r: NativeResizing)
    ensures r == n.(attached := false)
  {
    n.(attached := false)
  }

  /** Sampling the same page twice in a row from native events reports no
      change the second time, and the template is never altered. */
  lemma SameSampleUnchanged(n: NativeResizing, e1: nat, e2: nat, s: Sample)
    ensures var (m, _) := OnUpdate(n, Some(e1), s);
      !OnUpdate(m, Some(e2), s).1.changed && m.template == n.template
  {
  }

  /** The first native sample always reports a change, because every stored
      value starts at -1 and a window has a non-negative height. */
  lemma FirstSampleChanged(kind: string, e: nat, s: Sample)
    requires s.window.height >= 0
    ensures OnUpdate(New(kind), Some(e), s).1.changed
  {
  }
}
