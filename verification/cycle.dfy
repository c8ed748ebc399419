/** `Cycle`: the singleton tick source. Each tick requests the next
    animation frame before it dispatches, so the loop re-arms itself; `stop`
    cancels the pending frame. The browser's frame scheduler is modelled as a
    counter handing out ids and the set of ids still armed. */
module Cycle {
  import opened Wrappers
  import D = Dispatcher

  const Update: string := "cycleUpdate"

  datatype CycleEvents = CycleEvents(id: int, time: int)

  /** `requestAnimationFrame` / `cancelAnimationFrame`: ids are handed out in
      increasing order starting at 1; `armed` holds the frames still due. */
  datatype Frames = Frames(next: nat, armed: set<nat>)

  const NoFrames: Frames := Frames(1, {})

  predicate FramesOk(f: Frames)
  {
    forall x :: x in f.armed ==> x < f.next
  }

  function Request(f: Frames): (r: (Frames, nat))
    requires FramesOk(f)
    ensures FramesOk(r.0)
    ensures r.1 !in f.armed && r.1 >= 1
    ensures r.0.armed == f.armed + {r.1}
  {
    var id := if f.next == 0 then 1 else f.next;
    (Frames(id + 1, f.armed + {id}), id)
  }

  function Cancel(f: Frames, id: nat): (r: Frames)
    ensures r.armed == f.armed - {id}
    ensures FramesOk(f) ==> FramesOk(r)
  {
    Frames(f.next, f.armed - {id})
  }

  datatype Cycle = Cycle(reg: D.Registry, id: nat, events: CycleEvents)

  /** One tick's result: the new cycle and scheduler, the event dispatched,
      the listeners it reached and the id `onUpdate` returns. */
  datatype Tick = Tick(cycle: Cycle, frames: Frames, event: CycleEvents, calls: seq<D.Id>, id: nat)

  /** `onUpdate(time)`: re-arm, remember the frame id, stamp and dispatch
      UPDATE once. A listener may call `on` or `off` on the cycle while the
      pass runs (Polling's `stop` does); what each listener does is
      `effects`, and the registry the pass leaves is the cycle's. */
  function OnUpdate(c: Cycle, f: Frames, time: int, effects: D.Id -> seq<D.Op>): (r: Tick)
    requires FramesOk(f)
    ensures FramesOk(r.frames)
    ensures r.id !in f.armed && r.frames.armed == f.armed + {r.id}
    ensures r.cycle.id == r.id && r.cycle.events == r.event
    ensures r.event == CycleEvents(r.id, time)
    ensures Update !in c.reg ==> r.calls == [] && r.cycle.reg == c.reg
    ensures Update in c.reg ==> D.IsSubseq(r.calls, D.Live(c.reg[Update]))
    ensures r.cycle.reg == D.Dispatch(c.reg, Update, effects).reg
  {
    var (f', id) := Request(f);
    var ev := CycleEvents(id, time);
    var out := D.Dispatch(c.reg, Update, effects);
    Tick(Cycle(out.reg, id, ev), f', ev, out.calls, id)
  }

  /** With listeners that leave the cycle alone, a tick calls every live
      UPDATE listener once, in order, and keeps the registry. */
  lemma OnUpdateQuiet(c: Cycle, f: Frames, time: int)
    requires FramesOk(f)
    ensures var r := OnUpdate(c, f, time, D.NoEffects);
            r.calls == (if Update in c.reg then D.Live(c.reg[Update]) else [])
            && r.cycle == Cycle(c.reg, r.id, r.event)
  {
    if Update in c.reg { D.DispatchQuiet(c.reg, Update); }
  }

  /** `start(checkSymbol)`: throws unless given the private symbol, then
      runs one `onUpdate` with the default time 0. */
  function Start(c: Cycle, key: Key, f: Frames, effects: D.Id -> seq<D.Op>): (r: Result<Tick>)
    requires FramesOk(f)
    ensures r.Throw? <==> key == Other
    ensures r.Ok? ==> r.value.cycle.id in r.value.frames.armed && r.value.event.time == 0
  {
    if key == Other then Throw(Error("start is private method, dont call this."))
    else Ok(OnUpdate(c, f, 0, effects))
  }

  /** `new Cycle(checkSymbol)`: throws without the private symbol, returns the
      existing instance when there is one, and otherwise builds a cycle and
      starts it at once. */
  function Construct(instance: Option<Cycle>, key: Key, f: Frames): (r: Result<(Cycle, Frames)>)
    requires FramesOk(f)
    ensures r.Throw? <==> key == Other
    ensures r.Ok? ==> FramesOk(r.value.1)
    ensures r.Ok? && instance.Some? ==> r.value == (instance.value, f)
    ensures r.Ok? && instance.None? ==>
      r.value.0.reg == D.Fresh && r.value.1.armed == f.armed + {r.value.0.id}
      && r.value.0.id !in f.armed && r.value.0.events == CycleEvents(r.value.0.id, 0)
  {
    if key == Other then Throw(Error("don't use new, instead use static factory method."))
    else if instance.Some? then Ok((instance.value, f))
    else
      var blank := Cycle(D.Fresh, 0, CycleEvents(-1, 0));
      match Start(blank, Private, f, D.NoEffects)
      case Ok(t) => Ok((t.cycle, t.frames))
      case Throw(e) => Throw(e)
  }

  /** `Cycle.factory()`: the instance, created on the first call. The module
      variable afterwards holds `Some(r.0)`. */
  function Factory(instance: Option<Cycle>, f: Frames): (r: (Cycle, Frames))
    requires FramesOk(f)
    ensures FramesOk(r.1)
    ensures instance.Some? ==> r == (instance.value, f)
    ensures instance.None? ==> r.0.id in r.1.armed && r.0.reg == D.Fresh
    ensures Construct(instance, Private, f) == Ok(r)
  {
    if instance.Some? then (instance.value, f)
    else
      var t := OnUpdate(Cycle(D.Fresh, 0, CycleEvents(-1, 0)), f, 0, D.NoEffects);
      (t.cycle, t.frames)
  }

  /** `stop(id = this.id)`. */
  function Stop(c: Cycle, f: Frames, id: Option<nat>): (r: Frames)
    ensures r.armed == f.armed - {id.GetOr(c.id)}
  {
    Cancel(f, id.GetOr(c.id))
  }

  /** The browser runs frame `fid`: only an armed frame calls `onUpdate`. */
  function Frame(c: Cycle, f: Frames, fid: nat, time: int, effects: D.Id -> seq<D.Op>): (r: Tick)
    requires FramesOk(f)
    ensures FramesOk(r.frames)
    ensures fid !in f.armed ==> r.cycle == c && r.frames == f && r.calls == []
    ensures fid in f.armed ==> r.frames.armed == f.armed - {fid} + {r.cycle.id}
  {
    if fid in f.armed then OnUpdate(c, Cancel(f, fid), time, effects)
    else Tick(c, f, c.events, [], c.id)
  }

  /** The loop is live: exactly the last requested frame is armed. */
  predicate Running(c: Cycle, f: Frames)
  {
    FramesOk(f) && f.armed == {c.id}
  }

  /** Every call of `factory` returns the same instance. */
  lemma FactorySame(f: Frames)
    requires FramesOk(f)
    ensures var (c, f1) := Factory(None, f); Factory(Some(c), f1) == (c, f1)
  {
  }

  /** A cycle created by `factory` on a quiet scheduler is running. */
  lemma FactoryRunning()
    ensures Running(Factory(None, NoFrames).0, Factory(None, NoFrames).1)
  {
  }

  /** Running the pending frame re-arms exactly one new frame. */
  lemma FrameKeepsRunning(c: Cycle, f: Frames, time: int, effects: D.Id -> seq<D.Op>)
    requires Running(c, f)
    ensures Running(Frame(c, f, c.id, time, effects).cycle, Frame(c, f, c.id, time, effects).frames)
    ensures Frame(c, f, c.id, time, effects).cycle.id != c.id
  {
    var r := Frame(c, f, c.id, time, effects);
    assert f.armed - {c.id} == {};
  }

  /** After `stop()` no frame is armed, so no later frame reaches a listener. */
  lemma StopEndsLoop(c: Cycle, f: Frames, fid: nat, time: int, effects: D.Id -> seq<D.Op>)
    requires Running(c, f)
    ensures Stop(c, f, None).armed == {}
    ensures Frame(c, Stop(c, f, None), fid, time, effects).calls == []
  {
  }
}
