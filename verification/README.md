# moku core, modelled in Dafny

This project models the core of the `moku` browser utility library:

- **Events:** the event dispatcher, with its listener registry, tombstoned removal and re-entrant dispatch.
- **Ticks:** the `requestAnimationFrame` cycle, the polling and rate timers, scroll and resize watchers, the wheel and the touch/swipe gesture recognisers, and the rising (viewport collision) watcher.
- **Utilities:** the 2-D vectors and hit test, the text, query-string, colour (`Iro`), type, list and time helpers.
- **DOM and network:** the CSS style snapshot and shorthand patterns, the `className` helpers, and the cookie writer.
- **Device detection:** the user-agent detectors for Windows, Android, iOS, IE, Chrome, Safari, Chrome-on-iOS, Firefox, Firefox-on-iOS and Edge-on-Android, with their shared version helpers.

There is one Dafny module per source file, plus three helper modules:

- `Wrappers` holds `Option`, `Result` and the listener keys.
- `Strings` holds ASCII case mapping, split/join and substring search.
- `Numbers` holds decimal and hexadecimal digit strings and JavaScript's `parseInt`.

Every component is an immutable datatype, and every method of the source is a pure function from the old state to the new state and the events it sends.

The browser and the outside world come in as parameters:

- `navigator.userAgent` is a string. The outcome of `navigator.appVersion.match(pattern)` is a function from the pattern's table key to the capture groups.
- Clocks (`Date.now`, the animation-frame time stamp) are integers.
- Scroll offsets, window sizes, touch coordinates, wheel deltas and element boxes are integers.
- The computed style of an element is a map from property name to value.
- `encodeURIComponent` is a function `enc`, and `Date#toUTCString` is the string `nowUtc`.
- The version number `parseFloat` reads from a version string is a `real` input.
- `requestAnimationFrame` ids come from a `Frames` record that hands out increasing ids.

A JavaScript key that no branch wrote is `Field.Undefined`. A detector's init-once record is a `Cache`: `Uninit` until the first accessor computes it, `Ready` afterwards.

## Model

| member | source | states |
|---|---|---|
| Dispatcher.Destroy | src-babels/moku/event/EventDispatcher.js:52-55 | afterwards no event type has a listener list |
| Dispatcher.On | src-babels/moku/event/EventDispatcher.js:63-85 | a falsy type or a non-function listener returns false and changes nothing; otherwise the type's list (created if absent) gets the listener appended at its end, other types are untouched, and the result is true |
| Dispatcher.IndexOf | src-babels/moku/event/EventDispatcher.js:113 | the position of the first matching entry, or -1 exactly when the listener is absent |
| Dispatcher.Clean | src-babels/moku/event/EventDispatcher.js:137-152 | returns true exactly when no entry is a function, and then replaces the type's list by an empty one; otherwise nothing changes |
| Dispatcher.Off | src-babels/moku/event/EventDispatcher.js:95-128 | true exactly when the listener is a function registered for the type; then only its first occurrence becomes a null tombstone (every other entry keeps its position), the list is emptied if nothing live remains, and all keys stay |
| Dispatcher.Has | src-babels/moku/event/EventDispatcher.js:160-177 | true exactly when the listener is a function occurring in the type's list; false for an unknown type |
| Dispatcher.Live | src-babels/moku/event/EventDispatcher.js:203-211 | the live entries of a list in order; an id is among them exactly when it occurs in the list |
| Dispatcher.LiveOccurrences | src-babels/moku/event/EventDispatcher.js:203-211 | each listener is called as many times as it is registered |
| Dispatcher.LiveEmptyIffDead | src-babels/moku/event/EventDispatcher.js:142-148 | a list has no live entry exactly when `clean` would empty it |
| Dispatcher.OnCount | src-babels/moku/event/EventDispatcher.js:76-84 | `on` adds one registration even when the listener is already present |
| Dispatcher.OffCount | src-babels/moku/event/EventDispatcher.js:113-125 | `off` removes exactly one registration of a present listener and none of an absent one |
| Dispatcher.OffOtherType | src-babels/moku/event/EventDispatcher.js:103-125 | `off` on one type leaves every other type's registrations as they were |
| Dispatcher.CountZeroNotHas | src-babels/moku/event/EventDispatcher.js:160-177 | a listener with no registration is not reported by `has` |
| Dispatcher.NotRegisteredNotCalled | src-babels/moku/event/EventDispatcher.js:198-214 | a listener `has` does not report is never called by `dispatch` |
| Dispatcher.Step | src-babels/moku/event/EventDispatcher.js:203-212 | an `on`, `off` or `destroy` made by a running listener only appends to or tombstones the array being walked, or detaches it |
| Dispatcher.Run | src-babels/moku/event/EventDispatcher.js:203-212 | a listener's sequence of operations keeps the walked array an extension of the original with entries only dying |
| Dispatcher.Walk | src-babels/moku/event/EventDispatcher.js:203-212 | the pass visits the indexes present when it started, and calls at most one listener per index |
| Dispatcher.Dispatch | src-babels/moku/event/EventDispatcher.js:184-215 | false with no call and no change exactly when the type has no key; otherwise the calls are an in-order selection of the live entries as they were when the pass began |
| Dispatcher.DominatedLive | src-babels/moku/event/EventDispatcher.js:203-212 | killing entries only removes calls, in order |
| Dispatcher.WalkCallsLive | src-babels/moku/event/EventDispatcher.js:203-212 | whatever the listeners do, the calls of a pass are an in-order selection of the entries live at its start |
| Dispatcher.WalkQuiet | src-babels/moku/event/EventDispatcher.js:203-212 | with listeners that do not touch the dispatcher, every live entry is called once in list order and nothing changes |
| Dispatcher.DispatchQuiet | src-babels/moku/event/EventDispatcher.js:198-214 | `dispatch` of a known type calls exactly the live entries in order, skipping tombstones |
| Dispatcher.DispatchCallsTwice | src-babels/moku/event/EventDispatcher.js:203-211 | a listener registered twice runs twice |
| Dispatcher.OffKeepsKey | src-babels/moku/event/EventDispatcher.js:52-55 | a type emptied by `off` still dispatches (returns true) while after `destroy` it does not |
| Dispatcher.OnOffRemoves | src-babels/moku/event/EventDispatcher.js:63-128 | `on` then `off` of a new listener leaves `has` false |
| Dispatcher.TombstonedSkipped | src-babels/moku/event/EventDispatcher.js:203-212 | an entry tombstoned by an earlier listener of the same pass is not called |
| Dispatcher.AppendedNotCalled | src-babels/moku/event/EventDispatcher.js:203-212 | a listener added during the pass is registered but not called in that pass |
| Dispatcher.DestroyMidPass | src-babels/moku/event/EventDispatcher.js:52-55 | `destroy` during a pass leaves a fresh registry while the detached array is walked to its end |
| Cycle.Request | src-babels/moku/tick/Cycle.js:74 | `requestAnimationFrame` arms a new frame id, never one already armed |
| Cycle.Cancel | src-babels/moku/tick/Cycle.js:148 | `cancelAnimationFrame` disarms exactly that id |
| Cycle.OnUpdate | src-babels/moku/tick/Cycle.js:72-84 | each tick re-arms one new frame, stores its id and stamps the event with that id and the time; whatever the listeners do to the cycle during the pass, the calls are an in-order selection of the `cycleUpdate` listeners live at its start, and the cycle keeps the registry the pass leaves |
| Cycle.OnUpdateQuiet | src-babels/moku/tick/Cycle.js:72-84 | with listeners that leave the cycle alone, a tick calls every live `cycleUpdate` listener once, in order, and keeps the registry |
| Cycle.Start | src-babels/moku/tick/Cycle.js:135-141 | throws without the private symbol; otherwise runs one tick at time 0, leaving the stored frame armed |
| Cycle.Construct | src-babels/moku/tick/Cycle.js:94-125 | throws without the private symbol; returns an existing instance unchanged; a new one starts at once with a fresh registry and an armed frame |
| Cycle.Factory | src-babels/moku/tick/Cycle.js:56-61 | creates the instance only when none exists and otherwise returns it unchanged; agrees with the constructor given the private symbol |
| Cycle.Stop | src-babels/moku/tick/Cycle.js:147-149 | cancels the given frame id, the stored one by default |
| Cycle.Frame | src-babels/moku/tick/Cycle.js:72-84 | a disarmed frame does nothing; an armed one is consumed and replaced by exactly one new frame |
| Cycle.FactorySame | src-babels/moku/tick/Cycle.js:56-61 | every `factory` call returns the same instance |
| Cycle.FactoryRunning | src-babels/moku/tick/Cycle.js:122 | a newly created cycle is live: exactly its stored frame is armed |
| Cycle.FrameKeepsRunning | src-babels/moku/tick/Cycle.js:72-84 | running the pending frame keeps exactly one, new, frame armed |
| Cycle.StopEndsLoop | src-babels/moku/tick/Cycle.js:147-149 | after `stop()` no frame is armed, so later frames reach no listener |
| Polling.New | src-babels/moku/tick/Polling.js:72-99 | a new timer has the given interval, `begin` 0 and no listeners |
| Polling.UpdateEvents | src-babels/moku/tick/Polling.js:147-156 | the event carries begin, present, the current interval and the cycle event, and the timer stores `begin` |
| Polling.OnUpdate | src-babels/moku/tick/Polling.js:45-63 | fires exactly when `present - begin >= interval`; then the event spans the old begin to present and `begin` moves to present; otherwise nothing changes |
| Polling.Start | src-babels/moku/tick/Polling.js:120-127 | resets `begin` to now and leaves the handler subscribed to the cycle |
| Polling.Stop | src-babels/moku/tick/Polling.js:133-136 | unsubscribes the handler when it was subscribed at most once |
| Polling.Change | src-babels/moku/tick/Polling.js:111-114 | stores the new interval and restarts |
| Polling.StartSubscribesOnce | src-babels/moku/tick/Polling.js:120-127 | `start` removes before adding, so the handler is subscribed exactly once |
| Polling.StopSilences | src-babels/moku/tick/Polling.js:133-136 | after `stop` a cycle tick does not call the handler |
| Polling.Feed | src-babels/moku/tick/Polling.js:45-63 | over a run of ticks every fired event carries the timer's interval |
| Polling.FeedChained | src-babels/moku/tick/Polling.js:54-60 | consecutive events are chained (each begins where the previous ended) and each spans at least one interval |
| Rate.Validate | src-babels/moku/tick/Rate.js:210-212 | a rate is accepted exactly when it is a positive divisor of 60 (the whitelist 1, 2, 3, 4, 5, 6, 10, 12, 15, 20, 30, 60 of Rate.js:38-104), so every accepted rate fires a whole number of times per 60 ticks |
| Rate.New | src-babels/moku/tick/Rate.js:142-185 | polls every 1000/60 ms with a zero count; keeps a whitelisted rate and falls back to RATE_5 (12) otherwise, so the rate is always whitelisted |
| Rate.SetRate | src-babels/moku/tick/Rate.js:197-203 | a whitelisted value is stored and returned; any other leaves the timer as it was and returns null |
| Rate.OnUpdate | src-babels/moku/tick/Rate.js:123-133 | fires exactly when the incremented count is a multiple of the rate, then resets the count and emits one event with zero begin and present; otherwise only the count grows |
| Rate.Change | src-babels/moku/tick/Rate.js:222-225 | an invalid rate is ignored, a valid one stored, and the timer restarts at now and is subscribed |
| Rate.Ticks | src-babels/moku/tick/Rate.js:123-133 | a run of ticks keeps the rate and the whitelist invariant |
| Rate.OneFirePerRate | src-babels/moku/tick/Rate.js:123-133 | from a zero count, `k` ticks fire exactly `k / rate` times and leave the count at `k % rate` |
| Rate.Rate60EveryTick | src-babels/moku/tick/Rate.js:38 | RATE_60 fires on every tick |
| ScrollEvents.Blank | src-babels/moku/event/events/ScrollEvents.js:16-58 | a fresh scroll event has previous -1, a null original, no change and every measure 0 |
| Scroll.Y | src-babels/moku/event/Scroll.js:80-84 | `pageYOffset` when the browser defines it, the root element's `scrollTop` otherwise |
| Scroll.Construct | src-babels/moku/event/Scroll.js:129-161 | throws without the private symbol; returns an existing instance unchanged; a new one has an empty registry, previous -1 and no listener attached |
| Scroll.Factory | src-babels/moku/event/Scroll.js:47-52 | creates the instance only when none exists, otherwise returns it; agrees with the constructor given the private symbol |
| Scroll.FactorySame | src-babels/moku/event/Scroll.js:47-52 | a second `factory` call returns the first instance |
| Scroll.OnScroll | src-babels/moku/event/Scroll.js:94-118 | the event carries y, height, bottom = y + height, the previous y, `changed` exactly when y differs from it and `moving` = y - previous; afterwards previous is y |
| Scroll.Start | src-babels/moku/event/Scroll.js:170-174 | the native listener is attached (once, since `stop` runs first) and the state is kept |
| Scroll.Stop | src-babels/moku/event/Scroll.js:180-183 | the native listener is detached and the state is kept |
| Scroll.Samples | src-babels/moku/event/Scroll.js:94-118 | a run of scroll events yields one event per sample |
| Scroll.SamplesChain | src-babels/moku/event/Scroll.js:101-117 | each event's previous is the prior sample's y, `changed` exactly when it moved, and the movements add up to the distance from the first previous to the last y |
| Scrolling.New | src-babels/moku/event/Scrolling.js:98-144 | a new sampler has previous -1, is neither watching nor attached, and keeps its invariant: `watching` holds exactly when `onUpdate` is subscribed once to the Rate |
| Scrolling.Unwatch | src-babels/moku/event/Scrolling.js:199-203 | removes one subscription of `onUpdate` from the Rate (none if absent) and clears `watching`, keeping the invariant |
| Scrolling.Watch | src-babels/moku/event/Scrolling.js:185-192 | `onUpdate` ends up subscribed exactly once, `watching` is set and the Rate's timer is started on the cycle |
| Scrolling.OnNativeEvent | src-babels/moku/event/Scrolling.js:154-158 | starts watching only when idle; a watching sampler is left as it is |
| Scrolling.OnUpdate | src-babels/moku/event/Scrolling.js:49-90 | `changed` exactly when the call is forced (null event) or y differs from previous; an unchanged sample unsubscribes; the event carries y, size, bottom, previous and moving, and previous becomes y |
| Scrolling.Fire | src-babels/moku/event/Scrolling.js:208-210 | a forced update always reports a change and never stops watching |
| Scrolling.Start | src-babels/moku/event/Scrolling.js:164-168 | attaches the native listeners and changes nothing else |
| Scrolling.Stop | src-babels/moku/event/Scrolling.js:174-178 | detaches the native listeners and changes nothing else |
| Scrolling.WatchUntilStill | src-babels/moku/event/Scrolling.js:49-90 | a native event while idle subscribes once; two equal samples in a row end the watch, leaving no subscription |
| NativeResizing.New | src-babels/moku/event/NativeResizing.js:91-126 | window and body sizes and previous start at -1, the event template is blank and no native listener is attached |
| NativeResizing.OnUpdate | src-babels/moku/event/NativeResizing.js:30-84 | `changed` exactly when the call is forced or y, the window size or the body size differs from the stored one; the event carries the new measures, bottom, previous and moving; the stored measures become the sample's |
| NativeResizing.Fire | src-babels/moku/event/NativeResizing.js:160-162 | a forced update always reports a change |
| NativeResizing.Start | src-babels/moku/event/NativeResizing.js:136-144 | attaches the native listeners and changes nothing else |
| NativeResizing.Stop | src-babels/moku/event/NativeResizing.js:150-155 | detaches the native listeners and changes nothing else |
| NativeResizing.SameSampleUnchanged | src-babels/moku/event/NativeResizing.js:44-83 | the same page sampled twice from native events reports no change the second time, and the template is never altered |
| NativeResizing.FirstSampleChanged | src-babels/moku/event/NativeResizing.js:104-120 | the first native sample always reports a change, because every stored value starts at -1 |
| Vectors.New | src-babels/moku/util/Vectors.js:11-32 | the coordinates and time given, not scrolling |
| Vectors.Reset | src-babels/moku/util/Vectors.js:38-44 | zero coordinates and time, the scrolling flag kept |
| Vectors.Update | src-babels/moku/util/Vectors.js:53-59 | the new coordinates and time, the scrolling flag kept |
| Vectors.Clone | src-babels/moku/util/Vectors.js:86-90 | an equal copy including the scrolling flag |
| Vectors.Duration | src-babels/moku/util/Vectors.js:78-80 | agrees with `betweenTime` |
| Vectors.BetweenX | src-babels/moku/util/Vectors.js:170-172 | the x displacement that carries the argument onto the receiver |
| Vectors.BetweenY | src-babels/moku/util/Vectors.js:179-181 | the y displacement that carries the argument onto the receiver |
| Vectors.BetweenTime | src-babels/moku/util/Vectors.js:188-190 | the time that carries the argument's time onto the receiver's |
| Vectors.Between | src-babels/moku/util/Vectors.js:197-204 | the componentwise displacement in x, y and time, the scrolling flag kept |
| Vectors.DivideByZero | src-babels/moku/util/Vectors.js:107-111 | dividing by zero gives the zero vector instead of infinities, time and flag kept |
| Vectors.MultiplyByScalar | src-babels/moku/util/Vectors.js:128-133 | both coordinates scaled, time and flag kept |
| Vectors.BetweenAntisymmetric | src-babels/moku/util/Vectors.js:170-204 | swapping the operands negates every component of the displacement |
| Vectors.BetweenInverse | src-babels/moku/util/Vectors.js:53-59 | adding the displacement back to the origin restores the first vector's coordinates and time |
| Vectors.Dot | src-babels/moku/util/Vectors.js:211-213 | a vector's product with itself, its squared length, is never negative and is zero only for the zero vector |
| Vectors.Equals | src-babels/moku/util/Vectors.js:220-222 | equal exactly when there is no x and no y displacement between the two |
| Vectors.EqualsIffZeroDistance | src-babels/moku/util/Vectors.js:197-222 | two vectors are `equals` exactly when their `between` has zero squared length |
| Vectors.EqualsIffNoDisplacement | src-babels/moku/util/Vectors.js:220-222 | two vectors are equal exactly when their displacement is zero in x and y, whatever their times |
| Vectors.ResetThenUpdate | src-babels/moku/util/Vectors.js:38-59 | an update after a reset is the same as the update alone |
| Touching.New | src-babels/moku/event/Touching.js:262-340 | `canceling` defaults to false and the threshold to 10; no moves are recorded and no listener is attached |
| Touching.Point | src-babels/moku/event/Touching.js:100-123 | the event's page coordinates when both are numbers and non-zero; otherwise the first of `changedTouches` (or else `touches`), or the origin when there is no touch |
| Touching.Dispose | src-babels/moku/event/Touching.js:411-418 | detaches the body listeners and keeps every other field |
| Touching.Reset | src-babels/moku/event/Touching.js:425-432 | start and end vectors zeroed, moves cleared, settings and listeners kept |
| Touching.OnStart | src-babels/moku/event/Touching.js:133-153 | the start vector is the touch point stamped now, it is the only recorded move, the body listeners are attached and one START event is sent |
| Touching.OnMove | src-babels/moku/event/Touching.js:161-195 | throws when no touch has started (the moves array is empty); otherwise appends the new position, flags scrolling when the vertical distance from the last move reaches the threshold, sends one MOVE event with the displacement and prevents the default exactly when canceling and not scrolling |
| Touching.OnEnd | src-babels/moku/event/Touching.js:202-230 | measures the final point against the start, sends END then TOUCH with the same data, prevents the default exactly when canceling and not scrolling, and detaches the body listeners |
| Touching.Abort | src-babels/moku/event/Touching.js:400-405 | detaches, resets and sends one CANCEL event with fresh vectors; returns true |
| Touching.OnCancel | src-babels/moku/event/Touching.js:238-240 | behaves as `abort` |
| Touching.OnBlur | src-babels/moku/event/Touching.js:248-250 | behaves as `abort` |
| Touching.StartListening | src-babels/moku/event/Touching.js:366-370 | the element listener is attached and the body listeners are not |
| Touching.StopListening | src-babels/moku/event/Touching.js:376-380 | no listener remains attached |
| Touching.MovesTelescope | src-babels/moku/event/Touching.js:161-195 | after a touch has started, a run of moves never throws, records one position and one event per move, keeps the earlier moves, and the x displacements add up to the distance from the last recorded move to the final one |
| Touching.StartThenMove | src-babels/moku/event/Touching.js:133-195 | the first move after a start succeeds and its displacement is measured from the start point |
| Touching.AbortThenMove | src-babels/moku/event/Touching.js:161-172 | after an abort the body listeners are detached, and a stray move would find no previous position |
| Swipe.New | src-babels/moku/event/Swipe.js:108-165 | the margin defaults to 10, nothing has been dragged and the Touching instance is the one given |
| Swipe.SwipeCheck | src-babels/moku/event/Swipe.js:177-187 | a swipe happens exactly when the absolute drag exceeds the margin; it is LEFT for a negative drag and RIGHT otherwise; no event when there is no swipe |
| Swipe.Dispose | src-babels/moku/event/Swipe.js:192-197 | unsubscribes the three gesture handlers from the Touching instance and keeps the rest |
| Swipe.DisposeDetaches | src-babels/moku/event/Swipe.js:192-197 | when each gesture handler was subscribed at most once, none is subscribed afterwards |
| Swipe.Reset | src-babels/moku/event/Swipe.js:202-204 | the drag total returns to 0 |
| Swipe.OnStart | src-babels/moku/event/Swipe.js:47-55 | resets the drag and subscribes to MOVE, END and CANCEL |
| Swipe.OnMove | src-babels/moku/event/Swipe.js:61-69 | adds the move's x delta, sends DRAG with the running total, then LEFT or RIGHT and a reset when the total leaves the margin |
| Swipe.OnEnd | src-babels/moku/event/Swipe.js:75-87 | adds the end event's x delta, sends DRAG, then LEFT or RIGHT when the total leaves the margin and END otherwise, and always resets |
| Swipe.OnCancel | src-babels/moku/event/Swipe.js:93-97 | resets and sends END |
| Swipe.Start | src-babels/moku/event/Swipe.js:219-224 | subscribes to START and starts the Touching instance |
| Swipe.Stop | src-babels/moku/event/Swipe.js:229-234 | stops the Touching instance and keeps the drag total |
| Swipe.Drags | src-babels/moku/event/Swipe.js:61-69 | a run of moves keeps the margin |
| Swipe.DragsSum | src-babels/moku/event/Swipe.js:61-69 | while the running total stays within the margin, it is the sum of the deltas |
| Swipe.DeltasOf | src-babels/moku/event/Touching.js:187-190 | the x deltas of a run of Touching MOVE events, one per event, adding up to their total displacement |
| Swipe.DoubleCount | src-babels/moku/event/Swipe.js:75-78 | when the finger lifts where it last moved, the DRAG total sent at END is twice the displacement from the touch start, because Touching measures END from the start while the MOVE deltas already sum to that distance |
| Swipe.LastMoveAt | src-babels/moku/event/Touching.js:167-179 | the last recorded position is the point of the last move event |
| Wheel.New | src-babels/moku/event/Wheel.js:75-114 | the threshold defaults to 200, nothing has accumulated and no listener is attached |
| Wheel.Moving | src-babels/moku/event/Wheel.js:160-194 | returns the accumulated total including the delta; a zero total sends nothing; a total reaching the threshold in absolute value sends UPDATE then UP (positive) or DOWN (negative) and resets; a smaller one is only stored |
| Wheel.OnMouseWheel | src-babels/moku/event/Wheel.js:63-66 | feeds the event's `deltaY` to `moving` |
| Wheel.Start | src-babels/moku/event/Wheel.js:130-140 | resets the total and attaches the listener |
| Wheel.Stop | src-babels/moku/event/Wheel.js:146-153 | detaches the listener and keeps the total |
| Wheel.MovingBounded | src-babels/moku/event/Wheel.js:176-193 | with a positive threshold the stored total always stays below it in absolute value |
| Wheel.Feed | src-babels/moku/event/Wheel.js:160-194 | a run of deltas keeps the threshold |
| Wheel.ReportedAppend | src-babels/moku/event/Wheel.js:201-222 | the movement reported by UP and DOWN events adds up over concatenated runs |
| Wheel.FeedConserves | src-babels/moku/event/Wheel.js:160-194 | no movement is lost: what UP and DOWN report plus what remains stored equals the starting total plus every delta |
| Hit.Test | src-babels/moku/util/Hit.js:17-49 | `top` and `bottom` say that edge lies within the viewport, `contain` that the box spans it, `include` that both edges lie within it, and `result` is their disjunction |
| Hit.HitIffOverlap | src-babels/moku/util/Hit.js:17-49 | for a well-formed box and viewport the test reports a hit exactly when the box overlaps the viewport |
| Hit.InvertedBoxHits | src-babels/moku/util/Hit.js:28-47 | a box whose top lies below its bottom can still report a hit |
| Rising.OnUpdate | src-babels/moku/event/Rising.js:39-56 | an unchanged scroll sample returns false and sends nothing; a changed one sends one event carrying the hit test of the element's offset against the viewport height, typed COLLISION exactly when the test hits and ALIEN otherwise, and returns the hit |
| Rising.Start | src-babels/moku/event/Rising.js:98-102 | the handler ends up subscribed to the scroller's updates, exactly once when it was subscribed at most once before |
| Rising.Stop | src-babels/moku/event/Rising.js:108-111 | the handler is no longer subscribed when it was subscribed at most once |
| Rising.CollisionIffOverlap | src-babels/moku/event/Rising.js:39-56 | for a well-formed box, a changed sample collides exactly when the element overlaps the viewport |
| Text.DashChar | src-babels/moku/util/Text.js:10-12 | a capital letter becomes a hyphen and its lower-case letter; any other character is kept; no capital remains |
| Text.Dash | src-babels/moku/util/Text.js:10-12 | the result has no capital letter, is at least as long as the input, and leaves a text without capitals unchanged |
| Text.Camel | src-babels/moku/util/Text.js:19-25 | the result is no longer than the input and has no hyphen followed by a lower-case letter left |
| Text.DashAppend | src-babels/moku/util/Text.js:10-12 | `dash` works character by character, so it distributes over concatenation |
| Text.DashCamel | src-babels/moku/util/Text.js:10-25 | `dash(camel(s))` gives back `s` exactly when `s` has no capital letter |
| Text.DashCamelNoUpper | src-babels/moku/util/Text.js:10-25 | a kebab-case text survives `camel` followed by `dash` |
| Text.CamelDash | src-babels/moku/util/Text.js:10-25 | `camel(dash(s))` gives back `s` exactly when `s` has no hyphen followed by a lower-case letter |
| Text.CamelDashClean | src-babels/moku/util/Text.js:10-25 | a camel-case text without such a hyphen survives `dash` followed by `camel` |
| Text.CamelDashNoHyphen | src-babels/moku/util/Text.js:10-25 | a text without hyphens survives `dash` followed by `camel` |
| Text.Chars | src-babels/moku/util/Text.js:53-55 | splitting on the empty word yields one piece per character |
| Text.Replace | src-babels/moku/util/Text.js:53-55 | for a non-empty word, split-and-join is the left-to-right substitution of every non-overlapping occurrence, and a replacement no longer than the word never lengthens the text |
| Text.ReplaceAllShrinks | src-babels/moku/util/Text.js:53-55 | substituting a word by one no longer never makes the text longer |
| Text.ReplaceAllClearsChar | src-babels/moku/util/Text.js:53-55 | substituting one character by a text without it leaves no occurrence of that character |
| Text.ReplaceAbsent | src-babels/moku/util/Text.js:53-55 | replacing a word that does not occur changes nothing |
| Text.ReplaceEmptyWord | src-babels/moku/util/Text.js:53-55 | an empty word with an empty replacement gives back the text |
| Text.Remove | src-babels/moku/util/Text.js:63-65 | every occurrence of a non-empty word is deleted, the text never grows, and a one-character word is gone from the result |
| Text.Amp | src-babels/moku/util/Text.js:72-74 | every `&` becomes `&amp;` and nothing else changes; a text without `&` comes back unchanged |
| Text.And | src-babels/moku/util/Text.js:81-83 | every `&amp;` becomes `&`, so the text never grows |
| Text.AndAmp | src-babels/moku/util/Text.js:72-83 | `and` undoes `amp` on every text |
| Text.UnescapeEscape | src-babels/moku/util/Text.js:72-83 | substituting `&amp;` back for `&` inverts the escaping substitution |
| Queries.Naked | src-babels/moku/net/Queries.js:23-27 | strips one leading `?` from the unescaped text; without one the original text comes back, not unescaped |
| Queries.Entry | src-babels/moku/net/Queries.js:39-52 | a piece yields an entry exactly when it is non-empty and holds `=`; the key is what precedes the first `=` and the value runs to the next `=` or the end |
| Queries.Collect | src-babels/moku/net/Queries.js:36-55 | a key has a value exactly when it is listed, and there are no more keys than pieces |
| Queries.Parse | src-babels/moku/net/Queries.js:34-56 | a key has a value exactly when it is listed |
| Queries.Keys | src-babels/moku/net/Queries.js:50 | the keys of a list of entries, in order |
| Queries.Pieces | src-babels/moku/net/Queries.js:36 | each entry written as `key=value` |
| Queries.EntryOf | src-babels/moku/net/Queries.js:41-48 | a `key=value` piece of plain key and value parses back to that key and value |
| Queries.CollectEntries | src-babels/moku/net/Queries.js:39-55 | collecting serialized pieces lists every key in order, repeats included, and keeps the last value written for each key |
| Queries.ParseSerialized | src-babels/moku/net/Queries.js:34-56 | parsing `?k1=v1&k2=v2…` of plain keys and values gives back every key in order and, for each key, the last value written for it |
| Queries.SplitSerialized | src-babels/moku/net/Queries.js:35-36 | splitting a serialized query on `&` gives back its pieces |
| Queries.NakedSerialized | src-babels/moku/net/Queries.js:23-27 | `naked` of a serialized query drops exactly its leading `?` |
| Queries.PiecesPlain | src-babels/moku/net/Queries.js:36 | pieces of plain keys and values contain no `&` |
| Queries.Get | src-babels/moku/net/Queries.js:128-130 | the stored value when the key has one, undefined otherwise |
| Queries.StaticGet | src-babels/moku/net/Queries.js:64-67 | the static lookup finds a value exactly when the instance would list the key, and agrees with the instance `get` |
| Queries.HasIffGet | src-babels/moku/net/Queries.js:119-130 | `has` and `get` agree: a key is listed exactly when it has a value |
| Queries.Amp | src-babels/moku/net/Queries.js:15-17 | the static `amp` is the same unescaping as `Text.and`: every `&amp;` becomes `&`, and a text without `&amp;` comes back unchanged |
| Queries.New | src-babels/moku/net/Queries.js:86-95 | the instance holds the parsed table: a key has a value exactly when it is listed; an empty search or a lone `?` gives no keys |
| Queries.Has | src-babels/moku/net/Queries.js:119-121 | on a table whose keys and values agree, a key is listed exactly when it has a value |
| Iro.Match3 | src-babels/moku/util/Iro.js:334 | the short-form pattern matches exactly three hex digits, optionally after `#`, and captures the digits |
| Iro.Match6 | src-babels/moku/util/Iro.js:350 | the long-form pattern matches exactly six hex digits, optionally after `#`, and captures the digits |
| Iro.Shorthand | src-babels/moku/util/Iro.js:330-337 | null exactly for a non-string; a short form becomes the full `#rrggbb` form; another seven-character text is kept; anything else is prefixed with `#` |
| Iro.Pair | src-babels/moku/util/Iro.js:352-354 | a two-digit hex component reads as a value below 256 |
| Iro.TwoDigits | src-babels/moku/util/Iro.js:352-354 | a two-digit pair is worth sixteen times its first digit plus its second |
| Iro.Hex2Rgb | src-babels/moku/util/Iro.js:344-358 | every component of a result lies in 0..255, and every full `#rrggbb` form gives a result |
| Iro.Int16 | src-babels/moku/util/Iro.js:365-368 | a component in 0..255 becomes two lower-case hex digits whose value is the component |
| Iro.Rgb2Hex | src-babels/moku/util/Iro.js:377-379 | three components in 0..255 give a full `#rrggbb` form |
| Iro.PairOfInt16 | src-babels/moku/util/Iro.js:352-379 | reading the pairs at positions 0, 2 and 4 of three concatenated pairs gives each pair's value |
| Iro.Hex2RgbOfRgb2Hex | src-babels/moku/util/Iro.js:344-379 | `hex2rgb(rgb2hex(r, g, b))` gives back `(r, g, b)` for components in 0..255 |
| Iro.ShortForm | src-babels/moku/util/Iro.js:330-358 | `#abc` reads as the same colour as `#aabbcc`, each component being 17 times its digit |
| Iro.Int2Hex | src-babels/moku/util/Iro.js:386-398 | `#` and the hex digits left-padded with `0` to six; for a non-negative number the six digits read back as the number |
| Iro.Int2HexDomain | src-babels/moku/util/Iro.js:381-386 | every colour number from 0 to 0xFFFFFF has at most six hex digits, so the padding loop ends |
| Iro.OfParse | src-babels/moku/util/Iro.js:410 | a `parseInt` result is a number exactly when the text parsed, NaN otherwise |
| Iro.ReplaceFirst | src-babels/moku/util/Iro.js:410 | replacing the first occurrence of an absent pattern changes nothing |
| Iro.Hex2Int | src-babels/moku/util/Iro.js:405-411 | null exactly for a non-string input |
| Iro.ToInt | src-babels/moku/util/Iro.js:418-420 | a text without `#` is read by `parseInt(·, 16)` as it is; a full `#rrggbb` form reads as the value of its six digits |
| Iro.FullHexValue | src-babels/moku/util/Iro.js:405-420 | on a full `#rrggbb` form both `hex2int` and `toInt` give the value of the six digits, so with `Int2Hex` they invert `int2hex` on 0..0xFFFFFF |
| Iro.ShortHex2Int | src-babels/moku/util/Iro.js:405-411 | `hex2int` reads `#abc` as `#aabbcc` |
| TypeUtil.Extension | src-babels/moku/util/Type.js:119-128 | the extension never contains a dot and has no capital letter; it is empty for a non-string |
| TypeUtil.ExtensionAfterLastDot | src-babels/moku/util/Type.js:119-128 | a name without a dot has the empty extension; otherwise the extension is the lower-cased text after the last dot |
| TypeUtil.Exist | src-babels/moku/util/Type.js:20-22 | a missing or empty name is falsy, and such a name has the empty extension |
| TypeUtil.Base64 | src-babels/moku/util/Type.js:137-147 | a base64 name exists and always mentions `data:image/` |
| TypeUtil.MarkerMentionsImage | src-babels/moku/util/Type.js:142-145 | every one of the four markers begins with `data:image/` |
| TypeUtil.Img | src-babels/moku/util/Type.js:154-164 | `img` holds exactly for a text holding one of the four base64 image markers or a name whose extension is jpg, png, jpeg or gif; the existence test adds nothing |
| TypeUtil.Index | src-babels/moku/css/Patterns.js:77 | what indexing a plain object reads: an own value, an inherited `Object.prototype` name, or undefined; an inherited value is reached only through a name of `Object.prototype` |
| TypeUtil.Has | src-babels/moku/util/Type.js:79-92 | on a well-formed object, a key is among `Object.keys` exactly when the object holds a value for it |
| TypeUtil.HasIffOwn | src-babels/moku/util/Type.js:89-92 | on a well-formed object, `has` holds exactly when indexing finds an own value; a missing key indexes to undefined exactly when it is not an inherited name |
| Patterns.SettingsShape | src-babels/moku/css/Patterns.js:32-55 | the table lists five shorthands without repeats, each with four longhands |
| Patterns.Match | src-babels/moku/css/Patterns.js:62-67 | a matched name dashes to a key the table holds, with four longhands |
| Patterns.Get | src-babels/moku/css/Patterns.js:74-78 | an own entry always lists four longhands |
| Patterns.MatchIffGet | src-babels/moku/css/Patterns.js:62-78 | `match` holds exactly when `get` finds an own entry; when it does not, `get` still finds something only for a dashed name inherited from `Object.prototype` |
| Patterns.CamelNamesMatch | src-babels/moku/css/Patterns.js:62-67 | a camel-case name such as `borderColor` matches through its dashed form |
| Patterns.DashBorderColor | src-babels/moku/util/Text.js:10-12 | `borderColor` dashes to `border-color` |
| Patterns.DashColor | src-babels/moku/util/Text.js:10-12 | `Color` dashes to `-color` |
| Patterns.ConstructorDisagrees | src-babels/moku/css/Patterns.js:62-78 | `constructor` does not match, yet `get` returns the inherited `Object.prototype.constructor` |
| Patterns.ConstructorPlain | src-babels/moku/util/Text.js:10-12 | `constructor` dashes to itself |
| Patterns.ConstructorInherited | src-babels/moku/css/Patterns.js:66-77 | `constructor` is not an own key of the table but indexes to an inherited value |
| Style.Compute | src-babels/moku/css/Style.js:26-33 | the whole declaration exactly when no property is given, otherwise one property's string value |
| Style.Collapse | src-babels/moku/css/Style.js:43-73 | undefined exactly when all four values are empty |
| Style.CollapseJoins | src-babels/moku/css/Style.js:52-72 | the shorthand is its written values separated by single spaces |
| Style.CollapseExpand | src-babels/moku/css/Style.js:43-73 | read back by the one-to-four-value rule of CSS shorthands, the collapsed text gives the four sides again, whenever no value holds a space |
| Style.CollapseShortest | src-babels/moku/css/Style.js:52-72 | no shorter list of values reads back as the same four sides |
| Style.ShortHand | src-babels/moku/css/Style.js:43-73 | undefined exactly when every longhand reads empty; otherwise, when no value holds a space, the shorthand reads back by the CSS rule as the four longhand values |
| Style.New | src-babels/moku/css/Style.js:92-110 | keeps the element and stores its current inline text as both `css` and `original`; without an element both are empty |
| Style.Update | src-babels/moku/css/Style.js:120-123 | stores and returns the text, keeping `original` and the element |
| Style.Save | src-babels/moku/css/Style.js:189-192 | stores and returns the element's current inline text, keeping `original` and the element |
| Style.Restore | src-babels/moku/css/Style.js:179-183 | throws exactly when there is no element; otherwise writes `original` back to the element and returns it |
| Style.OriginalFixed | src-babels/moku/css/Style.js:109 | whatever is called, `original` stays the text read at construction |
| Style.RestoreThenSave | src-babels/moku/css/Style.js:179-192 | after any calls, `restore` then `save` stores the construction-time text again |
| Style.ElementKept | src-babels/moku/css/Style.js:92-110 | an instance with an element keeps one through any calls |
| Style.Get | src-babels/moku/css/Style.js:130-140 | throws exactly when there is no element |
| Style.Current | src-babels/moku/css/Style.js:165-173 | the element's inline text, and the empty text when there is no element |
| Style.GetFallback | src-babels/moku/css/Style.js:134-139 | the collapsed longhands are returned exactly when the computed value is empty and the name is a listed shorthand; otherwise `get` is `compute` |
| List.Copies | src-babels/moku/util/List.js:14-22 | `n` copies of the value |
| List.Filling | src-babels/moku/util/List.js:14-22 | the loop builds an empty list for a non-positive length and otherwise exactly `n` entries, every one the value |
| List.Fill | src-babels/moku/util/List.js:30-37 | with a native `Array.prototype.fill`, a length outside 0..2^32-1 throws RangeError; every other call gives `max(n, 0)` entries, all equal to the value |
| List.Marge | src-babels/moku/util/List.js:45-47 | throws exactly when called without arguments (`reduce` of an empty array with no initial value) |
| List.ReduceConcat | src-babels/moku/util/List.js:45-47 | folding `concat` over the arrays appends their concatenation to the accumulator |
| List.MargeConcatenates | src-babels/moku/util/List.js:45-47 | `marge` of at least one array is the arrays' concatenation in order |
| List.ConcatAppend | src-babels/moku/util/List.js:45-47 | concatenation distributes over splitting the argument list |
| List.MargeAssociative | src-babels/moku/util/List.js:45-47 | merging two argument lists at once equals merging each and concatenating |
| List.Spread | src-babels/moku/util/List.js:55-58 | one round of spreading keeps the leaves in order, leaves a flat array unchanged and makes a nested one strictly smaller |
| List.LeavesAppend | src-babels/moku/util/List.js:55-58 | the leaves of concatenated arrays are the concatenated leaves |
| List.SizeAppend | src-babels/moku/util/List.js:55-58 | size adds up over concatenation |
| List.Flatten | src-babels/moku/util/List.js:55-58 | the result has no nested array and keeps the leaves in their original order |
| List.FlatLeaves | src-babels/moku/util/List.js:55-58 | a flat array is exactly its leaves, one per entry |
| List.FlattenLeaves | src-babels/moku/util/List.js:55-58 | the result holds one entry per leaf, in order, and an already flat array is returned unchanged |
| Times.Elapsed | src-babels/moku/util/Times.js:81-119 | the whole units from one instant to another, rounded down: the later instant lies inside that unit |
| Times.ElapsedAfter | src-babels/moku/util/Times.js:81-119 | counting whole units back from an offset of `n` units gives `n`, for any unit length |
| Times.Present | src-babels/moku/util/Times.js:72-74 | the present lies no whole unit after the clock reading, whatever the unit |
| Times.Minute | src-babels/moku/util/Times.js:81-83 | the instant lies exactly `n` times 60 000 ms after now, and counting whole minutes back from it gives `n` |
| Times.Hour | src-babels/moku/util/Times.js:90-92 | `n` hours are `60 n` minutes, and counting whole hours back gives `n` |
| Times.Day | src-babels/moku/util/Times.js:99-101 | `n` days are `24 n` hours, and counting whole days back gives `n` |
| Times.Week | src-babels/moku/util/Times.js:108-110 | `n` weeks are `7 n` days, and counting whole weeks back gives `n` |
| Times.Month | src-babels/moku/util/Times.js:117-119 | a month is a fixed 30 days, and counting whole months back gives `n` |
| Classes.Keep | src-babels/moku/dom/Classes.js:18-23 | keeps only pieces that are neither empty nor a single space, in order, never more than given |
| Classes.Convert | src-babels/moku/dom/Classes.js:13-25 | every class name returned is non-empty and holds no space |
| Classes.Has | src-babels/moku/dom/Classes.js:46-52 | without `classList`, a name is present only if it is a real class token: non-empty and without a space |
| Classes.KeepTokens | src-babels/moku/dom/Classes.js:18-23 | a list of proper class names passes the filter unchanged |
| Classes.ConvertJoin | src-babels/moku/dom/Classes.js:13-25 | reading back space-joined class names gives the names again |
| Classes.Add | src-babels/moku/dom/Classes.js:61-79 | hands the name to `classList` when the element has one; otherwise an already present name leaves `className` as it was and returns false, and a new one returns true |
| Classes.FirstIndex | src-babels/moku/dom/Classes.js:100 | `indexOf` finds the first position holding the name |
| Classes.RemoveFirst | src-babels/moku/dom/Classes.js:98-104 | the list without the first occurrence of the name, unchanged when the name is absent, and with no new entry |
| Classes.Remove | src-babels/moku/dom/Classes.js:87-106 | hands the name to `classList` when the element has one; otherwise an absent name leaves `className` as it was and returns false, and a present one returns true |
| Classes.ClassListReturnsTrue | src-babels/moku/dom/Classes.js:62-91 | on the `classList` path both edits report success |
| Classes.AddAppends | src-babels/moku/dom/Classes.js:67-78 | adding a new class name appends it to the class list, after which `has` reports it |
| Classes.RemoveDeletes | src-babels/moku/dom/Classes.js:92-105 | removing a present class name deletes its first occurrence from the class list |
| Classes.AddThenRemove | src-babels/moku/dom/Classes.js:61-106 | adding a new class name and removing it again restores the class list |
| Classes.RemoveLast | src-babels/moku/dom/Classes.js:100-102 | removing a name that occurs only at the end drops that last entry |
| Cookie.Optional | src-babels/moku/net/Cookie.js:150-161 | an attribute piece is written exactly when its condition holds |
| Cookie.Pieces | src-babels/moku/net/Cookie.js:149-164 | the written cookie always starts with the `key=value` pair and ends with the SameSite attribute |
| Cookie.AddIf | src-babels/moku/net/Cookie.js:150-161 | appending an attribute grows the text by the separator and the piece, and a skipped attribute leaves it alone |
| Cookie.Set | src-babels/moku/net/Cookie.js:147-168 | the written cookie is the pair, then ` expires=`, ` path=`, ` domain=` and ` secure` each under its condition, then ` SameSite=Lax`, joined by `;` |
| Cookie.SetFrame | src-babels/moku/net/Cookie.js:149-164 | the written cookie begins with `enc(key)=enc(value)` and ends with `; SameSite=Lax` |
| Cookie.AddIfKeepsPrefix | src-babels/moku/net/Cookie.js:150-161 | appending attributes never disturbs the pair at the front |
| Cookie.Step | src-babels/moku/net/Cookie.js:150-161 | appending one optional attribute to the text is joining one more optional piece |
| Cookie.SetLayout | src-babels/moku/net/Cookie.js:149-164 | the chain of appends is the `;`-join of the pieces |
| Cookie.SetSplits | src-babels/moku/net/Cookie.js:147-168 | splitting the written cookie at `;` gives back its pieces whenever no key, value, date, path or domain holds a `;` |
| Cookie.SetAttributes | src-babels/moku/net/Cookie.js:150-164 | expires comes right after the pair when given; path and domain are written when non-empty; ` secure` is written exactly when secure is requested over https; nothing else is written |
| Cookie.Get | src-babels/moku/net/Cookie.js:130-135 | null exactly when the decoded capture is empty (an absent key and an empty value alike), otherwise the decoded value |
| Cookie.Has | src-babels/moku/net/Cookie.js:190-192 | true exactly when `get` is not null |
| Cookie.Remove | src-babels/moku/net/Cookie.js:177-183 | writes a cookie exactly when the key is present, and returns whether it did; the cookie written has the empty value, expires now and uses the default path, domain and secure flag |
| Cookie.New | src-babels/moku/net/Cookie.js:15-88 | keeps the key; each omitted argument takes its default (no end, path `/`, no domain, secure) and each given one is kept |
| Cookie.OrElse | src-babels/moku/net/Cookie.js:17-20 | a given argument is used, an omitted one takes the default |
| Cookie.ApplyObserved | src-babels/moku/net/Cookie.js:32-87 | each setter is observed by its accessor and leaves the other four settings alone |
| Cookie.InstanceSet | src-babels/moku/net/Cookie.js:110-112 | without arguments the instance writes the static cookie with its own settings; the result always begins with its key and the value |
| Cookie.InstanceDefaults | src-babels/moku/net/Cookie.js:15-112 | a fresh instance writes with the static defaults |
| Cookie.SetPathObserved | src-babels/moku/net/Cookie.js:61-112 | after `setPath`, the next `set` uses the new path as if it had been passed |
| Cookie.InstanceRemove | src-babels/moku/net/Cookie.js:118-120 | the instance removes its own key: it writes the expiring cookie exactly when the key is present |
| Devices.Init | src-babels/moku/device/os/Windows.js:15-20 | a detector's record is computed once: a stored record is returned as it is, and otherwise the newly computed one is stored |
| Devices.InitOnce | src-babels/moku/device/os/Windows.js:15-27 | later calls never replace the first record, whatever they would compute |
| BrowserUtil.NumbersWithApp | src-babels/moku/device/browser/util/index.js:3-22 | the lower-cased name selects a pattern and the app-version match is returned; a name missing from the table matches the empty string |
| BrowserUtil.Shift | src-babels/moku/device/browser/Chrome.js:32 | drops the whole match, keeping the groups in order |
| BrowserUtil.Rendered | src-babels/moku/device/browser/util/index.js:24 | `join` writes each group, a missing one as the empty string |
| BrowserUtil.BuildNum | src-babels/moku/device/browser/util/index.js:24 | no groups give the empty build string |
| BrowserUtil.BuildNumSplits | src-babels/moku/device/browser/util/index.js:24 | groups without a dot can be read back by splitting the build string at `.` |
| BrowserUtil.ParseCapture | src-babels/moku/device/browser/util/index.js:27 | a missing group parses to NaN |
| BrowserUtil.ParseDigitsCapture | src-babels/moku/device/browser/util/index.js:27 | a group of decimal digits parses to its value |
| BrowserUtil.GetVersions | src-babels/moku/device/browser/util/index.js:26-27 | never more numbers than groups |
| BrowserUtil.GetVersionsAppend | src-babels/moku/device/browser/util/index.js:26-27 | the parse-and-filter works entry by entry, so it distributes over concatenation |
| BrowserUtil.GetVersionsSingle | src-babels/moku/device/browser/util/index.js:26-27 | one group gives its number when it parses and nothing when it is NaN |
| BrowserUtil.GetVersionsDigits | src-babels/moku/device/browser/util/index.js:26-27 | groups of decimal digits all survive the filter, each as its value, in order |
| BrowserUtil.DropsMissing | src-babels/moku/device/browser/util/index.js:26-27 | a group that did not take part is dropped without shifting the others' order |
| BrowserUtil.IntOrZero | src-babels/moku/device/os/Android.js:23-29 | a missing group reads as 0 |
| BrowserUtil.IntsOrZero | src-babels/moku/device/os/Android.js:23-29 | one number per group, each read as its integer or 0 |
| BrowserUtil.IntsOrZeroValues | src-babels/moku/device/os/Android.js:23-29 | a missing group gives 0 and a group of digits gives its value |
| BrowserUtil.DecimalHasNoDot | src-babels/moku/device/os/Android.js:30 | a written integer holds no dot |
| BrowserUtil.BuildIntsRoundTrip | src-babels/moku/device/os/Android.js:30 | the OS build string splits at `.` into one piece per number, each parsing back to the number |
| BrowserUtil.GetMajor | src-babels/moku/device/browser/util/index.js:34 | the first number, or NaN for an empty list |
| BrowserUtil.GetMinor | src-babels/moku/device/browser/util/index.js:36 | the second number, 0 when it is absent |
| BrowserUtil.GetBuild | src-babels/moku/device/browser/util/index.js:38 | the third number when present and non-zero, else the empty string |
| BrowserUtil.GetOption | src-babels/moku/device/browser/util/index.js:40 | the fourth number when present and non-zero, else the empty string |
| BrowserUtil.NonNegativeDigits | src-babels/moku/device/browser/util/index.js:52 | a non-negative number is written with decimal digits only |
| BrowserUtil.OptDigits | src-babels/moku/device/browser/util/index.js:52 | a non-negative optional part is written with decimal digits only, or not at all |
| BrowserUtil.DigitsAppend | src-babels/moku/device/browser/util/index.js:52 | concatenated digit strings are digit strings |
| BrowserUtil.VersionTextShape | src-babels/moku/device/browser/util/index.js:42-52 | for non-negative numbers the text handed to `parseFloat` is the major number, one dot, and a non-empty run of digits (minor, then build and option when non-zero) |
| BrowserUtil.SetBrowsersBuild | src-babels/moku/device/browser/util/index.js:29-32 | sets `build` to the joined groups and leaves the rest |
| BrowserUtil.SetBrowsersMajor | src-babels/moku/device/browser/util/index.js:49-55 | sets `major` to the first number (NaN when there is none) and `numbers` to the list, leaving `build` |
| BrowserUtil.AppVersion | src-babels/moku/device/browser/CriOS.js:17-54 | no match leaves the record's version keys unassigned; a match sets `build` to the joined groups, `numbers` to the parsable ones and `major` to the first of those |
| BrowserUtil.Detect | src-babels/moku/device/browser/CriOS.js:61-73 | the version keys are filled exactly when the browser is detected |
| BrowserUtil.OsVersion | src-babels/moku/device/os/Android.js:30-43 | sets build to the numbers joined with dots, major to the first, numbers and version, and changes no flag |
| BrowserUtil.LowerIs | src-babels/moku/device/browser/util/index.js:20 | a name lower-cases to a key when it does so character by character |
| BrowserUtil.Query | src-babels/moku/device/browser/CriOS.js:61-73 | asking again returns the stored record and leaves the cache as it is |
| Windows.Compute | src-babels/moku/device/os/Windows.js:15-27 | `windows` holds exactly when the UA mentions "windows" in any case; `phone` implies `windows`; no other key leaves its default |
| Windows.PhoneIsWindows | src-babels/moku/device/os/Windows.js:22-26 | `phone` holds exactly when the UA mentions "windows phone" |
| Windows.MentionsWindows | src-babels/moku/device/os/Windows.js:22-25 | a Windows Phone UA is always a Windows UA, so the inner test is never reached for nothing |
| Windows.Is | src-babels/moku/device/os/Windows.js:37-40 | on first use the answer is the "windows" test on the UA; afterwards the stored answer, unchanged |
| Windows.Phone | src-babels/moku/device/os/Windows.js:46-49 | on first use the answer is the "windows phone" test; afterwards the stored answer |
| Android.Versions | src-babels/moku/device/os/Android.js:22-29 | at most three numbers, one per group |
| Android.Classify | src-babels/moku/device/os/Android.js:56-79 | Android holds exactly for an "android" UA that is not a Windows Phone; then phone is "mobile", tablet is not-phone, hd is a window side above 1024, and standard is the stock browser; otherwise every key keeps its default |
| Android.Compute | src-babels/moku/device/os/Android.js:15-44 | the flags are Classify's; numbers and version change only for an Android UA whose app version matched, and otherwise stay at -1 |
| Android.BuildLists | src-babels/moku/device/os/Android.js:30-43 | after a version match, `build` splits at dots into the version numbers, each parsing back, and `major` is the first |
| Android.KitKat | src-babels/moku/device/os/Android.js:171-175 | only the stock browser can be KitKat |
| Android.KitKatIff | src-babels/moku/device/os/Android.js:171-175 | KitKat holds exactly for the Android stock browser with a matched version strictly between 4.2 and 4.5 |
| Android.Query | src-babels/moku/device/os/Android.js:89-164 | every accessor computes the record on first use and reads the stored one afterwards |
| Android.QueryCached | src-babels/moku/device/os/Android.js:56-59 | a second reading with different window sizes or versions returns the first record |
| IOS.Classify | src-babels/moku/device/os/iOS.js:46-69 | ipad and ipod follow their substrings; iphone needs "iphone" and neither of them; ios is any of the three; phone is iphone or ipod, tablet is ipad; webView is iOS outside standalone mode and without "safari"; the standalone value goes into the misspelt `stanalone` key, so `standalone` stays false |
| IOS.Compute | src-babels/moku/device/os/iOS.js:14-72 | the flags are Classify's; a version match sets each group's integer (missing groups as 0); otherwise numbers and version stay at -1 |
| IOS.IpadIsTablet | src-babels/moku/device/os/iOS.js:53-67 | an iPad UA is iOS and a tablet and never an iPhone; it is a phone only when it also says "ipod" |
| IOS.PhoneOrTablet | src-babels/moku/device/os/iOS.js:56-67 | a UA is iOS exactly when it is an iOS phone or tablet |
| IOS.Query | src-babels/moku/device/os/iOS.js:46-49 | the record is computed on first use and stored |
| IOS.Standalone | src-babels/moku/device/os/iOS.js:181-183 | before any other accessor it fails with a TypeError, reading a key of `null`; afterwards it reads the record's `standalone` |
| IOS.StandaloneAlwaysFalse | src-babels/moku/device/os/iOS.js:60-61 | even in standalone mode, `standalone()` after the first reading answers false while `stanalone` holds true |
| IE.Major | src-babels/moku/device/browser/IE.js:16-32 | the major version is -1 or between 6 and 11 |
| IE.FirstFlagCons | src-babels/moku/device/browser/IE.js:19-31 | the reference choice takes the first flag when it holds and otherwise looks further |
| IE.MajorPriority | src-babels/moku/device/browser/IE.js:19-31 | the major version is the number of the first flag set, in the order ie11, ie10, ie9, ie8, ie7, ie6 |
| IE.Version | src-babels/moku/device/browser/IE.js:33-38 | major and version are the chosen number and build is its decimal text; numbers is written only for a known major; the flags are untouched, so the choice is stable |
| IE.Compute | src-babels/moku/device/browser/IE.js:46-70 | IE holds exactly for an "msie" UA or a Trident 7 / rv:1 UA; an msie UA writes the five version flags (ie10 from "msie 1" or "msie 0") and leaves ie11 unassigned; otherwise only ie11 is written; the version keys are written only for IE |
| IE.MajorOfIe | src-babels/moku/device/browser/IE.js:33-38 | for IE the build string parses back to the major version, and numbers is present exactly for a known major |
| IE.Ie11Major | src-babels/moku/device/browser/IE.js:19-20 | a non-msie IE is version 11, and an msie UA is never 11 |
| IE.Query | src-babels/moku/device/browser/IE.js:81-93 | the record is computed on first use and stored |
| Chrome.Versions | src-babels/moku/device/browser/Chrome.js:33-39 | one number per group up to four, a missing or unparsable one as 0 |
| Chrome.ChromeVersion | src-babels/moku/device/browser/Chrome.js:21-62 | no match leaves the version keys unassigned; a match sets build to the joined raw groups, numbers to the mapped groups and major to the first of them |
| Chrome.Compute | src-babels/moku/device/browser/Chrome.js:69-91 | never Chrome when Edge, Edge-on-iOS or Edge-on-Android is detected; otherwise Chrome exactly for a "crios" or "chrome" UA; version data only when Chrome |
| Chrome.MissingGroupIsZero | src-babels/moku/device/browser/Chrome.js:33-37 | a group that did not take part reads as 0 in numbers |
| Chrome.Is | src-babels/moku/device/browser/Chrome.js:111-114 | on first use the answer is the Chrome detection on the UA and the record is stored; afterwards the stored answer, unchanged |
| Safari.Compute | src-babels/moku/device/browser/Safari.js:69-91 | Safari exactly for a "safari" UA that none of CriOS, Edge, Chrome, FxiOS, Edge-on-iOS, EdgA and the Android stock browser claims; version data only when Safari |
| Safari.Exclusive | src-babels/moku/device/browser/Safari.js:76-86 | a Safari UA is never Chrome, Chrome-on-iOS, Firefox-on-iOS, Edge-on-Android or the Android stock browser |
| Safari.SafariVersion | src-babels/moku/device/browser/Safari.js:53 | the lookup of "Safari" reaches the table's safari pattern |
| Safari.Is | src-babels/moku/device/browser/Safari.js:111-114 | on first use the answer is the Safari detection on the UA and the record is stored; afterwards the stored answer, unchanged |
| CriOS.Compute | src-babels/moku/device/browser/CriOS.js:61-73 | CriOS exactly for a "crios" UA, with version data only then |
| CriOS.CriOSVersion | src-babels/moku/device/browser/CriOS.js:17-54 | the lookup reaches the crios pattern: build joins the raw groups and numbers keeps the parsable ones |
| CriOS.Is | src-babels/moku/device/browser/CriOS.js:93-96 | on first use the answer is the "crios" test; afterwards the stored answer |
| Firefox.Compute | src-babels/moku/device/browser/Firefox.js:62-74 | Firefox exactly for a "firefox" UA, with version data only then |
| Firefox.FirefoxVersion | src-babels/moku/device/browser/Firefox.js:17-55 | the lookup reaches the firefox pattern: build joins the raw groups and numbers keeps the parsable ones |
| Firefox.Is | src-babels/moku/device/browser/Firefox.js:94-97 | on first use the answer is the "firefox" test; afterwards the stored answer |
| FxiOS.Compute | src-babels/moku/device/browser/FxiOS.js:62-74 | FxiOS exactly for a "fxios" UA, with version data only then |
| FxiOS.FxiOSVersion | src-babels/moku/device/browser/FxiOS.js:17-55 | the lookup reaches the fxios pattern: build joins the raw groups and numbers keeps the parsable ones |
| FxiOS.Is | src-babels/moku/device/browser/FxiOS.js:94-97 | on first use the answer is the "fxios" test; afterwards the stored answer |
| EdgA.ComputeAsWritten | src-babels/moku/device/browser/EdgA.js:17-78 | EdgA exactly for an "edga" UA, with the version data of the "EdgA" lookup only then |
| EdgA.EdgAVersion | src-babels/moku/device/browser/EdgA.js:50 | the "EdgA" lookup misses the table's `edgea` key, so a detected EdgA gets an empty build, empty numbers and no major, whatever the UA |
| EdgA.Compute | src-babels/moku/device/browser/EdgA.js:66-78 | the same flag as written, with the version read through the table's `edgea` pattern |
| EdgA.IntendedVersion | src-babels/moku/device/browser/util/index.js:6 | with the intended key, build joins the EdgA pattern's raw groups and numbers keeps the parsable ones |
| EdgA.Is | src-babels/moku/device/browser/EdgA.js:98-101 | the record computed on first use is the as-written one and is stored; the answer is the "edga" test, the same flag the corrected detector gives, and afterwards the stored answer |

## Left out

- `parseFloat`: the float a version string reads as is a `real` input. Chrome, Safari, CriOS, Firefox, FxiOS and EdgA records leave `version` out, and Android and iOS take it as `parsed`.
- Regular expressions: a user-agent test `/word/i` is an ASCII case-insensitive substring test, and the outcome of matching `navigator.appVersion` against a pattern is an input.
- `encodeURIComponent` and `Date#toUTCString` are parameters. `Cookie.get` takes the already decoded capture of its pattern, because the pattern and `decodeURIComponent` are string machinery outside this model.
- Timers: the Android `kitkatEnd` helper, the 500 ms kick in `NativeResizing`, and `Scroll.jump` and `Scroll.freeze` are left out. They schedule `setTimeout` callbacks or move the window.
- `Iro` conversions between RGB, HSL and HSV (`rgb2hsl`, `hue2rgb`, `hsl2rgb`, `rgb2hsv`, `hsv2rgb`) are left out. They are floating-point arithmetic.
- `Fps` is left out. It is a context file built on floating-point frame rates.
- `Text.comma` is left out. It is a regular-expression digit grouping on a number's text.
- The `typeof` predicates of `Type` (`method`, `number`, `int`, `string`, `array`, `nil`, `undef`) are left out. They ask about JavaScript's dynamic types, which the model's static types already fix. `Type.hasKey` (Type.js:79-81) delegates to `Type.has`, and both are `TypeUtil.Has`.
- The `Vectors` operations that need square roots, arc cosines or real division are left out: `distance`, `length`, `divideByScalar` with a non-zero scalar, `truncate`, `normalize`, `isNormalize` and `angle`. Coordinates are integers.
- Case mapping is ASCII only. `parseInt` skips ASCII white space only, not the full set JavaScript's `trim` removes.
- Lone UTF-16 surrogates are left out. Strings are sequences of characters.
- Aliasing of event objects is left out. An event sent to several listeners is a value each of them receives.
- `Classes` on an element with a `classList` answers true without modelling the `DOMTokenList` mutation. `Classes.get` with a `classList` is left out.
- `Style.set` and `Style.change` write to `element.style`, which is DOM state outside this model. The `Style` instance's `update`, `save`, `restore` and `get` are modelled.
- `Queries.getAll`, both static and on the instance, returns the parsed table itself, which is `Queries.Parse` and `Queries.New`.
- Keys inherited from `Object.prototype` are modelled only where a lookup reaches them: `Patterns.get` and `TypeUtil.Index`. Every other plain-object map holds only its own keys.
- `Resizing.js`, `Edge.js` and `EdgiOS.js` are not part of this model. The Edge and Edge-on-iOS detections are boolean inputs of Chrome and Safari.
- Chrome's `init` fills the EdgiOS detector's cache as a side effect, and that is left out. A detector that consults another takes that detector's `Compute` on the same user agent, which is what its cache holds once filled.
- Capture groups beyond the pattern's count are not modelled: Android keeps at most three numbers and Chrome at most four, as their mapping writes.
- The `passive` option of Touching's native listeners is left out. Native listener attachment is a boolean.
- The `Rising` constructor's element and offset lookups are left out. The element's box is an input of `Rising.OnUpdate`.
- `Times` with a non-integer count is left out. `n` is an integer.
- Iro.Int2Hex: requires at most six hexadecimal digits. With more, the source's countdown starts below zero and never reaches zero, so the call does not return.
- Style.ShortHand: requires exactly four longhands, which every `Patterns` shorthand entry supplies.
- Scrolling.New: requires a Rate whose update list does not yet hold this instance's handler, as with the fresh Rate of the default argument.
- List.Fill: the default `value = 0` of List.js:30 is not modelled. The value is always an argument, and a call without one is the call with 0.

## Findings

| source | as written | input that shows it | evidently intended | confidence | as-written member | corrected member |
|---|---|---|---|---|---|---|
| src-babels/moku/device/browser/EdgA.js:50 | `getNumbersWithApp('EdgA')` lower-cases the name to `edga`, but the pattern table files the Edge-on-Android pattern under `edgea` (util/index.js:6), so `app.match(undefined)` matches the empty string | any user agent containing `EdgA/44.1.2.3`: the record gets build `""`, numbers `[]` and major `NaN` | the version is read through the `edga/(\d+)\.(\d+)\.(\d+)\.?(\d+)?` pattern | high, not executed | EdgA.EdgAVersion | EdgA.IntendedVersion |
