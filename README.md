# Card effect: the CubicBezier engine and the Sketch frame runtime, in Dafny

This project models two self-contained parts of `javascript/jquery.cardeffect.js` and
proves properties of the model.

**The `CubicBezier` timing curve** (modules `Bezier`, `BezierSolve`, `BezierDivide`).
A curve is an immutable value: start point (0,0), end point (1,1), and two control points
whose coordinates the constructor checks against [0,1]. The model covers:
- evaluation in power form, and its derivative;
- `getPointForT`;
- the axis inversion `_getTForCoordinate`, with its public faces `getTforX` and `getTforY`. It runs Newton's method for at most eight steps, then falls back to bisection;
- De Casteljau subdivision: `_getAuxPoints`, `divideAtT`, `divideAtX` and `divideAtY`;
- `clone` and the named presets.

Coordinates are exact `real`s. The four JavaScript numbers the source guards against NaN and
Infinity are modelled by `JsNumbers.Num`: the constructor arguments, `t`, the `x`/`y` of
division, and `epsilon`. A thrown `RangeError` is an `Err` of `Wrappers.Result` that names
the offending argument.

**The Sketch per-context runtime** (modules `SketchLoop`, `SketchKeys`, `SketchPointer`,
`EventTable`, `SketchUtil`, `SketchContext`, `FrameTimer`). The closure returned by
`constructor` is the class `SketchContext.Context`:
- its fields are the closure variables and the context properties the runtime updates in place;
- its methods are `update` (`Tick`), `start`, `stop`, `toggle`, `clear`, `destroy`, `bind`, and the listeners `resize`, `active`, `keypress` and `pointer`;
- each method is proved against a specification function of the loop state (`SketchLoop`), the key record (`SketchKeys`) or the pointer record (`SketchPointer`), and the lemmas about those functions state what the runtime promises;
- the user callbacks are represented by a ghost trace of the calls the runtime makes, so ordering and "at most once" can be stated;
- the module-level `instances` list is `SketchContext.Registry`;
- the static `eventMap` and both of its walks (`bind`'s registration walk and `pointer`'s group walk) are `EventTable`;
- the timer fallback of `requestAnimationFrame` is `FrameTimer.Shim`.

Inputs the runtime reads from the platform become parameters:
- the clock reading `+new Date()` (an integer);
- the element's offsets and the page's scroll offsets;
- the contacts and the type of an event;
- the key code.

Two behaviours of the source are kept as written and proved as such:
- `divideAtT` can raise a `RangeError` for an inner `t` on a valid curve. A normalised control value of a half can leave [0,1], and the constructor then rejects it (`BezierDivide.DivisionMayReject`: the curve (1,0,0,1) at t = 0.9).
- The Newton phase of `_getTForCoordinate` does not clamp its estimate to [0,1] (`BezierSolve.NewtonMayLeaveUnit`).

## Model

| member | source | states |
|---|---|---|
| Bezier.Create | javascript/jquery.cardeffect.js:642-663 | a curve is built exactly when all four arguments are finite numbers in [0,1], and it then holds them; otherwise a RangeError names the first argument, in order p1x, p1y, p2x, p2y, that fails (NaN and the infinities fail) |
| JsNumbers.UnitGuardExact | javascript/jquery.cardeffect.js:643-658 | the guard `p >= 0 && p <= 1` holds exactly of the finite numbers in [0,1] |
| JsNumbers.OpenUnitGuardExact | javascript/jquery.cardeffect.js:742-745 | the guard `t > 0 && t < 1` holds exactly of the finite numbers strictly inside (0,1) |
| Bezier.CoordinateAt | javascript/jquery.cardeffect.js:665-671 | one axis of the curve at t in the source's Horner form; its properties are the lemmas below: the Bernstein form with end values 0 and 1 (`PowerFormIsBernstein`), 0 at t = 0 and 1 at t = 1 (`CoordinateEnds`), within [0,1] on [0,1] (`CoordinateInUnit`) |
| Bezier.DerivativeAt | javascript/jquery.cardeffect.js:673-679 | the derivative of one axis in the source's Horner form; `DerivativeIsBernstein` proves it is three times the quadratic Bernstein form of the control differences, and `DerivativeExpansion` ties it to the curve's increment |
| Bezier.PowerFormIsBernstein | javascript/jquery.cardeffect.js:665-671 | the power form `((a t + b) t + c) t` equals the cubic Bernstein form with control values 0, p1, p2, 1 |
| Bezier.CoordinateEnds | javascript/jquery.cardeffect.js:665-671 | the power form is exactly 0 at t = 0 and exactly 1 at t = 1 |
| Bezier.CoordinateInUnit | javascript/jquery.cardeffect.js:665-671 | for control values in [0,1] the coordinate stays in [0,1] for t in [0,1], and strictly inside (0,1) for t strictly inside |
| Bezier.DerivativeIsBernstein | javascript/jquery.cardeffect.js:673-679 | the derivative is three times the quadratic Bernstein form of the differences p1, p2 - p1, 1 - p2 |
| Bezier.DerivativeExpansion | javascript/jquery.cardeffect.js:665-679 | the increment of the coordinate over h is h times the derivative plus terms in h² and h³, so the derivative function is the curve's derivative |
| Bezier.GetPointForT | javascript/jquery.cardeffect.js:736-751 | t = 0 gives (0,0) and t = 1 gives (1,1); any other t outside (0,1), NaN included, raises RangeError t; an inner t gives the Bernstein form of the curve on both axes |
| Bezier.PointInUnitSquare | javascript/jquery.cardeffect.js:736-751 | every point of a curve object lies in the unit square, and strictly inside it for an inner t |
| Bezier.Clone | javascript/jquery.cardeffect.js:902-904 | cloning a curve object succeeds and gives the same curve |
| Bezier.ShadowedLinear | javascript/jquery.cardeffect.js:915-917 | the first `linear`, which calls the constructor with no arguments, raises RangeError p1x |
| Bezier.Linear | javascript/jquery.cardeffect.js:922-924 | the effective `linear` is the valid curve (0, 0, 1, 1) |
| Bezier.Ease | javascript/jquery.cardeffect.js:919-921 | `ease` is the valid curve (0.25, 0.1, 0.25, 1) |
| Bezier.EaseIn | javascript/jquery.cardeffect.js:925-927 | `easeIn` is the valid curve (0.42, 0, 1, 1) |
| Bezier.EaseOut | javascript/jquery.cardeffect.js:928-930 | `easeOut` is the valid curve (0, 0, 0.58, 1) |
| Bezier.EaseInOut | javascript/jquery.cardeffect.js:931-933 | `easeInOut` is the valid curve (0.42, 0, 0.58, 1) |
| Bezier.LinearIsDiagonal | javascript/jquery.cardeffect.js:922-924 | every point of `linear` has x = y |
| Bezier.LinearIsNotIdentity | javascript/jquery.cardeffect.js:922-924 | x(t) of `linear` is not t: the point at t = 1/4 is (5/32, 5/32) |
| BezierSolve.NewtonFrom | javascript/jquery.cardeffect.js:686-697 | the Newton loop from step i and estimate t: the first estimate whose residual is below the tolerance, or nothing after eight steps or at a derivative below 1e-6 in magnitude; `NewtonSound` proves the first case |
| BezierSolve.NewtonSound | javascript/jquery.cardeffect.js:687-697 | the Newton phase returns early only with an estimate whose residual is below the tolerance |
| BezierSolve.BisectFrom | javascript/jquery.cardeffect.js:712-727 | the bisection loop from the bracket [t0, t1] and estimate t2: the first estimate within the tolerance, the estimate when the bracket is empty, or the last one after `fuel` halvings; `BisectStep` and `BisectSound` prove it keeps and halves a bracket of the target |
| BezierSolve.BisectStep | javascript/jquery.cardeffect.js:712-723 | one bisection step keeps 0 <= t0 <= t2 <= t1 <= 1 and x(t0) <= c <= x(t1) |
| BezierSolve.BisectSound | javascript/jquery.cardeffect.js:712-727 | bisection ends within the tolerance, or with its estimate in a bracket of the target whose width is the initial width halved once per step |
| BezierSolve.TForCoordinate | javascript/jquery.cardeffect.js:681-728 | RangeError epsilon exactly when the tolerance is not a finite positive number; otherwise the result is within the tolerance of the target, or 0 for a target below 0, or 1 for a target above 1, or a bisection estimate bracketing a target in [0,1] |
| BezierSolve.GetTForCoordinate | javascript/jquery.cardeffect.js:681-728 | rejects a tolerance that is not a positive finite number, otherwise runs the Newton phase, then the clamping of targets outside [0,1], then the bisection phase, and so computes `TForCoordinate` |
| BezierSolve.NewtonPhase | javascript/jquery.cardeffect.js:686-697 | the Newton loop from t = c returns the first estimate within the tolerance, or nothing after eight steps or on a flat derivative, as `NewtonFrom` describes |
| BezierSolve.BisectionPhase | javascript/jquery.cardeffect.js:712-727 | the bisection loop from the bracket [0,1] and estimate c returns the estimate `BisectFrom` describes: the first within the tolerance, or else the last one when the step bound is reached, where the source would go on looping |
| BezierSolve.GetTForX | javascript/jquery.cardeffect.js:753-755 | `getTforX` inverts the x axis of the curve |
| BezierSolve.GetTForY | javascript/jquery.cardeffect.js:757-759 | `getTforY` inverts the y axis of the curve |
| BezierSolve.NewtonMayLeaveUnit | javascript/jquery.cardeffect.js:687-697 | the Newton estimate is not clamped: on the axis x(t) = t the target -1/2 is returned as it is |
| BezierDivide.AuxPoints | javascript/jquery.cardeffect.js:768-811 | the auxiliary points exist exactly for a finite t strictly inside (0,1); any other t raises RangeError t |
| BezierDivide.DivisionValueOnCurve | javascript/jquery.cardeffect.js:797-801 | the division value k of De Casteljau's construction is the curve's coordinate at t |
| BezierDivide.DivisionPointInside | javascript/jquery.cardeffect.js:768-811 | the division point k is `getPointForT(t)` and lies strictly inside (0,1) on both axes, so the normalising divisions never divide by zero |
| BezierDivide.AxisHalvesFollowCurve | javascript/jquery.cardeffect.js:852-874 | on one axis, the left half scaled by k retraces the curve on [0, t], and the right half scaled by 1 - k and shifted by k retraces it on [t, 1] |
| BezierDivide.Division | javascript/jquery.cardeffect.js:826-880 | a t outside [0,1], NaN included, raises RangeError t; t = 0 gives [linear, b]; t = 1 gives [b, linear]; an inner t succeeds exactly when both normalised halves have control values in [0,1], and then gives those two valid curves |
| BezierDivide.DivideAtT | javascript/jquery.cardeffect.js:826-880 | filling the two-slot array at index t and 1 - t, and building the halves with the constructor, computes `Division` |
| BezierDivide.DivisionFollowsCurve | javascript/jquery.cardeffect.js:852-879 | a successful division at an inner t gives two curves that follow the divided curve on [0, t] and [t, 1], on both axes, scaled by the point `getPointForT(t)` |
| BezierDivide.DivisionMayReject | javascript/jquery.cardeffect.js:876-879 | an inner t does not always divide a valid curve: (1, 0, 0, 1) at t = 0.9 raises RangeError p1x |
| BezierDivide.DivisionAtCoordinate | javascript/jquery.cardeffect.js:882-900 | a target below 0 or above 1 raises RangeError for the axis; otherwise RangeError epsilon exactly for a bad tolerance; a NaN target then raises RangeError t; for a target in [0,1] and a good tolerance the result is `Division` at the parameter the solver finds, its RangeErrors included, and a success means that parameter lies in [0,1] |
| BezierDivide.DivideAtX | javascript/jquery.cardeffect.js:882-890 | `divideAtX` computes `DivisionAtCoordinate` on the x axis |
| BezierDivide.DivideAtY | javascript/jquery.cardeffect.js:892-900 | `divideAtY` computes `DivisionAtCoordinate` on the y axis |
| BezierDivide.DivisionNearCoordinate | javascript/jquery.cardeffect.js:882-890 | a successful `divideAtX` splits where the curve's x is within the tolerance of the target, unless bisection gave up with the target bracketed |
| SketchUtil.IndexOf | javascript/jquery.cardeffect.js:415 | `indexOf` gives the first position of the element, or -1 exactly when it is absent |
| SketchUtil.RemoveFirstIsWithout | javascript/jquery.cardeffect.js:415-418 | on a list without repetitions, splicing out the first occurrence removes the element altogether and keeps the others in order |
| SketchUtil.WithoutDistinct | javascript/jquery.cardeffect.js:415-418 | removal keeps the list free of repetitions, and its members are the old ones other than the removed one |
| SketchUtil.Extended | javascript/jquery.cardeffect.js:107-116 | `extend` as a value: the keys are those of both records; a source key is copied when overwriting or when the target lacks it; every other target entry is kept |
| SketchUtil.Extend | javascript/jquery.cardeffect.js:107-116 | the loop over the source keys computes `Extended` |
| SketchUtil.ExtendIdempotent | javascript/jquery.cardeffect.js:107-116 | extending twice with the same source gives what extending once gives |
| SketchUtil.Lerp | javascript/jquery.cardeffect.js:492-495 | `lerp` gives min at amount 0 and max at amount 1 |
| SketchUtil.MapRange | javascript/jquery.cardeffect.js:497-500 | `map` takes minA to minB and maxA to maxB |
| SketchUtil.MapUndoesLerp | javascript/jquery.cardeffect.js:492-500 | `map` onto [0,1] undoes `lerp` |
| SketchKeys.KeyMap | javascript/jquery.cardeffect.js:60-72 | `keyMap` maps exactly the ten listed codes, each to its listed name |
| SketchKeys.FromCharCode | javascript/jquery.cardeffect.js:104 | `String.fromCharCode` takes the code modulo 2^16 |
| SketchKeys.KeyName | javascript/jquery.cardeffect.js:102-105 | `keyName` gives the mapped name, which is longer than one character, for a mapped code, and the one-character string of the code otherwise |
| SketchKeys.DigitsRoundTrip | javascript/jquery.cardeffect.js:373 | reading back the decimal property name of a code gives the code |
| SketchKeys.DecimalStringInjective | javascript/jquery.cardeffect.js:373 | different codes have different property names, so `keys[code]` never mixes two codes |
| SketchKeys.AllReleased | javascript/jquery.cardeffect.js:191 | the initial record has an entry for each mapped name, and every entry is false |
| SketchKeys.ReleaseAll | javascript/jquery.cardeffect.js:191 | the loop over the map's codes makes an entry, false, for each name reached |
| SketchKeys.InitialKeys | javascript/jquery.cardeffect.js:191 | the constructor's loop builds `AllReleased()` |
| SketchKeys.ReleasedNamesAreMapped | javascript/jquery.cardeffect.js:191 | the initial record has an entry for every mapped name |
| SketchKeys.PressedKeys | javascript/jquery.cardeffect.js:369-376 | a keydown sets both `keys[code]` and `keys[keyName(code)]` to true, a keyup both to false, and every other entry is kept |
| SketchKeys.ReleaseAfterPress | javascript/jquery.cardeffect.js:369-376 | a keyup after a keydown leaves both entries false and every other entry as it was |
| SketchKeys.DigitKeyAliasesCode | javascript/jquery.cardeffect.js:373 | the name of code 56 (the key "8") is the property name of code 8, so pressing "8" also sets `keys[8]` |
| EventTable.Bindings | javascript/jquery.cardeffect.js:200-216 | the listeners `bind` registers: each type name of the event map with the target and listener last seen before it; `BindingsCoverNames` and `Routing` prove what they are |
| EventTable.BindWalk | javascript/jquery.cardeffect.js:200-216 | `bind`'s loop registers, in order, every type name with the most recently seen target and listener |
| EventTable.BindingsCoverNames | javascript/jquery.cardeffect.js:200-216 | every registration names a type of the map, and every type of the map is registered |
| EventTable.Routing | javascript/jquery.cardeffect.js:170-189 | whatever `target` and `handler` held before, `bind` registers the nine pointer types on the element for `pointer`, keydown and keyup on the document for `keypress`, focus and blur on the window for `active`, and resize on the window for `resize` |
| EventTable.GroupOf | javascript/jquery.cardeffect.js:346-366 | the names `pointer` triggers for a type: the walk outward from the type's position while the neighbours are names; `GroupNamesInMap`, `PairGroup`, `SingleGroup` and the six group lemmas state what it is |
| EventTable.GroupWalk | javascript/jquery.cardeffect.js:346-366 | `pointer`'s `while (min)` loop visits the names of the walk from the type's position |
| EventTable.GroupNamesInMap | javascript/jquery.cardeffect.js:346-366 | the walk of a type visits only type names of the map |
| EventTable.PairGroup | javascript/jquery.cardeffect.js:356-366 | in a group of one listener and two names, either name makes the walk visit both, in declared order |
| EventTable.SingleGroup | javascript/jquery.cardeffect.js:356-366 | in a group of one listener and one name, the name makes the walk visit itself alone |
| EventTable.PressGroup | javascript/jquery.cardeffect.js:174 | mousedown and touchstart each visit [mousedown, touchstart] |
| EventTable.MoveGroup | javascript/jquery.cardeffect.js:175 | mousemove and touchmove each visit [mousemove, touchmove] |
| EventTable.ReleaseGroup | javascript/jquery.cardeffect.js:176 | mouseup and touchend each visit [mouseup, touchend] |
| EventTable.ClickGroup | javascript/jquery.cardeffect.js:177 | click visits itself alone |
| EventTable.OutGroup | javascript/jquery.cardeffect.js:178 | mouseout visits itself alone |
| EventTable.OverGroup | javascript/jquery.cardeffect.js:179 | mouseover visits itself alone |
| EventTable.UnknownTypeTriggersNothing | javascript/jquery.cardeffect.js:346-366 | a type the map does not hold visits nothing |
| SketchPointer.Augment | javascript/jquery.cardeffect.js:298-314 | the new sample is at the aligned position; its movement is measured from the previous sample of the slot, axis by axis, unless that is missing or its coordinate is 0, in which case it is 0 |
| SketchPointer.RestingPointerHasNoMovement | javascript/jquery.cardeffect.js:298-314 | a contact that has not moved since its last sample reports no movement |
| SketchPointer.MovementFromZeroIsLost | javascript/jquery.cardeffect.js:304-305 | a previous coordinate of 0 counts as no previous sample: a pointer leaving x = 0 reports dx = 0 |
| SketchPointer.Processed | javascript/jquery.cardeffect.js:316-340 | the slots and `mouse` that `process` leaves, in terms of `Augment` for each contact or for the mouse; the method `Process` is proved to meet it |
| SketchPointer.Process | javascript/jquery.cardeffect.js:316-340 | a mouse event leaves one slot, measured against `mouse`; a touch event leaves one slot per contact, each measured against the same slot's previous sample; `mouse` then takes the first slot, and is kept when no contact is left |
| SketchPointer.DraggingAfter | javascript/jquery.cardeffect.js:348-354 | `dragging` after an event: true for a type containing "down" or "start", false for one containing "up" or "end", otherwise unchanged; the drag lemmas below state it per type |
| SketchPointer.DragStarts | javascript/jquery.cardeffect.js:348-354 | mousedown and touchstart set `dragging` |
| SketchPointer.DragEnds | javascript/jquery.cardeffect.js:348-354 | mouseup and touchend clear `dragging` |
| SketchPointer.DragKept | javascript/jquery.cardeffect.js:348-354 | the other five pointer types leave `dragging` as it was |
| SketchPointer.KeepsDragging | javascript/jquery.cardeffect.js:348-354 | a type whose name contains none of the four words leaves `dragging` as it was |
| SketchPointer.StartsDragging | javascript/jquery.cardeffect.js:350 | a type whose name holds "down" or "start" sets `dragging` |
| SketchPointer.EndsDragging | javascript/jquery.cardeffect.js:352 | a type whose name holds "up" or "end", and neither "down" nor "start", clears `dragging` |
| SketchLoop.JsRemainder | javascript/jquery.cardeffect.js:249 | JavaScript's `%` is NaN exactly for a zero divisor; for a non-negative dividend it lies in [0, abs(divisor)), and for a non-negative dividend and a positive divisor it is a % b |
| SketchLoop.CounterAdvances | javascript/jquery.cardeffect.js:249 | each tick moves the counter to (counter + 1) mod interval, so it stays in [0, interval); a zero interval makes it NaN |
| SketchLoop.CounterAfterRun | javascript/jquery.cardeffect.js:234-249 | after k ticks the counter has advanced by k modulo the interval, so the timed block runs every interval-th tick |
| SketchLoop.ZeroIntervalTimesEveryTick | javascript/jquery.cardeffect.js:234-249 | with interval 0 the counter is NaN after one tick, and every later tick of a running context is timed |
| SketchLoop.CallsOfTick | javascript/jquery.cardeffect.js:223-247 | the calls one `update` makes: setup and resize until each is defined, then in a timed tick update, the clear and draw; `TickCalls` and `TickOrder` state which occur and in what order |
| SketchLoop.FrameOfTick | javascript/jquery.cardeffect.js:223-249 | the loop state after one `update`: the once-flags, the timers of a timed tick, and the counter advanced modulo `interval`; the tick lemmas below state what it keeps and changes |
| SketchLoop.TickKeepsFrameValid | javascript/jquery.cardeffect.js:218-250 | a tick keeps the counter in range, a clock reading for a running context, and `millis` a number |
| SketchLoop.RunStateKeepsFrameValid | javascript/jquery.cardeffect.js:378-403 | `start`, `stop`, `toggle` and `active` keep that invariant |
| SketchLoop.TickCalls | javascript/jquery.cardeffect.js:218-250 | a tick runs setup exactly when it is not yet done and is defined, resize likewise; update, the clear and draw exactly in a timed tick (running and counter 0), the clear only with autoclear on a 2D canvas |
| SketchLoop.TickOrder | javascript/jquery.cardeffect.js:218-250 | within a tick, of any two of setup, resize, update, the clear and draw, the one earlier in that order comes first wherever both occur, whether or not the calls between them happen |
| SketchLoop.UntimedTickKeepsTimers | javascript/jquery.cardeffect.js:234-238 | a tick that does not run the timed block (a stopped context, or a counter other than 0) leaves `now`, `dt`, `millis` and `running` as they were |
| SketchLoop.TimedTickAdvancesTimers | javascript/jquery.cardeffect.js:234-238 | a timed tick sets `dt` to the clock reading minus `now`, adds it to `millis` and moves `now` to the clock; a NaN `now` makes `dt` and `millis` NaN |
| SketchLoop.TimersTelescope | javascript/jquery.cardeffect.js:234-238 | over any run of a running context, `millis` grows by exactly as much as `now` advances |
| SketchLoop.TickSetupCount | javascript/jquery.cardeffect.js:223-227 | one tick runs setup once when it was not yet done and is defined, otherwise not at all |
| SketchLoop.NoSetupAfterFirstStep | javascript/jquery.cardeffect.js:229-247 | only the first step of `update` can run setup |
| SketchLoop.TickKeepsCount | javascript/jquery.cardeffect.js:218-250 | a tick keeps "setup has run once exactly when its flag is set" together with the loop invariant |
| SketchLoop.SetupAtMostOnce | javascript/jquery.cardeffect.js:223-227 | over any run of ticks setup runs at most once, and exactly when its flag goes from false to true |
| SketchLoop.Toggled | javascript/jquery.cardeffect.js:400-403 | `toggle` flips `running` |
| SketchLoop.ToggleTwice | javascript/jquery.cardeffect.js:389-403 | toggling twice restores `running`, and only `now` can differ, at the clock reading of the `start` |
| SketchLoop.AfterActive | javascript/jquery.cardeffect.js:378-385 | with `autopause` a blur stops the context and any other type starts it with `now` at the clock; without it nothing changes; the counter, flags, `dt` and `millis` are kept |
| SketchLoop.BlurThenFocusResumes | javascript/jquery.cardeffect.js:378-393 | with `autopause`, a blur then a focus resumes the context from the focus's clock reading, so the time between is not added to `millis` |
| SketchLoop.Fired | javascript/jquery.cardeffect.js:356-366 | the walk's triggers run only handlers named in the group |
| SketchLoop.FiredOnce | javascript/jquery.cardeffect.js:356-366 | over names without repetitions, each defined handler among them runs exactly once and no other runs |
| SketchLoop.PointerGroupIsDistinct | javascript/jquery.cardeffect.js:170-179 | the group of a pointer type holds the type itself and no name twice |
| SketchLoop.PointerFiresGroupOnce | javascript/jquery.cardeffect.js:342-367 | a pointer event runs every defined handler of its group exactly once, its own among them, and no other handler |
| SketchContext.Registry.constructor | javascript/jquery.cardeffect.js:45 | `instances` starts empty |
| SketchContext.Registry.Push | javascript/jquery.cardeffect.js:443 | the context is appended and the list keeps no repetitions |
| SketchContext.Registry.Remove | javascript/jquery.cardeffect.js:415-418 | the context is taken out and every other stays, in order |
| SketchContext.Context.constructor | javascript/jquery.cardeffect.js:152-446 | the new context is appended to `instances`; it runs exactly when `autostart`; every mapped key is released; `mouse` is at rest and `touches` empty; the map's listeners are registered; the loop state and the calls are those of the first `update` |
| SketchContext.Context.Launch | javascript/jquery.cardeffect.js:443-445 | push, the optional `start`, `bind(true)`, `resize()` and the first `update()` give the state and calls of one tick from the launched state |
| SketchContext.Context.Bind | javascript/jquery.cardeffect.js:200-216 | `bind(on)` adds or removes exactly the map's registrations and changes nothing else |
| SketchContext.Context.Tick | javascript/jquery.cardeffect.js:218-250 | `update` leaves the loop state of `FrameOfTick`, appends the calls of `CallsOfTick`, and keeps the invariant that setup has run once exactly when its flag is set |
| SketchContext.Context.RunOnceHooks | javascript/jquery.cardeffect.js:223-232 | the setup and resize hooks run until they are defined, and their flags record it |
| SketchContext.Context.RunTimedBlock | javascript/jquery.cardeffect.js:234-247 | in a timed tick the timers advance, then update, the clear and draw run |
| SketchContext.Context.AdvanceTimers | javascript/jquery.cardeffect.js:236-238 | `dt` becomes the time since `now`, it is added to `millis`, and `now` moves to the clock |
| SketchContext.Context.AdvanceCounter | javascript/jquery.cardeffect.js:249 | the counter advances modulo the interval |
| SketchContext.Context.Start | javascript/jquery.cardeffect.js:389-393 | `start` sets `running` and moves `now` to the clock |
| SketchContext.Context.Stop | javascript/jquery.cardeffect.js:395-398 | `stop` clears `running` |
| SketchContext.Context.Toggle | javascript/jquery.cardeffect.js:400-403 | `toggle` flips `running` |
| SketchContext.Context.Clear | javascript/jquery.cardeffect.js:405-410 | a 2D canvas is cleared, any other context is left alone |
| SketchContext.Context.RunCallback | javascript/jquery.cardeffect.js:193-198 | `trigger` runs a callback exactly when its property holds a function |
| SketchContext.Context.ResizeHandler | javascript/jquery.cardeffect.js:285 | the `resize` listener runs the user's resize callback only once setup has run |
| SketchContext.Context.Active | javascript/jquery.cardeffect.js:378-385 | `active` updates the run state as `AfterActive` says, then runs the handler named after the type |
| SketchContext.Context.Keypress | javascript/jquery.cardeffect.js:369-376 | `keypress` updates both entries of the key as `PressedKeys` says, then runs the handler named after the type |
| SketchContext.Context.Pointer | javascript/jquery.cardeffect.js:342-367 | `pointer` updates `touches` and `mouse` as `process` does, `dragging` by the type, and runs the handlers of the type's group in walk order |
| SketchContext.Context.Drag | javascript/jquery.cardeffect.js:348-354 | the `dragging` update of `pointer` |
| SketchContext.Context.RunGroup | javascript/jquery.cardeffect.js:356-366 | the walk of the type's group runs each handler named in it, and never setup |
| SketchContext.Context.RunHandlers | javascript/jquery.cardeffect.js:356-366 | the walk's triggers run in order, and never setup |
| SketchContext.Context.Destroy | javascript/jquery.cardeffect.js:412-422 | `destroy` removes exactly this context from `instances`, keeping the others in order, removes every listener, and stops the context; the callbacks, keys, pointer samples and `dragging` are kept |
| SketchContext.Context.SetHandler | javascript/jquery.cardeffect.js:193-198 | the user assigning or removing a function property changes which callbacks `trigger` runs, and nothing else |
| FrameTimer.Delay | javascript/jquery.cardeffect.js:580 | the delay asked of the timer is never negative, and at most 16 exactly when the clock has not gone back past `then` |
| FrameTimer.FireTimeIsLaterOf | javascript/jquery.cardeffect.js:577-587 | the next frame fires at the clock reading or 16 ms after the previous frame, whichever is later |
| FrameTimer.FramesAreSpaced | javascript/jquery.cardeffect.js:577-587 | every frame fires no earlier than its request, and at least 16 ms after the frame before it |
| FrameTimer.FrameRateIsBounded | javascript/jquery.cardeffect.js:577-587 | after k requests the last frame fires at least 16k ms after `then` |
| FrameTimer.Shim.constructor | javascript/jquery.cardeffect.js:562 | `then` starts at 0 |
| FrameTimer.Shim.Request | javascript/jquery.cardeffect.js:577-587 | a request asks the timer for `Delay(then, now)`, hands the callback `now + delay`, and moves `then` there |

## Left out

- Platform calls: element creation and `getContext` (`Sketch.create` and `augment`), the UMD wrapper, and `install` with `random`. The model keeps only the `lerp` and `map` formulas.
- `addEventListener`/`removeEventListener`: `bind`'s registrations are the set `listeners`.
- `getBoundingClientRect`: the offsets are a parameter `Offset`.
- `align`'s `scrollX || pageXOffset` choice: the model takes the scroll offset as given.
- `preventDefault`, and `clone`'s copying and proxying of the event object.
- `resize`'s writes of the element's size and style, and the `devicePixelRatio` scaling. Only the setup-guarded user callback is modelled.
- Scheduling: `requestAnimationFrame`, `cancelAnimationFrame` and `setTimeout`. `update` is modelled as one tick at a given clock reading.
- The heartbeat is never cancelled after `destroy`, and several contexts interleave. Only the `running` flag and the registry are modelled.
- The vendor-prefixed lookup of `requestAnimationFrame`: the shim is modelled on its own.
- IEEE-754 arithmetic: rounding, overflow and signed zero. Coordinates and timers are exact. NaN and Infinity appear only at the guarded inputs (`Num`), as a NaN counter (`interval` 0), and as NaN timers before the first `start`.
- A non-integer `interval`: it is an `int`.
- `toString`, which is string formatting of doubles.
- BezierSolve.BisectionPhase: for a finite target in [0,1] whose computed bracket holds (x(t0) < c < x(t1) as the doubles come out), the source's bisection loop (javascript/jquery.cardeffect.js:712-724) leaves only through the tolerance test. In double precision, once t0 and t1 are adjacent doubles, the midpoint rounds to one of them and the branch taken assigns that same value back, so `t0 < t1` stays true. For a tolerance below the smallest residual doubles can reach (`epsilon` = 1e-300 on `ease`, say), the source then does not terminate. Its `return t2` at :727 is reached only outside that case: a NaN target sets t1 to NaN on the first pass and returns NaN, and a computed x(1) below the target lets t0 reach 1. The model's target is an exact real (a NaN target is handled before the solver, in `DivisionAtCoordinate`). It stops after `BisectionSteps` (1075) halvings and returns the last estimate. That outcome stands for the source's non-termination, not for a return it makes.
- BezierSolve.TForCoordinate: it does not prove that bisection reaches the tolerance, which would need the intermediate value theorem. It promises the tolerance or a bracket of width 1/2^1074.
- SketchKeys.FromCharCode: a lone surrogate code unit is not a Dafny `char`, so such codes give U+FFFD.
- SketchContext.Context.constructor: `extend(context, {...})` does not overwrite properties the user supplied. The model starts `running`, `millis`, `now`, `dt` and `dragging` from the runtime's defaults.
- SketchContext.Context.constructor: `start` with `autostart` and the first `update` read the clock separately. The model uses one reading for both.
- Aliasing: after a mouse event, `touches[0]` is the `mouse` object itself. The model keeps values, which agree with the source's values after each event.
- The effects of the user callbacks: a callback that changes the context while it runs, and any reentrancy. The callbacks appear only in the trace.
- Assignments by the user to the runtime's properties (`running`, `millis`, ...) other than defining or removing callbacks (`SetHandler`).
- SketchUtil.MapRange: it requires maxA != minA. The source divides by zero there, which gives NaN or Infinity.
