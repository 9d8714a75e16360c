/**
 * A Sketch context and the `instances` registry. The constructor closure's state lives
 * in the fields of `Context`, and each of its functions is a method that updates them
 * as the specification functions of `SketchLoop`, `SketchKeys` and `SketchPointer` say.
 * The user callbacks are represented by the ghost `trace` of the calls made.
 */
module SketchContext {
  import opened Wrappers
  import opened SketchUtil
  import opened SketchKeys
  import opened EventTable
  import opened SketchPointer
  import opened SketchLoop

  /** The module-level `instances` list of live contexts. */
  class Registry {
    var instances: seq<Context>

    ghost predicate Valid()
      reads this
    {
      Distinct(instances)
    }

    constructor()
      ensures instances == [] && Valid()
    {
      instances := [];
    }

    /** `instances.push(context)` */
    method Push(c: Context)
      requires Valid() && c !in instances
      modifies this
      ensures Valid()
      ensures instances == old(instances) + [c]
    {
      instances := instances + [c];
      forall i, j | 0 <= i < j < |instances|
        ensures instances[i] != instances[j]
      {
        if j < |instances| - 1 {
          assert instances[i] == old(instances)[i] && instances[j] == old(instances)[j];
        } else {
          assert instances[i] in old(instances);
        }
      }
    }

    /** `index = instances.indexOf(context); if (~index) instances.splice(index, 1)`:
        the context is taken out, and every other stays, in order. */
    method Remove(c: Context)
      requires Valid()
      modifies this
      ensures Valid()
      ensures instances == RemoveFirst(old(instances), c)
      ensures instances == Without(old(instances), c)
    {
      var index := IndexOf(instances, c);
      if index != -1 {
        instances := instances[..index] + instances[index + 1..];
      }
      RemoveFirstIsWithout(old(instances), c);
      WithoutDistinct(old(instances), c);
    }
  }

  /** The registrations `bind(true)` makes. */
  function BoundSet(): set<Binding> {
    set b | b in Bindings(EventMap, Element, Pointer)
  }

  class Context {
    /** The options the loop reads (`autoclear`, `autopause`, `interval`, the type). */
    const options: Options
    /** The properties of the context that hold functions: the user's callbacks. */
    var handlers: set<string>

    var counter: Option<int>
    var setupDone: bool
    var resized: bool
    var running: bool
    var now: Option<int>
    var dt: Option<int>
    var millis: Option<int>
    var dragging: bool
    var keys: map<string, bool>
    var mouse: Sample
    var touches: seq<Sample>
    /** The event listeners `bind` has registered and not removed. */
    var listeners: set<Binding>
    /** The calls made so far. */
    ghost var trace: seq<Call>

    /** The loop state held in the fields. */
    function State(): Frame
      reads this
    {
      Frame(counter, setupDone, resized, running, now, dt, millis)
    }

    /** What every method keeps: setup has run once exactly when its flag is set, the
        counter is in range, a running context has a clock reading and `millis` is a
        number. */
    ghost predicate Valid()
      reads this
    {
      SetupCount(trace) == (if setupDone then 1 else 0)
      && FrameValid(options, State())
    }

    /** What every method keeps of the wiring: every mapped key name has an entry, and
        only the map's listeners are registered. The methods that leave `keys` and
        `listeners` unchanged keep it by that alone. */
    ghost predicate Wired()
      reads this`listeners, this`keys
    {
      listeners <= BoundSet() && MappedNames() <= keys.Keys
    }

    /** The constructor: the initial state, `instances.push(context)`, `start` when
        `autostart`, `bind(true)`, `resize()` and the first `update()`, all at the one
        clock reading `clock`. */
    constructor(registry: Registry, options: Options, handlers: set<string>, autostart: bool, clock: int)
      requires registry.Valid()
      modifies registry
      ensures Valid() && Wired() && registry.Valid()
      ensures registry.instances == old(registry.instances) + [this]
      ensures this.options == options && this.handlers == handlers
      ensures var launch := if autostart then Started(Initial, clock) else Initial;
              State() == FrameOfTick(options, handlers, launch, clock)
              && trace == CallsOfTick(options, handlers, launch)
      ensures running == autostart
      ensures keys == AllReleased() && mouse == Rest && touches == [] && !dragging
      ensures listeners == BoundSet()
    {
      var initialKeys := InitialKeys();
      this.options := options;
      this.handlers := handlers;
      counter, setupDone, resized := Some(0), false, false;
      running, now, dt, millis := false, None, None, Some(0);
      dragging := false;
      keys := initialKeys;
      mouse := Rest;
      touches := [];
      listeners := {};
      trace := [];
      new;
      ReleasedNamesAreMapped();
      Launch(registry, autostart, clock);
    }

    /** The end of the constructor: `instances.push(context)`, `start` when `autostart`,
        `bind(true)`, `resize()` and the first `update()`. */
    method Launch(registry: Registry, autostart: bool, clock: int)
      requires Valid() && Wired() && registry.Valid() && this !in registry.instances
      requires State() == Initial && trace == [] && listeners == {}
      modifies this, registry
      ensures Valid() && Wired() && registry.Valid()
      ensures registry.instances == old(registry.instances) + [this]
      ensures var launch := if autostart then Started(Initial, clock) else Initial;
              State() == FrameOfTick(options, handlers, launch, clock)
              && trace == CallsOfTick(options, handlers, launch)
      ensures running == autostart
      ensures listeners == BoundSet()
      ensures unchanged(this`handlers, this`keys, this`mouse, this`touches, this`dragging)
    {
      registry.Push(this);
      if autostart {
        Start(clock);
      }
      Bind(true);
      ResizeHandler();
      Tick(clock);
    }

    /** `bind(on)`: add or remove the listeners of the map. The walk starts from
        whatever the closure's `target` and `handler` hold; the map resets both before
        its first name, so any start gives the same registrations. */
    method Bind(on: bool)
      requires Valid() && Wired()
      modifies this
      ensures Valid() && Wired()
      ensures listeners == if on then old(listeners) + BoundSet() else old(listeners) - BoundSet()
      ensures unchanged(this`counter, this`setupDone, this`resized, this`running, this`now, this`dt, this`millis, this`trace, this`handlers)
      ensures unchanged(this`keys, this`mouse, this`touches, this`dragging)
    {
      var bindings := BindWalk(EventMap, Element, Listener.Pointer);
      var registered := set b | b in bindings;
      if on {
        listeners := listeners + registered;
      } else {
        listeners := listeners - registered;
      }
    }

    /** `update()` for a clock reading: the new state and the calls are those of
        `FrameOfTick` and `CallsOfTick`. */
    method Tick(clock: int)
      requires Valid()
      modifies this
      ensures Valid()
      ensures State() == FrameOfTick(options, handlers, old(State()), clock)
      ensures trace == old(trace) + CallsOfTick(options, handlers, old(State()))
      ensures unchanged(this`handlers, this`listeners)
      ensures unchanged(this`keys, this`mouse, this`touches, this`dragging)
    {
      ghost var before := State();
      ghost var trace0 := trace;
      RunOnceHooks();
      assert TimedCalls(options, handlers, State()) == TimedCalls(options, handlers, before);
      RunTimedBlock(clock);
      AdvanceCounter();
      AppendThree(trace0, SetupCalls(handlers, before), ResizeCalls(handlers, before), TimedCalls(options, handlers, before));
      TickKeepsCount(options, handlers, before, clock, trace0);
    }

    /** The last step of `update()`: `counter = (counter + 1) % interval`. */
    method AdvanceCounter()
      modifies this`counter
      ensures State() == CounterAdvanced(options, old(State()))
    {
      counter := if counter.Some? then JsRemainder(counter.value + 1, options.interval) else None;
    }

    /** The first half of `update()`: setup runs until it is defined, then resize
        likewise. */
    method RunOnceHooks()
      modifies this
      ensures trace == old(trace) + SetupCalls(handlers, old(State())) + ResizeCalls(handlers, old(State()))
      ensures State() == HooksDone(handlers, old(State()))
      ensures unchanged(this`handlers, this`listeners, this`keys, this`mouse, this`touches, this`dragging)
    {
      ghost var trace0 := trace;
      if !setupDone {
        RunCallback(SetupHook);
        setupDone := Property(SetupHook) in handlers;
      }
      if !resized {
        RunCallback(ResizeHook);
        resized := Property(ResizeHook) in handlers;
      }
    }

    /** The timed block of `update()`: when running and the counter is 0 (or NaN), the
        timers advance to the clock reading, then update runs, a 2D canvas with
        `autoclear` is cleared, and draw runs. */
    method RunTimedBlock(clock: int)
      modifies this
      ensures trace == old(trace) + TimedCalls(options, handlers, old(State()))
      ensures State() == TimersAdvanced(old(State()), clock)
      ensures unchanged(this`handlers, this`listeners, this`keys, this`mouse, this`touches, this`dragging)
    {
      if running && (counter.None? || counter.value == 0) {
        ghost var trace1 := trace;
        AdvanceTimers(clock);
        RunCallback(UpdateHook);
        if options.autoclear && options.is2D {
          Clear();
        }
        RunCallback(DrawHook);
        AppendThree(trace1, Trigger(handlers, UpdateHook), ClearCalls(options), Trigger(handlers, DrawHook));
      }
    }

    /** The timers of a timed tick: `dt`, `millis`, then `now`. */
    method AdvanceTimers(clock: int)
      requires Timed(State())
      modifies this
      ensures State() == TimersAdvanced(old(State()), clock)
      ensures unchanged(this`trace, this`handlers, this`listeners, this`keys, this`mouse, this`touches, this`dragging)
    {
      dt := if now.Some? then Some(clock - now.value) else None;
      millis := if millis.Some? && dt.Some? then Some(millis.value + dt.value) else None;
      now := Some(clock);
    }

    /** `start()`: running, with `now` at the clock reading. */
    method Start(clock: int)
      requires Valid()
      modifies this
      ensures Valid()
      ensures State() == Started(old(State()), clock)
      ensures unchanged(this`trace, this`handlers, this`listeners)
      ensures unchanged(this`keys, this`mouse, this`touches, this`dragging)
    {
      RunStateKeepsFrameValid(options, State(), Focus, clock);
      now := Some(clock);
      running := true;
    }

    /** `stop()` */
    method Stop()
      requires Valid()
      modifies this
      ensures Valid()
      ensures State() == Stopped(old(State()))
      ensures unchanged(this`trace, this`handlers, this`listeners)
      ensures unchanged(this`keys, this`mouse, this`touches, this`dragging)
    {
      RunStateKeepsFrameValid(options, State(), Blur, 0);
      running := false;
    }

    /** `toggle()` */
    method Toggle(clock: int)
      requires Valid()
      modifies this
      ensures Valid()
      ensures State() == Toggled(old(State()), clock)
      ensures unchanged(this`trace, this`handlers, this`listeners)
      ensures unchanged(this`keys, this`mouse, this`touches, this`dragging)
    {
      if running {
        Stop();
      } else {
        Start(clock);
      }
    }

    /** `clear()`: a 2D canvas is cleared; other contexts are left alone. Setup has
        run as often as before, so `Valid()` is kept. */
    method Clear()
      modifies this
      ensures trace == old(trace) + (if options.is2D then [ClearCanvas] else [])
      ensures SetupCount(trace) == old(SetupCount(trace)) && (old(Valid()) ==> Valid())
      ensures unchanged(this`counter, this`setupDone, this`resized, this`running, this`now, this`dt, this`millis, this`handlers, this`listeners)
      ensures unchanged(this`keys, this`mouse, this`touches, this`dragging)
    {
      if options.is2D {
        CountAppend(trace, [ClearCanvas], Fire(SetupHook));
        trace := trace + [ClearCanvas];
      }
    }

    /** `trigger(context[name])`: the callback runs when the property holds a function.
        The callback's own effects are not part of the model. */
    method RunCallback(c: Callback)
      modifies this
      ensures trace == old(trace) + Trigger(handlers, c)
      ensures unchanged(this`counter, this`setupDone, this`resized, this`running, this`now, this`dt, this`millis, this`handlers, this`listeners)
      ensures unchanged(this`keys, this`mouse, this`touches, this`dragging)
    {
      trace := trace + Trigger(handlers, c);
    }

    /** The `resize` listener: after setup, the user's resize callback runs. Sizing the
        element is a platform call. */
    method ResizeHandler()
      requires Valid()
      modifies this
      ensures Valid()
      ensures trace == old(trace) + (if setupDone then Trigger(handlers, ResizeHook) else [])
      ensures unchanged(this`counter, this`setupDone, this`resized, this`running, this`now, this`dt, this`millis, this`handlers, this`listeners)
      ensures unchanged(this`keys, this`mouse, this`touches, this`dragging)
    {
      if setupDone {
        CountAppend(trace, Trigger(handlers, ResizeHook), Fire(SetupHook));
        trace := trace + Trigger(handlers, ResizeHook);
      }
    }

    /** `active(event)`: with `autopause`, blur stops and any other type starts; then
        the handler named after the type runs. */
    method Active(t: EventType, clock: int)
      requires Valid()
      modifies this
      ensures Valid()
      ensures State() == AfterActive(options, old(State()), t, clock)
      ensures trace == old(trace) + Trigger(handlers, On(t))
      ensures unchanged(this`handlers, this`listeners)
      ensures unchanged(this`keys, this`mouse, this`touches, this`dragging)
    {
      if options.autopause {
        if t == Blur {
          Stop();
        } else {
          Start(clock);
        }
      }
      CountAppend(trace, Trigger(handlers, On(t)), Fire(SetupHook));
      trace := trace + Trigger(handlers, On(t));
    }

    /** `keypress(event)`: both entries of the key take the new state, then the handler
        named after the type runs. */
    method Keypress(code: int, t: EventType)
      requires Valid() && Wired()
      modifies this
      ensures Valid() && Wired()
      ensures keys == PressedKeys(old(keys), code, t == KeyUp)
      ensures trace == old(trace) + Trigger(handlers, On(t))
      ensures unchanged(this`counter, this`setupDone, this`resized, this`running, this`now, this`dt, this`millis, this`handlers, this`listeners)
      ensures unchanged(this`mouse, this`touches, this`dragging)
    {
      keys := PressedKeys(keys, code, t == KeyUp);
      CountAppend(trace, Trigger(handlers, On(t)), Fire(SetupHook));
      trace := trace + Trigger(handlers, On(t));
    }

    /** `pointer(event)`: `process` updates `touches` and `mouse`, the type decides
        `dragging`, and the walk of the type's group runs each handler named in it. */
    method Pointer(event: PointerInput, t: EventType, o: Offset)
      requires Valid()
      modifies this
      ensures Valid()
      ensures Processed(old(touches), old(mouse), event, o, touches, mouse)
      ensures dragging == DraggingAfter(t, old(dragging))
      ensures trace == old(trace) + Fired(handlers, GroupOf(EventMap, t))
      ensures unchanged(this`counter, this`setupDone, this`resized, this`running, this`now, this`dt, this`millis, this`handlers, this`listeners)
      ensures unchanged(this`keys)
    {
      touches, mouse := Process(touches, mouse, event, o);
      Drag(t);
      RunGroup(t);
    }

    /** The walk of the type's group in the event map, running each handler named in it. */
    method RunGroup(t: EventType)
      modifies this
      ensures trace == old(trace) + Fired(handlers, GroupOf(EventMap, t))
      ensures SetupCount(trace) == old(SetupCount(trace))
      ensures unchanged(this`counter, this`setupDone, this`resized, this`running, this`now, this`dt, this`millis)
      ensures unchanged(this`handlers, this`listeners, this`keys, this`mouse, this`touches, this`dragging)
    {
      var names := GroupWalk(EventMap, t);
      RunHandlers(names);
    }

    /** The `dragging` update of `pointer`. */
    method Drag(t: EventType)
      modifies this
      ensures dragging == DraggingAfter(t, old(dragging))
      ensures unchanged(this`counter, this`setupDone, this`resized, this`running, this`now, this`dt, this`millis, this`trace)
      ensures unchanged(this`handlers, this`listeners, this`keys, this`mouse, this`touches)
    {
      dragging := DraggingAfter(t, dragging);
    }

    /** The triggers of `pointer`'s walk, in order. No hook is among them, so setup has
        run as often as before. */
    method RunHandlers(names: seq<EventType>)
      modifies this
      ensures trace == old(trace) + Fired(handlers, names)
      ensures SetupCount(trace) == old(SetupCount(trace))
      ensures unchanged(this`counter, this`setupDone, this`resized, this`running, this`now, this`dt, this`millis)
      ensures unchanged(this`handlers, this`listeners, this`keys, this`mouse, this`touches, this`dragging)
    {
      assert Fire(SetupHook) !in Fired(handlers, names);
      CountAppend(trace, Fired(handlers, names), Fire(SetupHook));
      trace := trace + Fired(handlers, names);
    }

    /** `destroy()`: the context leaves `instances`, its listeners are removed, and it
        stops. Detaching the element is a platform call. */
    method Destroy(registry: Registry)
      requires Valid() && Wired() && registry.Valid()
      modifies this, registry
      ensures Valid() && Wired() && registry.Valid()
      ensures registry.instances == Without(old(registry.instances), this)
      ensures !running && listeners == {}
      ensures State() == Stopped(old(State()))
      ensures unchanged(this`trace, this`handlers)
      ensures unchanged(this`keys, this`mouse, this`touches, this`dragging)
    {
      registry.Remove(this);
      Bind(false);
      Stop();
    }

    /** The user assigning a function to a property of the context, or removing it. */
    method SetHandler(name: string, isFunction: bool)
      requires Valid()
      modifies this
      ensures Valid()
      ensures handlers == if isFunction then old(handlers) + {name} else old(handlers) - {name}
      ensures unchanged(this`counter, this`setupDone, this`resized, this`running, this`now, this`dt, this`millis, this`trace, this`listeners)
      ensures unchanged(this`keys, this`mouse, this`touches, this`dragging)
    {
      if isFunction {
        handlers := handlers + {name};
      } else {
        handlers := handlers - {name};
      }
    }
  }
}
