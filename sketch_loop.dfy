/**
 * The frame loop of a Sketch context as values: `update` (one tick of the animation
 * frame loop), `start`, `stop`, `toggle` and the focus/blur handler `active`, each a
 * function from the loop state before to the loop state after and the calls it makes.
 * Timers are integers, as `+new Date()` gives; NaN is `None`.
 */
module SketchLoop {
  import opened Wrappers
  import opened SketchUtil
  import opened EventTable

  /** The user callbacks the runtime triggers: the four hooks of the loop and the
      handlers named after event types. */
  datatype Callback = SetupHook | ResizeHook | UpdateHook | DrawHook | On(event: EventType)

  /** The property of the context that holds the callback. */
  function Property(c: Callback): string {
    match c
    case SetupHook => "setup"
    case ResizeHook => "resize"
    case UpdateHook => "update"
    case DrawHook => "draw"
    case On(t) => Spelling(t)
  }

  /** What the runtime does that the user sees: a callback run, or the canvas cleared. */
  datatype Call = Fire(callback: Callback) | ClearCanvas

  /** `trigger(context[name])`: the callback runs when its property holds a function;
      `handlers` is the set of properties that do. */
  function Trigger(handlers: set<string>, c: Callback): seq<Call> {
    if Property(c) in handlers then [Fire(c)] else []
  }

  /** The options the loop reads: `autoclear`, `autopause`, `interval`, and whether the
      context is a 2D canvas. */
  datatype Options = Options(autoclear: bool, autopause: bool, interval: int, is2D: bool)

  /** The loop state: `counter`, the once-flags `setup` and `resized`, `running`, and
      the timers `now`, `dt` and `millis`. */
  datatype Frame = Frame(
    counter: Option<int>, setupDone: bool, resized: bool,
    running: bool, now: Option<int>, dt: Option<int>, millis: Option<int>)

  /** The state the constructor leaves before `start`: `now` and `dt` are NaN. */
  const Initial := Frame(Some(0), false, false, false, None, None, Some(0))

  function Abs(n: int): nat {
    if n >= 0 then n else -n
  }

  /** JavaScript's `%` on integers: the remainder takes the sign of the dividend, and a
      zero divisor gives NaN. */
  function JsRemainder(a: int, b: int): (r: Option<int>)
    ensures b == 0 <==> r.None?
    ensures b != 0 && a >= 0 ==> 0 <= r.value < Abs(b)
    ensures b > 0 && a >= 0 ==> r.value == a % b
  {
    if b == 0 then None
    else if a >= 0 then Some(a % Abs(b))
    else Some(-((-a) % Abs(b)))
  }

  /** Whether a tick runs the timed block: `context.running && !counter` (NaN is falsy). */
  predicate Timed(f: Frame) {
    f.running && (f.counter.None? || f.counter.value == 0)
  }

  /** The outcome of a step: the new loop state and the calls made, in order. */
  datatype Step = Step(frame: Frame, calls: seq<Call>)

  /** The calls of the first two steps of `update`: each hook runs until its flag is set. */
  function SetupCalls(handlers: set<string>, f: Frame): seq<Call> {
    if f.setupDone then [] else Trigger(handlers, SetupHook)
  }

  function ResizeCalls(handlers: set<string>, f: Frame): seq<Call> {
    if f.resized then [] else Trigger(handlers, ResizeHook)
  }

  /** `if (context.autoclear && is2D) context.clear()` */
  function ClearCalls(o: Options): seq<Call> {
    if o.autoclear && o.is2D then [ClearCanvas] else []
  }

  /** The calls of the timed block. */
  function TimedCalls(o: Options, handlers: set<string>, f: Frame): seq<Call> {
    if Timed(f) then Trigger(handlers, UpdateHook) + ClearCalls(o) + Trigger(handlers, DrawHook) else []
  }

  /** The calls of `update`: setup until it is defined, resize likewise, then in a
      timed tick update, the clear of `autoclear` on a 2D canvas, and draw. */
  function CallsOfTick(o: Options, handlers: set<string>, f: Frame): seq<Call> {
    SetupCalls(handlers, f) + ResizeCalls(handlers, f) + TimedCalls(o, handlers, f)
  }

  /** The loop state after `update`, for a clock reading `clock`: the flags record
      whether the hooks are defined, a timed tick sets `dt` to the time since `now`, adds
      it to `millis` and moves `now` to the clock, and the counter advances modulo
      `interval`. Scheduling the next frame is a platform call and not part of the value. */
  function FrameOfTick(o: Options, handlers: set<string>, f: Frame, clock: int): Frame {
    CounterAdvanced(o, TimersAdvanced(HooksDone(handlers, f), clock))
  }

  /** The first two steps of `update`: each once-flag records whether its hook is defined. */
  function HooksDone(handlers: set<string>, f: Frame): Frame {
    f.(setupDone := f.setupDone || Property(SetupHook) in handlers,
       resized := f.resized || Property(ResizeHook) in handlers)
  }

  /** The timers of a timed tick: `dt` is the time since `now` (NaN when `now` is), it is
      added to `millis`, and `now` moves to the clock reading. */
  function TimersAdvanced(f: Frame, clock: int): Frame {
    if !Timed(f) then f
    else
      var dt := if f.now.Some? then Some(clock - f.now.value) else None;
      var millis := if f.millis.Some? && dt.Some? then Some(f.millis.value + dt.value) else None;
      f.(dt := dt, millis := millis, now := Some(clock))
  }

  /** `counter = (counter + 1) % interval`; a NaN counter stays NaN. */
  function CounterAdvanced(o: Options, f: Frame): Frame {
    f.(counter := if f.counter.Some? then JsRemainder(f.counter.value + 1, o.interval) else None)
  }

  /** `update` */
  function TickStep(o: Options, handlers: set<string>, f: Frame, clock: int): Step {
    Step(FrameOfTick(o, handlers, f, clock), CallsOfTick(o, handlers, f))
  }

  /** What the loop keeps of its state: the counter is in [0, |interval|) (or NaN once
      the interval has made it so), a running context has a clock reading, and
      `millis` is a number. */
  predicate FrameValid(o: Options, f: Frame) {
    (f.counter.Some? && o.interval != 0 ==> 0 <= f.counter.value < Abs(o.interval))
    && (o.interval != 0 ==> f.counter.Some?)
    && (f.running ==> f.now.Some?)
    && f.millis.Some?
  }

  /** A tick keeps the loop's invariant. */
  lemma TickKeepsFrameValid(o: Options, handlers: set<string>, f: Frame, clock: int)
    requires FrameValid(o, f)
    ensures FrameValid(o, FrameOfTick(o, handlers, f, clock))
  {
  }

  /** So do `start`, `stop` and `toggle`, and `active`. */
  lemma RunStateKeepsFrameValid(o: Options, f: Frame, t: EventType, clock: int)
    requires FrameValid(o, f)
    ensures FrameValid(o, Started(f, clock)) && FrameValid(o, Stopped(f))
    ensures FrameValid(o, Toggled(f, clock)) && FrameValid(o, AfterActive(o, f, t, clock))
  {
  }

  /** Ticks at the clock readings `clocks`, in order. */
  function Run(o: Options, handlers: set<string>, f: Frame, clocks: seq<int>): Step
    decreases |clocks|
  {
    if |clocks| == 0 then Step(f, [])
    else
      var before := Run(o, handlers, f, clocks[..|clocks| - 1]);
      var last := TickStep(o, handlers, before.frame, clocks[|clocks| - 1]);
      Step(last.frame, before.calls + last.calls)
  }

  /** The counter stays in [0, |interval|): each tick advances it by one modulo the
      interval. A zero interval makes it NaN. */
  lemma CounterAdvances(o: Options, handlers: set<string>, f: Frame, clock: int)
    requires f.counter.Some? && f.counter.value >= 0
    ensures var c := TickStep(o, handlers, f, clock).frame.counter;
            (o.interval == 0 <==> c.None?)
            && (o.interval != 0 ==> 0 <= c.value < (if o.interval > 0 then o.interval else -o.interval))
            && (o.interval > 0 ==> c.value == (f.counter.value + 1) % o.interval)
  {
  }

  lemma MulMonotone(d: int, n: int)
    requires d >= 1 && n > 0
    ensures d * n >= n
  {
  }

  /** A quotient and remainder in range are the ones of `%`. */
  lemma ModUnique(a: int, n: int, q: int, r: int)
    requires n > 0 && 0 <= r < n && a == q * n + r
    ensures a % n == r
  {
    var q', r' := a / n, a % n;
    assert (q - q') * n == r' - r;
    if q > q' {
      MulMonotone(q - q', n);
    } else if q < q' {
      MulMonotone(q' - q, n);
    }
  }

  lemma ModuloStep(x: int, n: int)
    requires n > 0
    ensures (x % n + 1) % n == (x + 1) % n
  {
    var q, r := x / n, x % n;
    if r + 1 < n {
      ModUnique(x + 1, n, q, r + 1);
      ModUnique(r + 1, n, 0, r + 1);
    } else {
      assert x + 1 == (q + 1) * n;
      ModUnique(x + 1, n, q + 1, 0);
      ModUnique(n, n, 1, 0);
    }
  }

  /** After k ticks the counter has advanced by k modulo the interval, so the timed
      block runs on every interval-th tick. */
  lemma {:induction false} CounterAfterRun(o: Options, handlers: set<string>, f: Frame, clocks: seq<int>)
    requires o.interval > 0 && f.counter.Some? && 0 <= f.counter.value < o.interval
    ensures Run(o, handlers, f, clocks).frame.counter == Some((f.counter.value + |clocks|) % o.interval)
    decreases |clocks|
  {
    if |clocks| == 0 {
      ModUnique(f.counter.value, o.interval, 0, f.counter.value);
    } else {
      var before := Run(o, handlers, f, clocks[..|clocks| - 1]);
      CounterAfterRun(o, handlers, f, clocks[..|clocks| - 1]);
      CounterAdvances(o, handlers, before.frame, clocks[|clocks| - 1]);
      ModuloStep(f.counter.value + |clocks| - 1, o.interval);
    }
  }

  /** With a zero interval the counter is NaN after the first tick, and every later tick
      of a running context is timed. */
  lemma ZeroIntervalTimesEveryTick(o: Options, handlers: set<string>, f: Frame, clock: int)
    requires o.interval == 0 && f.running
    ensures var f' := TickStep(o, handlers, f, clock).frame;
            f'.counter.None? && Timed(f') && f'.now == if Timed(f) then Some(clock) else f.now
  {
  }

  /** Does a come before b wherever both occur? */
  predicate Precedes(calls: seq<Call>, a: Call, b: Call) {
    forall i, j :: 0 <= i < |calls| && 0 <= j < |calls| && calls[i] == a && calls[j] == b ==> i < j
  }

  /** Which calls one tick makes: setup exactly when it was not yet done and is
      defined, resize likewise, update and draw exactly in a timed tick whose handlers
      define them, and the clear exactly in a timed tick with autoclear on a 2D canvas. */
  lemma TickCalls(o: Options, handlers: set<string>, f: Frame)
    ensures var calls := CallsOfTick(o, handlers, f);
            (Fire(SetupHook) in calls <==> !f.setupDone && Property(SetupHook) in handlers)
            && (Fire(ResizeHook) in calls <==> !f.resized && Property(ResizeHook) in handlers)
            && (Fire(UpdateHook) in calls <==> Timed(f) && Property(UpdateHook) in handlers)
            && (ClearCanvas in calls <==> Timed(f) && o.autoclear && o.is2D)
            && (Fire(DrawHook) in calls <==> Timed(f) && Property(DrawHook) in handlers)
  {
    var s, r, t := SetupCalls(handlers, f), ResizeCalls(handlers, f), TimedCalls(o, handlers, f);
    var u, c, d := Trigger(handlers, UpdateHook), ClearCalls(o), Trigger(handlers, DrawHook);
    assert CallsOfTick(o, handlers, f) == s + r + t;
    assert t == if Timed(f) then u + c + d else [];
  }

  /** a comes before b in x + y when a occurs only in x and b only in y. */
  lemma PrecedesAcross(x: seq<Call>, y: seq<Call>, a: Call, b: Call)
    requires b !in x && a !in y
    ensures Precedes(x + y, a, b)
  {
  }

  /** An order between a and b survives appending calls without a. */
  lemma PrecedesExtend(x: seq<Call>, y: seq<Call>, a: Call, b: Call)
    requires Precedes(x, a, b) && a !in y
    ensures Precedes(x + y, a, b)
  {
  }

  /** Calls that are all the one call k. */
  predicate Only(calls: seq<Call>, k: Call) {
    forall x :: x in calls ==> x == k
  }

  /** The calls come in the order setup, resize, update, clear, draw: of any two of
      these, the earlier one in that order comes first wherever both occur. */
  predicate TickOrdered(calls: seq<Call>) {
    Precedes(calls, Fire(SetupHook), Fire(ResizeHook))
    && Precedes(calls, Fire(SetupHook), Fire(UpdateHook))
    && Precedes(calls, Fire(SetupHook), ClearCanvas)
    && Precedes(calls, Fire(SetupHook), Fire(DrawHook))
    && Precedes(calls, Fire(ResizeHook), Fire(UpdateHook))
    && Precedes(calls, Fire(ResizeHook), ClearCanvas)
    && Precedes(calls, Fire(ResizeHook), Fire(DrawHook))
    && Precedes(calls, Fire(UpdateHook), ClearCanvas)
    && Precedes(calls, Fire(UpdateHook), Fire(DrawHook))
    && Precedes(calls, ClearCanvas, Fire(DrawHook))
  }

  /** Five runs of calls, each of one kind, concatenated in that order are in tick
      order, whichever of the runs are empty. */
  lemma OrderOfRuns(s: seq<Call>, r: seq<Call>, u: seq<Call>, c: seq<Call>, d: seq<Call>)
    requires Only(s, Fire(SetupHook)) && Only(r, Fire(ResizeHook)) && Only(u, Fire(UpdateHook))
    requires Only(c, ClearCanvas) && Only(d, Fire(DrawHook))
    ensures TickOrdered(s + r + u + c + d)
  {
    var calls := s + r + u + c + d;
    assert calls == s + (r + u + c + d) == (s + r) + (u + c + d) == (s + r + u) + (c + d);
    PrecedesAcross(s, r + u + c + d, Fire(SetupHook), Fire(ResizeHook));
    PrecedesAcross(s, r + u + c + d, Fire(SetupHook), Fire(UpdateHook));
    PrecedesAcross(s, r + u + c + d, Fire(SetupHook), ClearCanvas);
    PrecedesAcross(s, r + u + c + d, Fire(SetupHook), Fire(DrawHook));
    PrecedesAcross(s + r, u + c + d, Fire(ResizeHook), Fire(UpdateHook));
    PrecedesAcross(s + r, u + c + d, Fire(ResizeHook), ClearCanvas);
    PrecedesAcross(s + r, u + c + d, Fire(ResizeHook), Fire(DrawHook));
    PrecedesAcross(s + r + u, c + d, Fire(UpdateHook), ClearCanvas);
    PrecedesAcross(s + r + u, c + d, Fire(UpdateHook), Fire(DrawHook));
    PrecedesAcross(s + r + u + c, d, ClearCanvas, Fire(DrawHook));
  }

  /** The order of the calls of one tick: setup, resize, update, clear, draw, each pair
      ordered whether or not the calls between them happen. */
  lemma TickOrder(o: Options, handlers: set<string>, f: Frame)
    ensures TickOrdered(CallsOfTick(o, handlers, f))
  {
    var s, r := SetupCalls(handlers, f), ResizeCalls(handlers, f);
    var u := if Timed(f) then Trigger(handlers, UpdateHook) else [];
    var c := if Timed(f) then ClearCalls(o) else [];
    var d := if Timed(f) then Trigger(handlers, DrawHook) else [];
    assert CallsOfTick(o, handlers, f) == s + r + u + c + d;
    OrderOfRuns(s, r, u, c, d);
  }

  /** A tick that does not run the timed block (the context is stopped, or the counter
      is not 0) leaves the timers and `running` as they were. */
  lemma UntimedTickKeepsTimers(o: Options, handlers: set<string>, f: Frame, clock: int)
    requires !Timed(f)
    ensures var f' := TickStep(o, handlers, f, clock).frame;
            f'.now == f.now && f'.dt == f.dt && f'.millis == f.millis && f'.running == f.running
  {
  }

  /** A timed tick measures `dt` from `now` to the clock reading, adds it to `millis`
      and moves `now` to the clock; a NaN `now` makes `dt` and `millis` NaN. */
  lemma TimedTickAdvancesTimers(o: Options, handlers: set<string>, f: Frame, clock: int)
    requires Timed(f)
    ensures var f' := TickStep(o, handlers, f, clock).frame;
            f'.now == Some(clock) && f'.running
            && (f.now.Some? ==> f'.dt == Some(clock - f.now.value))
            && (f.now.Some? && f.millis.Some? ==> f'.millis == Some(f.millis.value + (clock - f.now.value)))
            && (f.now.None? ==> f'.dt.None? && f'.millis.None?)
            && (f.millis.None? ==> f'.millis.None?)
  {
  }

  /** Over any run of a context that is running with defined timers, `millis` grows by
      exactly as much as `now` advances: each timed tick adds `dt = clock - now` and
      then sets `now` to the clock. */
  lemma {:induction false} TimersTelescope(o: Options, handlers: set<string>, f: Frame, clocks: seq<int>)
    requires f.running && f.now.Some? && f.millis.Some?
    ensures var f' := Run(o, handlers, f, clocks).frame;
            f'.running && f'.now.Some? && f'.millis.Some?
            && f'.millis.value - f.millis.value == f'.now.value - f.now.value
    decreases |clocks|
  {
    if |clocks| > 0 {
      TimersTelescope(o, handlers, f, clocks[..|clocks| - 1]);
    }
  }

  /** How many times the calls run setup. */
  function SetupCount(calls: seq<Call>): nat {
    Count(calls, Fire(SetupHook))
  }

  /** One tick runs setup once when it was not yet done and is defined, and otherwise
      not at all. */
  lemma TickSetupCount(o: Options, handlers: set<string>, f: Frame)
    ensures SetupCount(CallsOfTick(o, handlers, f))
         == if !f.setupDone && Property(SetupHook) in handlers then 1 else 0
  {
    var s, r, t := SetupCalls(handlers, f), ResizeCalls(handlers, f), TimedCalls(o, handlers, f);
    NoSetupAfterFirstStep(o, handlers, f);
    Regroup(s, r, t);
    CountAppend(s, r + t, Fire(SetupHook));
  }

  /** Only the first step of `update` can run setup. */
  lemma NoSetupAfterFirstStep(o: Options, handlers: set<string>, f: Frame)
    ensures Fire(SetupHook) !in ResizeCalls(handlers, f) + TimedCalls(o, handlers, f)
  {
    if Timed(f) {
      var u, c, d := Trigger(handlers, UpdateHook), ClearCalls(o), Trigger(handlers, DrawHook);
      assert Fire(SetupHook) !in u && Fire(SetupHook) !in c && Fire(SetupHook) !in d;
    }
  }

  /** A tick appended to calls that ran setup once exactly when the flag was set keeps
      that so, and keeps the loop's invariant. */
  lemma TickKeepsCount(o: Options, handlers: set<string>, f: Frame, clock: int, calls: seq<Call>)
    requires SetupCount(calls) == (if f.setupDone then 1 else 0) && FrameValid(o, f)
    ensures var g := FrameOfTick(o, handlers, f, clock);
            SetupCount(calls + CallsOfTick(o, handlers, f)) == (if g.setupDone then 1 else 0)
            && FrameValid(o, g)
  {
    TickSetupCount(o, handlers, f);
    CountAppend(calls, CallsOfTick(o, handlers, f), Fire(SetupHook));
    TickKeepsFrameValid(o, handlers, f, clock);
  }

  /** Setup runs at most once over any run: the runs so far plus the flag's start value
      account for the flag at the end. */
  lemma {:induction false} SetupAtMostOnce(o: Options, handlers: set<string>, f: Frame, clocks: seq<int>)
    ensures var r := Run(o, handlers, f, clocks);
            SetupCount(r.calls) + (if f.setupDone then 1 else 0) == (if r.frame.setupDone then 1 else 0)
    decreases |clocks|
  {
    if |clocks| > 0 {
      var before := Run(o, handlers, f, clocks[..|clocks| - 1]);
      var last := TickStep(o, handlers, before.frame, clocks[|clocks| - 1]);
      SetupAtMostOnce(o, handlers, f, clocks[..|clocks| - 1]);
      TickSetupCount(o, handlers, before.frame);
      CountAppend(before.calls, last.calls, Fire(SetupHook));
    }
  }

  /** `start`: running, with `now` at the clock. */
  function Started(f: Frame, clock: int): Frame {
    f.(running := true, now := Some(clock))
  }

  /** `stop` */
  function Stopped(f: Frame): Frame {
    f.(running := false)
  }

  /** `toggle`: stop a running context, start a stopped one. */
  function Toggled(f: Frame, clock: int): (r: Frame)
    ensures r.running == !f.running
  {
    if f.running then Stopped(f) else Started(f, clock)
  }

  /** Toggling twice restores `running` and, from a running context, leaves `now` at
      the second clock reading. */
  lemma ToggleTwice(f: Frame, c1: int, c2: int)
    ensures Toggled(Toggled(f, c1), c2).running == f.running
    ensures f.running ==> Toggled(Toggled(f, c1), c2) == f.(now := Some(c2))
    ensures !f.running ==> Toggled(Toggled(f, c1), c2) == f.(now := Some(c1))
  {
  }

  /** `active`: with `autopause`, a blur stops the context and any other type (the focus
      it is bound to) starts it; without it nothing changes. */
  function AfterActive(o: Options, f: Frame, t: EventType, clock: int): (r: Frame)
    ensures o.autopause && t == Blur ==> !r.running && r.now == f.now
    ensures o.autopause && t != Blur ==> r.running && r.now == Some(clock)
    ensures !o.autopause ==> r == f
    ensures r.counter == f.counter && r.setupDone == f.setupDone && r.resized == f.resized
    ensures r.dt == f.dt && r.millis == f.millis
  {
    if !o.autopause then f else if t == Blur then Stopped(f) else Started(f, clock)
  }

  /** A blur followed by a focus, with `autopause`, resumes the context from the focus's
      clock reading; the time in between is not added to `millis` by the next tick. */
  lemma BlurThenFocusResumes(o: Options, handlers: set<string>, f: Frame, blurClock: int, focusClock: int, clock: int)
    requires o.autopause && f.millis.Some?
    ensures var g := AfterActive(o, AfterActive(o, f, Blur, blurClock), Focus, focusClock);
            g.running && g.now == Some(focusClock)
            && (Timed(g) ==> TickStep(o, handlers, g, clock).frame.millis == Some(f.millis.value + (clock - focusClock)))
  {
  }

  /** The triggers of `pointer`'s walk: each name of the group, in walk order, runs the
      handler of that name if it is defined. */
  function Fired(handlers: set<string>, names: seq<EventType>): (r: seq<Call>)
    ensures forall c :: c in r ==> c.Fire? && c.callback.On? && c.callback.event in names
  {
    if |names| == 0 then []
    else Trigger(handlers, On(names[0])) + Fired(handlers, names[1..])
  }

  /** Over names without repetitions, each defined handler among them runs exactly once
      and no other runs. */
  lemma {:induction false} FiredOnce(handlers: set<string>, names: seq<EventType>, t: EventType)
    requires Distinct(names)
    ensures Count(Fired(handlers, names), Fire(On(t))) == if t in names && Spelling(t) in handlers then 1 else 0
  {
    if |names| > 0 {
      DistinctTail(names);
      FiredOnce(handlers, names[1..], t);
      CountAppend(Trigger(handlers, On(names[0])), Fired(handlers, names[1..]), Fire(On(t)));
      assert t in names <==> t == names[0] || t in names[1..];
    }
  }

  /** The group of a pointer type holds the type itself and no name twice. */
  lemma PointerGroupIsDistinct(t: EventType)
    requires t in PointerTypes
    ensures t in GroupOf(EventMap, t) && Distinct(GroupOf(EventMap, t))
  {
    match t {
      case MouseDown => PressGroup();
      case TouchStart => PressGroup();
      case MouseMove => MoveGroup();
      case TouchMove => MoveGroup();
      case MouseUp => ReleaseGroup();
      case TouchEnd => ReleaseGroup();
      case Click => ClickGroup();
      case MouseOut => OutGroup();
      case MouseOver => OverGroup();
    }
  }

  /** A pointer event runs every defined handler of its group exactly once, its own
      among them, and no other handler. */
  lemma PointerFiresGroupOnce(handlers: set<string>, t: EventType, n: EventType)
    requires t in PointerTypes
    ensures var calls := Fired(handlers, GroupOf(EventMap, t));
            Count(calls, Fire(On(n))) == (if n in GroupOf(EventMap, t) && Spelling(n) in handlers then 1 else 0)
            && (Fire(On(t)) in calls <==> Spelling(t) in handlers)
  {
    PointerGroupIsDistinct(t);
    FiredOnce(handlers, GroupOf(EventMap, t), n);
    FiredOnce(handlers, GroupOf(EventMap, t), t);
  }
}
