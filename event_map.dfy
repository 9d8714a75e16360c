/**
 * The `eventMap` of a Sketch context: a flat list in which an event target is
 * followed by groups, each group a listener followed by the event type names it
 * handles. `bind` walks it to register listeners, and `pointer` walks the group of the
 * incoming type to trigger every user handler named in it.
 */
module EventTable {
  import opened SketchUtil

  datatype EventTarget = Element | Document | Window

  /** The runtime's own listeners. */
  datatype Listener = Pointer | Keypress | Active | Resize

  /** The event types the map names. */
  datatype EventType =
    | MouseDown | TouchStart | MouseMove | TouchMove | MouseUp | TouchEnd
    | Click | MouseOut | MouseOver | KeyDown | KeyUp | Focus | Blur | ResizeEvent

  /** The type's name, which is also the property of the context holding its user handler. */
  function Spelling(t: EventType): string {
    match t
    case MouseDown => "mousedown"
    case TouchStart => "touchstart"
    case MouseMove => "mousemove"
    case TouchMove => "touchmove"
    case MouseUp => "mouseup"
    case TouchEnd => "touchend"
    case Click => "click"
    case MouseOut => "mouseout"
    case MouseOver => "mouseover"
    case KeyDown => "keydown"
    case KeyUp => "keyup"
    case Focus => "focus"
    case Blur => "blur"
    case ResizeEvent => "resize"
  }

  datatype Entry = Target(target: EventTarget) | Handler(listener: Listener) | Name(name: EventType)

  /** The groups of the `eventMap` of the constructor: a listener and the names it handles. */
  const PressEntries: seq<Entry> := [Handler(Pointer), Name(MouseDown), Name(TouchStart)]
  const MoveEntries: seq<Entry> := [Handler(Pointer), Name(MouseMove), Name(TouchMove)]
  const ReleaseEntries: seq<Entry> := [Handler(Pointer), Name(MouseUp), Name(TouchEnd)]
  const ClickEntries: seq<Entry> := [Handler(Pointer), Name(Click)]
  const OutEntries: seq<Entry> := [Handler(Pointer), Name(MouseOut)]
  const OverEntries: seq<Entry> := [Handler(Pointer), Name(MouseOver)]
  const KeyEntries: seq<Entry> := [Handler(Keypress), Name(KeyDown), Name(KeyUp)]
  const ActiveEntries: seq<Entry> := [Handler(Active), Name(Focus), Name(Blur)]
  const ResizeEntries: seq<Entry> := [Handler(Resize), Name(ResizeEvent)]

  /** The element's six pointer groups, and the element's part of the map. */
  const PointerEntries: seq<Entry> :=
    PressEntries + (MoveEntries + (ReleaseEntries + (ClickEntries + (OutEntries + OverEntries))))

  const ElementEntries: seq<Entry> := [Target(Element)] + PointerEntries

  const DocumentEntries: seq<Entry> := [Target(Document)] + KeyEntries

  const WindowEntries: seq<Entry> := [Target(Window)] + ActiveEntries + ResizeEntries

  /** The `eventMap` of the constructor, written as the concatenation of its parts. */
  const EventMap: seq<Entry> := ElementEntries + DocumentEntries + WindowEntries

  /** One registration made by `bind`: a listener for an event type on a target. */
  datatype Binding = Binding(target: EventTarget, name: EventType, listener: Listener)

  /** Reference definition of the walk of `bind`: with the most recently seen target and
      listener, every type name is registered. */
  function Bindings(m: seq<Entry>, target: EventTarget, listener: Listener): seq<Binding> {
    if |m| == 0 then []
    else match m[0]
      case Name(n) => [Binding(target, n, listener)] + Bindings(m[1..], target, listener)
      case Handler(l) => Bindings(m[1..], target, l)
      case Target(t) => Bindings(m[1..], t, listener)
  }

  /** Every registration names a type of the map, and each type of the map is registered. */
  lemma {:induction false} BindingsCoverNames(m: seq<Entry>, target: EventTarget, listener: Listener)
    ensures forall b :: b in Bindings(m, target, listener) ==> Name(b.name) in m
    ensures forall j :: 0 <= j < |m| && m[j].Name? ==>
              exists b :: b in Bindings(m, target, listener) && b.name == m[j].name
  {
    if |m| > 0 {
      var t' := if m[0].Target? then m[0].target else target;
      var l' := if m[0].Handler? then m[0].listener else listener;
      BindingsCoverNames(m[1..], t', l');
      assert m == [m[0]] + m[1..];
      forall j | 1 <= j < |m| ensures m[j] == m[1..][j - 1] { }
      if m[0].Name? {
        assert Binding(target, m[0].name, listener) in Bindings(m, target, listener);
      }
    }
  }

  /** A part that opens with its own target and listener registers the same whatever
      the walk remembered before it. */
  lemma PartStartsAfresh(b: seq<Entry>, t: EventTarget, l: Listener, t': EventTarget, l': Listener)
    requires |b| >= 2 && b[0].Target? && b[1].Handler?
    ensures Bindings(b, t, l) == Bindings(b, t', l')
  {
    assert b[1..][0] == b[1];
  }

  /** The walk over two parts, the second opening with a target and a listener, is the
      walk over each. */
  lemma {:induction false} BindingsAppend(a: seq<Entry>, b: seq<Entry>, t: EventTarget, l: Listener)
    requires |b| >= 2 && b[0].Target? && b[1].Handler?
    ensures Bindings(a + b, t, l) == Bindings(a, t, l) + Bindings(b, t, l)
  {
    if |a| == 0 {
      assert a + b == b;
    } else {
      assert (a + b)[1..] == a[1..] + b;
      var t' := if a[0].Target? then a[0].target else t;
      var l' := if a[0].Handler? then a[0].listener else l;
      BindingsAppend(a[1..], b, t', l');
      PartStartsAfresh(b, t, l, t', l');
    }
  }

  /** `bind`'s loop: the listener and the target are remembered as the walk meets them,
      starting from whatever the closure's variables hold. The registration calls
      themselves are platform calls and are represented by the list of registrations. */
  method BindWalk(m: seq<Entry>, target0: EventTarget, handler0: Listener) returns (bindings: seq<Binding>)
    ensures bindings == Bindings(m, target0, handler0)
  {
    bindings := [];
    var target, handler := target0, handler0;
    var index := 0;
    while index < |m|
      invariant 0 <= index <= |m|
      invariant bindings + Bindings(m[index..], target, handler) == Bindings(m, target0, handler0)
    {
      assert m[index..][1..] == m[index + 1..];
      match m[index] {
        case Name(n) =>
          bindings := bindings + [Binding(target, n, handler)];
        case Handler(l) =>
          handler := l;
        case Target(t) =>
          target := t;
      }
      index := index + 1;
    }
  }

  /** The walk over groups with no target among them: each group is walked on its own,
      since every group opens with its listener. */
  lemma {:induction false} GroupsAppend(a: seq<Entry>, b: seq<Entry>, t: EventTarget, l: Listener)
    requires forall i :: 0 <= i < |a| ==> !a[i].Target?
    requires |b| > 0 && b[0].Handler?
    ensures Bindings(a + b, t, l) == Bindings(a, t, l) + Bindings(b, t, l)
  {
    if |a| == 0 {
      assert a + b == b;
    } else {
      assert (a + b)[1..] == a[1..] + b;
      var l' := if a[0].Handler? then a[0].listener else l;
      GroupsAppend(a[1..], b, t, l');
    }
  }

  /** A group of a listener and two names registers both names for that listener. */
  lemma PairBindings(t: EventTarget, l0: Listener, l: Listener, a: EventType, b: EventType)
    ensures Bindings([Handler(l), Name(a), Name(b)], t, l0) == [Binding(t, a, l), Binding(t, b, l)]
  {
    assert [Handler(l), Name(a), Name(b)][1..] == [Name(a), Name(b)];
    assert [Name(a), Name(b)][1..] == [Name(b)];
    assert Bindings([Name(b)], t, l) == [Binding(t, b, l)];
  }

  /** A group of a listener and one name registers that name for that listener. */
  lemma SingleBindings(t: EventTarget, l0: Listener, l: Listener, a: EventType)
    ensures Bindings([Handler(l), Name(a)], t, l0) == [Binding(t, a, l)]
  {
    assert [Handler(l), Name(a)][1..] == [Name(a)];
    assert Bindings([Name(a)], t, l) == [Binding(t, a, l)];
  }

  /** The three one-name pointer groups register their names on the element. */
  lemma SingleGroupsRouting(l: Listener)
    ensures Bindings(ClickEntries + (OutEntries + OverEntries), Element, l) ==
              [Binding(Element, Click, Pointer), Binding(Element, MouseOut, Pointer),
               Binding(Element, MouseOver, Pointer)]
  {
    GroupsAppend(OutEntries, OverEntries, Element, l);
    GroupsAppend(ClickEntries, OutEntries + OverEntries, Element, l);
    SingleBindings(Element, l, Pointer, Click);
    SingleBindings(Element, l, Pointer, MouseOut);
    SingleBindings(Element, l, Pointer, MouseOver);
  }

  /** The six pointer groups register their names on the element for `pointer`. */
  lemma PointerRouting(l: Listener)
    ensures Bindings(PointerEntries, Element, l) == [
              Binding(Element, MouseDown, Pointer), Binding(Element, TouchStart, Pointer),
              Binding(Element, MouseMove, Pointer), Binding(Element, TouchMove, Pointer),
              Binding(Element, MouseUp, Pointer), Binding(Element, TouchEnd, Pointer),
              Binding(Element, Click, Pointer), Binding(Element, MouseOut, Pointer),
              Binding(Element, MouseOver, Pointer)]
  {
    var singles := ClickEntries + (OutEntries + OverEntries);
    SingleGroupsRouting(l);
    GroupsAppend(ReleaseEntries, singles, Element, l);
    GroupsAppend(MoveEntries, ReleaseEntries + singles, Element, l);
    GroupsAppend(PressEntries, MoveEntries + (ReleaseEntries + singles), Element, l);
    PairBindings(Element, l, Pointer, MouseDown, TouchStart);
    PairBindings(Element, l, Pointer, MouseMove, TouchMove);
    PairBindings(Element, l, Pointer, MouseUp, TouchEnd);
  }

  /** The routing `bind` sets up, whatever its variables held before: pointer types on
      the element, key types on the document, focus, blur and resize on the window. */
  lemma Routing(t: EventTarget, l: Listener)
    ensures Bindings(EventMap, t, l) == [
              Binding(Element, MouseDown, Pointer), Binding(Element, TouchStart, Pointer),
              Binding(Element, MouseMove, Pointer), Binding(Element, TouchMove, Pointer),
              Binding(Element, MouseUp, Pointer), Binding(Element, TouchEnd, Pointer),
              Binding(Element, Click, Pointer), Binding(Element, MouseOut, Pointer),
              Binding(Element, MouseOver, Pointer),
              Binding(Document, KeyDown, Keypress), Binding(Document, KeyUp, Keypress),
              Binding(Window, Focus, Active), Binding(Window, Blur, Active),
              Binding(Window, ResizeEvent, Resize)]
  {
    BindingsAppend(ElementEntries + DocumentEntries, WindowEntries, t, l);
    BindingsAppend(ElementEntries, DocumentEntries, t, l);
    assert ElementEntries[1..] == PointerEntries;
    PointerRouting(l);
    assert DocumentEntries[1..] == KeyEntries;
    assert WindowEntries[1..] == ActiveEntries + ResizeEntries;
    GroupsAppend(ActiveEntries, ResizeEntries, Window, l);
    PairBindings(Document, l, Keypress, KeyDown, KeyUp);
    PairBindings(Window, l, Active, Focus, Blur);
    SingleBindings(Window, l, Resize, ResizeEvent);
  }

  /** Is position i a type name? Positions outside the map hold `undefined`. */
  predicate IsName(m: seq<Entry>, i: int) {
    0 <= i < |m| && m[i].Name?
  }

  /** What is left of the walk: the steps down to 0, the steps up to the end of the map,
      and the test that ends it. */
  function WalkLeft(m: seq<Entry>, min: int, max: int): nat
    requires max <= |m|
  {
    (if min > 0 then min else 0) + (|m| - max) + (if min != 0 then 1 else 0)
  }

  /** Reference definition of the loop of `pointer`: `while (min)`, trigger the name at
      min and step down while there is one, otherwise trigger the name at max and step
      up while there is one, otherwise stop. */
  function Walk(m: seq<Entry>, min: int, max: int): (r: seq<EventType>)
    requires max <= |m|
    decreases WalkLeft(m, min, max)
  {
    if min == 0 then []
    else if IsName(m, min) then [m[min].name] + Walk(m, min - 1, max)
    else if IsName(m, max) then [m[max].name] + Walk(m, min, max + 1)
    else []
  }

  /** Every name the walk visits is a type name of the map. */
  lemma {:induction false} WalkVisitsNames(m: seq<Entry>, min: int, max: int)
    requires max <= |m|
    ensures forall n :: n in Walk(m, min, max) ==> Name(n) in m
    decreases WalkLeft(m, min, max)
  {
    if min != 0 {
      if IsName(m, min) {
        WalkVisitsNames(m, min - 1, max);
      } else if IsName(m, max) {
        WalkVisitsNames(m, min, max + 1);
      }
    }
  }

  /** The walk of `pointer` for an event type: it starts below and at the type's position. */
  function GroupOf(m: seq<Entry>, name: EventType): seq<EventType> {
    var i := IndexOf(m, Name(name));
    Walk(m, i - 1, i)
  }

  /** The walk of a type triggers only type names of the map. */
  lemma GroupNamesInMap(m: seq<Entry>, name: EventType)
    ensures forall n :: n in GroupOf(m, name) ==> Name(n) in m
  {
    var i := IndexOf(m, Name(name));
    WalkVisitsNames(m, i - 1, i);
  }

  /** `pointer`'s loop, proved to compute the walk. */
  method GroupWalk(m: seq<Entry>, name: EventType) returns (names: seq<EventType>)
    ensures names == GroupOf(m, name)
  {
    var max := IndexOf(m, Name(name));
    var min := max - 1;
    ghost var group := Walk(m, min, max);
    names := [];
    while min != 0
      invariant max <= |m|
      invariant names + Walk(m, min, max) == group
      decreases WalkLeft(m, min, max)
    {
      if IsName(m, min) {
        Regroup(names, [m[min].name], Walk(m, min - 1, max));
        names := names + [m[min].name];
        min := min - 1;
      } else if IsName(m, max) {
        Regroup(names, [m[max].name], Walk(m, min, max + 1));
        names := names + [m[max].name];
        max := max + 1;
      } else {
        min := 0;
      }
    }
  }

  /** The types `pointer` is bound to. */
  const PointerTypes: set<EventType> :=
    {MouseDown, TouchStart, MouseMove, TouchMove, MouseUp, TouchEnd, Click, MouseOut, MouseOver}

  /** A group of a listener and two names, after a nonempty part that names neither and
      before an entry that is not a name: either name triggers both, in declared order. */
  lemma PairGroup(pre: seq<Entry>, post: seq<Entry>, l: Listener, a: EventType, b: EventType)
    requires |pre| > 0 && Name(a) !in pre && Name(b) !in pre && a != b
    requires |post| == 0 || !post[0].Name?
    ensures GroupOf(pre + [Handler(l), Name(a), Name(b)] + post, a) == [a, b]
    ensures GroupOf(pre + [Handler(l), Name(a), Name(b)] + post, b) == [a, b]
  {
    var m := pre + [Handler(l), Name(a), Name(b)] + post;
    var p := |pre|;
    assert m[p] == Handler(l) && m[p + 1] == Name(a) && m[p + 2] == Name(b);
    assert m[..p + 1] == pre + [Handler(l)];
    assert m[..p + 2] == pre + [Handler(l), Name(a)];
    IndexOfFirst(m, Name(a), p + 1);
    IndexOfFirst(m, Name(b), p + 2);
    PairWalk(m, p, a, b);
  }

  /** The walks from the two names of a group of two, which starts after position p
      and ends before position p + 3. */
  lemma PairWalk(m: seq<Entry>, p: int, a: EventType, b: EventType)
    requires 0 < p && p + 2 < |m|
    requires !IsName(m, p) && m[p + 1] == Name(a) && m[p + 2] == Name(b) && !IsName(m, p + 3)
    ensures Walk(m, p, p + 1) == [a, b] && Walk(m, p + 1, p + 2) == [a, b]
  {
    assert Walk(m, p, p + 3) == [];
    assert Walk(m, p, p + 2) == [b];
  }

  /** A group of a listener and one name, placed likewise: the name triggers itself alone. */
  lemma SingleGroup(pre: seq<Entry>, post: seq<Entry>, l: Listener, a: EventType)
    requires |pre| > 0 && Name(a) !in pre
    requires |post| == 0 || !post[0].Name?
    ensures GroupOf(pre + [Handler(l), Name(a)] + post, a) == [a]
  {
    var m := pre + [Handler(l), Name(a)] + post;
    var p := |pre|;
    assert m[p] == Handler(l) && m[p + 1] == Name(a);
    assert m[..p + 1] == pre + [Handler(l)];
    IndexOfFirst(m, Name(a), p + 1);
    assert !IsName(m, p) && !IsName(m, p + 2);
    assert Walk(m, p, p + 2) == [];
  }

  /** Each pointer type triggers its whole group, once per name, the mouse name first:
      mousedown and touchstart trigger both handlers ... */
  lemma PressGroup()
    ensures GroupOf(EventMap, MouseDown) == [MouseDown, TouchStart]
    ensures GroupOf(EventMap, TouchStart) == [MouseDown, TouchStart]
  {
    var post := MoveEntries + ReleaseEntries + ClickEntries + OutEntries + OverEntries
                + DocumentEntries + WindowEntries;
    assert EventMap == [Target(Element)] + PressEntries + post;
    PairGroup([Target(Element)], post, Pointer, MouseDown, TouchStart);
  }

  /** ... so do mousemove and touchmove ... */
  lemma MoveGroup()
    ensures GroupOf(EventMap, MouseMove) == [MouseMove, TouchMove]
    ensures GroupOf(EventMap, TouchMove) == [MouseMove, TouchMove]
  {
    var pre := [Target(Element)] + PressEntries;
    var post := ReleaseEntries + ClickEntries + OutEntries + OverEntries + DocumentEntries + WindowEntries;
    assert EventMap == pre + MoveEntries + post;
    PairGroup(pre, post, Pointer, MouseMove, TouchMove);
  }

  /** ... and mouseup and touchend ... */
  lemma ReleaseGroup()
    ensures GroupOf(EventMap, MouseUp) == [MouseUp, TouchEnd]
    ensures GroupOf(EventMap, TouchEnd) == [MouseUp, TouchEnd]
  {
    var pre := [Target(Element)] + PressEntries + MoveEntries;
    var post := ClickEntries + OutEntries + OverEntries + DocumentEntries + WindowEntries;
    assert EventMap == pre + ReleaseEntries + post;
    PairGroup(pre, post, Pointer, MouseUp, TouchEnd);
  }

  /** ... while click, mouseout and mouseover trigger their own handler alone. */
  lemma ClickGroup()
    ensures GroupOf(EventMap, Click) == [Click]
  {
    var pre := [Target(Element)] + PressEntries + MoveEntries + ReleaseEntries;
    var post := OutEntries + OverEntries + DocumentEntries + WindowEntries;
    assert EventMap == pre + ClickEntries + post;
    SingleGroup(pre, post, Pointer, Click);
  }

  lemma OutGroup()
    ensures GroupOf(EventMap, MouseOut) == [MouseOut]
  {
    var pre := [Target(Element)] + PressEntries + MoveEntries + ReleaseEntries + ClickEntries;
    var post := OverEntries + DocumentEntries + WindowEntries;
    assert EventMap == pre + OutEntries + post;
    SingleGroup(pre, post, Pointer, MouseOut);
  }

  lemma OverGroup()
    ensures GroupOf(EventMap, MouseOver) == [MouseOver]
  {
    var pre := [Target(Element)] + PressEntries + MoveEntries + ReleaseEntries + ClickEntries + OutEntries;
    var post := DocumentEntries + WindowEntries;
    assert EventMap == pre + OverEntries + post;
    SingleGroup(pre, post, Pointer, MouseOver);
  }

  /** A type the map does not hold triggers nothing. */
  lemma UnknownTypeTriggersNothing(m: seq<Entry>, name: EventType)
    requires Name(name) !in m
    ensures GroupOf(m, name) == []
  {
  }
}
