/**
 * The pointer state of a Sketch context: `align`, `augment` and `process` turn a mouse
 * or touch event into the `touches` list and the `mouse` record, and `pointer` decides
 * from the event type whether the pointer is being dragged.
 */
module SketchPointer {
  import opened Wrappers
  import opened SketchUtil
  import opened EventTable

  /** A pointer record: its position, the position it is measured from, and the
      difference between the two. */
  datatype Sample = Sample(x: real, y: real, ox: real, oy: real, dx: real, dy: real)

  /** The `mouse` record a context starts with. */
  const Rest := Sample(0.0, 0.0, 0.0, 0.0, 0.0, 0.0)

  /** A contact point of an event, in page coordinates. */
  datatype Contact = Contact(pageX: real, pageY: real)

  /** Where the element sits: its bounding box's left and top, and the page's scroll
      offsets, as the platform reports them. */
  datatype Offset = Offset(left: real, top: real, scrollX: real, scrollY: real)

  /** `align`: page coordinates made relative to the element. */
  function AlignX(c: Contact, o: Offset): real { c.pageX - o.left - o.scrollX }
  function AlignY(c: Contact, o: Offset): real { c.pageY - o.top - o.scrollY }

  /** `augment(touch, target)`: the new sample of a contact. The sample it is measured
      from is the previous one of the same slot, when that exists and its coordinate is
      not 0 (`target.x || touch.x`): a previous coordinate 0 counts as no previous sample,
      axis by axis. */
  function Augment(c: Contact, o: Offset, prev: Option<Sample>): (r: Sample)
    ensures r.x == AlignX(c, o) && r.y == AlignY(c, o)
    ensures r.dx == (if prev.Some? && prev.value.x != 0.0 then r.x - prev.value.x else 0.0)
    ensures r.dy == (if prev.Some? && prev.value.y != 0.0 then r.y - prev.value.y else 0.0)
  {
    var x, y := AlignX(c, o), AlignY(c, o);
    var ox := if prev.Some? && prev.value.x != 0.0 then prev.value.x else x;
    var oy := if prev.Some? && prev.value.y != 0.0 then prev.value.y else y;
    Sample(x, y, ox, oy, x - ox, y - oy)
  }

  /** A pointer that has not moved since its last sample reports no movement. */
  lemma RestingPointerHasNoMovement(c: Contact, o: Offset, prev: Option<Sample>)
    ensures var s := Augment(c, o, Some(Augment(c, o, prev)));
            s.dx == 0.0 && s.dy == 0.0 && s.ox == s.x && s.oy == s.y
  {
  }

  /** The quirk of `||`: a pointer leaving the edge x = 0 reports no horizontal movement. */
  lemma MovementFromZeroIsLost()
    ensures Augment(Contact(5.0, 0.0), Offset(0.0, 0.0, 0.0, 0.0), Some(Rest)).dx == 0.0
  {
  }

  /** The previous sample of slot i, if the list had one there. */
  function SlotBefore(touches: seq<Sample>, i: int): Option<Sample> {
    if 0 <= i < |touches| then Some(touches[i]) else None
  }

  /** The event `process` receives: a mouse event with its one contact, or a touch event
      with the list of current contacts. */
  datatype PointerInput = MouseInput(page: Contact) | TouchInput(contacts: seq<Contact>)

  /** What `process` makes of `touches` and `mouse`: the new `touches` list has one slot
      per contact, each measured against the same slot's previous sample; for a mouse
      event it holds the one new mouse sample. `mouse` then takes the first slot's
      values, and stays as it was when a touch event leaves no contact. */
  predicate Processed(touches: seq<Sample>, mouse: Sample, event: PointerInput, o: Offset,
                      touches': seq<Sample>, mouse': Sample)
  {
    (event.MouseInput? ==> touches' == [Augment(event.page, o, Some(mouse))] && mouse' == touches'[0])
    && (event.TouchInput? ==>
          |touches'| == |event.contacts|
          && (forall i :: 0 <= i < |touches'| ==>
                touches'[i] == Augment(event.contacts[i], o, SlotBefore(touches, i)))
          && mouse' == (if |touches'| > 0 then touches'[0] else mouse))
  }

  /** `process` */
  method Process(touches: seq<Sample>, mouse: Sample, event: PointerInput, o: Offset)
    returns (touches': seq<Sample>, mouse': Sample)
    ensures Processed(touches, mouse, event, o, touches', mouse')
  {
    match event {
      case MouseInput(page) =>
        touches' := [Augment(page, o, Some(mouse))];
      case TouchInput(contacts) =>
        var n := |contacts|;
        // `touches.length = n`: slots past the old end are holes
        var slots: seq<Option<Sample>> := seq(n, i => SlotBefore(touches, i));
        var index := 0;
        while index < n
          invariant 0 <= index <= n && |slots| == n
          invariant forall i :: 0 <= i < index ==>
                      slots[i] == Some(Augment(contacts[i], o, SlotBefore(touches, i)))
          invariant forall i :: index <= i < n ==> slots[i] == SlotBefore(touches, i)
        {
          slots := slots[index := Some(Augment(contacts[index], o, slots[index]))];
          index := index + 1;
        }
        touches' := seq(n, i requires 0 <= i < n => slots[i].value);
    }
    // `extend(mouse, touches[0], true)`
    mouse' := if |touches'| > 0 then touches'[0] else mouse;
  }

  /** The `dragging` update of `pointer`: a type whose name contains "down" or "start"
      starts a drag, then one containing "up" or "end" ends it, any other keeps it. */
  function DraggingAfter(t: EventType, dragging: bool): bool {
    var s := Spelling(t);
    if Contains(s, "down") || Contains(s, "start") then true
    else if Contains(s, "up") || Contains(s, "end") then false
    else dragging
  }

  /** A name without 'w' and 'a' contains neither word that starts a drag. */
  lemma NoDragStart(s: string)
    requires 'w' !in s && 'a' !in s
    ensures !Contains(s, "down") && !Contains(s, "start")
  {
    MissingCharNotContained(s, "down", 2);
    MissingCharNotContained(s, "start", 2);
  }

  /** A type whose name lacks 'd', 'p' and 'a' contains none of the four words, so it
      leaves `dragging` as it was. */
  lemma KeepsDragging(t: EventType, dragging: bool)
    requires var s := Spelling(t); 'd' !in s && 'p' !in s && 'a' !in s
    ensures DraggingAfter(t, dragging) == dragging
  {
    var s := Spelling(t);
    MissingCharNotContained(s, "down", 0);
    MissingCharNotContained(s, "start", 2);
    MissingCharNotContained(s, "up", 1);
    MissingCharNotContained(s, "end", 2);
  }

  /** A type whose name holds "down" or "start" at position i starts a drag. */
  lemma StartsDragging(t: EventType, dragging: bool, word: string, i: nat)
    requires word == "down" || word == "start"
    requires var s := Spelling(t); i + |word| <= |s| && s[i..i + |word|] == word
    ensures DraggingAfter(t, dragging)
  {
    ContainsAt(Spelling(t), word, i);
  }

  /** A type whose name lacks 'w' and 'a' and holds "up" or "end" at position i ends it. */
  lemma EndsDragging(t: EventType, dragging: bool, word: string, i: nat)
    requires word == "up" || word == "end"
    requires var s := Spelling(t); 'w' !in s && 'a' !in s && i + |word| <= |s| && s[i..i + |word|] == word
    ensures !DraggingAfter(t, dragging)
  {
    NoDragStart(Spelling(t));
    ContainsAt(Spelling(t), word, i);
  }

  /** mousedown and touchstart start a drag ... */
  lemma DragStarts(dragging: bool)
    ensures DraggingAfter(MouseDown, dragging) && DraggingAfter(TouchStart, dragging)
  {
    StartsDragging(MouseDown, dragging, "down", 5);
    StartsDragging(TouchStart, dragging, "start", 5);
  }

  /** ... mouseup and touchend end it ... */
  lemma DragEnds(dragging: bool)
    ensures !DraggingAfter(MouseUp, dragging) && !DraggingAfter(TouchEnd, dragging)
  {
    EndsDragging(MouseUp, dragging, "up", 5);
    EndsDragging(TouchEnd, dragging, "end", 5);
  }

  /** ... and the other five pointer types leave it as it was. */
  lemma DragKept(t: EventType, dragging: bool)
    requires t == MouseMove || t == TouchMove || t == Click || t == MouseOut || t == MouseOver
    ensures DraggingAfter(t, dragging) == dragging
  {
    KeepsDragging(t, dragging);
  }
}
