/**
 * The gesture interpreter of transformable.js as a pure state machine.
 *
 * `State` holds the closure variables and fields of one `Transformable`
 * instance except the handler table; each of the four stage callbacks
 * (`_mousedown`, `_pressmove`, `_enterFrame`, `_pressup`) is a function from the
 * old state to the new state together with the events it dispatches, in order.
 * The class in interpreter.dfy is proved to behave exactly as these functions say.
 */
module Gestures {
  import opened Wrappers
  import opened PointerTable

  /** Movement, per axis, that a single-finger pan must exceed to count as a transform. */
  const TOUCH_SLOP := 1
  /** Milliseconds that must pass since the previous release before a release is a click. */
  const MULTITOUCH_UP_DELAY := 1000
  /** The id given to events that carry no usable pointer id. */
  const PRIMARY_POINTER := -1

  function Abs(n: int): (r: nat)
    ensures r == n || r == -n
  {
    if n < 0 then -n else n
  }

  /**
   * `if (!event.pointerID) event.pointerID = -1`: a missing id and the falsy id 0
   * both become the primary pointer; every other id is kept.
   */
  function NormalizeId(pointerId: Option<int>): (id: int)
    ensures id != 0
    ensures id == PRIMARY_POINTER <==> pointerId in {None, Some(0), Some(PRIMARY_POINTER)}
    ensures pointerId.Some? && pointerId.value != 0 ==> id == pointerId.value
  {
    if pointerId == None || pointerId.value == 0 then PRIMARY_POINTER else pointerId.value
  }

  /** The release event object handed to `click` and `complete`, with `active` attached. */
  datatype ReleaseInfo = ReleaseInfo(pointerId: int, stageX: int, stageY: int, active: nat)

  /** The names under which handlers are registered and events dispatched. */
  datatype EventType = Start | Update | Move | Scale | Click | Complete

  datatype Event =
    | StartEvent(active: nat)
    | UpdateEvent(active: nat)
      /** The pan delta `current - old` of the only finger. */
    | MoveEvent(dx: int, dy: int)
      /** The pinch anchor (the first record's current position) and the two records compared. */
    | ScaleEvent(anchor: Point, first: Finger, second: Finger)
    | ClickEvent(release: ReleaseInfo)
    | CompleteEvent(release: ReleaseInfo)
  {
    function Name(): EventType
    {
      match this
      case StartEvent(_) => Start
      case UpdateEvent(_) => Update
      case MoveEvent(_, _) => Move
      case ScaleEvent(_, _, _) => Scale
      case ClickEvent(_) => Click
      case CompleteEvent(_) => Complete
    }
  }

  /** The squared distance of two points; the scale ratio is the square root of a quotient of two of these. */
  function DistanceSquared(p: Point, q: Point): (d: nat)
    ensures d == 0 <==> p == q
  {
    var dx := q.x - p.x;
    var dy := q.y - p.y;
    assert dx * dx >= 0 && dy * dy >= 0;
    assert dx != 0 ==> dx * dx > 0;
    assert dy != 0 ==> dy * dy > 0;
    dx * dx + dy * dy
  }

  // ---------------------------------------------------------------- handlers

  /** A call of a registered handler (handlers are opaque callbacks, named by a number). */
  datatype Call = Call(handler: nat, event: Event)

  /**
   * The handler calls that `dispatchEvent` makes for `events`, in order: an
   * event whose name has a registered handler calls it, any other is dropped.
   */
  function Deliver(handlers: map<EventType, nat>, events: seq<Event>): (calls: seq<Call>)
    ensures |calls| <= |events|
  {
    if events == [] then []
    else
      var e := events[0];
      (if e.Name() in handlers then [Call(handlers[e.Name()], e)] else []) + Deliver(handlers, events[1..])
  }

  lemma {:induction false} DeliverConcat(handlers: map<EventType, nat>, a: seq<Event>, b: seq<Event>)
    ensures Deliver(handlers, a + b) == Deliver(handlers, a) + Deliver(handlers, b)
  {
    if a == [] {
      assert a + b == b;
    } else {
      assert (a + b)[0] == a[0];
      assert (a + b)[1..] == a[1..] + b;
      DeliverConcat(handlers, a[1..], b);
    }
  }

  /** Every handler call goes to the handler registered under its event's name, for an event that was dispatched. */
  lemma {:induction false} DeliverOnlyRegistered(handlers: map<EventType, nat>, events: seq<Event>)
    ensures forall c :: c in Deliver(handlers, events) ==>
      c.event in events && c.event.Name() in handlers && c.handler == handlers[c.event.Name()]
  {
    if events != [] {
      DeliverOnlyRegistered(handlers, events[1..]);
    }
  }

  /** When every event's name has a handler, each event calls its handler exactly once, in order. */
  lemma {:induction false} DeliverAllRegistered(handlers: map<EventType, nat>, events: seq<Event>)
    requires forall i :: 0 <= i < |events| ==> events[i].Name() in handlers
    ensures |Deliver(handlers, events)| == |events|
    ensures forall i :: 0 <= i < |events| ==>
      Deliver(handlers, events)[i] == Call(handlers[events[i].Name()], events[i])
  {
    if events != [] {
      DeliverAllRegistered(handlers, events[1..]);
    }
  }

  /** With no handler for any of their names, dispatching events calls nothing. */
  lemma {:induction false} DeliverUnregistered(handlers: map<EventType, nat>, events: seq<Event>)
    requires forall i :: 0 <= i < |events| ==> events[i].Name() !in handlers
    ensures Deliver(handlers, events) == []
  {
    if events != [] {
      DeliverUnregistered(handlers, events[1..]);
    }
  }

  /** Once a name is unregistered (a falsy handler), its events call nothing. */
  lemma {:induction false} DeliverCleared(handlers: map<EventType, nat>, name: EventType, events: seq<Event>)
    requires forall i :: 0 <= i < |events| ==> events[i].Name() == name
    ensures Deliver(handlers - {name}, events) == []
  {
    DeliverUnregistered(handlers - {name}, events);
  }

  // ---------------------------------------------------------------- state

  /**
   * `table` is `_fingers`, `active` is `_activeFingers`, `changed` is `_changed`,
   * `didTransformed` is `_didTransformed`, `lastPressUpTime` is the closure variable of that name.
   */
  datatype State = State(table: seq<Entry>, active: nat, changed: bool, didTransformed: bool, lastPressUpTime: int)

  /** The cached finger count is the number of live records, and the table is in enumeration order. */
  predicate Inv(s: State)
  {
    WellFormed(s.table) && s.active == |s.table|
  }

  /** The state right after construction. */
  function Initial(): (s: State)
    ensures Inv(s) && s.table == [] && !s.changed && !s.didTransformed && s.lastPressUpTime == 0
  {
    State([], 0, false, false, 0)
  }

  datatype Step = Step(state: State, events: seq<Event>)

  /** `_mousedown`: store a fresh record, recount, emit `start`, begin a new gesture. */
  function OnPress(s: State, pointerId: Option<int>, x: int, y: int): (r: Step)
    requires Inv(s)
    ensures Inv(r.state)
  {
    var p := Point(x, y);
    var t := Assign(s.table, NormalizeId(pointerId), Finger(p, p, p));
    Step(s.(table := t, active := |t|, didTransformed := false), [StartEvent(|t|)])
  }

  /** `_pressmove`: update the current position of a live record, recount, mark the state changed. */
  function OnMove(s: State, pointerId: Option<int>, x: int, y: int): (r: Step)
    requires Inv(s)
    ensures Inv(r.state)
  {
    var id := NormalizeId(pointerId);
    var t :=
      match Lookup(s.table, id)
      case None => s.table
      case Some(f) => Assign(s.table, id, f.(current := Point(x, y)));
    Step(s.(table := t, active := |t|, changed := true), [])
  }

  /** `_handleMove`: with exactly one finger, the pan delta of its record. */
  function PanEvents(s: State): seq<Event>
    requires Inv(s)
  {
    if s.active == 1 then
      var f := s.table[0].finger;
      [MoveEvent(f.current.x - f.previous.x, f.current.y - f.previous.y)]
    else []
  }

  /** The conjunctive slop test of `_handleMove`: both axes must move by more than TOUCH_SLOP. */
  predicate PanTransforms(s: State)
    requires Inv(s)
  {
    s.active == 1 &&
    var f := s.table[0].finger;
    Abs(f.current.x - f.previous.x) > TOUCH_SLOP && Abs(f.current.y - f.previous.y) > TOUCH_SLOP
  }

  /** `_handleScale`: with more than one finger, compare the first two records in enumeration order. */
  function ScaleEvents(s: State): seq<Event>
    requires Inv(s)
  {
    if s.active > 1 then [ScaleEvent(s.table[0].finger.current, s.table[0].finger, s.table[1].finger)]
    else []
  }

  /**
   * `_enterFrame`: nothing unless a move happened since the last tick; otherwise
   * clear the flag, emit `update`, run pan and then scale detection, and let every
   * record's previous position catch up with its current one.
   */
  function OnTick(s: State): (r: Step)
    requires Inv(s)
    ensures Inv(r.state)
  {
    if !s.changed then Step(s, [])
    else
      var transformed := s.didTransformed || PanTransforms(s) || s.active > 1;
      Step(State(AdvanceAll(s.table), s.active, false, transformed, s.lastPressUpTime),
           [UpdateEvent(s.active)] + PanEvents(s) + ScaleEvents(s))
  }

  /** Whether the release that leaves `remaining` fingers at time `now` is a click. */
  predicate IsClick(s: State, remaining: nat, now: int)
  {
    remaining == 0 && !s.didTransformed && now - s.lastPressUpTime > MULTITOUCH_UP_DELAY
  }

  /**
   * `_pressup`: drop the record, recount, emit `click` when this was the last
   * finger of a gesture that did not transform and the previous release is more
   * than MULTITOUCH_UP_DELAY ago, then reset the gesture and emit `complete`.
   */
  function OnRelease(s: State, pointerId: Option<int>, x: int, y: int, now: int): (r: Step)
    requires Inv(s)
    ensures Inv(r.state)
  {
    var id := NormalizeId(pointerId);
    var t := Remove(s.table, id);
    var info := ReleaseInfo(id, x, y, |t|);
    var click := if IsClick(s, |t|, now) then [ClickEvent(info)] else [];
    Step(State(t, |t|, s.changed, false, now), click + [CompleteEvent(info)])
  }
}
