/**
 * The `Transformable` object of transformable.js, written imperatively: the
 * closure variables and instance fields are fields of a class, each stage
 * callback is a method that updates them step by step, and the two loops of the
 * source over `_fingers` (the counting loop and the copying loop) and the two
 * early-break searches are methods with loop invariants.  Every event that
 * `dispatchEvent` is asked to send is appended to `emitted`; the handler calls it
 * actually makes are appended to `delivered`.  Each callback is proved to have
 * exactly the effect of the matching function of module Gestures.
 */
module Interpreter {
  import opened Wrappers
  import opened PointerTable
  import opened Gestures

  /** `_calculateActiveFingers`: count the records that carry a start position (all of them). */
  method CountLive(t: seq<Entry>) returns (n: nat)
    ensures n == |t|
  {
    n := 0;
    var i := 0;
    while i < |t|
      invariant i <= |t|
      invariant n == i
    {
      // every record is created by a press with its start position set
      n := n + 1;
      i := i + 1;
    }
  }

  /**
   * The search loops of `_handleMove` (limit 1) and `_handleScale` (limit 2):
   * collect records in enumeration order, stopping once `limit` are collected.
   */
  method LeadingRecords(t: seq<Entry>, limit: nat) returns (points: seq<Finger>)
    requires limit >= 1
    ensures |points| == if |t| < limit then |t| else limit
    ensures forall i :: 0 <= i < |points| ==> points[i] == t[i].finger
  {
    points := [];
    var k := 0;
    while k < |t|
      invariant k <= |t| && k < limit
      invariant |points| == k
      invariant forall i :: 0 <= i < k ==> points[i] == t[i].finger
    {
      // every record has a current position, so each visited record is taken
      points := points + [t[k].finger];
      if |points| >= limit {
        break;
      }
      k := k + 1;
    }
  }

  /** The copying loop at the end of `_enterFrame`: `old := current` for every record. */
  method AdvanceRecords(t: seq<Entry>) returns (r: seq<Entry>)
    ensures r == AdvanceAll(t)
  {
    r := t;
    var i := 0;
    while i < |r|
      invariant i <= |r| == |t|
      invariant forall k :: 0 <= k < i ==> r[k] == Advanced(t[k])
      invariant forall k :: i <= k < |t| ==> r[k] == t[k]
    {
      r := r[i := Advanced(r[i])];
      i := i + 1;
    }
  }

  class Transformable {
    var fingers: seq<Entry>
    var activeFingers: nat
    var changed: bool
    var didTransformed: bool
    var lastPressUpTime: int
    /** The names whose registered handler is truthy, and that handler. */
    var handlers: map<EventType, nat>
    var emitted: seq<Event>
    var delivered: seq<Call>

    function Gesture(): State
      reads this`fingers, this`activeFingers, this`changed, this`didTransformed, this`lastPressUpTime
    {
      State(fingers, activeFingers, changed, didTransformed, lastPressUpTime)
    }

    /** The table is a JavaScript enumeration order and the count matches it (`Inv` of `Gesture()`). */
    predicate Valid()
      reads this`fingers, this`activeFingers
    {
      WellFormed(fingers) && activeFingers == |fingers|
    }

    /** A new interpreter: no fingers, no handlers, nothing sent yet. */
    constructor ()
      ensures Valid() && Gesture() == Initial()
      ensures handlers == map[] && emitted == [] && delivered == []
    {
      fingers := [];
      activeFingers := 0;
      changed := false;
      didTransformed := false;
      lastPressUpTime := 0;
      handlers := map[];
      emitted := [];
      delivered := [];
    }

    /**
     * `prototype.on`: the handler for `eventType` replaces any earlier one; other
     * names keep theirs.  `None` is a falsy handler value (`null`, `undefined`, ...),
     * which `dispatchEvent` treats as no handler, so it unregisters the name.
     */
    method On(eventType: EventType, handler: Option<nat>)
      modifies this
      ensures handler.Some? ==> handlers == old(handlers)[eventType := handler.value]
      ensures handler.None? ==> handlers == old(handlers) - {eventType}
      ensures Gesture() == old(Gesture()) && emitted == old(emitted) && delivered == old(delivered)
    {
      if handler.Some? {
        handlers := handlers[eventType := handler.value];
      } else {
        handlers := handlers - {eventType};
      }
    }

    /**
     * The bookkeeping of one callback: since `emitted` was `sentBase` and
     * `delivered` was `callBase`, the events `sent` have been dispatched.
     */
    ghost predicate Dispatched(sentBase: seq<Event>, callBase: seq<Call>, sent: seq<Event>)
      reads this`emitted, this`delivered, this`handlers
    {
      emitted == sentBase + sent && delivered == callBase + Deliver(handlers, sent)
    }

    /** `prototype.dispatchEvent`: call the handler registered for the event's name, if there is one. */
    method DispatchEvent(e: Event, ghost sentBase: seq<Event>, ghost callBase: seq<Call>, ghost sent: seq<Event>)
      requires Dispatched(sentBase, callBase, sent)
      modifies this`emitted, this`delivered
      ensures Dispatched(sentBase, callBase, sent + [e])
    {
      emitted := emitted + [e];
      if e.Name() in handlers {
        delivered := delivered + [Call(handlers[e.Name()], e)];
      }
      DeliverConcat(handlers, sent, [e]);
      assert sentBase + sent + [e] == sentBase + (sent + [e]);
    }

    method CalculateActiveFingers()
      modifies this`activeFingers
      ensures activeFingers == |fingers|
    {
      activeFingers := CountLive(fingers);
    }

    /** `self._fingers[id] = f` followed by `_calculateActiveFingers`. */
    method Store(id: int, f: Finger)
      requires Valid()
      modifies this`fingers, this`activeFingers
      ensures Valid() && fingers == Assign(old(fingers), id, f)
    {
      fingers := Assign(fingers, id, f);
      CalculateActiveFingers();
    }

    /** The closing loop of `_enterFrame`: every record's previous position becomes its current one. */
    method Advance()
      requires Valid()
      modifies this`fingers
      ensures Valid() && fingers == AdvanceAll(old(fingers))
    {
      fingers := AdvanceRecords(fingers);
    }

    /** `_mousedown`. */
    method Press(pointerId: Option<int>, x: int, y: int)
      requires Valid()
      modifies this
      ensures Valid()
      ensures Gesture() == OnPress(old(Gesture()), pointerId, x, y).state
      ensures Dispatched(old(emitted), old(delivered), OnPress(old(Gesture()), pointerId, x, y).events)
      ensures handlers == old(handlers)
    {
      ghost var s := Gesture();
      var id := NormalizeId(pointerId);
      var p := Point(x, y);
      Store(id, Finger(p, p, p));
      DispatchEvent(StartEvent(activeFingers), emitted, delivered, []);
      didTransformed := false;
      assert [] + [StartEvent(activeFingers)] == [StartEvent(activeFingers)];
    }

    /** `_pressmove`: emits nothing. */
    method Move(pointerId: Option<int>, x: int, y: int)
      requires Valid()
      modifies this
      ensures Valid()
      ensures Gesture() == OnMove(old(Gesture()), pointerId, x, y).state
      ensures emitted == old(emitted) && delivered == old(delivered) && handlers == old(handlers)
    {
      var id := NormalizeId(pointerId);
      var record := Lookup(fingers, id);
      if record.Some? {
        Store(id, record.value.(current := Point(x, y)));
      } else {
        CalculateActiveFingers();
      }
      changed := true;
    }

    /** `_handleMove`. */
    method HandleMove(ghost sentBase: seq<Event>, ghost callBase: seq<Call>, ghost sent: seq<Event>)
      requires Valid() && Dispatched(sentBase, callBase, sent)
      modifies this`didTransformed, this`emitted, this`delivered
      ensures didTransformed == (old(didTransformed) || PanTransforms(Gesture()))
      ensures Dispatched(sentBase, callBase, sent + PanEvents(Gesture()))
    {
      if activeFingers == 1 {
        var points := LeadingRecords(fingers, 1);
        var point := points[0];
        var dx := point.current.x - point.previous.x;
        var dy := point.current.y - point.previous.y;
        DispatchEvent(MoveEvent(dx, dy), sentBase, callBase, sent);
        if Abs(dx) > TOUCH_SLOP && Abs(dy) > TOUCH_SLOP {
          didTransformed := true;
        }
      } else {
        assert sent + [] == sent;
      }
    }

    /** `_handleScale`, without the ratio itself. */
    method HandleScale(ghost sentBase: seq<Event>, ghost callBase: seq<Call>, ghost sent: seq<Event>)
      requires Valid() && Dispatched(sentBase, callBase, sent)
      modifies this`didTransformed, this`emitted, this`delivered
      ensures didTransformed == (old(didTransformed) || activeFingers > 1)
      ensures Dispatched(sentBase, callBase, sent + ScaleEvents(Gesture()))
    {
      if activeFingers > 1 {
        var points := LeadingRecords(fingers, 2);
        DispatchEvent(ScaleEvent(points[0].current, points[0], points[1]), sentBase, callBase, sent);
        didTransformed := true;
      } else {
        assert sent + [] == sent;
      }
    }

    /** `_enterFrame`. */
    method Tick()
      requires Valid()
      modifies this
      ensures Valid()
      ensures Gesture() == OnTick(old(Gesture())).state
      ensures Dispatched(old(emitted), old(delivered), OnTick(old(Gesture())).events)
      ensures handlers == old(handlers)
    {
      ghost var s := Gesture();
      if changed {
        changed := false;
        DispatchEvent(UpdateEvent(activeFingers), emitted, delivered, []);
        assert [] + [UpdateEvent(s.active)] == [UpdateEvent(s.active)];
        HandleMove(old(emitted), old(delivered), [UpdateEvent(s.active)]);
        HandleScale(old(emitted), old(delivered), [UpdateEvent(s.active)] + PanEvents(s));
        Advance();
      } else {
        assert emitted == emitted + [] && delivered == delivered + [];
      }
    }

    /** The `delete` of `_pressup` and the recount after it; an absent key leaves the table as it is. */
    method Forget(id: int)
      requires Valid()
      modifies this`fingers, this`activeFingers
      ensures Valid() && fingers == Remove(old(fingers), id)
    {
      fingers := Remove(fingers, id);
      CalculateActiveFingers();
    }

    /** `_pressup`; `now` stands for both readings of the clock. */
    method Release(pointerId: Option<int>, x: int, y: int, now: int)
      requires Valid()
      modifies this
      ensures Valid()
      ensures Gesture() == OnRelease(old(Gesture()), pointerId, x, y, now).state
      ensures Dispatched(old(emitted), old(delivered), OnRelease(old(Gesture()), pointerId, x, y, now).events)
      ensures handlers == old(handlers)
    {
      ghost var s := Gesture();
      var id := NormalizeId(pointerId);
      Forget(id);
      var info := ReleaseInfo(id, x, y, activeFingers);
      ghost var click: seq<Event> := if IsClick(s, |fingers|, now) then [ClickEvent(info)] else [];
      if activeFingers == 0 && !didTransformed && now - lastPressUpTime > MULTITOUCH_UP_DELAY {
        DispatchEvent(ClickEvent(info), emitted, delivered, []);
        assert [] + [ClickEvent(info)] == click;
      } else {
        assert emitted == old(emitted) + click && delivered == old(delivered) + Deliver(handlers, click);
      }
      didTransformed := false;
      lastPressUpTime := now;
      DispatchEvent(CompleteEvent(info), old(emitted), old(delivered), click);
      assert OnRelease(s, pointerId, x, y, now) == Step(State(fingers, |fingers|, s.changed, false, now), click + [CompleteEvent(info)]);
    }
  }
}
