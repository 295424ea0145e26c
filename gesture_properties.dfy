/**
 * What the four stage callbacks of transformable.js promise, stated over the
 * pure state machine of module Gestures, and the same for whole input traces.
 */
module GestureProperties {
  import opened Wrappers
  import opened PointerTable
  import opened Gestures

  /** `_activeFingers` is the number of live records in `_fingers`. */
  lemma ActiveIsLiveCount(s: State)
    requires Inv(s)
    ensures s.active == |Keys(s.table)|
  {
    WellFormedOrdered(s.table);
    KeysCount(s.table);
  }

  // ---------------------------------------------------------------- press

  /**
   * A press stores `start = current = previous =` the press position under the
   * normalised id, overwriting a live record of that id (so the count grows only
   * for a new id), emits `start` with the new count and resets the transform flag.
   */
  lemma PressEffect(s: State, pointerId: Option<int>, x: int, y: int, r: Step)
    requires Inv(s) && r == OnPress(s, pointerId, x, y)
    ensures Lookup(r.state.table, NormalizeId(pointerId)) == Some(Finger(Point(x, y), Point(x, y), Point(x, y)))
    ensures Keys(r.state.table) == Keys(s.table) + {NormalizeId(pointerId)}
    ensures forall k :: k != NormalizeId(pointerId) ==> Lookup(r.state.table, k) == Lookup(s.table, k)
    ensures r.state.active == if NormalizeId(pointerId) in Keys(s.table) then s.active else s.active + 1
    ensures r.events == [StartEvent(r.state.active)]
    ensures !r.state.didTransformed
    ensures r.state.changed == s.changed && r.state.lastPressUpTime == s.lastPressUpTime
  {
    var p := Point(x, y);
    AssignLookup(s.table, NormalizeId(pointerId), Finger(p, p, p));
    ActiveIsLiveCount(s);
    ActiveIsLiveCount(r.state);
  }

  // ---------------------------------------------------------------- move

  /**
   * A move changes only the current position of the live record of its id (a move
   * of an unknown id changes no record), keeps the enumeration order and the count,
   * marks the state changed and emits nothing.
   */
  lemma MoveEffect(s: State, pointerId: Option<int>, x: int, y: int, r: Step)
    requires Inv(s) && r == OnMove(s, pointerId, x, y)
    ensures Lookup(s.table, NormalizeId(pointerId)).None? ==> r.state.table == s.table
    ensures Lookup(s.table, NormalizeId(pointerId)).Some? ==>
      var f := Lookup(s.table, NormalizeId(pointerId)).value;
      Lookup(r.state.table, NormalizeId(pointerId)) == Some(Finger(f.start, Point(x, y), f.previous))
    ensures forall k :: k != NormalizeId(pointerId) ==> Lookup(r.state.table, k) == Lookup(s.table, k)
    ensures |r.state.table| == |s.table| && forall i :: 0 <= i < |s.table| ==> r.state.table[i].id == s.table[i].id
    ensures r.state.active == s.active && r.state.changed && r.events == []
    ensures r.state.didTransformed == s.didTransformed && r.state.lastPressUpTime == s.lastPressUpTime
  {
    var id := NormalizeId(pointerId);
    LookupDefined(s.table, id);
    match Lookup(s.table, id)
    case None =>
    case Some(f) =>
      AssignLookup(s.table, id, f.(current := Point(x, y)));
      AssignOrder(s.table, id, f.(current := Point(x, y)));
  }

  // ---------------------------------------------------------------- tick

  /** A tick after no move changes nothing and emits nothing. */
  lemma IdleTick(s: State)
    requires Inv(s) && !s.changed
    ensures OnTick(s) == Step(s, [])
  {
  }

  /**
   * A tick after a move clears the flag, emits `update` with the count first, keeps
   * every key, its place and its start and current positions, and sets every
   * record's previous position to its current one.
   */
  lemma TickEffect(s: State, r: Step)
    requires Inv(s) && s.changed && r == OnTick(s)
    ensures !r.state.changed
    ensures |r.events| >= 1 && r.events[0] == UpdateEvent(s.active)
    ensures |r.state.table| == |s.table| && forall i :: 0 <= i < |s.table| ==> r.state.table[i].id == s.table[i].id
    ensures Keys(r.state.table) == Keys(s.table)
    ensures forall k :: k in Keys(s.table) ==>
      var f := Lookup(s.table, k).value;
      Lookup(r.state.table, k) == Some(Finger(f.start, f.current, f.current))
    ensures r.state.active == s.active && r.state.lastPressUpTime == s.lastPressUpTime
  {
    forall k | k in Keys(s.table)
      ensures var f := Lookup(s.table, k).value;
        Lookup(r.state.table, k) == Some(Finger(f.start, f.current, f.current))
    {
      LookupDefined(s.table, k);
      AdvanceAllLookup(s.table, k);
    }
  }

  /** The `move` payload of a single record: current minus previous position, per axis. */
  function Delta(f: Finger): Point
  {
    Point(f.current.x - f.previous.x, f.current.y - f.previous.y)
  }

  /**
   * The events of a processed tick, by finger count: `update` alone with no finger,
   * `update` then `move` with the delta of the only record with one finger, and
   * `update` then `scale` anchored at the first record's current position with more.
   */
  lemma TickEvents(s: State)
    requires Inv(s) && s.changed
    ensures s.active == 0 ==> OnTick(s).events == [UpdateEvent(0)]
    ensures s.active == 1 ==>
      && |s.table| == 1
      && OnTick(s).events == [UpdateEvent(1), MoveEvent(Delta(s.table[0].finger).x, Delta(s.table[0].finger).y)]
    ensures s.active > 1 ==>
      && |s.table| >= 2
      && OnTick(s).events == [UpdateEvent(s.active), ScaleEvent(s.table[0].finger.current, s.table[0].finger, s.table[1].finger)]
  {
  }

  predicate HasMove(events: seq<Event>)
  {
    exists i :: 0 <= i < |events| && events[i].MoveEvent?
  }

  predicate HasScale(events: seq<Event>)
  {
    exists i :: 0 <= i < |events| && events[i].ScaleEvent?
  }

  predicate HasClick(events: seq<Event>)
  {
    exists i :: 0 <= i < |events| && events[i].ClickEvent?
  }

  /** `move` fires on a tick exactly when a move happened since the last tick and exactly one finger is down. */
  lemma MoveFiresIff(s: State)
    requires Inv(s)
    ensures HasMove(OnTick(s).events) <==> s.changed && s.active == 1
  {
    if s.changed {
      TickEvents(s);
      var e := OnTick(s).events;
      if s.active == 1 {
        assert e[1].MoveEvent?;
      }
    }
  }

  /** `scale` fires on a tick exactly when a move happened since the last tick and more than one finger is down. */
  lemma ScaleFiresIff(s: State)
    requires Inv(s)
    ensures HasScale(OnTick(s).events) <==> s.changed && s.active > 1
  {
    if s.changed {
      TickEvents(s);
      var e := OnTick(s).events;
      if s.active > 1 {
        assert e[1].ScaleEvent?;
      }
    }
  }

  /** No tick emits both `move` and `scale`. */
  lemma PanScaleExclusive(s: State)
    requires Inv(s)
    ensures !(HasMove(OnTick(s).events) && HasScale(OnTick(s).events))
  {
  }

  /**
   * After a processed tick the gesture counts as transformed exactly when it
   * already did, or more than one finger is down, or the only finger moved by more
   * than TOUCH_SLOP on both axes; a move along one axis alone never sets it.
   */
  lemma TickTransformed(s: State)
    requires Inv(s) && s.changed
    ensures OnTick(s).state.didTransformed <==>
      || s.didTransformed
      || s.active > 1
      || (s.active == 1 && Abs(Delta(s.table[0].finger).x) > TOUCH_SLOP && Abs(Delta(s.table[0].finger).y) > TOUCH_SLOP)
  {
  }

  /** With an anchor chosen among array-index pointer ids, the scale anchor is the smallest of them. */
  lemma ScaleAnchor(s: State)
    requires Inv(s) && s.changed && s.active > 1
    requires exists k :: k in Keys(s.table) && IsArrayIndex(k)
    ensures OnTick(s).events[1].ScaleEvent?
    ensures var e := OnTick(s).events[1];
      exists k :: k in Keys(s.table) && IsArrayIndex(k) && Lookup(s.table, k) == Some(e.first) && e.anchor == e.first.current &&
        forall j :: j in Keys(s.table) && IsArrayIndex(j) ==> k <= j
  {
  }

  // ---------------------------------------------------------------- release

  /**
   * A release deletes the record of its id if there is one (and changes no other),
   * recounts, resets the transform flag, records `now` as the last release time and
   * emits `complete` last, carrying the normalised id, the position and the new count.
   */
  lemma ReleaseEffect(s: State, pointerId: Option<int>, x: int, y: int, now: int, r: Step)
    requires Inv(s) && r == OnRelease(s, pointerId, x, y, now)
    ensures Keys(r.state.table) == Keys(s.table) - {NormalizeId(pointerId)}
    ensures forall k :: k != NormalizeId(pointerId) ==> Lookup(r.state.table, k) == Lookup(s.table, k)
    ensures NormalizeId(pointerId) !in Keys(s.table) ==> r.state.table == s.table
    ensures r.state.active == if NormalizeId(pointerId) in Keys(s.table) then s.active - 1 else s.active
    ensures !r.state.didTransformed && r.state.lastPressUpTime == now && r.state.changed == s.changed
    ensures |r.events| >= 1 && r.events[|r.events| - 1] == CompleteEvent(ReleaseInfo(NormalizeId(pointerId), x, y, r.state.active))
  {
    var id := NormalizeId(pointerId);
    RemoveLookup(s.table, id);
    RemoveOrder(s.table, id);
    ActiveIsLiveCount(s);
    ActiveIsLiveCount(r.state);
  }

  /**
   * `click` fires on a release exactly when no finger is left, the gesture did not
   * transform, and the previous release is more than MULTITOUCH_UP_DELAY ago; it then
   * comes right before `complete`, with the same payload.
   */
  lemma ClickIff(s: State, pointerId: Option<int>, x: int, y: int, now: int)
    requires Inv(s)
    ensures var r := OnRelease(s, pointerId, x, y, now);
      HasClick(r.events) <==> r.state.active == 0 && !s.didTransformed && now - s.lastPressUpTime > MULTITOUCH_UP_DELAY
    ensures var r := OnRelease(s, pointerId, x, y, now);
      var info := ReleaseInfo(NormalizeId(pointerId), x, y, r.state.active);
      r.events == if HasClick(r.events) then [ClickEvent(info), CompleteEvent(info)] else [CompleteEvent(info)]
  {
    var r := OnRelease(s, pointerId, x, y, now);
    if IsClick(s, r.state.active, now) {
      assert r.events[0].ClickEvent?;
    }
  }

  // ---------------------------------------------------------------- traces

  /** One stage event fed to the interpreter. */
  datatype Input =
    | Down(pointerId: Option<int>, x: int, y: int)
    | Drag(pointerId: Option<int>, x: int, y: int)
    | Frame
    | Up(pointerId: Option<int>, x: int, y: int, now: int)

  function Apply(s: State, input: Input): (r: Step)
    requires Inv(s)
    ensures Inv(r.state)
  {
    match input
    case Down(p, x, y) => OnPress(s, p, x, y)
    case Drag(p, x, y) => OnMove(s, p, x, y)
    case Frame => OnTick(s)
    case Up(p, x, y, now) => OnRelease(s, p, x, y, now)
  }

  /** The state after a sequence of stage events, and all the events dispatched on the way, in order. */
  function Run(s: State, inputs: seq<Input>): (r: Step)
    requires Inv(s)
    ensures Inv(r.state)
    decreases |inputs|
  {
    if inputs == [] then Step(s, [])
    else
      var first := Apply(s, inputs[0]);
      var rest := Run(first.state, inputs[1..]);
      Step(rest.state, first.events + rest.events)
  }

  /** The normalised pointer ids of a sequence of presses. */
  function PressedIds(inputs: seq<Input>): seq<int>
    requires forall i :: 0 <= i < |inputs| ==> inputs[i].Down?
  {
    seq(|inputs|, i requires 0 <= i < |inputs| => NormalizeId(inputs[i].pointerId))
  }

  /** Presses of distinct new pointer ids each add one finger, and every pressed id is live afterwards. */
  lemma {:induction false} DistinctPresses(s: State, inputs: seq<Input>)
    requires Inv(s)
    requires forall i :: 0 <= i < |inputs| ==> inputs[i].Down?
    requires forall i :: 0 <= i < |inputs| ==> PressedIds(inputs)[i] !in Keys(s.table)
    requires forall i, j :: 0 <= i < j < |inputs| ==> PressedIds(inputs)[i] != PressedIds(inputs)[j]
    ensures Run(s, inputs).state.active == s.active + |inputs|
    ensures forall i :: 0 <= i < |inputs| ==> PressedIds(inputs)[i] in Keys(Run(s, inputs).state.table)
    decreases |inputs|
  {
    if inputs != [] {
      var d := inputs[0];
      var first := OnPress(s, d.pointerId, d.x, d.y);
      PressEffect(s, d.pointerId, d.x, d.y, first);
      assert PressedIds(inputs)[0] == NormalizeId(d.pointerId);
      var rest := inputs[1..];
      assert forall i :: 0 <= i < |rest| ==> PressedIds(rest)[i] == PressedIds(inputs)[i + 1];
      forall i | 0 <= i < |rest| ensures PressedIds(rest)[i] !in Keys(first.state.table) {
        assert PressedIds(inputs)[i + 1] != PressedIds(inputs)[0];
      }
      DistinctPresses(first.state, rest);
      RunKeepsPressed(first.state, rest, PressedIds(inputs)[0]);
      assert Apply(s, d) == first;
      assert Run(s, inputs).state == Run(first.state, rest).state;
      forall i | 0 < i < |inputs| ensures PressedIds(inputs)[i] in Keys(Run(s, inputs).state.table) {
        assert PressedIds(inputs)[i] == PressedIds(rest)[i - 1];
      }
    }
  }

  /** A trace of presses keeps every live key live. */
  lemma {:induction false} RunKeepsPressed(s: State, inputs: seq<Input>, k: int)
    requires Inv(s) && k in Keys(s.table)
    requires forall i :: 0 <= i < |inputs| ==> inputs[i].Down?
    ensures k in Keys(Run(s, inputs).state.table)
    decreases |inputs|
  {
    if inputs != [] {
      var d := inputs[0];
      var first := OnPress(s, d.pointerId, d.x, d.y);
      PressEffect(s, d.pointerId, d.x, d.y, first);
      RunKeepsPressed(first.state, inputs[1..], k);
    }
  }

  // ---------------------------------------------------------------- scenarios

  /**
   * A tap whose finger drifts by two pixels along one axis still clicks: the slop
   * test needs both axes to exceed TOUCH_SLOP.
   */
  lemma StraightDriftStillClicks()
    ensures var r := Run(Initial(), [Down(None, 0, 0), Drag(None, 2, 0), Frame, Up(None, 2, 0, 5000)]);
      r.events == [
        StartEvent(1), UpdateEvent(1), MoveEvent(2, 0),
        ClickEvent(ReleaseInfo(PRIMARY_POINTER, 2, 0, 0)), CompleteEvent(ReleaseInfo(PRIMARY_POINTER, 2, 0, 0))]
  {
  }

  /** The same tap drifting diagonally by (2, 3) is a transform, so its release does not click. */
  lemma DiagonalDriftSuppressesClick()
    ensures var r := Run(Initial(), [Down(None, 0, 0), Drag(None, 2, 3), Frame, Up(None, 2, 3, 5000)]);
      r.events == [
        StartEvent(1), UpdateEvent(1), MoveEvent(2, 3), CompleteEvent(ReleaseInfo(PRIMARY_POINTER, 2, 3, 0))]
  {
  }

  /**
   * Two fingers pressed on the same spot and then pulled apart: the `scale` event
   * compares records whose previous positions coincide, so the denominator of the
   * ratio is zero while its numerator is not.
   */
  lemma CoincidentPressesScaleByZero()
    ensures var r := Run(Initial(), [Down(Some(1), 0, 0), Down(Some(2), 0, 0), Drag(Some(1), 3, 4), Frame]);
      && |r.events| == 4
      && r.events[3].ScaleEvent?
      && DistanceSquared(r.events[3].first.previous, r.events[3].second.previous) == 0
      && DistanceSquared(r.events[3].first.current, r.events[3].second.current) == 25
  {
  }
}
