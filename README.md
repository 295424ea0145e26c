# Transformable gestures and socket handlers, in Dafny

This project models two parts of the TR-HMI server.

The first is `Transformable`, the multi-touch helper of the map page
(src/public/map/js/transformable.js). It keeps a table of live pointers, each
with a start, current and previous (`old`) position. It reacts to four stage
callbacks: press, move, release and the per-frame tick. From them it emits the
events `start`, `update`, `move`, `scale`, `click` and `complete` to handlers
registered with `on`.

- `PointerTable` models `_fingers`. It is a JavaScript array used as a property
  bag and walked with `for ... in`. The table is the sequence of (id, record)
  pairs in the order JavaScript enumerates them: array-index keys in ascending
  order first, then the other keys (such as the primary pointer -1) in the order
  they were created. `WellFormed` states that order. Assigning and deleting keep it.
- `Gestures` is the pure state machine. Each callback is a function from the old
  state to the new state and the events sent, in order. `Deliver` says which
  handler calls `dispatchEvent` makes for those events.
- `Interpreter.Transformable` is the object itself, as a class. Its fields are
  the instance fields and closure variables. Its methods update them step by
  step, as the callbacks do. The counting loop, the copying loop and the two
  early-break searches over `_fingers` are loops with invariants. Every
  callback is proved to leave exactly the state, and send exactly the events,
  that the matching `Gestures` function gives. Events asked for are logged in
  `emitted`; the handler calls made are logged in `delivered`.
- `GestureProperties` proves what the callbacks promise: the count of active
  fingers, the press, move, tick and release effects, when `move`, `scale` and
  `click` fire, and properties of whole traces of stage events.

The second part is the four socket handlers of src/socket/controllers.js
(`Controllers`). Each handler is a function from the request value to an
`Outcome`. The outcome lists the effects in order: replies through `fn`, and the
calls into the robot control layer, given as values. When the handler reads a
field of `undefined` or `null`, the outcome is a TypeError instead.

Two readings of the clock (`new Date().getTime()`) become one parameter `now` of
the release. The handlers registered with `on` are opaque callbacks, named by numbers.

## Model

| member | source | states |
|---|---|---|
| `PointerTable.IndexOf` | src/public/map/js/transformable.js:66 | the position found holds the key; None means no entry has the key |
| `PointerTable.LookupDefined` | src/public/map/js/transformable.js:66 | `_fingers[id]` has a record exactly when `id` is a live key |
| `PointerTable.LookupAt` | src/public/map/js/transformable.js:66 | with distinct keys, the record read for a key is the one stored at its position |
| `PointerTable.KeysCount` | src/public/map/js/transformable.js:121-129 | a table with distinct keys has as many entries as keys |
| `PointerTable.WellFormedOrdered` | src/public/map/js/transformable.js:124 | the entry-by-entry enumeration order is the pairwise one: distinct keys, array-index keys first and ascending |
| `PointerTable.InsertionPoint` | src/public/map/js/transformable.js:37 | a new array-index key goes after exactly the smaller array-index keys |
| `PointerTable.Assign` | src/public/map/js/transformable.js:37-50 | storing a record keeps the table in enumeration order |
| `PointerTable.AssignLookup` | src/public/map/js/transformable.js:37-50 | after storing, the key is live with the new record and every other key keeps its record |
| `PointerTable.AssignOrder` | src/public/map/js/transformable.js:37-50 | overwriting a live key moves nothing; a new key is inserted without reordering the others, and appended when it is not an array index |
| `PointerTable.Remove` | src/public/map/js/transformable.js:101-103 | deleting a key keeps the table in enumeration order |
| `PointerTable.RemoveLookup` | src/public/map/js/transformable.js:101-103 | after the delete the key is absent and every other key keeps its record |
| `PointerTable.RemoveOrder` | src/public/map/js/transformable.js:101-103 | deleting an absent key changes nothing; deleting a live key drops exactly its entry and keeps the others in order |
| `PointerTable.AdvanceAll` | src/public/map/js/transformable.js:88-93 | the copying loop keeps the keys, their order and the enumeration order |
| `PointerTable.AdvanceAllLookup` | src/public/map/js/transformable.js:88-93 | after the copy every record's previous position is its current one; start and current are unchanged |
| `PointerTable.FirstEntry` | src/public/map/js/transformable.js:136-141 | the first record enumerated is the smallest array-index key when there is one, and otherwise no key is an array index |
| `Gestures.NormalizeId` | src/public/map/js/transformable.js:35 | a missing id and the falsy id 0 become -1; every other id is kept; the result is never 0 |
| `Gestures.DistanceSquared` | src/public/map/js/transformable.js:154-159 | the squared distance is zero exactly for equal points |
| `Gestures.Deliver` | src/public/map/js/transformable.js:189-193 | dispatching never makes more handler calls than events |
| `Gestures.DeliverConcat` | src/public/map/js/transformable.js:189-193 | dispatching two event sequences one after the other makes the calls of each, in order |
| `Gestures.DeliverOnlyRegistered` | src/public/map/js/transformable.js:189-193 | every call goes to the handler registered under the event's name, for an event that was dispatched |
| `Gestures.DeliverAllRegistered` | src/public/map/js/transformable.js:189-193 | when every name has a handler, each event calls its handler exactly once, in order |
| `Gestures.DeliverUnregistered` | src/public/map/js/transformable.js:189-193 | events with no registered handler call nothing |
| `Gestures.DeliverCleared` | src/public/map/js/transformable.js:189-200 | once a name's handler is set to a falsy value, its events call nothing |
| `Gestures.Initial` | src/public/map/js/transformable.js:10-22 | a new object has no records, no pending move, no transform and a last release time of 0 |
| `Gestures.OnPress` | src/public/map/js/transformable.js:34-59 | a press keeps the table in order and the count equal to the number of records |
| `Gestures.OnMove` | src/public/map/js/transformable.js:62-74 | a move keeps the table in order and the count equal to the number of records |
| `Gestures.OnTick` | src/public/map/js/transformable.js:78-95 | a tick keeps the table in order and the count equal to the number of records |
| `Gestures.OnRelease` | src/public/map/js/transformable.js:98-118 | a release keeps the table in order and the count equal to the number of records |
| `Interpreter.CountLive` | src/public/map/js/transformable.js:121-129 | the counting loop counts every record of the table |
| `Interpreter.LeadingRecords` | src/public/map/js/transformable.js:136-141 | the early-break search collects the first `limit` records in enumeration order, or all of them when there are fewer |
| `Interpreter.AdvanceRecords` | src/public/map/js/transformable.js:88-93 | the copying loop yields the table with every previous position set to the current one |
| `Interpreter.Transformable.constructor` | src/public/map/js/transformable.js:9-22 | a new object is in the initial state, with no handlers and nothing sent |
| `Interpreter.Transformable.On` | src/public/map/js/transformable.js:189-200 | registering replaces the handler of that name and keeps the others; a falsy handler unregisters the name, since dispatching skips it; nothing else changes |
| `Interpreter.Transformable.DispatchEvent` | src/public/map/js/transformable.js:189-193 | the event is logged, and the registered handler, if any, is called with it |
| `Interpreter.Transformable.CalculateActiveFingers` | src/public/map/js/transformable.js:121-129 | the count becomes the number of records |
| `Interpreter.Transformable.Store` | src/public/map/js/transformable.js:37-52 | the record is stored as `Assign` says and the count is recomputed |
| `Interpreter.Transformable.Forget` | src/public/map/js/transformable.js:101-105 | the record is deleted as `Remove` says and the count is recomputed |
| `Interpreter.Transformable.Advance` | src/public/map/js/transformable.js:88-93 | every record's previous position becomes its current one |
| `Interpreter.Transformable.Press` | src/public/map/js/transformable.js:34-59 | the new state and the events sent are exactly those of `OnPress`; handlers are unchanged |
| `Interpreter.Transformable.Move` | src/public/map/js/transformable.js:62-74 | the new state is that of `OnMove`; nothing is sent |
| `Interpreter.Transformable.HandleMove` | src/public/map/js/transformable.js:161-184 | with one finger it sends `move` with that record's delta, and sets the transform flag exactly when both axes exceed the slop |
| `Interpreter.Transformable.HandleScale` | src/public/map/js/transformable.js:131-152 | with more than one finger it sends `scale` for the first two records and sets the transform flag |
| `Interpreter.Transformable.Tick` | src/public/map/js/transformable.js:78-95 | the new state and the events sent are exactly those of `OnTick`; handlers are unchanged |
| `Interpreter.Transformable.Release` | src/public/map/js/transformable.js:98-118 | the new state and the events sent are exactly those of `OnRelease`; handlers are unchanged |
| `GestureProperties.ActiveIsLiveCount` | src/public/map/js/transformable.js:121-129 | the active count equals the number of live pointer ids |
| `GestureProperties.PressEffect` | src/public/map/js/transformable.js:34-59 | a press stores start = current = previous = the press position, overwrites a live id without raising the count, emits `start` with the new count and clears the transform flag |
| `GestureProperties.MoveEffect` | src/public/map/js/transformable.js:62-74 | a move of an unknown id changes no record; otherwise only that record's current position changes; order and count stay; the state is marked changed; nothing is emitted |
| `GestureProperties.IdleTick` | src/public/map/js/transformable.js:79 | a tick with no move since the last one changes nothing and emits nothing |
| `GestureProperties.TickEffect` | src/public/map/js/transformable.js:79-93 | a processed tick clears the flag, emits `update` with the count first, keeps keys and order, and sets previous := current for every record |
| `GestureProperties.TickEvents` | src/public/map/js/transformable.js:81-86 | a processed tick emits `update` alone with no finger, then `move` with the only record's delta with one finger, then `scale` anchored at the first record with more |
| `GestureProperties.MoveFiresIff` | src/public/map/js/transformable.js:161-176 | `move` fires exactly when a move is pending and exactly one finger is down |
| `GestureProperties.ScaleFiresIff` | src/public/map/js/transformable.js:131-148 | `scale` fires exactly when a move is pending and more than one finger is down |
| `GestureProperties.PanScaleExclusive` | src/public/map/js/transformable.js:132-162 | no tick emits both `move` and `scale` |
| `GestureProperties.TickTransformed` | src/public/map/js/transformable.js:150-182 | after a processed tick the gesture is transformed exactly when it was, or several fingers are down, or the only finger moved more than the slop on both axes |
| `GestureProperties.ScaleAnchor` | src/public/map/js/transformable.js:136-146 | when array-index ids are live, the scale anchor is the current position of the smallest of them |
| `GestureProperties.ReleaseEffect` | src/public/map/js/transformable.js:98-118 | a release deletes the id's record if present and no other, recounts, clears the transform flag, records `now`, and emits `complete` last with the id, position and new count |
| `GestureProperties.ClickIff` | src/public/map/js/transformable.js:111-117 | `click` fires exactly when no finger is left, the gesture did not transform, and the last release is more than 1000 ms ago; it comes right before `complete`, with the same payload |
| `GestureProperties.Apply` | src/public/map/js/transformable.js:27-30 | each stage event keeps the table in order and the count right |
| `GestureProperties.Run` | src/public/map/js/transformable.js:27-30 | a whole trace of stage events keeps the table in order and the count right |
| `GestureProperties.DistinctPresses` | src/public/map/js/transformable.js:34-59 | presses of distinct new ids raise the count by one each and leave every pressed id live |
| `GestureProperties.RunKeepsPressed` | src/public/map/js/transformable.js:37 | presses never remove a live id |
| `GestureProperties.StraightDriftStillClicks` | src/public/map/js/transformable.js:178-179 | a tap that drifts two pixels along one axis still clicks, since the slop test needs both axes |
| `GestureProperties.DiagonalDriftSuppressesClick` | src/public/map/js/transformable.js:178-180 | a tap that drifts by (2, 3) is a transform, so its release sends `complete` without `click` |
| `GestureProperties.CoincidentPressesScaleByZero` | src/public/map/js/transformable.js:131-159 | two fingers pressed on one spot and pulled apart give a `scale` event whose ratio has a zero denominator, with the squared distance of the current positions 25 |
| `Controllers.Property` | src/socket/controllers.js:38 | reading a field throws exactly on `undefined` and `null`; a missing property reads as `undefined` |
| `Controllers.SettingResponse` | src/socket/controllers.js:7-34 | code 200 exactly for a truthy request whose method is `set` or `get`; data exactly for `get`; otherwise 500 with `bad request method` or `bad request` |
| `Controllers.OnMapSetting` | src/socket/controllers.js:6-35 | exactly one reply and no throw; 200 iff well formed; `set` gives success with no data, `get` gives `{map: '2105.yaml'}`, another method `bad request method`, a falsy request, or a falsy or missing method, `bad request` |
| `Controllers.OnSpeedSetting` | src/socket/controllers.js:61-91 | the same branches, with `{maxVx: 2, maxVt: 2}` for `get` |
| `Controllers.SettingsAgree` | src/socket/controllers.js:6-91 | both settings handlers answer every request with the same code and message |
| `Controllers.OnLaunchMode` | src/socket/controllers.js:45-59 | throws exactly for a nullish request; otherwise one reply, last; toggles and then replies 200 iff `req.mode` is truthy, else replies `bad request` without toggling |
| `Controllers.OnCmdVel` | src/socket/controllers.js:37-43 | throws exactly for a nullish request; never replies; publishes once iff both `req.vx` and `req.vt` are truthy |
| `Controllers.ZeroVelocityRejected` | src/socket/controllers.js:38 | a zero velocity on either axis publishes nothing |

## Left out

- The scale ratio itself (transformable.js:143, 154-159) is floating point, with an unguarded division by zero when the two previous positions coincide. The `scale` event carries the anchor and the two records compared instead of the ratio; `DistanceSquared` is the part of the distance without the square root, and `GestureProperties.CoincidentPressesScaleByZero` shows a trace that reaches the zero denominator.
- `Date` is not read: `Interpreter.Transformable.Release` takes `now`, which stands for both readings of the clock in `_pressup`.
- `Init`'s subscription to the easeljs stage (lines 24-31) is replaced by direct calls of the four methods.
- `console.log` and `console.error` are not modelled.
- `Interpreter.Transformable.On`: a handler is either a function (`Some`) or a falsy value (`None`). A truthy value that is not a function would throw when dispatched, and is not modelled.
- Handlers are opaque and are assumed to return normally: the model records which handler is called with which event, but not what it does. A handler that throws inside `dispatchEvent` (transformable.js:191) would abort the rest of its callback; a throwing `click` handler, for instance, would leave the transform flag and `lastPressUpTime` as they were and send no `complete`. A handler that calls back into the object, or mutates an event payload, is not modelled. Neither is the aliasing of the `scale` payload's `start` with a record's `current` object, which a later move mutates.
- `on` is modelled for the six event names the object dispatches; registering under any other name has no observable effect on the events and is not modelled.
- Stage coordinates are integers. easeljs gives `stageX` and `stageY` as floating point, so a drift strictly between 1 and 2 pixels on an axis, which the slop test at transformable.js:178-179 counts as more than TOUCH_SLOP, is not represented.
- Pointer ids are integers. A non-integer or string id (another property-name key) is not modelled.
- Records are only ever created by a press with all three positions set, so the `.start` and `.current` tests in the loops always pass. The loops are modelled without them.
- `Interpreter.LeadingRecords` requires `limit >= 1`; the source's two searches use the limits 1 and 2.
- `Interpreter.Transformable.Release` deletes without first testing presence; for an absent key, deleting leaves the table as it is, which is what the source's guarded delete does.
- In the controllers, numbers are integers (NaN, which is falsy, is not modelled). `req.method == 'set'` is taken to hold only for the string `set`; objects whose string conversion gives `set` are not modelled.
- The reply callback `fn` is assumed to be a function. When the client sent no acknowledgement callback, every `fn(...)` call throws a TypeError: the settings handlers then throw instead of replying, and `onLaunchMode` throws after the toggle (controllers.js:47-48). The `no throw` and `one reply` clauses of the handlers' contracts hold only under this assumption.
- The internals of `pubCmdVelMsg` and `rosControl.toggleRosLaunchMode` are foreign calls. They appear as effects, and a failure inside them is not modelled.
- src/roscontrol/lib/tr_hmi_goal.js is not part of this model. It is ROS publishing with floating-point angle conversion.
- Two behaviours of the code are easy to misread, and the model follows the code as written. A release is a click only when the previous release was more than 1000 ms earlier (transformable.js:111), not within 1000 ms of it. The time of every release is recorded, even a release that leaves fingers down (transformable.js:115), not just the time of a full release.
