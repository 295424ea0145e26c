/**
 * The socket request handlers of src/socket/controllers.js.
 *
 * Each handler receives a request value `req` and a reply callback `fn`.  Here a
 * handler is a function from the request to its `Outcome`: either the handler
 * returns normally after a sequence of effects (calls of `fn` with a response, and
 * the calls into the robot control layer), or evaluating `req.<field>` on
 * `undefined` or `null` throws a TypeError before anything happens.
 */
module Controllers {
  import opened Wrappers

  /** The JavaScript values a request and its fields can take (numbers are integers here). */
  datatype JsValue =
    | Undefined
    | Null
    | Bool(b: bool)
    | Num(n: int)
    | Str(s: string)
    | Obj(fields: map<string, JsValue>)

  predicate IsNullish(v: JsValue)
  {
    v == Undefined || v == Null
  }

  /** JavaScript truthiness: `undefined`, `null`, `false`, `0` and `""` are falsy. */
  predicate Truthy(v: JsValue)
  {
    match v
    case Undefined => false
    case Null => false
    case Bool(b) => b
    case Num(n) => n != 0
    case Str(s) => s != []
    case Obj(_) => true
  }

  /**
   * `v.key` for one of the request field names: None is the TypeError thrown for
   * `undefined` and `null`; a missing property reads as `undefined`, and so does
   * any of these names on a boolean, number or string.
   */
  function Property(v: JsValue, key: string): (r: Option<JsValue>)
    ensures r.None? <==> IsNullish(v)
    ensures v.Obj? && key in v.fields ==> r == Some(v.fields[key])
    ensures v.Obj? && key !in v.fields ==> r == Some(Undefined)
  {
    match v
    case Undefined => None
    case Null => None
    case Obj(fields) => if key in fields then Some(fields[key]) else Some(Undefined)
    case _ => Some(Undefined)
  }

  /** `req && req.method`, as the tested value: `undefined` stands for any falsy `req`. */
  function MethodOf(req: JsValue): JsValue
  {
    if Truthy(req) then Property(req, "method").value else Undefined
  }

  /** The `data` member of a success reply to `get` (`mapFile` is the `map` property; `map` is a Dafny keyword). */
  datatype Data =
    | MapData(mapFile: string)
    | SpeedData(maxVx: int, maxVt: int)

  /** The object passed to `fn`: `data` is absent except for `get`. */
  datatype Response = Response(code: int, message: string, data: Option<Data>)

  datatype Effect =
      /** `fn(response)` */
    | Reply(response: Response)
      /** `rosControl.toggleRosLaunchMode(mode)` */
    | ToggleLaunchMode(mode: JsValue)
      /** `pubCmdVelMsg(vx, vt)` */
    | PublishCmdVel(vx: JsValue, vt: JsValue)

  datatype Outcome = Returned(effects: seq<Effect>) | TypeError

  const MAP_FILE := "2105.yaml"
  const MAX_VX := 2
  const MAX_VT := 2

  const SUCCESS := Response(200, "success", None)
  const BAD_REQUEST := Response(500, "bad request", None)
  const BAD_METHOD := Response(500, "bad request method", None)

  /** The method strings the settings handlers accept; `==` against a string literal matches only that string here. */
  predicate IsMethod(req: JsValue, name: string)
  {
    MethodOf(req) == Str(name)
  }

  /** A well-formed settings request: a truthy request whose `method` is `set` or `get`. */
  predicate WellFormedSetting(req: JsValue)
  {
    Truthy(req) && Property(req, "method") in {Some(Str("set")), Some(Str("get"))}
  }

  /** The response of a settings handler that answers `get` with `current`. */
  function SettingResponse(req: JsValue, current: Data): (r: Response)
    ensures r.code == 200 <==> WellFormedSetting(req)
    ensures r.code == 200 || r.code == 500
    ensures r.code == 200 ==> r.message == "success"
    ensures r.code == 500 ==> r.data == None
    ensures r.code == 500 ==> r.message == if Truthy(MethodOf(req)) then "bad request method" else "bad request"
    ensures r.data.Some? <==> IsMethod(req, "get")
    ensures r.data.Some? ==> r.data.value == current
  {
    if Truthy(req) && Truthy(Property(req, "method").value) then
      if Property(req, "method").value == Str("set") then SUCCESS
      else if Property(req, "method").value == Str("get") then SUCCESS.(data := Some(current))
      else BAD_METHOD
    else BAD_REQUEST
  }

  /** `onMapSetting`: one reply, `{map: '2105.yaml'}` for `get`; the handler never throws for any `req`. */
  function OnMapSetting(req: JsValue): (o: Outcome)
    ensures o.Returned? && |o.effects| == 1 && o.effects[0].Reply?
    ensures var r := o.effects[0].response;
      && (r.code == 200 <==> WellFormedSetting(req))
      && (!Truthy(MethodOf(req)) ==> r == BAD_REQUEST)
      && (IsMethod(req, "set") ==> r == SUCCESS)
      && (IsMethod(req, "get") ==> r == Response(200, "success", Some(MapData("2105.yaml"))))
      && (Truthy(MethodOf(req)) && !WellFormedSetting(req) ==> r == BAD_METHOD)
  {
    Returned([Reply(SettingResponse(req, MapData(MAP_FILE)))])
  }

  /** `onSpeedSetting`: the same branches, `{maxVx: 2, maxVt: 2}` for `get`. */
  function OnSpeedSetting(req: JsValue): (o: Outcome)
    ensures o.Returned? && |o.effects| == 1 && o.effects[0].Reply?
    ensures var r := o.effects[0].response;
      && (r.code == 200 <==> WellFormedSetting(req))
      && (!Truthy(MethodOf(req)) ==> r == BAD_REQUEST)
      && (IsMethod(req, "set") ==> r == SUCCESS)
      && (IsMethod(req, "get") ==> r == Response(200, "success", Some(SpeedData(2, 2))))
      && (Truthy(MethodOf(req)) && !WellFormedSetting(req) ==> r == BAD_METHOD)
  {
    Returned([Reply(SettingResponse(req, SpeedData(MAX_VX, MAX_VT)))])
  }

  /** The two settings handlers answer every request with the same code and message; only `get` data differs. */
  lemma SettingsAgree(req: JsValue)
    ensures var m := OnMapSetting(req).effects[0].response;
      var v := OnSpeedSetting(req).effects[0].response;
      m.code == v.code && m.message == v.message && (m.data.Some? <==> v.data.Some?)
  {
  }

  /**
   * `onLaunchMode`: with a truthy `req.mode`, toggle the launch mode and then reply
   * success; otherwise reply `bad request` without toggling.  A nullish `req` throws.
   */
  function OnLaunchMode(req: JsValue): (o: Outcome)
    ensures o.TypeError? <==> IsNullish(req)
    ensures o.Returned? ==> |o.effects| >= 1 && o.effects[|o.effects| - 1].Reply?
    ensures o.Returned? ==> forall i :: 0 <= i < |o.effects| - 1 ==> !o.effects[i].Reply?
    ensures o.Returned? ==>
      var mode := Property(req, "mode").value;
      && (o.effects[|o.effects| - 1].response.code == 200 <==> Truthy(mode))
      && (Truthy(mode) ==> o.effects == [ToggleLaunchMode(mode), Reply(SUCCESS)])
      && (!Truthy(mode) ==> o.effects == [Reply(BAD_REQUEST)])
  {
    match Property(req, "mode")
    case None => TypeError
    case Some(mode) =>
      if Truthy(mode) then Returned([ToggleLaunchMode(mode), Reply(SUCCESS)])
      else Returned([Reply(BAD_REQUEST)])
  }

  /**
   * `onCmdVel`: publish the velocity command when both `req.vx` and `req.vt` are
   * truthy, otherwise do nothing; it never calls `fn`.  A nullish `req` throws.
   */
  function OnCmdVel(req: JsValue): (o: Outcome)
    ensures o.TypeError? <==> IsNullish(req)
    ensures o.Returned? ==> forall i :: 0 <= i < |o.effects| ==> !o.effects[i].Reply?
    ensures o.Returned? ==>
      var vx := Property(req, "vx").value;
      var vt := Property(req, "vt").value;
      o.effects == if Truthy(vx) && Truthy(vt) then [PublishCmdVel(vx, vt)] else []
  {
    match Property(req, "vx")
    case None => TypeError
    case Some(vx) =>
      if Truthy(vx) then
        var vt := Property(req, "vt").value;
        if Truthy(vt) then Returned([PublishCmdVel(vx, vt)]) else Returned([])
      else Returned([])
  }

  /** A zero velocity on either axis is rejected like a missing one: nothing is published. */
  lemma ZeroVelocityRejected(vx: JsValue, vt: JsValue, rest: map<string, JsValue>)
    requires vx == Num(0) || vt == Num(0)
    ensures OnCmdVel(Obj(rest["vx" := vx]["vt" := vt])) == Returned([])
  {
  }
}
