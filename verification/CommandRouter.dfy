/** components/messaging/command_router.c: parsing a config command and pushing it through the node. */
module CommandRouter {
  import opened Base
  import opened RuntimeConfig
  import opened MotionDetection
  import opened IrIlluminator
  import opened HeartbeatTask
  import opened TopicMap
  import TopicFilters
  import opened MqttService
  import PublishQueue

  // ---------------------------------------------------------------------------------------------
  // Parsed JSON and the extraction of supported keys.

  datatype Json = JString(text: string) | JNumber(num: real) | JBool(flag: bool) | JOther

  type JsonObject = map<string, Json>

  datatype Extracted<T> = Absent | Present(value: T) | Malformed

  const HEARTBEAT_FIELD := "heartbeat_interval_s"
  const ENABLED_FIELD := "motion_detection_enabled"
  const WARMUP_FIELD := "motion_warmup_ms"
  const COOLDOWN_FIELD := "motion_cooldown_ms"
  const MODE_FIELD := "ir_illuminator_mode"
  const REQUEST_ID_FIELD := "request_id"
  const MODE_BUFFER_LEN := 16

  /** A number is taken exactly when it is a whole number of the u32 range. */
  function ExtractU32(obj: JsonObject, name: string): (r: Extracted<u32>)
    ensures r.Absent? <==> name !in obj
    ensures forall n: u32 :: r == Present(n) <==> name in obj && obj[name] == JNumber(n as real)
  {
    if name !in obj then Absent
    else if !obj[name].JNumber? then Malformed
    else
      var raw := obj[name].num;
      if raw < 0.0 || raw > 4294967295.0 then Malformed
      else
        var parsed: u32 := raw.Floor;
        if parsed as real != raw then Malformed else Present(parsed)
  }

  function ExtractBool(obj: JsonObject, name: string): Extracted<bool> {
    if name !in obj then Absent
    else if !obj[name].JBool? then Malformed
    else Present(obj[name].flag)
  }

  /** Strings that do not fit the caller's buffer with their terminator are rejected. */
  function ExtractString(obj: JsonObject, name: string, bufferLen: nat): Extracted<string> {
    if name !in obj then Absent
    else if !obj[name].JString? || |obj[name].text| >= bufferLen then Malformed
    else Present(obj[name].text)
  }

  predicate IsU32Field(obj: JsonObject, name: string) {
    name in obj ==> obj[name].JNumber? && 0.0 <= obj[name].num <= 4294967295.0 && obj[name].num.Floor as real == obj[name].num
  }

  /** Every supported key that occurs has the documented type; all other keys are free. */
  predicate WellTyped(obj: JsonObject) {
    && IsU32Field(obj, HEARTBEAT_FIELD)
    && (ENABLED_FIELD in obj ==> obj[ENABLED_FIELD].JBool?)
    && IsU32Field(obj, WARMUP_FIELD)
    && IsU32Field(obj, COOLDOWN_FIELD)
    && (MODE_FIELD in obj ==> obj[MODE_FIELD].JString? && ParseMode(obj[MODE_FIELD].text).Some?)
  }

  function U32Field(obj: JsonObject, name: string): Option<u32>
    requires IsU32Field(obj, name)
  {
    if name in obj then Some(obj[name].num.Floor) else None
  }

  /** The patch a well-typed command asks for. */
  function PatchOf(obj: JsonObject): Patch
    requires WellTyped(obj)
  {
    Patch(
      U32Field(obj, HEARTBEAT_FIELD),
      if ENABLED_FIELD in obj then Some(obj[ENABLED_FIELD].flag) else None,
      U32Field(obj, WARMUP_FIELD),
      U32Field(obj, COOLDOWN_FIELD),
      if MODE_FIELD in obj then ParseMode(obj[MODE_FIELD].text) else None)
  }

  /** Field-by-field parsing succeeds exactly on well-typed commands and yields their patch. */
  method ParsePatch(obj: JsonObject) returns (err: Err, patch: Patch)
    ensures err == if WellTyped(obj) then Ok else InvalidArg
    ensures WellTyped(obj) ==> patch == PatchOf(obj)
  {
    patch := EMPTY_PATCH;
    err := Ok;

    var number := ExtractU32(obj, HEARTBEAT_FIELD);
    if number.Present? { patch := patch.(heartbeatIntervalS := Some(number.value)); }
    else if number.Malformed? { err := InvalidArg; }

    if err == Ok {
      var flag := ExtractBool(obj, ENABLED_FIELD);
      if flag.Present? { patch := patch.(motionEnabled := Some(flag.value)); }
      else if flag.Malformed? { err := InvalidArg; }
    }

    if err == Ok {
      number := ExtractU32(obj, WARMUP_FIELD);
      if number.Present? { patch := patch.(motionWarmupMs := Some(number.value)); }
      else if number.Malformed? { err := InvalidArg; }
    }

    if err == Ok {
      number := ExtractU32(obj, COOLDOWN_FIELD);
      if number.Present? { patch := patch.(motionCooldownMs := Some(number.value)); }
      else if number.Malformed? { err := InvalidArg; }
    }

    if err == Ok {
      var text := ExtractString(obj, MODE_FIELD, MODE_BUFFER_LEN);
      if text.Present? {
        var mode := ParseMode(text.value);
        if mode.Some? { patch := patch.(irMode := mode); } else { err := InvalidArg; }
      } else if text.Malformed? {
        err := InvalidArg;
      }
    }
  }

  // ---------------------------------------------------------------------------------------------
  // The live services and the command as functions on values.

  datatype Services = Services(motion: DetectorState, ir: IlluminatorState, intervalS: u32)

  /** Outcome of one push of a snapshot: the clock the detector reads and the GPIO write. */
  datatype ApplyEnv = ApplyEnv(nowUs: int, gpio: Err)

  datatype CommandEnv = CommandEnv(forward: ApplyEnv, persist: PersistEnv, back: ApplyEnv)

  /** RAM, flash and live services of one node between two commands. */
  datatype World = World(initialized: bool, stored: Settings, flash: Image, services: Services)

  function LiveError(b: Build, s: Services, c: Settings, env: ApplyEnv): Err {
    if SettingsError(b.hasMotion, s.motion) != Ok then SettingsError(b.hasMotion, s.motion)
    else if ModeError(b, s.ir, c.irMode, env.gpio) != Ok then ModeError(b, s.ir, c.irMode, env.gpio)
    else if IntervalIsAccepted(c.heartbeatIntervalS) then Ok else InvalidArg
  }

  function WithMotion(b: Build, s: Services, c: Settings, nowUs: int): Services {
    s.(motion := WithSettings(b.hasMotion, s.motion, nowUs, c.motionEnabled, c.motionWarmupMs, c.motionCooldownMs))
  }

  /** Services after pushing the snapshot `c`: detector, then illuminator, then heartbeat, up to the first failure. */
  function AfterApply(b: Build, s: Services, c: Settings, env: ApplyEnv): Services {
    if SettingsError(b.hasMotion, s.motion) != Ok then s
    else if ModeError(b, s.ir, c.irMode, env.gpio) != Ok then WithMotion(b, s, c, env.nowUs)
    else WithMotion(b, s, c, env.nowUs).(
      ir := WithMode(b, s.ir, c.irMode, env.gpio),
      intervalS := if IntervalIsAccepted(c.heartbeatIntervalS) then c.heartbeatIntervalS else s.intervalS)
  }

  /** Why a command is turned down before anything is touched. */
  function CheckError(b: Build, w: World, obj: JsonObject): Err {
    if !WellTyped(obj) then InvalidArg
    else if !w.initialized then InvalidState
    else Validate(b, PatchOf(obj))
  }

  function Previous(b: Build, w: World): Settings { Gate(b, w.stored) }

  function Next(b: Build, w: World, p: Patch): Settings { Overlay(Previous(b, w), p) }

  function ForwardError(b: Build, w: World, p: Patch, env: CommandEnv): Err {
    LiveError(b, w.services, Next(b, w, p), env.forward)
  }

  function StoreError(b: Build, w: World, p: Patch, env: CommandEnv): Err {
    ApplyPatchError(b, w.initialized, p, true, env.persist)
  }

  function UpdateError(b: Build, w: World, p: Patch, env: CommandEnv): Err {
    if ForwardError(b, w, p, env) != Ok then ForwardError(b, w, p, env) else StoreError(b, w, p, env)
  }

  /** A validated, non-empty patch: push forward, store, and push the previous snapshot back on any failure. */
  function AfterUpdate(b: Build, w: World, p: Patch, env: CommandEnv): World {
    var pushed := AfterApply(b, w.services, Next(b, w, p), env.forward);
    if UpdateError(b, w, p, env) == Ok
    then World(w.initialized, Overlay(w.stored, p), w.flash + PatchImage(p), pushed)
    else w.(services := AfterApply(b, pushed, Previous(b, w), env.back))
  }

  predicate Updates(b: Build, w: World, obj: JsonObject) {
    CheckError(b, w, obj) == Ok && PatchOf(obj) != EMPTY_PATCH
  }

  function CommandError(b: Build, w: World, obj: JsonObject, env: CommandEnv): Err {
    if Updates(b, w, obj) then UpdateError(b, w, PatchOf(obj), env) else CheckError(b, w, obj)
  }

  function AfterCommand(b: Build, w: World, obj: JsonObject, env: CommandEnv): World {
    if Updates(b, w, obj) then AfterUpdate(b, w, PatchOf(obj), env) else w
  }

  datatype ErrorCode = InvalidConfig | UnsupportedFeature | ApplyFailed

  /** The reply payload: outcome, error code, `updated` flag and the configuration it reports. */
  datatype ConfigReply = ConfigReply(ok: bool, error: Option<ErrorCode>, updated: bool, config: Settings)

  function ReplyFor(b: Build, w: World, obj: JsonObject, env: CommandEnv): ConfigReply {
    var err := CommandError(b, w, obj, env);
    ConfigReply(
      err == Ok,
      if err == Ok then None
      else if Updates(b, w, obj) then Some(ApplyFailed)
      else if err == NotSupported then Some(UnsupportedFeature)
      else if err == InvalidArg then Some(InvalidConfig)
      else Some(ApplyFailed),
      err == Ok && Updates(b, w, obj),
      Gate(b, AfterCommand(b, w, obj, env).stored))
  }

  /** What answering a command depends on besides the command: the reply object can be allocated, how reply and event
      print (None when they do not fit), and what other tasks do to the queue before each push. */
  datatype ReplyEnv = ReplyEnv(
    alloc: bool,
    rendered: ConfigReply -> Option<seq<byte>>,
    event: Option<seq<byte>>,
    others: nat -> seq<PublishQueue.Event>)

  function EventPushes(me: nat, node: string, reply: ConfigReply, env: ReplyEnv): seq<PublishQueue.Event> {
    if reply.updated && env.event.Some?
    then [PublishQueue.Push(me, Item(Render(node, NodeEvent), env.event.value, 1, false))]
    else []
  }

  function ReplyPushes(me: nat, node: string, topicMax: nat, id: string, reply: ConfigReply, env: ReplyEnv)
    : seq<PublishQueue.Event>
  {
    if env.rendered(reply).Some? && FormatError(topicMax, id, Render(node, Reply(id))) == Ok
    then [PublishQueue.Push(me, Item(Render(node, Reply(id)), env.rendered(reply).value, 1, false))]
    else []
  }

  /** What happens to the publish queue while a config command is answered: an event if it changed something, then the
      reply, among the doings of other tasks. */
  function AnswerEvents(me: nat, node: string, topicMax: nat, id: string, reply: ConfigReply, env: ReplyEnv)
    : seq<PublishQueue.Event>
  {
    env.others(0) +
    if env.alloc
    then EventPushes(me, node, reply, env) + env.others(1) + ReplyPushes(me, node, topicMax, id, reply, env)
    else []
  }

  lemma AnswerUnfolds(lim: PublishQueue.Limits, s: PublishQueue.QueueState, me: nat, node: string, topicMax: nat, id: string,
                      reply: ConfigReply, env: ReplyEnv)
    ensures var s1 := PublishQueue.Run(lim, s, env.others(0));
      var s2 := PublishQueue.Run(lim, s1, EventPushes(me, node, reply, env));
      var s3 := PublishQueue.Run(lim, s2, env.others(1));
      PublishQueue.Run(lim, s, AnswerEvents(me, node, topicMax, id, reply, env)) ==
        if env.alloc then PublishQueue.Run(lim, s3, ReplyPushes(me, node, topicMax, id, reply, env)) else s1
  {
    var a, b, c, d := env.others(0), EventPushes(me, node, reply, env), env.others(1), ReplyPushes(me, node, topicMax, id, reply, env);
    if env.alloc {
      PublishQueue.RunSplit(lim, s, a, b + c + d);
      var s1 := PublishQueue.Run(lim, s, a);
      PublishQueue.RunSplit(lim, s1, b + c, d);
      PublishQueue.RunSplit(lim, s1, b, c);
    } else {
      assert a + [] == a;
    }
  }

  // ---------------------------------------------------------------------------------------------
  // Dispatch.

  /** What one incoming message leads to. */
  datatype Dispatch =
    | Ignored
    | Ping(id: string)
    | Config(id: string, reply: ConfigReply)
    | Reboot(id: string)
    | Capture(id: string)

  /** The node's own topic for a command, or the broadcast one. */
  predicate IsTopicOf(node: string, name: string, topic: string) {
    topic == "vision/nodes/" + node + "/cmd/" + name || topic == "vision/broadcast/cmd/" + name
  }

  predicate IsAnyCommand(node: string, topic: string) {
    || IsTopicOf(node, "ping", topic) || IsTopicOf(node, "config", topic)
    || IsTopicOf(node, "reboot", topic) || IsTopicOf(node, "capture", topic)
  }

  lemma CommandTexts(node: string, name: string, topic: string)
    ensures IsCommand(node, name, topic) <==> IsTopicOf(node, name, topic)
  {
    CommandText(node, name);
  }

  predicate HasRequestId(obj: JsonObject, idMax: nat) {
    "request_id" in obj && obj["request_id"].JString? && |obj["request_id"].text| < idMax
  }

  /** A message the router acts on: a command topic, a payload that fits, a JSON object and a request ID that fits. */
  predicate IsActionable(node: string, idMax: nat, jsonMax: nat, topic: string, payloadLen: nat, parsed: Option<JsonObject>) {
    && IsAnyCommand(node, topic)
    && 0 < payloadLen < jsonMax
    && parsed.Some?
    && HasRequestId(parsed.value, idMax)
  }

  /** The handler a command topic selects; by exclusivity the order of the tests is immaterial. */
  predicate SelectedBy(node: string, topic: string, d: Dispatch) {
    match d
    case Ignored => !IsAnyCommand(node, topic)
    case Ping(_) => IsTopicOf(node, "ping", topic)
    case Config(_, _) => IsTopicOf(node, "config", topic)
    case Reboot(_) => IsTopicOf(node, "reboot", topic)
    case Capture(_) => IsTopicOf(node, "capture", topic)
  }

  /** No command topic is too long for the local topic buffer. */
  lemma CommandTopicFits(node: string, idMax: nat, topicMax: nat, topic: string)
    requires NodeIdFits(node, idMax, topicMax) && topicMax >= 32 && IsAnyCommand(node, topic)
    ensures |topic| < topicMax
  {
  }

  // ---------------------------------------------------------------------------------------------
  // The router itself.

  class Router {
    const config: ConfigStore
    const detector: Detector
    const illuminator: Illuminator
    const heartbeat: Heartbeat
    const topics: TopicTable
    const queue: PublishQueue.Queue
    const jsonMax: nat

    ghost predicate Wired() {
      detector.supported == config.build.hasMotion && illuminator.config == config
    }

    constructor (config: ConfigStore, detector: Detector, illuminator: Illuminator, heartbeat: Heartbeat,
                 topics: TopicTable, queue: PublishQueue.Queue, jsonMax: nat)
      requires detector.supported == config.build.hasMotion && illuminator.config == config
      ensures Wired()
      ensures this.config == config && this.detector == detector
      ensures this.illuminator == illuminator && this.heartbeat == heartbeat
      ensures this.topics == topics && this.queue == queue && this.jsonMax == jsonMax
    {
      this.topics, this.queue, this.jsonMax := topics, queue, jsonMax;
      this.config, this.detector, this.illuminator, this.heartbeat := config, detector, illuminator, heartbeat;
    }

    ghost function Live(): Services
      reads detector, illuminator, heartbeat
    {
      Services(detector.State(), illuminator.State(), heartbeat.intervalS)
    }

    ghost function Node(): World
      reads config, config.nvs, detector, illuminator, heartbeat
    {
      World(config.initialized, config.Stored(), config.nvs.committed, Live())
    }

    method ApplyLiveConfig(c: Settings, env: ApplyEnv) returns (err: Err)
      requires Wired()
      modifies detector, illuminator, heartbeat
      ensures err == LiveError(config.build, old(Live()), c, env)
      ensures Live() == AfterApply(config.build, old(Live()), c, env)
    {
      err := detector.ApplySettings(c.motionEnabled, c.motionWarmupMs, c.motionCooldownMs, env.nowUs);
      if err != Ok { return; }
      err := illuminator.ApplyMode(c.irMode, env.gpio);
      if err != Ok { return; }
      err := heartbeat.SetInterval(c.heartbeatIntervalS);
    }

    /** Push, persist, and on failure push the previous snapshot back, ignoring the outcome of that push. */
    method ApplyUpdate(patch: Patch, previous: Settings, env: CommandEnv) returns (err: Err)
      requires Wired() && previous == Previous(config.build, Node())
      modifies config, config.nvs, detector, illuminator, heartbeat
      ensures err == UpdateError(config.build, old(Node()), patch, env)
      ensures Validate(config.build, patch) == Ok && patch != EMPTY_PATCH && old(config.initialized) ==>
        Node() == AfterUpdate(config.build, old(Node()), patch, env)
    {
      var next := Overlay(previous, patch);
      err := ApplyLiveConfig(next, env.forward);
      if err == Ok {
        err := config.ApplyPatch(patch, true, env.persist);
      }
      if err != Ok {
        var _ := ApplyLiveConfig(previous, env.back);
      }
    }

    /** Push a reply on the topic of its request, if there is one. */
    method PublishReply(ghost me: nat, requestId: string, payload: seq<byte>) returns (err: Err)
      requires topics.Ready()
      modifies queue
      ensures var item := Item(Render(topics.nodeId, Reply(requestId)), payload, 1, false);
        var unformatted := FormatError(topics.topicMax, requestId, item.topic);
        && err == (if unformatted != Ok then unformatted else PublishQueue.PushError(queue.limits, old(queue.State()), item))
        && queue.State() ==
             if unformatted != Ok then old(queue.State())
             else PublishQueue.Step(queue.limits, old(queue.State()), PublishQueue.Push(me, item))
    {
      var topic := new TextBuffer(topics.topicMax);
      err := topics.FormatReply(topic, requestId);
      if err != Ok { return; }
      err := queue.PushItem(me, topic.text, payload, 1, false);
    }

    /** Announce an update; a failure is logged only. */
    method Announce(ghost me: nat, reply: ConfigReply, env: ReplyEnv)
      requires topics.Ready()
      modifies queue
      ensures queue.State() ==
        PublishQueue.Run(queue.limits, old(queue.State()), EventPushes(me, topics.nodeId, reply, env))
    {
      if reply.updated && env.event.Some? {
        var _ := queue.PushItem(me, topics.event, env.event.value, 1, false);
      }
    }

    /** Print and publish the reply; a failure is logged only. */
    method SendReply(ghost me: nat, requestId: string, reply: ConfigReply, env: ReplyEnv)
      requires topics.Ready()
      modifies queue
      ensures queue.State() == PublishQueue.Run(queue.limits, old(queue.State()),
        ReplyPushes(me, topics.nodeId, topics.topicMax, requestId, reply, env))
    {
      var payload := env.rendered(reply);
      if payload.Some? {
        var _ := PublishReply(me, requestId, payload.value);
      }
    }

    /** The publications that end a config command. */
    method Answer(ghost me: nat, requestId: string, reply: ConfigReply, env: ReplyEnv)
      requires topics.Ready()
      modifies queue, queue.client
      ensures queue.State() == PublishQueue.Run(queue.limits, old(queue.State()),
        AnswerEvents(me, topics.nodeId, topics.topicMax, requestId, reply, env))
    {
      AnswerUnfolds(queue.limits, queue.State(), me, topics.nodeId, topics.topicMax, requestId, reply, env);
      queue.Interfere(env.others(0));
      if env.alloc {
        Announce(me, reply, env);
        queue.Interfere(env.others(1));
        SendReply(me, requestId, reply, env);
      }
    }

    /** Parse, check, apply, and fill in the reply. */
    method ExecuteConfig(obj: JsonObject, env: CommandEnv) returns (reply: ConfigReply)
      requires Wired()
      modifies config, config.nvs, detector, illuminator, heartbeat
      ensures Node() == AfterCommand(config.build, old(Node()), obj, env)
      ensures reply == ReplyFor(config.build, old(Node()), obj, env)
    {
      var previous := config.Exposed();
      var updated := false;
      var errorCode := InvalidConfig;

      var err, patch := ParsePatch(obj);
      if err == Ok {
        err := config.ValidatePatch(patch);
      }

      if err == Ok {
        updated := patch != EMPTY_PATCH;
        if updated {
          err := ApplyUpdate(patch, previous, env);
          if err != Ok { errorCode := ApplyFailed; }
        }
      } else if err == NotSupported {
        errorCode := UnsupportedFeature;
      } else if err != InvalidArg {
        errorCode := ApplyFailed;
      }

      reply := ConfigReply(err == Ok, if err == Ok then None else Some(errorCode), err == Ok && updated, config.Exposed());
    }

    method HandleConfig(ghost me: nat, requestId: string, obj: JsonObject, env: CommandEnv, answer: ReplyEnv)
      returns (reply: ConfigReply)
      requires Wired() && topics.Ready()
      modifies config, config.nvs, detector, illuminator, heartbeat, queue, queue.client
      ensures Node() == AfterCommand(config.build, old(Node()), obj, env)
      ensures reply == ReplyFor(config.build, old(Node()), obj, env)
      ensures queue.State() == PublishQueue.Run(queue.limits, old(queue.State()),
        AnswerEvents(me, topics.nodeId, topics.topicMax, requestId, reply, answer))
    {
      reply := ExecuteConfig(obj, env);
      Answer(me, requestId, reply, answer);
    }

    /** One incoming MQTT message, its payload already offered to the JSON parser: `parsed` is None unless that gave an
        object. Only a config command touches the node, and every other message leaves it as it was. What the other three
        commands publish is not part of this model. */
    method Handle(ghost me: nat, topic: string, payloadLen: nat, parsed: Option<JsonObject>, env: CommandEnv, answer: ReplyEnv)
      returns (d: Dispatch)
      requires Wired() && topics.Ready() && topics.topicMax >= 32
      modifies config, config.nvs, detector, illuminator, heartbeat, queue, queue.client
      ensures d.Ignored? <==> !IsActionable(topics.nodeId, topics.idMax, jsonMax, topic, payloadLen, parsed)
      ensures !d.Ignored? ==> SelectedBy(topics.nodeId, topic, d) && d.id == parsed.value["request_id"].text
      ensures d.Config? ==>
        && Node() == AfterCommand(config.build, old(Node()), parsed.value, env)
        && d.reply == ReplyFor(config.build, old(Node()), parsed.value, env)
        && queue.State() == PublishQueue.Run(queue.limits, old(queue.State()),
             AnswerEvents(me, topics.nodeId, topics.topicMax, d.id, d.reply, answer))
      ensures d.Ignored? ==> queue.State() == old(queue.State())
      ensures !d.Config? ==> Node() == old(Node())
    {
      if IsAnyCommand(topics.nodeId, topic) { CommandTopicFits(topics.nodeId, topics.idMax, topics.topicMax, topic); }
      forall name: string ensures IsCommand(topics.nodeId, name, topic) <==> IsTopicOf(topics.nodeId, name, topic) {
        CommandTexts(topics.nodeId, name, topic);
      }
      if |topic| >= topics.topicMax { return Ignored; }
      if !topics.IsPing(topic) && !topics.IsConfig(topic) && !topics.IsReboot(topic) && !topics.IsCapture(topic) {
        return Ignored;
      }
      if payloadLen == 0 { return Ignored; }
      if payloadLen >= jsonMax { return Ignored; }
      if parsed.None? { return Ignored; }
      var id := ExtractString(parsed.value, REQUEST_ID_FIELD, topics.idMax);
      if !id.Present? { return Ignored; }

      if topics.IsPing(topic) {
        d := Ping(id.value);
      } else if topics.IsConfig(topic) {
        var reply := HandleConfig(me, id.value, parsed.value, env, answer);
        d := Config(id.value, reply);
      } else if topics.IsReboot(topic) {
        d := Reboot(id.value);
      } else {
        d := Capture(id.value);
      }
    }
  }

  /** The dispatch result names its handler uniquely. */
  lemma DispatchIsUnique(node: string, topic: string, d: Dispatch, e: Dispatch)
    requires SelectedBy(node, topic, d) && SelectedBy(node, topic, e)
    ensures d.Ignored? == e.Ignored? && d.Ping? == e.Ping? && d.Config? == e.Config?
    ensures d.Reboot? == e.Reboot? && d.Capture? == e.Capture?
  {
    forall a: string, b: string | IsTopicOf(node, a, topic) && IsTopicOf(node, b, topic) ensures a == b {
      CommandTexts(node, a, topic);
      CommandTexts(node, b, topic);
      TopicFilters.CommandsAreExclusive(node, topic, a, b);
    }
    assert "ping"[0] == 'p' && "reboot"[0] == 'r' && "config"[0] == 'c' && "capture"[0] == 'c';
    assert "config"[1] == 'o' && "capture"[1] == 'a';
  }
}
