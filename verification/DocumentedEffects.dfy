/** What commands, toggles and boots do, in the words of the documentation: JSON names and values, ranges, stored codes and
    pin levels. */
module DocumentedEffects {
  import opened Base
  import opened RuntimeConfig
  import opened IrIlluminator
  import opened CommandRouter
  import opened ConfigLaws

  // ---------------------------------------------------------------------------------------------
  // Which commands are accepted.

  predicate IsWhole(v: Json, low: int, high: int) {
    v.JNumber? && v.num == v.num.Floor as real && low <= v.num.Floor <= high
  }

  /** Every supported key has its documented type. */
  predicate TypesAreRight(obj: JsonObject) {
    && ("heartbeat_interval_s" in obj ==> IsWhole(obj["heartbeat_interval_s"], 0, 4294967295))
    && ("motion_detection_enabled" in obj ==> obj["motion_detection_enabled"].JBool?)
    && ("motion_warmup_ms" in obj ==> IsWhole(obj["motion_warmup_ms"], 0, 4294967295))
    && ("motion_cooldown_ms" in obj ==> IsWhole(obj["motion_cooldown_ms"], 0, 4294967295))
    && ("ir_illuminator_mode" in obj ==>
          obj["ir_illuminator_mode"] in {JString("off"), JString("on"), JString("capture")})
  }

  predicate RangesAreRight(obj: JsonObject) {
    && ("heartbeat_interval_s" in obj ==> IsWhole(obj["heartbeat_interval_s"], 1, 3600))
    && ("motion_warmup_ms" in obj ==> IsWhole(obj["motion_warmup_ms"], 0, 120000))
    && ("motion_cooldown_ms" in obj ==> IsWhole(obj["motion_cooldown_ms"], 0, 60000))
  }

  predicate FeaturesArePresent(b: Build, obj: JsonObject) {
    && ("motion_detection_enabled" in obj || "motion_warmup_ms" in obj || "motion_cooldown_ms" in obj ==> b.hasMotion)
    && ("ir_illuminator_mode" in obj ==> b.hasIr)
  }

  predicate Mentions(obj: JsonObject) {
    || "heartbeat_interval_s" in obj || "motion_detection_enabled" in obj || "motion_warmup_ms" in obj
    || "motion_cooldown_ms" in obj || "ir_illuminator_mode" in obj
  }

  lemma TypesDecideParsing(obj: JsonObject)
    ensures WellTyped(obj) <==> TypesAreRight(obj)
    ensures WellTyped(obj) ==> (PatchOf(obj) != EMPTY_PATCH <==> Mentions(obj))
  {
    if MODE_FIELD in obj && obj[MODE_FIELD].JString? {
      var text := obj[MODE_FIELD].text;
      assert ParseMode(text).Some? <==> text in {"off", "on", "capture"};
    }
  }

  /** A command is accepted if and only if types, ranges and features are right. A refused one changes nothing at all;
      wrong types, or wrong ranges with every feature present, are an invalid configuration, and a missing feature with
      nothing else wrong is an unsupported one. */
  lemma AcceptedExactly(b: Build, w: World, obj: JsonObject, env: CommandEnv)
    requires w.initialized
    ensures var right := TypesAreRight(obj) && RangesAreRight(obj) && FeaturesArePresent(b, obj);
      var reply := ReplyFor(b, w, obj, env);
      && (CheckError(b, w, obj) == Ok <==> right)
      && (!right ==> AfterCommand(b, w, obj, env) == w && !reply.ok && !reply.updated)
      && (!TypesAreRight(obj) ==> reply.error == Some(InvalidConfig))
      && (TypesAreRight(obj) && !RangesAreRight(obj) && FeaturesArePresent(b, obj) ==> reply.error == Some(InvalidConfig))
      && (TypesAreRight(obj) && RangesAreRight(obj) && !FeaturesArePresent(b, obj) ==> reply.error == Some(UnsupportedFeature))
  {
    TypesDecideParsing(obj);
  }

  /** Before initialisation every command fails and changes nothing. */
  lemma RefusedBeforeInitialisation(b: Build, w: World, obj: JsonObject, env: CommandEnv)
    requires !w.initialized
    ensures AfterCommand(b, w, obj, env) == w && !ReplyFor(b, w, obj, env).ok
    ensures TypesAreRight(obj) ==> ReplyFor(b, w, obj, env).error == Some(ApplyFailed)
  {
    TypesDecideParsing(obj);
  }

  /** An accepted command succeeds when no driver call fails; it is an update exactly when it mentions a supported key. */
  lemma AcceptedSucceeds(b: Build, w: World, obj: JsonObject, env: CommandEnv)
    requires b.Valid() && Running(b, w) && AllWell(env)
    requires TypesAreRight(obj) && RangesAreRight(obj) && FeaturesArePresent(b, obj)
    ensures ReplyFor(b, w, obj, env).ok && (ReplyFor(b, w, obj, env).updated <==> Mentions(obj))
  {
    TypesDecideParsing(obj);
    AcceptedExactly(b, w, obj, env);
    var p := PatchOf(obj);
    NextIsSound(b, w, p);
    PushOutcome(b, w, Next(b, w, p), env.forward);
    AllWritesSucceed(p, env.persist, 0);
  }

  // ---------------------------------------------------------------------------------------------
  // What a successful command does to each field.

  predicate SameEntry(k: NvsKey, before: Image, after: Image) {
    (k in after <==> k in before) && (k in after ==> after[k] == before[k])
  }

  predicate HoldsEntry(k: NvsKey, v: int, img: Image) { k in img && img[k] == v }

  /** The facts every field law starts from. */
  lemma SuccessUnfolds(b: Build, w: World, obj: JsonObject, env: CommandEnv)
    requires b.Valid() && Running(b, w) && CommandError(b, w, obj, env) == Ok
    ensures TypesAreRight(obj) && WellTyped(obj) && RangesAreRight(obj) && FeaturesArePresent(b, obj)
    ensures var after := AfterCommand(b, w, obj, env);
      && after.stored == Overlay(w.stored, PatchOf(obj))
      && after.flash == (if Mentions(obj) then w.flash + PatchImage(PatchOf(obj)) else w.flash)
      && (Mentions(obj) ==> LiveMatches(b, after.services, after.stored))
      && ReplyFor(b, w, obj, env).config == after.stored
  {
    AcceptedExactly(b, w, obj, env);
    TypesDecideParsing(obj);
    SuccessEstablishesAgreement(b, w, obj, env);
    OverlayKeepsSound(b, w.stored, PatchOf(obj));
    OverlayKeepsSound(b, Overlay(w.stored, PatchOf(obj)), EMPTY_PATCH);
  }

  lemma HeartbeatEffect(b: Build, w: World, obj: JsonObject, env: CommandEnv)
    requires b.Valid() && Running(b, w) && CommandError(b, w, obj, env) == Ok
    ensures var after := AfterCommand(b, w, obj, env);
      var value := after.stored.heartbeatIntervalS;
      && (if "heartbeat_interval_s" in obj
          then obj["heartbeat_interval_s"] == JNumber(value as real) && HoldsEntry(HbIntS, value, after.flash)
          else value == w.stored.heartbeatIntervalS && SameEntry(HbIntS, w.flash, after.flash))
      && (Mentions(obj) ==> after.services.intervalS == value)
      && ReplyFor(b, w, obj, env).config.heartbeatIntervalS == value
  {
    SuccessUnfolds(b, w, obj, env);
    PatchImageLookup(PatchOf(obj), HbIntS);
  }

  lemma EnableEffect(b: Build, w: World, obj: JsonObject, env: CommandEnv)
    requires b.Valid() && Running(b, w) && CommandError(b, w, obj, env) == Ok
    ensures var after := AfterCommand(b, w, obj, env);
      var value := after.stored.motionEnabled;
      && (if "motion_detection_enabled" in obj
          then obj["motion_detection_enabled"] == JBool(value) && HoldsEntry(MotionEn, if value then 1 else 0, after.flash)
          else value == w.stored.motionEnabled && SameEntry(MotionEn, w.flash, after.flash))
      && (Mentions(obj) && b.hasMotion ==> after.services.motion.started == value)
      && ReplyFor(b, w, obj, env).config.motionEnabled == value
  {
    SuccessUnfolds(b, w, obj, env);
    PatchImageLookup(PatchOf(obj), MotionEn);
  }

  lemma WarmupEffect(b: Build, w: World, obj: JsonObject, env: CommandEnv)
    requires b.Valid() && Running(b, w) && CommandError(b, w, obj, env) == Ok
    ensures var after := AfterCommand(b, w, obj, env);
      var value := after.stored.motionWarmupMs;
      && (if "motion_warmup_ms" in obj
          then obj["motion_warmup_ms"] == JNumber(value as real) && HoldsEntry(MotionWu, value, after.flash)
          else value == w.stored.motionWarmupMs && SameEntry(MotionWu, w.flash, after.flash))
      && (Mentions(obj) && b.hasMotion ==> after.services.motion.warmupMs == value)
      && ReplyFor(b, w, obj, env).config.motionWarmupMs == value
  {
    SuccessUnfolds(b, w, obj, env);
    PatchImageLookup(PatchOf(obj), MotionWu);
  }

  lemma CooldownEffect(b: Build, w: World, obj: JsonObject, env: CommandEnv)
    requires b.Valid() && Running(b, w) && CommandError(b, w, obj, env) == Ok
    ensures var after := AfterCommand(b, w, obj, env);
      var value := after.stored.motionCooldownMs;
      && (if "motion_cooldown_ms" in obj
          then obj["motion_cooldown_ms"] == JNumber(value as real) && HoldsEntry(MotionCd, value, after.flash)
          else value == w.stored.motionCooldownMs && SameEntry(MotionCd, w.flash, after.flash))
      && (Mentions(obj) && b.hasMotion ==> after.services.motion.cooldownMs == value)
      && ReplyFor(b, w, obj, env).config.motionCooldownMs == value
  {
    SuccessUnfolds(b, w, obj, env);
    PatchImageLookup(PatchOf(obj), MotionCd);
  }

  /** The stored code of a mode text. */
  predicate IsModeCode(text: string, code: int) {
    (text == "off" && code == 0) || (text == "on" && code == 1) || (text == "capture" && code == 2)
  }

  lemma ModeEffect(b: Build, w: World, obj: JsonObject, env: CommandEnv)
    requires b.Valid() && Running(b, w) && CommandError(b, w, obj, env) == Ok
    ensures var after := AfterCommand(b, w, obj, env);
      var value := after.stored.irMode;
      && (if "ir_illuminator_mode" in obj
          then obj["ir_illuminator_mode"].JString? && IsModeCode(obj["ir_illuminator_mode"].text, value)
               && HoldsEntry(IrModeKey, value, after.flash)
          else value == w.stored.irMode && SameEntry(IrModeKey, w.flash, after.flash))
      && ReplyFor(b, w, obj, env).config.irMode == value
  {
    SuccessUnfolds(b, w, obj, env);
    PatchImageLookup(PatchOf(obj), IrModeKey);
  }

  // ---------------------------------------------------------------------------------------------
  // The light.

  /** The illuminator is on, or off, in its own books and on the pin. */
  predicate LightIs(b: Build, s: IlluminatorState, on: bool) {
    && s.outputOn == on
    && s.pinLevel == if b.irActiveHigh then (if on then 1 else 0) else (if on then 0 else 1)
  }

  /** In mode 1 the light is on, in mode 0 off, and in mode 2 on during a capture. */
  lemma ModeDecidesLight(b: Build, s: Services, c: Settings)
    requires b.hasIr && ModeIsValid(c.irMode)
    ensures OutputMatches(b, s, c) <==> LightIs(b, s.ir, c.irMode == 1 || (c.irMode == 2 && s.ir.captureActive))
  {
  }

  /** After a successful command that sets a mode: "on" lights it, "off" puts it out, "capture" follows the capture flag.
      Any other successful update drives what the mode in RAM asks for. */
  lemma CommandSetsLight(b: Build, w: World, obj: JsonObject, env: CommandEnv)
    requires b.Valid() && b.hasIr && Running(b, w) && CommandError(b, w, obj, env) == Ok && Mentions(obj)
    ensures var light := AfterCommand(b, w, obj, env).services.ir;
      && light.captureActive == w.services.ir.captureActive
      && ("ir_illuminator_mode" in obj ==>
            && (obj["ir_illuminator_mode"] == JString("on") ==> LightIs(b, light, true))
            && (obj["ir_illuminator_mode"] == JString("off") ==> LightIs(b, light, false))
            && (obj["ir_illuminator_mode"] == JString("capture") ==> LightIs(b, light, w.services.ir.captureActive)))
      && ("ir_illuminator_mode" !in obj ==>
            LightIs(b, light, w.stored.irMode == 1 || (w.stored.irMode == 2 && w.services.ir.captureActive)))
  {
    var after := AfterCommand(b, w, obj, env);
    SuccessUnfolds(b, w, obj, env);
    ModeEffect(b, w, obj, env);
    OverlayKeepsSound(b, w.stored, PatchOf(obj));
    ModeDecidesLight(b, after.services, after.stored);
    CommandKeepsCapture(b, w, obj, env);
  }

  lemma CommandKeepsCapture(b: Build, w: World, obj: JsonObject, env: CommandEnv)
    ensures AfterCommand(b, w, obj, env).services.ir.captureActive == w.services.ir.captureActive
  {
    if Updates(b, w, obj) {
      var next := Next(b, w, PatchOf(obj));
      PushKeepsCapture(b, w.services, next, env.forward);
      PushKeepsCapture(b, AfterApply(b, w.services, next, env.forward), Previous(b, w), env.back);
    }
  }

  lemma PushKeepsCapture(b: Build, s: Services, c: Settings, env: ApplyEnv)
    ensures AfterApply(b, s, c, env).ir.captureActive == s.ir.captureActive
  {
  }

  /** A successful toggle drives the light at once: always on in mode 1, off in mode 0, and as toggled in mode 2. */
  lemma ToggleSetsLight(b: Build, w: World, active: bool)
    requires b.Valid() && b.hasIr && Running(b, w)
    ensures LightIs(b, OpStep(b, w, Op.Capture(active, Ok)).services.ir, w.stored.irMode == 1 || (w.stored.irMode == 2 && active))
  {
  }

  /** Nothing that reaches the pin: an edge, a toggle whose drive fails, a command that is no update. */
  predicate SparesPin(b: Build, w: World, op: Op) {
    match op
    case Wake(_) => true
    case Capture(_, gpio) => gpio != Ok
    case Config(obj, env) => CheckError(b, w, obj) != Ok || !Mentions(obj)
    case Reboot(_) => false
  }

  predicate AllSparePin(b: Build, w: World, ops: seq<Op>)
    decreases |ops|
  {
    |ops| > 0 ==> SparesPin(b, w, ops[0]) && AllSparePin(b, OpStep(b, w, ops[0]), ops[1..])
  }

  lemma SparedPinStays(b: Build, w: World, op: Op)
    requires SparesPin(b, w, op)
    ensures var after := OpStep(b, w, op);
      && after.stored == w.stored && after.services.ir.outputOn == w.services.ir.outputOn
      && after.services.ir.pinLevel == w.services.ir.pinLevel
  {
    if op.Config? { TypesDecideParsing(op.obj); }
  }

  lemma {:induction false} LightStays(b: Build, w: World, ops: seq<Op>, on: bool)
    requires LightIs(b, w.services.ir, on) && AllSparePin(b, w, ops)
    ensures LightIs(b, OpRun(b, w, ops).services.ir, on) && OpRun(b, w, ops).stored == w.stored
    decreases |ops|
  {
    if |ops| > 0 {
      SparedPinStays(b, w, ops[0]);
      LightStays(b, OpStep(b, w, ops[0]), ops[1..], on);
    }
  }

  /** In capture mode the light is as the last successful toggle left it, over every run in which nothing else has reached
      the pin since. */
  lemma LightFollowsLastToggle(b: Build, w: World, active: bool, ops: seq<Op>)
    requires b.Valid() && b.hasIr && Running(b, w) && w.stored.irMode == 2
    requires AllSparePin(b, OpStep(b, w, Op.Capture(active, Ok)), ops)
    ensures LightIs(b, OpRun(b, w, [Op.Capture(active, Ok)] + ops).services.ir, active)
  {
    ToggleSetsLight(b, w, active);
    LightStays(b, OpStep(b, w, Op.Capture(active, Ok)), ops, active);
    assert ([Op.Capture(active, Ok)] + ops)[1..] == ops;
  }

  /** The flag the newest toggle has set since the last boot, whether or not its drive worked. */
  function LastToggle(initial: bool, ops: seq<Op>): bool
    decreases |ops|
  {
    if |ops| == 0 then initial
    else
      var now := match ops[0] case Capture(active, _) => active case Reboot(_) => false case _ => initial;
      LastToggle(now, ops[1..])
  }

  lemma {:induction false} CaptureFlagAlong(b: Build, w: World, ops: seq<Op>)
    requires b.Valid() && b.hasIr && NodeInvariant(b, w)
    ensures OpRun(b, w, ops).services.ir.captureActive == LastToggle(w.services.ir.captureActive, ops)
    decreases |ops|
  {
    if |ops| > 0 {
      OpKeepsInvariant(b, w, ops[0]);
      if ops[0].Config? { CommandKeepsCapture(b, w, ops[0].obj, ops[0].env); }
      CaptureFlagAlong(b, OpStep(b, w, ops[0]), ops[1..]);
    }
  }

  /** From boot, over every undisturbed run, the light is the one that mode and toggles ask for. */
  lemma LightAlongRuns(b: Build, flash: Image, nowUs: int, ops: seq<Op>)
    requires b.Valid() && b.hasIr && Undisturbed(b, BootWorld(b, flash, nowUs), ops)
    ensures var w := OpRun(b, BootWorld(b, flash, nowUs), ops);
      LightIs(b, w.services.ir, w.stored.irMode == 1 || (w.stored.irMode == 2 && LastToggle(false, ops)))
  {
    var start := BootWorld(b, flash, nowUs);
    BootAgrees(b, flash, nowUs);
    AgreementAlongRuns(b, start, ops);
    RunKeepsInvariant(b, start, ops);
    CaptureFlagAlong(b, start, ops);
    ModeDecidesLight(b, OpRun(b, start, ops).services, OpRun(b, start, ops).stored);
  }

  /** A toggle whose drive failed is not lost: the flag waits, and the next successful update lights the illuminator,
      although the last successful toggle, if any, had put it out. */
  lemma FailedToggleTakesEffectLater(b: Build, w: World, obj: JsonObject, env: CommandEnv)
    requires b.Valid() && b.hasIr && Running(b, w) && w.stored.irMode == 2 && LightIs(b, w.services.ir, false)
    requires "ir_illuminator_mode" !in obj && Mentions(obj)
    requires CommandError(b, OpStep(b, w, Op.Capture(true, Fail)), obj, env) == Ok
    ensures LightIs(b, OpStep(b, w, Op.Capture(true, Fail)).services.ir, false)
    ensures LightIs(b, OpRun(b, w, [Op.Capture(true, Fail), Op.Config(obj, env)]).services.ir, true)
  {
    var toggled := OpStep(b, w, Op.Capture(true, Fail));
    CommandSetsLight(b, toggled, obj, env);
    var ops := [Op.Capture(true, Fail), Op.Config(obj, env)];
    assert ops[1..] == [Op.Config(obj, env)];
    assert ops[1..][1..] == [];
    assert OpRun(b, w, ops) == OpRun(b, toggled, ops[1..]) == AfterCommand(b, toggled, obj, env);
  }

  // ---------------------------------------------------------------------------------------------
  // Boot.

  /** What a boot makes of flash, entry by entry: a value in range, else the compiled default; features that are missing
      stay off. */
  lemma BootValues(b: Build, img: Image)
    ensures var c := Restore(b, img);
      && c.heartbeatIntervalS ==
           (if HbIntS in img && 1 <= img[HbIntS] <= 3600 then img[HbIntS] else b.defaults.heartbeatIntervalS)
      && c.motionEnabled == (if MotionEn in img && img[MotionEn] <= 1 then b.hasMotion && img[MotionEn] == 1 else b.defaults.motionEnabled)
      && c.motionWarmupMs == (if MotionWu in img && img[MotionWu] <= 120000 then img[MotionWu] else b.defaults.motionWarmupMs)
      && c.motionCooldownMs == (if MotionCd in img && img[MotionCd] <= 60000 then img[MotionCd] else b.defaults.motionCooldownMs)
      && c.irMode ==
           if IrModeKey in img && img[IrModeKey] <= 2 then (if b.hasIr then img[IrModeKey] else 0) else b.defaults.irMode
  {
  }

  /** The services a boot leaves follow those values; the detector, when enabled, is in its warm-up. */
  lemma BootServices(b: Build, img: Image, nowUs: int)
    requires b.Valid() && 0 <= nowUs < 0x4000_0000_0000_0000
    ensures var w := BootWorld(b, img, nowUs);
      var d := w.services.motion;
      && w.services.intervalS == w.stored.heartbeatIntervalS
      && (b.hasIr ==> LightIs(b, w.services.ir, w.stored.irMode == 1) && !w.services.ir.captureActive)
      && (b.hasMotion ==>
            && d.started == w.stored.motionEnabled
            && d.warmupMs == w.stored.motionWarmupMs && d.cooldownMs == w.stored.motionCooldownMs
            && d.lastTriggerUs == 0 && d.warmupUntilUs == if d.started then nowUs + 1000 * d.warmupMs else 0)
  {
    RestoredIsSound(b, img, CLEAN_READS);
  }
}
