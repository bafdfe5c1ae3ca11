/** What the configuration path guarantees: boot restore, overlays, rollback, and every run of a node. */
module ConfigLaws {
  import opened Base
  import opened RuntimeConfig
  import opened MotionDetection
  import opened IrIlluminator
  import opened CommandRouter

  // ---------------------------------------------------------------------------------------------
  // Boot restore.

  /** Whatever flash holds and whichever reads fail, a boot ends in range and with missing features off. */
  lemma RestoredIsSound(b: Build, img: Image, env: ReadEnv)
    requires b.Valid()
    ensures InRange(Restored(b, img, env)) && RespectsGates(b, Restored(b, img, env))
    ensures Gate(b, Restored(b, img, env)) == Restored(b, img, env)
  {
  }

  predicate EntryIsValid(k: NvsKey, v: u32) {
    match k
    case HbIntS => HeartbeatIsValid(v)
    case MotionEn => v <= 1
    case MotionWu => WarmupIsValid(v)
    case MotionCd => CooldownIsValid(v)
    case IrModeKey => ModeIsValid(v)
  }

  /** The entries a boot can both read and accept. */
  function Usable(img: Image, env: ReadEnv): Image {
    map k | k in img && Readable(img, env, k) && EntryIsValid(k, img[k]) :: img[k]
  }

  /** Unreadable and invalid entries count as absent, and absent entries leave the compiled defaults. */
  lemma UnusableEntriesAreIgnored(b: Build, img: Image, env: ReadEnv)
    requires env.open == Ok
    ensures Restored(b, img, env) == Restore(b, Usable(img, env))
    ensures Restore(b, map[]) == b.defaults
  {
  }

  /** The reported read error is the one of the first key, in reading order, whose read really failed. */
  lemma {:induction false} ReadErrorIsFirst(img: Image, env: ReadEnv, i: nat)
    requires i <= 5
    ensures ReadError(img, env, i) == Ok <==>
      forall j: nat | i <= j < 5 :: !IsReadError(ReadStatus(img, env, KeyAt(j)))
    ensures ReadError(img, env, i) != Ok ==>
      exists j: nat :: i <= j < 5 && IsReadError(ReadStatus(img, env, KeyAt(j)))
        && ReadError(img, env, i) == ReadStatus(img, env, KeyAt(j))
        && forall h: nat | i <= h < j :: !IsReadError(ReadStatus(img, env, KeyAt(h)))
    decreases 5 - i
  {
    if i < 5 {
      ReadErrorIsFirst(img, env, i + 1);
      if !IsReadError(ReadStatus(img, env, KeyAt(i))) && ReadError(img, env, i + 1) != Ok {
        var j: nat :| i + 1 <= j < 5 && IsReadError(ReadStatus(img, env, KeyAt(j)))
          && ReadError(img, env, i + 1) == ReadStatus(img, env, KeyAt(j))
          && forall h: nat | i + 1 <= h < j :: !IsReadError(ReadStatus(img, env, KeyAt(h)));
        forall h: nat | i <= h < j ensures !IsReadError(ReadStatus(img, env, KeyAt(h))) {
          if h > i { assert i + 1 <= h; }
        }
      }
    }
  }

  /** Booting from the flash a patch has been committed to gives the patched configuration. */
  lemma RestoreAfterCommit(b: Build, img: Image, p: Patch)
    requires b.Valid() && Acceptable(b, p)
    ensures Restore(b, img + PatchImage(p)) == Overlay(Restore(b, img), p)
  {
    PatchImageLookup(p, HbIntS);
    PatchImageLookup(p, MotionEn);
    PatchImageLookup(p, MotionWu);
    PatchImageLookup(p, MotionCd);
    PatchImageLookup(p, IrModeKey);
  }

  // ---------------------------------------------------------------------------------------------
  // Validation and replies.

  /** The part of a patch that goes to one key. */
  function Only(p: Patch, k: NvsKey): Patch {
    match k
    case HbIntS => EMPTY_PATCH.(heartbeatIntervalS := p.heartbeatIntervalS)
    case MotionEn => EMPTY_PATCH.(motionEnabled := p.motionEnabled)
    case MotionWu => EMPTY_PATCH.(motionWarmupMs := p.motionWarmupMs)
    case MotionCd => EMPTY_PATCH.(motionCooldownMs := p.motionCooldownMs)
    case IrModeKey => EMPTY_PATCH.(irMode := p.irMode)
  }

  /** First verdict that is not Ok among the single fields, from key number `i` on. */
  function FirstVerdict(b: Build, p: Patch, i: nat): Err
    requires i <= 5
    decreases 5 - i
  {
    if i == 5 then Ok
    else if Validate(b, Only(p, KeyAt(i))) != Ok then Validate(b, Only(p, KeyAt(i)))
    else FirstVerdict(b, p, i + 1)
  }

  /** Sent field by field, in key order, the parts of a patch meet the same first verdict as the whole patch. */
  lemma PartsDecide(b: Build, p: Patch)
    ensures Validate(b, p) == FirstVerdict(b, p, 0)
  {
    var v4 := FirstVerdict(b, p, 4);
    var v3 := FirstVerdict(b, p, 3);
    var v2 := FirstVerdict(b, p, 2);
    var v1 := FirstVerdict(b, p, 1);
  }

  /** The reply names the right cause and reports the configuration that RAM holds after the command. */
  lemma ReplyIsTruthful(b: Build, w: World, obj: JsonObject, env: CommandEnv)
    requires b.Valid() && Running(b, w)
    ensures var reply := ReplyFor(b, w, obj, env);
      var acceptable := WellTyped(obj) && Acceptable(b, PatchOf(obj));
      && (reply.ok <==> reply.error.None? && acceptable)
      && (reply.error == Some(ApplyFailed) ==> acceptable && PatchOf(obj) != EMPTY_PATCH)
      && (reply.error == Some(InvalidConfig) ==> !WellTyped(obj) || HasOutOfRangeValue(PatchOf(obj)))
      && (reply.error == Some(UnsupportedFeature) ==> WellTyped(obj) && TouchesMissingFeature(b, PatchOf(obj)))
      && (reply.updated <==> reply.ok && PatchOf(obj) != EMPTY_PATCH)
      && reply.config == AfterCommand(b, w, obj, env).stored
      && (!reply.ok ==> reply.config == w.stored)
  {
    if Updates(b, w, obj) { NextIsSound(b, w, PatchOf(obj)); }
  }

  /** The command that carries exactly the fields of a patch. */
  function CommandFor(p: Patch): JsonObject {
    var m: JsonObject := map[];
    var m := if p.heartbeatIntervalS.None? then m else m[HEARTBEAT_FIELD := JNumber(p.heartbeatIntervalS.value as real)];
    var m := if p.motionEnabled.None? then m else m[ENABLED_FIELD := JBool(p.motionEnabled.value)];
    var m := if p.motionWarmupMs.None? then m else m[WARMUP_FIELD := JNumber(p.motionWarmupMs.value as real)];
    var m := if p.motionCooldownMs.None? then m else m[COOLDOWN_FIELD := JNumber(p.motionCooldownMs.value as real)];
    if p.irMode.None? then m else m[MODE_FIELD := JString(ModeToString(p.irMode.value))]
  }

  lemma FieldNamesDiffer()
    ensures HEARTBEAT_FIELD != ENABLED_FIELD && HEARTBEAT_FIELD != WARMUP_FIELD && HEARTBEAT_FIELD != COOLDOWN_FIELD
    ensures HEARTBEAT_FIELD != MODE_FIELD && ENABLED_FIELD != WARMUP_FIELD && ENABLED_FIELD != COOLDOWN_FIELD
    ensures ENABLED_FIELD != MODE_FIELD && WARMUP_FIELD != COOLDOWN_FIELD && WARMUP_FIELD != MODE_FIELD
    ensures COOLDOWN_FIELD != MODE_FIELD
  {
    assert HEARTBEAT_FIELD[0] == 'h' && MODE_FIELD[0] == 'i';
    assert ENABLED_FIELD[7] == 'd' && WARMUP_FIELD[7] == 'w' && COOLDOWN_FIELD[7] == 'c';
  }

  /** Parsing undoes printing for every patch with printable modes, whatever other keys the object carries. */
  lemma PatchSurvivesJson(p: Patch, obj: JsonObject)
    requires p.irMode.Some? ==> ModeIsValid(p.irMode.value)
    requires forall name | name in {HEARTBEAT_FIELD, ENABLED_FIELD, WARMUP_FIELD, COOLDOWN_FIELD, MODE_FIELD} ::
      (name in obj <==> name in CommandFor(p)) && (name in obj ==> obj[name] == CommandFor(p)[name])
    ensures WellTyped(obj) && PatchOf(obj) == p
  {
    FieldNamesDiffer();
    if p.irMode.Some? { ModeTextRoundTrip(ModeToString(p.irMode.value), p.irMode.value); }
  }

  // ---------------------------------------------------------------------------------------------
  // The router's overlay and the RAM overlay.

  function OverlayAll(s: Settings, ps: seq<Patch>): Settings
    decreases |ps|
  {
    if |ps| == 0 then s else OverlayAll(Overlay(s, ps[0]), ps[1..])
  }

  /** Patching the gated snapshot, as the router does, and gating the patched RAM copy agree for every patch sequence. */
  lemma {:induction false} OverlayCommutesWithGate(b: Build, s: Settings, ps: seq<Patch>)
    requires forall p | p in ps :: Acceptable(b, p)
    ensures Gate(b, OverlayAll(s, ps)) == OverlayAll(Gate(b, s), ps)
    decreases |ps|
  {
    if |ps| > 0 {
      assert ps[0] in ps;
      assert Gate(b, Overlay(s, ps[0])) == Overlay(Gate(b, s), ps[0]);
      OverlayCommutesWithGate(b, Overlay(s, ps[0]), ps[1..]);
    }
  }

  /** Valid values and gates survive an acceptable patch. */
  lemma OverlayKeepsSound(b: Build, s: Settings, p: Patch)
    requires InRange(s) && RespectsGates(b, s) && Acceptable(b, p)
    ensures InRange(Overlay(s, p)) && RespectsGates(b, Overlay(s, p))
    ensures Gate(b, s) == s
  {
  }

  // ---------------------------------------------------------------------------------------------
  // Live services against a configuration.

  predicate MotionMatches(b: Build, s: Services, c: Settings) {
    b.hasMotion ==>
      && s.motion.started == c.motionEnabled
      && s.motion.warmupMs == c.motionWarmupMs
      && s.motion.cooldownMs == c.motionCooldownMs
  }

  predicate OutputMatches(b: Build, s: Services, c: Settings) {
    b.hasIr ==>
      && s.ir.outputOn == ShouldBeOn(s.ir, c.irMode)
      && s.ir.pinLevel == OutputLevel(b, ShouldBeOn(s.ir, c.irMode))
  }

  /** Detector settings, IR output and pin, and heartbeat interval are those of `c`. */
  predicate LiveMatches(b: Build, s: Services, c: Settings) {
    && MotionMatches(b, s, c)
    && OutputMatches(b, s, c)
    && s.intervalS == c.heartbeatIntervalS
  }

  /** The node has been brought up; its live services may or may not agree with RAM. */
  predicate Running(b: Build, w: World) {
    && w.initialized
    && InRange(w.stored)
    && RespectsGates(b, w.stored)
    && w.services.motion.initialized == b.hasMotion
    && (!b.hasMotion ==> !w.services.motion.started)
    && StoppedIsClear(w.services.motion)
    && w.services.ir.initialized == b.hasIr
    && PinMatches(b, w.services.ir)
  }

  predicate InAgreement(b: Build, w: World) {
    LiveMatches(b, w.services, Gate(b, w.stored))
  }

  /** Pushing a sound snapshot can fail in one way only: the GPIO write. */
  lemma PushOutcome(b: Build, w: World, c: Settings, env: ApplyEnv)
    requires Running(b, w) && InRange(c) && RespectsGates(b, c)
    ensures LiveError(b, w.services, c, env) == if b.hasIr then env.gpio else Ok
    ensures MotionMatches(b, AfterApply(b, w.services, c, env), c)
    ensures LiveError(b, w.services, c, env) == Ok ==> LiveMatches(b, AfterApply(b, w.services, c, env), c)
    ensures LiveError(b, w.services, c, env) != Ok ==>
      && AfterApply(b, w.services, c, env).ir == w.services.ir
      && AfterApply(b, w.services, c, env).intervalS == w.services.intervalS
    ensures Running(b, w.(services := AfterApply(b, w.services, c, env)))
    ensures AfterApply(b, w.services, c, env).ir.captureActive == w.services.ir.captureActive
  {
  }

  lemma NextIsSound(b: Build, w: World, p: Patch)
    requires Running(b, w) && Acceptable(b, p)
    ensures InRange(Previous(b, w)) && RespectsGates(b, Previous(b, w))
    ensures InRange(Next(b, w, p)) && RespectsGates(b, Next(b, w, p))
    ensures Gate(b, Overlay(w.stored, p)) == Next(b, w, p)
    ensures Previous(b, w) == w.stored
  {
    OverlayKeepsSound(b, w.stored, p);
  }

  // ---------------------------------------------------------------------------------------------
  // Rollback.

  /** The live settings of `t` are those of `s`. */
  predicate SameLive(b: Build, s: Services, t: Services) {
    SameMotion(b, s, t) && SameOutput(b, s, t) && t.intervalS == s.intervalS
  }

  predicate SameMotion(b: Build, s: Services, t: Services) {
    b.hasMotion ==>
      && t.motion.started == s.motion.started
      && t.motion.warmupMs == s.motion.warmupMs
      && t.motion.cooldownMs == s.motion.cooldownMs
  }

  predicate SameOutput(b: Build, s: Services, t: Services) {
    b.hasIr ==> t.ir.outputOn == s.ir.outputOn && t.ir.pinLevel == s.ir.pinLevel
  }

  /** Services that match a configuration are unchanged exactly when they matched it before. */
  lemma MatchingDecides(b: Build, s: Services, t: Services, c: Settings)
    requires s.ir.captureActive == t.ir.captureActive
    ensures MotionMatches(b, t, c) ==> (SameMotion(b, s, t) <==> MotionMatches(b, s, c))
    ensures OutputMatches(b, t, c) ==> (SameOutput(b, s, t) <==> OutputMatches(b, s, c))
  {
  }

  predicate SecondDriveWorks(b: Build, env: CommandEnv) { !b.hasIr || env.back.gpio == Ok }

  /** What a failing update leaves behind, from any running state. The detector always gets the settings of RAM. */
  lemma RollbackOutcome(b: Build, w: World, p: Patch, env: CommandEnv)
    requires b.Valid() && Running(b, w) && Acceptable(b, p)
    requires UpdateError(b, w, p, env) != Ok
    ensures var after := AfterUpdate(b, w, p, env);
      && after.initialized && after.stored == w.stored && after.flash == w.flash
      && after.services.ir.captureActive == w.services.ir.captureActive
      && MotionMatches(b, after.services, Previous(b, w))
      // With a working second drive, so does everything else.
      && (SecondDriveWorks(b, env) ==> InAgreement(b, after))
      // Two failing drives leave IR and heartbeat as they were.
      && (!SecondDriveWorks(b, env) && env.forward.gpio != Ok ==>
            after.services.ir == w.services.ir && after.services.intervalS == w.services.intervalS)
      // A push that succeeded before the second drive fails leaves the patched ones.
      && (!SecondDriveWorks(b, env) && env.forward.gpio == Ok ==>
            && OutputMatches(b, after.services, Next(b, w, p))
            && after.services.intervalS == Next(b, w, p).heartbeatIntervalS)
  {
    NextIsSound(b, w, p);
    PushOutcome(b, w, Next(b, w, p), env.forward);
    var pushed := w.(services := AfterApply(b, w.services, Next(b, w, p), env.forward));
    PushOutcome(b, pushed, Previous(b, w), env.back);
  }

  /** Before the update: what its failure will leave live is what is live already. */
  predicate FailureIsInvisible(b: Build, w: World, p: Patch, env: CommandEnv) {
    && MotionMatches(b, w.services, Previous(b, w))
    && (SecondDriveWorks(b, env) ==>
          OutputMatches(b, w.services, Previous(b, w)) && w.services.intervalS == Previous(b, w).heartbeatIntervalS)
    && (!SecondDriveWorks(b, env) && env.forward.gpio == Ok ==>
          OutputMatches(b, w.services, Next(b, w, p)) && w.services.intervalS == Next(b, w, p).heartbeatIntervalS)
  }

  /** From any running state, a failed command leaves the live settings as they were if and only if it was turned down
      before the push or its failure is invisible; RAM and flash never change. */
  lemma LiveStateAfterFailure(b: Build, w: World, obj: JsonObject, env: CommandEnv)
    requires b.Valid() && Running(b, w)
    requires CommandError(b, w, obj, env) != Ok
    ensures var after := AfterCommand(b, w, obj, env);
      && after.stored == w.stored && after.flash == w.flash
      && (SameLive(b, w.services, after.services) <==>
            (Updates(b, w, obj) ==> FailureIsInvisible(b, w, PatchOf(obj), env)))
  {
    if Updates(b, w, obj) { LiveStateAfterUpdate(b, w, PatchOf(obj), env); }
  }

  lemma LiveStateAfterUpdate(b: Build, w: World, p: Patch, env: CommandEnv)
    requires b.Valid() && Running(b, w) && Acceptable(b, p)
    requires UpdateError(b, w, p, env) != Ok
    ensures var after := AfterUpdate(b, w, p, env);
      && after.stored == w.stored && after.flash == w.flash
      && (SameLive(b, w.services, after.services) <==> FailureIsInvisible(b, w, p, env))
  {
    RollbackOutcome(b, w, p, env);
    NextIsSound(b, w, p);
    var t := AfterUpdate(b, w, p, env).services;
    MatchingDecides(b, w.services, t, Previous(b, w));
    MatchingDecides(b, w.services, t, Next(b, w, p));
  }

  /** The one way a failed command strands an agreeing node: pushed, not stored, and the IR drive of the rollback fails
      although the push had changed the IR output or the heartbeat interval. */
  predicate Stranded(b: Build, w: World, obj: JsonObject, env: CommandEnv) {
    && Updates(b, w, obj)
    && b.hasIr
    && env.forward.gpio == Ok
    && env.back.gpio != Ok
    && (var next := Next(b, w, PatchOf(obj));
        || next.heartbeatIntervalS != Previous(b, w).heartbeatIntervalS
        || ShouldBeOn(w.services.ir, next.irMode) != ShouldBeOn(w.services.ir, Previous(b, w).irMode))
  }

  /** From agreement, a failed command restores every live setting, and agreement with them, unless it is stranded. */
  lemma ExactRollback(b: Build, w: World, obj: JsonObject, env: CommandEnv)
    requires b.Valid() && Running(b, w) && InAgreement(b, w)
    requires CommandError(b, w, obj, env) != Ok
    ensures var after := AfterCommand(b, w, obj, env);
      && after.initialized && after.stored == w.stored && after.flash == w.flash
      && (InAgreement(b, after) <==> !Stranded(b, w, obj, env))
      && (SameLive(b, w.services, after.services) <==> !Stranded(b, w, obj, env))
      && MotionMatches(b, after.services, Previous(b, w))
  {
    LiveStateAfterFailure(b, w, obj, env);
    if Updates(b, w, obj) { RollbackOutcome(b, w, PatchOf(obj), env); }
  }

  /** The documented promise "the previous live state is restored" fails on every node with an illuminator: a commit
      that fails, followed by a GPIO write that fails, leaves a new heartbeat interval live while RAM, flash and the
      reply keep the old one. */
  lemma RollbackStrandsHeartbeat(b: Build, w: World, env: CommandEnv)
    requires b.Valid() && b.hasIr && Running(b, w) && InAgreement(b, w) && w.stored.heartbeatIntervalS != 10
    requires env.forward.gpio == Ok && env.back.gpio == Other(2)
    requires env.persist.open == Ok && (forall k :: env.persist.write(k) == Ok) && env.persist.commit == Other(1)
    ensures var obj := map[HEARTBEAT_FIELD := JNumber(10.0)];
      && CommandError(b, w, obj, env) == Other(1)
      && AfterCommand(b, w, obj, env).services.intervalS == 10
      && ReplyFor(b, w, obj, env).config == w.stored
      && !InAgreement(b, AfterCommand(b, w, obj, env))
  {
    var obj: JsonObject := map[HEARTBEAT_FIELD := JNumber(10.0)];
    HeartbeatOnlyPatch(obj);
    var p := PatchOf(obj);
    AllWritesSucceed(p, env.persist, 0);
    assert Updates(b, w, obj);
    NextIsSound(b, w, p);
    PushOutcome(b, w, Next(b, w, p), env.forward);
    ExactRollback(b, w, obj, env);
    RollbackOutcome(b, w, p, env);
  }

  /** Every driver call of the command succeeds. */
  ghost predicate AllWell(env: CommandEnv) {
    env.forward.gpio == Ok && env.persist.open == Ok && env.persist.commit == Ok && forall k :: env.persist.write(k) == Ok
  }

  /** Outside agreement even a rollback that works does not restore what was live: here RAM holds 30 and the heartbeat
      runs at 10, and a command that fails to open the store moves it to 30. */
  lemma RollbackImposesRam(b: Build, w: World, env: CommandEnv)
    requires b.Valid() && Running(b, w) && w.stored.heartbeatIntervalS == 30 && w.services.intervalS == 10
    requires env.forward.gpio == Ok && env.back.gpio == Ok && env.persist.open == Other(1)
    ensures var obj := map[HEARTBEAT_FIELD := JNumber(10.0)];
      && CommandError(b, w, obj, env) == Other(1) && !Stranded(b, w, obj, env)
      && AfterCommand(b, w, obj, env).services.intervalS == 30
      && !SameLive(b, w.services, AfterCommand(b, w, obj, env).services)
  {
    var obj: JsonObject := map[HEARTBEAT_FIELD := JNumber(10.0)];
    HeartbeatOnlyPatch(obj);
    assert Updates(b, w, obj);
    NextIsSound(b, w, PatchOf(obj));
    PushOutcome(b, w, Next(b, w, PatchOf(obj)), env.forward);
    RollbackOutcome(b, w, PatchOf(obj), env);
  }

  lemma {:induction false} AllWritesSucceed(p: Patch, env: PersistEnv, i: nat)
    requires i <= 5 && forall k :: env.write(k) == Ok
    ensures WriteError(p, env, i) == Ok
    decreases 5 - i
  {
    if i < 5 { AllWritesSucceed(p, env, i + 1); }
  }

  lemma HeartbeatOnlyPatch(obj: JsonObject)
    requires obj == map[HEARTBEAT_FIELD := JNumber(10.0)]
    ensures WellTyped(obj) && PatchOf(obj) == Patch(Some(10), None, None, None, None)
  {
    assert HEARTBEAT_FIELD[0] == 'h' && ENABLED_FIELD[0] == 'm' && WARMUP_FIELD[0] == 'm';
    assert COOLDOWN_FIELD[0] == 'm' && MODE_FIELD[0] == 'i';
    assert obj[HEARTBEAT_FIELD].num.Floor == 10;
  }

  /** Any successful command that changes something establishes agreement, whatever the live services held before. */
  lemma SuccessEstablishesAgreement(b: Build, w: World, obj: JsonObject, env: CommandEnv)
    requires b.Valid() && Running(b, w)
    requires CommandError(b, w, obj, env) == Ok
    ensures var after := AfterCommand(b, w, obj, env);
      && (Updates(b, w, obj) ==> InAgreement(b, after))
      && after.stored == Overlay(w.stored, PatchOf(obj))
      && ReplyFor(b, w, obj, env).config == after.stored
  {
    var p := PatchOf(obj);
    if Updates(b, w, obj) {
      NextIsSound(b, w, p);
      PushOutcome(b, w, Next(b, w, p), env.forward);
    } else {
      assert Overlay(w.stored, EMPTY_PATCH) == w.stored;
    }
    OverlayKeepsSound(b, w.stored, p);
    OverlayKeepsSound(b, Overlay(w.stored, p), EMPTY_PATCH);
  }

  // ---------------------------------------------------------------------------------------------
  // Runs of a node.

  datatype Op =
    | Config(obj: JsonObject, env: CommandEnv)
    | Capture(active: bool, gpio: Err)
    | Wake(nowUs: int)
    | Reboot(nowUs: int)

  /** The wiring of app_main after a boot without errors: restore, then apply to each service. */
  function BootWorld(b: Build, flash: Image, nowUs: int): World {
    var c := Restore(b, flash);
    var motion := if b.hasMotion then AfterInit(b.defaults.motionWarmupMs, b.defaults.motionCooldownMs)
                  else AT_RESET;
    var ir := IlluminatorState(b.hasIr, false, false, OutputLevel(b, false));
    World(true, c, flash,
      Services(
        WithSettings(b.hasMotion, motion, nowUs, Gate(b, c).motionEnabled, c.motionWarmupMs, c.motionCooldownMs),
        Driven(b, ir, Gate(b, c).irMode, Ok),
        c.heartbeatIntervalS))
  }

  lemma BootAgrees(b: Build, flash: Image, nowUs: int)
    requires b.Valid()
    ensures NodeInvariant(b, BootWorld(b, flash, nowUs)) && InAgreement(b, BootWorld(b, flash, nowUs))
    ensures BootWorld(b, flash, nowUs).flash == flash
  {
    RestoredIsSound(b, flash, CLEAN_READS);
  }

  function OpStep(b: Build, w: World, op: Op): World {
    match op
    case Config(obj, env) => AfterCommand(b, w, obj, env)
    case Capture(active, gpio) =>
      w.(services := w.services.(ir := WithCapture(b, w.services.ir, active, Gate(b, w.stored).irMode, gpio)))
    case Wake(nowUs) => w.(services := w.services.(motion := AfterWake(w.services.motion, nowUs)))
    case Reboot(nowUs) => BootWorld(b, w.flash, nowUs)
  }

  function OpRun(b: Build, w: World, ops: seq<Op>): World
    decreases |ops|
  {
    if |ops| == 0 then w else OpRun(b, OpStep(b, w, ops[0]), ops[1..])
  }

  /** RAM is what a reboot would restore, in range and gated; the services are up, and the detector follows RAM. */
  predicate NodeInvariant(b: Build, w: World) {
    Running(b, w) && w.stored == Restore(b, w.flash) && MotionMatches(b, w.services, w.stored)
  }

  predicate KeyIsGated(b: Build, k: NvsKey) {
    match k
    case HbIntS => false
    case IrModeKey => !b.hasIr
    case _ => !b.hasMotion
  }

  /** Entries of missing features are as they were. */
  ghost predicate GatedKeysKept(b: Build, before: Image, after: Image) {
    forall k | KeyIsGated(b, k) :: (k in before <==> k in after) && (k in before ==> before[k] == after[k])
  }

  lemma OpKeepsInvariant(b: Build, w: World, op: Op)
    requires b.Valid() && NodeInvariant(b, w)
    ensures NodeInvariant(b, OpStep(b, w, op))
    ensures GatedKeysKept(b, w.flash, OpStep(b, w, op).flash)
  {
    match op
    case Config(obj, env) => CommandKeepsInvariant(b, w, obj, env);
    case Capture(_, _) =>
    case Wake(_) =>
    case Reboot(nowUs) => BootAgrees(b, w.flash, nowUs);
  }

  lemma UpdateKeepsRunning(b: Build, w: World, p: Patch, env: CommandEnv)
    requires b.Valid() && Running(b, w) && Acceptable(b, p)
    ensures var after := AfterUpdate(b, w, p, env);
      Running(b, after) && MotionMatches(b, after.services, after.stored)
  {
    NextIsSound(b, w, p);
    PushOutcome(b, w, Next(b, w, p), env.forward);
    var pushed := w.(services := AfterApply(b, w.services, Next(b, w, p), env.forward));
    PushOutcome(b, pushed, Previous(b, w), env.back);
    OverlayKeepsSound(b, w.stored, p);
  }

  lemma CommandKeepsInvariant(b: Build, w: World, obj: JsonObject, env: CommandEnv)
    requires b.Valid() && NodeInvariant(b, w)
    ensures NodeInvariant(b, AfterCommand(b, w, obj, env))
    ensures GatedKeysKept(b, w.flash, AfterCommand(b, w, obj, env).flash)
  {
    if Updates(b, w, obj) {
      var p := PatchOf(obj);
      UpdateKeepsRunning(b, w, p, env);
      RestoreAfterCommit(b, w.flash, p);
      forall k | KeyIsGated(b, k) ensures k !in PatchImage(p) { PatchImageLookup(p, k); }
    }
  }

  /** Over every run of commands, capture toggles, edges and reboots, with any failures: RAM equals what a reboot
      restores, values stay in range, the detector's settings are those of RAM, and missing features are never written. */
  lemma {:induction false} RunKeepsInvariant(b: Build, w: World, ops: seq<Op>)
    requires b.Valid() && NodeInvariant(b, w)
    ensures NodeInvariant(b, OpRun(b, w, ops))
    ensures GatedKeysKept(b, w.flash, OpRun(b, w, ops).flash)
    decreases |ops|
  {
    if |ops| > 0 {
      OpKeepsInvariant(b, w, ops[0]);
      RunKeepsInvariant(b, OpStep(b, w, ops[0]), ops[1..]);
    }
  }

  /** The operations that break agreement: a stranded rollback, and a capture toggle in capture mode whose drive fails. */
  predicate Disturbs(b: Build, w: World, op: Op) {
    match op
    case Config(obj, env) => CommandError(b, w, obj, env) != Ok && Stranded(b, w, obj, env)
    case Capture(active, gpio) =>
      b.hasIr && gpio != Ok && w.stored.irMode == MODE_CAPTURE && active != w.services.ir.captureActive
    case _ => false
  }

  /** From agreement, an operation ends in agreement exactly when it is not one of those. */
  lemma AgreementIsLostOnlyByDisturbance(b: Build, w: World, op: Op)
    requires b.Valid() && NodeInvariant(b, w) && InAgreement(b, w)
    ensures InAgreement(b, OpStep(b, w, op)) <==> !Disturbs(b, w, op)
  {
    match op
    case Config(obj, env) =>
      if CommandError(b, w, obj, env) != Ok {
        ExactRollback(b, w, obj, env);
      } else {
        SuccessEstablishesAgreement(b, w, obj, env);
      }
    case Capture(_, _) => RestoredIsSound(b, w.flash, CLEAN_READS);
    case Wake(_) =>
    case Reboot(nowUs) => BootAgrees(b, w.flash, nowUs);
  }

  /** No operation of the run, at the state it meets, disturbs agreement. */
  predicate Undisturbed(b: Build, w: World, ops: seq<Op>)
    decreases |ops|
  {
    |ops| > 0 ==> !Disturbs(b, w, ops[0]) && Undisturbed(b, OpStep(b, w, ops[0]), ops[1..])
  }

  /** RAM, detector, IR output and heartbeat agree after every undisturbed run from boot. */
  lemma {:induction false} AgreementAlongRuns(b: Build, w: World, ops: seq<Op>)
    requires b.Valid() && NodeInvariant(b, w) && InAgreement(b, w) && Undisturbed(b, w, ops)
    ensures InAgreement(b, OpRun(b, w, ops))
    decreases |ops|
  {
    if |ops| > 0 {
      OpKeepsInvariant(b, w, ops[0]);
      AgreementIsLostOnlyByDisturbance(b, w, ops[0]);
      AgreementAlongRuns(b, OpStep(b, w, ops[0]), ops[1..]);
    }
  }

  /** After any such run a successful update is reported truthfully, is live, and survives a reboot. */
  lemma UpdateIsDurable(b: Build, w: World, ops: seq<Op>, obj: JsonObject, env: CommandEnv, nowUs: int)
    requires b.Valid() && NodeInvariant(b, w)
    requires CommandError(b, OpRun(b, w, ops), obj, env) == Ok && Updates(b, OpRun(b, w, ops), obj)
    ensures var before := OpRun(b, w, ops);
      var after := AfterCommand(b, before, obj, env);
      && InAgreement(b, after)
      && after.stored == Overlay(before.stored, PatchOf(obj))
      && BootWorld(b, after.flash, nowUs).stored == after.stored
      && ReplyFor(b, before, obj, env).config == after.stored
  {
    RunKeepsInvariant(b, w, ops);
    var before := OpRun(b, w, ops);
    SuccessEstablishesAgreement(b, before, obj, env);
    CommandKeepsInvariant(b, before, obj, env);
  }
}
