/** components/runtime_config: the RAM copy of the configuration and its NVS persistence. */
module RuntimeConfig {
  import opened Base

  const MODE_OFF: u32 := 0
  const MODE_ON: u32 := 1
  const MODE_CAPTURE: u32 := 2

  predicate HeartbeatIsValid(intervalS: u32) { 1 <= intervalS <= 3600 }
  predicate WarmupIsValid(warmupMs: u32) { warmupMs <= 120000 }
  predicate CooldownIsValid(cooldownMs: u32) { cooldownMs <= 60000 }
  predicate ModeIsValid(mode: u32) { mode == MODE_OFF || mode == MODE_ON || mode == MODE_CAPTURE }

  /** What menuconfig fixes at build time: feature gates and compiled defaults. */
  datatype Build = Build(
    hasMotion: bool,
    hasIr: bool,
    irActiveHigh: bool,
    defaults: Settings)
  {
    /** Kconfig ranges; a gated-off option has no CONFIG_ macro, so its default is zero. */
    predicate Valid() {
      && InRange(defaults)
      && (!hasMotion ==> !defaults.motionEnabled && defaults.motionWarmupMs == 0 && defaults.motionCooldownMs == 0)
      && (!hasIr ==> defaults.irMode == MODE_OFF)
    }
  }

  /** One complete set of runtime values. */
  datatype Settings = Settings(
    heartbeatIntervalS: u32,
    motionEnabled: bool,
    motionWarmupMs: u32,
    motionCooldownMs: u32,
    irMode: u32)

  /** A partial update: absent fields keep their value. */
  datatype Patch = Patch(
    heartbeatIntervalS: Option<u32>,
    motionEnabled: Option<bool>,
    motionWarmupMs: Option<u32>,
    motionCooldownMs: Option<u32>,
    irMode: Option<u32>)

  const EMPTY_PATCH := Patch(None, None, None, None, None)

  predicate InRange(s: Settings) {
    && HeartbeatIsValid(s.heartbeatIntervalS)
    && WarmupIsValid(s.motionWarmupMs)
    && CooldownIsValid(s.motionCooldownMs)
    && ModeIsValid(s.irMode)
  }

  /** Features missing from the build are off in these settings. */
  predicate RespectsGates(b: Build, s: Settings) {
    && (!b.hasMotion ==> !s.motionEnabled)
    && (!b.hasIr ==> s.irMode == MODE_OFF)
  }

  /** The value the getters expose: stored settings with missing features forced off. */
  function Gate(b: Build, s: Settings): Settings {
    s.(motionEnabled := if b.hasMotion then s.motionEnabled else false,
       irMode := if b.hasIr then s.irMode else MODE_OFF)
  }

  function Or<T>(o: Option<T>, default: T): T {
    match o
    case None => default
    case Some(v) => v
  }

  function Overlay(s: Settings, p: Patch): Settings {
    Settings(
      Or(p.heartbeatIntervalS, s.heartbeatIntervalS),
      Or(p.motionEnabled, s.motionEnabled),
      Or(p.motionWarmupMs, s.motionWarmupMs),
      Or(p.motionCooldownMs, s.motionCooldownMs),
      Or(p.irMode, s.irMode))
  }

  /** Every field the patch carries exists in this build and is in range. */
  predicate Acceptable(b: Build, p: Patch) {
    && (p.heartbeatIntervalS.Some? ==> HeartbeatIsValid(p.heartbeatIntervalS.value))
    && (p.motionEnabled.Some? ==> b.hasMotion)
    && (p.motionWarmupMs.Some? ==> b.hasMotion && WarmupIsValid(p.motionWarmupMs.value))
    && (p.motionCooldownMs.Some? ==> b.hasMotion && CooldownIsValid(p.motionCooldownMs.value))
    && (p.irMode.Some? ==> b.hasIr && ModeIsValid(p.irMode.value))
  }

  predicate TouchesMissingFeature(b: Build, p: Patch) {
    || (!b.hasMotion && (p.motionEnabled.Some? || p.motionWarmupMs.Some? || p.motionCooldownMs.Some?))
    || (!b.hasIr && p.irMode.Some?)
  }

  predicate HasOutOfRangeValue(p: Patch) {
    || (p.heartbeatIntervalS.Some? && !HeartbeatIsValid(p.heartbeatIntervalS.value))
    || (p.motionWarmupMs.Some? && !WarmupIsValid(p.motionWarmupMs.value))
    || (p.motionCooldownMs.Some? && !CooldownIsValid(p.motionCooldownMs.value))
    || (p.irMode.Some? && !ModeIsValid(p.irMode.value))
  }

  /** Validation accepts exactly the acceptable patches and blames a missing feature only when one is touched. */
  function Validate(b: Build, p: Patch): (err: Err)
    ensures err == Ok <==> Acceptable(b, p)
    ensures err == NotSupported ==> TouchesMissingFeature(b, p)
    ensures err == InvalidArg ==> HasOutOfRangeValue(p)
    ensures err == Ok || err == InvalidArg || err == NotSupported
  {
    if p.heartbeatIntervalS.Some? && !HeartbeatIsValid(p.heartbeatIntervalS.value) then InvalidArg
    else if !b.hasMotion && (p.motionEnabled.Some? || p.motionWarmupMs.Some? || p.motionCooldownMs.Some?) then NotSupported
    else if p.motionWarmupMs.Some? && !WarmupIsValid(p.motionWarmupMs.value) then InvalidArg
    else if p.motionCooldownMs.Some? && !CooldownIsValid(p.motionCooldownMs.value) then InvalidArg
    else if !b.hasIr && p.irMode.Some? then NotSupported
    else if p.irMode.Some? && !ModeIsValid(p.irMode.value) then InvalidArg
    else Ok
  }

  function ModeToString(mode: u32): string {
    if mode == MODE_OFF then "off"
    else if mode == MODE_ON then "on"
    else if mode == MODE_CAPTURE then "capture"
    else "unknown"
  }

  function ParseMode(text: string): Option<u32> {
    if text == "off" then Some(MODE_OFF)
    else if text == "on" then Some(MODE_ON)
    else if text == "capture" then Some(MODE_CAPTURE)
    else None
  }

  /** The two tables are inverse: a text parses to a mode exactly when the mode prints as that text. */
  lemma ModeTextRoundTrip(text: string, mode: u32)
    ensures ParseMode(text) == Some(mode) <==> ModeIsValid(mode) && ModeToString(mode) == text
  {
    assert |"off"| == 3 && |"on"| == 2 && |"capture"| == 7;
  }

  // ---------------------------------------------------------------------------------------------
  // NVS: committed entries survive a reset, pending ones do not.

  datatype NvsKey = HbIntS | MotionEn | MotionWu | MotionCd | IrModeKey

  type Image = map<NvsKey, u32>

  /** The order in which keys are read at boot and written by a patch. */
  function KeyAt(i: nat): NvsKey
    requires i < 5
  {
    if i == 0 then HbIntS else if i == 1 then MotionEn else if i == 2 then MotionWu
    else if i == 3 then MotionCd else IrModeKey
  }

  function PatchValue(p: Patch, k: NvsKey): Option<u32> {
    match k
    case HbIntS => p.heartbeatIntervalS
    case MotionEn => if p.motionEnabled.None? then None else Some(if p.motionEnabled.value then 1 else 0)
    case MotionWu => p.motionWarmupMs
    case MotionCd => p.motionCooldownMs
    case IrModeKey => p.irMode
  }

  /** Entries written after the first `n` keys of a patch. */
  function Staged(p: Patch, n: nat): Image
    requires n <= 5
  {
    if n == 0 then map[] else
      var before := Staged(p, n - 1);
      var v := PatchValue(p, KeyAt(n - 1));
      if v.None? then before else before[KeyAt(n - 1) := v.value]
  }

  function PatchImage(p: Patch): Image { Staged(p, 5) }

  /** A key is staged exactly when its field is in the patch, with that value. */
  lemma PatchImageLookup(p: Patch, k: NvsKey)
    ensures k in PatchImage(p) <==> PatchValue(p, k).Some?
    ensures k in PatchImage(p) ==> PatchImage(p)[k] == PatchValue(p, k).value
  {
    assert KeyAt(0) == HbIntS && KeyAt(1) == MotionEn && KeyAt(2) == MotionWu && KeyAt(3) == MotionCd && KeyAt(4) == IrModeKey;
    var s1, s2, s3, s4 := Staged(p, 1), Staged(p, 2), Staged(p, 3), Staged(p, 4);
    assert Staged(p, 0) == map[];
    assert k in s1 <==> k == HbIntS && PatchValue(p, k).Some?;
    assert k in s2 <==> (k == HbIntS || k == MotionEn) && PatchValue(p, k).Some?;
    assert k in s3 <==> (k == HbIntS || k == MotionEn || k == MotionWu) && PatchValue(p, k).Some?;
    assert k in s4 <==> k != IrModeKey && PatchValue(p, k).Some?;
  }

  /** Outcome of every NVS call one persist makes. */
  datatype PersistEnv = PersistEnv(open: Err, write: NvsKey -> Err, commit: Err)

  /** First failing write among the keys from index `i` on. */
  function WriteError(p: Patch, env: PersistEnv, i: nat): Err
    requires i <= 5
    decreases 5 - i
  {
    if i == 5 then Ok
    else if PatchValue(p, KeyAt(i)).Some? && env.write(KeyAt(i)) != Ok then env.write(KeyAt(i))
    else WriteError(p, env, i + 1)
  }

  function PersistError(p: Patch, env: PersistEnv): Err {
    if env.open != Ok then env.open
    else if WriteError(p, env, 0) != Ok then WriteError(p, env, 0)
    else env.commit
  }

  /** The whole persist: all of the patch reaches flash, or nothing does. */
  function Persisted(img: Image, p: Patch, env: PersistEnv): Image {
    if PersistError(p, env) == Ok then img + PatchImage(p) else img
  }

  function ApplyPatchError(b: Build, initialized: bool, p: Patch, persist: bool, env: PersistEnv): Err {
    if !initialized then InvalidState
    else if Validate(b, p) != Ok then Validate(b, p)
    else if p == EMPTY_PATCH || !persist then Ok
    else PersistError(p, env)
  }

  /** Outcome of every NVS call one boot makes; `Ok` for a key means the flash entry is readable. */
  datatype ReadEnv = ReadEnv(open: Err, read: NvsKey -> Err)

  const CLEAN_READS := ReadEnv(Ok, k => Ok)

  function ReadStatus(img: Image, env: ReadEnv, k: NvsKey): Err {
    if env.read(k) != Ok then env.read(k) else if k in img then Ok else NotFound
  }

  predicate Readable(img: Image, env: ReadEnv, k: NvsKey) {
    k in img && ReadStatus(img, env, k) == Ok
  }

  function RestoredEnabled(b: Build, img: Image, env: ReadEnv): bool {
    if Readable(img, env, MotionEn) && img[MotionEn] <= 1
    then b.hasMotion && img[MotionEn] != 0
    else b.defaults.motionEnabled
  }

  function RestoredMode(b: Build, img: Image, env: ReadEnv): u32 {
    if Readable(img, env, IrModeKey) && ModeIsValid(img[IrModeKey])
    then (if b.hasIr then img[IrModeKey] else MODE_OFF)
    else b.defaults.irMode
  }

  /** What a boot leaves in RAM: each stored value that is readable and valid, else the compiled default. */
  function Restored(b: Build, img: Image, env: ReadEnv): Settings {
    if env.open != Ok then b.defaults else
      Settings(
        if Readable(img, env, HbIntS) && HeartbeatIsValid(img[HbIntS]) then img[HbIntS] else b.defaults.heartbeatIntervalS,
        RestoredEnabled(b, img, env),
        if Readable(img, env, MotionWu) && WarmupIsValid(img[MotionWu]) then img[MotionWu] else b.defaults.motionWarmupMs,
        if Readable(img, env, MotionCd) && CooldownIsValid(img[MotionCd]) then img[MotionCd] else b.defaults.motionCooldownMs,
        RestoredMode(b, img, env))
  }

  /** The configuration the same build restores when every read works. */
  function Restore(b: Build, img: Image): Settings { Restored(b, img, CLEAN_READS) }

  predicate IsReadError(err: Err) { err != Ok && err != NotFound }

  /** Only the first real error is kept. */
  function NoteError(soFar: Err, status: Err): Err {
    if soFar == Ok && IsReadError(status) then status else soFar
  }

  /** First real read error among the keys from index `i` on. */
  function ReadError(img: Image, env: ReadEnv, i: nat): Err
    requires i <= 5
    decreases 5 - i
  {
    if i == 5 then Ok
    else if IsReadError(ReadStatus(img, env, KeyAt(i))) then ReadStatus(img, env, KeyAt(i))
    else ReadError(img, env, i + 1)
  }

  function InitError(img: Image, env: ReadEnv): Err {
    if env.open != Ok then env.open else ReadError(img, env, 0)
  }

  /** Noting the five read outcomes one after another keeps the first real error. */
  lemma FirstErrorIsKept(img: Image, env: ReadEnv)
    ensures ReadError(img, env, 0) ==
      NoteError(NoteError(NoteError(NoteError(NoteError(Ok,
        ReadStatus(img, env, HbIntS)), ReadStatus(img, env, MotionEn)), ReadStatus(img, env, MotionWu)),
        ReadStatus(img, env, MotionCd)), ReadStatus(img, env, IrModeKey))
  {
    var e4 := ReadError(img, env, 4);
    var e3 := ReadError(img, env, 3);
    var e2 := ReadError(img, env, 2);
  }

  /** A boot goes well when the namespace opens and each key reads or is missing: missing keys are no error. */
  ghost predicate ReadsGoWell(env: ReadEnv) {
    env.open == Ok && forall k: NvsKey :: env.read(k) == Ok || env.read(k) == NotFound
  }

  lemma MissingKeysAreNoError(img: Image, env: ReadEnv)
    ensures InitError(img, env) == Ok <==> ReadsGoWell(env)
  {
    var e4, e3 := ReadError(img, env, 4), ReadError(img, env, 3);
    var e2, e1 := ReadError(img, env, 2), ReadError(img, env, 1);
    assert KeyAt(0) == HbIntS && KeyAt(1) == MotionEn && KeyAt(2) == MotionWu && KeyAt(3) == MotionCd && KeyAt(4) == IrModeKey;
    if InitError(img, env) == Ok {
      forall k: NvsKey ensures env.read(k) == Ok || env.read(k) == NotFound {
        var j := match k case HbIntS => 0 case MotionEn => 1 case MotionWu => 2 case MotionCd => 3 case IrModeKey => 4;
        assert KeyAt(j) == k;
      }
    }
  }

  /** `err` and `pending` are the outcome of offering the first `n` keys of the patch. */
  ghost predicate WriteProgress(p: Patch, env: PersistEnv, n: nat, err: Err, pending: Image)
    requires n <= 5
  {
    if err == Ok
    then WriteError(p, env, 0) == WriteError(p, env, n) && pending == Staged(p, n)
    else err == WriteError(p, env, 0)
  }

  /** The environment's contract: writes stay pending until a successful commit, closing drops what is pending. */
  class Nvs {
    var committed: Image
    var pending: Image

    constructor (image: Image)
      ensures committed == image && pending == map[]
    {
      committed, pending := image, map[];
    }

    method Open(outcome: Err) returns (err: Err)
      modifies this
      ensures err == outcome && committed == old(committed)
      ensures pending == map[]
    {
      err, pending := outcome, map[];
    }

    method Write(key: NvsKey, value: u32, outcome: Err) returns (err: Err)
      modifies this
      ensures err == outcome && committed == old(committed)
      ensures pending == if outcome == Ok then old(pending)[key := value] else old(pending)
    {
      err := outcome;
      if err == Ok { pending := pending[key := value]; }
    }

    method Commit(outcome: Err) returns (err: Err)
      modifies this
      ensures err == outcome
      ensures committed == if outcome == Ok then old(committed) + old(pending) else old(committed)
      ensures pending == if outcome == Ok then map[] else old(pending)
    {
      err := outcome;
      if err == Ok { committed, pending := committed + pending, map[]; }
    }

    method Read(key: NvsKey, outcome: Err) returns (err: Err, value: u32)
      ensures err == if outcome != Ok then outcome else if key in committed then Ok else NotFound
      ensures err == Ok && key in committed ==> value == committed[key]
    {
      value := 0;
      if outcome != Ok { return outcome, value; }
      if key !in committed { return NotFound, value; }
      return Ok, committed[key];
    }

    method Close()
      modifies this
      ensures committed == old(committed) && pending == map[]
    {
      pending := map[];
    }
  }

  /** The static state of runtime_config.c. */
  class ConfigStore {
    const build: Build
    const nvs: Nvs
    var initialized: bool
    var heartbeatIntervalS: u32
    var motionEnabled: bool
    var motionWarmupMs: u32
    var motionCooldownMs: u32
    var irMode: u32

    constructor (build: Build, nvs: Nvs)
      ensures this.build == build && this.nvs == nvs
      ensures !initialized && Stored() == build.defaults
    {
      this.build, this.nvs := build, nvs;
      new;
      SeedDefaults();
    }

    /** The five values held in RAM. */
    function Stored(): Settings
      reads this
    {
      Settings(heartbeatIntervalS, motionEnabled, motionWarmupMs, motionCooldownMs, irMode)
    }

    /** All getters together; only the enable flag and the mode are gated. */
    function Exposed(): (c: Settings)
      reads this
      ensures c.motionEnabled == (build.hasMotion && motionEnabled)
      ensures c.irMode == (if build.hasIr then irMode else 0)
      ensures c == Gate(build, Stored())
    {
      Settings(heartbeatIntervalS,
               if build.hasMotion then motionEnabled else false,
               motionWarmupMs,
               motionCooldownMs,
               if build.hasIr then irMode else MODE_OFF)
    }

    method RestoreHeartbeat(env: ReadEnv, soFar: Err) returns (err: Err)
      modifies this`heartbeatIntervalS
      ensures heartbeatIntervalS ==
        if Readable(nvs.committed, env, HbIntS) && HeartbeatIsValid(nvs.committed[HbIntS])
        then nvs.committed[HbIntS]
        else old(heartbeatIntervalS)
      ensures err == NoteError(soFar, ReadStatus(nvs.committed, env, HbIntS))
    {
      err := soFar;
      var readErr, value := nvs.Read(HbIntS, env.read(HbIntS));
      if readErr == Ok {
        if HeartbeatIsValid(value) { heartbeatIntervalS := value; }
      } else if readErr != NotFound && err == Ok {
        err := readErr;
      }
    }

    method RestoreEnabled(env: ReadEnv, soFar: Err) returns (err: Err)
      modifies this`motionEnabled
      ensures motionEnabled ==
        if Readable(nvs.committed, env, MotionEn) && nvs.committed[MotionEn] <= 1
        then build.hasMotion && nvs.committed[MotionEn] != 0
        else old(motionEnabled)
      ensures err == NoteError(soFar, ReadStatus(nvs.committed, env, MotionEn))
    {
      err := soFar;
      var readErr, value := nvs.Read(MotionEn, env.read(MotionEn));
      if readErr == Ok {
        if value <= 1 {
          if !build.hasMotion && value != 0 {
            motionEnabled := false;
          } else {
            motionEnabled := value != 0;
          }
        }
      } else if readErr != NotFound && err == Ok {
        err := readErr;
      }
    }

    method RestoreWarmup(env: ReadEnv, soFar: Err) returns (err: Err)
      modifies this`motionWarmupMs
      ensures motionWarmupMs ==
        if Readable(nvs.committed, env, MotionWu) && WarmupIsValid(nvs.committed[MotionWu])
        then nvs.committed[MotionWu]
        else old(motionWarmupMs)
      ensures err == NoteError(soFar, ReadStatus(nvs.committed, env, MotionWu))
    {
      err := soFar;
      var readErr, value := nvs.Read(MotionWu, env.read(MotionWu));
      if readErr == Ok {
        if WarmupIsValid(value) { motionWarmupMs := value; }
      } else if readErr != NotFound && err == Ok {
        err := readErr;
      }
    }

    method RestoreCooldown(env: ReadEnv, soFar: Err) returns (err: Err)
      modifies this`motionCooldownMs
      ensures motionCooldownMs ==
        if Readable(nvs.committed, env, MotionCd) && CooldownIsValid(nvs.committed[MotionCd])
        then nvs.committed[MotionCd]
        else old(motionCooldownMs)
      ensures err == NoteError(soFar, ReadStatus(nvs.committed, env, MotionCd))
    {
      err := soFar;
      var readErr, value := nvs.Read(MotionCd, env.read(MotionCd));
      if readErr == Ok {
        if CooldownIsValid(value) { motionCooldownMs := value; }
      } else if readErr != NotFound && err == Ok {
        err := readErr;
      }
    }

    method RestoreMode(env: ReadEnv, soFar: Err) returns (err: Err)
      modifies this`irMode
      ensures irMode ==
        if Readable(nvs.committed, env, IrModeKey) && ModeIsValid(nvs.committed[IrModeKey])
        then (if build.hasIr then nvs.committed[IrModeKey] else MODE_OFF)
        else old(irMode)
      ensures err == NoteError(soFar, ReadStatus(nvs.committed, env, IrModeKey))
    {
      err := soFar;
      var readErr, value := nvs.Read(IrModeKey, env.read(IrModeKey));
      if readErr == Ok {
        if ModeIsValid(value) {
          if !build.hasIr && value != MODE_OFF {
            irMode := MODE_OFF;
          } else {
            irMode := value;
          }
        }
      } else if readErr != NotFound && err == Ok {
        err := readErr;
      }
    }

    method SeedDefaults()
      modifies this
      ensures !initialized && Stored() == build.defaults
    {
      initialized := false;
      heartbeatIntervalS, motionEnabled := build.defaults.heartbeatIntervalS, build.defaults.motionEnabled;
      motionWarmupMs, motionCooldownMs := build.defaults.motionWarmupMs, build.defaults.motionCooldownMs;
      irMode := build.defaults.irMode;
    }

    /** Overwrite the defaults by every stored value that is readable and valid. */
    method RestoreAll(env: ReadEnv) returns (err: Err)
      requires env.open == Ok && Stored() == build.defaults
      modifies this
      ensures Stored() == Restored(build, nvs.committed, env)
      ensures err == ReadError(nvs.committed, env, 0)
      ensures initialized == old(initialized)
    {
      err := RestoreHeartbeat(env, Ok);
      err := RestoreEnabled(env, err);
      err := RestoreWarmup(env, err);
      err := RestoreCooldown(env, err);
      err := RestoreMode(env, err);
      FirstErrorIsKept(nvs.committed, env);
    }

    method Init(env: ReadEnv) returns (err: Err)
      modifies this, nvs
      ensures nvs.committed == old(nvs.committed) && nvs.pending == map[]
      ensures Stored() == Restored(build, nvs.committed, env)
      ensures err == InitError(nvs.committed, env)
      ensures err == Ok <==> ReadsGoWell(env)
      ensures initialized <==> err == Ok
    {
      MissingKeysAreNoError(nvs.committed, env);
      SeedDefaults();
      err := nvs.Open(env.open);
      if err != Ok { return; }
      err := RestoreAll(env);
      nvs.Close();
      if err == Ok { initialized := true; }
    }

    /** Write each present key of the patch until a call fails. */
    method StagePatch(p: Patch, env: PersistEnv) returns (err: Err)
      requires nvs.pending == map[]
      modifies nvs
      ensures err == WriteError(p, env, 0)
      ensures nvs.committed == old(nvs.committed)
      ensures err == Ok ==> nvs.pending == PatchImage(p)
    {
      err := Ok;
      if p.heartbeatIntervalS.Some? {
        err := nvs.Write(HbIntS, p.heartbeatIntervalS.value, env.write(HbIntS));
      }
      assert WriteProgress(p, env, 1, err, nvs.pending);
      if err == Ok && p.motionEnabled.Some? {
        err := nvs.Write(MotionEn, if p.motionEnabled.value then 1 else 0, env.write(MotionEn));
      }
      assert WriteProgress(p, env, 2, err, nvs.pending);
      if err == Ok && p.motionWarmupMs.Some? {
        err := nvs.Write(MotionWu, p.motionWarmupMs.value, env.write(MotionWu));
      }
      assert WriteProgress(p, env, 3, err, nvs.pending);
      if err == Ok && p.motionCooldownMs.Some? {
        err := nvs.Write(MotionCd, p.motionCooldownMs.value, env.write(MotionCd));
      }
      assert WriteProgress(p, env, 4, err, nvs.pending);
      if err == Ok && p.irMode.Some? {
        err := nvs.Write(IrModeKey, p.irMode.value, env.write(IrModeKey));
      }
      assert WriteProgress(p, env, 5, err, nvs.pending);
    }

    /** Open, write, commit, close: one NVS transaction. */
    method PersistPatch(p: Patch, env: PersistEnv) returns (err: Err)
      modifies nvs
      ensures err == PersistError(p, env)
      ensures nvs.committed == Persisted(old(nvs.committed), p, env)
      ensures nvs.pending == map[]
    {
      err := nvs.Open(env.open);
      if err != Ok { return; }
      err := StagePatch(p, env);
      if err == Ok { err := nvs.Commit(env.commit); }
      nvs.Close();
    }

    /** Mirror the present fields into RAM. */
    method ApplyPatchToState(p: Patch)
      modifies this
      ensures Stored() == Overlay(old(Stored()), p) && initialized == old(initialized)
    {
      if p.heartbeatIntervalS.Some? { heartbeatIntervalS := p.heartbeatIntervalS.value; }
      if p.motionEnabled.Some? { motionEnabled := p.motionEnabled.value; }
      if p.motionWarmupMs.Some? { motionWarmupMs := p.motionWarmupMs.value; }
      if p.motionCooldownMs.Some? { motionCooldownMs := p.motionCooldownMs.value; }
      if p.irMode.Some? { irMode := p.irMode.value; }
    }

    method ValidatePatch(p: Patch) returns (err: Err)
      ensures err == if initialized then Validate(build, p) else InvalidState
    {
      if !initialized { return InvalidState; }
      err := Validate(build, p);
    }

    /** RAM and flash both take the patch, or neither does. */
    method ApplyPatch(p: Patch, persist: bool, env: PersistEnv) returns (err: Err)
      modifies this, nvs
      ensures err == ApplyPatchError(build, initialized, p, persist, env)
      ensures Stored() == if err == Ok then Overlay(old(Stored()), p) else old(Stored())
      ensures nvs.committed ==
        if err == Ok && persist then old(nvs.committed) + PatchImage(p) else old(nvs.committed)
      ensures initialized == old(initialized)
    {
      if !initialized { return InvalidState; }
      err := Validate(build, p);
      if err != Ok { return; }
      if p == EMPTY_PATCH { return; }
      if persist {
        err := PersistPatch(p, env);
        if err != Ok { return; }
      }
      ApplyPatchToState(p);
    }
  }
}
