/** components/detection: the PIR detector, one settings call and one worker iteration at a time. */
module MotionDetection {
  import opened Base

  datatype DetectorState = DetectorState(
    initialized: bool,
    started: bool,
    warmupMs: u32,
    cooldownMs: u32,
    warmupUntilUs: int,
    lastTriggerUs: int)

  /** Value of the static state once motion_detection_init has succeeded. */
  function AfterInit(warmupMs: u32, cooldownMs: u32): DetectorState {
    DetectorState(true, false, warmupMs, cooldownMs, 0, 0)
  }

  /** Static storage before motion_detection_init. */
  const AT_RESET := DetectorState(false, false, 0, 0, 0, 0)

  /** Outcomes of setting the sensor up: is its pin usable, the three driver calls in order, and the worker's creation. */
  datatype PirSetup = PirSetup(valid: bool, pin: Err, service: Err, handler: Err, worker: bool)

  /** An interrupt service that another component has installed already is welcome. */
  function PirSetupError(setup: PirSetup): Err {
    if !setup.valid then InvalidArg
    else if setup.pin != Ok then setup.pin
    else if setup.service != Ok && setup.service != InvalidState then setup.service
    else if setup.handler != Ok then setup.handler
    else if !setup.worker then Fail
    else Ok
  }

  function SettingsError(supported: bool, d: DetectorState): Err {
    if supported && !d.initialized then InvalidState else Ok
  }

  /** Detector after one settings call at time `nowUs`. */
  function WithSettings(supported: bool, d: DetectorState, nowUs: int, enable: bool, warmupMs: u32, cooldownMs: u32)
    : DetectorState
  {
    if !supported || !d.initialized then d
    else if !enable then DetectorState(true, false, warmupMs, cooldownMs, 0, 0)
    else if !d.started then
      DetectorState(true, true, warmupMs, cooldownMs, Wrap64(nowUs + warmupMs * 1000), 0)
    else d.(warmupMs := warmupMs, cooldownMs := cooldownMs)
  }

  /** Whether a worker iteration that reads the clock as `nowUs` lets its edge through. */
  predicate Accepts(d: DetectorState, nowUs: int) {
    && d.started
    && nowUs >= d.warmupUntilUs
    && !(d.cooldownMs * 1000 > 0 && d.lastTriggerUs > 0 && Wrap64(nowUs - d.lastTriggerUs) < d.cooldownMs * 1000)
  }

  const CLOCK_LIMIT := 0x4000_0000_0000_0000

  /** Below 2^62 microseconds the wrapped difference is the real one. */
  lemma AcceptsPlainly(d: DetectorState, nowUs: int)
    requires 0 <= d.lastTriggerUs <= nowUs < CLOCK_LIMIT
    ensures Accepts(d, nowUs) <==>
      && d.started && nowUs >= d.warmupUntilUs
      && (d.lastTriggerUs == 0 || nowUs - d.lastTriggerUs >= d.cooldownMs * 1000)
  {
  }

  function AfterWake(d: DetectorState, nowUs: int): DetectorState {
    if Accepts(d, nowUs) then d.(lastTriggerUs := nowUs) else d
  }

  /** A detector that is not running remembers no warm-up and no trigger. */
  predicate StoppedIsClear(d: DetectorState) {
    !d.started ==> d.warmupUntilUs == 0 && d.lastTriggerUs == 0
  }

  /** The static state of motion_detection.c. */
  class Detector {
    const supported: bool
    const defaultWarmupMs: u32
    const defaultCooldownMs: u32
    var initialized: bool
    var started: bool
    var warmupMs: u32
    var cooldownMs: u32
    var warmupUntilUs: int
    var lastTriggerUs: int

    constructor (supported: bool, defaultWarmupMs: u32, defaultCooldownMs: u32)
      ensures this.supported == supported && State() == AT_RESET
      ensures this.defaultWarmupMs == defaultWarmupMs && this.defaultCooldownMs == defaultCooldownMs
    {
      this.supported, this.defaultWarmupMs, this.defaultCooldownMs := supported, defaultWarmupMs, defaultCooldownMs;
      initialized, started := false, false;
      warmupMs, cooldownMs, warmupUntilUs, lastTriggerUs := 0, 0, 0, 0;
    }

    function State(): DetectorState
      reads this
    {
      DetectorState(initialized, started, warmupMs, cooldownMs, warmupUntilUs, lastTriggerUs)
    }

    method Init(setup: PirSetup) returns (err: Err)
      modifies this
      ensures err == if supported && !old(initialized) then PirSetupError(setup) else Ok
      ensures err == Ok <==>
        || !supported || old(initialized)
        || (setup.valid && setup.pin == Ok && setup.service in {Ok, InvalidState} && setup.handler == Ok && setup.worker)
      ensures supported && !old(initialized) && setup.valid && setup.pin != Ok ==> err == setup.pin
      ensures supported && !old(initialized) && !setup.valid ==> err == InvalidArg
      ensures err == Ok && supported && !old(initialized) ==>
        && initialized && !started && warmupMs == defaultWarmupMs && cooldownMs == defaultCooldownMs
        && warmupUntilUs == 0 && lastTriggerUs == 0
      ensures State() ==
        if !supported || old(initialized) || !setup.valid then old(State())
        else AfterInit(defaultWarmupMs, defaultCooldownMs).(initialized := err == Ok)
    {
      if !supported { return Ok; }
      if initialized { return Ok; }
      if !setup.valid { return InvalidArg; }
      initialized, started, warmupUntilUs, lastTriggerUs := false, false, 0, 0;
      warmupMs, cooldownMs := defaultWarmupMs, defaultCooldownMs;
      if setup.pin != Ok { return setup.pin; }
      if setup.service != Ok && setup.service != InvalidState { return setup.service; }
      if setup.handler != Ok { return setup.handler; }
      if !setup.worker { return Fail; }
      initialized := true;
      return Ok;
    }

    method ApplySettings(enable: bool, warmupMs: u32, cooldownMs: u32, nowUs: int) returns (err: Err)
      modifies this
      ensures err == SettingsError(supported, old(State()))
      ensures err == InvalidState <==> supported && !initialized
      ensures supported && initialized ==> started == enable && this.warmupMs == warmupMs && this.cooldownMs == cooldownMs
      ensures State() == WithSettings(supported, old(State()), nowUs, enable, warmupMs, cooldownMs)
    {
      if !supported { return Ok; }
      if !initialized { return InvalidState; }

      var wasStarted := started;
      this.warmupMs := warmupMs;
      this.cooldownMs := cooldownMs;
      if !enable {
        started := false;
        warmupUntilUs := 0;
        lastTriggerUs := 0;
        return Ok;
      }
      if !wasStarted {
        warmupUntilUs := Wrap64(nowUs + this.warmupMs * 1000);
        lastTriggerUs := 0;
        started := true;
        return Ok;
      }
      return Ok;
    }

    /** One iteration of the worker after it has been notified; `trigger` is the event it posts. */
    method TaskIteration(nowUs: int) returns (trigger: Option<int>)
      modifies this
      ensures State() == AfterWake(old(State()), nowUs)
      ensures trigger == if Accepts(old(State()), nowUs) then Some(nowUs) else None
    {
      if !started { return None; }
      if nowUs < warmupUntilUs { return None; }
      var cooldownUs := cooldownMs * 1000;
      if cooldownUs > 0 && lastTriggerUs > 0 && Wrap64(nowUs - lastTriggerUs) < cooldownUs { return None; }
      lastTriggerUs := nowUs;
      return Some(nowUs);
    }

    /** Armed means exactly: an edge seen now, with no acceptance in the way, would be accepted. */
    method IsArmed(nowUs: int) returns (armed: bool)
      requires started ==> supported
      ensures armed <==> started && nowUs >= warmupUntilUs
      ensures armed <==> Accepts(State().(lastTriggerUs := 0), nowUs)
    {
      if !supported || !started { return false; }
      armed := nowUs >= warmupUntilUs;
    }
  }
}
