/** components/illumination: the IR output and the policy that drives it. */
module IrIlluminator {
  import opened Base
  import opened RuntimeConfig

  /** The static state of ir_illuminator.c together with the level on the pin. */
  datatype IlluminatorState = IlluminatorState(initialized: bool, captureActive: bool, outputOn: bool, pinLevel: int)

  function OutputLevel(b: Build, on: bool): int {
    if b.irActiveHigh then (if on then 1 else 0) else (if on then 0 else 1)
  }

  predicate ShouldBeOn(s: IlluminatorState, mode: u32) {
    mode == MODE_ON || (mode == MODE_CAPTURE && s.captureActive)
  }

  /** The remembered output is the one on the pin. */
  predicate PinMatches(b: Build, s: IlluminatorState) {
    s.initialized ==> s.pinLevel == OutputLevel(b, s.outputOn)
  }

  function OutputError(b: Build, s: IlluminatorState, gpio: Err): Err {
    if !b.hasIr then Ok else if !s.initialized then InvalidState else gpio
  }

  /** State after recomputing the output for `mode`; a failed GPIO write changes nothing. */
  function Driven(b: Build, s: IlluminatorState, mode: u32, gpio: Err): IlluminatorState {
    if !b.hasIr || !s.initialized || gpio != Ok then s
    else s.(outputOn := ShouldBeOn(s, mode), pinLevel := OutputLevel(b, ShouldBeOn(s, mode)))
  }

  function ModeError(b: Build, s: IlluminatorState, mode: u32, gpio: Err): Err {
    if !ModeIsValid(mode) then InvalidArg else OutputError(b, s, gpio)
  }

  function WithMode(b: Build, s: IlluminatorState, mode: u32, gpio: Err): IlluminatorState {
    if !ModeIsValid(mode) then s else Driven(b, s, mode, gpio)
  }

  /** The capture flag is stored before the output is recomputed, so it survives a failed GPIO write. */
  function WithCapture(b: Build, s: IlluminatorState, active: bool, mode: u32, gpio: Err): IlluminatorState {
    if !b.hasIr || !s.initialized then s else Driven(b, s.(captureActive := active), mode, gpio)
  }

  /** Outcomes of setting the pin up: is its number usable, and the three driver calls in order. */
  datatype PinSetup = PinSetup(valid: bool, reset: Err, direction: Err, level: Err)

  function PinSetupError(setup: PinSetup): Err {
    if !setup.valid then InvalidArg
    else if setup.reset != Ok then setup.reset
    else if setup.direction != Ok then setup.direction
    else setup.level
  }

  class Illuminator {
    const config: ConfigStore
    var initialized: bool
    var captureActive: bool
    var outputOn: bool
    var pinLevel: int

    constructor (config: ConfigStore)
      ensures this.config == config
      ensures State() == IlluminatorState(false, false, false, OutputLevel(config.build, false))
    {
      this.config := config;
      initialized, captureActive, outputOn := false, false, false;
      pinLevel := OutputLevel(config.build, false);
    }

    function State(): IlluminatorState
      reads this
    {
      IlluminatorState(initialized, captureActive, outputOn, pinLevel)
    }

    /** The light is on, or off, in the books and on the pin. */
    predicate IsLit(on: bool)
      reads this
    {
      outputOn == on && pinLevel == if config.build.irActiveHigh then (if on then 1 else 0) else (if on then 0 else 1)
    }

    method DriveOutput(on: bool, gpio: Err) returns (err: Err)
      modifies this
      ensures err == gpio
      ensures State() ==
        if gpio == Ok
        then old(State()).(outputOn := on, pinLevel := OutputLevel(config.build, on))
        else old(State())
    {
      if gpio != Ok { return gpio; }
      pinLevel := OutputLevel(config.build, on);
      outputOn := on;
      return Ok;
    }

    method ApplyOutput(mode: u32, gpio: Err) returns (err: Err)
      modifies this
      ensures err == OutputError(config.build, old(State()), gpio)
      ensures State() == Driven(config.build, old(State()), mode, gpio)
    {
      if !config.build.hasIr { return Ok; }
      if !initialized { return InvalidState; }
      err := DriveOutput(ShouldBeOn(State(), mode), gpio);
    }

    method Init(setup: PinSetup) returns (err: Err)
      modifies this
      ensures err == if config.build.hasIr && !old(initialized) then PinSetupError(setup) else Ok
      ensures err == Ok <==>
        || !config.build.hasIr || old(initialized)
        || (setup.valid && setup.reset == Ok && setup.direction == Ok && setup.level == Ok)
      ensures err == Ok && config.build.hasIr && !old(initialized) ==> initialized && !captureActive && IsLit(false)
      ensures config.build.hasIr && !old(initialized) && setup.valid && setup.reset != Ok ==> err == setup.reset
      ensures config.build.hasIr && !old(initialized) && !setup.valid ==> err == InvalidArg
      ensures State() ==
        if !config.build.hasIr || old(initialized) || !setup.valid then old(State())
        else if err == Ok then IlluminatorState(true, false, false, OutputLevel(config.build, false))
        else old(State()).(captureActive := false, outputOn := false)
    {
      if !config.build.hasIr { return Ok; }
      if initialized { return Ok; }
      if !setup.valid { return InvalidArg; }
      captureActive := false;
      outputOn := false;
      if setup.reset != Ok { return setup.reset; }
      if setup.direction != Ok { return setup.direction; }
      err := DriveOutput(false, setup.level);
      if err != Ok { return; }
      initialized := true;
    }

    method ApplyRuntimeConfig(gpio: Err) returns (err: Err)
      modifies this
      ensures err == OutputError(config.build, old(State()), gpio)
      ensures State() == Driven(config.build, old(State()), config.Exposed().irMode, gpio)
    {
      err := ApplyOutput(config.Exposed().irMode, gpio);
    }

    method ApplyMode(mode: u32, gpio: Err) returns (err: Err)
      modifies this
      ensures mode > 2 ==> err == InvalidArg
      ensures mode <= 2 && config.build.hasIr ==> err == if initialized then gpio else InvalidState
      ensures err == Ok && config.build.hasIr ==> IsLit(mode == 1 || (mode == 2 && captureActive))
      ensures err == ModeError(config.build, old(State()), mode, gpio)
      ensures State() == WithMode(config.build, old(State()), mode, gpio)
    {
      if !ModeIsValid(mode) { return InvalidArg; }
      err := ApplyOutput(mode, gpio);
    }

    method SetCaptureActive(active: bool, gpio: Err) returns (err: Err)
      modifies this
      ensures config.build.hasIr && initialized ==> err == gpio && captureActive == active
      ensures err == Ok && config.build.hasIr ==> IsLit(config.irMode == 1 || (config.irMode == 2 && active))
      ensures err == OutputError(config.build, old(State()), gpio)
      ensures State() == WithCapture(config.build, old(State()), active, config.Exposed().irMode, gpio)
    {
      if !config.build.hasIr { return Ok; }
      if !initialized { return InvalidState; }
      captureActive := active;
      err := ApplyOutput(config.Exposed().irMode, gpio);
    }
  }
}
