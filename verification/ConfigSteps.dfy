/** One config command as a machine of single effects, with worker iterations of the detector between any two. */
module ConfigSteps {
  import opened Base
  import opened RuntimeConfig
  import opened MotionDetection
  import opened IrIlluminator
  import opened HeartbeatTask
  import opened CommandRouter
  import opened ConfigLaws

  /** The next effect of a command that has passed validation with a non-empty patch. */
  datatype Pc =
    | PushMotion | PushIr | PushHeartbeat
    | OpenNvs | WriteKey(i: nat) | CommitNvs | CloseNvs(stored: bool)
    | Mirror(i: nat)
    | BackMotion | BackIr | BackHeartbeat
    | Finished(ok: bool)

  datatype Command = Command(previous: Settings, next: Settings, patch: Patch)

  /** `world.flash` is what is committed; `pending` is lost on a reset. `triggers` logs the accepted edges since the
      command began; `backAt` records the clock and the length of that log when the detector was rolled back. */
  datatype Machine = Machine(
    pc: Pc,
    world: World,
    pending: Image,
    triggers: seq<int>,
    backAt: Option<(int, nat)>)

  /** An effect of the command with the outcome of its driver call and the clock, or a worker iteration. */
  datatype Event = Effect(outcome: Err, nowUs: int) | Edge(nowUs: int)

  function Begin(w: World): Machine {
    Machine(PushMotion, w, map[], [], None)
  }

  function StagedCommand(b: Build, w: World, p: Patch): Command {
    Command(Previous(b, w), Next(b, w, p), p)
  }

  function FieldStored(s: Settings, p: Patch, i: nat): Settings {
    if i == 0 then s.(heartbeatIntervalS := Or(p.heartbeatIntervalS, s.heartbeatIntervalS))
    else if i == 1 then s.(motionEnabled := Or(p.motionEnabled, s.motionEnabled))
    else if i == 2 then s.(motionWarmupMs := Or(p.motionWarmupMs, s.motionWarmupMs))
    else if i == 3 then s.(motionCooldownMs := Or(p.motionCooldownMs, s.motionCooldownMs))
    else s.(irMode := Or(p.irMode, s.irMode))
  }

  function WithServices(m: Machine, s: Services, pc: Pc): Machine {
    m.(world := m.world.(services := s), pc := pc)
  }

  /** Pushing the next snapshot, service by service. */
  function PushStep(b: Build, c: Command, m: Machine, e: Err, nowUs: int): Machine {
    var s := m.world.services;
    match m.pc
    case PushMotion =>
      WithServices(m, WithMotion(b, s, c.next, nowUs),
                   if SettingsError(b.hasMotion, s.motion) == Ok then PushIr else BackMotion)
    case PushIr =>
      WithServices(m, s.(ir := WithMode(b, s.ir, c.next.irMode, e)),
                   if ModeError(b, s.ir, c.next.irMode, e) == Ok then PushHeartbeat else BackMotion)
    case _ =>
      if IntervalIsAccepted(c.next.heartbeatIntervalS)
      then WithServices(m, s.(intervalS := c.next.heartbeatIntervalS), OpenNvs)
      else m.(pc := BackMotion)
  }

  /** The NVS transaction and the mirroring into RAM. */
  function StoreStep(c: Command, m: Machine, e: Err): Machine {
    match m.pc
    case WriteKey(i) =>
      if i >= 5 then m.(pc := CommitNvs)
      else
        var v := PatchValue(c.patch, KeyAt(i));
        if v.None? then m.(pc := WriteKey(i + 1))
        else if e == Ok then m.(pc := WriteKey(i + 1), pending := m.pending[KeyAt(i) := v.value])
        else m.(pc := CloseNvs(false))
    case CommitNvs =>
      if e == Ok
      then m.(pc := CloseNvs(true), world := m.world.(flash := m.world.flash + m.pending), pending := map[])
      else m.(pc := CloseNvs(false))
    case CloseNvs(stored) => m.(pc := if stored then Mirror(0) else BackMotion, pending := map[])
    case Mirror(i) =>
      if i >= 5 then m.(pc := Finished(true))
      else m.(pc := Mirror(i + 1), world := m.world.(stored := FieldStored(m.world.stored, c.patch, i)))
    case _ => m.(pc := if e == Ok then WriteKey(0) else BackMotion, pending := map[])
  }

  /** Pushing the previous snapshot back; its failure ends the command without a further attempt. */
  function BackStep(b: Build, c: Command, m: Machine, e: Err, nowUs: int): Machine {
    var s := m.world.services;
    match m.pc
    case BackMotion =>
      WithServices(m, WithMotion(b, s, c.previous, nowUs),
                   if SettingsError(b.hasMotion, s.motion) == Ok then BackIr else Finished(false))
        .(backAt := Some((nowUs, |m.triggers|)))
    case BackIr =>
      WithServices(m, s.(ir := WithMode(b, s.ir, c.previous.irMode, e)),
                   if ModeError(b, s.ir, c.previous.irMode, e) == Ok then BackHeartbeat else Finished(false))
    case _ =>
      if IntervalIsAccepted(c.previous.heartbeatIntervalS)
      then WithServices(m, s.(intervalS := c.previous.heartbeatIntervalS), Finished(false))
      else m.(pc := Finished(false))
  }

  predicate IsPush(pc: Pc) { pc.PushMotion? || pc.PushIr? || pc.PushHeartbeat? }

  predicate IsBack(pc: Pc) { pc.BackMotion? || pc.BackIr? || pc.BackHeartbeat? }

  function EffectStep(b: Build, c: Command, m: Machine, e: Err, nowUs: int): Machine {
    if m.pc.Finished? then m
    else if IsPush(m.pc) then PushStep(b, c, m, e, nowUs)
    else if IsBack(m.pc) then BackStep(b, c, m, e, nowUs)
    else StoreStep(c, m, e)
  }

  function EdgeStep(m: Machine, nowUs: int): Machine {
    var d := m.world.services.motion;
    m.(world := m.world.(services := m.world.services.(motion := AfterWake(d, nowUs))),
       triggers := if Accepts(d, nowUs) then m.triggers + [nowUs] else m.triggers)
  }

  function Step(b: Build, c: Command, m: Machine, e: Event): Machine {
    match e
    case Effect(outcome, nowUs) => EffectStep(b, c, m, outcome, nowUs)
    case Edge(nowUs) => EdgeStep(m, nowUs)
  }

  function Run(b: Build, c: Command, m: Machine, events: seq<Event>): Machine
    decreases |events|
  {
    if |events| == 0 then m else Run(b, c, Step(b, c, m, events[0]), events[1..])
  }

  // ---------------------------------------------------------------------------------------------
  // Crash consistency.

  predicate Committed(pc: Pc) {
    pc.Mirror? || (pc.CloseNvs? && pc.stored) || (pc.Finished? && pc.ok)
  }

  /** Flash switches from the old to the patched image at commit and nowhere else. */
  predicate FlashInvariant(w: World, p: Patch, m: Machine) {
    && m.world.flash == (if Committed(m.pc) then w.flash + PatchImage(p) else w.flash)
    && (m.pc.WriteKey? ==> m.pc.i <= 5 && m.pending == Staged(p, m.pc.i))
    && (m.pc == CommitNvs ==> m.pending == PatchImage(p))
  }

  lemma FlashStoreStep(w: World, p: Patch, c: Command, m: Machine, e: Err)
    requires FlashInvariant(w, p, m) && c.patch == p && !IsPush(m.pc) && !IsBack(m.pc) && !m.pc.Finished?
    ensures FlashInvariant(w, p, StoreStep(c, m, e))
  {
    if m.pc.WriteKey? && m.pc.i < 5 {
      var next := Staged(p, m.pc.i + 1);
    }
  }

  lemma FlashStep(b: Build, w: World, p: Patch, m: Machine, e: Event)
    requires FlashInvariant(w, p, m)
    ensures FlashInvariant(w, p, Step(b, StagedCommand(b, w, p), m, e))
  {
    if e.Effect? && !IsPush(m.pc) && !IsBack(m.pc) && !m.pc.Finished? {
      FlashStoreStep(w, p, StagedCommand(b, w, p), m, e.outcome);
    }
  }

  lemma {:induction false} FlashAlong(b: Build, w: World, p: Patch, m: Machine, events: seq<Event>)
    requires FlashInvariant(w, p, m)
    ensures FlashInvariant(w, p, Run(b, StagedCommand(b, w, p), m, events))
    decreases |events|
  {
    if |events| > 0 {
      FlashStep(b, w, p, m, events[0]);
      FlashAlong(b, w, p, Step(b, StagedCommand(b, w, p), m, events[0]), events[1..]);
    }
  }

  /** Stop a command after any of its effects: the next boot restores exactly the previous configuration before the
      commit and exactly the patched one from the commit on. */
  lemma CrashConsistency(b: Build, w: World, p: Patch, events: seq<Event>)
    requires b.Valid() && NodeInvariant(b, w) && Acceptable(b, p)
    ensures var m := Run(b, StagedCommand(b, w, p), Begin(w), events);
      Restore(b, m.world.flash) == if Committed(m.pc) then Overlay(w.stored, p) else w.stored
  {
    FlashAlong(b, w, p, Begin(w), events);
    RestoreAfterCommit(b, w.flash, p);
  }

  // ---------------------------------------------------------------------------------------------
  // Detector timing across a failed command.

  /** The last trigger a running detector remembers: the newest one logged from `mark` on, else `initial`. */
  function LastFrom(triggers: seq<int>, mark: nat, initial: int): int {
    if |triggers| <= mark then initial else triggers[|triggers| - 1]
  }

  predicate HasSettings(d: DetectorState, c: Settings) {
    d.started == c.motionEnabled && d.warmupMs == c.motionWarmupMs && d.cooldownMs == c.motionCooldownMs
  }

  /** Same session as `before`: same warm-up end, and only newly accepted edges have moved the last trigger. */
  predicate SessionContinues(before: DetectorState, d: DetectorState, triggers: seq<int>) {
    d.warmupUntilUs == before.warmupUntilUs && d.lastTriggerUs == LastFrom(triggers, 0, before.lastTriggerUs)
  }

  /** A session armed at `nowUs`, when `mark` triggers had been logged. */
  predicate FreshSession(d: DetectorState, c: Settings, nowUs: int, mark: nat, triggers: seq<int>) {
    && mark <= |triggers|
    && d.warmupUntilUs == Wrap64(nowUs + c.motionWarmupMs * 1000)
    && d.lastTriggerUs == LastFrom(triggers, mark, 0)
  }

  predicate Forwarded(before: DetectorState, c: Command, m: Machine) {
    var d := m.world.services.motion;
    && HasSettings(d, c.next)
    && StoppedIsClear(d)
    && (before.started && d.started ==> SessionContinues(before, d, m.triggers))
  }

  /** What a rolled-back detector looks like. */
  predicate RolledBack(before: DetectorState, c: Command, m: Machine) {
    var d := m.world.services.motion;
    && HasSettings(d, c.previous)
    && StoppedIsClear(d)
    && (before.started && c.next.motionEnabled ==> SessionContinues(before, d, m.triggers))
    && (before.started && !c.next.motionEnabled ==>
          m.backAt.Some? && FreshSession(d, c.previous, m.backAt.value.0, m.backAt.value.1, m.triggers))
  }

  predicate IsRolledBackPc(pc: Pc) { pc.BackIr? || pc.BackHeartbeat? || (pc.Finished? && !pc.ok) }

  predicate TimingInvariant(before: DetectorState, c: Command, m: Machine) {
    var d := m.world.services.motion;
    && d.initialized
    && (if m.pc == PushMotion then HasSettings(d, c.previous) && StoppedIsClear(d) && SessionContinues(before, d, m.triggers)
        else if IsRolledBackPc(m.pc) then RolledBack(before, c, m)
        else Forwarded(before, c, m))
  }

  lemma TimingStep(b: Build, c: Command, before: DetectorState, m: Machine, e: Event)
    requires b.hasMotion && StoppedIsClear(before) && before.started == c.previous.motionEnabled
    requires TimingInvariant(before, c, m)
    ensures TimingInvariant(before, c, Step(b, c, m, e))
  {
    if e.Effect? && !m.pc.Finished? && !IsPush(m.pc) && IsBack(m.pc) {
      TimingBackStep(b, c, before, m, e.outcome, e.nowUs);
    } else if e.Effect? && IsPush(m.pc) {
      TimingPushStep(b, c, before, m, e.outcome, e.nowUs);
    }
  }

  lemma TimingPushStep(b: Build, c: Command, before: DetectorState, m: Machine, e: Err, nowUs: int)
    requires b.hasMotion && StoppedIsClear(before) && before.started == c.previous.motionEnabled
    requires TimingInvariant(before, c, m) && IsPush(m.pc)
    ensures TimingInvariant(before, c, PushStep(b, c, m, e, nowUs))
  {
  }

  lemma TimingBackStep(b: Build, c: Command, before: DetectorState, m: Machine, e: Err, nowUs: int)
    requires b.hasMotion && StoppedIsClear(before) && before.started == c.previous.motionEnabled
    requires TimingInvariant(before, c, m) && IsBack(m.pc)
    ensures TimingInvariant(before, c, BackStep(b, c, m, e, nowUs))
  {
  }

  lemma {:induction false} TimingAlong(b: Build, c: Command, before: DetectorState, m: Machine, events: seq<Event>)
    requires b.hasMotion && StoppedIsClear(before) && before.started == c.previous.motionEnabled
    requires TimingInvariant(before, c, m)
    ensures TimingInvariant(before, c, Run(b, c, m, events))
    decreases |events|
  {
    if |events| > 0 {
      TimingStep(b, c, before, m, events[0]);
      TimingAlong(b, c, before, Step(b, c, m, events[0]), events[1..]);
    }
  }

  /** With worker iterations anywhere in between, a failed command leaves the detector on or off as it was. A detector
      that was off is untouched. One that was on is in the same session, unless the command had switched it off: then
      it is in a session armed by the rollback, with a full warm-up and no trigger from before. */
  lemma FailedCommandTiming(b: Build, w: World, p: Patch, events: seq<Event>)
    requires b.Valid() && b.hasMotion && Running(b, w) && MotionMatches(b, w.services, Previous(b, w))
    requires Run(b, StagedCommand(b, w, p), Begin(w), events).pc == Finished(false)
    ensures var m := Run(b, StagedCommand(b, w, p), Begin(w), events);
      var before := w.services.motion;
      var d := m.world.services.motion;
      && MotionMatches(b, m.world.services, Previous(b, w))
      && (!before.started ==> d == before)
      && (before.started && Next(b, w, p).motionEnabled ==> SessionContinues(before, d, m.triggers))
      && (before.started && !Next(b, w, p).motionEnabled ==>
            m.backAt.Some? && FreshSession(d, Previous(b, w), m.backAt.value.0, m.backAt.value.1, m.triggers))
  {
    TimingAlong(b, StagedCommand(b, w, p), w.services.motion, Begin(w), events);
  }

  // ---------------------------------------------------------------------------------------------
  // The output is driven before anything is stored.

  predicate IsStoring(pc: Pc) { pc.OpenNvs? || pc.WriteKey? || pc.CommitNvs? || pc.CloseNvs? }

  predicate IsStored(pc: Pc) { pc.Mirror? || (pc.Finished? && pc.ok) }

  predicate OutputInvariant(b: Build, w: World, c: Command, m: Machine) {
    var s := m.world.services;
    && s.ir.initialized == b.hasIr
    && (m.pc == PushMotion || m.pc == PushIr ==> s.ir == w.services.ir)
    && (m.pc == PushHeartbeat || IsStoring(m.pc) || IsStored(m.pc) ==> OutputMatches(b, s, c.next))
    && (IsStoring(m.pc) || IsStored(m.pc) ==> s.intervalS == c.next.heartbeatIntervalS)
    && (!IsStored(m.pc) ==> m.world.stored == w.stored)
  }

  lemma OutputPushStep(b: Build, w: World, c: Command, m: Machine, e: Err, nowUs: int)
    requires ModeIsValid(c.next.irMode) && HeartbeatIsValid(c.next.heartbeatIntervalS)
    requires OutputInvariant(b, w, c, m) && IsPush(m.pc)
    ensures OutputInvariant(b, w, c, PushStep(b, c, m, e, nowUs))
  {
  }

  lemma OutputStoreStep(b: Build, w: World, c: Command, m: Machine, e: Err)
    requires OutputInvariant(b, w, c, m) && (IsStoring(m.pc) || m.pc.Mirror?)
    ensures OutputInvariant(b, w, c, StoreStep(c, m, e))
  {
  }

  lemma OutputStep(b: Build, w: World, c: Command, m: Machine, e: Event)
    requires ModeIsValid(c.next.irMode) && HeartbeatIsValid(c.next.heartbeatIntervalS) && OutputInvariant(b, w, c, m)
    ensures OutputInvariant(b, w, c, Step(b, c, m, e))
  {
    if e.Effect? && IsPush(m.pc) {
      OutputPushStep(b, w, c, m, e.outcome, e.nowUs);
    } else if e.Effect? && (IsStoring(m.pc) || m.pc.Mirror?) {
      OutputStoreStep(b, w, c, m, e.outcome);
    }
  }

  lemma {:induction false} OutputAlong(b: Build, w: World, c: Command, m: Machine, events: seq<Event>)
    requires ModeIsValid(c.next.irMode) && HeartbeatIsValid(c.next.heartbeatIntervalS) && OutputInvariant(b, w, c, m)
    ensures OutputInvariant(b, w, c, Run(b, c, m, events))
    decreases |events|
  {
    if |events| > 0 {
      OutputStep(b, w, c, m, events[0]);
      OutputAlong(b, w, c, Step(b, c, m, events[0]), events[1..]);
    }
  }

  /** From the moment the store is opened, IR output, pin and heartbeat interval already are those of the new
      configuration, while RAM is the old one until the commit has succeeded. */
  lemma OutputPrecedesStore(b: Build, w: World, p: Patch, events: seq<Event>)
    requires b.Valid() && Running(b, w) && Acceptable(b, p)
    ensures var m := Run(b, StagedCommand(b, w, p), Begin(w), events);
      IsStoring(m.pc) ==>
        && OutputMatches(b, m.world.services, Next(b, w, p))
        && m.world.services.intervalS == Next(b, w, p).heartbeatIntervalS
        && m.world.stored == w.stored
  {
    NextIsSound(b, w, p);
    OutputAlong(b, w, StagedCommand(b, w, p), Begin(w), events);
  }

  lemma {:induction false} AfterEvent(b: Build, c: Command, m: Machine, events: seq<Event>, e: Event)
    ensures Run(b, c, m, events + [e]) == Step(b, c, Run(b, c, m, events), e)
    decreases |events|
  {
    if |events| == 0 {
      assert events + [e] == [e];
    } else {
      assert (events + [e])[1..] == events[1..] + [e];
      AfterEvent(b, c, Step(b, c, m, events[0]), events[1..], e);
    }
  }

  /** `n` effects that all succeed. */
  function Successes(n: nat): seq<Event> {
    if n == 0 then [] else Successes(n - 1) + [Effect(Ok, 0)]
  }

  const SWITCH_ON := Patch(None, None, None, None, Some(MODE_ON))

  /** Three pushes, then the store. */
  lemma SwitchOnReachesStore(b: Build, w: World)
    requires b.Valid() && b.hasIr && Running(b, w)
    ensures Run(b, StagedCommand(b, w, SWITCH_ON), Begin(w), Successes(3)).pc == OpenNvs
  {
    var c := StagedCommand(b, w, SWITCH_ON);
    AfterEvent(b, c, Begin(w), Successes(2), Effect(Ok, 0));
    AfterEvent(b, c, Begin(w), Successes(1), Effect(Ok, 0));
    AfterEvent(b, c, Begin(w), Successes(0), Effect(Ok, 0));
  }

  lemma StoreAdvances(b: Build, c: Command, m: Machine)
    requires m.pc.OpenNvs? || (m.pc.WriteKey? && m.pc.i <= 5)
    ensures Step(b, c, m, Effect(Ok, 0)).pc ==
      if m.pc.OpenNvs? then WriteKey(0) else if m.pc.i < 5 then WriteKey(m.pc.i + 1) else CommitNvs
  {
  }

  lemma {:induction false} SwitchOnReachesCommit(b: Build, w: World, n: nat)
    requires b.Valid() && b.hasIr && Running(b, w) && 4 <= n <= 10
    ensures Run(b, StagedCommand(b, w, SWITCH_ON), Begin(w), Successes(n)).pc == if n < 10 then WriteKey(n - 4) else CommitNvs
  {
    var c := StagedCommand(b, w, SWITCH_ON);
    if n > 4 { SwitchOnReachesCommit(b, w, n - 1); } else { SwitchOnReachesStore(b, w); }
    AfterEvent(b, c, Begin(w), Successes(n - 1), Effect(Ok, 0));
    StoreAdvances(b, c, Run(b, c, Begin(w), Successes(n - 1)));
  }

  lemma FlashBeforeCommit(b: Build, w: World, p: Patch, events: seq<Event>)
    requires Run(b, StagedCommand(b, w, p), Begin(w), events).pc == CommitNvs
    ensures Run(b, StagedCommand(b, w, p), Begin(w), events).world.flash == w.flash
  {
    FlashAlong(b, w, p, Begin(w), events);
  }

  lemma SwitchOnIsAcceptable(b: Build)
    requires b.hasIr
    ensures Acceptable(b, SWITCH_ON)
  {
  }

  /** At the commit the pin is driven and nothing is stored. */
  lemma SwitchOnAtCommit(b: Build, w: World)
    requires b.Valid() && b.hasIr && Running(b, w)
    ensures var m := Run(b, StagedCommand(b, w, SWITCH_ON), Begin(w), Successes(10));
      && m.pc == CommitNvs && m.world.flash == w.flash && m.world.stored == w.stored
      && OutputMatches(b, m.world.services, Next(b, w, SWITCH_ON))
  {
    SwitchOnIsAcceptable(b);
    SwitchOnReachesCommit(b, w, 10);
    OutputPrecedesStore(b, w, SWITCH_ON, Successes(10));
    FlashBeforeCommit(b, w, SWITCH_ON, Successes(10));
  }

  /** So a commit that fails has visibly driven the pin: here from off to on, with RAM and flash still off. */
  lemma FailedCommitHasDrivenPin(b: Build, w: World)
    requires b.Valid() && b.hasIr && Running(b, w) && InAgreement(b, w) && w.stored.irMode == MODE_OFF
    ensures var m := Run(b, StagedCommand(b, w, SWITCH_ON), Begin(w), Successes(10) + [Effect(Fail, 0)]);
      && m.pc == CloseNvs(false) && m.world.flash == w.flash && m.world.stored == w.stored
      && w.services.ir.pinLevel == (if b.irActiveHigh then 0 else 1)
      && m.world.services.ir.pinLevel == (if b.irActiveHigh then 1 else 0) && m.world.services.ir.outputOn
  {
    var c := StagedCommand(b, w, SWITCH_ON);
    var m := Run(b, c, Begin(w), Successes(10));
    SwitchOnAtCommit(b, w);
    AfterEvent(b, c, Begin(w), Successes(10), Effect(Fail, 0));
    FailedCommitChangesNothing(b, c, m);
    SwitchedOnIsLit(b, w, m.world.services);
  }

  lemma FailedCommitChangesNothing(b: Build, c: Command, m: Machine)
    requires m.pc == CommitNvs
    ensures Step(b, c, m, Effect(Fail, 0)) == m.(pc := CloseNvs(false))
  {
  }

  lemma SwitchedOnIsLit(b: Build, w: World, s: Services)
    requires b.hasIr && InAgreement(b, w) && w.stored.irMode == MODE_OFF && OutputMatches(b, s, Next(b, w, SWITCH_ON))
    ensures w.services.ir.pinLevel == if b.irActiveHigh then 0 else 1
    ensures s.ir.outputOn && s.ir.pinLevel == if b.irActiveHigh then 1 else 0
  {
  }

  // ---------------------------------------------------------------------------------------------
  // The undisturbed machine is the command.

  function PlainEvent(env: CommandEnv, pc: Pc): Event {
    match pc
    case PushMotion => Effect(Ok, env.forward.nowUs)
    case PushIr => Effect(env.forward.gpio, env.forward.nowUs)
    case OpenNvs => Effect(env.persist.open, 0)
    case WriteKey(i) => Effect(if i < 5 then env.persist.write(KeyAt(i)) else Ok, 0)
    case CommitNvs => Effect(env.persist.commit, 0)
    case BackMotion => Effect(Ok, env.back.nowUs)
    case BackIr => Effect(env.back.gpio, env.back.nowUs)
    case _ => Effect(Ok, 0)
  }

  /** `n` effects with the outcomes of `env` and no worker iteration. */
  function PlainEvents(b: Build, c: Command, m: Machine, env: CommandEnv, n: nat): seq<Event>
    decreases n
  {
    if n == 0 then []
    else [PlainEvent(env, m.pc)] + PlainEvents(b, c, Step(b, c, m, PlainEvent(env, m.pc)), env, n - 1)
  }

  function PlainRun(b: Build, c: Command, m: Machine, env: CommandEnv, n: nat): Machine {
    Run(b, c, m, PlainEvents(b, c, m, env, n))
  }

  lemma PlainUnfold(b: Build, c: Command, m: Machine, env: CommandEnv, n: nat)
    requires n > 0
    ensures PlainRun(b, c, m, env, n) == PlainRun(b, c, Step(b, c, m, PlainEvent(env, m.pc)), env, n - 1)
  {
    var events := PlainEvents(b, c, m, env, n);
    assert events[1..] == PlainEvents(b, c, Step(b, c, m, PlainEvent(env, m.pc)), env, n - 1);
  }

  lemma {:induction false} FinishedStays(b: Build, c: Command, m: Machine, env: CommandEnv, n: nat)
    requires m.pc.Finished?
    ensures PlainRun(b, c, m, env, n) == m
  {
    if n > 0 {
      PlainUnfold(b, c, m, env, n);
      FinishedStays(b, c, m, env, n - 1);
    }
  }

  predicate EndsAs(m: Machine, ok: bool, w: World) {
    m.pc == Finished(ok) && m.world == w
  }

  /** The world once the NVS transaction has ended with `err`: everything stored, or everything pushed back. */
  function Settle(b: Build, c: Command, w: World, env: CommandEnv, err: Err): World {
    if err == Ok
    then w.(stored := Overlay(w.stored, c.patch), flash := w.flash + PatchImage(c.patch))
    else w.(services := AfterApply(b, w.services, c.previous, env.back))
  }

  lemma BackRun(b: Build, c: Command, m: Machine, env: CommandEnv, n: nat)
    requires m.pc == BackMotion && n >= 3
    ensures EndsAs(PlainRun(b, c, m, env, n), false,
                   m.world.(services := AfterApply(b, m.world.services, c.previous, env.back)))
  {
    PlainUnfold(b, c, m, env, n);
    var m1 := Step(b, c, m, PlainEvent(env, m.pc));
    if m1.pc.Finished? { FinishedStays(b, c, m1, env, n - 1); return; }
    PlainUnfold(b, c, m1, env, n - 1);
    var m2 := Step(b, c, m1, PlainEvent(env, m1.pc));
    if m2.pc.Finished? { FinishedStays(b, c, m2, env, n - 2); return; }
    PlainUnfold(b, c, m2, env, n - 2);
    FinishedStays(b, c, Step(b, c, m2, PlainEvent(env, m2.pc)), env, n - 3);
  }

  function FieldsStored(s: Settings, p: Patch, i: nat): Settings
    decreases 5 - i
  {
    if i >= 5 then s else FieldsStored(FieldStored(s, p, i), p, i + 1)
  }

  lemma {:induction false} MirrorRun(b: Build, c: Command, m: Machine, env: CommandEnv, n: nat)
    requires m.pc.Mirror? && m.pc.i <= 5 && n >= 6 - m.pc.i
    ensures EndsAs(PlainRun(b, c, m, env, n), true, m.world.(stored := FieldsStored(m.world.stored, c.patch, m.pc.i)))
    decreases 5 - m.pc.i
  {
    PlainUnfold(b, c, m, env, n);
    var m1 := Step(b, c, m, PlainEvent(env, m.pc));
    if m.pc.i == 5 { FinishedStays(b, c, m1, env, n - 1); } else { MirrorRun(b, c, m1, env, n - 1); }
  }

  /** Mirroring field by field is the overlay. */
  lemma FieldsStoredIsOverlay(s: Settings, p: Patch)
    ensures FieldsStored(s, p, 0) == Overlay(s, p)
  {
    var s1 := FieldStored(s, p, 0);
    var s2 := FieldStored(s1, p, 1);
    var s3 := FieldStored(s2, p, 2);
    var s4 := FieldStored(s3, p, 3);
    var s5 := FieldStored(s4, p, 4);
    assert FieldsStored(s4, p, 4) == FieldsStored(s5, p, 5) == s5;
    assert FieldsStored(s2, p, 2) == FieldsStored(s3, p, 3) == FieldsStored(s4, p, 4);
  }

  lemma CommitRun(b: Build, c: Command, m: Machine, env: CommandEnv, n: nat)
    requires m.pc == CommitNvs && m.pending == PatchImage(c.patch) && n >= 8
    ensures EndsAs(PlainRun(b, c, m, env, n), env.persist.commit == Ok, Settle(b, c, m.world, env, env.persist.commit))
  {
    PlainUnfold(b, c, m, env, n);
    var m1 := Step(b, c, m, PlainEvent(env, m.pc));
    PlainUnfold(b, c, m1, env, n - 1);
    var m2 := Step(b, c, m1, PlainEvent(env, m1.pc));
    if env.persist.commit == Ok {
      MirrorRun(b, c, m2, env, n - 2);
      FieldsStoredIsOverlay(m.world.stored, c.patch);
    } else {
      BackRun(b, c, m2, env, n - 2);
    }
  }

  lemma CloseRun(b: Build, c: Command, m: Machine, env: CommandEnv, n: nat)
    requires m.pc == CloseNvs(false) && n >= 4
    ensures EndsAs(PlainRun(b, c, m, env, n), false,
                   m.world.(services := AfterApply(b, m.world.services, c.previous, env.back)))
  {
    PlainUnfold(b, c, m, env, n);
    BackRun(b, c, Step(b, c, m, PlainEvent(env, m.pc)), env, n - 1);
  }

  lemma {:induction false} WriteRun(b: Build, c: Command, m: Machine, env: CommandEnv, n: nat)
    requires m.pc.WriteKey? && m.pc.i <= 5 && m.pending == Staged(c.patch, m.pc.i) && n >= 14 - m.pc.i
    ensures var write := WriteError(c.patch, env.persist, m.pc.i);
      var err := if write != Ok then write else env.persist.commit;
      EndsAs(PlainRun(b, c, m, env, n), err == Ok, Settle(b, c, m.world, env, err))
    decreases 5 - m.pc.i
  {
    PlainUnfold(b, c, m, env, n);
    var m1 := Step(b, c, m, PlainEvent(env, m.pc));
    if m.pc.i == 5 {
      CommitRun(b, c, m1, env, n - 1);
    } else if m1.pc.WriteKey? {
      assert m1.pending == Staged(c.patch, m1.pc.i);
      WriteRun(b, c, m1, env, n - 1);
    } else {
      CloseRun(b, c, m1, env, n - 1);
    }
  }

  lemma OpenRun(b: Build, c: Command, m: Machine, env: CommandEnv, n: nat)
    requires m.pc == OpenNvs && n >= 15
    ensures var err := PersistError(c.patch, env.persist);
      EndsAs(PlainRun(b, c, m, env, n), err == Ok, Settle(b, c, m.world, env, err))
  {
    PlainUnfold(b, c, m, env, n);
    var m1 := Step(b, c, m, PlainEvent(env, m.pc));
    if env.persist.open == Ok { WriteRun(b, c, m1, env, n - 1); } else { BackRun(b, c, m1, env, n - 1); }
  }

  /** The push takes at most three effects and ends in front of the store or of the rollback. */
  lemma PushRun(b: Build, c: Command, w: World, env: CommandEnv, n: nat) returns (m: Machine, k: nat)
    requires n >= 3
    ensures k <= 3 && PlainRun(b, c, Begin(w), env, n) == PlainRun(b, c, m, env, n - k)
    ensures m.pc == if LiveError(b, w.services, c.next, env.forward) == Ok then OpenNvs else BackMotion
    ensures m.world == w.(services := AfterApply(b, w.services, c.next, env.forward))
  {
    PlainUnfold(b, c, Begin(w), env, n);
    m, k := Step(b, c, Begin(w), PlainEvent(env, PushMotion)), 1;
    if m.pc == BackMotion { return; }
    PlainUnfold(b, c, m, env, n - 1);
    m, k := Step(b, c, m, PlainEvent(env, PushIr)), 2;
    if m.pc == BackMotion { return; }
    PlainUnfold(b, c, m, env, n - 2);
    m, k := Step(b, c, m, PlainEvent(env, PushHeartbeat)), 3;
  }

  /** Left alone, the machine takes at most eighteen effects and ends exactly where the command ends. */
  lemma StepsAreTheCommand(b: Build, w: World, p: Patch, env: CommandEnv, n: nat)
    requires n >= 18 && w.initialized && Validate(b, p) == Ok && p != EMPTY_PATCH
    ensures var m := PlainRun(b, StagedCommand(b, w, p), Begin(w), env, n);
      m.pc == Finished(UpdateError(b, w, p, env) == Ok) && m.world == AfterUpdate(b, w, p, env)
  {
    var c := StagedCommand(b, w, p);
    var m, k := PushRun(b, c, w, env, n);
    if m.pc == BackMotion { BackRun(b, c, m, env, n - k); } else { OpenRun(b, c, m, env, n - k); }
  }
}
