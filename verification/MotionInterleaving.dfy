/** The worker and one settings writer of motion_detection.c, one shared-field access per step. */
module MotionInterleaving {
  import opened Base
  import MotionDetection

  /** Where the worker is, with the local values it has already read. */
  datatype WorkerPc =
    | Waiting
    | ReadStarted
    | ReadClock
    | ReadWarmup(nowUs: int)
    | ReadCooldown(nowUs: int)
    | ReadLast(nowUs: int, cooldownUs: int)
    | ReadLastAgain(nowUs: int, cooldownUs: int)
    | WriteLast(nowUs: int, cooldownUs: int)

  /** Where the writer is inside motion_detection_apply_settings_internal. */
  datatype WriterPc =
    | Idle
    | ReadWasStarted
    | WriteWarmup(wasStarted: bool)
    | WriteCooldown(wasStarted: bool)
    | ClearStarted
    | ClearWarmupEnd
    | ClearLast
    | ReadArmClock
    | SetWarmupEnd(nowUs: int)
    | ResetLast
    | SetStarted

  datatype Call = Call(enable: bool, warmupMs: u32, cooldownMs: u32)

  /** One accepted edge: its time, the cooldown applied, the session it was checked in, the warm-up end of that session,
      and whether a disabling call was in progress at any point of the iteration. */
  datatype Accept = Accept(nowUs: int, cooldownUs: int, session: nat, warmupEndUs: int, overlapped: bool)

  /** Shared fields and program counters, then bookkeeping: the current session and the end of its warm-up as the
      enabling call computed it, the session the running iteration was checked in, and the log. */
  datatype State = State(
    started: bool,
    warmupMs: u32,
    cooldownMs: u32,
    warmupUntilUs: int,
    lastTriggerUs: int,
    clockUs: int,
    worker: WorkerPc,
    writer: WriterPc,
    call: Call,
    session: nat,
    sessionEndUs: int,
    armedEndUs: int,
    checkedSession: nat,
    checkedEndUs: int,
    overlapped: bool,
    log: seq<Accept>)

  /** Compiled timing and the clock after initialisation. */
  datatype Defaults = Defaults(warmupMs: u32, cooldownMs: u32, clockUs: int)
  {
    predicate Valid() { 0 < clockUs }
  }

  datatype Label = Tick(us: nat) | Notify | Work | Begin(call: Call) | Write

  /** After motion_detection_init, with the timing the build compiled in. */
  function Initial(d: Defaults): State {
    State(false, d.warmupMs, d.cooldownMs, 0, 0, d.clockUs, Waiting, Idle, Call(false, 0, 0), 0, 0, 0, 0, 0, false, [])
  }

  predicate Disabling(s: State) { !s.writer.Idle? && !s.call.enable }

  predicate InIteration(s: State) { !s.worker.Waiting? && !s.worker.ReadStarted? }

  function WorkerStep(s: State): State {
    match s.worker
    case Waiting => s
    case ReadStarted =>
      if !s.started then s.(worker := Waiting)
      else s.(worker := ReadClock, checkedSession := s.session, checkedEndUs := s.sessionEndUs, overlapped := Disabling(s))
    case ReadClock => s.(worker := ReadWarmup(s.clockUs))
    case ReadWarmup(nowUs) => s.(worker := if nowUs < s.warmupUntilUs then Waiting else ReadCooldown(nowUs))
    case ReadCooldown(nowUs) =>
      s.(worker := if s.cooldownMs * 1000 > 0 then ReadLast(nowUs, s.cooldownMs * 1000) else WriteLast(nowUs, 0))
    case ReadLast(nowUs, cooldownUs) =>
      s.(worker := if s.lastTriggerUs > 0 then ReadLastAgain(nowUs, cooldownUs) else WriteLast(nowUs, cooldownUs))
    case ReadLastAgain(nowUs, cooldownUs) =>
      s.(worker := if Wrap64(nowUs - s.lastTriggerUs) < cooldownUs then Waiting else WriteLast(nowUs, cooldownUs))
    case WriteLast(nowUs, cooldownUs) =>
      s.(worker := Waiting,
         lastTriggerUs := nowUs,
         log := s.log + [Accept(nowUs, cooldownUs, s.checkedSession, s.checkedEndUs, s.overlapped)])
  }

  function WriterStep(s: State): State {
    match s.writer
    case Idle => s
    case ReadWasStarted => s.(writer := WriteWarmup(s.started))
    case WriteWarmup(was) => s.(warmupMs := s.call.warmupMs, writer := WriteCooldown(was))
    case WriteCooldown(was) =>
      s.(cooldownMs := s.call.cooldownMs,
         writer := if !s.call.enable then ClearStarted else if !was then ReadArmClock else Idle)
    case ClearStarted => s.(started := false, writer := ClearWarmupEnd)
    case ClearWarmupEnd => s.(warmupUntilUs := 0, writer := ClearLast)
    case ClearLast => s.(lastTriggerUs := 0, writer := Idle)
    case ReadArmClock => s.(writer := SetWarmupEnd(s.clockUs))
    case SetWarmupEnd(nowUs) =>
      s.(warmupUntilUs := Wrap64(nowUs + s.warmupMs * 1000),
         armedEndUs := nowUs + s.call.warmupMs * 1000,
         writer := ResetLast)
    case ResetLast => s.(lastTriggerUs := 0, writer := SetStarted)
    case SetStarted => s.(started := true, session := s.session + 1, sessionEndUs := s.armedEndUs, writer := Idle)
  }

  function Step(s: State, l: Label): State {
    match l
    case Tick(us) => s.(clockUs := s.clockUs + us)
    case Notify => if s.worker.Waiting? then s.(worker := ReadStarted) else s
    case Work => WorkerStep(s)
    case Begin(call) =>
      if s.writer.Idle?
      then s.(writer := ReadWasStarted, call := call, overlapped := s.overlapped || (InIteration(s) && !call.enable))
      else s
    case Write => WriterStep(s)
  }

  function Run(s: State, labels: seq<Label>): State
    decreases |labels|
  {
    if |labels| == 0 then s else Run(Step(s, labels[0]), labels[1..])
  }

  // ---------------------------------------------------------------------------------------------
  // Invariants.

  predicate IsArming(w: WriterPc) { w.ReadArmClock? || w.SetWarmupEnd? || w.ResetLast? || w.SetStarted? }

  /** Once its first read is done, the writer's view of `started` is right, and while `started` is up the published
      warm-up end is the one the session was armed with. */
  predicate WriterInvariant(s: State) {
    && (s.started ==> s.warmupUntilUs == s.sessionEndUs)
    && (s.writer.WriteWarmup? ==> s.writer.wasStarted == s.started)
    && (s.writer.WriteCooldown? ==> s.writer.wasStarted == s.started && s.warmupMs == s.call.warmupMs)
    && (s.writer.ReadArmClock? || s.writer.SetWarmupEnd? ==> s.warmupMs == s.call.warmupMs)
    && (s.writer.ClearStarted? || s.writer.ClearWarmupEnd? || s.writer.ClearLast? ==> !s.call.enable)
    && (IsArming(s.writer) ==> s.call.enable)
    && (s.writer.ClearWarmupEnd? || s.writer.ClearLast? || IsArming(s.writer) ==> !s.started)
    && (s.writer.SetWarmupEnd? ==> 0 < s.writer.nowUs <= s.clockUs)
    && (s.writer.ResetLast? || s.writer.SetStarted? ==> s.warmupUntilUs == s.armedEndUs)
  }

  /** The clock value an iteration holds, if it has read one. */
  function HeldClock(s: State): int {
    match s.worker
    case ReadWarmup(nowUs) => nowUs
    case ReadCooldown(nowUs) => nowUs
    case ReadLast(nowUs, _) => nowUs
    case ReadLastAgain(nowUs, _) => nowUs
    case WriteLast(nowUs, _) => nowUs
    case _ => s.clockUs
  }

  predicate PastWarmupCheck(s: State) {
    s.worker.ReadCooldown? || s.worker.ReadLast? || s.worker.ReadLastAgain? || s.worker.WriteLast?
  }

  /** An iteration no disabling call has overlapped is still in the session it was checked in. */
  predicate IterationInvariant(s: State) {
    && 0 < HeldClock(s) <= s.clockUs
    && 0 <= s.lastTriggerUs <= s.clockUs
    && (InIteration(s) && !s.overlapped ==>
          && s.started && !Disabling(s)
          && s.checkedSession == s.session && s.checkedEndUs == s.sessionEndUs)
    && (PastWarmupCheck(s) && !s.overlapped ==> HeldClock(s) >= s.checkedEndUs)
  }

  predicate Honest(a: Accept) { !a.overlapped ==> a.nowUs >= a.warmupEndUs }

  /** Two consecutive acceptances of one session keep the cooldown the second one read. */
  predicate Apart(a: Accept, b: Accept) {
    !a.overlapped && !b.overlapped && a.session == b.session ==> b.nowUs - a.nowUs >= b.cooldownUs
  }

  ghost predicate LogInvariant(s: State) {
    && (forall i :: 0 <= i < |s.log| ==> Honest(s.log[i]) && 0 < s.log[i].nowUs <= s.clockUs)
    && (forall i :: 0 < i < |s.log| ==> Apart(s.log[i - 1], s.log[i]))
  }

  /** The newest acceptance, when it belongs to the running session, is what the shared field holds, and an iteration
      past the cooldown check is far enough from it. */
  predicate NewestInvariant(s: State) {
    |s.log| > 0 ==>
      var newest := s.log[|s.log| - 1];
      && newest.session <= s.session
      && newest.nowUs <= HeldClock(s)
      && (!newest.overlapped && s.started && newest.session == s.session ==> s.lastTriggerUs == newest.nowUs)
      && (s.worker.ReadLastAgain? || s.worker.ReadLast? ==> s.worker.cooldownUs > 0)
      && (s.worker.WriteLast? && !s.overlapped && !newest.overlapped && newest.session == s.checkedSession ==>
            s.worker.nowUs - newest.nowUs >= s.worker.cooldownUs)
  }

  ghost predicate Invariant(s: State) {
    WriterInvariant(s) && IterationInvariant(s) && LogInvariant(s) && NewestInvariant(s) && s.checkedSession <= s.session
  }

  /** Before its final write an iteration changes nothing but its own progress. */
  lemma WorkerReads(s: State)
    requires Invariant(s) && !s.worker.WriteLast? && s.clockUs < MotionDetection.CLOCK_LIMIT
    ensures Invariant(WorkerStep(s))
  {
    ReadsKeepIteration(s);
    ReadsKeepNewest(s);
  }

  lemma ReadsKeepIteration(s: State)
    requires Invariant(s) && !s.worker.WriteLast?
    ensures WriterInvariant(WorkerStep(s)) && IterationInvariant(WorkerStep(s)) && LogInvariant(WorkerStep(s))
    ensures WorkerStep(s).checkedSession <= WorkerStep(s).session
  {
  }

  lemma ReadsKeepNewest(s: State)
    requires Invariant(s) && !s.worker.WriteLast? && s.clockUs < MotionDetection.CLOCK_LIMIT
    ensures NewestInvariant(WorkerStep(s))
  {
  }

  lemma WorkerAccepts(s: State)
    requires Invariant(s) && s.worker.WriteLast?
    ensures Invariant(WorkerStep(s))
  {
    var t := WorkerStep(s);
    assert forall i :: 0 <= i < |s.log| ==> t.log[i] == s.log[i];
  }

  lemma WriterKeepsOwn(s: State)
    requires Invariant(s) && s.clockUs < MotionDetection.CLOCK_LIMIT
    ensures WriterInvariant(WriterStep(s))
  {
  }

  lemma WriterKeepsWorker(s: State)
    requires Invariant(s) && s.clockUs < MotionDetection.CLOCK_LIMIT
    ensures IterationInvariant(WriterStep(s)) && WriterStep(s).checkedSession <= WriterStep(s).session
  {
  }

  lemma WriterKeepsLog(s: State)
    requires Invariant(s)
    ensures NewestInvariant(WriterStep(s)) && LogInvariant(WriterStep(s))
  {
  }

  lemma StepKeepsInvariant(s: State, l: Label)
    requires Invariant(s) && s.clockUs < MotionDetection.CLOCK_LIMIT
    ensures Invariant(Step(s, l))
  {
    match l
    case Work => if s.worker.WriteLast? { WorkerAccepts(s); } else { WorkerReads(s); }
    case Write => WriterKeepsOwn(s); WriterKeepsWorker(s); WriterKeepsLog(s);
    case _ =>
  }

  /** The clock only moves forward, so a bound at the end holds all along. */
  lemma {:induction false} ClockGrows(s: State, labels: seq<Label>)
    ensures s.clockUs <= Run(s, labels).clockUs
    decreases |labels|
  {
    if |labels| > 0 { ClockGrows(Step(s, labels[0]), labels[1..]); }
  }

  lemma {:induction false} RunKeepsInvariant(s: State, labels: seq<Label>)
    requires Invariant(s) && Run(s, labels).clockUs < MotionDetection.CLOCK_LIMIT
    ensures Invariant(Run(s, labels))
    decreases |labels|
  {
    if |labels| > 0 {
      ClockGrows(s, labels);
      StepKeepsInvariant(s, labels[0]);
      RunKeepsInvariant(Step(s, labels[0]), labels[1..]);
    }
  }

  /** In every interleaving, an iteration that no disabling call overlaps accepts only once the warm-up of the session it
      saw started is over, and consecutive acceptances of a session keep the cooldown apart. */
  lemma InterleavedWarmupIsHonoured(d: Defaults, labels: seq<Label>)
    requires d.Valid() && Run(Initial(d), labels).clockUs < MotionDetection.CLOCK_LIMIT
    ensures var log := Run(Initial(d), labels).log;
      && (forall i :: 0 <= i < |log| && !log[i].overlapped ==> log[i].nowUs >= log[i].warmupEndUs)
      && (forall i :: 0 < i < |log| ==> Apart(log[i - 1], log[i]))
  {
    RunKeepsInvariant(Initial(d), labels);
  }

  // ---------------------------------------------------------------------------------------------
  // Without interference the steps are the atomic operations.

  function Writes(s: State, n: nat): State
    decreases n
  {
    if n == 0 then s else Writes(WriterStep(s), n - 1)
  }

  function Works(s: State, n: nat): State
    decreases n
  {
    if n == 0 then s else Works(WorkerStep(s), n - 1)
  }

  function Fields(s: State): MotionDetection.DetectorState {
    MotionDetection.DetectorState(true, s.started, s.warmupMs, s.cooldownMs, s.warmupUntilUs, s.lastTriggerUs)
  }

  /** A settings call nothing interrupts has the effect of the atomic settings call. */
  lemma UninterruptedCall(s: State, call: Call)
    requires s.writer.Idle? && 0 < s.clockUs < MotionDetection.CLOCK_LIMIT
    ensures var t := Writes(Step(s, Begin(call)), 7);
      && t.writer.Idle?
      && Fields(t) == MotionDetection.WithSettings(true, Fields(s), s.clockUs, call.enable, call.warmupMs, call.cooldownMs)
      && t.log == s.log
  {
    var s3 := Writes(Step(s, Begin(call)), 3);
    assert s3.writer == if !call.enable then ClearStarted else if !s.started then ReadArmClock else Idle;
  }

  /** Up to the warm-up check an uninterrupted iteration changes no field. */
  lemma UninterruptedChecks(s: State)
    requires s.worker.Waiting?
    ensures var t := Works(Step(s, Notify), 3);
      && Fields(t) == Fields(s) && t.log == s.log && t.clockUs == s.clockUs
      && t.worker == if s.started && s.clockUs >= s.warmupUntilUs then ReadCooldown(s.clockUs) else Waiting
  {
  }

  /** The outcome of the last four steps: one more acceptance, or none. */
  predicate IterationEnds(s: State, t: State) {
    && t.worker.Waiting?
    && Fields(t) == MotionDetection.AfterWake(Fields(s), s.clockUs)
    && |t.log| == |s.log| + (if MotionDetection.Accepts(Fields(s), s.clockUs) then 1 else 0)
  }

  lemma AcceptedIterationEnds(s: State, cooldownUs: int, n: nat)
    requires s.worker == WriteLast(s.clockUs, cooldownUs) && n > 0 && MotionDetection.Accepts(Fields(s), s.clockUs)
    ensures IterationEnds(s, Works(s, n))
  {
    WaitingStays(WorkerStep(s), n - 1);
  }

  lemma {:induction false} WaitingStays(s: State, n: nat)
    requires s.worker.Waiting?
    ensures Works(s, n) == s
  {
    if n > 0 { WaitingStays(WorkerStep(s), n - 1); }
  }

  lemma LastCheckEnds(s: State, n: nat)
    requires s.worker == ReadLastAgain(s.clockUs, s.cooldownMs * 1000) && s.cooldownMs > 0 && s.lastTriggerUs > 0 && n >= 2
    requires s.lastTriggerUs <= s.clockUs < MotionDetection.CLOCK_LIMIT && s.started && s.clockUs >= s.warmupUntilUs
    ensures IterationEnds(s, Works(s, n))
  {
    MotionDetection.AcceptsPlainly(Fields(s), s.clockUs);
    var s1 := WorkerStep(s);
    if s1.worker.Waiting? { WaitingStays(s1, n - 1); } else { AcceptedIterationEnds(s1, s.cooldownMs * 1000, n - 1); }
  }

  lemma UninterruptedCooldown(s: State, n: nat)
    requires s.worker == ReadCooldown(s.clockUs) && 0 <= s.lastTriggerUs <= s.clockUs < MotionDetection.CLOCK_LIMIT
    requires s.started && s.clockUs >= s.warmupUntilUs && n >= 4
    ensures IterationEnds(s, Works(s, n))
  {
    MotionDetection.AcceptsPlainly(Fields(s), s.clockUs);
    var s1 := WorkerStep(s);
    if s.cooldownMs == 0 {
      AcceptedIterationEnds(s1, 0, n - 1);
    } else {
      var s2 := WorkerStep(s1);
      assert Works(s, n) == Works(s1, n - 1) == Works(s2, n - 2);
      if s.lastTriggerUs == 0 { AcceptedIterationEnds(s2, s.cooldownMs * 1000, n - 2); } else { LastCheckEnds(s2, n - 2); }
    }
  }

  lemma {:induction false} WorksSplit(s: State, m: nat, n: nat)
    ensures Works(s, m + n) == Works(Works(s, m), n)
    decreases m
  {
    if m > 0 { WorksSplit(WorkerStep(s), m - 1, n); }
  }

  /** A worker iteration nothing interrupts accepts and updates as the atomic iteration does. */
  lemma UninterruptedIteration(s: State)
    requires s.worker.Waiting? && 0 <= s.lastTriggerUs <= s.clockUs < MotionDetection.CLOCK_LIMIT
    ensures IterationEnds(s, Works(Step(s, Notify), 7))
  {
    UninterruptedChecks(s);
    WorksSplit(Step(s, Notify), 3, 4);
    var t := Works(Step(s, Notify), 3);
    if t.worker.Waiting? { WaitingStays(t, 4); } else { UninterruptedCooldown(t, 4); }
  }

  // ---------------------------------------------------------------------------------------------
  // The proviso is needed.

  lemma {:induction false} RunSplit(s: State, a: seq<Label>, b: seq<Label>)
    ensures Run(s, a + b) == Run(Run(s, a), b)
    decreases |a|
  {
    if |a| == 0 {
      assert a + b == b;
    } else {
      assert (a + b)[1..] == a[1..] + b;
      RunSplit(Step(s, a[0]), a[1..], b);
    }
  }

  lemma Then(d: Defaults, labels: seq<Label>, l: Label) returns (longer: seq<Label>)
    ensures Run(Initial(d), longer) == Step(Run(Initial(d), labels), l)
  {
    longer := labels + [l];
    RunSplit(Initial(d), labels, [l]);
  }

  lemma {:induction false} ThenWrites(d: Defaults, labels: seq<Label>, n: nat) returns (longer: seq<Label>)
    ensures Run(Initial(d), longer) == Writes(Run(Initial(d), labels), n)
    decreases n
  {
    longer := labels;
    if n > 0 {
      longer := Then(d, labels, Write);
      longer := ThenWrites(d, longer, n - 1);
    }
  }

  /** Armed at once, with one second of warm-up. */
  function Armed(d: Defaults): State {
    var end := d.clockUs + 1_000_000;
    Initial(d).(started := true, warmupMs := 1000, cooldownMs := 0, warmupUntilUs := end, call := Call(true, 1000, 0),
                session := 1, sessionEndUs := end, armedEndUs := end)
  }

  lemma ReachArmed(d: Defaults) returns (labels: seq<Label>)
    requires d.Valid() && d.clockUs < MotionDetection.CLOCK_LIMIT
    ensures Run(Initial(d), labels) == Armed(d)
  {
    labels := Then(d, [], Begin(Call(true, 1000, 0)));
    labels := ThenWrites(d, labels, 7);
  }

  /** An iteration checked while armed, just as a disabling call begins. */
  function Checked(d: Defaults): State {
    Armed(d).(worker := ReadWarmup(d.clockUs), writer := ReadWasStarted, call := Call(false, 0, 0),
              checkedSession := 1, checkedEndUs := d.clockUs + 1_000_000, overlapped := true)
  }

  lemma ReachChecked(d: Defaults) returns (labels: seq<Label>)
    requires d.Valid() && d.clockUs < MotionDetection.CLOCK_LIMIT
    ensures Run(Initial(d), labels) == Checked(d)
  {
    labels := ReachArmed(d);
    labels := Then(d, labels, Notify);
    labels := Then(d, labels, Work);
    labels := Then(d, labels, Begin(Call(false, 0, 0)));
    labels := Then(d, labels, Work);
  }

  lemma ReachCleared(d: Defaults) returns (labels: seq<Label>)
    requires d.Valid() && d.clockUs < MotionDetection.CLOCK_LIMIT
    ensures Run(Initial(d), labels) == Checked(d).(started := false, warmupMs := 0, warmupUntilUs := 0, writer := ClearLast)
  {
    labels := ReachChecked(d);
    labels := ThenWrites(d, labels, 5);
  }

  /** Overlapped by a disabling call, an iteration can accept an edge one second before its session's warm-up ends, and
      its late write then leaves a stopped detector with a last trigger. */
  lemma OverlapCanBreakWarmup(d: Defaults) returns (labels: seq<Label>)
    requires d.Valid() && d.clockUs < MotionDetection.CLOCK_LIMIT
    ensures var s := Run(Initial(d), labels);
      && |s.log| == 1 && s.log[0].overlapped && s.log[0].nowUs == s.log[0].warmupEndUs - 1_000_000
      && s.writer.Idle? && !s.started && s.lastTriggerUs > 0
  {
    labels := ReachCleared(d);
    labels := Then(d, labels, Work);
    labels := Then(d, labels, Work);
    labels := Then(d, labels, Write);
    labels := Then(d, labels, Work);
  }
}
