/** The trigger filter over whole traces: what is accepted, how often, and that its arithmetic never wraps. */
module MotionFilter {
  import opened Base
  import opened MotionDetection

  /** A worker iteration caused by an edge, or a settings call, with the clock it reads. */
  datatype Event =
    | Edge(nowUs: int)
    | Settings(nowUs: int, enable: bool, warmupMs: u32, cooldownMs: u32)

  type Trace = seq<Event>

  /** The clock is positive, never runs backwards and stays below 2^62 microseconds. */
  ghost predicate ClockIsSane(tr: Trace) {
    && (forall i :: 0 <= i < |tr| ==> 0 < tr[i].nowUs < CLOCK_LIMIT)
    && (forall i, j :: 0 <= i <= j < |tr| ==> tr[i].nowUs <= tr[j].nowUs)
  }

  function StepState(d: DetectorState, e: Event): DetectorState {
    match e
    case Edge(nowUs) => AfterWake(d, nowUs)
    case Settings(nowUs, enable, warmupMs, cooldownMs) => WithSettings(true, d, nowUs, enable, warmupMs, cooldownMs)
  }

  /** Detector after the first `n` events, from the state after init. */
  function StateAt(d0: DetectorState, tr: Trace, n: nat): DetectorState
    requires n <= |tr|
  {
    if n == 0 then d0 else StepState(StateAt(d0, tr, n - 1), tr[n - 1])
  }

  predicate AcceptedAt(d0: DetectorState, tr: Trace, i: nat)
    requires i < |tr|
  {
    tr[i].Edge? && Accepts(StateAt(d0, tr, i), tr[i].nowUs)
  }

  /** Times of the edges the detector let through among the first `n` events. */
  function Triggers(d0: DetectorState, tr: Trace, n: nat): seq<int>
    requires n <= |tr|
  {
    if n == 0 then []
    else Triggers(d0, tr, n - 1) + (if AcceptedAt(d0, tr, n - 1) then [tr[n - 1].nowUs] else [])
  }

  // ---------------------------------------------------------------------------------------------
  // The greedy specification, on the history alone.

  predicate Enables(e: Event) { e.Settings? && e.enable }

  predicate Disables(e: Event) { e.Settings? && !e.enable }

  /** Some enabling call before `n` has not been followed by a disabling one. */
  ghost predicate IsOn(tr: Trace, n: nat)
    requires n <= |tr|
  {
    exists j: nat :: j < n && Enables(tr[j]) && forall k: nat | j < k < n :: !Disables(tr[k])
  }

  /** The call at `s` switched the detector on and it has stayed on up to `n`. */
  ghost predicate InSession(tr: Trace, s: nat, n: nat)
    requires n <= |tr|
  {
    s < n && Enables(tr[s]) && !IsOn(tr, s) && forall k: nat | s < k < n :: !Disables(tr[k])
  }

  /** Cooldown of the latest settings call before `n`. */
  function CooldownAt(initial: u32, tr: Trace, n: nat): u32
    requires n <= |tr|
  {
    if n == 0 then initial
    else if tr[n - 1].Settings? then tr[n - 1].cooldownMs
    else CooldownAt(initial, tr, n - 1)
  }

  /** Accept an edge exactly when its session's warm-up, fixed when the session began, is over and every edge accepted
      earlier in the session is at least the current cooldown away. */
  ghost predicate Greedy(initial: u32, tr: Trace, i: nat)
    requires i < |tr|
    decreases i
  {
    && tr[i].Edge?
    && (exists s: nat ::
          && InSession(tr, s, i)
          && tr[i].nowUs >= tr[s].nowUs + tr[s].warmupMs * 1000
          && (forall j: nat | s < j < i && Greedy(initial, tr, j) ::
                tr[i].nowUs - tr[j].nowUs >= CooldownAt(initial, tr, i) * 1000))
  }

  ghost function GreedyTimes(initial: u32, tr: Trace, n: nat): seq<int>
    requires n <= |tr|
  {
    if n == 0 then []
    else GreedyTimes(initial, tr, n - 1) + (if Greedy(initial, tr, n - 1) then [tr[n - 1].nowUs] else [])
  }

  lemma StaysOn(tr: Trace, s: nat, n: nat)
    requires n <= |tr| && s < n && Enables(tr[s]) && forall k: nat | s < k < n :: !Disables(tr[k])
    ensures IsOn(tr, n)
  {
  }

  lemma SessionIsUnique(tr: Trace, s: nat, t: nat, n: nat)
    requires n <= |tr| && InSession(tr, s, n) && InSession(tr, t, n)
    ensures s == t
  {
    if s < t { StaysOn(tr, s, t); }
    if t < s { StaysOn(tr, t, s); }
  }

  /** `last` is the newest greedy acceptance in the session that began at `s`. */
  ghost predicate IsLastAccepted(initial: u32, tr: Trace, s: nat, last: Option<nat>, n: nat)
    requires n <= |tr|
  {
    match last
    case None => forall j: nat | s < j < n :: !Greedy(initial, tr, j)
    case Some(l) => s < l < n && tr[l].Edge? && Greedy(initial, tr, l) && forall j: nat | l < j < n :: !Greedy(initial, tr, j)
  }

  /** How the five fields of the detector encode the history. */
  ghost predicate Encodes(initial: u32, tr: Trace, n: nat, session: Option<nat>, last: Option<nat>, d: DetectorState)
    requires n <= |tr|
  {
    && d.initialized
    && d.cooldownMs == CooldownAt(initial, tr, n)
    && (d.started <==> session.Some?)
    && (session.None? ==> !IsOn(tr, n) && d.warmupUntilUs == 0 && d.lastTriggerUs == 0)
    && (session.Some? ==>
          && InSession(tr, session.value, n)
          && d.warmupUntilUs == tr[session.value].nowUs + tr[session.value].warmupMs * 1000
          && IsLastAccepted(initial, tr, session.value, last, n)
          && d.lastTriggerUs == if last.None? then 0 else tr[last.value].nowUs)
  }

  /** With the session known, the specification needs no existential. */
  lemma GreedyInSession(initial: u32, tr: Trace, i: nat, s: nat)
    requires i < |tr| && tr[i].Edge? && InSession(tr, s, i)
    ensures Greedy(initial, tr, i) <==>
      && tr[i].nowUs >= tr[s].nowUs + tr[s].warmupMs * 1000
      && (forall j: nat | s < j < i && Greedy(initial, tr, j) ::
            tr[i].nowUs - tr[j].nowUs >= CooldownAt(initial, tr, i) * 1000)
  {
    forall t: nat | InSession(tr, t, i) ensures s == t { SessionIsUnique(tr, s, t, i); }
  }

  lemma GreedyNeedsSession(initial: u32, tr: Trace, i: nat)
    requires i < |tr| && !IsOn(tr, i)
    ensures !Greedy(initial, tr, i)
  {
    forall t: nat | InSession(tr, t, i) ensures false { StaysOn(tr, t, i); }
  }

  lemma EncodedTriggerIsPast(initial: u32, tr: Trace, i: nat, session: Option<nat>, last: Option<nat>, d: DetectorState)
    requires ClockIsSane(tr) && i < |tr| && Encodes(initial, tr, i, session, last, d)
    ensures 0 <= d.lastTriggerUs <= tr[i].nowUs
  {
  }

  /** Only the newest acceptance of the session matters to the cooldown. */
  lemma NewestDecides(initial: u32, tr: Trace, i: nat, s: nat, last: Option<nat>, gap: int)
    requires ClockIsSane(tr) && s < i < |tr| && IsLastAccepted(initial, tr, s, last, i)
    ensures (forall j: nat | s < j < i && Greedy(initial, tr, j) :: tr[i].nowUs - tr[j].nowUs >= gap)
      <==> (last.None? || tr[i].nowUs - tr[last.value].nowUs >= gap)
  {
    if last.Some? {
      assert Greedy(initial, tr, last.value);
      forall j: nat | s < j < i && Greedy(initial, tr, j) ensures tr[j].nowUs <= tr[last.value].nowUs {
        assert j <= last.value;
      }
    }
  }

  lemma EncodingDecides(initial: u32, tr: Trace, i: nat, session: Option<nat>, last: Option<nat>, d: DetectorState)
    requires ClockIsSane(tr) && i < |tr| && tr[i].Edge?
    requires Encodes(initial, tr, i, session, last, d)
    ensures Accepts(d, tr[i].nowUs) <==> Greedy(initial, tr, i)
  {
    EncodedTriggerIsPast(initial, tr, i, session, last, d);
    AcceptsPlainly(d, tr[i].nowUs);
    if session.None? {
      GreedyNeedsSession(initial, tr, i);
    } else {
      GreedyInSession(initial, tr, i, session.value);
      NewestDecides(initial, tr, i, session.value, last, d.cooldownMs * 1000);
    }
  }

  lemma OnAfter(tr: Trace, n: nat)
    requires n < |tr|
    ensures IsOn(tr, n + 1) <==> Enables(tr[n]) || (IsOn(tr, n) && !Disables(tr[n]))
  {
    if IsOn(tr, n + 1) {
      var j: nat :| j < n + 1 && Enables(tr[j]) && forall k: nat | j < k < n + 1 :: !Disables(tr[k]);
      if j < n { assert IsOn(tr, n); }
    }
    if Enables(tr[n]) {
      StaysOn(tr, n, n + 1);
    } else if IsOn(tr, n) && !Disables(tr[n]) {
      var j: nat :| j < n && Enables(tr[j]) && forall k: nat | j < k < n :: !Disables(tr[k]);
      assert forall k: nat | j < k < n + 1 :: !Disables(tr[k]);
    }
  }

  lemma SessionExtends(tr: Trace, s: nat, n: nat)
    requires n < |tr| && InSession(tr, s, n) && !Disables(tr[n])
    ensures InSession(tr, s, n + 1)
  {
  }

  lemma AcceptedIsLast(initial: u32, tr: Trace, s: nat, n: nat)
    requires n < |tr| && s < n && Greedy(initial, tr, n)
    ensures IsLastAccepted(initial, tr, s, Some(n), n + 1)
  {
  }

  lemma RejectedKeepsLast(initial: u32, tr: Trace, s: nat, last: Option<nat>, n: nat)
    requires n < |tr| && s < n && IsLastAccepted(initial, tr, s, last, n) && !Greedy(initial, tr, n)
    ensures IsLastAccepted(initial, tr, s, last, n + 1)
  {
    forall j: nat | s < j < n + 1 && Greedy(initial, tr, j) ensures j < n {}
  }

  lemma EncodingAfterEdge(initial: u32, tr: Trace, n: nat, session: Option<nat>, last: Option<nat>, d: DetectorState)
    requires ClockIsSane(tr) && n < |tr| && tr[n].Edge? && Encodes(initial, tr, n, session, last, d)
    ensures Encodes(initial, tr, n + 1, session, if Accepts(d, tr[n].nowUs) then Some(n) else last, AfterWake(d, tr[n].nowUs))
  {
    EncodingDecides(initial, tr, n, session, last, d);
    if session.Some? {
      SessionExtends(tr, session.value, n);
      if Greedy(initial, tr, n) {
        AcceptedIsLast(initial, tr, session.value, n);
      } else {
        RejectedKeepsLast(initial, tr, session.value, last, n);
      }
    } else {
      OnAfter(tr, n);
    }
  }

  lemma EncodingAfterDisable(initial: u32, tr: Trace, n: nat, session: Option<nat>, last: Option<nat>, d: DetectorState)
    requires ClockIsSane(tr) && n < |tr| && Disables(tr[n]) && Encodes(initial, tr, n, session, last, d)
    ensures Encodes(initial, tr, n + 1, None, None, StepState(d, tr[n]))
  {
    OnAfter(tr, n);
  }

  lemma EncodingAfterStart(initial: u32, tr: Trace, n: nat, last: Option<nat>, d: DetectorState)
    requires ClockIsSane(tr) && n < |tr| && Enables(tr[n]) && Encodes(initial, tr, n, None, last, d)
    ensures Encodes(initial, tr, n + 1, Some(n), None, StepState(d, tr[n]))
  {
    assert InSession(tr, n, n + 1);
  }

  lemma EncodingAfterUpdate(initial: u32, tr: Trace, n: nat, s: nat, last: Option<nat>, d: DetectorState)
    requires ClockIsSane(tr) && n < |tr| && Enables(tr[n]) && Encodes(initial, tr, n, Some(s), last, d)
    ensures Encodes(initial, tr, n + 1, Some(s), last, StepState(d, tr[n]))
  {
    SessionExtends(tr, s, n);
    RejectedKeepsLast(initial, tr, s, last, n);
  }

  /** One event keeps the encoding; the session and its last acceptance move as the history says. */
  lemma EncodingStep(initial: u32, tr: Trace, n: nat, session: Option<nat>, last: Option<nat>, d: DetectorState)
    returns (session': Option<nat>, last': Option<nat>)
    requires ClockIsSane(tr) && n < |tr| && Encodes(initial, tr, n, session, last, d)
    ensures Encodes(initial, tr, n + 1, session', last', StepState(d, tr[n]))
  {
    if tr[n].Edge? {
      EncodingAfterEdge(initial, tr, n, session, last, d);
      session', last' := session, if Accepts(d, tr[n].nowUs) then Some(n) else last;
    } else if Disables(tr[n]) {
      EncodingAfterDisable(initial, tr, n, session, last, d);
      session', last' := None, None;
    } else if session.None? {
      EncodingAfterStart(initial, tr, n, last, d);
      session', last' := Some(n), None;
    } else {
      EncodingAfterUpdate(initial, tr, n, session.value, last, d);
      session', last' := session, last;
    }
  }

  lemma {:induction false} EncodingHolds(initial: u32, d0: DetectorState, tr: Trace, n: nat)
    returns (session: Option<nat>, last: Option<nat>)
    requires ClockIsSane(tr) && n <= |tr| && d0 == AfterInit(d0.warmupMs, initial)
    ensures Encodes(initial, tr, n, session, last, StateAt(d0, tr, n))
  {
    if n == 0 {
      session, last := None, None;
    } else {
      session, last := EncodingHolds(initial, d0, tr, n - 1);
      session, last := EncodingStep(initial, tr, n - 1, session, last, StateAt(d0, tr, n - 1));
    }
  }

  /** On every trace the detector accepts exactly the edges the greedy specification accepts. */
  lemma AcceptsGreedily(d0: DetectorState, tr: Trace, i: nat)
    requires ClockIsSane(tr) && i < |tr| && d0 == AfterInit(d0.warmupMs, d0.cooldownMs)
    ensures AcceptedAt(d0, tr, i) <==> Greedy(d0.cooldownMs, tr, i)
  {
    if tr[i].Edge? {
      var session, last := EncodingHolds(d0.cooldownMs, d0, tr, i);
      EncodingDecides(d0.cooldownMs, tr, i, session, last, StateAt(d0, tr, i));
    }
  }

  /** The trigger log is the greedy log. */
  lemma {:induction false} LogIsGreedy(d0: DetectorState, tr: Trace, n: nat)
    requires ClockIsSane(tr) && n <= |tr| && d0 == AfterInit(d0.warmupMs, d0.cooldownMs)
    ensures Triggers(d0, tr, n) == GreedyTimes(d0.cooldownMs, tr, n)
  {
    if n > 0 {
      LogIsGreedy(d0, tr, n - 1);
      AcceptsGreedily(d0, tr, n - 1);
    }
  }

  /** The 64-bit sum and difference the code forms at event `i` are exact. */
  lemma ArithmeticIsExact(d0: DetectorState, tr: Trace, i: nat)
    requires ClockIsSane(tr) && i < |tr| && d0 == AfterInit(d0.warmupMs, d0.cooldownMs)
    ensures var d := StateAt(d0, tr, i);
      && 0 <= d.lastTriggerUs <= tr[i].nowUs
      && Wrap64(tr[i].nowUs - d.lastTriggerUs) == tr[i].nowUs - d.lastTriggerUs
      && (tr[i].Settings? ==> Wrap64(tr[i].nowUs + tr[i].warmupMs * 1000) == tr[i].nowUs + tr[i].warmupMs * 1000)
      && 0 <= d.cooldownMs * 1000 < I64_LIMIT && 0 <= d.warmupMs * 1000 < I64_LIMIT
  {
    var session, last := EncodingHolds(d0.cooldownMs, d0, tr, i);
    EncodedTriggerIsPast(d0.cooldownMs, tr, i, session, last, StateAt(d0, tr, i));
  }

  /** Zero must not be a clock value: an acceptance at time 0 reads as "no trigger yet" and suspends the cooldown. */
  lemma ClockZeroSuspendsCooldown()
    ensures var d0 := AfterInit(0, 0);
      var tr := [Settings(0, true, 0, 5000), Edge(0), Edge(1)];
      && AcceptedAt(d0, tr, 1) && AcceptedAt(d0, tr, 2)
      && tr[2].nowUs - tr[1].nowUs < CooldownAt(0, tr, 2) * 1000
  {
    var d0 := AfterInit(0, 0);
    var tr := [Settings(0, true, 0, 5000), Edge(0), Edge(1)];
    assert StateAt(d0, tr, 1) == StepState(StateAt(d0, tr, 0), tr[0]);
    assert StateAt(d0, tr, 2) == StepState(StateAt(d0, tr, 1), tr[1]);
    assert CooldownAt(0, tr, 1) == 5000;
  }

  // ---------------------------------------------------------------------------------------------
  // When the warm-up value of a settings call matters.

  /** The call switches a stopped detector on. */
  predicate OpensSession(d0: DetectorState, tr: Trace, i: nat)
    requires i < |tr|
  {
    Enables(tr[i]) && !StateAt(d0, tr, i).started
  }

  /** The same events, except for warm-up values of settings calls that open no session in `tr`. */
  ghost predicate SameButIdleWarmups(d0: DetectorState, tr: Trace, other: Trace) {
    && |tr| == |other|
    && forall i | 0 <= i < |tr| ::
      || other[i] == tr[i]
      || (tr[i].Settings? && other[i].Settings? && !OpensSession(d0, tr, i) && other[i] == tr[i].(warmupMs := other[i].warmupMs))
  }

  /** The warm-up value is used only by a call that opens a session: all others may carry any value, and every edge is
      accepted or rejected as before. */
  lemma {:induction false} IdleWarmupsDoNotMatter(d0: DetectorState, tr: Trace, other: Trace, n: nat)
    requires d0.initialized && SameButIdleWarmups(d0, tr, other) && n <= |tr|
    ensures StateAt(d0, other, n) == StateAt(d0, tr, n).(warmupMs := StateAt(d0, other, n).warmupMs)
    ensures StateAt(d0, tr, n).initialized
    ensures Triggers(d0, other, n) == Triggers(d0, tr, n)
  {
    if n > 0 {
      IdleWarmupsDoNotMatter(d0, tr, other, n - 1);
      assert other[n - 1] == tr[n - 1] || !OpensSession(d0, tr, n - 1);
    }
  }

  /** A detector armed with one second of warm-up is given none while it runs: the next edge is still rejected. It would
      be accepted if the call that armed it had carried the new value. */
  lemma WarmupChangeWaitsForNextSession()
    ensures var d0 := AfterInit(0, 0);
      && !AcceptedAt(d0, [Settings(1, true, 1000, 0), Settings(2, true, 0, 0), Edge(3)], 2)
      && AcceptedAt(d0, [Settings(1, true, 0, 0), Settings(2, true, 0, 0), Edge(3)], 2)
  {
    var d0 := AfterInit(0, 0);
    var tr := [Settings(1, true, 1000, 0), Settings(2, true, 0, 0), Edge(3)];
    assert StateAt(d0, tr, 1) == StepState(d0, tr[0]);
    assert StateAt(d0, tr, 2) == StepState(StateAt(d0, tr, 1), tr[1]);
    var early := [Settings(1, true, 0, 0), Settings(2, true, 0, 0), Edge(3)];
    assert StateAt(d0, early, 1) == StepState(d0, early[0]);
    assert StateAt(d0, early, 2) == StepState(StateAt(d0, early, 1), early[1]);
  }

  // ---------------------------------------------------------------------------------------------
  // Rate bound.

  /** Between `a` and `b` the detector is never disabled and the cooldown stays `c`. */
  ghost predicate Steady(tr: Trace, a: nat, b: nat, c: u32)
    requires a <= b <= |tr|
  {
    forall k: nat | a <= k < b && tr[k].Settings? :: tr[k].enable && tr[k].cooldownMs == c
  }

  ghost predicate Spaced(s: seq<int>, gap: int) {
    forall i, j :: 0 <= i < j < |s| ==> s[j] - s[i] >= gap
  }

  /** Number of times of `s` in the closed window. */
  function CountIn(s: seq<int>, from: int, to: int): nat {
    if |s| == 0 then 0
    else CountIn(s[..|s| - 1], from, to) + (if from <= s[|s| - 1] <= to then 1 else 0)
  }

  lemma {:induction false} CountNarrow(s: seq<int>, from: int, to: int, narrow: int)
    requires narrow <= to && forall i :: 0 <= i < |s| ==> s[i] <= narrow
    ensures CountIn(s, from, to) == CountIn(s, from, narrow)
    decreases |s|
  {
    if |s| > 0 { CountNarrow(s[..|s| - 1], from, to, narrow); }
  }

  /** Room that `n` times `gap` apart need. */
  function Span(n: nat, gap: nat): nat {
    if n <= 1 then 0 else Span(n - 1, gap) + gap
  }

  lemma {:induction false} SpanIsProduct(n: nat, gap: nat)
    requires n > 0
    ensures Span(n, gap) == (n - 1) * gap
  {
    if n > 1 { SpanIsProduct(n - 1, gap); }
  }

  lemma {:induction false} SpacedCount(s: seq<int>, gap: nat, from: int, to: int)
    requires gap > 0 && Spaced(s, gap)
    ensures CountIn(s, from, to) > 0 ==> Span(CountIn(s, from, to), gap) <= to - from
    decreases |s|
  {
    if |s| > 0 {
      var front, t := s[..|s| - 1], s[|s| - 1];
      if from <= t <= to {
        CountNarrow(front, from, to, t - gap);
        SpacedCount(front, gap, from, t - gap);
      } else {
        SpacedCount(front, gap, from, to);
      }
    }
  }

  /** Times `gap` apart: `n` of them in a window of `length` need (n - 1) * gap <= length. */
  lemma WindowCount(s: seq<int>, gap: nat, from: int, length: nat)
    requires gap > 0 && Spaced(s, gap)
    ensures (CountIn(s, from, from + length) - 1) * gap <= length
  {
    SpacedCount(s, gap, from, from + length);
    var n := CountIn(s, from, from + length);
    if n > 0 { SpanIsProduct(n, gap); }
  }

  /** Acceptances of a steady stretch keep the cooldown apart, from each other and from an earlier one. */
  lemma {:induction false} SteadySpacing(d0: DetectorState, tr: Trace, a: nat, b: nat, c: u32)
    requires ClockIsSane(tr) && a <= b <= |tr| && d0 == AfterInit(d0.warmupMs, d0.cooldownMs)
    requires Steady(tr, a, b, c) && c > 0
    requires StateAt(d0, tr, a).started && StateAt(d0, tr, a).cooldownMs == c
    ensures StateAt(d0, tr, b).started && StateAt(d0, tr, b).cooldownMs == c
    ensures |Triggers(d0, tr, a)| <= |Triggers(d0, tr, b)|
    ensures var accepted := Triggers(d0, tr, b)[|Triggers(d0, tr, a)|..];
      Spaced(accepted, c * 1000) && forall i :: 0 <= i < |accepted| ==> 0 < accepted[i] <= StateAt(d0, tr, b).lastTriggerUs
    decreases b
  {
    if b > a {
      SteadySpacing(d0, tr, a, b - 1, c);
      ArithmeticIsExact(d0, tr, b - 1);
      NewTriggers(d0, tr, a, b);
    }
  }

  lemma NewTriggers(d0: DetectorState, tr: Trace, a: nat, b: nat)
    requires a < b <= |tr| && |Triggers(d0, tr, a)| <= |Triggers(d0, tr, b - 1)|
    ensures |Triggers(d0, tr, a)| <= |Triggers(d0, tr, b)|
    ensures Triggers(d0, tr, b)[|Triggers(d0, tr, a)|..] ==
      Triggers(d0, tr, b - 1)[|Triggers(d0, tr, a)|..] + (if AcceptedAt(d0, tr, b - 1) then [tr[b - 1].nowUs] else [])
  {
  }

  /** Within one uninterrupted session at constant cooldown, a window of `length` microseconds holds at most
      length / cooldown + 1 accepted triggers: if it holds n, then (n - 1) * cooldown <= length. */
  lemma TriggerRate(d0: DetectorState, tr: Trace, a: nat, b: nat, c: u32, from: int, length: nat)
    requires ClockIsSane(tr) && a <= b <= |tr| && d0 == AfterInit(d0.warmupMs, d0.cooldownMs)
    requires Steady(tr, a, b, c) && c > 0
    requires StateAt(d0, tr, a).started && StateAt(d0, tr, a).cooldownMs == c
    ensures |Triggers(d0, tr, a)| <= |Triggers(d0, tr, b)|
    ensures (CountIn(Triggers(d0, tr, b)[|Triggers(d0, tr, a)|..], from, from + length) - 1) * (c * 1000) <= length
  {
    SteadySpacing(d0, tr, a, b, c);
    WindowCount(Triggers(d0, tr, b)[|Triggers(d0, tr, a)|..], c * 1000, from, length);
  }
}
