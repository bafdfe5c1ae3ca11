/** components/messaging/publish_queue.c: the bounded queue, its producers and its one worker. */
module PublishQueue {
  import opened Base
  import opened MqttService

  datatype Limits = Limits(topicMax: nat, dataMax: nat, queueLength: nat)

  /** A push that returned OK, with the producer it came from. */
  datatype Sent = Sent(owner: nat, item: Item)

  /** `inFlight` is the worker's local item; `accepted` records every push that returned OK, in order. */
  datatype QueueState = QueueState(
    created: bool,
    handle: bool,
    workers: nat,
    queue: seq<Item>,
    inFlight: Option<Item>,
    link: LinkState,
    accepted: seq<Sent>)

  const BOOT := QueueState(false, false, 0, [], None, LinkState(false, false, []), [])

  /** What producers, the worker, the network and other publishers can do; flags are the outcomes of RTOS and client calls. */
  datatype Event =
    | CreateQueue(ok: bool)
    | StartWorker(ok: bool)
    | CreateClient
    | Push(owner: nat, item: Item)
    | Receive
    | Attempt(clientOk: bool)
    | Connect(online: Item, clientOk: bool)
    | Disconnect
    | Direct(item: Item, clientOk: bool)

  /** A push waits for room; it times out only when the queue is still full. */
  function PushError(lim: Limits, s: QueueState, item: Item): Err {
    if !s.created then InvalidState
    else if |item.data| > lim.dataMax then InvalidSize
    else if |item.topic| >= lim.topicMax then InvalidSize
    else if |s.queue| >= lim.queueLength then Timeout
    else Ok
  }

  function AfterPush(lim: Limits, s: QueueState, owner: nat, item: Item): QueueState {
    if PushError(lim, s, item) == Ok
    then s.(queue := s.queue + [item], accepted := s.accepted + [Sent(owner, item)])
    else s
  }

  function StartError(s: QueueState, ok: bool): Err {
    if s.handle then Ok else if !s.created then InvalidState else if ok then Ok else Fail
  }

  function AfterStart(s: QueueState, ok: bool): QueueState {
    if !s.handle && s.created && ok then s.(handle := true, workers := s.workers + 1) else s
  }

  function AfterReceive(s: QueueState): QueueState {
    if s.workers > 0 && s.inFlight.None? && |s.queue| > 0
    then s.(inFlight := Some(s.queue[0]), queue := s.queue[1..])
    else s
  }

  function AfterAttempt(s: QueueState, clientOk: bool): QueueState {
    if s.inFlight.Some? && PublishError(s.link, clientOk) == Ok
    then s.(inFlight := None, link := AfterPublish(s.link, true, s.inFlight.value, clientOk))
    else s
  }

  function Step(lim: Limits, s: QueueState, e: Event): QueueState {
    match e
    case CreateQueue(ok) => if s.created || !ok then s else s.(created := true, queue := [])
    case StartWorker(ok) => AfterStart(s, ok)
    case CreateClient => s.(link := s.link.(created := true))
    case Push(owner, item) => AfterPush(lim, s, owner, item)
    case Receive => AfterReceive(s)
    case Attempt(clientOk) => AfterAttempt(s, clientOk)
    case Connect(online, clientOk) => s.(link := AfterConnect(s.link, online, clientOk))
    case Disconnect => s.(link := s.link.(connected := false))
    case Direct(item, clientOk) => s.(link := AfterPublish(s.link, false, item, clientOk))
  }

  function Run(lim: Limits, s: QueueState, events: seq<Event>): QueueState
    decreases |events|
  {
    if |events| == 0 then s else Run(lim, Step(lim, s, events[0]), events[1..])
  }

  lemma {:induction false} RunSplit(lim: Limits, s: QueueState, a: seq<Event>, b: seq<Event>)
    ensures Run(lim, s, a + b) == Run(lim, Run(lim, s, a), b)
    decreases |a|
  {
    if |a| == 0 {
      assert a + b == b;
    } else {
      assert (a + b)[1..] == a[1..] + b;
      RunSplit(lim, Step(lim, s, a[0]), a[1..], b);
    }
  }

  // ---------------------------------------------------------------------------------------------
  // Views of the history.

  function Items(sent: seq<Sent>): (r: seq<Item>)
    ensures |r| == |sent|
  {
    if |sent| == 0 then [] else Items(sent[..|sent| - 1]) + [sent[|sent| - 1].item]
  }

  /** What one producer has pushed, in its order. */
  function OwnedBy(owner: nat, sent: seq<Sent>): seq<Item> {
    if |sent| == 0 then []
    else
      var last := sent[|sent| - 1];
      OwnedBy(owner, sent[..|sent| - 1]) + (if last.owner == owner then [last.item] else [])
  }

  /** The part of the wire that came through the queue. */
  function Queued(wire: seq<Wire>): seq<Item> {
    if |wire| == 0 then []
    else
      var last := wire[|wire| - 1];
      Queued(wire[..|wire| - 1]) + (if last.queued then [last.item] else [])
  }

  function Held(inFlight: Option<Item>): seq<Item> {
    if inFlight.None? then [] else [inFlight.value]
  }

  function Undelivered(s: QueueState): seq<Item> { Held(s.inFlight) + s.queue }

  predicate Fits(lim: Limits, item: Item) { |item.data| <= lim.dataMax && |item.topic| < lim.topicMax }

  /** Every accepted push is delivered, in flight or queued: once, unchanged and in order. */
  predicate Conserved(s: QueueState) {
    Items(s.accepted) == Queued(s.link.wire) + Undelivered(s)
  }

  ghost predicate Invariant(lim: Limits, s: QueueState) {
    && Conserved(s)
    && |s.queue| <= lim.queueLength
    && s.workers == (if s.handle then 1 else 0)
    && (s.inFlight.Some? ==> s.workers == 1)
    && (!s.created ==> s.queue == [] && !s.handle)
    && (forall x :: x in s.accepted ==> Fits(lim, x.item))
  }

  lemma ItemsAppend(sent: seq<Sent>, x: Sent)
    ensures Items(sent + [x]) == Items(sent) + [x.item]
  {
    assert (sent + [x])[..|sent|] == sent;
  }

  lemma {:induction false} ItemsPrefix(sent: seq<Sent>, n: nat)
    requires n <= |sent|
    ensures Items(sent[..n]) == Items(sent)[..n]
    decreases |sent|
  {
    if n == |sent| {
      assert sent[..n] == sent;
    } else {
      ItemsPrefix(sent[..|sent| - 1], n);
      assert sent[..|sent| - 1][..n] == sent[..n];
    }
  }

  lemma PushConserves(s: QueueState, x: Sent)
    requires Conserved(s)
    ensures Conserved(s.(queue := s.queue + [x.item], accepted := s.accepted + [x]))
  {
    ItemsAppend(s.accepted, x);
    assert Queued(s.link.wire) + Undelivered(s) + [x.item]
        == Queued(s.link.wire) + (Held(s.inFlight) + (s.queue + [x.item]));
  }

  lemma PushKeepsInvariant(lim: Limits, s: QueueState, owner: nat, item: Item)
    requires Invariant(lim, s)
    ensures Invariant(lim, AfterPush(lim, s, owner, item))
  {
    PushConserves(s, Sent(owner, item));
  }

  lemma WireGrows(wire: seq<Wire>, w: Wire)
    ensures Queued(wire + [w]) == Queued(wire) + (if w.queued then [w.item] else [])
  {
    assert (wire + [w])[..|wire|] == wire;
  }

  lemma ReceiveKeepsInvariant(lim: Limits, s: QueueState)
    requires Invariant(lim, s)
    ensures Invariant(lim, AfterReceive(s))
  {
    if |s.queue| > 0 { assert [] + s.queue == [s.queue[0]] + s.queue[1..]; }
  }

  lemma AttemptKeepsInvariant(lim: Limits, s: QueueState, clientOk: bool)
    requires Invariant(lim, s)
    ensures Invariant(lim, AfterAttempt(s, clientOk))
  {
    if s.inFlight.Some? {
      WireGrows(s.link.wire, Wire(true, s.inFlight.value));
      assert Queued(s.link.wire) + ([s.inFlight.value] + s.queue) == Queued(s.link.wire) + [s.inFlight.value] + ([] + s.queue);
    }
  }

  /** Publications that bypass the queue leave its part of the wire alone. */
  lemma DirectKeepsInvariant(lim: Limits, s: QueueState, e: Event)
    requires Invariant(lim, s) && (e.Connect? || e.Direct?)
    ensures Invariant(lim, Step(lim, s, e))
  {
    WireGrows(s.link.wire, Wire(false, if e.Connect? then e.online else e.item));
    LinkMayChange(lim, s, Step(lim, s, e).link);
  }

  lemma LinkMayChange(lim: Limits, s: QueueState, link: LinkState)
    requires Invariant(lim, s) && Queued(link.wire) == Queued(s.link.wire)
    ensures Invariant(lim, s.(link := link))
  {
  }

  lemma StepKeepsInvariant(lim: Limits, s: QueueState, e: Event)
    requires Invariant(lim, s)
    ensures Invariant(lim, Step(lim, s, e))
  {
    match e
    case Push(owner, item) => PushKeepsInvariant(lim, s, owner, item);
    case Receive => ReceiveKeepsInvariant(lim, s);
    case Attempt(clientOk) => AttemptKeepsInvariant(lim, s, clientOk);
    case Connect(_, _) => DirectKeepsInvariant(lim, s, e);
    case Direct(_, _) => DirectKeepsInvariant(lim, s, e);
    case _ =>
  }

  lemma StepAppends(lim: Limits, s: QueueState, e: Event)
    ensures s.accepted <= Step(lim, s, e).accepted && s.link.wire <= Step(lim, s, e).link.wire
    ensures (s.handle ==> Step(lim, s, e).handle) && (s.link.created ==> Step(lim, s, e).link.created)
  {
  }

  /** Nothing reaches the wire unless the session is up. */
  lemma WireNeedsSession(lim: Limits, s: QueueState, e: Event)
    requires Step(lim, s, e).link.wire != s.link.wire
    ensures Step(lim, s, e).link.connected && Step(lim, s, e).link.created
    ensures s.link.connected || e.Connect?
  {
  }

  /** In every reachable state of a boot the queue conserves and orders what it accepted, stays within its length,
      and has at most one worker; history is only ever appended to, and worker and client, once there, stay. */
  lemma {:induction false} RunKeepsInvariant(lim: Limits, s: QueueState, events: seq<Event>)
    requires Invariant(lim, s)
    ensures Invariant(lim, Run(lim, s, events))
    ensures s.accepted <= Run(lim, s, events).accepted && s.link.wire <= Run(lim, s, events).link.wire
    ensures (s.handle ==> Run(lim, s, events).handle) && (s.link.created ==> Run(lim, s, events).link.created)
    decreases |events|
  {
    if |events| > 0 {
      StepKeepsInvariant(lim, s, events[0]);
      StepAppends(lim, s, events[0]);
      RunKeepsInvariant(lim, Step(lim, s, events[0]), events[1..]);
    }
  }

  lemma {:induction false} OwnedByPrefix(owner: nat, sent: seq<Sent>, n: nat)
    requires n <= |sent|
    ensures OwnedBy(owner, sent[..n]) <= OwnedBy(owner, sent)
    decreases |sent|
  {
    if n < |sent| {
      OwnedByPrefix(owner, sent[..|sent| - 1], n);
      assert sent[..|sent| - 1][..n] == sent[..n];
    } else {
      assert sent[..n] == sent;
    }
  }

  /** The pushes behind what has been delivered: the first so many accepted ones. */
  function Delivered(s: QueueState): seq<Sent>
    requires |Queued(s.link.wire)| <= |s.accepted|
  {
    s.accepted[..|Queued(s.link.wire)|]
  }

  /** From boot on: at most queue length + 1 accepted items are undelivered, deliveries are exactly the oldest accepted
      pushes, and each producer sees its own items delivered in the order it pushed them. */
  lemma DeliveryOrder(lim: Limits, events: seq<Event>, owner: nat)
    ensures var s := Run(lim, BOOT, events);
      && |s.accepted| - |Queued(s.link.wire)| <= lim.queueLength + 1
      && |Queued(s.link.wire)| <= |s.accepted|
      && Queued(s.link.wire) == Items(Delivered(s))
      && OwnedBy(owner, Delivered(s)) <= OwnedBy(owner, s.accepted)
      && s.workers <= 1
  {
    RunKeepsInvariant(lim, BOOT, events);
    var s := Run(lim, BOOT, events);
    DeliveredIsPrefix(lim, s);
    OwnedByPrefix(owner, s.accepted, |Queued(s.link.wire)|);
  }

  lemma DeliveredIsPrefix(lim: Limits, s: QueueState)
    requires Invariant(lim, s)
    ensures |Queued(s.link.wire)| <= |s.accepted|
    ensures Queued(s.link.wire) == Items(Delivered(s))
    ensures |s.accepted| - |Queued(s.link.wire)| == |Undelivered(s)| <= lim.queueLength + 1
  {
    ItemsPrefix(s.accepted, |Queued(s.link.wire)|);
  }

  // ---------------------------------------------------------------------------------------------
  // Bounded drain.

  /** Anything but the worker's own two steps. */
  predicate IsOther(e: Event) { !e.Receive? && !e.Attempt? }

  /** The session flag of an existing client after some events. */
  function UpAfter(up: bool, events: seq<Event>): bool
    decreases |events|
  {
    if |events| == 0 then up
    else UpAfter(if events[0].Connect? then true else if events[0].Disconnect? then false else up, events[1..])
  }

  /** What goes on around the worker: the session flag at its first attempt, everything the rest of the node does before
      each attempt, and whether the client would take the message then. */
  datatype Script = Script(upFirst: bool, others: nat -> seq<Event>, clientOk: nat -> bool)
  {
    ghost predicate Valid() { forall i: nat, e | e in others(i) :: IsOther(e) }

    /** Nobody pushes. */
    ghost predicate Quiet() { forall i: nat, e | e in others(i) :: !e.Push? }

    function Up(i: nat): bool {
      if i == 0 then upFirst else UpAfter(Up(i - 1), others(i - 1))
    }

    predicate Accepts(i: nat) { Up(i + 1) && clientOk(i) }

    ghost predicate AcceptsWithin(k: nat, i: nat) { exists j: nat :: i <= j <= i + k && Accepts(j) }

    /** No more than `k` consecutive attempts are refused. */
    ghost predicate GivesWayWithin(k: nat) { forall i: nat :: AcceptsWithin(k, i) }
  }

  /** The worker exists and so does the client. */
  ghost predicate Serving(lim: Limits, s: QueueState) { Invariant(lim, s) && s.handle && s.link.created }

  lemma OtherOnlyAppends(lim: Limits, s: QueueState, e: Event)
    requires Serving(lim, s) && IsOther(e)
    ensures var t := Step(lim, s, e);
      && Serving(lim, t) && t.inFlight == s.inFlight && s.queue <= t.queue
      && Queued(t.link.wire) == Queued(s.link.wire) && t.link.connected == UpAfter(s.link.connected, [e])
      && (!e.Push? ==> t.accepted == s.accepted)
  {
    StepKeepsInvariant(lim, s, e);
    assert [e][1..] == [];
    if e.Connect? || e.Direct? { BypassOnlyAppends(lim, s, e); }
  }

  lemma BypassOnlyAppends(lim: Limits, s: QueueState, e: Event)
    requires s.link.created && (e.Connect? || e.Direct?)
    ensures Queued(Step(lim, s, e).link.wire) == Queued(s.link.wire)
  {
    WireGrows(s.link.wire, Wire(false, if e.Connect? then e.online else e.item));
  }

  /** Whatever the rest of the node does, the worker's item stays, the queue only grows at its end, and nothing that came
      through it is delivered. */
  lemma {:induction false} OthersOnlyAppend(lim: Limits, s: QueueState, events: seq<Event>)
    requires Serving(lim, s) && forall e | e in events :: IsOther(e)
    ensures var t := Run(lim, s, events);
      && Serving(lim, t) && t.inFlight == s.inFlight && s.queue <= t.queue
      && Queued(t.link.wire) == Queued(s.link.wire) && t.link.connected == UpAfter(s.link.connected, events)
      && ((forall e | e in events :: !e.Push?) ==> t.accepted == s.accepted)
    decreases |events|
  {
    if |events| > 0 {
      assert events[0] in events;
      OtherOnlyAppends(lim, s, events[0]);
      OthersOnlyAppend(lim, Step(lim, s, events[0]), events[1..]);
    }
  }

  /** `t` is `s` after one more attempt, which the client took or refused. */
  ghost predicate Attempted(lim: Limits, s: QueueState, t: QueueState, taken: bool)
    requires s.inFlight.Some?
  {
    && Serving(lim, t)
    && t.inFlight == (if taken then None else s.inFlight)
    && |Queued(t.link.wire)| == |Queued(s.link.wire)| + (if taken then 1 else 0)
    && |s.queue| <= |t.queue|
  }

  lemma AttemptFollows(lim: Limits, s: QueueState, others: seq<Event>, clientOk: bool)
    requires Serving(lim, s) && s.inFlight.Some? && forall e | e in others :: IsOther(e)
    ensures var t := Run(lim, s, others + [Attempt(clientOk)]);
      var up := UpAfter(s.link.connected, others);
      && t == AfterAttempt(Run(lim, s, others), clientOk)
      && Attempted(lim, s, t, up && clientOk) && t.link.connected == up
      && ((forall e | e in others :: !e.Push?) ==> t.accepted == s.accepted)
  {
    OthersOnlyAppend(lim, s, others);
    var mid := Run(lim, s, others);
    RunSplit(lim, s, others, [Attempt(clientOk)]);
    AttemptKeepsInvariant(lim, mid, clientOk);
    WireGrows(mid.link.wire, Wire(true, mid.inFlight.value));
  }

  /** A refused attempt and what follows it make one longer attempt. */
  lemma AttemptsJoin(lim: Limits, s: QueueState, t: QueueState, u: QueueState, events: seq<Event>, more: seq<Event>, taken: bool)
    requires s.inFlight.Some? && t.inFlight.Some? && Attempted(lim, s, t, false) && Attempted(lim, t, u, taken)
    requires t == Run(lim, s, events) && u == Run(lim, t, more)
    ensures Attempted(lim, s, u, taken) && u == Run(lim, s, events + more)
  {
    RunSplit(lim, s, events, more);
  }

  /** Later states of the queue have delivered the oldest `n` undelivered items, in order, and still hold the rest in
      front of whatever was pushed since. */
  lemma OldestFirst(lim: Limits, s: QueueState, t: QueueState, n: nat)
    requires Invariant(lim, s) && Invariant(lim, t) && s.accepted <= t.accepted && n <= |Undelivered(s)|
    requires |Queued(t.link.wire)| == |Queued(s.link.wire)| + n
    ensures Queued(t.link.wire) == Queued(s.link.wire) + Undelivered(s)[..n]
    ensures Undelivered(s)[n..] <= Undelivered(t)
  {
    assert t.accepted[..|s.accepted|] == s.accepted;
    ItemsPrefix(t.accepted, |s.accepted|);
    var all, d := Items(t.accepted), |Queued(t.link.wire)|;
    assert all[..|s.accepted|] == Queued(s.link.wire) + Undelivered(s);
    assert Queued(t.link.wire) == all[..d] == all[..|s.accepted|][..d];
    assert Undelivered(t) == all[d..] && Undelivered(s)[n..] == all[..|s.accepted|][d..];
  }

  /** Attempts that deliver `n` items, at `k + 1` each. */
  function Budget(n: nat, k: nat): nat {
    if n == 0 then 0 else Budget(n - 1, k) + k + 1
  }

  lemma {:induction false} BudgetIsProduct(n: nat, k: nat)
    ensures Budget(n, k) == n * (k + 1)
  {
    if n > 0 { BudgetIsProduct(n - 1, k); }
  }

  // ---------------------------------------------------------------------------------------------
  // The component.

  class Queue {
    const limits: Limits
    const client: Client
    var created: bool
    var handle: bool
    var queue: seq<Item>
    var inFlight: Option<Item>
    var workers: nat  // tasks the RTOS has created
    ghost var accepted: seq<Sent>

    constructor (limits: Limits, client: Client)
      ensures this.limits == limits && this.client == client
      ensures State() == BOOT.(link := client.State())
    {
      this.limits, this.client := limits, client;
      created, handle, queue, inFlight := false, false, [], None;
      workers, accepted := 0, [];
    }

    ghost function State(): QueueState
      reads this, client
    {
      QueueState(created, handle, workers, queue, inFlight, client.State(), accepted)
    }

    method Init(ok: bool) returns (err: Err)
      modifies this
      ensures err == if old(created) || ok then Ok else NoMem
      ensures created == (old(created) || ok) && (old(created) ==> queue == old(queue))
      ensures State() == Step(limits, old(State()), CreateQueue(ok))
    {
      if created { return Ok; }
      if !ok { return NoMem; }
      created, queue := true, [];
      return Ok;
    }

    method Start(ok: bool) returns (err: Err)
      modifies this
      ensures err == StartError(old(State()), ok)
      ensures err == Ok <==> old(handle) || (created && ok)
      ensures err == InvalidState <==> !old(handle) && !created
      ensures err in {Ok, InvalidState, Fail}
      ensures workers == old(workers) + (if err == Ok && !old(handle) then 1 else 0)
      ensures State() == Step(limits, old(State()), StartWorker(ok))
    {
      if handle { return Ok; }
      if !created { return InvalidState; }
      if !ok { return Fail; }
      handle := true;
      workers := workers + 1;
      return Ok;
    }

    /** A push succeeds exactly when the queue exists, topic and payload fit and there is room; each refusal names its
        cause and leaves the queue alone. */
    method PushItem(ghost owner: nat, topic: string, data: seq<byte>, qos: int, retain: bool) returns (err: Err)
      modifies this
      ensures err == Ok <==>
        created && |data| <= limits.dataMax && |topic| < limits.topicMax && |old(queue)| < limits.queueLength
      ensures err == InvalidState <==> !created
      ensures err == InvalidSize <==> created && (|data| > limits.dataMax || |topic| >= limits.topicMax)
      ensures err == Timeout ==> |old(queue)| >= limits.queueLength
      ensures err in {Ok, InvalidState, InvalidSize, Timeout}
      ensures queue == if err == Ok then old(queue) + [Item(topic, data, qos, retain)] else old(queue)
      ensures created == old(created) && inFlight == old(inFlight) && client.State() == old(client.State())
      ensures err == PushError(limits, old(State()), Item(topic, data, qos, retain))
      ensures State() == Step(limits, old(State()), Push(owner, Item(topic, data, qos, retain)))
    {
      var item := Item("", [], 0, false);
      if !created { return InvalidState; }
      if |data| > limits.dataMax { return InvalidSize; }
      if |topic| >= limits.topicMax { return InvalidSize; }
      item := item.(topic := topic);
      item := item.(qos := qos, retain := retain);
      if |data| > 0 { item := item.(data := data); }
      if |queue| >= limits.queueLength { return Timeout; }
      queue := queue + [item];
      accepted := accepted + [Sent(owner, item)];
      return Ok;
    }

    method TaskReceive()
      modifies this
      ensures State() == Step(limits, old(State()), Receive)
    {
      if workers > 0 && inFlight.None? && |queue| > 0 {
        inFlight, queue := Some(queue[0]), queue[1..];
      }
    }

    method TaskAttempt(clientOk: bool) returns (err: Err)
      requires inFlight.Some?
      modifies this, client
      ensures err == PublishError(old(client.State()), clientOk)
      ensures State() == Step(limits, old(State()), Attempt(clientOk))
    {
      err := client.PublishImmediate(true, inFlight.value, clientOk);
      if err == Ok { inFlight := None; }
    }

    /** One event of the environment or of another task. */
    method Apply(e: Event)
      modifies this, client
      ensures State() == Step(limits, old(State()), e)
    {
      match e
      case CreateQueue(ok) => var _ := Init(ok);
      case StartWorker(ok) => var _ := Start(ok);
      case CreateClient => client.Create();
      case Push(owner, item) => var _ := PushItem(owner, item.topic, item.data, item.qos, item.retain);
      case Receive => TaskReceive();
      case Attempt(clientOk) => if inFlight.Some? { var _ := TaskAttempt(clientOk); }
      case Connect(online, clientOk) => client.OnConnected(online, clientOk);
      case Disconnect => client.OnDisconnected();
      case Direct(item, clientOk) => var _ := client.PublishImmediate(false, item, clientOk);
    }

    /** Whatever other tasks do between two steps of this one. */
    method Interfere(events: seq<Event>)
      modifies this, client
      ensures State() == Run(limits, old(State()), events)
    {
      var i := 0;
      assert events[..0] == [];
      while i < |events|
        invariant 0 <= i <= |events|
        invariant State() == Run(limits, old(State()), events[..i])
      {
        RunSplit(limits, old(State()), events[..i], [events[i]]);
        assert events[..i + 1] == events[..i] + [events[i]];
        Apply(events[i]);
        i := i + 1;
      }
      assert events[..i] == events;
    }

    /** One publish attempt of the worker, after all that has happened since the last one. */
    method AttemptAmid(script: Script, i: nat) returns (err: Err, ghost events: seq<Event>)
      requires script.Valid() && Serving(limits, State()) && inFlight.Some? && client.connected == script.Up(i)
      modifies this, client
      ensures State() == Run(limits, old(State()), events)
      ensures err == Ok <==> script.Accepts(i)
      ensures Attempted(limits, old(State()), State(), script.Accepts(i)) && client.connected == script.Up(i + 1)
      ensures script.Quiet() ==> accepted == old(accepted)
    {
      events := script.others(i) + [Attempt(script.clientOk(i))];
      AttemptFollows(limits, State(), script.others(i), script.clientOk(i));
      OthersOnlyAppend(limits, State(), script.others(i));
      Interfere(script.others(i));
      err := TaskAttempt(script.clientOk(i));
    }

    /** One more attempt after refused ones that have led from `start` to here. */
    method AttemptAgain(script: Script, i: nat, ghost start: QueueState, ghost past: seq<Event>)
      returns (err: Err, ghost events: seq<Event>)
      requires script.Valid() && client.connected == script.Up(i)
      requires start.inFlight.Some? && Attempted(limits, start, State(), false) && State() == Run(limits, start, past)
      modifies this, client
      ensures err == Ok <==> script.Accepts(i)
      ensures Attempted(limits, start, State(), err == Ok) && State() == Run(limits, start, events)
      ensures client.connected == script.Up(i + 1) && (script.Quiet() ==> accepted == old(accepted))
    {
      ghost var before, more := State(), [];
      err, more := AttemptAmid(script, i);
      AttemptsJoin(limits, start, before, State(), past, more, err == Ok);
      events := past + more;
    }

    /** The inner loop of the worker: attempt number `first` and the following ones, until the item is taken. */
    method RetryUntilAccepted(script: Script, k: nat, first: nat) returns (next: nat, ghost events: seq<Event>)
      requires script.Valid() && script.GivesWayWithin(k)
      requires Serving(limits, State()) && inFlight.Some? && client.connected == script.Up(first)
      modifies this, client
      ensures first < next <= first + k + 1
      ensures State() == Run(limits, old(State()), events)
      ensures Attempted(limits, old(State()), State(), true) && client.connected == script.Up(next)
      ensures script.Quiet() ==> accepted == old(accepted)
    {
      next, events := first, [];
      assert script.AcceptsWithin(k, first);
      ghost var last: nat :| first <= last <= first + k && script.Accepts(last);
      ghost var start := State();
      var err := Fail;
      while err != Ok
        invariant State() == Run(limits, start, events) && client.connected == script.Up(next)
        invariant Attempted(limits, start, State(), err == Ok)
        invariant if err == Ok then first < next <= last + 1 else first <= next <= last
        invariant script.Quiet() ==> accepted == start.accepted
        decreases err != Ok, last + 1 - next
      {
        err, events := AttemptAgain(script, next, start, events);
        next := next + 1;
      }
    }

    /** The receive of the worker when it holds nothing. */
    method ReceiveNext() returns (ghost events: seq<Event>)
      requires Serving(limits, State()) && Undelivered(State()) != []
      modifies this
      ensures State() == Run(limits, old(State()), events) && Serving(limits, State())
      ensures inFlight.Some? && Undelivered(State()) == old(Undelivered(State())) && accepted == old(accepted)
    {
      events := [];
      if inFlight.None? {
        assert [] + queue == [queue[0]] + queue[1..];
        ReceiveKeepsInvariant(limits, State());
        TaskReceive();
        events := [Receive];
      }
    }

    /** One turn of the worker's endless loop: take the oldest undelivered item and get it accepted. */
    method ServeOne(script: Script, k: nat, first: nat) returns (next: nat, ghost events: seq<Event>)
      requires script.Valid() && script.GivesWayWithin(k)
      requires Serving(limits, State()) && Undelivered(State()) != [] && client.connected == script.Up(first)
      modifies this, client
      ensures first < next <= first + k + 1
      ensures State() == Run(limits, old(State()), events)
      ensures Serving(limits, State()) && client.connected == script.Up(next)
      ensures |Queued(client.wire)| == |Queued(old(client.wire))| + 1
      ensures |Undelivered(State())| >= |old(Undelivered(State()))| - 1
      ensures script.Quiet() ==> accepted == old(accepted)
    {
      events := ReceiveNext();
      ghost var more;
      next, more := RetryUntilAccepted(script, k, first);
      RunSplit(limits, old(State()), events, more);
      events := events + more;
    }

    /** The worker loop: whatever is pushed, published directly or lost meanwhile, the oldest `n` undelivered items arrive
        in order within n * (k + 1) attempts, so the item at position p does within (p + 1) * (k + 1). */
    method Serve(n: nat, script: Script, k: nat) returns (attempts: nat, ghost events: seq<Event>)
      requires script.Valid() && script.GivesWayWithin(k)
      requires Serving(limits, State()) && n <= |Undelivered(State())| && client.connected == script.Up(0)
      modifies this, client
      ensures attempts <= n * (k + 1)
      ensures State() == Run(limits, old(State()), events) && Serving(limits, State())
      ensures Queued(client.wire) == Queued(old(client.wire)) + old(Undelivered(State()))[..n]
      ensures old(Undelivered(State()))[n..] <= Undelivered(State())
      ensures script.Quiet() ==> accepted == old(accepted)
    {
      attempts, events := 0, [];
      var served := 0;
      while served < n
        invariant served <= n && attempts <= Budget(served, k)
        invariant State() == Run(limits, old(State()), events)
        invariant Serving(limits, State()) && client.connected == script.Up(attempts)
        invariant |Queued(client.wire)| == |Queued(old(client.wire))| + served
        invariant |Undelivered(State())| >= |old(Undelivered(State()))| - served
        invariant script.Quiet() ==> accepted == old(accepted)
      {
        ghost var more;
        attempts, more := ServeOne(script, k, attempts);
        RunSplit(limits, old(State()), events, more);
        events := events + more;
        served := served + 1;
      }
      BudgetIsProduct(n, k);
      RunKeepsInvariant(limits, old(State()), events);
      OldestFirst(limits, old(State()), State(), n);
    }

    /** When nobody pushes any more, the queue empties. */
    method Drain(script: Script, k: nat) returns (attempts: nat, ghost events: seq<Event>)
      requires script.Valid() && script.GivesWayWithin(k) && script.Quiet()
      requires Serving(limits, State()) && client.connected == script.Up(0)
      modifies this, client
      ensures attempts <= |old(Undelivered(State()))| * (k + 1)
      ensures State() == Run(limits, old(State()), events)
      ensures Undelivered(State()) == [] && accepted == old(accepted)
      ensures Queued(client.wire) == Queued(old(client.wire)) + old(Undelivered(State()))
    {
      var n := |queue| + (if inFlight.Some? then 1 else 0);
      ghost var waiting := Undelivered(State());
      attempts, events := Serve(n, script, k);
      assert waiting[..n] == waiting;
    }
  }
}
