/** components/messaging/image_transfer.c: one image as metadata, chunk stream and completion marker. */
module ImageTransfer {
  import opened Base
  import opened MqttService
  import opened PublishQueue
  import opened TopicMap
  import Decimal

  // ---------------------------------------------------------------------------------------------
  // Chunk arithmetic in 32-bit size_t.

  function ChunkCount(chunkSize: u32, len: u32): u32
    requires chunkSize > 0
  {
    Wrap32(len + chunkSize - 1) / chunkSize
  }

  function Offset(chunkSize: u32, index: u32): u32 { Wrap32(index * chunkSize) }

  function Remaining(chunkSize: u32, len: u32, index: u32): u32 { Wrap32(len - Offset(chunkSize, index)) }

  function ChunkLen(chunkSize: u32, len: u32, index: u32): u32 {
    if Remaining(chunkSize, len, index) > chunkSize then chunkSize else Remaining(chunkSize, len, index)
  }

  /** The rounding sum of the chunk count does not wrap. */
  predicate CountIsExact(chunkSize: u32, len: u32) { len + chunkSize - 1 < U32_LIMIT }

  lemma Monotone(a: int, b: int, c: int)
    requires a <= b && c >= 0
    ensures a * c <= b * c
  {
  }

  lemma QuotientBrackets(a: nat, c: int)
    requires c > 0
    ensures a / c * c <= a < a / c * c + c
    ensures (a / c - 1) * c == a / c * c - c
    ensures a < c ==> a / c == 0
  {
  }

  lemma WrapOnce(x: int)
    requires U32_LIMIT <= x < 2 * U32_LIMIT
    ensures Wrap32(x) == x - U32_LIMIT
  {
  }

  /** Without a wrap the count is the rounded-up quotient; with one it is zero although there are bytes to send. */
  lemma ChunkCountCovers(chunkSize: u32, len: u32)
    requires chunkSize > 0
    ensures var n := ChunkCount(chunkSize, len);
      && (CountIsExact(chunkSize, len) ==> (n - 1) * chunkSize < len <= n * chunkSize)
      && (!CountIsExact(chunkSize, len) ==> n == 0 && len > 0)
  {
    QuotientBrackets(Wrap32(len + chunkSize - 1), chunkSize);
    if !CountIsExact(chunkSize, len) { WrapOnce(len + chunkSize - 1); }
  }

  /** Every index the loop visits starts inside the image, and no step of its arithmetic wraps. */
  lemma ChunkIsInside(chunkSize: u32, len: u32, index: u32)
    requires chunkSize > 0 && index < ChunkCount(chunkSize, len)
    ensures CountIsExact(chunkSize, len) && index * chunkSize < len
    ensures Offset(chunkSize, index) == index * chunkSize
    ensures Remaining(chunkSize, len, index) == len - index * chunkSize
    ensures 0 < ChunkLen(chunkSize, len, index) <= chunkSize
    ensures index * chunkSize + ChunkLen(chunkSize, len, index) <= len
    ensures index + 1 < ChunkCount(chunkSize, len) ==> ChunkLen(chunkSize, len, index) == chunkSize
  {
    ChunkCountCovers(chunkSize, len);
    var n := ChunkCount(chunkSize, len);
    Monotone(0, index, chunkSize);
    Monotone(index, n - 1, chunkSize);
    if index + 1 < n {
      Monotone(index + 1, n - 1, chunkSize);
      assert (index + 1) * chunkSize == index * chunkSize + chunkSize;
    }
  }

  // ---------------------------------------------------------------------------------------------
  // The planned messages.

  /** JSON documents by content; how long they print is the environment's business. */
  datatype Doc =
    | MetaDoc(captureId: string, contentType: string, totalSize: nat, chunkSize: nat, chunkCount: nat)
    | DoneDoc(captureId: string, chunkCount: nat)

  /** One transfer's fixed inputs; `rendered` gives None when the document does not fit the JSON buffer. */
  datatype Job = Job(
    node: string,
    captureId: string,
    data: seq<byte>,
    contentType: string,
    chunkSize: u32,
    rendered: Doc -> Option<seq<byte>>)
  {
    predicate Valid() { chunkSize > 0 && |data| < U32_LIMIT }
  }

  function MimeType(contentType: string): string {
    if contentType != "" then contentType else "application/octet-stream"
  }

  function Count(j: Job): u32
    requires j.Valid()
  {
    ChunkCount(j.chunkSize, |j.data|)
  }

  function MetaOf(j: Job): Doc
    requires j.Valid()
  {
    MetaDoc(j.captureId, MimeType(j.contentType), |j.data|, j.chunkSize, Count(j))
  }

  function DoneOf(j: Job): Doc
    requires j.Valid()
  {
    DoneDoc(j.captureId, Count(j))
  }

  function Printed(j: Job, d: Doc): seq<byte> {
    if j.rendered(d).Some? then j.rendered(d).value else []
  }

  /** The byte window of chunk `index`. */
  function Window(j: Job, index: u32): seq<byte>
    requires j.Valid() && index < Count(j)
  {
    ChunkIsInside(j.chunkSize, |j.data|, index);
    var start := index * j.chunkSize;
    j.data[start..if start + j.chunkSize < |j.data| then start + j.chunkSize else |j.data|]
  }

  function MetaItem(j: Job): Item
    requires j.Valid()
  {
    Item(Render(j.node, ImageMeta(j.captureId)), Printed(j, MetaOf(j)), 1, false)
  }

  function ChunkItem(j: Job, index: u32): Item
    requires j.Valid() && index < Count(j)
  {
    Item(Render(j.node, ImageChunk(j.captureId, index)), Window(j, index), 0, false)
  }

  function DoneItem(j: Job): Item
    requires j.Valid()
  {
    Item(Render(j.node, ImageDone(j.captureId)), Printed(j, DoneOf(j)), 1, false)
  }

  /** The bytes the loop cuts out with its wrapped arithmetic are the window. */
  lemma WindowIsCut(j: Job, index: u32)
    requires j.Valid() && index < Count(j)
    ensures var from := Offset(j.chunkSize, index);
      var len := ChunkLen(j.chunkSize, |j.data|, index);
      from + len <= |j.data| && j.data[from..from + len] == Window(j, index)
  {
    ChunkIsInside(j.chunkSize, |j.data|, index);
  }

  function PlanItem(j: Job, i: nat): Item
    requires j.Valid() && i < Count(j) + 2
  {
    if i == 0 then MetaItem(j) else if i <= Count(j) then ChunkItem(j, i - 1) else DoneItem(j)
  }

  /** Metadata, every chunk in order, completion marker. */
  function Plan(j: Job): (r: seq<Item>)
    requires j.Valid()
    ensures |r| == Count(j) + 2
  {
    seq(Count(j) + 2, i requires 0 <= i < Count(j) + 2 => PlanItem(j, i))
  }

  /** Sending the next message of the plan. */
  lemma PlanGrows(j: Job, mine: seq<Item>, n: nat, item: Item)
    requires j.Valid() && n < |Plan(j)| && item == PlanItem(j, n)
    ensures mine + Plan(j)[..n] + [item] == mine + Plan(j)[..n + 1]
  {
    assert Plan(j)[..n + 1] == Plan(j)[..n] + [Plan(j)[n]];
  }

  // ---------------------------------------------------------------------------------------------
  // Where a transfer can stop.

  /** Chunk topics only get longer, so if the last one fits the buffer all do. */
  lemma ChunkTopicsGrow(node: string, id: string, i: nat, k: nat)
    requires i <= k
    ensures |Render(node, ImageChunk(id, i))| <= |Render(node, ImageChunk(id, k))|
  {
    Decimal.PrintGrows(i, k);
  }

  /** Chunk `index` is the first whose topic does not fit a buffer of `capacity` characters. */
  predicate IsFirstOversized(j: Job, capacity: nat, index: nat) {
    && |Render(j.node, ImageChunk(j.captureId, index))| >= capacity
    && (index > 0 ==> |Render(j.node, ImageChunk(j.captureId, index - 1))| < capacity)
  }

  /** The first chunk topic that does not fit has index zero or a power of ten. */
  lemma FirstOversizedIndex(j: Job, capacity: nat, index: nat)
    requires IsFirstOversized(j, capacity, index)
    ensures index == 0 || Decimal.IsPowerOfTen(index)
  {
    if index > 0 { Decimal.LengthStepsAtPowersOfTen(index); }
  }

  /** The done topic is exactly as long as the metadata topic, so it formats whenever that one did. */
  lemma DoneFitsWhenMetaDoes(node: string, id: string)
    ensures |Render(node, ImageDone(id))| == |Render(node, ImageMeta(id))|
  {
    assert |"meta"| == |"done"|;
  }

  /** A chunk whose topic formats always fits a queue item, so only a missing or full queue can refuse it. */
  lemma ChunkFitsQueueItem(lim: Limits, j: Job, index: u32)
    requires j.Valid() && index < Count(j) && j.chunkSize <= lim.dataMax
    requires |Render(j.node, ImageChunk(j.captureId, index))| < lim.topicMax
    ensures Fits(lim, ChunkItem(j, index))
    ensures forall s :: PushError(lim, s, ChunkItem(j, index)) in {Ok, InvalidState, Timeout}
  {
    ChunkIsInside(j.chunkSize, |j.data|, index);
  }

  // ---------------------------------------------------------------------------------------------
  // The transfer against the shared queue.

  predicate IsForeign(me: nat, e: Event) { e.Push? ==> e.owner != me }

  ghost predicate AllForeign(me: nat, events: seq<Event>) { forall e | e in events :: IsForeign(me, e) }

  /** Nothing other tasks do changes what this producer has pushed. */
  lemma {:induction false} ForeignKeepsMine(lim: Limits, s: QueueState, me: nat, events: seq<Event>)
    requires AllForeign(me, events)
    ensures OwnedBy(me, Run(lim, s, events).accepted) == OwnedBy(me, s.accepted)
    decreases |events|
  {
    if |events| > 0 {
      var e := events[0];
      assert IsForeign(me, e);
      if e.Push? { OwnedByAppend(me, s.accepted, Sent(e.owner, e.item)); }
      ForeignKeepsMine(lim, Step(lim, s, e), me, events[1..]);
    }
  }

  lemma OwnedByAppend(owner: nat, sent: seq<Sent>, x: Sent)
    ensures OwnedBy(owner, sent + [x]) == OwnedBy(owner, sent) + (if x.owner == owner then [x.item] else [])
  {
    assert (sent + [x])[..|sent|] == sent;
  }

  /** Outcomes of the allocations, and what other tasks do before each push. */
  datatype TransferEnv = TransferEnv(metaAlloc: bool, doneAlloc: bool, script: nat -> seq<Event>)

  /** Why a transfer ends with `err` after pushing `sent` messages. Queue errors are reported as they are for the last
      message only, and as Fail before it. */
  predicate StopsWith(j: Job, capacity: nat, env: TransferEnv, sent: nat, err: Err)
    requires j.Valid()
  {
    if j.captureId == "" then sent == 0 && err == InvalidArg
    else if sent == 0 then
      if |Render(j.node, ImageMeta(j.captureId))| >= capacity then err == InvalidSize
      else if !env.metaAlloc then err == NoMem
      else err == if j.rendered(MetaOf(j)).None? then InvalidSize else Fail
    else if sent <= Count(j) then err == if IsFirstOversized(j, capacity, sent - 1) then InvalidSize else Fail
    else if sent == Count(j) + 1 then
      if !env.doneAlloc then err == NoMem
      else if j.rendered(DoneOf(j)).None? then err == InvalidSize
      else err in {InvalidState, InvalidSize, Timeout}
    else sent == |Plan(j)| && err == Ok
  }

  ghost predicate NoPushes(events: seq<Event>) { forall e | e in events :: !e.Push? }

  /** While nobody else pushes, an existing queue does not get longer. */
  lemma {:induction false} NoPushesKeepRoom(lim: Limits, s: QueueState, events: seq<Event>)
    requires NoPushes(events) && s.created
    ensures Run(lim, s, events).created && |Run(lim, s, events).queue| <= |s.queue|
    decreases |events|
  {
    if |events| > 0 {
      assert events[0] in events;
      NoPushesKeepRoom(lim, Step(lim, s, events[0]), events[1..]);
    }
  }

  /** Nobody else pushes during the transfer, and the queue exists. */
  ghost predicate HasQueueToItself(q: Queue, env: TransferEnv)
    reads q
  {
    q.created && forall i :: NoPushes(env.script(i))
  }

  /** Everything the transfer needs but room: an ID, memory, documents that print, and messages that fit a queue item. */
  ghost predicate Sendable(j: Job, env: TransferEnv, lim: Limits)
    requires j.Valid()
  {
    && j.captureId != "" && env.metaAlloc && env.doneAlloc
    && j.rendered(MetaOf(j)).Some? && j.rendered(DoneOf(j)).Some?
    && forall i: nat | i < Count(j) + 2 :: Fits(lim, PlanItem(j, i))
  }

  lemma SendableChunkFits(j: Job, env: TransferEnv, lim: Limits, index: u32)
    requires j.Valid() && Sendable(j, env, lim) && index < Count(j)
    ensures Fits(lim, ChunkItem(j, index))
  {
    assert PlanItem(j, index as int + 1) == ChunkItem(j, index);
  }

  /** Interference, then one push: what it adds to the history of the queue and to this producer's own. */
  method PushAmongOthers(q: Queue, ghost me: nat, before: seq<Event>, item: Item,
                         ghost start: QueueState, ghost past: seq<Event>)
    returns (err: Err, ghost events: seq<Event>)
    requires AllForeign(me, before) && q.State() == Run(q.limits, start, past)
    modifies q, q.client
    ensures q.State() == Run(q.limits, start, events)
    ensures OwnedBy(me, q.accepted) == OwnedBy(me, old(q.accepted)) + (if err == Ok then [item] else [])
    ensures err == Ok ==> Fits(q.limits, item)
    ensures err in {Ok, InvalidState, InvalidSize, Timeout} && (Fits(q.limits, item) ==> err != InvalidSize)
    ensures old(q.created) && NoPushes(before) ==>
      && q.created && |q.queue| <= |old(q.queue)| + 1
      && (Fits(q.limits, item) && |old(q.queue)| < q.limits.queueLength ==> err == Ok)
  {
    ghost var was := q.State();
    if q.created && NoPushes(before) { NoPushesKeepRoom(q.limits, was, before); }
    q.Interfere(before);
    ForeignKeepsMine(q.limits, was, me, before);
    ghost var mid := q.accepted;
    err := q.PushItem(me, item.topic, item.data, item.qos, item.retain);
    RunSplit(q.limits, start, past, before);
    RunSplit(q.limits, start, past + before, [Push(me, item)]);
    events := past + before + [Push(me, item)];
    OwnedByAppend(me, mid, Sent(me, item));
  }

  /** What the transfer's components must share. */
  ghost predicate Fitted(topics: TopicTable, q: Queue, j: Job)
    reads topics
  {
    j.Valid() && topics.nodeId == j.node && topics.topicMax == q.limits.topicMax && j.chunkSize <= q.limits.dataMax
  }

  /** The byte range of one chunk, computed with wrapping size_t arithmetic, is its window of the image. */
  method CutWindow(j: Job, index: u32) returns (window: seq<byte>)
    requires j.Valid() && index < Count(j)
    ensures window == Window(j, index) && 0 < |window| <= j.chunkSize
    ensures index + 1 < Count(j) ==> |window| == j.chunkSize
  {
    WindowIsCut(j, index);
    ChunkIsInside(j.chunkSize, |j.data|, index);
    var offset := Wrap32(index * j.chunkSize);
    var remaining := Wrap32(|j.data| - offset);
    var chunkLen := if remaining > j.chunkSize then j.chunkSize else remaining;
    window := j.data[offset..offset + chunkLen];
  }

  /** One turn of the chunk loop. */
  method PublishChunk(topics: TopicTable, q: Queue, ghost me: nat, j: Job, env: TransferEnv, topic: TextBuffer, index: u32,
                      ghost start: QueueState, ghost past: seq<Event>)
    returns (err: Err, ghost events: seq<Event>)
    requires Fitted(topics, q, j) && index < Count(j) && j.captureId != "" && topic.capacity == topics.topicMax > 0
    requires (forall i :: AllForeign(me, env.script(i))) && q.State() == Run(q.limits, start, past)
    modifies q, q.client, topic
    ensures q.State() == Run(q.limits, start, events)
    ensures OwnedBy(me, q.accepted) == OwnedBy(me, old(q.accepted)) + (if err == Ok then [ChunkItem(j, index)] else [])
    ensures err in {Ok, Fail, InvalidSize}
    ensures err == InvalidSize <==> |Render(j.node, ImageChunk(j.captureId, index))| >= topics.topicMax
    ensures old(HasQueueToItself(q, env)) ==>
      && HasQueueToItself(q, env) && |q.queue| <= |old(q.queue)| + 1
      && (Fits(q.limits, ChunkItem(j, index)) && |old(q.queue)| < q.limits.queueLength ==> err == Ok)
  {
    events := past;
    err := topics.FormatImageChunk(topic, j.captureId, index);
    if err != Ok { return InvalidSize, events; }
    var window := CutWindow(j, index);
    err, events := PushAmongOthers(q, me, env.script(1 + index), Item(topic.text, window, 0, false), start, past);
    if err != Ok { err := Fail; }
  }

  /** Open the transfer. */
  method PublishMeta(topics: TopicTable, q: Queue, ghost me: nat, j: Job, env: TransferEnv, topic: TextBuffer,
                     ghost start: QueueState, ghost past: seq<Event>)
    returns (err: Err, ghost events: seq<Event>)
    requires Fitted(topics, q, j) && j.captureId != "" && topic.capacity == topics.topicMax
    requires (forall i :: AllForeign(me, env.script(i))) && q.State() == Run(q.limits, start, past)
    modifies q, q.client, topic
    ensures q.State() == Run(q.limits, start, events)
    ensures OwnedBy(me, q.accepted) == OwnedBy(me, old(q.accepted)) + (if err == Ok then [MetaItem(j)] else [])
    ensures err == Ok ==> |Render(j.node, ImageMeta(j.captureId))| < topics.topicMax
    ensures err == Ok ==> j.rendered(MetaOf(j)).Some?
    ensures err != Ok ==> StopsWith(j, topics.topicMax, env, 0, err)
    ensures old(HasQueueToItself(q, env)) ==>
      && HasQueueToItself(q, env) && |q.queue| <= |old(q.queue)| + 1
      && (Sendable(j, env, q.limits) && |old(q.queue)| < q.limits.queueLength ==> err == Ok)
  {
    events := past;
    assert PlanItem(j, 0) == MetaItem(j);
    var chunkCount := ChunkCount(j.chunkSize, |j.data|);
    err := topics.FormatImageMeta(topic, j.captureId);
    if err != Ok { return InvalidSize, events; }
    if !env.metaAlloc { return NoMem, events; }
    var payload := j.rendered(MetaDoc(j.captureId, MimeType(j.contentType), |j.data|, j.chunkSize, chunkCount));
    if payload.None? { return InvalidSize, events; }
    err, events := PushAmongOthers(q, me, env.script(0), Item(topic.text, payload.value, 1, false), start, past);
    if err != Ok { err := Fail; }
  }

  lemma ChunkStops(j: Job, capacity: nat, env: TransferEnv, index: u32, err: Err)
    requires j.Valid() && j.captureId != "" && index < Count(j) && err in {Fail, InvalidSize}
    requires err == InvalidSize <==> |Render(j.node, ImageChunk(j.captureId, index))| >= capacity
    requires index > 0 ==> |Render(j.node, ImageChunk(j.captureId, index - 1))| < capacity
    ensures StopsWith(j, capacity, env, index as int + 1, err)
  {
  }

  /** The chunk loop: it stops in front of chunk `index`, or has sent all of them. */
  method PublishChunks(topics: TopicTable, q: Queue, ghost me: nat, j: Job, env: TransferEnv, topic: TextBuffer,
                       ghost mine: seq<Item>, ghost start: QueueState, ghost past: seq<Event>)
    returns (err: Err, ghost index: u32, ghost events: seq<Event>)
    requires Fitted(topics, q, j) && j.captureId != "" && topic.capacity == topics.topicMax > 0
    requires (forall i :: AllForeign(me, env.script(i))) && q.State() == Run(q.limits, start, past)
    requires OwnedBy(me, q.accepted) == mine + Plan(j)[..1]
    modifies q, q.client, topic
    ensures q.State() == Run(q.limits, start, events)
    ensures index <= Count(j) && OwnedBy(me, q.accepted) == mine + Plan(j)[..index as int + 1]
    ensures err == Ok <==> index == Count(j)
    ensures err != Ok ==> StopsWith(j, topics.topicMax, env, index + 1, err)
    ensures old(HasQueueToItself(q, env)) ==>
      && HasQueueToItself(q, env) && |q.queue| <= |old(q.queue)| + Count(j)
      && (Sendable(j, env, q.limits) && |old(q.queue)| + Count(j) <= q.limits.queueLength ==> err == Ok)
  {
    err, index, events := Ok, 0, past;
    var next: u32 := 0;
    var chunkCount := ChunkCount(j.chunkSize, |j.data|);
    while next < chunkCount
      invariant index == next <= chunkCount && err == Ok
      invariant q.State() == Run(q.limits, start, events)
      invariant OwnedBy(me, q.accepted) == mine + Plan(j)[..index as int + 1]
      invariant index > 0 ==> |Render(j.node, ImageChunk(j.captureId, index - 1))| < topics.topicMax
      invariant old(HasQueueToItself(q, env)) ==> HasQueueToItself(q, env) && |q.queue| <= |old(q.queue)| + index
    {
      if Sendable(j, env, q.limits) { SendableChunkFits(j, env, q.limits, index); }
      PlanGrows(j, mine, index as int + 1, ChunkItem(j, index));
      err, events := PublishChunk(topics, q, me, j, env, topic, next, start, events);
      if err != Ok {
        ChunkStops(j, topics.topicMax, env, index, err);
        return;
      }
      next := next + 1;
      index := next;
    }
  }

  /** Close the transfer; the topic cannot fail here any more. */
  method PublishDone(topics: TopicTable, q: Queue, ghost me: nat, j: Job, env: TransferEnv, topic: TextBuffer,
                     ghost mine: seq<Item>, ghost start: QueueState, ghost past: seq<Event>)
    returns (err: Err, ghost events: seq<Event>)
    requires Fitted(topics, q, j) && j.captureId != "" && topic.capacity == topics.topicMax
    requires |Render(j.node, ImageMeta(j.captureId))| < topics.topicMax
    requires (forall i :: AllForeign(me, env.script(i))) && q.State() == Run(q.limits, start, past)
    requires OwnedBy(me, q.accepted) == mine + Plan(j)[..|Plan(j)| - 1]
    modifies q, q.client, topic
    ensures q.State() == Run(q.limits, start, events)
    ensures OwnedBy(me, q.accepted) == mine + Plan(j)[..if err == Ok then |Plan(j)| else |Plan(j)| - 1]
    ensures StopsWith(j, topics.topicMax, env, if err == Ok then |Plan(j)| else |Plan(j)| - 1, err)
    ensures err == Ok ==> j.rendered(DoneOf(j)).Some?
    ensures old(HasQueueToItself(q, env)) && Sendable(j, env, q.limits) && |old(q.queue)| < q.limits.queueLength ==> err == Ok
  {
    events := past;
    assert PlanItem(j, Count(j) as int + 1) == DoneItem(j);
    assert mine + Plan(j) == mine + Plan(j)[..|Plan(j)|];
    PlanGrows(j, mine, |Plan(j)| - 1, DoneItem(j));
    var chunkCount := ChunkCount(j.chunkSize, |j.data|);
    DoneFitsWhenMetaDoes(j.node, j.captureId);
    err := topics.FormatImageDone(topic, j.captureId);
    if err != Ok { return InvalidSize, events; }
    if !env.doneAlloc { return NoMem, events; }
    var payload := j.rendered(DoneDoc(j.captureId, chunkCount));
    if payload.None? { return InvalidSize, events; }
    var step := chunkCount as int + 1;
    err, events := PushAmongOthers(q, me, env.script(step), Item(topic.text, payload.value, 1, false), start, past);
  }

  /** Everything after the metadata has been pushed. */
  method PublishRest(topics: TopicTable, q: Queue, ghost me: nat, j: Job, env: TransferEnv, topic: TextBuffer,
                     ghost mine: seq<Item>, ghost start: QueueState, ghost past: seq<Event>)
    returns (err: Err, ghost sent: nat, ghost events: seq<Event>)
    requires Fitted(topics, q, j) && j.captureId != "" && topic.capacity == topics.topicMax
    requires |Render(j.node, ImageMeta(j.captureId))| < topics.topicMax
    requires (forall i :: AllForeign(me, env.script(i))) && q.State() == Run(q.limits, start, past)
    requires OwnedBy(me, q.accepted) == mine + Plan(j)[..1]
    modifies q, q.client, topic
    ensures q.State() == Run(q.limits, start, events)
    ensures 0 < sent <= |Plan(j)| && OwnedBy(me, q.accepted) == mine + Plan(j)[..sent]
    ensures StopsWith(j, topics.topicMax, env, sent, err)
    ensures err == Ok ==> j.rendered(DoneOf(j)).Some?
    ensures old(HasQueueToItself(q, env)) && Sendable(j, env, q.limits) && |old(q.queue)| + Count(j) < q.limits.queueLength ==>
      err == Ok
  {
    ghost var index;
    err, index, events := PublishChunks(topics, q, me, j, env, topic, mine, start, past);
    sent := index as int + 1;
    if err != Ok { return; }
    err, events := PublishDone(topics, q, me, j, env, topic, mine, start, events);
    if err == Ok { sent := sent + 1; }
  }

  /** The whole transfer: `sent` messages of the plan are pushed, in order, whatever happens in between; it reports OK
      exactly when all of them are, and otherwise the reason why it stopped there. With the queue to itself, room for the
      whole plan and nothing too long, it reports OK. */
  method Publish(topics: TopicTable, q: Queue, ghost me: nat, j: Job, env: TransferEnv)
    returns (err: Err, ghost sent: nat, ghost events: seq<Event>)
    requires Fitted(topics, q, j)
    requires forall i :: AllForeign(me, env.script(i))
    modifies q, q.client
    ensures q.State() == Run(q.limits, old(q.State()), events)
    ensures sent <= |Plan(j)| && OwnedBy(me, q.accepted) == OwnedBy(me, old(q.accepted)) + Plan(j)[..sent]
    ensures err == Ok <==> sent == |Plan(j)|
    ensures StopsWith(j, topics.topicMax, env, sent, err)
    ensures sent > 0 ==> j.rendered(MetaOf(j)).Some?
    ensures err == Ok ==> j.rendered(DoneOf(j)).Some?
    ensures old(HasQueueToItself(q, env)) && Sendable(j, env, q.limits) && |old(q.queue)| + |Plan(j)| <= q.limits.queueLength ==>
      err == Ok
  {
    sent, events := 0, [];
    if j.captureId == "" { return InvalidArg, sent, events; }
    ghost var mine := OwnedBy(me, q.accepted);
    var topic := new TextBuffer(topics.topicMax);
    err, events := PublishMeta(topics, q, me, j, env, topic, old(q.State()), []);
    if err != Ok { return; }
    PlanGrows(j, mine, 0, MetaItem(j));
    err, sent, events := PublishRest(topics, q, me, j, env, topic, mine, old(q.State()), events);
  }
}
