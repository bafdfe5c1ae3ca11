/** A receiver that knows node and capture and learns everything else from the messages. */
module ImageReceiver {
  import opened Base
  import opened MqttService
  import opened PublishQueue
  import opened TopicMap
  import opened ImageTransfer
  import opened ImageDelivery
  import Decimal

  // ---------------------------------------------------------------------------------------------
  // What the messages look like.

  /** Topics, quality of service and retain flag of a transfer: only the chunks are sent at most once. */
  lemma PlanIsAsDocumented(j: Job, i: nat)
    requires j.Valid() && i < |Plan(j)|
    ensures var base := "vision/nodes/" + j.node + "/image/" + j.captureId;
      && !Plan(j)[i].retain
      && Plan(j)[i].qos == (if 0 < i < |Plan(j)| - 1 then 0 else 1)
      && Plan(j)[i].topic ==
           if i == 0 then base + "/meta" else if i == |Plan(j)| - 1 then base + "/done" else base + "/chunk/" + Decimal.Print(i - 1)
  {
    assert Plan(j)[i] == PlanItem(j, i);
    ImageTexts(j.node, j.captureId);
    if 0 < i < |Plan(j)| - 1 { ChunkText(j.node, j.captureId, Decimal.Print(i - 1)); }
  }

  lemma ImageTexts(node: string, id: string)
    ensures Render(node, ImageMeta(id)) == "vision/nodes/" + node + "/image/" + id + "/meta"
    ensures Render(node, ImageDone(id)) == "vision/nodes/" + node + "/image/" + id + "/done"
  {
    assert "/" + "image/" == "/image/" && "/" + "meta" == "/meta" && "/" + "done" == "/done";
    WordBehind(NodeBase(node), id, "meta");
    WordBehind(NodeBase(node), id, "done");
  }

  lemma WordBehind(base: string, id: string, word: string)
    ensures base + "/" + ("image/" + (id + "/" + word)) == base + ("/" + "image/") + id + ("/" + word)
  {
  }

  // ---------------------------------------------------------------------------------------------
  // Reading the documents.

  type Parser = seq<byte> -> Option<Doc>

  /** The parser reads every document back that the node prints. */
  ghost predicate Inverts(parse: Parser, j: Job) {
    forall d :: j.rendered(d).Some? ==> parse(j.rendered(d).value) == Some(d)
  }

  /** The metadata names the capture, the caller's content type or the generic one, and size and number of what follows. */
  ghost predicate AnnouncesTransfer(j: Job, doc: Option<Doc>)
    requires j.Valid()
  {
    var contentType := if j.contentType == "" then "application/octet-stream" else j.contentType;
    doc == Some(MetaDoc(j.captureId, contentType, |j.data|, j.chunkSize, |Plan(j)| - 2))
  }

  ghost predicate ConfirmsTransfer(j: Job, doc: Option<Doc>)
    requires j.Valid()
  {
    doc == Some(DoneDoc(j.captureId, |Plan(j)| - 2))
  }

  lemma DocumentsAreRead(j: Job, parse: Parser)
    requires j.Valid() && Inverts(parse, j)
    ensures j.rendered(MetaOf(j)).Some? ==> AnnouncesTransfer(j, parse(Plan(j)[0].data))
    ensures j.rendered(DoneOf(j)).Some? ==> ConfirmsTransfer(j, parse(Plan(j)[|Plan(j)| - 1].data))
  {
    assert Plan(j)[0] == PlanItem(j, 0);
    assert Plan(j)[|Plan(j)| - 1] == PlanItem(j, |Plan(j)| - 1);
  }

  // ---------------------------------------------------------------------------------------------
  // Knowing when the image is complete.

  function IndexIn(node: string, id: string, item: Item): Option<nat> {
    match Decode(node, item.topic)
    case Some(ImageChunk(captureId, index)) => if captureId == id then Some(index) else None
    case _ => None
  }

  /** The distinct chunk indices received for a capture. */
  function Indices(node: string, id: string, received: seq<Item>): set<nat> {
    set x | x in received && IndexIn(node, id, x).Some? :: IndexIn(node, id, x).value
  }

  lemma UnrelatedHasNoIndex(node: string, id: string, item: Item)
    requires Unrelated(node, id, item.topic)
    ensures IndexIn(node, id, item).None?
  {
    var t := Decode(node, item.topic);
    if t.Some? { DecodeInvertsRender(node, item.topic, t.value); }
  }

  lemma ChunkHasIndex(j: Job, index: u32)
    requires j.Valid() && index < Count(j)
    ensures IndexIn(j.node, j.captureId, ChunkItem(j, index)) == Some(index)
  {
    DecodeInvertsRender(j.node, ChunkItem(j, index).topic, ImageChunk(j.captureId, index));
  }

  /** The indices received are those of the chunks received. */
  lemma IndicesAreChunks(j: Job, received: seq<Item>, index: nat)
    requires j.Valid() && OnlyOurChunks(j, received)
    ensures index in Indices(j.node, j.captureId, received) <==> index < Count(j) && ChunkItem(j, index) in received
  {
    if index in Indices(j.node, j.captureId, received) {
      var x :| x in received && IndexIn(j.node, j.captureId, x) == Some(index);
      if Unrelated(j.node, j.captureId, x.topic) {
        UnrelatedHasNoIndex(j.node, j.captureId, x);
      } else {
        var i: u32 :| i < Count(j) && x == ChunkItem(j, i);
        ChunkHasIndex(j, i);
      }
    }
    if index < Count(j) && ChunkItem(j, index) in received { ChunkHasIndex(j, index); }
  }

  function Below(n: nat): (r: set<int>)
    ensures forall i :: i in r <==> 0 <= i < n
    ensures |r| == n
  {
    if n == 0 then {} else Below(n - 1) + {n - 1}
  }

  /** A part of the numbers below `n` is all of them exactly when it has `n` members. */
  lemma AllBelow(s: set<int>, n: nat)
    requires s <= Below(n)
    ensures |s| == n <==> s == Below(n)
  {
    if |s| == n {
      var missing := Below(n) - s;
      assert |Below(n)| == |missing| + |s|;
      assert missing == {};
    }
  }

  /** Enough distinct indices means every chunk. */
  lemma CountDecides(j: Job, received: seq<Item>)
    requires j.Valid() && OnlyOurChunks(j, received)
    ensures |Indices(j.node, j.captureId, received)| == Count(j) <==>
      forall index: u32 | index < Count(j) :: ChunkItem(j, index) in received
  {
    var s := Indices(j.node, j.captureId, received);
    forall index: nat ensures index in s <==> index < Count(j) && ChunkItem(j, index) in received {
      IndicesAreChunks(j, received, index);
    }
    AllBelow(s, Count(j));
    if forall index: u32 | index < Count(j) :: ChunkItem(j, index) in received {
      forall index | index in Below(Count(j)) ensures index in s { assert ChunkItem(j, index) in received; }
    }
  }

  /** Every byte held came with a chunk that covers it. */
  lemma {:induction false} HeldByteHasChunk(j: Job, received: seq<Item>, p: int) returns (index: u32)
    requires j.Valid() && OnlyOurChunks(j, received) && p in Rebuild(j.node, j.captureId, j.chunkSize, received)
    ensures index < Count(j) && ChunkItem(j, index) in received
    ensures index * j.chunkSize <= p < index * j.chunkSize + |Window(j, index)|
    decreases |received|
  {
    var front, x := received[..|received| - 1], received[|received| - 1];
    var before := Rebuild(j.node, j.captureId, j.chunkSize, front);
    assert x in received;
    if p in before {
      index := HeldByteHasChunk(j, front, p);
    } else {
      if Unrelated(j.node, j.captureId, x.topic) { UnrelatedIsIgnored(j.node, j.captureId, j.chunkSize, before, x); }
      index :| index < Count(j) && x == ChunkItem(j, index);
      ChunkIsPlaced(j, before, index);
    }
  }

  lemma WindowStarts(j: Job, index: u32)
    requires j.Valid() && index < Count(j)
    ensures 0 <= index * j.chunkSize < |j.data| && 0 < |Window(j, index)| <= j.chunkSize
  {
    ChunkIsInside(j.chunkSize, |j.data|, index);
    Monotone(0, index, j.chunkSize);
    WindowIsCut(j, index);
  }

  /** Windows do not overlap: the one that covers the start of another is that other. */
  lemma StartHasOneWindow(c: nat, i: nat, k: nat)
    requires c > 0 && i * c <= k * c < i * c + c
    ensures i == k
  {
    assert (i + 1) * c == i * c + c && (k + 1) * c == k * c + c;
    if i < k { Monotone(i + 1, k, c); }
    if k < i { Monotone(k + 1, i, c); }
  }

  /** A chunk whose first byte is held has been received. */
  lemma HeldStartMeansReceived(j: Job, received: seq<Item>, index: u32)
    requires j.Valid() && OnlyOurChunks(j, received) && index < Count(j)
    requires index * j.chunkSize in Rebuild(j.node, j.captureId, j.chunkSize, received)
    ensures ChunkItem(j, index) in received
  {
    var i := HeldByteHasChunk(j, received, index * j.chunkSize);
    WindowStarts(j, i);
    StartHasOneWindow(j.chunkSize, i, index);
  }

  lemma WholePictureNeedsAllChunks(j: Job, received: seq<Item>)
    requires j.Valid() && OnlyOurChunks(j, received)
    requires Rebuild(j.node, j.captureId, j.chunkSize, received) == PictureOf(j.data)
    ensures forall index: u32 | index < Count(j) :: ChunkItem(j, index) in received
  {
    forall index: u32 | index < Count(j) ensures ChunkItem(j, index) in received {
      WindowStarts(j, index);
      HeldStartMeansReceived(j, received, index);
    }
  }

  /** A picture without a wrong byte is the image exactly when it holds as many bytes. */
  lemma SizeDecides(data: seq<byte>, picture: Picture)
    requires forall p | p in picture :: 0 <= p < |data| && picture[p] == data[p]
    ensures |picture| == |data| <==> picture == PictureOf(data)
  {
    assert |picture| == |picture.Keys|;
    assert PictureOf(data).Keys == Below(|data|);
    AllBelow(picture.Keys, |data|);
  }

  /** A receiver that has got some of the chunks, in any order and multiplicity, among unrelated messages, can tell from
      the numbers in the metadata alone whether it holds the image: the distinct indices are as many as announced exactly
      when the bytes are, and exactly when the picture is the image. */
  lemma CompleteExactly(j: Job, m: Doc, received: seq<Item>)
    requires j.Valid() && CountIsExact(j.chunkSize, |j.data|) && OnlyOurChunks(j, received) && AnnouncesTransfer(j, Some(m))
    ensures var picture := Rebuild(j.node, m.captureId, m.chunkSize, received);
      && (|Indices(j.node, m.captureId, received)| == m.chunkCount <==> picture == PictureOf(j.data))
      && (|picture| == m.totalSize <==> picture == PictureOf(j.data))
  {
    var picture := Rebuild(j.node, j.captureId, j.chunkSize, received);
    CountDecides(j, received);
    if forall index: u32 | index < Count(j) :: ChunkItem(j, index) in received { RebuildIsExact(j, received); }
    if picture == PictureOf(j.data) { WholePictureNeedsAllChunks(j, received); }
    forall p | p in picture ensures 0 <= p < |j.data| && picture[p] == j.data[p] { RebuildIsSound(j, received, p); }
    SizeDecides(j.data, picture);
  }

  // ---------------------------------------------------------------------------------------------
  // The whole way.

  /** Not a topic of this capture. */
  ghost predicate Elsewhere(j: Job, topic: string) {
    && Unrelated(j.node, j.captureId, topic)
    && topic != Render(j.node, ImageMeta(j.captureId)) && topic != Render(j.node, ImageDone(j.captureId))
  }

  /** Other producers, the presence message and immediate replies never use a topic of this capture. */
  ghost predicate OthersAreElsewhere(j: Job, me: nat, s: QueueState) {
    && (forall x | x in s.accepted && x.owner != me :: Elsewhere(j, x.item.topic))
    && (forall w | w in s.link.wire && !w.queued :: Elsewhere(j, w.item.topic))
  }

  /** Everything the node publishes about other things is elsewhere. */
  lemma OtherTopicsAreElsewhere(j: Job, t: Topic)
    requires !((t.ImageChunk? || t.ImageMeta? || t.ImageDone?) && t.id == j.captureId)
    ensures Elsewhere(j, Render(j.node, t))
  {
    OtherTopicsAreUnrelated(j.node, j.captureId, t);
    DifferentTopics(j.node, t, ImageMeta(j.captureId));
    DifferentTopics(j.node, t, ImageDone(j.captureId));
  }

  /** There is metadata and a done marker, all of them say the same, and with the metadata's own numbers the receiver finds
      its chunks complete and holds the image. */
  ghost predicate Understands(j: Job, parse: Parser, received: seq<Item>)
    requires j.Valid()
  {
    var meta, done := Render(j.node, ImageMeta(j.captureId)), Render(j.node, ImageDone(j.captureId));
    && (exists x :: x in received && x.topic == meta)
    && (exists x :: x in received && x.topic == done)
    && (forall x | x in received && x.topic == meta ::
          AnnouncesTransfer(j, parse(x.data)) && HoldsImage(j, parse(x.data).value, received))
    && (forall x | x in received && x.topic == done :: ConfirmsTransfer(j, parse(x.data)))
  }

  ghost predicate HoldsImage(j: Job, m: Doc, received: seq<Item>)
    requires j.Valid() && m.MetaDoc?
  {
    CountIsExact(j.chunkSize, |j.data|) ==>
      && |Indices(j.node, m.captureId, received)| == m.chunkCount
      && |Rebuild(j.node, m.captureId, m.chunkSize, received)| == m.totalSize
      && Rebuild(j.node, m.captureId, m.chunkSize, received) == PictureOf(j.data)
  }

  lemma PlanTopicDecides(j: Job, x: Item)
    requires j.Valid() && x in Plan(j)
    ensures x.topic == Render(j.node, ImageMeta(j.captureId)) ==> x == Plan(j)[0]
    ensures x.topic == Render(j.node, ImageDone(j.captureId)) ==> x == Plan(j)[|Plan(j)| - 1]
  {
    var i: nat :| i < |Plan(j)| && Plan(j)[i] == x;
    assert Plan(j)[i] == PlanItem(j, i);
    DifferentTopics(j.node, ImageMeta(j.captureId), ImageDone(j.captureId));
    if 0 < i < |Plan(j)| - 1 {
      DifferentTopics(j.node, ImageChunk(j.captureId, i - 1), ImageMeta(j.captureId));
      DifferentTopics(j.node, ImageChunk(j.captureId, i - 1), ImageDone(j.captureId));
    }
  }

  /** What arrives on a topic of this capture is from its plan. */
  lemma ArrivedFromPlan(lim: Limits, s: QueueState, me: nat, j: Job, received: seq<Item>, x: Item)
    requires j.Valid() && Invariant(lim, s) && Undelivered(s) == [] && OwnedBy(me, s.accepted) == Plan(j)
    requires OthersAreElsewhere(j, me, s) && Received(s.link.wire, received)
    requires x in received && !Elsewhere(j, x.topic)
    ensures x in Plan(j)
  {
    assert Wire(true, x) in s.link.wire;
    DrainedMembers(lim, s, x);
    var owner: nat :| Sent(owner, x) in s.accepted;
    OwnedMembers(me, s.accepted, x);
  }

  lemma PlanArrives(lim: Limits, s: QueueState, me: nat, j: Job, received: seq<Item>, i: nat)
    requires j.Valid() && Invariant(lim, s) && Undelivered(s) == [] && OwnedBy(me, s.accepted) == Plan(j)
    requires Received(s.link.wire, received) && i < |Plan(j)|
    ensures Plan(j)[i] in received
  {
    var x := Plan(j)[i];
    OwnedMembers(me, s.accepted, x);
    DrainedMembers(lim, s, x);
  }

  lemma ReceiverUnderstands(lim: Limits, s: QueueState, me: nat, j: Job, parse: Parser, received: seq<Item>)
    requires j.Valid() && Invariant(lim, s) && Undelivered(s) == [] && OwnedBy(me, s.accepted) == Plan(j)
    requires j.rendered(MetaOf(j)).Some? && j.rendered(DoneOf(j)).Some? && Inverts(parse, j)
    requires OthersAreElsewhere(j, me, s) && Received(s.link.wire, received)
    ensures Understands(j, parse, received)
  {
    DocumentsAreRead(j, parse);
    PlanArrives(lim, s, me, j, received, 0);
    PlanArrives(lim, s, me, j, received, |Plan(j)| - 1);
    assert Plan(j)[0] == PlanItem(j, 0) && Plan(j)[|Plan(j)| - 1] == PlanItem(j, |Plan(j)| - 1);
    var meta, done := Render(j.node, ImageMeta(j.captureId)), Render(j.node, ImageDone(j.captureId));
    forall x | x in received && x.topic == meta
      ensures AnnouncesTransfer(j, parse(x.data)) && HoldsImage(j, parse(x.data).value, received)
    {
      ArrivedFromPlan(lim, s, me, j, received, x);
      PlanTopicDecides(j, x);
      MetadataSuffices(lim, s, me, j, parse(x.data).value, received);
    }
    forall x | x in received && x.topic == done ensures ConfirmsTransfer(j, parse(x.data)) {
      ArrivedFromPlan(lim, s, me, j, received, x);
      PlanTopicDecides(j, x);
    }
  }

  lemma MetadataSuffices(lim: Limits, s: QueueState, me: nat, j: Job, m: Doc, received: seq<Item>)
    requires j.Valid() && Invariant(lim, s) && Undelivered(s) == [] && OwnedBy(me, s.accepted) == Plan(j)
    requires OthersAreElsewhere(j, me, s) && Received(s.link.wire, received) && AnnouncesTransfer(j, Some(m))
    ensures HoldsImage(j, m, received)
  {
    DeliveredChunks(lim, s, me, j, received);
    if CountIsExact(j.chunkSize, |j.data|) {
      RebuildIsExact(j, received);
      CompleteExactly(j, m, received);
    }
  }

  lemma AllUnderstand(lim: Limits, events: seq<Event>, me: nat, j: Job, parse: Parser)
    requires j.Valid() && OwnedBy(me, Run(lim, BOOT, events).accepted) == Plan(j)
    requires Undelivered(Run(lim, BOOT, events)) == []
    requires j.rendered(MetaOf(j)).Some? && j.rendered(DoneOf(j)).Some? && Inverts(parse, j)
    requires OthersAreElsewhere(j, me, Run(lim, BOOT, events))
    ensures forall received | Received(Run(lim, BOOT, events).link.wire, received) :: Understands(j, parse, received)
  {
    RunKeepsInvariant(lim, BOOT, events);
    forall received | Received(Run(lim, BOOT, events).link.wire, received) ensures Understands(j, parse, received) {
      ReceiverUnderstands(lim, Run(lim, BOOT, events), me, j, parse, received);
    }
  }

  /** The whole pipeline: a transfer among other tasks on a node that is up, whatever they do until the worker's next
      attempt, and then the worker under any refusals and reconnects. At every moment the delivered part is a prefix, the
      completion marker arrives exactly when the transfer reports OK, and then every receiver rebuilds the image, if and
      only if the chunk count did not wrap; one that can read the documents needs to know nothing but node and capture. */
  method TransferAndDrain(topics: TopicTable, q: Queue, ghost me: nat, j: Job, env: TransferEnv, after: seq<Event>,
                          script: bool -> Script, k: nat, ghost parse: Parser, ghost past: seq<Event>)
    returns (err: Err, ghost events: seq<Event>)
    requires Fitted(topics, q, j) && (forall i :: AllForeign(me, env.script(i))) && AllForeign(me, after)
    requires q.State() == Run(q.limits, BOOT, past) && OwnedBy(me, q.accepted) == []
    requires q.handle && q.client.created
    requires forall up :: script(up).upFirst == up && script(up).Valid() && script(up).Quiet()
    requires forall up :: script(up).GivesWayWithin(k)
    modifies q, q.client
    ensures q.State() == Run(q.limits, BOOT, events) && Undelivered(q.State()) == []
    ensures forall n | 0 <= n <= |events| :: DeliversPrefix(Run(q.limits, BOOT, events[..n]), me, j)
    ensures err == Ok <==> CompletionDelivered(q.State(), me, j)
    ensures err == Ok && OthersUnrelated(j, me, q.State()) ==> ReceiversGetImage(q.client.wire, j)
    ensures err == Ok && OthersAreElsewhere(j, me, q.State()) && Inverts(parse, j) ==>
      forall received | Received(q.client.wire, received) :: Understands(j, parse, received)
  {
    ghost var sent, published;
    err, sent, published := Publish(topics, q, me, j, env);
    RunSplit(q.limits, BOOT, past, published);
    RunKeepsInvariant(q.limits, BOOT, past);
    RunKeepsInvariant(q.limits, Run(q.limits, BOOT, past), published + after);
    RunSplit(q.limits, Run(q.limits, BOOT, past), published, after);
    events := past + published + after;
    ForeignKeepsMine(q.limits, q.State(), me, after);
    q.Interfere(after);
    RunSplit(q.limits, BOOT, past + published, after);
    var _, drained := q.Drain(script(q.client.connected), k);
    RunSplit(q.limits, BOOT, events, drained);
    events := events + drained;
    TransferEnds(q.limits, events, me, j, sent);
    if err == Ok && OthersAreElsewhere(j, me, q.State()) && Inverts(parse, j) {
      AllUnderstand(q.limits, events, me, j, parse);
    }
  }
}
