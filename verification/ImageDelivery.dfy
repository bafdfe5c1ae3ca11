/** What a subscriber gets: prefix safety of a transfer and the rebuilt image. */
module ImageDelivery {
  import opened Base
  import opened MqttService
  import opened PublishQueue
  import opened TopicMap
  import opened ImageTransfer

  // ---------------------------------------------------------------------------------------------
  // Prefix safety.

  /** The completion marker occurs once in the plan, at its end. */
  lemma DoneIsLast(j: Job, i: nat)
    requires j.Valid() && i < |Plan(j)| && Plan(j)[i] == DoneItem(j)
    ensures i == |Plan(j)| - 1
  {
    DifferentTopics(j.node, ImageMeta(j.captureId), ImageDone(j.captureId));
    forall index: u32 | index < Count(j) ensures ChunkItem(j, index) != DoneItem(j) {
      DifferentTopics(j.node, ImageChunk(j.captureId, index), ImageDone(j.captureId));
    }
    assert Plan(j)[i] == PlanItem(j, i);
  }

  lemma DifferentTopics(node: string, t: Topic, u: Topic)
    requires t != u
    ensures Render(node, t) != Render(node, u)
  {
    if Render(node, t) == Render(node, u) { RenderIsInjective(node, t, u); }
  }

  /** What has been delivered of the job is a prefix of metadata, chunks 0 to n - 1, done; so a delivered done marker means
      that everything before it was delivered before it. */
  ghost predicate DeliversPrefix(s: QueueState, me: nat, j: Job)
    requires j.Valid()
  {
    && |Queued(s.link.wire)| <= |s.accepted|
    && Queued(s.link.wire) == Items(Delivered(s))
    && OwnedBy(me, Delivered(s)) <= Plan(j)
    && (DoneItem(j) in OwnedBy(me, Delivered(s)) ==> OwnedBy(me, Delivered(s)) == Plan(j))
  }

  /** However a transfer ends, at every moment before and after that end the delivered part is a prefix. */
  lemma PrefixSafety(lim: Limits, before: seq<Event>, rest: seq<Event>, me: nat, j: Job, sent: nat)
    requires j.Valid() && sent <= |Plan(j)|
    requires OwnedBy(me, Run(lim, BOOT, before + rest).accepted) == Plan(j)[..sent]
    ensures OwnedBy(me, Run(lim, BOOT, before).accepted) <= Plan(j)[..sent]
    ensures DeliversPrefix(Run(lim, BOOT, before), me, j)
  {
    HistoryGrows(lim, before, rest, me);
    DeliveryOrder(lim, before, me);
    var s := Run(lim, BOOT, before);
    if DoneItem(j) in OwnedBy(me, Delivered(s)) { PrefixEndsWithDone(j, OwnedBy(me, Delivered(s))); }
  }

  /** What a producer had pushed earlier is a prefix of what it has pushed later. */
  lemma HistoryGrows(lim: Limits, before: seq<Event>, rest: seq<Event>, me: nat)
    ensures OwnedBy(me, Run(lim, BOOT, before).accepted) <= OwnedBy(me, Run(lim, BOOT, before + rest).accepted)
  {
    RunSplit(lim, BOOT, before, rest);
    var s, t := Run(lim, BOOT, before), Run(lim, BOOT, before + rest);
    RunKeepsInvariant(lim, BOOT, before);
    RunKeepsInvariant(lim, s, rest);
    assert s.accepted == t.accepted[..|s.accepted|];
    OwnedByPrefix(me, t.accepted, |s.accepted|);
  }

  lemma PrefixEndsWithDone(j: Job, mine: seq<Item>)
    requires j.Valid() && mine <= Plan(j) && DoneItem(j) in mine
    ensures mine == Plan(j)
  {
    var i: nat :| i < |mine| && mine[i] == DoneItem(j);
    assert Plan(j)[i] == DoneItem(j);
    DoneIsLast(j, i);
  }

  // ---------------------------------------------------------------------------------------------
  // The receiver.

  type Picture = map<int, byte>

  function ByteAt(bytes: seq<byte>, start: int, p: int): byte
    requires start <= p < start + |bytes|
  {
    bytes[p - start]
  }

  /** The bytes at the positions from `start` on. */
  function PictureAt(start: int, bytes: seq<byte>): Picture {
    map p | start <= p < start + |bytes| :: ByteAt(bytes, start, p)
  }

  /** Put one received payload where its topic says. */
  function Place(node: string, id: string, chunkSize: nat, picture: Picture, item: Item): Picture {
    match Decode(node, item.topic)
    case Some(ImageChunk(captureId, index)) =>
      if captureId == id
      then picture + PictureAt(index * chunkSize, item.data)
      else picture
    case _ => picture
  }

  /** Everything received, in order of arrival, placed by topic alone. */
  function Rebuild(node: string, id: string, chunkSize: nat, received: seq<Item>): Picture {
    if |received| == 0 then map[]
    else Place(node, id, chunkSize, Rebuild(node, id, chunkSize, received[..|received| - 1]), received[|received| - 1])
  }

  function PictureOf(data: seq<byte>): Picture { PictureAt(0, data) }

  /** The topic is not one of this capture's chunk topics. */
  ghost predicate Unrelated(node: string, id: string, topic: string) {
    forall index: nat :: topic != Render(node, ImageChunk(id, index))
  }

  /** Everything the node publishes apart from the chunks of this capture is unrelated to it. */
  lemma OtherTopicsAreUnrelated(node: string, id: string, t: Topic)
    requires !(t.ImageChunk? && t.id == id)
    ensures Unrelated(node, id, Render(node, t))
  {
    forall index: nat ensures Render(node, t) != Render(node, ImageChunk(id, index)) {
      DifferentTopics(node, t, ImageChunk(id, index));
    }
  }

  lemma UnrelatedIsIgnored(node: string, id: string, chunkSize: nat, picture: Picture, item: Item)
    requires Unrelated(node, id, item.topic)
    ensures Place(node, id, chunkSize, picture, item) == picture
  {
    var t := Decode(node, item.topic);
    if t.Some? { DecodeInvertsRender(node, item.topic, t.value); }
  }

  lemma ChunkIsPlaced(j: Job, picture: Picture, index: u32)
    requires j.Valid() && index < Count(j)
    ensures Place(j.node, j.captureId, j.chunkSize, picture, ChunkItem(j, index)) ==
      picture + PictureAt(index * j.chunkSize, Window(j, index))
  {
    var item := ChunkItem(j, index);
    DecodeInvertsRender(j.node, item.topic, ImageChunk(j.captureId, index));
  }

  /** Received items are chunks of this job or unrelated to it. */
  ghost predicate OnlyOurChunks(j: Job, received: seq<Item>)
    requires j.Valid()
  {
    forall x | x in received ::
      Unrelated(j.node, j.captureId, x.topic) || exists index: u32 :: index < Count(j) && x == ChunkItem(j, index)
  }

  /** Only bytes of the image are ever placed, each at its own position. */
  lemma {:induction false} RebuildIsSound(j: Job, received: seq<Item>, p: int)
    requires j.Valid() && OnlyOurChunks(j, received)
    requires p in Rebuild(j.node, j.captureId, j.chunkSize, received)
    ensures 0 <= p < |j.data| && Rebuild(j.node, j.captureId, j.chunkSize, received)[p] == j.data[p]
    decreases |received|
  {
    if |received| > 0 {
      var front, x := received[..|received| - 1], received[|received| - 1];
      var before := Rebuild(j.node, j.captureId, j.chunkSize, front);
      if p in before { RebuildIsSound(j, front, p); }
      if Unrelated(j.node, j.captureId, x.topic) {
        UnrelatedIsIgnored(j.node, j.captureId, j.chunkSize, before, x);
      } else {
        var index: u32 :| index < Count(j) && x == ChunkItem(j, index);
        ChunkIsPlaced(j, before, index);
        WindowBytes(j, index, p);
      }
    }
  }

  lemma WindowBytes(j: Job, index: u32, p: int)
    requires j.Valid() && index < Count(j)
    ensures index * j.chunkSize <= p < index * j.chunkSize + |Window(j, index)| ==>
      0 <= p < |j.data| && ByteAt(Window(j, index), index * j.chunkSize, p) == j.data[p]
  {
    ChunkIsInside(j.chunkSize, |j.data|, index);
    Monotone(0, index, j.chunkSize);
  }

  lemma PlacingOnlyAdds(node: string, id: string, chunkSize: nat, picture: Picture, item: Item)
    ensures picture.Keys <= Place(node, id, chunkSize, picture, item).Keys
  {
  }

  /** A received chunk leaves its whole window filled, whatever arrives before or after it. */
  lemma {:induction false} ChunkStaysPlaced(j: Job, received: seq<Item>, index: u32, p: int)
    requires j.Valid() && index < Count(j) && ChunkItem(j, index) in received
    requires index * j.chunkSize <= p < index * j.chunkSize + |Window(j, index)|
    ensures p in Rebuild(j.node, j.captureId, j.chunkSize, received)
    decreases |received|
  {
    var front, x := received[..|received| - 1], received[|received| - 1];
    var before := Rebuild(j.node, j.captureId, j.chunkSize, front);
    if x == ChunkItem(j, index) {
      ChunkIsPlaced(j, before, index);
    } else {
      assert received == front + [x];
      ChunkStaysPlaced(j, front, index, p);
      PlacingOnlyAdds(j.node, j.captureId, j.chunkSize, before, x);
    }
  }

  lemma PositionHasChunk(j: Job, p: nat) returns (index: u32)
    requires j.Valid() && p < |j.data| && CountIsExact(j.chunkSize, |j.data|)
    ensures index < Count(j) && index * j.chunkSize <= p < index * j.chunkSize + |Window(j, index)|
  {
    var c := j.chunkSize;
    ChunkCountCovers(c, |j.data|);
    QuotientBrackets(p, c);
    var q := p / c;
    if q >= Count(j) { Monotone(Count(j), q, c); }
    Monotone(0, q, c);
    index := q;
    ChunkIsInside(c, |j.data|, index);
  }

  /** A receiver that has got every message of a completed transfer, each at least once and in any order, together with
      anything unrelated, holds exactly the image - if and only if the chunk count did not wrap. */
  lemma RebuildIsExact(j: Job, received: seq<Item>)
    requires j.Valid() && OnlyOurChunks(j, received)
    requires forall index: u32 | index < Count(j) :: ChunkItem(j, index) in received
    ensures Rebuild(j.node, j.captureId, j.chunkSize, received) == PictureOf(j.data) <==> CountIsExact(j.chunkSize, |j.data|)
  {
    var picture := Rebuild(j.node, j.captureId, j.chunkSize, received);
    forall p | p in picture ensures 0 <= p < |j.data| && picture[p] == j.data[p] { RebuildIsSound(j, received, p); }
    if CountIsExact(j.chunkSize, |j.data|) {
      forall p: nat | p < |j.data| ensures p in picture {
        var index := PositionHasChunk(j, p);
        ChunkStaysPlaced(j, received, index, p);
      }
      assert picture == PictureOf(j.data);
    } else {
      ChunkCountCovers(j.chunkSize, |j.data|);
      NothingRebuilt(j, received);
      assert 0 in PictureOf(j.data);
    }
  }

  lemma {:induction false} NothingRebuilt(j: Job, received: seq<Item>)
    requires j.Valid() && OnlyOurChunks(j, received) && Count(j) == 0
    ensures Rebuild(j.node, j.captureId, j.chunkSize, received) == map[]
    decreases |received|
  {
    if |received| > 0 {
      var front, x := received[..|received| - 1], received[|received| - 1];
      assert x in received;
      NothingRebuilt(j, front);
      UnrelatedIsIgnored(j.node, j.captureId, j.chunkSize, map[], x);
    }
  }

  // ---------------------------------------------------------------------------------------------
  // End to end.

  /** Another producer, the presence message or an immediate reply never uses this capture's chunk topics. */
  ghost predicate OthersUnrelated(j: Job, me: nat, s: QueueState) {
    && (forall x | x in s.accepted && x.owner != me :: Unrelated(j.node, j.captureId, x.item.topic))
    && (forall w | w in s.link.wire && !w.queued :: Unrelated(j.node, j.captureId, w.item.topic))
  }

  lemma {:induction false} OwnedMembers(owner: nat, sent: seq<Sent>, item: Item)
    ensures item in OwnedBy(owner, sent) <==> Sent(owner, item) in sent
    decreases |sent|
  {
    if |sent| > 0 {
      OwnedMembers(owner, sent[..|sent| - 1], item);
      assert sent == sent[..|sent| - 1] + [sent[|sent| - 1]];
    }
  }

  lemma {:induction false} ItemMembers(sent: seq<Sent>, item: Item)
    ensures item in Items(sent) <==> exists owner: nat :: Sent(owner, item) in sent
    decreases |sent|
  {
    if |sent| > 0 {
      var last := sent[|sent| - 1];
      ItemMembers(sent[..|sent| - 1], item);
      assert sent == sent[..|sent| - 1] + [last];
      if item == last.item { assert Sent(last.owner, item) in sent; }
    }
  }

  lemma {:induction false} QueuedMembers(wire: seq<Wire>, item: Item)
    ensures item in Queued(wire) <==> Wire(true, item) in wire
    decreases |wire|
  {
    if |wire| > 0 {
      QueuedMembers(wire[..|wire| - 1], item);
      assert wire == wire[..|wire| - 1] + [wire[|wire| - 1]];
    }
  }

  /** The receiver has seen each message on the wire, any number of times and in any order, and nothing else. */
  ghost predicate Received(wire: seq<Wire>, received: seq<Item>) {
    forall x :: x in received <==> Wire(true, x) in wire || Wire(false, x) in wire
  }

  lemma PlanMembers(j: Job, x: Item)
    requires j.Valid() && x in Plan(j)
    ensures Unrelated(j.node, j.captureId, x.topic) || exists index: u32 :: index < Count(j) && x == ChunkItem(j, index)
  {
    var i: nat :| i < |Plan(j)| && Plan(j)[i] == x;
    assert Plan(j)[i] == PlanItem(j, i);
    if i == 0 {
      OtherTopicsAreUnrelated(j.node, j.captureId, ImageMeta(j.captureId));
    } else if i > Count(j) {
      OtherTopicsAreUnrelated(j.node, j.captureId, ImageDone(j.captureId));
    }
  }

  /** With nothing undelivered, what came through the queue is what was accepted. */
  lemma DrainedMembers(lim: Limits, s: QueueState, x: Item)
    requires Invariant(lim, s) && Undelivered(s) == []
    ensures Wire(true, x) in s.link.wire <==> exists owner: nat :: Sent(owner, x) in s.accepted
  {
    assert Items(s.accepted) == Queued(s.link.wire);
    QueuedMembers(s.link.wire, x);
    ItemMembers(s.accepted, x);
  }

  lemma ChunkIsDelivered(lim: Limits, s: QueueState, me: nat, j: Job, index: u32)
    requires j.Valid() && Invariant(lim, s) && Undelivered(s) == [] && OwnedBy(me, s.accepted) == Plan(j)
    requires index < Count(j)
    ensures Wire(true, ChunkItem(j, index)) in s.link.wire
  {
    var x := ChunkItem(j, index);
    assert Plan(j)[index as int + 1] == x;
    OwnedMembers(me, s.accepted, x);
    DrainedMembers(lim, s, x);
  }

  /** A drained queue whose producer pushed a whole plan delivers chunks of that plan and unrelated messages only. */
  lemma DeliveredChunks(lim: Limits, s: QueueState, me: nat, j: Job, received: seq<Item>)
    requires j.Valid() && Invariant(lim, s) && Undelivered(s) == [] && OwnedBy(me, s.accepted) == Plan(j)
    requires OthersUnrelated(j, me, s) && Received(s.link.wire, received)
    ensures OnlyOurChunks(j, received)
    ensures forall index: u32 | index < Count(j) :: ChunkItem(j, index) in received
  {
    forall x | x in received
      ensures Unrelated(j.node, j.captureId, x.topic) || exists index: u32 :: index < Count(j) && x == ChunkItem(j, index)
    {
      if Wire(true, x) in s.link.wire {
        DrainedMembers(lim, s, x);
        var owner: nat :| Sent(owner, x) in s.accepted;
        if owner == me {
          OwnedMembers(me, s.accepted, x);
          PlanMembers(j, x);
        }
      }
    }
    forall index: u32 | index < Count(j) ensures ChunkItem(j, index) in received {
      ChunkIsDelivered(lim, s, me, j, index);
    }
  }

  /** From boot, over any interleaving: other tasks run, one transfer reports OK (so its producer has pushed exactly its
      plan), more runs, the queue drains. Then the receiver rebuilds exactly the image, from topics alone and in whatever
      order and multiplicity messages reach it, if and only if the chunk count did not wrap. */
  lemma EndToEnd(lim: Limits, upToReturn: seq<Event>, afterwards: seq<Event>, me: nat, j: Job, received: seq<Item>)
    requires j.Valid() && AllForeign(me, afterwards)
    requires OwnedBy(me, Run(lim, BOOT, upToReturn).accepted) == Plan(j)
    requires Undelivered(Run(lim, BOOT, upToReturn + afterwards)) == []
    requires OthersUnrelated(j, me, Run(lim, BOOT, upToReturn + afterwards))
    requires Received(Run(lim, BOOT, upToReturn + afterwards).link.wire, received)
    ensures Rebuild(j.node, j.captureId, j.chunkSize, received) == PictureOf(j.data) <==> CountIsExact(j.chunkSize, |j.data|)
  {
    RunSplit(lim, BOOT, upToReturn, afterwards);
    RunKeepsInvariant(lim, BOOT, upToReturn + afterwards);
    ForeignKeepsMine(lim, Run(lim, BOOT, upToReturn), me, afterwards);
    DeliveredChunks(lim, Run(lim, BOOT, upToReturn + afterwards), me, j, received);
    RebuildIsExact(j, received);
  }

  /** The completion marker this producer pushed has been delivered. */
  predicate CompletionDelivered(s: QueueState, me: nat, j: Job)
    requires j.Valid()
  {
    |Queued(s.link.wire)| <= |s.accepted| && DoneItem(j) in OwnedBy(me, Delivered(s))
  }

  /** Whatever order and multiplicity the wire reaches a receiver in, it rebuilds the image, if and only if the chunk count
      did not wrap. */
  ghost predicate ReceiversGetImage(wire: seq<Wire>, j: Job)
    requires j.Valid()
  {
    forall received | Received(wire, received) ::
      Rebuild(j.node, j.captureId, j.chunkSize, received) == PictureOf(j.data) <==> CountIsExact(j.chunkSize, |j.data|)
  }

  /** What a drained queue tells about a producer that has pushed the first `sent` messages of its plan. */
  lemma TransferEnds(lim: Limits, events: seq<Event>, me: nat, j: Job, sent: nat)
    requires j.Valid() && sent <= |Plan(j)|
    requires OwnedBy(me, Run(lim, BOOT, events).accepted) == Plan(j)[..sent]
    requires Undelivered(Run(lim, BOOT, events)) == []
    ensures forall n | 0 <= n <= |events| :: DeliversPrefix(Run(lim, BOOT, events[..n]), me, j)
    ensures sent == |Plan(j)| <==> CompletionDelivered(Run(lim, BOOT, events), me, j)
    ensures sent == |Plan(j)| && OthersUnrelated(j, me, Run(lim, BOOT, events)) ==>
      ReceiversGetImage(Run(lim, BOOT, events).link.wire, j)
  {
    forall n | 0 <= n <= |events| ensures DeliversPrefix(Run(lim, BOOT, events[..n]), me, j) {
      assert events[..n] + events[n..] == events;
      PrefixSafety(lim, events[..n], events[n..], me, j, sent);
    }
    var s := Run(lim, BOOT, events);
    RunKeepsInvariant(lim, BOOT, events);
    DeliveredIsPrefix(lim, s);
    assert Delivered(s) == s.accepted;
    if sent == |Plan(j)| { AllSent(lim, events, me, j); }
    if DoneItem(j) in Plan(j)[..sent] { PrefixEndsWithDone(j, Plan(j)[..sent]); }
  }

  lemma AllSent(lim: Limits, events: seq<Event>, me: nat, j: Job)
    requires j.Valid() && OwnedBy(me, Run(lim, BOOT, events).accepted) == Plan(j)
    requires Undelivered(Run(lim, BOOT, events)) == []
    ensures DoneItem(j) in Plan(j)
    ensures OthersUnrelated(j, me, Run(lim, BOOT, events)) ==> ReceiversGetImage(Run(lim, BOOT, events).link.wire, j)
  {
    assert Plan(j)[Count(j) + 1] == DoneItem(j);
    if OthersUnrelated(j, me, Run(lim, BOOT, events)) {
      forall received | Received(Run(lim, BOOT, events).link.wire, received)
        ensures Rebuild(j.node, j.captureId, j.chunkSize, received) == PictureOf(j.data) <==> CountIsExact(j.chunkSize, |j.data|)
      {
        assert events + [] == events;
        EndToEnd(lim, events, [], me, j, received);
      }
    }
  }
}
