/** components/messaging/topic_map.c: the topics of one node, their formatting into fixed buffers, and command matching. */
module TopicMap {
  import opened Base
  import Decimal

  /** Everything the node publishes. */
  datatype Topic =
    | StatusOnline
    | StatusHeartbeat
    | NodeEvent
    | Reply(id: string)
    | ImageMeta(id: string)
    | ImageChunk(id: string, index: nat)
    | ImageDone(id: string)

  function NodeBase(node: string): string { "vision/nodes/" + node }

  function Suffix(t: Topic): string {
    match t
    case StatusOnline => "status/online"
    case StatusHeartbeat => "status/heartbeat"
    case NodeEvent => "event"
    case Reply(id) => "reply/" + id
    case ImageMeta(id) => "image/" + (id + "/" + "meta")
    case ImageChunk(id, index) => "image/" + (id + "/chunk" + "/" + Decimal.Print(index))
    case ImageDone(id) => "image/" + (id + "/" + "done")
  }

  function Render(node: string, t: Topic): string { NodeBase(node) + "/" + Suffix(t) }

  // ---------------------------------------------------------------------------------------------
  // Decoding, for a receiver that knows the node.

  function LastSlash(s: string): (r: Option<nat>)
    ensures r.Some? ==> r.value < |s| && s[r.value] == '/' && '/' !in s[r.value + 1..]
    ensures r.None? ==> '/' !in s
  {
    if |s| == 0 then None
    else if s[|s| - 1] == '/' then Some(|s| - 1)
    else LastSlash(s[..|s| - 1])
  }

  const CHUNK_TAIL := "/chunk"

  /** What the last two segments of an image topic mean. */
  function ImageTopic(before: string, last: string): Option<Topic> {
    if last == "meta" then Some(ImageMeta(before))
    else if last == "done" then Some(ImageDone(before))
    else if Decimal.IsDecimal(last) && |before| >= 6 && before[|before| - 6..] == CHUNK_TAIL
    then Some(ImageChunk(before[..|before| - 6], Decimal.Parse(last)))
    else None
  }

  /** The last segment decides the family, so slashes inside a capture ID do no harm. */
  function DecodeImage(s: string): Option<Topic> {
    var slash := LastSlash(s);
    if slash.None? then None
    else ImageTopic(s[..slash.value], s[slash.value + 1..])
  }

  function DecodeSuffix(s: string): Option<Topic> {
    if s == "status/online" then Some(StatusOnline)
    else if s == "status/heartbeat" then Some(StatusHeartbeat)
    else if s == "event" then Some(NodeEvent)
    else if |s| >= 6 && s[..6] == "reply/" then Some(Reply(s[6..]))
    else if |s| >= 6 && s[..6] == "image/" then DecodeImage(s[6..])
    else None
  }

  function Decode(node: string, topic: string): Option<Topic> {
    var base := NodeBase(node) + "/";
    if |topic| < |base| || topic[..|base|] != base then None else DecodeSuffix(topic[|base|..])
  }

  lemma {:induction false} LastSlashSplits(a: string, b: string)
    requires '/' !in b
    ensures LastSlash(a + "/" + b) == Some(|a|)
    decreases |b|
  {
    var s := a + "/" + b;
    if |b| > 0 {
      assert s[..|s| - 1] == a + "/" + b[..|b| - 1];
      LastSlashSplits(a, b[..|b| - 1]);
    }
  }

  lemma DecodeSplit(before: string, last: string)
    requires '/' !in last
    ensures DecodeImage(before + "/" + last) == ImageTopic(before, last)
  {
    var s := before + "/" + last;
    LastSlashSplits(before, last);
    assert s[..|before|] == before && s[|before| + 1..] == last;
  }

  lemma ChunkDecodes(id: string, index: nat)
    ensures DecodeImage(id + CHUNK_TAIL + "/" + Decimal.Print(index)) == Some(ImageChunk(id, index))
  {
    var last := Decimal.Print(index);
    Decimal.ParsePrint(index);
    DecimalIsNoWord(last);
    DecodeSplit(id + CHUNK_TAIL, last);
    var before := id + CHUNK_TAIL;
    assert before[..|before| - 6] == id && before[|before| - 6..] == CHUNK_TAIL;
  }

  lemma ImageSuffixDecodes(t: Topic)
    requires t.ImageMeta? || t.ImageChunk? || t.ImageDone?
    ensures DecodeImage(Suffix(t)[6..]) == Some(t)
  {
    match t
    case ImageMeta(id) =>
      DecodeSplit(id, "meta");
      assert Suffix(t)[6..] == id + "/" + "meta";
    case ImageDone(id) =>
      DecodeSplit(id, "done");
      assert Suffix(t)[6..] == id + "/" + "done";
    case ImageChunk(id, index) =>
      ChunkDecodes(id, index);
      assert Suffix(t)[6..] == id + CHUNK_TAIL + "/" + Decimal.Print(index);
  }

  lemma DecimalIsNoWord(s: string)
    requires Decimal.IsDecimal(s)
    ensures s != "meta" && s != "done" && '/' !in s
  {
    assert Decimal.IsDigit(s[0]);
    assert "meta"[0] == 'm' && "done"[0] == 'd';
  }

  lemma TaggedSuffixDecodes(tag: string, rest: string)
    requires tag == "reply/" || tag == "image/"
    ensures DecodeSuffix(tag + rest) == if tag == "reply/" then Some(Reply(rest)) else DecodeImage(rest)
  {
    var s := tag + rest;
    assert s[..6] == tag && s[6..] == rest;
    assert s[0] == 'r' || s[0] == 'i';
  }

  lemma SuffixDecodes(t: Topic)
    ensures DecodeSuffix(Suffix(t)) == Some(t)
  {
    match t
    case Reply(id) => TaggedSuffixDecodes("reply/", id);
    case StatusOnline =>
    case StatusHeartbeat =>
    case NodeEvent =>
    case _ =>
      ImageSuffixDecodes(t);
      assert Suffix(t) == "image/" + Suffix(t)[6..];
      TaggedSuffixDecodes("image/", Suffix(t)[6..]);
  }

  lemma ImageDecodingIsExact(s: string)
    requires DecodeImage(s).Some?
    ensures Suffix(DecodeImage(s).value) == "image/" + s
  {
    var k := LastSlash(s).value;
    var before, last := s[..k], s[k + 1..];
    assert s == before + "/" + last;
    if last != "meta" && last != "done" {
      Decimal.PrintParse(last);
      assert before == before[..|before| - 6] + CHUNK_TAIL;
    }
  }

  lemma SuffixDecodingIsExact(s: string)
    requires DecodeSuffix(s).Some?
    ensures Suffix(DecodeSuffix(s).value) == s
  {
    if s != "status/online" && s != "status/heartbeat" && s != "event" {
      assert s == s[..6] + s[6..];
      if s[..6] != "reply/" { ImageDecodingIsExact(s[6..]); }
    }
  }

  lemma RenderedDecodes(node: string, t: Topic)
    ensures Decode(node, Render(node, t)) == Some(t)
  {
    var base := NodeBase(node) + "/";
    var full := base + Suffix(t);
    assert full[..|base|] == base && full[|base|..] == Suffix(t);
    SuffixDecodes(t);
  }

  lemma DecodedRenders(node: string, topic: string)
    requires Decode(node, topic).Some?
    ensures topic == Render(node, Decode(node, topic).value)
  {
    var base := NodeBase(node) + "/";
    SuffixDecodingIsExact(topic[|base|..]);
    assert topic == topic[..|base|] + topic[|base|..];
  }

  /** Decoding inverts rendering, both ways: a topic decodes to exactly the thing that renders to it. */
  lemma DecodeInvertsRender(node: string, topic: string, t: Topic)
    ensures Decode(node, topic) == Some(t) <==> topic == Render(node, t)
  {
    RenderedDecodes(node, t);
    if Decode(node, topic).Some? { DecodedRenders(node, topic); }
  }

  /** No two published things share a topic, whatever characters their IDs contain. */
  lemma RenderIsInjective(node: string, t: Topic, u: Topic)
    requires Render(node, t) == Render(node, u)
    ensures t == u
  {
    DecodeInvertsRender(node, Render(node, t), t);
    DecodeInvertsRender(node, Render(node, u), u);
  }

  // ---------------------------------------------------------------------------------------------
  // Fixed buffers.

  /** What snprintf leaves in a buffer of `capacity` characters, terminator included. */
  function Cut(capacity: nat, s: string): (r: string)
    ensures r <= s && |r| == if |s| < capacity then |s| else if capacity > 0 then capacity - 1 else 0
  {
    if capacity == 0 then "" else if |s| < capacity then s else s[..capacity - 1]
  }

  class TextBuffer {
    const capacity: nat
    var text: string

    constructor (capacity: nat)
      ensures this.capacity == capacity && text == ""
    {
      this.capacity := capacity;
      text := "";
    }

    method Print(s: string) returns (written: nat)
      modifies this
      ensures written == |s| && text == Cut(capacity, s)
    {
      text := Cut(capacity, s);
      written := |s|;
    }
  }

  function FormatError(capacity: nat, id: string, full: string): Err {
    if capacity == 0 || id == "" then InvalidArg else if |full| >= capacity then InvalidSize else Ok
  }

  /** There is a reply topic exactly for a request ID that is not empty and leaves room for node and terminator. */
  predicate Answerable(node: string, id: string, topicMax: nat) {
    id != "" && |node| + |id| + 20 < topicMax
  }

  lemma ReplyTopicFits(node: string, id: string, topicMax: nat)
    requires topicMax > 0
    ensures FormatError(topicMax, id, Render(node, Reply(id))) == Ok <==> Answerable(node, id, topicMax)
  {
    assert |"vision/nodes/"| == 13 && |"reply/"| == 6;
  }

  lemma ReplyText(node: string, id: string)
    ensures NodeBase(node) + "/reply" + "/" + id == Render(node, Reply(id))
  {
    assert "/reply" + "/" == "/" + "reply/";
  }

  lemma ChunkText(node: string, id: string, number: string)
    ensures "vision/nodes/" + node + "/image/" + id + "/chunk/" + number ==
      "vision/nodes/" + node + "/" + ("image/" + (id + "/chunk" + "/" + number))
  {
  }

  // ---------------------------------------------------------------------------------------------
  // Commands.

  const PING := "ping"
  const REBOOT := "reboot"
  const CONFIG := "config"
  const CAPTURE := "capture"

  function CommandTopic(node: string, name: string): string { NodeBase(node) + "/" + ("cmd/" + name) }

  function BroadcastTopic(name: string): string { "vision/broadcast/cmd/" + name }

  predicate IsCommand(node: string, name: string, topic: string) {
    topic == CommandTopic(node, name) || topic == BroadcastTopic(name)
  }

  lemma CommandText(node: string, name: string)
    ensures CommandTopic(node, name) == "vision/nodes/" + node + "/cmd/" + name
  {
    assert "/" + "cmd/" == "/cmd/";
    assert NodeBase(node) + "/" + ("cmd/" + name) == NodeBase(node) + ("/" + "cmd/") + name;
  }

  lemma StatusTexts(node: string)
    ensures Render(node, StatusOnline) == "vision/nodes/" + node + "/status/online"
    ensures Render(node, StatusHeartbeat) == "vision/nodes/" + node + "/status/heartbeat"
    ensures Render(node, NodeEvent) == "vision/nodes/" + node + "/event"
  {
    assert "/" + "status/online" == "/status/online" && "/" + "status/heartbeat" == "/status/heartbeat";
    assert "/" + "event" == "/event";
    forall word: string ensures NodeBase(node) + "/" + word == NodeBase(node) + ("/" + word) {}
  }

  /** The longest prebuilt topic fits the topic buffer and the node ID fits its own. */
  predicate NodeIdFits(node: string, idMax: nat, topicMax: nat) {
    0 < |node| < idMax && |Render(node, StatusHeartbeat)| < topicMax
  }

  lemma HeartbeatTopicLength(node: string)
    ensures |Render(node, StatusHeartbeat)| == |node| + 30
  {
    assert |"vision/nodes/"| == 13 && |"status/heartbeat"| == 16;
  }

  /** The static strings of topic_map.c. */
  class TopicTable {
    const topicMax: nat
    const idMax: nat
    var nodeId: string
    var statusOnline: string
    var statusHeartbeat: string
    var event: string
    var commandSubscription: string
    var broadcastSubscription: string
    var nodePing: string
    var nodeReboot: string
    var nodeConfig: string
    var nodeCapture: string
    var replyBase: string

    constructor (topicMax: nat, idMax: nat)
      ensures this.topicMax == topicMax && this.idMax == idMax
    {
      this.topicMax, this.idMax := topicMax, idMax;
      nodeId, statusOnline, statusHeartbeat, event := "", "", "", "";
      commandSubscription, broadcastSubscription := "", "";
      nodePing, nodeReboot, nodeConfig, nodeCapture, replyBase := "", "", "", "", "";
    }

    /** All cached strings are the full ones for the cached node ID. */
    ghost predicate Ready()
      reads this
    {
      && NodeIdFits(nodeId, idMax, topicMax)
      && statusOnline == Render(nodeId, StatusOnline)
      && statusHeartbeat == Render(nodeId, StatusHeartbeat)
      && event == Render(nodeId, NodeEvent)
      && commandSubscription == CommandTopic(nodeId, "+")
      && broadcastSubscription == BroadcastTopic("+")
      && nodePing == CommandTopic(nodeId, PING)
      && nodeReboot == CommandTopic(nodeId, REBOOT)
      && nodeConfig == CommandTopic(nodeId, CONFIG)
      && nodeCapture == CommandTopic(nodeId, CAPTURE)
      && replyBase == NodeBase(nodeId) + "/reply"
    }

    /** The topics and subscriptions of the documentation. */
    ghost predicate TextsAreDocumented(node: string)
      reads this
    {
      var base := "vision/nodes/" + node;
      && statusOnline == base + "/status/online" && statusHeartbeat == base + "/status/heartbeat" && event == base + "/event"
      && commandSubscription == base + "/cmd/" + "+" && broadcastSubscription == "vision/broadcast/cmd/" + "+"
      && nodePing == base + "/cmd/" + "ping" && nodeReboot == base + "/cmd/" + "reboot"
      && nodeConfig == base + "/cmd/" + "config" && nodeCapture == base + "/cmd/" + "capture"
      && replyBase == base + "/reply"
    }

    lemma ReadyTexts(node: string)
      requires Ready() && nodeId == node
      ensures TextsAreDocumented(node)
    {
      StatusTexts(node);
      forall name: string ensures CommandTopic(node, name) == "vision/nodes/" + node + "/cmd/" + name {
        CommandText(node, name);
      }
    }

    method FormatChecked(full: string) returns (stored: string, err: Err)
      ensures err == if |full| < topicMax then Ok else InvalidSize
      ensures stored == Cut(topicMax, full)
    {
      stored := Cut(topicMax, full);
      err := if |full| >= topicMax then InvalidSize else Ok;
    }

    method InitStatus() returns (err: Err)
      modifies this`statusOnline, this`statusHeartbeat, this`event
      ensures err == Ok <==> |Render(nodeId, StatusHeartbeat)| < topicMax
      ensures err == Ok || err == InvalidSize
      ensures err == Ok ==>
        && statusOnline == Render(nodeId, StatusOnline)
        && statusHeartbeat == Render(nodeId, StatusHeartbeat)
        && event == Render(nodeId, NodeEvent)
    {
      StatusTexts(nodeId);
      statusOnline, err := FormatChecked("vision/nodes/" + nodeId + "/status/online");
      if err != Ok { return; }
      statusHeartbeat, err := FormatChecked("vision/nodes/" + nodeId + "/status/heartbeat");
      if err != Ok { return; }
      event, err := FormatChecked("vision/nodes/" + nodeId + "/event");
    }

    /** After the heartbeat topic has fitted, no command topic can fail. */
    method InitCommands() returns (err: Err)
      requires |Render(nodeId, StatusHeartbeat)| < topicMax
      modifies this`commandSubscription, this`nodePing, this`nodeReboot, this`nodeConfig, this`nodeCapture, this`replyBase
      ensures err == Ok
      ensures commandSubscription == CommandTopic(nodeId, "+")
      ensures nodePing == CommandTopic(nodeId, PING) && nodeReboot == CommandTopic(nodeId, REBOOT)
      ensures nodeConfig == CommandTopic(nodeId, CONFIG) && nodeCapture == CommandTopic(nodeId, CAPTURE)
      ensures replyBase == NodeBase(nodeId) + "/reply"
    {
      var prefix := "vision/nodes/" + nodeId + "/cmd/";
      forall name: string ensures prefix + name == CommandTopic(nodeId, name) { CommandText(nodeId, name); }
      commandSubscription, err := FormatChecked(prefix + "+");
      if err != Ok { return; }
      nodePing, err := FormatChecked(prefix + PING);
      if err != Ok { return; }
      nodeReboot, err := FormatChecked(prefix + REBOOT);
      if err != Ok { return; }
      nodeConfig, err := FormatChecked(prefix + CONFIG);
      if err != Ok { return; }
      nodeCapture, err := FormatChecked(prefix + CAPTURE);
      if err != Ok { return; }
      replyBase, err := FormatChecked("vision/nodes/" + nodeId + "/reply");
    }

    /** Succeeds exactly when the node ID is not empty and the longest topic fits. */
    method Init(node: string) returns (err: Err)
      requires topicMax >= 32
      modifies this
      ensures err == Ok <==> NodeIdFits(node, idMax, topicMax)
      ensures err == Ok ==> Ready() && nodeId == node && TextsAreDocumented(node)
      ensures node == "" ==> err == InvalidArg
      ensures node != "" && err != Ok ==> err == InvalidSize
    {
      if node == "" { return InvalidArg; }
      nodeId := Cut(idMax, node);
      if |node| >= idMax { return InvalidSize; }
      err := InitStatus();
      if err != Ok { return; }
      err := InitCommands();
      if err != Ok { return; }
      broadcastSubscription := Cut(topicMax, "vision/broadcast/cmd/+");
      ReadyTexts(node);
    }

    predicate CommandTopicMatches(topic: string, nodeTopic: string, broadcastTopic: string) {
      topic == nodeTopic || topic == broadcastTopic
    }

    predicate IsPing(topic: string)
      requires Ready()
      reads this
      ensures IsPing(topic) <==> IsCommand(nodeId, PING, topic)
    {
      CommandTopicMatches(topic, nodePing, "vision/broadcast/cmd/ping")
    }

    predicate IsReboot(topic: string)
      requires Ready()
      reads this
      ensures IsReboot(topic) <==> IsCommand(nodeId, REBOOT, topic)
    {
      CommandTopicMatches(topic, nodeReboot, "vision/broadcast/cmd/reboot")
    }

    predicate IsConfig(topic: string)
      requires Ready()
      reads this
      ensures IsConfig(topic) <==> IsCommand(nodeId, CONFIG, topic)
    {
      CommandTopicMatches(topic, nodeConfig, "vision/broadcast/cmd/config")
    }

    predicate IsCapture(topic: string)
      requires Ready()
      reads this
      ensures IsCapture(topic) <==> IsCommand(nodeId, CAPTURE, topic)
    {
      CommandTopicMatches(topic, nodeCapture, "vision/broadcast/cmd/capture")
    }

    method FormatReply(buffer: TextBuffer, requestId: string) returns (err: Err)
      requires Ready()
      modifies buffer
      ensures err == FormatError(buffer.capacity, requestId, Render(nodeId, Reply(requestId)))
      ensures err == InvalidArg <==> buffer.capacity == 0 || requestId == ""
      ensures err in {Ok, InvalidArg, InvalidSize}
      ensures err == Ok <==> buffer.capacity > 0 && requestId != "" && |"vision/nodes/" + nodeId + "/reply/" + requestId| < buffer.capacity
      ensures err == Ok ==> buffer.text == "vision/nodes/" + nodeId + "/reply/" + requestId
      ensures buffer.text ==
        if err == InvalidArg then old(buffer.text) else Cut(buffer.capacity, Render(nodeId, Reply(requestId)))
    {
      if buffer.capacity == 0 || requestId == "" { return InvalidArg; }
      ReplyText(nodeId, requestId);
      var written := buffer.Print(replyBase + "/" + requestId);
      err := if written >= buffer.capacity then InvalidSize else Ok;
    }

    method FormatImageMeta(buffer: TextBuffer, captureId: string) returns (err: Err)
      modifies buffer
      ensures err == FormatError(buffer.capacity, captureId, Render(nodeId, ImageMeta(captureId)))
      ensures err == InvalidArg <==> buffer.capacity == 0 || captureId == ""
      ensures err in {Ok, InvalidArg, InvalidSize}
      ensures err == Ok <==> buffer.capacity > 0 && captureId != "" && |"vision/nodes/" + nodeId + "/image/" + captureId + "/meta"| < buffer.capacity
      ensures err == Ok ==> buffer.text == "vision/nodes/" + nodeId + "/image/" + captureId + "/meta"
      ensures buffer.text ==
        if err == InvalidArg then old(buffer.text) else Cut(buffer.capacity, Render(nodeId, ImageMeta(captureId)))
    {
      if buffer.capacity == 0 || captureId == "" { return InvalidArg; }
      assert Render(nodeId, ImageMeta(captureId)) == "vision/nodes/" + nodeId + "/image/" + captureId + "/meta";
      var written := buffer.Print("vision/nodes/" + nodeId + "/image/" + captureId + "/meta");
      err := if written >= buffer.capacity then InvalidSize else Ok;
    }

    /** `%u` prints the index as an unsigned 32-bit number. */
    method FormatImageChunk(buffer: TextBuffer, captureId: string, index: u32) returns (err: Err)
      modifies buffer
      ensures err == FormatError(buffer.capacity, captureId, Render(nodeId, ImageChunk(captureId, index)))
      ensures err == InvalidArg <==> buffer.capacity == 0 || captureId == ""
      ensures err in {Ok, InvalidArg, InvalidSize}
      ensures err == Ok <==> buffer.capacity > 0 && captureId != "" && |"vision/nodes/" + nodeId + "/image/" + captureId + "/chunk/" + Decimal.Print(index)| < buffer.capacity
      ensures err == Ok ==> buffer.text == "vision/nodes/" + nodeId + "/image/" + captureId + "/chunk/" + Decimal.Print(index)
      ensures buffer.text ==
        if err == InvalidArg then old(buffer.text) else Cut(buffer.capacity, Render(nodeId, ImageChunk(captureId, index)))
    {
      if buffer.capacity == 0 || captureId == "" { return InvalidArg; }
      ChunkText(nodeId, captureId, Decimal.Print(index));
      var written := buffer.Print("vision/nodes/" + nodeId + "/image/" + captureId + "/chunk/" + Decimal.Print(index));
      err := if written >= buffer.capacity then InvalidSize else Ok;
    }

    method FormatImageDone(buffer: TextBuffer, captureId: string) returns (err: Err)
      modifies buffer
      ensures err == FormatError(buffer.capacity, captureId, Render(nodeId, ImageDone(captureId)))
      ensures err == InvalidArg <==> buffer.capacity == 0 || captureId == ""
      ensures err in {Ok, InvalidArg, InvalidSize}
      ensures err == Ok <==> buffer.capacity > 0 && captureId != "" && |"vision/nodes/" + nodeId + "/image/" + captureId + "/done"| < buffer.capacity
      ensures err == Ok ==> buffer.text == "vision/nodes/" + nodeId + "/image/" + captureId + "/done"
      ensures buffer.text ==
        if err == InvalidArg then old(buffer.text) else Cut(buffer.capacity, Render(nodeId, ImageDone(captureId)))
    {
      if buffer.capacity == 0 || captureId == "" { return InvalidArg; }
      assert Render(nodeId, ImageDone(captureId)) == "vision/nodes/" + nodeId + "/image/" + captureId + "/done";
      var written := buffer.Print("vision/nodes/" + nodeId + "/image/" + captureId + "/done");
      err := if written >= buffer.capacity then InvalidSize else Ok;
    }
  }
}
