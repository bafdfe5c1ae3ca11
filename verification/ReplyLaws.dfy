/** Which commands can be answered, and that the others run all the same. */
module ReplyLaws {
  import opened Base
  import opened RuntimeConfig
  import opened TopicMap
  import opened CommandRouter
  import opened ConfigLaws
  import opened DocumentedEffects
  import opened MqttService
  import PublishQueue

  /** Producer `me` offers the queue a message on the reply topic of `id`. */
  predicate OffersReply(me: nat, node: string, id: string, events: seq<PublishQueue.Event>) {
    exists e | e in events :: e.Push? && e.owner == me && e.item.topic == Render(node, Reply(id))
  }

  /** Other tasks push under their own name. */
  ghost predicate OthersAreForeign(me: nat, answer: ReplyEnv) {
    forall i: nat, e | e in answer.others(i) :: e.Push? ==> e.owner != me
  }

  /** A config command whose reply can be built and printed is answered if and only if its request ID is not empty and
      node ID and request ID leave room in the topic buffer. */
  lemma AnsweredExactly(me: nat, node: string, topicMax: nat, id: string, reply: ConfigReply, answer: ReplyEnv)
    requires topicMax > 0 && OthersAreForeign(me, answer) && answer.alloc && answer.rendered(reply).Some?
    ensures OffersReply(me, node, id, AnswerEvents(me, node, topicMax, id, reply, answer)) <==> Answerable(node, id, topicMax)
  {
    var events := AnswerEvents(me, node, topicMax, id, reply, answer);
    ReplyTopicFits(node, id, topicMax);
    EventIsNoReply(me, node, id, reply, answer);
    var pushes := ReplyPushes(me, node, topicMax, id, reply, answer);
    if Answerable(node, id, topicMax) {
      assert pushes[0] in events;
    }
  }

  lemma EventIsNoReply(me: nat, node: string, id: string, reply: ConfigReply, answer: ReplyEnv)
    ensures !OffersReply(me, node, id, EventPushes(me, node, reply, answer))
  {
    if Render(node, NodeEvent) == Render(node, Reply(id)) { RenderIsInjective(node, NodeEvent, Reply(id)); }
  }

  /** Whatever the environment does, a command without a reply topic is never answered. */
  lemma NeverAnswered(me: nat, node: string, topicMax: nat, id: string, reply: ConfigReply, answer: ReplyEnv)
    requires topicMax > 0 && OthersAreForeign(me, answer) && !Answerable(node, id, topicMax)
    ensures !OffersReply(me, node, id, AnswerEvents(me, node, topicMax, id, reply, answer))
  {
    ReplyTopicFits(node, id, topicMax);
    EventIsNoReply(me, node, id, reply, answer);
  }

  // ---------------------------------------------------------------------------------------------
  // Exactly what the node publishes about a config command.

  /** What producer `me` offers the queue, in order. */
  function OwnItems(me: nat, events: seq<PublishQueue.Event>): seq<Item> {
    if |events| == 0 then []
    else
      var last := events[|events| - 1];
      OwnItems(me, events[..|events| - 1]) + (if last.Push? && last.owner == me then [last.item] else [])
  }

  lemma {:induction false} OwnItemsJoin(me: nat, a: seq<PublishQueue.Event>, b: seq<PublishQueue.Event>)
    ensures OwnItems(me, a + b) == OwnItems(me, a) + OwnItems(me, b)
    decreases |b|
  {
    if |b| == 0 {
      assert a + b == a;
    } else {
      assert (a + b)[..|a + b| - 1] == a + b[..|b| - 1];
      OwnItemsJoin(me, a, b[..|b| - 1]);
    }
  }

  lemma {:induction false} ForeignEventsOwnNothing(me: nat, events: seq<PublishQueue.Event>)
    requires forall e | e in events :: e.Push? ==> e.owner != me
    ensures OwnItems(me, events) == []
    decreases |events|
  {
    if |events| > 0 {
      assert events[|events| - 1] in events;
      ForeignEventsOwnNothing(me, events[..|events| - 1]);
    }
  }

  /** The event: on the node's event topic, at least once, not retained, if and only if the command changed something. */
  function Announcement(node: string, updated: bool, answer: ReplyEnv): seq<Item> {
    if answer.alloc && updated && answer.event.Some?
    then [Item("vision/nodes/" + node + "/event", answer.event.value, 1, false)]
    else []
  }

  /** The reply: on the topic of the request, at least once, not retained, if it prints and has a topic. */
  function Response(node: string, topicMax: nat, id: string, reply: ConfigReply, answer: ReplyEnv): seq<Item> {
    if answer.alloc && answer.rendered(reply).Some? && Answerable(node, id, topicMax)
    then [Item("vision/nodes/" + node + "/reply/" + id, answer.rendered(reply).value, 1, false)]
    else []
  }

  lemma AnswerTexts(node: string, id: string)
    ensures Render(node, NodeEvent) == "vision/nodes/" + node + "/event"
    ensures Render(node, Reply(id)) == "vision/nodes/" + node + "/reply/" + id
  {
    StatusTexts(node);
    assert "/" + "reply/" == "/reply/";
    assert NodeBase(node) + "/" + ("reply/" + id) == NodeBase(node) + ("/" + "reply/") + id;
  }

  /** About a config command the node publishes an event if and only if the command succeeded and mentioned a supported
      key, then its reply, and nothing else. */
  lemma PublishedExactly(b: Build, w: World, me: nat, node: string, topicMax: nat, id: string, obj: JsonObject, env: CommandEnv,
                         answer: ReplyEnv)
    requires topicMax > 0 && OthersAreForeign(me, answer)
    ensures var reply := ReplyFor(b, w, obj, env);
      OwnItems(me, AnswerEvents(me, node, topicMax, id, reply, answer)) ==
        Announcement(node, CommandError(b, w, obj, env) == Ok && Mentions(obj), answer) +
        Response(node, topicMax, id, reply, answer)
  {
    var reply := ReplyFor(b, w, obj, env);
    ReportsUpdates(b, w, obj, env);
    PublishedPieces(me, node, topicMax, id, reply, answer);
  }

  lemma ReportsUpdates(b: Build, w: World, obj: JsonObject, env: CommandEnv)
    ensures ReplyFor(b, w, obj, env).updated <==> CommandError(b, w, obj, env) == Ok && Mentions(obj)
  {
    TypesDecideParsing(obj);
  }

  lemma PublishedPieces(me: nat, node: string, topicMax: nat, id: string, reply: ConfigReply, answer: ReplyEnv)
    requires topicMax > 0 && OthersAreForeign(me, answer)
    ensures OwnItems(me, AnswerEvents(me, node, topicMax, id, reply, answer)) ==
      Announcement(node, reply.updated, answer) + Response(node, topicMax, id, reply, answer)
  {
    var a, e, o, p := answer.others(0), EventPushes(me, node, reply, answer), answer.others(1),
      ReplyPushes(me, node, topicMax, id, reply, answer);
    AnswerTexts(node, id);
    ReplyTopicFits(node, id, topicMax);
    ForeignEventsOwnNothing(me, a);
    ForeignEventsOwnNothing(me, o);
    if answer.alloc {
      OwnItemsJoin(me, a, e + o + p);
      OwnItemsJoin(me, e + o, p);
      OwnItemsJoin(me, e, o);
    } else {
      assert a + [] == a;
    }
  }

  // ---------------------------------------------------------------------------------------------
  // Builds in which every command can be answered.

  function Repeat(c: char, n: nat): string { seq(n, _ => c) }

  /** Every node ID that passes initialisation and every request ID that passes the check have a reply topic. */
  ghost predicate AlwaysAnswerable(idMax: nat, topicMax: nat) {
    forall node: string, id: string | NodeIdFits(node, idMax, topicMax) && 0 < |id| < idMax :: Answerable(node, id, topicMax)
  }

  /** Within the Kconfig ranges the build decides it: either the topic buffer takes the two longest IDs, or request IDs are
      so short that no reply topic is longer than the heartbeat topic, which a node ID has to leave room for. */
  lemma BuildDecidesAnswers(idMax: nat, topicMax: nat)
    requires idMax >= 8 && topicMax >= 32
    ensures AlwaysAnswerable(idMax, topicMax) <==> 2 * idMax + 18 < topicMax || idMax < 12
  {
    forall node: string ensures |Render(node, StatusHeartbeat)| == |node| + 30 { HeartbeatTopicLength(node); }
    if !(2 * idMax + 18 < topicMax || idMax < 12) {
      var longest := if idMax - 1 < topicMax - 31 then idMax - 1 else topicMax - 31;
      var node, id := Repeat('n', longest), Repeat('r', idMax - 1);
      assert NodeIdFits(node, idMax, topicMax) && !Answerable(node, id, topicMax);
    }
  }

  // ---------------------------------------------------------------------------------------------
  // Updates that take effect unanswered.

  /** A command that sets the heartbeat interval to ten seconds. */
  function SetHeartbeat(id: string): JsonObject {
    map[REQUEST_ID_FIELD := JString(id), HEARTBEAT_FIELD := JNumber(10.0)]
  }

  lemma SetHeartbeatParses(id: string)
    ensures WellTyped(SetHeartbeat(id)) && PatchOf(SetHeartbeat(id)) == EMPTY_PATCH.(heartbeatIntervalS := Some(10))
    ensures SetHeartbeat(id)[REQUEST_ID_FIELD] == JString(id)
  {
    FieldNamesDiffer();
    assert REQUEST_ID_FIELD[0] == 'r' && HEARTBEAT_FIELD[0] == 'h' && ENABLED_FIELD[0] == 'm' && WARMUP_FIELD[0] == 'm';
    assert COOLDOWN_FIELD[0] == 'm' && MODE_FIELD[0] == 'i';
    assert SetHeartbeat(id)[HEARTBEAT_FIELD].num.Floor == 10;
  }

  lemma SetHeartbeatTakesEffect(b: Build, w: World, id: string, env: CommandEnv)
    requires b.Valid() && Running(b, w) && AllWell(env)
    ensures var after := AfterCommand(b, w, SetHeartbeat(id), env);
      && ReplyFor(b, w, SetHeartbeat(id), env).updated
      && after.stored.heartbeatIntervalS == 10 && after.services.intervalS == 10
      && HbIntS in after.flash && after.flash[HbIntS] == 10
  {
    var obj := SetHeartbeat(id);
    SetHeartbeatParses(id);
    var p := PatchOf(obj);
    NextIsSound(b, w, p);
    PushOutcome(b, w, Next(b, w, p), env.forward);
    AllWritesSucceed(p, env.persist, 0);
    assert CommandError(b, w, obj, env) == Ok;
    SuccessEstablishesAgreement(b, w, obj, env);
    PatchImageLookup(p, HbIntS);
  }

  /** The message is acted on, the new interval is live, in RAM and in flash, and no reply is offered. */
  ghost predicate RunsUnanswered(b: Build, w: World, me: nat, node: string, idMax: nat, topicMax: nat, jsonMax: nat, id: string,
                                 env: CommandEnv, answer: ReplyEnv)
  {
    var after := AfterCommand(b, w, SetHeartbeat(id), env);
    && (forall len: nat | 0 < len < jsonMax ::
          IsActionable(node, idMax, jsonMax, CommandTopic(node, CONFIG), len, Some(SetHeartbeat(id))))
    && after.stored.heartbeatIntervalS == 10 && after.services.intervalS == 10
    && HbIntS in after.flash && after.flash[HbIntS] == 10
    && !OffersReply(me, node, id,
                    AnswerEvents(me, node, topicMax, id, ReplyFor(b, w, SetHeartbeat(id), env), answer))
  }

  /** The check on the request ID does not guarantee a reply topic: every ID that passes it without one runs unanswered. */
  lemma UnanswerableRuns(b: Build, w: World, me: nat, node: string, idMax: nat, topicMax: nat, jsonMax: nat, id: string,
                         env: CommandEnv, answer: ReplyEnv)
    requires b.Valid() && Running(b, w) && AllWell(env) && OthersAreForeign(me, answer)
    requires topicMax > 0 && |id| < idMax && !Answerable(node, id, topicMax)
    ensures RunsUnanswered(b, w, me, node, idMax, topicMax, jsonMax, id, env, answer)
  {
    SetHeartbeatParses(id);
    SetHeartbeatTakesEffect(b, w, id, env);
    NeverAnswered(me, node, topicMax, id, ReplyFor(b, w, SetHeartbeat(id), env), answer);
  }

  /** The empty request ID, in every build. */
  lemma EmptyIdRunsUnanswered(b: Build, w: World, me: nat, node: string, idMax: nat, topicMax: nat, jsonMax: nat,
                              env: CommandEnv, answer: ReplyEnv)
    requires b.Valid() && Running(b, w) && AllWell(env) && OthersAreForeign(me, answer)
    requires NodeIdFits(node, idMax, topicMax)
    ensures RunsUnanswered(b, w, me, node, idMax, topicMax, jsonMax, "", env, answer)
  {
    UnanswerableRuns(b, w, me, node, idMax, topicMax, jsonMax, "", env, answer);
  }

  /** The longest node ID and the longest request ID of the default build, with its buffers of 64, 128 and 384. */
  lemma LongIdsRunUnanswered(b: Build, w: World, me: nat, env: CommandEnv, answer: ReplyEnv)
    requires b.Valid() && Running(b, w) && AllWell(env) && OthersAreForeign(me, answer)
    ensures NodeIdFits(Repeat('n', 63), 64, 128)
    ensures RunsUnanswered(b, w, me, Repeat('n', 63), 64, 128, 384, Repeat('r', 63), env, answer)
  {
    HeartbeatTopicLength(Repeat('n', 63));
    UnanswerableRuns(b, w, me, Repeat('n', 63), 64, 128, 384, Repeat('r', 63), env, answer);
  }
}
