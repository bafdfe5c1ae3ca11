/** main/main.c: app_main brings the components up one after another and aborts on the first error. */
module Startup {
  import opened Base
  import opened RuntimeConfig
  import opened MotionDetection
  import opened IrIlluminator
  import opened TopicMap
  import opened CommandRouter
  import opened ConfigLaws
  import PublishQueue

  /** Outcomes of the calls a boot makes, and the clock when the detector is started. */
  datatype BootEnv = BootEnv(stored: ReadEnv, ir: PinSetup, irLevel: Err, queue: bool, worker: bool, pir: PirSetup, nowUs: int)

  /** Flash reports a key as missing only if it is. */
  ghost predicate HonestReads(img: Image, outcomes: ReadEnv) {
    forall k | k in img :: outcomes.read(k) != NotFound
  }

  /** A boot that reports no error has read everything there was. */
  lemma CleanBootReadsAll(b: Build, img: Image, outcomes: ReadEnv)
    requires HonestReads(img, outcomes) && InitError(img, outcomes) == Ok
    ensures Restored(b, img, outcomes) == Restore(b, img)
  {
    ReadErrorIsFirst(img, outcomes, 0);
    forall k | k in img ensures ReadStatus(img, outcomes, k) == Ok {
      var j := match k case HbIntS => 0 case MotionEn => 1 case MotionWu => 2 case MotionCd => 3 case IrModeKey => 4;
      assert KeyAt(j) == k;
    }
  }

  predicate IlluminatorComesUp(env: BootEnv) {
    env.ir.valid && env.ir.reset == Ok && env.ir.direction == Ok && env.ir.level == Ok && env.irLevel == Ok
  }

  /** Somebody else may have installed the interrupt service. */
  predicate DetectorComesUp(pir: PirSetup) {
    pir.valid && pir.pin == Ok && pir.service in {Ok, InvalidState} && pir.handler == Ok && pir.worker
  }

  /** No call fails and the node ID fits. */
  ghost predicate BootSucceeds(b: Build, node: string, idMax: nat, topicMax: nat, env: BootEnv) {
    && ReadsGoWell(env.stored)
    && (b.hasIr ==> IlluminatorComesUp(env))
    && 0 < |node| < idMax && |node| + 30 < topicMax
    && env.queue && env.worker
    && (b.hasMotion ==> DetectorComesUp(env.pir))
  }

  /** Static storage of the illuminator as the loader leaves it. */
  ghost predicate LocalAtReset(r: Router)
    reads r.illuminator
  {
    r.Wired() && r.illuminator.State() == IlluminatorState(false, false, false, OutputLevel(r.config.build, false))
  }

  /** Static storage of detector and publish queue. */
  ghost predicate MessagingAtReset(r: Router)
    reads r.detector, r.queue, r.queue.client
  {
    && r.Wired()
    && r.detector.State() == AT_RESET
    && r.detector.defaultWarmupMs == r.config.build.defaults.motionWarmupMs
    && r.detector.defaultCooldownMs == r.config.build.defaults.motionCooldownMs
    && r.queue.State() == PublishQueue.BOOT
  }

  const QUEUE_STARTED := PublishQueue.BOOT.(created := true, handle := true, workers := 1)

  /** Configuration and illuminator, before the network. */
  method StartLocal(r: Router, env: BootEnv) returns (err: Err)
    requires LocalAtReset(r)
    modifies r.config, r.config.nvs, r.illuminator
    ensures r.config.nvs.committed == old(r.config.nvs.committed)
    ensures err == Ok <==>
      && ReadsGoWell(env.stored)
      && (r.config.build.hasIr ==> IlluminatorComesUp(env))
    ensures err == Ok ==>
      && r.config.initialized
      && r.config.Stored() == Restored(r.config.build, r.config.nvs.committed, env.stored)
      && r.illuminator.State() ==
           Driven(r.config.build, IlluminatorState(r.config.build.hasIr, false, false, OutputLevel(r.config.build, false)),
                  r.config.Exposed().irMode, Ok)
  {
    err := r.config.Init(env.stored);
    if err != Ok { return; }
    err := r.illuminator.Init(env.ir);
    if err != Ok { return; }
    err := r.illuminator.ApplyRuntimeConfig(env.irLevel);
  }

  /** Topics, publish queue and detector hardware. */
  method StartMessaging(r: Router, node: string, env: BootEnv) returns (err: Err)
    requires MessagingAtReset(r) && r.topics.topicMax >= 32
    modifies r.topics, r.queue, r.detector
    ensures err == Ok <==>
      && 0 < |node| < r.topics.idMax && |node| + 30 < r.topics.topicMax && env.queue && env.worker
      && (r.config.build.hasMotion ==> DetectorComesUp(env.pir))
    ensures err == Ok ==>
      && r.topics.Ready() && r.topics.nodeId == node && r.queue.State() == QUEUE_STARTED
      && r.detector.State() ==
           if r.config.build.hasMotion then AfterInit(r.detector.defaultWarmupMs, r.detector.defaultCooldownMs) else AT_RESET
  {
    HeartbeatTopicLength(node);
    err := r.topics.Init(node);
    if err != Ok { return; }
    err := r.queue.Init(env.queue);
    if err != Ok { return; }
    err := r.queue.Start(env.worker);
    if err != Ok { return; }
    err := r.detector.Init(env.pir);
  }

  /** Heartbeat interval and detector, from the restored configuration. */
  method StartServices(r: Router, nowUs: int) returns (err: Err)
    requires r.Wired() && HeartbeatIsValid(r.config.heartbeatIntervalS) && (r.config.build.hasMotion ==> r.detector.initialized)
    modifies r.heartbeat, r.detector
    ensures err == Ok && r.heartbeat.intervalS == r.config.heartbeatIntervalS
    ensures var c := r.config.Exposed();
      r.detector.State() ==
        WithSettings(r.config.build.hasMotion, old(r.detector.State()), nowUs, c.motionEnabled, c.motionWarmupMs, c.motionCooldownMs)
  {
    var c := r.config.Exposed();
    err := r.heartbeat.SetInterval(c.heartbeatIntervalS);
    if err != Ok { return; }
    err := r.detector.ApplySettings(c.motionEnabled, c.motionWarmupMs, c.motionCooldownMs, nowUs);
  }

  /** Everything is initialised and restored, heartbeat and detector still to be started. */
  ghost predicate Prepared(r: Router, node: string)
    reads r.config, r.config.nvs, r.illuminator, r.topics, r.queue, r.queue.client, r.detector
  {
    var b := r.config.build;
    && r.config.initialized && r.config.Stored() == Restore(b, r.config.nvs.committed)
    && r.illuminator.State() == Driven(b, IlluminatorState(b.hasIr, false, false, OutputLevel(b, false)), r.config.Exposed().irMode, Ok)
    && r.detector.State() == (if b.hasMotion then AfterInit(b.defaults.motionWarmupMs, b.defaults.motionCooldownMs) else AT_RESET)
    && r.topics.Ready() && r.topics.nodeId == node
    && r.queue.State() == QUEUE_STARTED.(link := PublishQueue.BOOT.link.(created := true))
  }

  method Prepare(r: Router, node: string, env: BootEnv) returns (err: Err)
    requires LocalAtReset(r) && MessagingAtReset(r) && r.topics.topicMax >= 32
    requires HonestReads(r.config.nvs.committed, env.stored)
    modifies r.config, r.config.nvs, r.illuminator, r.topics, r.queue, r.queue.client, r.detector
    ensures r.config.nvs.committed == old(r.config.nvs.committed)
    ensures err == Ok <==>
      BootSucceeds(r.config.build, node, r.topics.idMax, r.topics.topicMax, env)
    ensures err == Ok ==> Prepared(r, node)
  {
    err := StartLocal(r, env);
    if err != Ok { return; }
    MissingKeysAreNoError(r.config.nvs.committed, env.stored);
    CleanBootReadsAll(r.config.build, r.config.nvs.committed, env.stored);
    err := StartMessaging(r, node, env);
    if err != Ok { return; }
    r.queue.client.Create();
  }

  /** A boot succeeds exactly when every call does, and then the node is in the state the laws about runs start from, its
      topics are ready, and the queue has its one worker and nothing to send. */
  method AppMain(r: Router, node: string, env: BootEnv) returns (err: Err)
    requires LocalAtReset(r) && MessagingAtReset(r) && r.config.build.Valid() && r.topics.topicMax >= 32
    requires HonestReads(r.config.nvs.committed, env.stored)
    modifies r.config, r.config.nvs, r.illuminator, r.topics, r.queue, r.queue.client, r.detector, r.heartbeat
    ensures r.config.nvs.committed == old(r.config.nvs.committed)
    ensures err == Ok <==>
      BootSucceeds(r.config.build, node, r.topics.idMax, r.topics.topicMax, env)
    ensures err == Ok ==>
      && r.Node() == BootWorld(r.config.build, r.config.nvs.committed, env.nowUs)
      && r.topics.Ready() && r.topics.nodeId == node
      && r.queue.State() == QUEUE_STARTED.(link := PublishQueue.BOOT.link.(created := true))
      // A fresh node, on which every key is missing, runs on the compiled defaults.
      && (r.config.nvs.committed == map[] ==> r.config.Stored() == r.config.build.defaults)
  {
    err := Prepare(r, node, env);
    if err != Ok { return; }
    RestoredIsSound(r.config.build, r.config.nvs.committed, CLEAN_READS);
    err := StartServices(r, env.nowUs);
  }

  /** After a boot the queue is in a reachable state with worker and client, where transfers may begin. */
  lemma StartedQueueIsServing(lim: PublishQueue.Limits)
    ensures var started := QUEUE_STARTED.(link := PublishQueue.BOOT.link.(created := true));
      && PublishQueue.Run(lim, PublishQueue.BOOT,
           [PublishQueue.CreateQueue(true), PublishQueue.StartWorker(true), PublishQueue.CreateClient]) == started
      && PublishQueue.Serving(lim, started)
  {
    var events := [PublishQueue.CreateQueue(true), PublishQueue.StartWorker(true), PublishQueue.CreateClient];
    PublishQueue.RunKeepsInvariant(lim, PublishQueue.BOOT, events);
    assert events[1..] == [PublishQueue.StartWorker(true), PublishQueue.CreateClient];
    assert events[1..][1..] == [PublishQueue.CreateClient];
  }
}
