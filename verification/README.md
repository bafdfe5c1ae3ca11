# Verification of the vision node firmware

Three parts of the ESP32 vision node are modelled here, and what they promise is proved for every input, every outcome of
a driver call and every interleaving.

**Runtime configuration.** One `cmd/config` message parses a patch, validates it, overlays it on a snapshot of the current
configuration, pushes the whole snapshot into the PIR detector, the IR illuminator and the heartbeat, writes up to five NVS
keys, commits, and mirrors the patch into RAM; on failure it pushes the previous snapshot back. Flash, RAM, the settings of
the services and the level on the GPIO pin have to agree. `RuntimeConfig`, `MotionDetection`, `IrIlluminator`,
`HeartbeatTask` and `CommandRouter` hold the components as classes proved against functions on values; `ConfigLaws` proves
restore, rollback, self-stabilisation and the invariants of whole runs; `ConfigSteps` cuts a command into its single effects,
with worker iterations of the detector in between, and proves crash consistency and what happens to the detector's timing and to the
IR output. `DocumentedEffects` says what commands, toggles and boots do in the words of the documentation: JSON names, ranges,
stored codes, pin levels. `ReplyLaws` proves what is published about a command and which commands can be answered, and `Startup`
runs the boot sequence of `app_main`.

**Image transfer.** A producer splits a buffer into chunks, puts the index of each into its topic and pushes metadata, chunks
and completion marker into a bounded queue it shares with others; one worker retries each message until the MQTT client takes
it. `TopicMap`, `TopicFilters` and `Decimal` cover topics, `PublishQueue` and `MqttService` the queue and the session,
`ImageTransfer` the producer, and `ImageDelivery` a receiver that rebuilds the image from topics alone. `ImageReceiver` adds what
the metadata and done documents tell: a receiver that knows only node and capture learns sizes and counts from them and can tell
when it holds the image. Its `TransferAndDrain` composes the whole pipeline.

**PIR filter.** `MotionFilter` compares the detector, in atomic steps, with a greedy specification on the history of events and
bounds the trigger rate; `MotionInterleaving` runs worker and settings writer one shared-field access at a time.

## Assumptions about the environment

- NVS: writes stay pending until `nvs_commit`; closing or a reset drops them; a failed commit changes nothing; a successful
  commit is atomic. `nvs_open`, each write, the commit and each read may fail independently. `RuntimeConfig.Nvs` states this.
- A failing `gpio_set_level` leaves the pin as it was. Two drives in one command fail or succeed independently.
- `esp_mqtt_client_publish` either takes a message, which is then appended to the wire, or leaves no trace. The session goes up
  and down at any time.
- The FreeRTOS queue is a bounded sequence. A push waits for room and takes effect at one instant, when it returns.
- Flash reports a key as missing only if it is missing.
- A run begins after `app_main` has finished; config commands come one at a time. Memory is sequentially consistent.
- `size_t` and `unsigned` have 32 bits and `int64_t` has 64; all wrap-around is written out. Build-time values are symbolic
  within their Kconfig ranges: the topic buffer holds at least 32 characters, the chunk size lies between 1 and the payload
  size of a queue item. C strings contain no NUL; the clock is positive and below 2^62 microseconds where a theorem says so.

## Where the code and its documentation disagree

The model follows the code.

- `docs/runtime-config.md` promises that a failing command leaves the previous live state. The exact condition under which the
  code does, from any state of a running node, is `ConfigLaws.LiveStateAfterFailure`. It fails in two families of cases.
  If the node agreed with RAM, it fails exactly when the forward push succeeded, the store failed, the IR drive of the rollback
  failed, and the push had changed the IR output or the heartbeat interval (`ConfigLaws.ExactRollback`; an input is in
  `ConfigLaws.RollbackStrandsHeartbeat`). If live settings and RAM had come apart before, a rollback that works imposes the
  settings of RAM (`ConfigLaws.RollbackImposesRam`). Detector timing is not always restored either: a command that had switched
  a running detector off and then fails leaves it in a fresh warm-up (`ConfigSteps.FailedCommandTiming`).
- `docs/motion-detection.md` says that a warm-up change on a running detector affects future checks. The value counts only in the
  call that opens a session: all other calls may carry any warm-up without any edge being treated differently
  (`MotionFilter.IdleWarmupsDoNotMatter`, with an input in `MotionFilter.WarmupChangeWaitsForNextSession`).
- `docs/ir-illuminator.md` says that the output is updated after a successful commit. The code drives it before the store is
  opened (`ConfigSteps.OutputPrecedesStore`), so a commit that fails has driven the pin (`ConfigSteps.FailedCommitHasDrivenPin`).
- `docs/runtime-config.md` rejects commands without a `request_id` because no reply topic could be built. The check does not
  ensure that one can: a command is answerable if and only if its ID is not empty and node ID, request ID and 20 more characters
  stay below the topic buffer's length (`ReplyLaws.AnsweredExactly`). All others run and take effect unanswered
  (`ReplyLaws.UnanswerableRuns`): the empty ID in every build (`ReplyLaws.EmptyIdRunsUnanswered`), and in the default build also
  long IDs on a node with a long name (`ReplyLaws.LongIdsRunUnanswered`). `ReplyLaws.BuildDecidesAnswers` says which builds
  answer every command with a non-empty ID.
- `chunk_count` is 0 for a buffer so long that `data_len + APP_IMAGE_CHUNK_SIZE - 1` wraps; the transfer then reports OK without
  sending a byte of it (`ImageTransfer.ChunkCountCovers`, `ImageDelivery.EndToEnd`). The type of the `data_len` argument admits
  such a length, but it is within one chunk of the whole 32-bit address space, so no real buffer has it.

## Model

| member | source | states |
|---|---|---|
| `RuntimeConfig.Validate` | components/runtime_config/runtime_config.c:105-135 | a patch passes exactly when every field it carries exists in this build and is in range; each refusal blames a field that really offends |
| `RuntimeConfig.ModeTextRoundTrip` | components/runtime_config/runtime_config.c:368-405 | the mode parser and the mode printer are inverse: a text parses to a mode if and only if that mode is valid and prints as the text |
| `RuntimeConfig.PatchImageLookup` | components/runtime_config/runtime_config.c:147-165 | the keys a patch stages are exactly those of the fields it carries, each with its own value |
| `RuntimeConfig.FirstErrorIsKept` | components/runtime_config/runtime_config.c:231-325 | five reads noted one after another report the first real error in key order |
| `RuntimeConfig.Nvs.Commit` | components/runtime_config/runtime_config.c:167-172 | the environment's commit: all pending entries become durable at once, or none do and they stay pending |
| `RuntimeConfig.ConfigStore.RestoreHeartbeat` | components/runtime_config/runtime_config.c:231-245 | a readable, valid entry replaces the default, anything else keeps it; only a first real error is noted |
| `RuntimeConfig.ConfigStore.RestoreEnabled` | components/runtime_config/runtime_config.c:247-268 | the stored flag is honoured only in builds with a PIR; values above 1 keep the default |
| `RuntimeConfig.ConfigStore.RestoreWarmup` | components/runtime_config/runtime_config.c:270-284 | as for the heartbeat interval, with the warm-up range |
| `RuntimeConfig.ConfigStore.RestoreCooldown` | components/runtime_config/runtime_config.c:286-300 | as for the heartbeat interval, with the cooldown range |
| `RuntimeConfig.ConfigStore.RestoreMode` | components/runtime_config/runtime_config.c:302-325 | a valid stored mode is honoured only in builds with an illuminator; invalid ones keep the default |
| `RuntimeConfig.ConfigStore.Init` | components/runtime_config/runtime_config.c:203-335 | after a boot RAM is the restored configuration, flash is unchanged, nothing is pending; it reports OK, and the store is initialised, if and only if the namespace opens and every key reads or is missing |
| `RuntimeConfig.MissingKeysAreNoError` | components/runtime_config/runtime_config.c:227-334 | a missing key is never an error, any other failed read always is |
| `RuntimeConfig.ConfigStore.Exposed` | components/runtime_config/runtime_config.c:338-365 | the getters hide what the build lacks, and nothing else |
| `RuntimeConfig.ConfigStore.StagePatch` | components/runtime_config/runtime_config.c:147-165 | either the whole patch is pending or the error of the first failing write is returned; flash is untouched |
| `RuntimeConfig.ConfigStore.PersistPatch` | components/runtime_config/runtime_config.c:138-176 | all or nothing: flash holds the whole patch or is as before, and nothing stays pending |
| `RuntimeConfig.ConfigStore.ApplyPatchToState` | components/runtime_config/runtime_config.c:179-200 | RAM becomes its overlay by the patch |
| `RuntimeConfig.ConfigStore.ApplyPatch` | components/runtime_config/runtime_config.c:408-423 | RAM and flash both take the patch or neither does |
| `RuntimeConfig.ConfigStore.ValidatePatch` | components/runtime_config/runtime_config.c:426-430 | refuses everything before initialisation and validates afterwards, changing nothing |
| `ConfigLaws.RestoredIsSound` | components/runtime_config/runtime_config.c:203-335 | whatever flash holds and whichever reads fail, boot ends in range with missing features off, so the gated getters hide nothing |
| `ConfigLaws.UnusableEntriesAreIgnored` | components/runtime_config/runtime_config.c:227-325 | unreadable and invalid entries act exactly as absent ones, and empty flash gives the compiled defaults |
| `ConfigLaws.ReadErrorIsFirst` | components/runtime_config/runtime_config.c:227-334 | init reports an error if and only if some read really failed, and then that of the first such key |
| `ConfigLaws.RestoreAfterCommit` | components/runtime_config/runtime_config.c:137-176 | booting from flash with a committed patch gives the patched configuration |
| `ConfigLaws.PartsDecide` | components/runtime_config/runtime_config.c:105-135 | sent field by field in key order, the parts of a patch meet the same first verdict as the whole patch |
| `ConfigLaws.ReplyIsTruthful` | components/messaging/command_router.c:396-422 | the reply is ok, and flags an update, exactly when it should; each error code names its real cause; the configuration it reports is the one RAM holds |
| `ConfigLaws.PatchSurvivesJson` | components/messaging/command_router.c:325-363 | parsing undoes printing for every patch with printable modes, whatever unknown keys the object also carries |
| `ConfigLaws.OverlayCommutesWithGate` | components/messaging/command_router.c:185-206 | the router's overlay on the gated snapshot and the gated RAM overlay agree over every sequence of valid patches |
| `ConfigLaws.OverlayKeepsSound` | components/runtime_config/runtime_config.c:179-200 | ranges and gates survive an acceptable patch |
| `ConfigLaws.PushOutcome` | components/messaging/command_router.c:209-226 | pushing a sound snapshot can fail in the GPIO write only; success makes all services match it, failure leaves IR and heartbeat untouched but the detector already switched |
| `ConfigLaws.RollbackOutcome` | components/messaging/command_router.c:383-394 | what each failing update leaves, from any running state: RAM and flash as before, the detector with the settings of RAM; with a working second drive full agreement; after two failed drives IR and heartbeat as before; after a successful push and a failed second drive the patched ones |
| `ConfigLaws.LiveStateAfterFailure` | components/messaging/command_router.c:383-394 | from any running state, a failed command leaves the live settings as they were if and only if it was turned down early or a condition on the state and the two drives holds that can be checked beforehand |
| `ConfigLaws.ExactRollback` | components/messaging/command_router.c:383-394 | from agreement, a failing command restores every live setting, and keeps agreement, if and only if it is not stranded; RAM, flash and detector settings are always as before |
| `ConfigLaws.RollbackStrandsHeartbeat` | docs/runtime-config.md:91-100 | the documented promise fails: a concrete command leaves interval 10 live while RAM and the reply keep the old one |
| `ConfigLaws.RollbackImposesRam` | docs/runtime-config.md:91-100 | a second failing family, outside agreement: a concrete command whose rollback works moves the live interval from 10 to 30 |
| `ConfigLaws.SuccessEstablishesAgreement` | components/messaging/command_router.c:376-386 | a successful command that changes something makes RAM, detector, IR output and heartbeat agree, whatever mismatch came before; RAM and reply show the patched values |
| `ConfigLaws.BootAgrees` | main/main.c:66-99 | the state a boot ends in agrees with RAM, and RAM is what flash restores |
| `Startup.CleanBootReadsAll` | components/runtime_config/runtime_config.c:227-334 | a boot that reports no error has restored every entry there is |
| `Startup.AppMain` | main/main.c:66-103 | run in order, the initialisation calls succeed together if and only if each driver call does and the node ID fits, missing keys included; then the node is in the boot state of the laws about runs, with topics ready and one queue worker, and on a fresh node RAM holds the compiled defaults |
| `Startup.StartedQueueIsServing` | main/main.c:84-93 | the queue a boot leaves is reachable by its own events and ready for transfers |
| `ConfigLaws.CommandKeepsInvariant` | components/messaging/command_router.c:313-429 | one command, with any failures, keeps RAM equal to what a reboot would restore and the detector's settings equal to RAM's, and never writes keys of missing features |
| `ConfigLaws.OpKeepsInvariant` | components/messaging/command_router.c:313-429 | the same for capture toggles, PIR edges and reboots |
| `ConfigLaws.RunKeepsInvariant` | components/runtime_config/runtime_config.c:408-423 | the same over every run |
| `ConfigLaws.AgreementIsLostOnlyByDisturbance` | components/messaging/command_router.c:383-394 | agreement survives an operation if and only if it is neither a stranded rollback nor a capture toggle in capture mode whose drive fails |
| `ConfigLaws.AgreementAlongRuns` | components/messaging/command_router.c:313-429 | all four copies agree after every run without such an operation |
| `ConfigLaws.UpdateIsDurable` | docs/runtime-config.md:93-100 | after any run a successful update is live, reported, and restored by a reboot |
| `DocumentedEffects.AcceptedExactly` | docs/runtime-config.md:70-87 | in terms of JSON names, types and ranges: when a command is accepted, that a refused one changes nothing, and which error it gets |
| `DocumentedEffects.RefusedBeforeInitialisation` | components/runtime_config/runtime_config.c:426-430 | before initialisation every command fails and changes nothing |
| `DocumentedEffects.AcceptedSucceeds` | components/messaging/command_router.c:365-386 | an accepted command succeeds when no driver call fails, and is an update exactly when it mentions a supported key |
| `DocumentedEffects.HeartbeatEffect` | docs/runtime-config.md:24-30 | after a successful command the number in the JSON is in RAM, in flash, in the reply and in the heartbeat; without the key nothing of it changes |
| `DocumentedEffects.EnableEffect` | docs/runtime-config.md:24-30 | the same for the enable flag, stored as 1 or 0, and the running detector |
| `DocumentedEffects.WarmupEffect` | docs/runtime-config.md:24-30 | the same for the warm-up and the detector's warm-up |
| `DocumentedEffects.CooldownEffect` | docs/runtime-config.md:24-30 | the same for the cooldown and the detector's cooldown |
| `DocumentedEffects.ModeEffect` | docs/runtime-config.md:24-30 | the same for the mode, whose texts off, on and capture are stored as 0, 1 and 2 |
| `DocumentedEffects.CommandSetsLight` | components/illumination/ir_illuminator.c:21-53 | after a successful command, mode on drives the pin to its on level, which is 1 on active-high builds and 0 on others, mode off to the opposite, and capture as the capture flag asks |
| `DocumentedEffects.ToggleSetsLight` | components/illumination/ir_illuminator.c:130-145 | a successful capture toggle drives the pin at once, as toggled in capture mode, and as the mode asks otherwise |
| `DocumentedEffects.LightFollowsLastToggle` | docs/ir-illuminator.md:124-136 | in capture mode the light is as the last successful toggle left it, over every run in which nothing else reached the pin since |
| `DocumentedEffects.LightAlongRuns` | docs/ir-illuminator.md:51-57 | from boot, over every undisturbed run: on in mode on, off in mode off, and as last toggled in mode capture |
| `DocumentedEffects.CaptureFlagAlong` | components/illumination/ir_illuminator.c:130-145 | over every run the capture flag is that of the last toggle since boot, whether or not its drive worked |
| `DocumentedEffects.FailedToggleTakesEffectLater` | components/illumination/ir_illuminator.c:130-145 | a toggle whose drive failed lights the illuminator with the next successful update |
| `DocumentedEffects.BootValues` | docs/runtime-config.md:36-55 | entry by entry, a boot takes a stored value in range and the compiled default otherwise, with missing features off |
| `DocumentedEffects.BootServices` | main/main.c:66-99 | the services a boot leaves follow those values, with the light off unless the mode is on and an enabled detector in its warm-up |
| `ConfigSteps.CrashConsistency` | components/runtime_config/runtime_config.c:137-176 | stopped after any single effect, the next boot restores exactly the old configuration before the commit and exactly the patched one from the commit on |
| `ConfigSteps.FlashAlong` | components/runtime_config/runtime_config.c:138-176 | flash changes at the commit effect and nowhere else, with the whole patch pending in front of it |
| `ConfigSteps.TimingAlong` | components/detection/motion_detection.c:57-108 | through every effect and every worker iteration the detector has the settings of the phase it is in, and a stopped one has no timestamps |
| `ConfigSteps.FailedCommandTiming` | components/detection/motion_detection.c:71-97 | a failed command leaves a stopped detector untouched and a running one in its session, unless it had switched it off: then warm-up starts afresh and earlier triggers are forgotten |
| `ConfigSteps.OutputPrecedesStore` | components/messaging/command_router.c:376-386 | from the moment the store is opened, IR output, pin and heartbeat are those of the new configuration while RAM is still the old one, under every interleaving with edges |
| `ConfigSteps.FailedCommitHasDrivenPin` | docs/ir-illuminator.md:117-122 | a concrete command whose commit fails has taken the pin from the off level to the on level with RAM and flash still off |
| `ConfigSteps.StepsAreTheCommand` | components/messaging/command_router.c:376-395 | run without interruption, the single effects end where the whole command ends, with the same success |
| `CommandRouter.ExtractU32` | components/messaging/command_router.c:96-130 | a number is taken exactly when it is a whole number in the 32-bit range, with its value |
| `CommandRouter.ParsePatch` | components/messaging/command_router.c:325-363 | parsing succeeds if and only if every supported key that occurs is well typed, and yields its fields |
| `CommandRouter.Router.ApplyLiveConfig` | components/messaging/command_router.c:209-226 | the services end as the ordered push of the snapshot says, up to the first failure |
| `CommandRouter.Router.ApplyUpdate` | components/messaging/command_router.c:376-395 | push, store, and push back on any failure, ignoring the outcome of that |
| `CommandRouter.Router.ExecuteConfig` | components/messaging/command_router.c:313-422 | new state of the whole node and full content of the reply |
| `CommandRouter.Router.PublishReply` | components/messaging/command_router.c:240-249 | a reply is pushed on the topic of its request, or the formatting error is returned and the queue is left alone |
| `CommandRouter.Router.Announce` | components/messaging/command_router.c:415-422 | the queue after the event part of an answer (ReplyLaws.PublishedExactly says when there is one) |
| `CommandRouter.Router.SendReply` | components/messaging/command_router.c:252-261 | a reply that prints and has a topic is pushed, any other is dropped |
| `CommandRouter.Router.Answer` | components/messaging/command_router.c:402-428 | event and reply in this order, among whatever other tasks push, and nothing when the reply object cannot be allocated |
| `CommandRouter.Router.HandleConfig` | components/messaging/command_router.c:313-429 | the command takes its effect on the node whatever becomes of its answer, and the answer reflects it |
| `CommandRouter.CommandTopicFits` | components/messaging/command_router.c:502-505 | no command topic of this node is refused as oversized |
| `CommandRouter.Router.Handle` | components/messaging/command_router.c:495-553 | a message is acted on exactly when topic, length, JSON and request ID qualify; only config commands change the node, and their event and reply go to the queue |
| `CommandRouter.DispatchIsUnique` | components/messaging/command_router.c:542-550 | a topic selects one handler, so the order of the dispatch chain is immaterial |
| `TopicMap.ReplyTopicFits` | components/messaging/topic_map.c:137-151 | a reply topic can be built if and only if the request ID is not empty and leaves room for the node ID and 20 characters |
| `ReplyLaws.AnsweredExactly` | components/messaging/command_router.c:240-249 | a config command with a printable reply is answered if and only if it has a reply topic |
| `ReplyLaws.NeverAnswered` | components/messaging/command_router.c:240-249 | without a reply topic no environment gets a reply offered |
| `ReplyLaws.PublishedExactly` | components/messaging/command_router.c:402-428 | exactly what is published about a command: the event, if and only if the command succeeded and mentioned a supported key, then the reply, each with its topic, payload, quality of service and retain flag, each at most once |
| `ReplyLaws.BuildDecidesAnswers` | components/messaging/command_router.c:158-168 | every accepted non-empty request ID is answerable on every node if and only if 2 * idMax + 18 < topicMax or idMax < 12 |
| `ReplyLaws.UnanswerableRuns` | docs/runtime-config.md:79-87 | every ID that passes the check without a reply topic lets an update become live and durable unanswered |
| `ReplyLaws.EmptyIdRunsUnanswered` | docs/runtime-config.md:79-87 | the empty ID does so in every build |
| `ReplyLaws.LongIdsRunUnanswered` | docs/runtime-config.md:79-87 | in the default build IDs of 63 characters on a node named by 63 characters do too |
| `MotionDetection.AcceptsPlainly` | components/detection/motion_detection.c:118-136 | below 2^62 microseconds the wrapped comparison is the plain one |
| `MotionDetection.Detector.Init` | components/detection/motion_detection.c:148-196 | initialised once, only if every set-up call succeeds, with an already installed interrupt service accepted; not started, compiled timing, no timestamps |
| `MotionDetection.Detector.ApplySettings` | components/detection/motion_detection.c:57-108 | disabling clears timing, enabling arms with a fresh warm-up, a running detector changes its parameters only |
| `MotionDetection.Detector.TaskIteration` | components/detection/motion_detection.c:111-145 | what one wake-up accepts and remembers |
| `MotionDetection.Detector.IsArmed` | components/detection/motion_detection.c:219-226 | armed means exactly that an edge seen now would be accepted but for the cooldown |
| `MotionFilter.AcceptsGreedily` | components/detection/motion_detection.c:111-145 | over every trace of edges and settings calls an edge is accepted if and only if the greedy specification on the history accepts it |
| `MotionFilter.LogIsGreedy` | components/detection/motion_detection.c:111-145 | the whole trigger log equals the greedy one |
| `MotionFilter.ArithmeticIsExact` | components/detection/motion_detection.c:87-138 | no 64-bit sum, difference or product wraps on a sane clock |
| `MotionFilter.ClockZeroSuspendsCooldown` | components/detection/motion_detection.c:133-138 | the sentinel needs a positive clock: accepted at time 0, the next edge is accepted inside the cooldown |
| `MotionFilter.IdleWarmupsDoNotMatter` | components/detection/motion_detection.c:67-97 | traces that differ only in warm-up values of calls that open no session accept the same edges |
| `MotionFilter.WarmupChangeWaitsForNextSession` | docs/motion-detection.md:81-88 | a running detector given no warm-up still rejects an edge that it would accept had the opening call carried the new value |
| `MotionFilter.SteadySpacing` | components/detection/motion_detection.c:130-138 | acceptances of an uninterrupted stretch at constant cooldown are that far apart |
| `MotionFilter.WindowCount` | components/detection/motion_detection.c:130-138 | n times a gap apart need a window of (n - 1) gaps, so a window of length L holds at most L / gap + 1 |
| `MotionFilter.TriggerRate` | components/detection/motion_detection.c:130-138 | within such a stretch any window of length L holds at most L / cooldown + 1 triggers |
| `MotionInterleaving.RunKeepsInvariant` | components/detection/motion_detection.c:67-141 | the invariant of worker and writer under every interleaving of single accesses, with 64-bit arithmetic and a clock below 2^62 |
| `MotionInterleaving.InterleavedWarmupIsHonoured` | components/detection/motion_detection.c:82-124 | for all compiled defaults, an iteration no disabling call overlaps accepts only past its session's warm-up, and consecutive acceptances keep the cooldown |
| `MotionInterleaving.UninterruptedCall` | components/detection/motion_detection.c:57-108 | a settings call nothing interrupts is the atomic one |
| `MotionInterleaving.UninterruptedIteration` | components/detection/motion_detection.c:111-145 | a worker iteration nothing interrupts is the atomic one |
| `MotionInterleaving.OverlapCanBreakWarmup` | components/detection/motion_detection.c:71-138 | the proviso is needed: a run in which an overlapped iteration accepts a second too early and leaves a stopped detector with a trigger |
| `IrIlluminator.Illuminator.DriveOutput` | components/illumination/ir_illuminator.c:46-53 | pin and remembered output change together or not at all |
| `IrIlluminator.Illuminator.ApplyOutput` | components/illumination/ir_illuminator.c:56-77 | the output follows the mode and the capture flag; a failed write changes nothing |
| `IrIlluminator.Illuminator.Init` | components/illumination/ir_illuminator.c:80-109 | ready only once the pin is set up and the safe level is on it; each set-up error is returned; repeated calls change nothing |
| `IrIlluminator.Illuminator.ApplyRuntimeConfig` | components/illumination/ir_illuminator.c:112-115 | the output follows the gated mode of RAM |
| `IrIlluminator.Illuminator.ApplyMode` | components/illumination/ir_illuminator.c:118-127 | an explicit mode is driven without reading RAM: lit in mode 1, dark in mode 0, and in mode 2 as the capture flag says; unknown modes are refused |
| `IrIlluminator.Illuminator.SetCaptureActive` | components/illumination/ir_illuminator.c:130-145 | the capture flag is kept even when the drive fails; a successful drive follows the mode in RAM and the new flag |
| `HeartbeatTask.Heartbeat.SetInterval` | components/messaging/heartbeat_task.c:71-79 | an interval out of range is refused and the old one stays |
| `HeartbeatTask.Heartbeat.DelayMs` | components/messaging/heartbeat_task.c:50 | no accepted interval wraps the 32-bit product in the delay |
| `Decimal.ParsePrint` | components/messaging/topic_map.c:179 | parsing undoes printing, and printed numbers have no leading zero |
| `Decimal.PrintParse` | components/messaging/topic_map.c:179 | printing undoes parsing on every decimal without leading zeros |
| `Decimal.PrintIsInjective` | components/messaging/topic_map.c:179 | two indices never print alike |
| `Decimal.PrintGrows` | components/messaging/topic_map.c:179 | larger numbers never print shorter |
| `Decimal.LengthStepsAtPowersOfTen` | components/messaging/topic_map.c:179 | the text gets longer only on reaching a power of ten |
| `TopicMap.DecodeInvertsRender` | components/messaging/topic_map.c:137-202 | a topic decodes to a thing if and only if the thing renders to that topic, even when IDs contain slashes |
| `TopicMap.RenderIsInjective` | components/messaging/topic_map.c:137-202 | no two published things share a topic |
| `TopicMap.TopicTable.FormatChecked` | components/messaging/topic_map.c:27-36 | fails exactly when the text does not fit with its terminator |
| `TopicMap.TopicTable.Init` | components/messaging/topic_map.c:45-74 | succeeds if and only if the node ID is not empty, fits, and leaves room for the longest topic; then every cached string is the documented one |
| `TopicMap.TopicTable.IsPing` | components/messaging/topic_map.c:113-116 | after init, exactly the node and the broadcast ping topic |
| `TopicMap.TopicTable.IsReboot` | components/messaging/topic_map.c:119-122 | after init, exactly the node and the broadcast reboot topic |
| `TopicMap.TopicTable.IsConfig` | components/messaging/topic_map.c:125-128 | after init, exactly the node and the broadcast config topic |
| `TopicMap.TopicTable.IsCapture` | components/messaging/topic_map.c:131-134 | after init, exactly the node and the broadcast capture topic |
| `TopicMap.TopicTable.FormatReply` | components/messaging/topic_map.c:137-151 | the buffer gets the rendered reply topic, cut to size; errors say which |
| `TopicMap.TopicTable.FormatImageMeta` | components/messaging/topic_map.c:154-168 | the same for the metadata topic |
| `TopicMap.TopicTable.FormatImageChunk` | components/messaging/topic_map.c:171-185 | the same for the chunk topic |
| `TopicMap.TopicTable.FormatImageDone` | components/messaging/topic_map.c:188-202 | the same for the done topic |
| `TopicFilters.AcceptedIsSubscribed` | components/messaging/mqtt_service.c:110-111 | every topic a command predicate accepts matches a subscribed filter under section 4.7 of MQTT 3.1.1 |
| `TopicFilters.CommandsAreExclusive` | components/messaging/topic_map.c:113-134 | the four predicates are pairwise disjoint |
| `TopicFilters.NoSelfCommand` | components/messaging/topic_map.c:39-74 | nothing the node publishes, for any ID, is classified as a command or matches its subscriptions |
| `MqttService.Client.OnConnected` | components/messaging/mqtt_service.c:102-112 | the session flag goes up and the presence message bypasses the queue |
| `MqttService.Client.OnDisconnected` | components/messaging/mqtt_service.c:114-117 | the session flag goes down and nothing else changes |
| `MqttService.Client.PublishImmediate` | components/messaging/mqtt_service.c:211-234 | accepted messages are appended to the wire; refusals leave no trace |
| `PublishQueue.WireNeedsSession` | components/messaging/mqtt_service.c:222-225 | nothing reaches the wire unless the session is up |
| `PublishQueue.StepKeepsInvariant` | components/messaging/publish_queue.c:28-116 | each event of producers, worker and network conserves and orders the accepted pushes |
| `PublishQueue.RunKeepsInvariant` | components/messaging/publish_queue.c:28-116 | so does every run; history is only appended to |
| `PublishQueue.DeliveredIsPrefix` | components/messaging/publish_queue.c:28-45 | what was delivered is the oldest part of what was accepted, item by item; at most queue length + 1 are missing |
| `PublishQueue.DeliveryOrder` | components/messaging/publish_queue.c:28-116 | from boot, over every interleaving: FIFO, each producer's order, the bound on undelivered items, at most one worker |
| `PublishQueue.OwnedByPrefix` | components/messaging/publish_queue.c:28-116 | a producer's share of a prefix is a prefix of its share |
| `PublishQueue.BudgetIsProduct` | components/messaging/publish_queue.c:32-44 | the attempts allowed for n items are n * (k + 1) |
| `PublishQueue.Queue.Init` | components/messaging/publish_queue.c:48-60 | creates the queue once; later calls keep its content |
| `PublishQueue.Queue.Start` | components/messaging/publish_queue.c:63-79 | creates one worker, once, and only after the queue exists |
| `PublishQueue.Queue.PushItem` | components/messaging/publish_queue.c:82-117 | a push succeeds if and only if the queue exists, topic and payload fit and there is room; then the item is appended unchanged; each refusal names its cause and leaves the queue alone |
| `PublishQueue.Queue.TaskReceive` | components/messaging/publish_queue.c:33-35 | an idle worker takes the oldest item |
| `PublishQueue.Queue.TaskAttempt` | components/messaging/publish_queue.c:41-43 | an attempt delivers the item in flight or keeps it |
| `PublishQueue.Queue.Interfere` | components/messaging/publish_queue.c:28-116 | whatever other tasks do is a run of the queue's events |
| `PublishQueue.OthersOnlyAppend` | components/messaging/publish_queue.c:82-117 | whatever the rest of the node does, the worker's item stays, the queue grows at its end only, and nothing that came through it is delivered |
| `PublishQueue.OldestFirst` | components/messaging/publish_queue.c:28-45 | after n deliveries exactly the n oldest items have arrived, in order, and the others still come before all later pushes |
| `PublishQueue.Queue.AttemptAmid` | components/messaging/publish_queue.c:41-43 | after anything else has happened, an attempt delivers the item in flight exactly when the session is up and the client willing |
| `PublishQueue.Queue.RetryUntilAccepted` | components/messaging/publish_queue.c:41-43 | the inner loop ends within k + 1 attempts with this item delivered once and nothing lost, under any pushes, direct publications and reconnects in between |
| `PublishQueue.Queue.ServeOne` | components/messaging/publish_queue.c:32-44 | one turn delivers exactly one item, the oldest |
| `PublishQueue.Queue.Serve` | components/messaging/publish_queue.c:32-44 | if at most k attempts in a row are refused, the item at position p arrives in order within (p + 1) * (k + 1) attempts, whatever is pushed meanwhile |
| `PublishQueue.Queue.Drain` | components/messaging/publish_queue.c:32-44 | when nobody pushes any more, the queue empties in order within (items) * (k + 1) attempts |
| `ImageTransfer.ChunkCountCovers` | components/messaging/image_transfer.c:35 | without a wrap the count is the rounded-up quotient; with one it is 0 although there are bytes to send |
| `ImageTransfer.ChunkIsInside` | components/messaging/image_transfer.c:73-78 | for every index the loop visits nothing wraps, the window lies inside the image, and all but the last are full |
| `ImageTransfer.CutWindow` | components/messaging/image_transfer.c:74-78 | the bytes cut with wrapping arithmetic are the window of the index |
| `ImageTransfer.PushAmongOthers` | components/messaging/mqtt_service.c:199-202 | interference and one push: the producer's own history grows by that item or not at all |
| `ImageTransfer.PublishMeta` | components/messaging/image_transfer.c:37-71 | pushes the metadata message, or stops with the error that belongs to the failing step |
| `ImageTransfer.PublishChunk` | components/messaging/image_transfer.c:81-93 | pushes exactly the chunk of this index; a size error means the topic is too long |
| `ImageTransfer.PublishChunks` | components/messaging/image_transfer.c:73-94 | pushes chunks 0 to index - 1, in order; OK exactly when that is all of them |
| `ImageTransfer.PublishDone` | components/messaging/image_transfer.c:96-121 | pushes the completion marker behind all chunks, or nothing |
| `ImageTransfer.Publish` | components/messaging/image_transfer.c:12-122 | whatever happens in between, a prefix of the plan is pushed, all of it exactly when OK is reported, and the error tells where and why it stopped; with room for the whole plan, messages that fit and nobody else pushing it reports OK |
| `ImageTransfer.ForeignKeepsMine` | components/messaging/publish_queue.c:82-117 | nothing other tasks do changes what this producer has pushed |
| `ImageTransfer.ChunkTopicsGrow` | components/messaging/topic_map.c:171-185 | chunk topics never get shorter with the index, so if the last fits all do |
| `ImageTransfer.FirstOversizedIndex` | components/messaging/image_transfer.c:81-83 | the first chunk topic that does not fit has index 0 or a power of ten |
| `ImageTransfer.DoneFitsWhenMetaDoes` | components/messaging/image_transfer.c:97-99 | the done topic is exactly as long as the metadata topic, so it cannot fail after it |
| `ImageTransfer.ChunkFitsQueueItem` | components/messaging/publish_queue.c:94-100 | a chunk whose topic formats fits a queue item, so only a missing or full queue refuses it |
| `ImageDelivery.PrefixSafety` | components/messaging/image_transfer.c:68-121 | at every moment of a run in which a producer ends up having pushed a prefix of its plan, what it had pushed and what was delivered are prefixes of it; a delivered done marker means everything before it was delivered |
| `ImageDelivery.DoneIsLast` | components/messaging/image_transfer.c:120-121 | the completion marker occurs once in the plan, at its end |
| `ImageDelivery.OtherTopicsAreUnrelated` | components/messaging/topic_map.c:137-202 | nothing else the node publishes uses a chunk topic of this capture |
| `ImageDelivery.RebuildIsSound` | docs/ethernet-mqtt.md:511-581 | a receiver never holds a wrong byte, whatever it has missed so far |
| `ImageDelivery.ChunkStaysPlaced` | docs/ethernet-mqtt.md:511-581 | a received chunk fills its window whatever arrives before or after |
| `ImageDelivery.RebuildIsExact` | components/messaging/image_transfer.c:35-94 | with every chunk received, in any order and multiplicity, the rebuilt picture is the image if and only if the count did not wrap |
| `ImageDelivery.DrainedMembers` | components/messaging/publish_queue.c:28-45 | with nothing undelivered, an item has come through the queue if and only if some producer had it accepted |
| `ImageDelivery.DeliveredChunks` | components/messaging/publish_queue.c:28-45 | a drained queue has delivered every chunk of a complete transfer, and nothing else that a receiver could mistake for one |
| `ImageDelivery.EndToEnd` | components/messaging/image_transfer.c:12-122 | from boot, over every interleaving: once a producer has pushed its plan and the queue is drained, a receiver rebuilds exactly the image from topics alone, if and only if the count did not wrap |
| `ImageDelivery.TransferEnds` | components/messaging/image_transfer.c:12-122 | for a producer that pushed the first messages of its plan: prefixes at all times, the marker delivered if and only if it pushed all, and then the image for every receiver |
| `ImageReceiver.PlanIsAsDocumented` | docs/ethernet-mqtt.md:477-577 | topic, quality of service and retain flag of every message of a transfer |
| `ImageReceiver.DocumentsAreRead` | components/messaging/image_transfer.c:55-61 | read back, the first message names the capture, the caller's content type or application/octet-stream, and the image's own size, chunk size and number of chunks; the last names capture and number |
| `ImageReceiver.CompleteExactly` | docs/ethernet-mqtt.md:477-581 | with any part of the chunks in any order and multiplicity, the distinct indices are as many as announced exactly when the bytes are, and exactly when the picture is the image |
| `ImageReceiver.ReceiverUnderstands` | components/messaging/image_transfer.c:37-121 | of a drained complete transfer every receiver finds one consistent metadata and done document, and with the metadata's own numbers its chunks are complete and the picture is the image |
| `ImageReceiver.TransferAndDrain` | components/messaging/image_transfer.c:12-122 | the transfer procedure itself, other tasks, then the worker under refusals and reconnects: the done marker arrives if and only if the transfer reported OK, then every receiver rebuilds the image, if and only if the count did not wrap, and one that reads the documents needs nothing but node and capture |

## Left out

- ethernet_service.c: PHY, netif and DHCP plumbing over libraries that are not part of the repository.
- cJSON parsing and printing: a command is an already parsed map from names to values with numbers as reals, so infinities and NaN do not occur; a printed document is `Job.rendered`, which fits its buffer or does not.
- FreeRTOS, NVS, GPIO, esp_timer and esp-mqtt internals, QoS redelivery, the outbox and the broker: only the assumptions above.
- The content of presence messages and the Last Will: they depend on the broker.
- The ping, capture and reboot handlers beyond dispatch: what they publish is single-branch code around the queue.
- Logging, NULL-pointer checks, pin numbers, GPIO and ISR set-up: facts of one branch each.
- The time a push may wait for room (500 ms) and the pauses of the worker (250 ms): a push has its effect when it completes.
- Notifications that coalesce while the worker is busy: each worker iteration stands for one or more edges.
- Commands or edges that arrive before `app_main` has finished, and capture toggles in the middle of a config command.
- Weak-memory effects and torn 64-bit accesses.
- Overlapping disabling calls in the interleaving theorem: nothing is promised for them, and `MotionInterleaving.OverlapCanBreakWarmup` shows why.
- ImageDelivery.EndToEnd: assumes that a capture ID is used for one transfer and that no other publisher uses its chunk topics.
- ImageReceiver.TransferAndDrain: the same assumption; the worker may run during the transfer too, and nobody pushes while the queue drains at the end.
- MqttService.Client.OnConnected: the two subscribe requests are not recorded, because their outcome is ignored and delivery of commands is the broker's.
- TopicMap.TopicTable.Init: on failure only the error is stated, not which cached strings were cut short, because `app_main` aborts then.
- PublishQueue.Queue.PushItem: a queue item holds its topic and payload as values; the fixed arrays with their zero padding are not modelled.
- PublishQueue.Queue.TaskReceive: the blocking receive of an empty queue is a step that changes nothing.
- ImageTransfer.Publish: the allocation of the JSON root object is one boolean for each message; failures inside it show up as a document that does not fit.
