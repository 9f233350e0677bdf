# zap-stream: verified model

A Dafny model of the parts of zap-stream whose correctness depends on whole runs rather than on
one function body. `dafny verify dfyconfig.toml` checks everything.

What the source updates in place is a class here (`FrameReorderBuffer`, `PipelineRunner`,
`ZapStreamDb`, `CfApiWrapper`, `FrameGenerator`, `MuxerEgress`, `N94Publisher`, `BufferedReader`, …).
Its methods are proved against functions or relations on values, and the theorems are about every
run of those. Protocols between threads and between webhooks are transition systems whose labels
carry all choices of the outside.

| area | modules | main results |
|---|---|---|
| video timestamps | `Reorder`, `ReorderTheorems`, `ReorderLimit`, `Timestamps`, `Rescale`, `Keyframes`, `VideoPath`, `VideoTheorems` | any input with at most four frames of disorder is repaired; gap-free video is repaired if and only if it has at most sixteen and its first frame is among the first five; constant latency; the law of the repaired timeline and exactly when it holds; exactly when timestamps increase; keyframe spacing end to end |
| what variants receive | `Sending`, `Connection` | with failing sends: who misses what, and strictly increasing time for all |
| endpoint configuration | `Params`, `Egress`, `Capabilities`, `Dedup`, `Endpoint`, `Recordings`, `Ladder`, `LadderSteps`, `Configurator`, `Renditions`, `H264Level` | deduplication preserves meaning and is minimal; the configuration passes its own check; the exact ladder and egress map; every variant field by field; exactly what parses |
| money | `Sums`, `Ledger`, `LedgerTheorems`, `Billing`, `Poller`, `LiveBilling`, `LiveBillingRuns`, `Overseer` | conservation; exactly-once crediting; the token-bucket law; rounding; the debt bound for every number of failed ends; exactly when charged time stays within time live |
| Cloudflare streams | `Lifecycle`, `LifecycleTheorems` | at most one live stream for a user and key; ends meet their starts |
| pipeline shutdown | `Shutdown`, `ShutdownTheorems`, `WorkerThread`, `Failures` | one `on_end` a life; FIFO queues with the flush last; no packet is lost unless a command fails; every flush ends |
| test generator | `Generator` | the audio lead bound; frames on time; exact progress condition |
| egress and ingest | `Reconnect`, `Blossom`, `IngestBuffer` | writes only to a complete context, and exactly which packets; disabling is exact and absorbing; the buffer is a suffix queue |

`Wrappers` and `Arith` hold shared datatypes and facts about products and quotients.

## Where the code does not do what one might expect

Each of these is a theorem with the exact condition or a concrete run.

- The i64 arithmetic of the repair can saturate. A timestamp at the very end of the range is repeated:
  `Timestamps.TimelineIncreasesIff`, `Timestamps.LastTickRepeats`. A forward step that saturates still
  advances but leaves a wrong offset behind, which moves a later frame: `Timestamps.MangleLawIff`,
  `Timestamps.SaturationSkewsTheEntry`.
- A send that fails because one worker has given up cuts the rest of its batch off from every variant
  of the stream: `Sending.Workers.SendBatch`, `Connection.SomebodyMisses`.
- An eligible requested height that is odd is transcoded at the next even height, so the requested
  ladder appears iff all eligible heights are even: `Configurator.LadderIsProducedIff`,
  `Configurator.OddHeightIsNotProduced`.
- An aspect width that rounds to 65535 saturates there, is odd, and wraps to zero:
  `Endpoint.WidthKeepsAspect`.
- The audit of a withdrawal is clean iff the payment was recorded with the negated amount. The comment
  above the audit query (crates/zap-stream-db/src/db.rs:1215-1218) says that amounts are always
  added to the balance when paid; completing a withdrawal only subtracts the fee:
  `LedgerTheorems.WithdrawalAudit`.
- A shutdown command that precedes the first packet lets the stream start after `on_end`:
  `ShutdownTheorems.CommandBeforeSetup`, `ShutdownTheorems.LateStart`.
- A repeated connect of a custom key ends the live show if the mapping has expired and publishing
  fails: `LifecycleTheorems.RepeatedConnect`, `LifecycleTheorems.RepeatedConnectEndsAShow`.
- A custom key that expires during its show no longer resolves, so its disconnect ends nothing:
  `LifecycleTheorems.DisconnectEnds`, `LifecycleTheorems.KeyExpires`.
- A row is billed by the clock since its `starts`, which is set when the row is created and never
  moves. A show that goes live long after its key was created, or a row that was resumed, is charged
  for time it was not live: `LiveBilling.BilledWithinLiveIff`, `LiveBillingRuns.WaitingIsBilled`.
- After a bill the poller may write back the row as it read it before, at the first poll of every
  stream for one. The row then forgets the bill, and the next poll charges that time again:
  `LiveBilling.BilledWithinLiveIff`, `LiveBillingRuns.FirstBillIsForgotten`, by at most 120 s each
  time: `LiveBilling.ExcessIsBounded`, `LiveBillingRuns.ExcessIsAttained`.
- A stream whose money has run out is billed on while its end cannot be published, so the debt grows
  by two minutes' price a failure: `Poller.DebtIsBounded`, `Poller.DebtBoundIsAttained`.
- An audio timebase coarser than one audio frame stalls the generator: `Generator.VideoComesIff`,
  `Generator.CoarseAudioTimebaseStalls`.
- Catch-up billing in half-minute polls can charge twice the price of a one-unit rate:
  `Billing.RoundingBoundIsTight`.
- A chunk longer than the whole ingest buffer panics: `IngestBuffer.BufferedReader.AddData`.
- The comment at crates/core/src/endpoint.rs:79-80 says that audio is always transcoded at 192 kb/s.
  Only HLS forces that bitrate, and a copied group asks for audio only if the source is AAC already;
  the model follows the code: `Egress.EgressAsksFor`.

## Model

| member | source | states |
|---|---|---|
| `Reorder.FrameReorderBuffer.constructor` | crates/core/src/reorder.rs:58-65 | a fresh buffer is empty and expects no particular timestamp |
| `Reorder.FrameReorderBuffer.Pop` | crates/core/src/reorder.rs:19-24 | a pop removes some frame of least timestamp; ties are left open |
| `Reorder.FrameReorderBuffer.EmitReady` | crates/core/src/reorder.rs:82-107 | the gated loop emits minima while more than four frames are buffered and the least one is due, and stops exactly when the gate closes |
| `Reorder.FrameReorderBuffer.ForceOldest` | crates/core/src/reorder.rs:109-115 | above sixteen frames the oldest one leaves, otherwise none does |
| `Reorder.FrameReorderBuffer.Push` | crates/core/src/reorder.rs:69-118 | a push is one step of the relation that whole runs are folded from: gated emission, or the safety valve |
| `Reorder.FrameReorderBuffer.Flush` | crates/core/src/reorder.rs:121-128 | a flush returns the whole content in presentation order and resets the buffer |
| `ReorderTheorems.BoundedDisorderIsRepaired` | crates/core/src/reorder.rs:69-128 | if no frame is preceded by more than four later ones, all pushes and the flush together emit the sorted permutation of the input, however ties are broken |
| `ReorderTheorems.EmitRepaired` | crates/core/src/reorder.rs:82-107 | each emission keeps what is out sorted, below everything buffered, and backed by five frames that are not earlier |
| `ReorderTheorems.PushRepaired` | crates/core/src/reorder.rs:69-118 | a whole push keeps that invariant, safety valve included |
| `ReorderTheorems.RunConserves` | crates/core/src/reorder.rs:69-118 | for arbitrary input pushed frames are emitted frames plus buffered frames, as multisets, and at most sixteen are buffered after a push |
| `ReorderTheorems.PushReleasesIff` | crates/core/src/reorder.rs:77-115 | for any input: a push lets something go if and only if more than four frames are buffered and one starts no later than pts + duration of the last frame that left, or nothing has left yet, or the buffer is over sixteen; and it goes on until that is no longer so |
| `ReorderTheorems.ConstantLatency` | crates/core/src/reorder.rs:77-117 | on gap-free video with at most four frames of disorder the buffer holds exactly min(n, 4) frames after n pushes and the first n - 4 frames of the show are out |
| `ReorderTheorems.SteadyRun` | crates/core/src/reorder.rs:77-117 | on such video each push from the fifth on releases exactly the next frame of the show, so the safety valve never fires |
| `ReorderLimit.DisorderLimit` | crates/core/src/reorder.rs:69-128 | on gap-free video the pushes and the flush emit the show in order if and only if no frame is preceded by more than sixteen later ones and the first frame of the show is among the first five to arrive; however ties are broken |
| `ReorderLimit.RunKeepsOrder` | crates/core/src/reorder.rs:82-107 | under that condition what has left after any number of pushes is exactly a beginning of the show, and the buffer expects its next frame |
| `ReorderLimit.PushIsGated` | crates/core/src/reorder.rs:109-115 | under that condition no push uses the safety valve |
| `ReorderLimit.SortedNeedsRoom` | crates/core/src/reorder.rs:109-115 | if what the pushes emit is a beginning of the show, the later frames that arrived before any frame still sit in the buffer, so there are at most sixteen |
| `ReorderLimit.FifthPushReleases` | crates/core/src/reorder.rs:85-87 | after five pushes something has left, whatever arrived |
| `ReorderLimit.FiveFramesOfDisorderAreNotRepaired` | crates/core/src/reorder.rs:85-87 | instance: of six frames the first arrives last, which is five frames of disorder, and the output is always out of order |
| `Timestamps.MangleAdvancesIff` | crates/core/src/pipeline/runner.rs:238-277 | from any entry with a last output, the repaired timestamp exceeds it if and only if there is a later tick and the ticks missing to it can be measured and added to the offset within i64 |
| `Timestamps.MangleLawIff` | crates/core/src/pipeline/runner.rs:238-277 | from such an entry one step advances by the law and leaves such an entry again if and only if none of its i64 operations saturates or wraps |
| `Timestamps.LastTickRepeats` | crates/core/src/pipeline/runner.rs:245-262 | concrete failure: after the last i64 tick the next frame repeats the timestamp |
| `Timestamps.TimelineFollowsIff` | crates/core/src/pipeline/runner.rs:234-277 | over a run of any present timestamps: each output step is the input step if that lies in (0, 60 s] and one tick otherwise, and every entry is last output and last output minus last input, if and only if no step saturates or wraps |
| `Timestamps.SaturationSkewsTheEntry` | crates/core/src/pipeline/runner.rs:245-275 | concrete failure: inputs 100, 50, i64::MAX - 10, i64::MAX - 9 at 90 kHz come out as 100, 101, 102, 144, as the saturated third step leaves a wrong offset |
| `Timestamps.SafeRunFits` | crates/core/src/pipeline/runner.rs:238-277 | no step saturates or wraps if timestamps lie within 2^60 and the length of the run times 60 s is within 2^60 ticks |
| `Timestamps.RegularFits` | crates/core/src/pipeline/runner.rs:238-277 | nor if no step repeats, goes back or exceeds 60 s, up to the ends of the i64 range |
| `Timestamps.TimelineIncreasesIff` | crates/core/src/pipeline/runner.rs:238-277 | over any run, absent timestamps and saturated entries included: every frame keeps its timestamp and those present strictly increase, if and only if every step between present timestamps can represent a later tick |
| `Timestamps.TimelineIncreases` | crates/core/src/pipeline/runner.rs:238-277 | in particular over any run in which no step saturates or wraps |
| `Timestamps.RegularIsUntouched` | crates/core/src/pipeline/runner.rs:238-277 | a timeline of any i64 timestamps without repeats, backward steps or gaps over 60 s is left exactly as it was |
| `Timestamps.AbsentPassThrough` | crates/core/src/pipeline/runner.rs:238-242 | frames without a timestamp pass through and do not influence the repair of the others, if every step between these can represent a later tick |
| `VideoPath.PipelineRunner.MangleFramePts` | crates/core/src/pipeline/runner.rs:238-277 | one call moves the entry of its stream and the timestamp of the frame by the repair step and touches no other stream |
| `VideoPath.PipelineRunner.ProcessFrame` | crates/core/src/pipeline/runner.rs:430-468 | a video frame goes through the reorder buffer and the repair of its own stream, which gives the batch for the send loop; other frames pass; other streams keep their state |
| `VideoPath.PipelineRunner.FlushBuffers` | crates/core/src/pipeline/runner.rs:510-516 | at the end every buffer is taken, drained in order and repaired, in whatever order the streams are visited, which gives what the flush sends |
| `VideoTheorems.RunVideo` | crates/core/src/pipeline/runner.rs:430-516 | for any interleaving of source streams, what is handed to the send loops of a stream are the frames its own reorder run lets go, repaired, plus the flushed tail |
| `VideoTheorems.ProcessArrival` | crates/core/src/pipeline/runner.rs:430-468 | one arrival extends the history of its stream by one step, returns its batch, and explains the state of all the others |
| `VideoTheorems.FlushVideo` | crates/core/src/pipeline/runner.rs:510-516 | whatever was processed before, the flush completes the history of every stream with exactly what was buffered |
| `VideoTheorems.DeliveredContent` | crates/core/src/pipeline/runner.rs:430-516 | what is handed to the send loops is a permutation of what was processed: reordering and repair lose or duplicate no frame |
| `VideoTheorems.EncodersSeeIncreasingTimeIff` | crates/core/src/pipeline/runner.rs:430-516 | across all calls and the final flush, for any frames: those handed out for a stream keep their timestamps and these strictly increase, if and only if every step of its repair can represent a later tick |
| `VideoTheorems.EncodersSeeIncreasingTime` | crates/core/src/pipeline/runner.rs:430-516 | they follow the law of the repair if none of its steps saturates or wraps; frames without a timestamp have no part in it |
| `VideoTheorems.SafeFramesFit` | crates/core/src/pipeline/runner.rs:238-277 | none does if the timestamps present lie within 2^60 and the number of frames times 60 s is within 2^60 ticks |
| `VideoTheorems.RegularShowIsDelivered` | crates/core/src/pipeline/runner.rs:430-516 | a show with distinct timestamps, no gap over 60 s and at most four frames of disorder is handed out unchanged and in order |
| `VideoTheorems.GapFreeShowIsDelivered` | crates/core/src/pipeline/runner.rs:430-516 | a gap-free show is even with sixteen, if its first frame is among the first five decoded |
| `VideoTheorems.KeyframesEndToEnd` | crates/core/src/pipeline/worker.rs:211-235 | for a variant that misses nothing and a run whose repair does not saturate or wrap, the first encoded frame is a forced keyframe and consecutive ones are at least the interval and less than the interval plus the rescaled 60 s limit plus one tick apart |
| `Sending.Workers.SendWork` | crates/core/src/pipeline/runner.rs:370-381 | a send reaches the worker of its variant or fails and changes nothing |
| `Sending.Workers.SendBatch` | crates/core/src/pipeline/runner.rs:473-486 | a batch goes to the variants of its stream up to the first failed send: that variant and the later ones miss this frame, and all of them the frames behind it |
| `Sending.Workers.SendAnyway` | crates/core/src/pipeline/runner.rs:517-531 | a flushed frame goes to every variant of its stream except those whose own send failed |
| `Sending.Workers.SendRest` | crates/core/src/pipeline/runner.rs:514-532 | of a flushed buffer each variant of the stream gets the frames with some left out, all of them iff it missed none |
| `Sending.ThinnedIncreases` | crates/core/src/pipeline/runner.rs:473-486 | leaving out frames keeps the timestamps present strictly increasing |
| `Connection.RunArrivals` | crates/core/src/pipeline/runner.rs:430-490 | processing stops at the first failed send; up to there every variant has all that was handed out for its stream, in order, and after it somebody is short |
| `Connection.RunConnection` | crates/core/src/pipeline/runner.rs:430-532 | a connection with failing workers: every variant receives what was handed out for its stream, in order, with frames left out iff it is among the short ones; nobody is short and every frame is processed iff no send fails |
| `Connection.BatchInforms` | crates/core/src/pipeline/runner.rs:473-486 | a batch leaves short exactly the variants that its failed send cut off |
| `Connection.SomebodyMisses` | crates/core/src/pipeline/runner.rs:473-486 | a failed send always leaves somebody short, a batch without one nobody |
| `Connection.EveryVariantSeesIncreasingTime` | crates/core/src/pipeline/runner.rs:430-532 | whatever sends fail and whichever frames have no timestamp, the timestamps any variant receives strictly increase, if every step of the repair of its stream can represent a later tick |
| `Rescale.RescaleMonotone` | crates/core/src/pipeline/worker.rs:208 | rescaling between timebases keeps the order of timestamps |
| `Rescale.RescaleIsNearest` | crates/core/src/pipeline/worker.rs:208 | a rescaled timestamp is the tick nearest to the exact time, the one away from zero if two are |
| `Rescale.RescaleGap` | crates/core/src/pipeline/worker.rs:208 | rescaling stretches a step by at most one tick over its exact length |
| `Keyframes.KeyframeForcer.Encode` | crates/core/src/pipeline/worker.rs:226-234 | a frame is forced iff none was before or the interval has passed since the last forced one, which is then remembered |
| `Keyframes.EncodeAll` | crates/core/src/pipeline/worker.rs:211-235 | over a run the flags are those of the independent definition of a forced frame |
| `Keyframes.KeyframeSpacing` | crates/core/src/pipeline/worker.rs:226-234 | consecutive forced keyframes are at least kf_ticks and less than kf_ticks plus the largest frame gap apart |
| `Keyframes.WithinInterval` | crates/core/src/pipeline/worker.rs:226-234 | between keyframes no frame is a full interval away from the last one |
| `Keyframes.FirstIsForced` | crates/core/src/pipeline/worker.rs:226-234 | the first frame with a timestamp is a keyframe |
| `Keyframes.IntervalIsOneGroup` | crates/core/src/pipeline/worker.rs:214-225 | the interval is the length of one group of frames at the frame rate, cut to whole ticks |
| `Keyframes.IntervalFallsBack` | crates/core/src/pipeline/worker.rs:218-225 | without a frame rate and a timebase it is two seconds of 90000 ticks |
| `Keyframes.DefaultInterval` | crates/core/src/pipeline/worker.rs:214-225 | with the default group size the interval is at most 2 s and short of it by less than one frame and one tick |
| `Params.EncoderParams.AddParam` | crates/core/src/egress/mod.rs:203-209 | the first parameter of the same kind is replaced, otherwise the parameter is appended |
| `Params.EncoderParams.AddParams` | crates/core/src/egress/mod.rs:211-215 | parameters are added one by one in order |
| `Params.EncoderParams.Extend` | crates/core/src/egress/mod.rs:227-229 | extending adds all parameters of the other list |
| `Params.ExtendLookup` | crates/core/src/egress/mod.rs:202-230 | extending is a last-writer-wins merge and keeps every kind at most once |
| `Params.ApplyVideoParams` | crates/core/src/variant/video.rs:80-130 | the loop sets the fields as the fold over the parameters does |
| `Params.ApplyAudioParams` | crates/core/src/variant/audio.rs:51-70 | the same for audio |
| `Params.VariantReadsParams` | crates/core/src/variant/video.rs:80-130 | every field of a configured video variant is the last parameter given for it, or the default |
| `Params.AudioVariantReadsParams` | crates/core/src/variant/audio.rs:51-70 | the same for audio, with the channel count cut to u8 |
| `Egress.EgressAsksFor` | crates/core/src/egress/mod.rs:301-319 | the configuration an egress wants is the default with the source's parameters on top, with HLS audio forced to 192 kb/s; a recorder wants none |
| `Egress.VideoConfigIsShared` | crates/core/src/egress/mod.rs:80-93 | all egresses but recorders want the same video configuration, so they share variants |
| `Capabilities.CompareIsTotalOrder` | crates/core/src/endpoint.rs:497-532 | the order of capabilities is total, antisymmetric, transitive and agrees with equality |
| `Capabilities.OrderIs` | crates/core/src/endpoint.rs:497-532 | copies come first, recordings last, and taller and then richer ones before the others |
| `Capabilities.SortSorts` | crates/core/src/endpoint.rs:103 | sorting yields the sorted permutation |
| `Capabilities.PrintParse` | crates/core/src/endpoint.rs:540-579 | every printed capability parses back to itself, for all u16 heights and u64 bitrates |
| `Capabilities.ParseIff` | crates/core/src/endpoint.rs:552-579 | a text parses to a capability if and only if it spells it: the keyword, and numbers of digits, perhaps behind a plus sign, within u16 and u64 |
| `Capabilities.CaseIsIgnored` | crates/core/src/endpoint.rs:710-719 | upper and lower case parse alike |
| `Capabilities.CommaIsIndependent` | crates/core/src/endpoint.rs:710-719 | the two sides of a comma are parsed independently; malformed entries are skipped and nothing else |
| `Capabilities.CapabilitiesRoundTrip` | crates/core/src/endpoint.rs:710-719 | printing any list of capabilities and parsing it returns the same list in order |
| `Dedup.CreateVariant` | crates/core/src/endpoint.rs:373-409 | a new variant has its own id, the index of its source and the fields its configuration asks for, and is scaled iff its size or pixel format is not that of the source |
| `Dedup.ServeRequest` | crates/core/src/endpoint.rs:356-411 | an equal configuration reuses its variant, a new one creates exactly one, and the group of the egress names it |
| `Dedup.GetStreamsForEgress` | crates/core/src/endpoint.rs:291-414 | the dedup map stays a bijection onto the variants; the groups are exactly those of the egresses that asked; None iff nobody asked |
| `Dedup.RequestOfGroup` | crates/core/src/endpoint.rs:306-350 | with distinct egress ids the request that counts for an egress is its own, for video and for audio |
| `Endpoint.LargestIsLargest` | crates/core/src/endpoint.rs:91-95 | the transcode source is a video stream of the largest area, the last one among equals |
| `Endpoint.VideoSrcIsChosen` | crates/core/src/endpoint.rs:91-95 | so no video stream of the ingress is larger, and those behind the chosen one are smaller; there is none only if there is no video |
| `Endpoint.AudioSrcIsChosen` | crates/core/src/endpoint.rs:96-100 | no audio stream of the ingress has more samples a second over all channels than the transcode source, and those behind it have fewer |
| `Endpoint.WidthKeepsAspect` | crates/core/src/endpoint.rs:175-187 | output widths are even and within 1.5 pixels of the exact aspect width, except that one that rounds to 65535 or more, or of a source without height, becomes zero |
| `Endpoint.RoundEvenIsEven` | crates/core/src/endpoint.rs:183-192 | rounded dimensions are even and at most one larger |
| `Endpoint.MergeGroups` | crates/core/src/endpoint.rs:144-146 | each group of a call is appended to the list of its egress and nothing else changes |
| `Endpoint.AddGroup` | crates/core/src/endpoint.rs:129-147 | one call keeps the engine invariant, adds exactly the variants it asked for, and gives every egress that asked its group |
| `Configurator.AddCopies` | crates/core/src/endpoint.rs:105-148 | a source capability makes one copy call for every video stream, in order |
| `Configurator.AddTranscode` | crates/core/src/endpoint.rs:149-231 | a requested height makes at most one transcode call, none if it would upscale or exists already |
| `Configurator.AddRecording` | crates/core/src/endpoint.rs:232-272 | a recording adds exactly one group, to the first recorder, if that wants its height and some video has it: the first such video and the first variant of the audio source; otherwise it changes nothing |
| `Endpoint.FirstRecorderIsFirst` | crates/core/src/endpoint.rs:233-235 | the recorder that decides about recordings is the first one among the egresses |
| `Recordings.EqualRecordings` | crates/core/src/endpoint.rs:232-272 | of all recordings only those of the height the first recorder wants count, and they add equal groups, one each |
| `Recordings.RecordingNames` | crates/core/src/endpoint.rs:254-267 | a recording names the first video of its height and, iff something was made from the audio source, the first of that |
| `Configurator.Verify` | crates/core/src/endpoint.rs:678-707 | the check fails exactly with the set of ids that groups mention and no variant has |
| `Configurator.GetVariantsFromEndpoint` | crates/core/src/endpoint.rs:81-289 | the engine never fails its own check; its sources are the largest video and the richest audio; its result is explained by the calls planned for the sorted capabilities; nothing dangles, copies are exact, the ladder is produced iff no eligible height is odd, and is then exact |
| `Configurator.NothingDangles` | crates/core/src/endpoint.rs:676-707 | every id in the egress map, recordings included, belongs to a variant |
| `Configurator.OneVariantPerConfiguration` | crates/core/src/endpoint.rs:359-409 | variant ids are distinct and there are exactly as many variants as distinct configurations requested |
| `Configurator.DedupPreservesMeaning` | crates/core/src/endpoint.rs:291-414 | the group an egress gets from a call names, for video and for audio, the variant made for exactly the configuration it asked for, and none iff it asked for none |
| `Configurator.GroupServesRequests` | crates/core/src/endpoint.rs:355-412 | every id a call put into a group names a variant of the right kind made for a request of that egress |
| `Configurator.EveryRequestIsServed` | crates/core/src/endpoint.rs:143-146 | every egress that asked in a call has the group of that call in the final map |
| `Configurator.EgressMapIsExact` | crates/core/src/endpoint.rs:81-272 | the final list of every egress is the groups of the calls it asked in, in order, followed, for the first recorder, by one for each recording of its height if some video has that height |
| `Configurator.EveryTranscodeIsARung` | crates/core/src/endpoint.rs:149-231 | every transcode serves an eligible request at the rounded height, the aspect width and the requested bitrate |
| `Configurator.LadderIsProducedIff` | crates/core/src/endpoint.rs:161-192 | every eligible requested height gets a transcode of that height iff no eligible height is odd |
| `Configurator.OddHeightIsNotProduced` | crates/core/src/endpoint.rs:161-192 | instance: 721 lines of a 1080-line source are eligible and never transcoded at that height |
| `Configurator.LadderIsExact` | crates/core/src/endpoint.rs:149-231 | with even heights the transcoded heights are exactly the eligible ones, each once, at the largest requested bitrate and the aspect width |
| `Configurator.CopiesAreExact` | crates/core/src/endpoint.rs:105-148 | the copied heights are exactly those of the H.264 source streams when copying was asked for |
| `Renditions.EveryVariantIsConfigured` | crates/core/src/endpoint.rs:81-289 | every variant of a finished configuration, field by field: a copy of an H.264 source video, a transcode of the video source to a requested height and bitrate, or the audio source as some egress wants it, naming its stream, and scaled only if it has to be |
| `Renditions.TranscodeIs` | crates/core/src/endpoint.rs:149-231 | the encoder settings, frame rate, group of two seconds, pixel format, size and bitrate of a transcode |
| `Renditions.CopyIs` | crates/core/src/endpoint.rs:105-148 | the same of a copy |
| `Renditions.AudioIs` | crates/core/src/endpoint.rs:721-775 | the sample rate, format, channels and bitrate of audio, at 192 kb/s for HLS |
| `Renditions.AudioOffered` | crates/core/src/endpoint.rs:322-335 | audio is offered to every egress but a recorder, in a copied group only if it is AAC |
| `Renditions.SourceParamsAre` | crates/core/src/endpoint.rs:721-775 | the parameters of a source are what is known about it and nothing else |
| `Renditions.VideoDefaultsAre` | crates/core/src/egress/mod.rs:94-128 | the default video parameters, kind by kind |
| `Renditions.AudioDefaultsAre` | crates/core/src/egress/mod.rs:130-152 | the default audio parameters, kind by kind |
| `H264Level.LevelIsExact` | crates/core/src/variant/video.rs:141-184 | the levels of the table that admit a rendition are exactly those from the derived one up; 62 if there is none |
| `H264Level.AdmitsIff` | crates/core/src/variant/video.rs:173-182 | a level admits a rendition iff the macroblocks that cover its frame, their rate and the bitrate are within its limits |
| `H264Level.MacroblocksCover` | crates/core/src/variant/video.rs:173 | a frame is covered by whole macroblocks and no more than needed |
| `H264Level.RatesAreExact` | crates/core/src/variant/video.rs:174-175 | the frame rate is the exact quotient, 30 if it is not positive, and the macroblock rate rounds up |
| `H264Level.FullHdIsLevel40` | crates/core/src/variant/video.rs:141-184 | 1080p at 30 frames a second and 6 Mbit/s is level 4.0 |
| `H264Level.HdIsLevel31` | crates/core/src/variant/video.rs:141-184 | 720p at the very limits of level 3.1 is level 3.1, and one bit a second more is 3.2 |
| `H264Level.ConfiguredLevelWins` | crates/core/src/variant/video.rs:134-140 | a configured level is used as it is |
| `H264Level.ResolvedIsLowest` | crates/core/src/variant/video.rs:134-140 | a variant without a configured level gets the lowest one of the table that admits it, if there is one |
| `H264Level.TableIsMonotone` | crates/core/src/variant/video.rs:151-171 | every limit of the table grows with the level |
| `Ledger.ZapStreamDb.DoCreatePayment` | crates/zap-stream-db/src/db.rs:397-423 | inserts an unpaid payment unless the hash exists or the user does not |
| `Ledger.ZapStreamDb.DoCompletePayment` | crates/zap-stream-db/src/db.rs:425-437 | true exactly for the call that finds the payment unpaid, which credits its amount |
| `Ledger.ZapStreamDb.DoCompleteWithdrawal` | crates/zap-stream-db/src/db.rs:439-450 | the same for a withdrawal, which debits the fee |
| `Ledger.ZapStreamDb.DoUpdateBalance` | crates/zap-stream-db/src/db.rs:84-91 | moves one balance by a difference |
| `Ledger.ZapStreamDb.DoAdminCredit` | crates/zap-stream-db/src/db.rs:915-934 | a credit with a new hash for an existing user is recorded as a paid payment of its amount, which the balance gains; any other changes nothing |
| `Ledger.ZapStreamDb.DoUpdateStream` | crates/zap-stream-db/src/db.rs:149-178 | a whole row is written back, its owner excepted |
| `Ledger.ZapStreamDb.DoTickStream` | crates/zap-stream-db/src/db.rs:227-264 | row and balance move together or, on an error, not at all |
| `Ledger.OffsetStep` | crates/zap-stream-db/src/db.rs:1223-1258 | each step moves the audited offset of every user by exactly its stated shift |
| `LedgerTheorems.RunOffset` | crates/zap-stream-db/src/db.rs:1223-1258 | over any run the offset moves by the sum of the shifts |
| `LedgerTheorems.Conservation` | crates/zap-stream-db/src/db.rs:1223-1258 | payments, duplicated completions, credits and charges to the owner leave every user's offset constant |
| `LedgerTheorems.WithdrawalAudit` | crates/zap-stream-db/src/db.rs:439-450 | a withdrawal leaves the offset alone iff it was recorded with the negated amount that the balance paid |
| `LedgerTheorems.CompletionCredits` | crates/zap-stream-db/src/db.rs:425-437 | a completion pays iff the payment was unpaid, and then credits its full amount once |
| `LedgerTheorems.CreditedAtMostOnce` | crates/zap-stream-db/src/db.rs:425-437 | however often completions arrive, a payment turns paid at most once |
| `LedgerTheorems.StaysPaid` | crates/zap-stream-db/src/db.rs:425-450 | no step unpays a payment or changes its amount |
| `LedgerTheorems.ChargesAddUp` | crates/zap-stream-db/src/db.rs:227-264 | a new stream that is charged for some times shows the sums of times and costs, and its owner has paid exactly that |
| `LedgerTheorems.AuditRunConserves` | crates/zap-stream-db/src/db.rs:149-178 | with stale row write-backs, offset plus the debits missing from rows is conserved |
| `LedgerTheorems.StaleWritesOnlyHide` | crates/zap-stream-db/src/db.rs:149-178 | stale write-backs can only lower an offset: rows never show more than was debited |
| `Billing.BillStream` | crates/zap-stream-external/src/cloudflare/api.rs:1129-1161 | bills the clamped unbilled time through one ledger tick; true exactly if the balance is then not positive |
| `Billing.BillingIsAPoll` | crates/zap-stream-external/src/cloudflare/api.rs:1129-1161 | with a fresh snapshot it is one metering step of the stream's account and touches no other balance |
| `Billing.TokenBucket` | crates/zap-stream-external/src/cloudflare/api.rs:1573-1577 | over polls whose bills the row remembers, its duration after n polls is the minimum over j of elapsed_j + 120 (n - j): an exact token bucket; bills that are forgotten enter in `LiveBilling.BilledWithinBucketIff` |
| `Billing.ExactIffPolledOften` | crates/zap-stream-external/src/cloudflare/api.rs:1566-1577 | over polls whose bills the row remembers, every poll leaves nothing unbilled iff no two polls are more than 120 s apart |
| `Billing.BilledWithinClock` | crates/zap-stream-external/src/cloudflare/api.rs:1573-1577 | over polls whose bills the row remembers, even with a clock that jumps, its duration stays within the longest time since `starts` ever read |
| `Billing.ChargeNear` | crates/zap-stream-external/src/cloudflare/api.rs:1580-1587 | one charge is within half a unit of the exact price |
| `Billing.ChargeIsClamped` | crates/zap-stream-external/src/cloudflare/api.rs:1580-1587 | no time costs nothing, and a price beyond i64 is charged as its end |
| `Billing.CumulativeCost` | crates/zap-stream-external/src/cloudflare/api.rs:1580-1587 | over n polls whose bills the row remembers the charge is within n/2 of the price of the billed time, and balance plus cost is conserved |
| `Billing.RoundingBoundIsTight` | crates/zap-stream-external/src/cloudflare/api.rs:1580-1587 | the bound is attained: half-minute polls at one unit a minute are charged twice their price, for every n |
| `Poller.PollStream` | crates/zap-stream-external/src/cloudflare/api.rs:651-787 | the poller works on the row while it is live; it ends it at the first poll that finds the money gone, or its input disconnected, and can publish the end, and goes on after those that cannot |
| `Poller.PollOnce` | crates/zap-stream-external/src/cloudflare/api.rs:715-784 | one poll is one step of the account: nothing if the input is disconnected, else a bill, which the row forgets if it is written back as it was before and is not to be ended |
| `Poller.CostsAddUp` | crates/zap-stream-external/src/cloudflare/api.rs:764-773 | over any run of polls the balance, the cost of the row and the price of the forgotten bills add up |
| `Poller.BreaksIff` | crates/zap-stream-external/src/cloudflare/api.rs:722-730 | a poll finds the money gone iff the stream is not free, time was unbilled, and nothing is left after the bill |
| `Poller.ForgottenBillIsChargedAgain` | crates/zap-stream-external/src/cloudflare/api.rs:764-773 | concrete failure: at one unit a second, with the row written back at 30 s and not at 60 s, the minute costs 90 units while the row shows 60 |
| `Poller.DebtWhileLive` | crates/zap-stream-external/src/cloudflare/api.rs:722-741 | while the row is live, its owner owes less than two minutes' price for each end that could not be published, and nothing if there was none |
| `Poller.DebtIsBounded` | crates/zap-stream-external/src/cloudflare/api.rs:722-741 | the debt stays below two minutes' price times one more than the ends that could not be published |
| `Poller.DebtWithoutFailures` | crates/zap-stream-external/src/cloudflare/api.rs:722-741 | below two minutes' price if no end fails to be published |
| `Poller.DebtBoundIsAttained` | crates/zap-stream-external/src/cloudflare/api.rs:722-741 | the bound is attained for every positive rate and every number of failed ends |
| `LiveBilling.BilledWithinLiveIff` | crates/zap-stream-external/src/cloudflare/api.rs:722-780 | for a row polled within less than 120 s of live time the charged time always stays within the time live if and only if no poll finds that the row was idle since its `starts`, and none comes after a write-back that forgot a positive bill |
| `LiveBilling.BilledWithinBucketIff` | crates/zap-stream-external/src/cloudflare/api.rs:722-780 | whenever it is polled and written back: if and only if after every bill some line of the token bucket, over the clock at the remembered bills, lies within the time live less what was forgotten |
| `LiveBilling.ExcessIsBounded` | crates/zap-stream-external/src/cloudflare/api.rs:1566-1577 | charged time exceeds the time live by at most 120 s a write-back, and by the idle time if a poll finds that there was some |
| `LiveBilling.NeverIdleNeverAhead` | crates/zap-stream-external/src/cloudflare/api.rs:1573-1577 | however it is polled and written back, the duration of a row never found idle stays within its time live |
| `LiveBilling.WatchSane` | crates/zap-stream-external/src/cloudflare/api.rs:722-780 | in every run what was charged is the duration of the row plus what it has forgotten, and that duration is within its clock |
| `LiveBilling.StartsPersist` | crates/zap-stream-external/src/cloudflare/api.rs:440-503 | no webhook changes the `starts` of a row, resuming it included |
| `LiveBilling.StartsWhenCreated` | crates/zap-stream-external/src/cloudflare/api.rs:505-532 | a row that appears has the current time as its `starts` |
| `LiveBillingRuns.WaitingIsBilled` | crates/zap-stream-external/src/cloudflare/api.rs:440-462 | concrete failure: a show that goes live at least 90 n seconds after its key was created is charged 120 n seconds for its first 30 n seconds live, for every n |
| `LiveBillingRuns.LateShowIsPlausible` | crates/zap-stream-external/src/cloudflare/api.rs:440-462 | that run can happen, is polled every 30 s, and its first poll finds that the row was idle |
| `LiveBillingRuns.FirstBillIsForgotten` | crates/zap-stream-external/src/cloudflare/api.rs:1193-1201 | concrete failure: a stream live from its creation, polled at 30 s and 60 s and written back at the first poll, as every stream is, is charged 90 s for 60 s live |
| `LiveBillingRuns.ExcessIsAttained` | crates/zap-stream-external/src/cloudflare/api.rs:764-773 | the excess of 120 s a write-back is attained for every number of write-backs |
| `Overseer.AudioIsFree` | crates/zap-stream/src/overseer.rs:1055-1077 | duration and price of a batch are those of its video segments alone |
| `Overseer.BatchPrice` | crates/zap-stream/src/overseer.rs:1055-1077 | a batch is charged for the sum of the durations of its video segments, to within half a unit |
| `Overseer.VideoSecondsConcat` | crates/zap-stream/src/overseer.rs:1055-1065 | that sum adds over batches |
| `Overseer.OneSegment` | crates/zap-stream/src/overseer.rs:1055-1065 | and is the duration of a single video segment, zero for audio |
| `Overseer.BatchesAgree` | crates/zap-stream/src/overseer.rs:1055-1077 | over any number of batches what is charged is within half a unit a batch of the price of all their video time |
| `Overseer.ZapStreamOverseer.OnSegments` | crates/zap-stream/src/overseer.rs:774-886 | takes from the owner what the video time is worth, to within half a unit, through one ledger tick; starts a top-up iff the balance is low and none is in flight, warns iff the charge crosses the threshold, fails iff the money is gone |
| `Overseer.ZapStreamOverseer.StartTopup` | crates/zap-stream/src/overseer.rs:809-815 | marking and starting are one step, so at most one task runs for a user |
| `Overseer.ZapStreamOverseer.RunTopup` | crates/zap-stream/src/overseer.rs:815-865 | each of the five ways out of a top-up task clears the mark of its user and ends it |
| `Overseer.CrossingIsOne` | crates/zap-stream/src/overseer.rs:868-882 | a ledger step moves a balance across the threshold iff it warns, lifts it, or drains it by something other than a charge |
| `Overseer.WarningsBalance` | crates/zap-stream/src/overseer.rs:868-882 | over any ledger run warnings are the lifts above the threshold, less the drains by other steps, corrected by start and end |
| `Overseer.WarnedOnce` | crates/zap-stream/src/overseer.rs:868-882 | while nothing is credited a user is warned at most once, and once iff the balance ends at or below a threshold it started above |
| `Lifecycle.CfApiWrapper.GetMappedStream` | crates/zap-stream-external/src/cloudflare/api.rs:534-559 | mappings over 120 s old and dangling ones are dropped on lookup |
| `Lifecycle.CfApiWrapper.ResolveOrCreateStream` | crates/zap-stream-external/src/cloudflare/api.rs:426-532 | custom keys reuse their row, primary keys are rejected when live, resumed within 120 s, or get a new row |
| `Lifecycle.CfApiWrapper.PublishStreamStart` | crates/zap-stream-external/src/cloudflare/api.rs:946-982 | one connect is one step: skip a duplicate, go live, or roll back a failed publication |
| `Lifecycle.CfApiWrapper.PublishStreamEnd` | crates/zap-stream-external/src/cloudflare/api.rs:1012-1042 | one disconnect ends a live stream of the owner, or nothing if publishing fails |
| `Lifecycle.CfApiWrapper.CreateStreamKey` | crates/zap-stream-external/src/cloudflare/api.rs:1486-1536 | a planned row, a key pointing at it, and the row pointing back; or the row alone if the key is refused |
| `Lifecycle.SomeLastEnded` | crates/zap-stream-db/src/db.rs:1200-1201 | the query for previous streams answers a row of latest end whenever one ended |
| `LifecycleTheorems.AtMostOneLive` | crates/zap-stream-external/src/cloudflare/api.rs:946-1042 | in every run at most one stream is live for a user and key; live rows have no end, ended rows have one |
| `LifecycleTheorems.RunInv` | crates/zap-stream-external/src/cloudflare/api.rs:946-1042 | keys, rows, mappings and owners stay consistent over every run, and rows never change owner |
| `LifecycleTheorems.ConnectGoesLive` | crates/zap-stream-external/src/cloudflare/api.rs:957-969 | a published connect that lands puts exactly one row live, for its owner, and changes no other row |
| `LifecycleTheorems.ConnectLandsIff` | crates/zap-stream-external/src/cloudflare/api.rs:946-982 | a connect goes on to a row iff its input belongs to somebody, its key has not expired, there is an endpoint, it is no duplicate, and, for a primary input, nothing of the user is live |
| `LifecycleTheorems.KeyExpires` | crates/zap-stream-db/src/db.rs:360-373 | in every run a key works from its creation until the time it was given |
| `LifecycleTheorems.CreatedKeyGoesLive` | crates/zap-stream-external/src/cloudflare/api.rs:1486-1536 | creating a key adds one planned row, which goes live when its input connects in time; if the key is refused, no input can put the row live |
| `LifecycleTheorems.DisconnectEnds` | crates/zap-stream-external/src/cloudflare/api.rs:1012-1042 | a disconnect ends exactly the owner's live stream, iff the key has not expired and the event is published |
| `LifecycleTheorems.EndsItsOwn` | crates/zap-stream-external/src/cloudflare/api.rs:946-1042 | whatever happens in between, the disconnect of an input ends the stream its connect made live, if that is still live |
| `LifecycleTheorems.RepeatedConnect` | crates/zap-stream-external/src/cloudflare/api.rs:946-982 | a repeated connect changes no row iff not (custom key, mapping expired, publishing fails); in that case it ends the live stream |
| `LifecycleTheorems.RepeatedConnectEndsAShow` | crates/zap-stream-external/src/cloudflare/api.rs:946-982 | concrete run: create a key, connect, connect again 121 s later while publishing fails; the show has ended |
| `LifecycleTheorems.RecognisedWhileMapped` | crates/zap-stream-external/src/cloudflare/api.rs:277-279 | a repetition is recognised exactly for 120 s after the connect |
| `LifecycleTheorems.LatestEndResumes` | crates/zap-stream-external/src/cloudflare/api.rs:465-505 | a primary connect while nothing of the user is live resumes a row of the latest end iff that is less than two minutes ago, else it opens a new row; ties included |
| `LifecycleTheorems.ReconnectResumes` | crates/zap-stream-external/src/cloudflare/api.rs:465-505 | whatever happens in between, the connect after a disconnect resumes the ended row iff it comes within two minutes, else it opens a new row, if no other row of the user ended since |
| `Shutdown.InvStep` | crates/core/src/pipeline/runner.rs:492-575 | every step of runner and workers keeps the queue, thread and runner invariants |
| `ShutdownTheorems.QueuesAreFifo` | crates/core/src/pipeline/worker.rs:364-394 | in every schedule a worker has handled the commands the runner sent it, in sending order, and at most 120 wait; only those to a thread that is gone are lost |
| `ShutdownTheorems.WholeTailIsSent` | crates/core/src/pipeline/runner.rs:499-532 | before the workers are told to flush, every command of the tail has been tried |
| `ShutdownTheorems.WorkersAreDrained` | crates/core/src/pipeline/runner.rs:534-545 | when the egress is closed each worker that was there for the flush has handled all it was sent, the flush last, or its last 60 commands failed |
| `ShutdownTheorems.EveryPacketIsMuxed` | crates/core/src/pipeline/worker.rs:117-134 | a worker muxes no packet its commands did not produce; if none of its commands fails, every packet is muxed before the next command, and none is missing when the egress is closed |
| `ShutdownTheorems.MuxesBeforeClosing` | crates/core/src/pipeline/runner.rs:546-559 | no packet reaches an egress that was reset |
| `ShutdownTheorems.Lifetime` | crates/core/src/pipeline/runner.rs:492-575 | over a whole life on_end is called exactly once, after one egress reset; at most one stream is started, before that unless the flush found no configuration |
| `ShutdownTheorems.LoopStopsIff` | crates/core/src/pipeline/runner.rs:594-618 | the loop ends exactly at an error of its own, a failed setup, a send to a worker that is gone unless it carried a thumbnail, or when a flush or the drop begins |
| `ShutdownTheorems.FailureIsFinal` | crates/core/src/pipeline/runner.rs:594-618 | after an error or the drop no step of the loop happens any more on any schedule |
| `ShutdownTheorems.CommandBeforeSetup` | crates/core/src/pipeline/runner.rs:620-640 | a shutdown command waiting at the start flushes an unconfigured pipeline |
| `ShutdownTheorems.LateStart` | crates/core/src/pipeline/runner.rs:635-646 | from there the loop can still start the stream after on_end, and nothing ends it |
| `ShutdownTheorems.NoThreadIsLeft` | crates/core/src/pipeline/runner.rs:960-970 | a dropped runner holds no sender and no handle, and a worker of a late start has nothing left but to close |
| `ShutdownTheorems.FlushProgresses` | crates/core/src/pipeline/runner.rs:534-545 | each step during a flush, by whomever, decreases a measure |
| `ShutdownTheorems.FlushIsNeverStuck` | crates/core/src/pipeline/runner.rs:534-545 | somebody can always move, even if no command ever fails: a full queue has a living worker, a joined thread has lost its sender |
| `ShutdownTheorems.EveryFlushEnds` | crates/core/src/pipeline/runner.rs:492-575 | a flush that has begun ends on every schedule |
| `WorkerThread.PipelineWorkerThread.Sender` | crates/core/src/pipeline/worker.rs:68-70 | the only sender is handed out once |
| `WorkerThread.PipelineWorkerThread.Run` | crates/core/src/pipeline/worker.rs:369-394 | the loop handles everything sent, or stops at the first run of 60 failures |
| `WorkerThread.GivesUpIff` | crates/core/src/pipeline/worker.rs:369-384 | the limit is reached iff some 60 commands in a row fail |
| `Generator.FrameGenerator.DoNext` | crates/core/src/generator.rs:427-478 | one call emits audio if it does not cover the next video frame, else the prepared video frame, and moves one clock |
| `Generator.FrameGenerator.Begin` | crates/core/src/generator.rs:182-211 | a frame is prepared from the video clock unless one is pending |
| `Generator.FrameGenerator.GenerateAudioFrame` | crates/core/src/generator.rs:369-424 | audio is due iff it is enabled and short of the end of the next video frame |
| `Generator.LeadAlways` | crates/core/src/generator.rs:380-388 | in every reachable state audio is at least the rescaled video time and less than one video frame and one audio frame ahead |
| `Generator.LeadFromStart` | crates/core/src/generator.rs:380-388 | so it is for every run from the initial clocks on |
| `Generator.AudioCatchesUp` | crates/core/src/generator.rs:174-177 | clocks set with the audio behind reach that bound once the audio frames due have come out |
| `Generator.VideoIsCovered` | crates/core/src/generator.rs:380-388 | when a video frame comes out, audio reaches its end |
| `Generator.FramesLast` | crates/core/src/generator.rs:357-366 | a video frame lasts a second over the frame rate, an audio frame its samples over the sample rate, cut to whole ticks |
| `Generator.ClocksCount` | crates/core/src/generator.rs:427-478 | both streams are gap-free and on time: after n video frames the video clock is n / fps seconds on, after m audio frames the audio clock m times frame size / sample rate, to within a tick a frame |
| `Generator.AudioIffSampled` | crates/core/src/generator.rs:369-392 | without a sample rate there is only video; with one the show starts with audio, unless the first video frame is over before the first audio tick |
| `Generator.VideoFollows` | crates/core/src/generator.rs:427-478 | the next video frame comes after exactly the computed number of audio frames |
| `Generator.VideoComesIff` | crates/core/src/generator.rs:363-366 | video ever comes out iff audio is not due or an audio frame lasts at least one tick |
| `Generator.CoarseAudioTimebaseStalls` | crates/core/src/generator.rs:363-366 | concrete stall: 44.1 kHz audio in a timebase of thirtieths emits one timestamp for ever |
| `Reconnect.MuxerEgress.constructor` | crates/core/src/egress/muxer_egress.rs:111-149 | streams are added in order and each variant is mapped to its index |
| `Reconnect.MuxerEgress.TryReconnect` | crates/core/src/egress/muxer_egress.rs:153-191 | the context is closed and rebuilt from the template; a failure leaves it half-built and the map untouched |
| `Reconnect.MuxerEgress.ProcessPkt` | crates/core/src/egress/muxer_egress.rs:195-236 | one packet: drop, back off, reconnect, write, and note a failure |
| `Reconnect.ReconnectIsSafe` | crates/core/src/egress/muxer_egress.rs:153-236 | in every run each write reaches the stream of its variant in the complete open context, and a failed connection is left alone for 5 s |
| `Reconnect.PacketIsServed` | crates/core/src/egress/muxer_egress.rs:195-236 | after any run a packet of a carried variant is written iff no failure is pending, or the pending one is at least 5 s old and the context comes back; otherwise it is dropped, after a failed attempt if the 5 s are over |
| `Reconnect.FailedAttemptCloses` | crates/core/src/egress/muxer_egress.rs:153-191 | between a failed attempt and the next one the context stays closed |
| `Reconnect.PendingIsLastFailure` | crates/core/src/egress/muxer_egress.rs:200-235 | a failure is pending iff it is the last thing that happened to a reconnecting connection |
| `Reconnect.ComesBack` | crates/core/src/egress/muxer_egress.rs:203-235 | 5 s after a failure the first packet whose attempt succeeds is written, and the failure is forgotten unless that write fails |
| `Reconnect.OnlyCriticalFails` | crates/core/src/egress/muxer_egress.rs:223-233 | the pipeline fails exactly on a failed write of a critical egress |
| `Blossom.N94Publisher.MarkServerFailure` | crates/core-nostr/src/n94.rs:194-205 | the count of the server grows by one |
| `Blossom.N94Publisher.MarkServerSuccess` | crates/core-nostr/src/n94.rs:207-210 | the count of the server is forgotten |
| `Blossom.N94Publisher.SelectServersForUpload` | crates/core-nostr/src/n94.rs:212-233 | the choice is some shuffle of the enabled servers, cut to the maximum |
| `Blossom.N94Publisher.UploadWorker` | crates/core-nostr/src/n94.rs:249-328 | the queue is worked off in order; every segment that is ready, and no other, goes to a selection made with the counts so far |
| `Blossom.CountIsTrailing` | crates/core-nostr/src/n94.rs:189-210 | the count is the number of failures since the last success |
| `Blossom.DisabledIff` | crates/core-nostr/src/n94.rs:189-192 | a server is disabled iff its last three attempts all failed |
| `Blossom.CountsStayBelow` | crates/core-nostr/src/n94.rs:189-210 | with distinct servers no count passes three |
| `Blossom.DisablingIsAbsorbing` | crates/core-nostr/src/n94.rs:212-233 | a disabled server stays disabled and is never uploaded to again |
| `Blossom.EverySegmentIsServed` | crates/core-nostr/src/n94.rs:266-319 | a segment that is not skipped goes to the allowed number of different enabled servers, or to all of them if there are fewer, and what is counted is whether they took it; a skipped one goes nowhere |
| `IngestBuffer.BufferedReader.AddData` | crates/core/src/ingress/pipeline.rs:116-144 | the oldest bytes are dropped for what does not fit; a chunk over the limit panics and changes nothing |
| `IngestBuffer.BufferedReader.ReadBuffered` | crates/core/src/ingress/pipeline.rs:147-154 | the front of the buffer is moved into the front of the slice, the rest of which is left alone |
| `IngestBuffer.AlwaysExact` | crates/core/src/ingress/pipeline.rs:116-154 | all bytes written are, in order, the bytes gone and then the buffer, which never exceeds its limit |
| `IngestBuffer.LosslessQueue` | crates/core/src/ingress/pipeline.rs:116-154 | while nothing was dropped, reads followed by the buffer are exactly the writes |
| `IngestBuffer.LosslessIff` | crates/core/src/ingress/pipeline.rs:131-139 | bytes are lost iff some write found too little room |
| `IngestBuffer.LosslessStep` | crates/core/src/ingress/pipeline.rs:131-139 | a write drops bytes only if they do not fit and then leaves the buffer exactly full |

## Left out

- FFmpeg (decoding, encoding, muxing, scaling) is reduced to its contracts: `av_rescale_q` rounds to the nearest integer, halves away from zero; a stream index is a position in the context.
- f32 and f64 values are exact reals or rationals: aspect ratios, frame rates, durations, prices, the 60 s limit, the keyframe interval, the length of an audio frame. NaN and infinity do not occur.
- Overflow of `pts + duration` in the reorder buffer, of timestamps in the generator, and of balances in the ledger is not modelled; the repair of timestamps models i64 saturation and wrap-around, and charges saturate at i64.
- VideoTheorems.KeyframesEndToEnd: every frame has a timestamp, as what FFmpeg's rescaling makes of an absent one is FFmpeg's; likewise a regular or gap-free show.
- Reorder.FrameReorderBuffer.Pop: the binary heap is a multiset whose pop returns any least element.
- Configurator.DedupPreservesMeaning: says nothing about source index and copy flag, which are not part of the key that variants are shared by; a shared variant is of the stream and kind of one of the calls that share it (`Renditions.EveryVariantIsConfigured`).
- Random UUIDs of variants, groups and streams are counters or fresh parameters.
- Connection.RunConnection: video frames only; whether a send fails is an arbitrary function of the number of the send; the decoder is reduced to the frames it still holds at the end. That a worker only gives up after sixty failures in a row is `WorkerThread.GivesUpIff`.
- H264Level.LevelIsExact: a frame rate n/0, which is infinite in the source and needs level 62, counts as 30 like one that is not positive.
- Subtitle streams (`todo!()` in the source), plugins, and the forwarding of HLS, MoQ and RTMP packets.
- Shutdown.InvStep: panicking threads and poisoned locks are not modelled; the reset of all egresses is one step.
- The contents of thumbnails and statistics of a pipeline.
- Poller.PollStream: one live row of its owner, with no other step between reading the row and writing it back; a poll that is skipped because a lookup or the bill itself fails is no poll. That the viewer count decides when the row is written back is left open: any poll may.
- LiveBilling.BilledWithinLiveIff: watches one row from before its creation, at a positive rate, with times in whole seconds. Polls and webhook handlers are atomic; a handler that overlaps a poll and writes back a row it read before the bill forgets that bill as well.
- Ledger steps are atomic SQL statements or transactions; the removal of rows, settings and the pubkey tables are left out.
- Lifecycle.CfApiWrapper.PublishStreamStart: handlers are atomic and the database does not fail inside one; an input identifies at most one custom key, as Cloudflare hands out unique ids, and the fallback lookup by stream key is part of the same map; the assignment of inputs to users does not change.
- "At most one live primary stream" of the self-hosted overseer: the check and the start are separate steps without a lock, so the code does not decide it.
- Generator.FrameGenerator.SetStartingPts: clocks set with the audio behind catch up (`Generator.AudioCatchesUp`); for clocks set with the audio too far ahead only the progress of the video is shown (`Generator.VideoFollows`).
- Generator.VideoFollows: a frame rate below one, which divides by zero in the source, is excluded by `Config.Valid`.
- Real-time pacing, drawing and sample synthesis of the generator.
- Reconnect.MuxerEgress.ProcessPkt: closing by `reset` at the end of the pipeline; that nothing is written afterwards is `ShutdownTheorems.MuxesBeforeClosing`.
- Blossom.CountsStayBelow: needs distinct server URLs, as a server listed twice can fail twice in one segment.
- Publishing segments to Nostr at the end of `on_segments`; the uploads it queues are the ones of `Blossom`.
- The dump file and the metrics of the ingest buffer, and the HTTP, Nostr, Lightning and Cloudflare clients, whose outcomes are parameters.
