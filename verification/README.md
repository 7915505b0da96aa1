# Verification of the tracking runtime

This project models the parts of the runtime that carry the weight when sensor streams become game
poses, and proves what they promise: for every input, every interleaving and every run.

* **Shared memory** (`Seqlock`, `SeqlockRuns`, `SeqlockProgress`): the odd/even sequence protocol of
  the depth and pose records between host and SPiKE worker, one shared access per step. It
  implements an atomic latest-value register whose publishes complete and are then read.
* **End to end** (`Chain`, `ChainSteps`, `ChainPoses`, `ChainReread`): capture, host, depth record,
  worker, pose record, host and client composed into one machine; nothing consumed is repeated,
  reordered or invented on the way, and the client gets exactly the poses it waits for in time.
* **Worker pipeline** (`Worker`, `WorkerRuns`, `WorkerClips`, `WorkerTurns`, `Temporal`): clip
  history, dropout bridging, staleness, camera selection and cadence over whole runs.
* **Point clouds** (`PointCloud`, `FurthestPoint`, `Grouping`, `ExportGraph`, `Sorting`): greedy
  sampling as a 2-approximation of k-centre, ball queries, and the agreement of the model code with
  the fixed export graph.
* **Printer and parser pairs** (`CommandLine`, `HostJson`, `HostJsonProof`): argument quoting
  against Microsoft's "Parsing C command-line arguments", and trailing-comma removal against
  RFC 8259 sections 2, 4, 5, 6 and 7.
* **Skeletons** (`Kinect`, `KinectRuns`, `SkeletonLock`, `Length`, `Prediction`, `HoldLoop`,
  `Fusion`): the stabiliser's walk over the joint tree, the identity lock, extrapolation to the
  callback time, hold and departure, and the fusion of two views.
* **Resources** (`ImagePool`, `FrameBridge`, `DeviceStream`, `DeviceRuns`): conservation in the
  reference-counted image pool, the converted-frame cache under recycled addresses, and the handle
  life cycle of a camera across reconnects.
* **Order statistics and caches** (`Background`, `IrBgr`, `ClipBuilder`): background depth,
  percentile contrast, and the evicting clip cache.

`Basics`, `Sorting` and `Subsequence` hold what several modules share.

Concurrency is modelled as steps that interleave arbitrarily over sequentially consistent memory;
every lock section, atomic access and payload cell is a step of its own. Numbers are mathematical
integers and reals, and the square root is a parameter with the defining property of a length.
Where the source updates state in place, the model is a class or an array whose methods are proved
equal to a specification, and the results over whole runs are about that specification.

## Where the code and its promises part

* `FurthestPoint.InvalidSeedBreaksTheBound`: the approximation bound needs a valid first point. Clips
  are centred on their centroid, so a first point within about 3.2 cm of it is an invalid seed.
* `ChainReread.DoneCameraRereads`: a camera that is done calibrating can read one frame again and
  again while the other camera still calibrates. `WorkerRuns.FrameIsConsumedIff` gives the exact
  condition for a turn and `Chain.ReadIsConsumedIff` for every run; a turn that fails also leaves
  its frame. Consumed frames never repeat.
* `DeviceRuns.LossIffRestartAfterBrokenPipeline`: start_device returns without clean-up when
  creating the pipeline fails. If a driver reports an error and still hands out a pipeline, exactly
  the next start loses it. That a driver answers so is a hypothesis; `DeviceRuns.NothingIsLost`
  covers the drivers that do not.
* `ClipBuilders.AskFailsIff`, `ClipBuilders.CalibrateThenSurface`: the cache serves rising frames
  only. On a builder that was used before, asking for a frame raises KeyError exactly when 32
  different frames beyond it were asked for. `ClipBuilders.SecondPassFails`: a surface pass fails
  at every candidate beyond which the first pass built 32 clips, and
  `ClipBuilders.SecondPassCanFail` gives a recording.
* `Fusion.SwapChangesOnlyTies`: the tie between equally trusted, severely different views goes to
  camera 0.
* `FrameBridge.SharedEntryIsDropped`, `FrameBridge.EntrySurvivesIffNoReleaseBegins`: a cached buffer
  is dropped when any release of its frame begins, also while other references to the frame remain.

## Model

| member | source | states |
|---|---|---|
| `Seqlock.SequenceCell.BeginWrite` | src/d4xx/spike_ipc_protocol.h:124-128 | from any value the cell becomes the next odd value above it, reached by at most two increments |
| `Seqlock.SequenceCell.EndWrite` | src/d4xx/spike_ipc_protocol.h:130-134 | from any value the cell becomes the next even value above it |
| `Seqlock.SequenceCell.WorkerBeginWrite` | runtime/spike/anygear_spike/protocol.py:236-241 | the load-and-store form leaves the same value as the host form |
| `Seqlock.SequenceCell.WorkerEndWrite` | runtime/spike/anygear_spike/protocol.py:243-248 | likewise at the end of a write |
| `Seqlock.CopyStaysInside` | runtime/spike/anygear_spike/protocol.py:285-320 | whatever (torn) metadata was read, the copy loop asks for at least the header and never for a cell beyond the record |
| `Seqlock.WriterStepKeepsInv` | src/d4xx/spike_ipc.cpp:269-291 | every step of the writer moves it on and keeps: odd sequence while a write is under way, even sequence means the cells hold the last completed payload and the sequence is twice the number of publishes |
| `Seqlock.ReaderSurvivesWriter` | src/d4xx/spike_ipc.cpp:269-291 | no step of the writer invalidates a copy that would still be accepted, nor anything already delivered |
| `Seqlock.AcceptedIsRegister` | runtime/spike/anygear_spike/protocol.py:320-341 | if both sequence reads give the same even value, the copied cells are exactly the payload of the last completed publish |
| `Seqlock.ReaderStepKeepsInv` | runtime/spike/anygear_spike/protocol.py:275-342 | every step of a reader keeps its deliveries faithful and in publication order |
| `Seqlock.StepKeepsInv` | src/d4xx/spike_ipc_protocol.h:124-134 | the invariant survives every step of every party; sequence and list of publishes only grow |
| `SeqlockRuns.WriterNeverRepairs` | src/d4xx/spike_ipc_protocol.h:124-134 | in every execution begin_write starts from an even and end_write from an odd value, so the repairing second increment never happens |
| `SeqlockRuns.AcceptedSnapshotIsAtomic` | runtime/spike/anygear_spike/protocol.py:281-341 | linearizability: an accepted snapshot is the register value at every instant from the first to the second sequence read of the same attempt |
| `SeqlockRuns.ConsumedIsSubsequence` | src/d4xx/spike_ipc.cpp:295-321 | in every execution what a reader consumes is a subsequence of what was published, keys strictly increasing |
| `SeqlockRuns.PoseDeliveriesAreConsumed` | src/d4xx/spike_ipc.cpp:300-315 | every pose wait_for_pose returns moves the cursor |
| `SeqlockRuns.UndisturbedReadSucceeds` | runtime/spike/anygear_spike/protocol.py:281-341 | progress: a reader behind the register that no writer disturbs accepts the register value in its first attempt |
| `SeqlockRuns.KeptCursorRereads` | runtime/spike/anygear_spike/protocol.py:281-341 | the record itself does not prevent repeats: two undisturbed calls of a reader that keeps its cursor return the same payload twice |
| `SeqlockProgress.PublishCompletes` | runtime/spike/anygear_spike/protocol.py:370-405 | on both records, from every reachable state with an idle writer: a publishable payload p is published by a number of accesses, three more than its cells, after the publish was entered, whatever reader steps are interleaved; before that the writer always has a next access, after it p is the one publish added and the register value |
| `SeqlockProgress.PublishedIsRead` | src/d4xx/spike_ipc.cpp:269-315 | what is published is then read: after those accesses an undisturbed call of any reader at rest behind p delivers p |
| `SeqlockProgress.WriterIsNeverStuck` | src/d4xx/spike_ipc.cpp:269-291 | in every reachable state a writer with a publish under way has an enabled next access |
| `SeqlockProgress.DepthCallEnds` | runtime/spike/anygear_spike/protocol.py:281-343 | whatever the writer does, a call of read_depth makes at most five attempts and is over exactly if it accepted a frame, met metadata that rules the frame out, or failed five times |
| `SeqlockProgress.PoseCallEnds` | src/d4xx/spike_ipc.cpp:295-321 | a call of wait_for_pose makes four attempts before each wait and is over exactly if it accepted a pose or woke past its deadline |
| `SeqlockProgress.LoadGoesOn` | runtime/spike/anygear_spike/protocol.py:285-290 | an attempt goes on to copy exactly if the sequence is even, and not zero on the depth record |
| `SeqlockProgress.CopyIsAccepted` | runtime/spike/anygear_spike/protocol.py:320-341 | a complete copy is accepted exactly if the sequence has not moved and the key is beyond the cursor |
| `SeqlockProgress.DepthFramesArePublished` | src/d4xx/spike_ipc.cpp:255-266 | the depth frames that are published: up to 848 by 480 samples, positive focal lengths, one sample a pixel |
| `Chain.FeedKeeps` | src/vp4u/spike.cpp:163-196 | the frame in the host's hand is captured and beyond the host cursor, so publishing it keeps the begun publishes a subsequence of the captures, whatever was captured meanwhile |
| `Chain.TurnInputIsValid` | runtime/spike/anygear_spike/worker.py:415-418 | every frame the worker works on is newer than its cursor; the worker machine's assumption is discharged by the depth record |
| `Chain.TurnSettlesCursor` | runtime/spike/anygear_spike/worker.py:443-449 | a turn moves a camera cursor to the frame in hand exactly if it does not leave that frame, and else keeps it; a published pose carries the turn's generation, one above the last |
| `Chain.PoseStepKeeps` | src/vp4u/spike.cpp:199-212 | steps of the pose record add to the received poses exactly what the host accepted |
| `Chain.WaitKeepsClient` | src/vp4u/spike.cpp:276-293 | a client that only takes generations beyond its cursor gets a subsequence of the received poses |
| `Chain.StepKeepsInv` | src/vp4u/spike.cpp:157-222 | the end-to-end invariant survives every step of camera, host, worker, both records and the client |
| `Chain.ConsumedFramesWereCaptured` | src/vp4u/spike.cpp:157-196 | in every run the depth frames the worker consumes are a subsequence of the frames captured by that camera |
| `Chain.DeliveredPosesWerePublished` | src/vp4u/spike.cpp:276-293 | in every run the poses a client gets are a subsequence of those the worker published, generations strictly increasing |
| `Chain.PublishedGenerationsIncrease` | runtime/spike/anygear_spike/worker.py:798-807 | generations in the pose record strictly increase and never exceed the worker's counter |
| `ChainPoses.DeliveredIsHanded` | src/vp4u/spike.cpp:276-293 | in every run the client has got exactly the poses that were kept last at its waits, at most 2000 ms old, in order |
| `ChainPoses.NothingIsMissedIff` | src/vp4u/spike.cpp:199-293 | in every run the client has got all poses the host kept exactly if a timely wait followed each before the next was kept |
| `ChainPoses.PublishedPoseReachesClient` | src/vp4u/spike.cpp:198-293 | from every state of every run in which the host is not at work on an earlier pose: the run can go on so that the pose a turn publishes is handed to the client |
| `ChainPoses.SomePoseReachesClient` | src/vp4u/spike.cpp:157-293 | for every configuration a run of the whole chain in which the worker's first pose reaches the client |
| `ChainPoses.RunCursors` | src/vp4u/spike.cpp:198-203 | in every run neither the host's nor the client's generation is ahead of the worker's |
| `Chain.TurnsAreValid` | runtime/spike/anygear_spike/worker.py:415-418 | in every run no turn of the worker meets a frame its cursor has passed |
| `Chain.EveryReadIsHandled` | runtime/spike/anygear_spike/worker.py:415-418 | in every run each frame a camera has read was handled by a turn, or it is the last one and still waits for its turn |
| `Chain.ReadIsConsumedIff` | runtime/spike/anygear_spike/worker.py:443-481 | in every run a frame that was read is consumed exactly if the turn that handles it does not leave it; in a turn that does not fail, exactly unless the camera has its background while the other camera still calibrates |
| `ChainReread.DoneCameraRereads` | runtime/spike/anygear_spike/worker.py:443-526 | for every configuration that calibrates and either camera: a run of the whole chain in which that camera, done calibrating, reads one frame any given number of times while the other has no background |
| `FurthestPoint.FurthestPointSample` | runtime/spike/anygear_spike/spike_model.py:16-40 | an error exactly for an impossible count; otherwise, for every cloud whose squared distances are below 1e10, point zero and then each time the first of the valid points with the largest true distance to the nearest earlier choice |
| `FurthestPoint.SelectionIsGreedy` | runtime/spike/anygear_spike/spike_model.py:24-39 | the selection on every such cloud is that greedy choice, with 0 when no point is valid |
| `FurthestPoint.RoundKeepsInv` | runtime/spike/anygear_spike/spike_model.py:34-39 | one round keeps: the running array is the minimum distance to the chosen points |
| `FurthestPoint.NearIsMinimum` | runtime/spike/anygear_spike/spike_model.py:25-37 | the running value is at most the distance to every chosen point, and is one of these distances or the initial cap |
| `FurthestPoint.ChoicesAreSpread` | runtime/spike/anygear_spike/spike_model.py:36-39 | chosen valid points are pairwise at least the final covering radius of any valid point apart |
| `FurthestPoint.SpreadIsFarApart` | runtime/spike/anygear_spike/spike_model.py:36-39 | the chosen points with one uncovered point are pairwise far apart |
| `FurthestPoint.SamplingIsTwoApproximation` | runtime/spike/anygear_spike/spike_model.py:16-40 | 2-approximation in squared distances: whatever centres, as many as valid points were chosen, cover the valid points within q, every valid point is within 4q of the sample |
| `FurthestPoint.SampleCovers` | runtime/spike/anygear_spike/spike_model.py:16-40 | for squared radii below a quarter of 1e10 the sampled points themselves cover every valid point within twice the optimal radius |
| `FurthestPoint.InvalidSeedBreaksTheBound` | runtime/spike/anygear_spike/spike_model.py:31-38 | for every n: with exactly n different valid positions, which cover at radius zero, a sample of n leaves no valid point uncovered exactly when point zero is valid, so without that no constant factor holds |
| `Grouping.BallIsExact` | runtime/spike/anygear_spike/spike_model.py:50-75 | the ball list holds exactly the in-ball indices, ascending, each once |
| `Grouping.NeighboursArePaddedPrefix` | runtime/spike/anygear_spike/spike_model.py:56-75 | sorting marked candidates and replacing markers yields the ascending prefix of the in-ball indices padded with its first (with 0 for an empty ball) |
| `Grouping.OwnBallIsNotEmpty` | runtime/spike/anygear_spike/spike_model.py:56-75 | a reference is in its own ball, so the "use 0" case never arises |
| `Grouping.GroupingIsLookup` | runtime/spike/anygear_spike/spike_model.py:78-88 | the flatten-gather-reshape pipeline is element-wise lookup |
| `Grouping.GatherIsSelection` | runtime/spike/anygear_spike/spike_model.py:43-47 | gathering transposed points is selecting points |
| `ExportGraph.GroupAroundIsStem` | runtime/spike/anygear_spike/spike_model.py:116-127 | the model's references, neighbours and grouped features satisfy the declarative stem |
| `ExportGraph.ExportNeighboursArePrefix` | tools/export-spike-onnx.py:88-108 | the export's own masked index row, top-k and two selections give the padded ascending prefix of the in-ball indices |
| `ExportGraph.ExportGroupedIsLookup` | tools/export-spike-onnx.py:109-114 | the export's flattened gather and reshape are element lookup, by the position of each table entry in the row |
| `ExportGraph.ExportStemIsStem` | tools/export-spike-onnx.py:81-114 | everything the export computes after sampling satisfies the declarative stem |
| `ExportGraph.StemIsUnique` | runtime/spike/anygear_spike/spike_model.py:110-135 | the declarative stem determines every reference, neighbour and grouped value |
| `ExportGraph.StemIsPublished` | runtime/spike/anygear_spike/spike_model.py:110-135 | what the stem is in numbers: 128 greedy references, for each the first 32 points within 0.2 m in ascending order, padded with the first, and their coordinates |
| `ExportGraph.FixedPrimaryExport` | tools/export-spike-onnx.py:56-114 | the fixed export graph, written out separately, computes the stem of every cloud |
| `ExportGraph.CompareGraphs` | tools/export-spike-onnx.py:56-114 | so model and export graph agree on every reference index, neighbour index and grouped value, and both compute that stem |
| `ExportGraph.PointSpatialConv` | runtime/spike/anygear_spike/spike_model.py:110-135 | the model code computes, per cloud, a stem around the greedy selection |
| `CommandLine.QuoteArgument` | src/d4xx/spike_ipc.cpp:20-46 | the backslash-counting loop computes the quoted form |
| `CommandLine.QuotedOnlyIfNeeded` | src/d4xx/spike_ipc.cpp:20-27 | an argument is left as it is exactly if it is not empty and has no blank, tab, new line, vertical tab or quotation mark |
| `CommandLine.BuildCommandLine` | src/d4xx/spike_ipc.cpp:161-175 | quoted executable and arguments joined by blanks |
| `CommandLine.ParseQuoted` | src/d4xx/spike_ipc.cpp:20-46 | parsing a quoted argument gives the argument back and stops at its end, for every string |
| `CommandLine.ParseJoined` | src/d4xx/spike_ipc.cpp:168-172 | splitting the joined arguments gives exactly the list back |
| `CommandLine.CommandLineRoundTrip` | src/d4xx/spike_ipc.cpp:161-175 | the whole command line splits into the program name followed by exactly the arguments, for every list; the name is the executable, plus exactly a copy of its final run of backslashes when it had to be quoted |
| `HostJson.NormalizeHostJson` | src/vp4u/vp4uwrap.cpp:401-437 | the scan with its flags and look-ahead computes the two-state specification |
| `HostJson.LookAhead` | src/vp4u/vp4uwrap.cpp:424-431 | the look-ahead finds a closing bracket exactly when one follows the white space |
| `HostJson.ClosesNextIff` | src/vp4u/vp4uwrap.cpp:424-431 | the look-ahead succeeds exactly if only the six white-space characters lie before a closing brace or bracket |
| `HostJsonProof.NormalizeErasesTrailingCommas` | src/vp4u/vp4uwrap.cpp:401-437 | any rendering of a JSON value with optional trailing commas becomes the same text without exactly those commas |
| `HostJsonProof.NormalizeYieldsStrictJson` | src/vp4u/vp4uwrap.cpp:401-437 | the result is strict JSON with the same meaning |
| `HostJsonProof.StrictJsonIsUnchanged` | src/vp4u/vp4uwrap.cpp:401-437 | strict JSON is left alone |
| `HostJsonProof.StripIsStrict` | src/vp4u/vp4uwrap.cpp:401-437 | removing the trailing commas of a well-formed tree leaves a well-formed strict tree of the same meaning |
| `HostJsonProof.OnlyCommasAreRemoved` | src/vp4u/vp4uwrap.cpp:401-437 | on every text, JSON or not, only commas ever disappear |
| `Worker.SelectInferenceIndices` | runtime/spike/anygear_spike/worker.py:164-201 | at most one camera, ready and with a new clip; none exactly if neither has one, or only the secondary has and the primary is ready and it is not its turn; the secondary goes first only on its turn |
| `Worker.Chosen` | runtime/spike/anygear_spike/worker.py:722-740 | in primary mode the primary camera exactly if it has a due clip, and the secondary exactly if the primary is not ready and it has one; if both have one, one of them is chosen in either mode |
| `Worker.ResolvePrimary` | runtime/spike/anygear_spike/worker.py:232-264 | the resolved primary camera is the first that carries the configured serial, or the configured index when there is none; an error exactly for an uncalibrated camera in calibrated mode or a missing serial |
| `Worker.Loop.NameCameras` | runtime/spike/anygear_spike/worker.py:534-546 | naming the cameras, and the one-time switch of the roles once both are named |
| `WorkerRuns.StepKeepsRole` | runtime/spike/anygear_spike/worker.py:551-689 | every turn keeps each camera's role: nothing before it is processed, a coherent clip while it is, a frozen one afterwards |
| `WorkerRuns.ClipIsCoherent` | runtime/spike/anygear_spike/worker.py:586-689 | over every run and for every camera, whatever the primary is resolved to: the clip is non-empty exactly when the camera is valid, holds at most the clip length, strictly increases in sequence and time, ends at the candidate, and spans no source hop over 125 ms |
| `WorkerClips.ClipIsNewestMeasured` | runtime/spike/anygear_spike/worker.py:586-689 | over every run and for every camera the clip is exactly the newest min(clip length, m) of the m frames measured since the last reset, by the inputs alone: gap over 125 ms, dropout beyond the hold, input older than 150 ms |
| `WorkerClips.ShownClipIsReady` | runtime/spike/anygear_spike/worker.py:619-689 | a camera that shows somebody for a clip of contiguous, fresh frames has exactly these in its clip and is ready, and due if the last frame is |
| `WorkerClips.ShownClipIsInferred` | runtime/spike/anygear_spike/worker.py:619-772 | in primary mode that turn infers the clip |
| `WorkerClips.ShownClipsAreInferred` | runtime/spike/anygear_spike/worker.py:619-772 | in calibrated mode, with both cameras full and due, it infers one of the two |
| `WorkerRuns.RolesAreFinal` | runtime/spike/anygear_spike/worker.py:537-546 | the primary camera changes at most once in a run |
| `WorkerRuns.ResumedCameraStartsEmpty` | runtime/spike/anygear_spike/worker.py:551-561 | a camera that is skipped and later processed has no clip and no processed frame before, so skipping never joins a clip across a gap |
| `WorkerRuns.RetiredCameraIsFrozen` | runtime/spike/anygear_spike/worker.py:551-561 | a camera that is no longer processed keeps its clip or loses it, and takes no further frame into it |
| `WorkerRuns.DueClipIsInferred` | runtime/spike/anygear_spike/worker.py:722-772 | a turn infers the primary camera's clip in primary mode as soon as it is due, and one of two due clips in calibrated mode |
| `WorkerTurns.CamerasTakeTurns` | runtime/spike/anygear_spike/worker.py:164-201 | in every run in calibrated mode, with both clips due: the camera without a prediction first, then every secondary_every-th pose is the other camera's and all the rest the primary's |
| `WorkerTurns.OutputsAreCounted` | runtime/spike/anygear_spike/worker.py:690-812 | the output count is the number of poses published |
| `WorkerTurns.PredictedUntilReset` | runtime/spike/anygear_spike/worker.py:586-772 | in every run a camera counts as predicted, with the time of the inferred frame, exactly from an inference to its next reset |
| `WorkerTurns.EmptyPosesAreSpaced` | runtime/spike/anygear_spike/worker.py:476-526 | in every run a turn with nothing to infer from sends an empty pose exactly if the interval since the last one is over |
| `WorkerTurns.RolesSettleAtOnce` | runtime/spike/anygear_spike/worker.py:534-546 | the turn in which both cameras are known settles the roles, or ends the worker |
| `WorkerTurns.FaultIff` | runtime/spike/anygear_spike/worker.py:537-546 | a turn ends with an error exactly if the names cannot be resolved after calibration, and never once they were |
| `WorkerTurns.ConsumedFrameNames` | runtime/spike/anygear_spike/worker.py:443-561 | every consumed frame names its camera |
| `Worker.Loop.ObserveFrame` | runtime/spike/anygear_spike/worker.py:586-645 | the in-place updates of one camera equal the specified observation |
| `Worker.Loop.TakeIn` | runtime/spike/anygear_spike/worker.py:415-482 | cursor, calibration samples and arrival times after reading both cameras |
| `Worker.Loop.Process` | runtime/spike/anygear_spike/worker.py:551-683 | one iteration's observations and staleness resets |
| `Worker.Loop.Finish` | runtime/spike/anygear_spike/worker.py:684-812 | readiness, selection, cadence and publication |
| `Worker.Loop.Iterate` | runtime/spike/anygear_spike/worker.py:410-812 | one turn of the loop is one step of the specified state machine |
| `WorkerRuns.StepKeepsTraceInv` | runtime/spike/anygear_spike/worker.py:410-812 | the trace invariant survives every turn, during calibration and after |
| `WorkerRuns.NoClipIsInferredTwice` | runtime/spike/anygear_spike/worker.py:722-772 | over every run the newest candidate of a camera's inferences strictly increases, and without a reset in between source times differ by at least the interval less its quarter (less 1 ms below 4 ms) |
| `WorkerRuns.GenerationsIncrease` | runtime/spike/anygear_spike/worker.py:690-807 | published generations strictly increase |
| `WorkerRuns.FrameIsConsumedIff` | runtime/spike/anygear_spike/worker.py:443-561 | a turn moves a camera's cursor to the frame it has read exactly if it does not leave it; a turn that does not fail leaves it exactly if the camera has its background and another one does not have it after this turn's samples |
| `ImagePool.PoolList.TakeMatching` | src/vp4u/vp4uwrap.cpp:715-724 | the locked scan removes the first free block of exactly the requested size, if there is one |
| `ImagePool.PoolList.Keep` | src/vp4u/vp4uwrap.cpp:1686-1692 | a block is kept exactly while fewer than eight are |
| `ImagePool.StepKeepsOwnership` | src/vp4u/vp4uwrap.cpp:710-751 | every step keeps each block with exactly one owner: free list, clients holding its reference count, or one thread |
| `ImagePool.StepKeepsCount` | src/vp4u/vp4uwrap.cpp:1674-1698 | every step keeps the allocation count equal to free, outstanding and in-flight blocks, and under the cap |
| `ImagePool.PoolIsConserved` | src/vp4u/vp4uwrap.cpp:705-751 | in every reachable state of any interleaving: conservation, cap, at most eight distinct free blocks, none reachable by a client, reference counts exact |
| `ImagePool.MakeReuses` | src/vp4u/vp4uwrap.cpp:710-751 | making an image reuses the first free block of the size, with one reference and nothing allocated |
| `ImagePool.MakeAllocates` | src/vp4u/vp4uwrap.cpp:725-751 | otherwise, below the cap and if malloc answers, a new counted block with one reference |
| `ImagePool.MakeFails` | src/vp4u/vp4uwrap.cpp:725-742 | otherwise nothing, and nothing has changed |
| `ImagePool.ReserveDecides` | src/vp4u/vp4uwrap.cpp:725-737 | a retry of the counter follows only a moved counter or a spurious failure, and starts from its new value |
| `ImagePool.LastReleaseRecycles` | src/vp4u/vp4uwrap.cpp:1674-1698 | the last release puts the block at the end of the free list while that holds fewer than eight, and else frees it and lowers the count |
| `Kinect.JointFilter.ResetJointFilter` | src/vp4u/kinect.cpp:649-677 | the in-place reset equals the specified walk over the joint tree |
| `Kinect.JointFilter.StabilizeSkeleton` | src/vp4u/kinect.cpp:679-784 | the in-place frame equals the specified walk, or a reset exactly when required |
| `KinectRuns.LimitDeltaIsLimited` | src/vp4u/kinect.cpp:146-153 | a motion within the limit or negligible is untouched, any other is shortened to exactly the limit |
| `KinectRuns.RelativeSpeedIsCapped` | src/vp4u/kinect.cpp:710-729 | each candidate moves relative to its parent by at most the joint's speed limit |
| `KinectRuns.ClampSegmentKeepsLength` | src/vp4u/kinect.cpp:739-755 | a clamped segment ends within the tolerance of the expected length, or is degenerate |
| `KinectRuns.BonesKeepTheirLength` | src/vp4u/kinect.cpp:739-755 | in the finished frame every limb with a known length is within tolerance of it from its filtered parent |
| `KinectRuns.HipSpeedIsCapped` | src/vp4u/kinect.cpp:711-729 | the hip moves at most half the joint speed times the frame time |
| `KinectRuns.UntrackedLimbFollowsItsParent` | src/vp4u/kinect.cpp:703-736 | an untracked limb keeps the direction of its vector from its parent, and the whole vector unless the bone clamp has to correct its length |
| `KinectRuns.LearnedBonesStayInRange` | src/vp4u/kinect.cpp:759-777 | in every run every learned length is 0 or within [0.03, 1.20] m |
| `KinectRuns.StabilizedFrameIsPlausible` | src/vp4u/kinect.cpp:679-784 | in every run every continued frame has plausible limbs and a capped hip |
| `KinectRuns.RunFollowsSensor` | src/vp4u/kinect.cpp:679-784 | in every run a frame within a second of the last one of the same body follows the sensor: a hip or limb that is seen goes to its raw position, or exactly the cap towards it; a limb is carried by its parent and its segment is corrected only outside the bone tolerance, along its direction and to the nearest length; unseen joints keep their place or vector |
| `KinectRuns.FrameFollowsSensor` | src/vp4u/kinect.cpp:693-784 | the same for one frame of any filter state |
| `KinectRuns.CandidateIsCapped` | src/vp4u/kinect.cpp:709-729 | the candidate of a seen joint is its raw position within the cap, else exactly the cap away towards it |
| `KinectRuns.ClampSegmentIsClamped` | src/vp4u/kinect.cpp:739-755 | the bone clamp keeps the direction, changes nothing within tolerance and gives the nearest length outside |
| `KinectRuns.BoneIsLearned` | src/vp4u/kinect.cpp:759-777 | a limb seen at both ends is learned at once, and then goes a hundredth of the way to each length within tolerance |
| `KinectRuns.ResetFollowsSensor` | src/vp4u/kinect.cpp:649-677 | after a reset every joint is where the sensor has it, else inferred at the joint before it, and exactly the limbs seen at both ends are known |
| `KinectRuns.StatesFollowSensor` | src/vp4u/kinect.cpp:697-736 | a joint comes out as tracked exactly if the sensor sees it |
| `SkeletonLock.Selector.Select` | src/vp4u/kinect.cpp:584-647 | the selection: the active body wherever it appears; nobody while the lock lasts; else the first best slot; else forgetting |
| `SkeletonLock.Best` | src/vp4u/kinect.cpp:607-628 | the scoring loop finds the first of the best tracked slots |
| `SkeletonLock.IdentityIsLocked` | src/vp4u/kinect.cpp:584-647 | in every run two different performers are chosen in succession only after at least the lock time |
| `SkeletonLock.ChosenBodyIsKept` | src/vp4u/kinect.cpp:589-603 | in every run the last performer is chosen again, whatever its slot and however good the others look |
| `SkeletonLock.PerformerIsReplaced` | src/vp4u/kinect.cpp:584-647 | in every run nobody is chosen while the performer is missed for less than the lock time, and from then on the best slot of the frame |
| `SkeletonLock.FirstPerformerIsBest` | src/vp4u/kinect.cpp:607-643 | the first performer is the first of the best slots of the first frame that tracks anybody |
| `SkeletonLock.FilterFollowsPerformer` | src/vp4u/kinect.cpp:645 | after a change of performer the joint filter goes on only if it already was that body's |
| `Background.EstimateIsFarthestAgreed` | runtime/spike/anygear_spike/depth.py:243-263 | an error exactly for no frames or for arrays that are not images of one size; otherwise every pixel of the result is the largest depth that a fifth of the samples reach, at least three unless there are fewer, and is non-zero exactly when so many samples are valid |
| `Background.MaskIsRedundant` | runtime/spike/anygear_spike/depth.py:252-263 | the order statistic is non-zero exactly when enough samples are valid, so the final mask never changes a value |
| `Background.BackgroundIsFarthestAgreed` | runtime/spike/anygear_spike/depth.py:252-263 | the background is the largest depth that at least rank samples reach |
| `Background.AgreedFarDepthIsFound` | runtime/spike/anygear_spike/depth.py:252-263 | if rank samples read D and none beyond, the background is D |
| `Sorting.SortSorts` | runtime/spike/anygear_spike/depth.py:256-259 | the reference sort is sorted and a permutation |
| `Sorting.OrderStatistic` | runtime/spike/anygear_spike/depth.py:256-259 | the k-th smallest is at most v exactly when more than k elements are |
| `IrBgr.PercentileValue` | src/d4xx/ir_bgr.cpp:12-27 | the histogram walk returns the sorted pixel at the target index; the fallback is unreachable |
| `IrBgr.CountPixels` | src/d4xx/ir_bgr.cpp:54-60 | the nested loops count exactly the active pixels |
| `IrBgr.IrY8ToBgr24` | src/d4xx/ir_bgr.cpp:31-98 | succeeds exactly on acceptable requests, and then fills three bytes per pixel with the image of the active pixels under the reported range |
| `IrBgr.ToneIsOrdered` | src/d4xx/ir_bgr.cpp:62-74 | low never exceeds high, and the range used is never empty |
| `IrBgr.ToneIsPercentiles` | src/d4xx/ir_bgr.cpp:52-74 | the range is the two percentiles by rank if auto contrast is on and they are at least max(1, minimum) apart, and 0 to 255 otherwise |
| `IrBgr.ImageIsStretched` | src/d4xx/ir_bgr.cpp:76-91 | every channel of every pixel is 255 times its place in the range, rounded down |
| `IrBgr.ClippedShare` | src/d4xx/ir_bgr.cpp:62-74 | at most the low share lies below the black point, more than the high share at or below the white point |
| `IrBgr.StretchEnds` | src/d4xx/ir_bgr.cpp:81-85 | everything at or below low is black, everything at or above high is white |
| `IrBgr.ImageIsMonotone` | src/d4xx/ir_bgr.cpp:81-90 | brighter source pixels never become darker; the three channels agree |
| `IrBgr.PlainImageIsIdentity` | src/d4xx/ir_bgr.cpp:52-85 | without auto contrast the image is the source |
| `IrBgr.PaddingDoesNotMatter` | src/d4xx/ir_bgr.cpp:56-91 | frames that agree on the active pixels have one image, whatever stride and padding |
| `FrameBridge.Bridge.GetFrameData` | src/plugin/d4xx_native_bridge.cpp:840-881 | raw data for ordinary frames; else the cached or freshly inserted conversion, or nothing |
| `FrameBridge.Bridge.ReleaseFrame` | src/plugin/d4xx_native_bridge.cpp:907-913 | forgets exactly that frame's entry |
| `FrameBridge.SpareStep` | src/plugin/d4xx_native_bridge.cpp:907-913 | the references nobody is giving up change only by delivery, add-reference and the start of a release |
| `FrameBridge.StepKeepsInv` | src/plugin/d4xx_native_bridge.cpp:840-913 | every step keeps: cached keys are live frames with a spare reference and their own conversion; calls in flight see the frame they were made for |
| `FrameBridge.GetDataReturnsOwnImage` | src/plugin/d4xx_native_bridge.cpp:840-897 | in every run, with recycled addresses, an answer is the conversion of the caller's own live frame, as long as the size and stride hooks report |
| `FrameBridge.CallAnswers` | src/plugin/d4xx_native_bridge.cpp:840-881 | an undisturbed call for a live infrared frame that can be shown answers with its image, from the cache or after converting it, and leaves it cached |
| `FrameBridge.NoAnswerForOthers` | src/plugin/d4xx_native_bridge.cpp:840-881 | a frame that cannot be shown is never cached and no call for it answers |
| `FrameBridge.EntryIsStable` | src/plugin/d4xx_native_bridge.cpp:878-880 | a cached buffer is neither replaced nor dropped before a release of that frame begins |
| `FrameBridge.SharedEntryIsDropped` | src/plugin/d4xx_native_bridge.cpp:907-913 | beginning to give up one of several references drops the cached buffer while the frame lives on with a reference nobody is giving up |
| `FrameBridge.EntrySurvivesIffNoReleaseBegins` | src/plugin/d4xx_native_bridge.cpp:876-913 | from every reachable state a cached buffer survives a run exactly when no release of its frame begins in it |
| `FrameBridge.AnswersShareOneBuffer` | src/plugin/d4xx_native_bridge.cpp:847-880 | racing conversions agree: two answers with no release begun in between are one buffer |
| `DeviceStreams.DeviceStream.CleanUp` | src/vp4u/d4xx.cpp:490-510 | deletes every held handle once and invalidates the frames |
| `DeviceStreams.DeviceStream.Start` | src/vp4u/d4xx.cpp:512-578 | active with the full handle set exactly on success; on failure nothing is held, except a pipeline that came together with an error; the handle ledger stays exact |
| `DeviceStreams.DeviceStream.Capture` | src/vp4u/d4xx.cpp:883-912 | a complete frame set is published under the next sequence number |
| `DeviceStreams.DeviceStream.GetDepthFrame` | src/vp4u/d4xx.cpp:1352-1384 | a packet exactly when active, published and beyond the cursor |
| `DeviceRuns.StepKeepsInv` | src/vp4u/d4xx.cpp:472-650 | handles, published frame and readers stay consistent over starts, captures, errors, clean-ups and looks |
| `DeviceRuns.ActiveMeansFullInactiveMeansNone` | src/vp4u/d4xx.cpp:490-578 | over every run active means the full handle set; inactive means none exactly unless the last start ended with an error and a pipeline |
| `DeviceRuns.EveryHandleIsDeletedOnce` | src/vp4u/d4xx.cpp:490-510 | after a clean-up every handle ever issued was deleted exactly once, except the lost ones |
| `DeviceRuns.LossIffRestartAfterBrokenPipeline` | src/vp4u/d4xx.cpp:514-517 | a handle is lost exactly when a stream is started again after a start that ended with an error and a pipeline |
| `DeviceRuns.NothingIsLost` | src/vp4u/d4xx.cpp:512-578 | with a driver that never answers with both, nothing is lost in any run |
| `DeviceRuns.ReadersSeeOnlyCurrentFrames` | src/vp4u/d4xx.cpp:1352-1384 | no reader gets a packet from before an invalidation; packet n is the n-th frame captured, across reconnects |
| `DeviceRuns.ReaderNumbersRise` | src/vp4u/d4xx.cpp:1352-1384 | the numbers one reader gets strictly rise over the whole run |
| `DeviceRuns.ReaderGetsCurrent` | src/vp4u/d4xx.cpp:1352-1384 | in every run a look gets the frame captured last under its capture number exactly if the stream was not switched off since and the number is beyond the cursor |
| `DeviceRuns.StartSucceedsIff` | src/vp4u/d4xx.cpp:512-578 | in every run a start makes the stream active exactly if the driver grants everything that is wanted |
| `ClipBuilders.TouchKeeps` | tools/prepare-spike-teacher-dataset.py:151-159 | asking for a frame keeps the cache correct and within 32, and ends with the frame cached exactly unless it was smaller than all of a full cache |
| `ClipBuilders.ClipBuilder.Isolated` | tools/prepare-spike-teacher-dataset.py:151-159 | the isolated frame, or a key error exactly in that case |
| `ClipBuilders.ClipBuilder.Build` | tools/prepare-spike-teacher-dataset.py:161-195 | a key error exactly when the cache is full and starts beyond the first frame; otherwise the uncached result |
| `ClipBuilders.ClipIffWhole` | tools/prepare-spike-teacher-dataset.py:161-195 | the uncached result is a clip exactly where all frames are of the performance, number on within 75 ms and show somebody, and then it is the isolated frames in order |
| `ClipBuilders.LoadFrames` | runtime/spike/anygear_spike/teacher_data.py:596-612 | accepts exactly known, strictly increasing frames |
| `ClipBuilders.CacheIsLargestAsked` | tools/prepare-spike-teacher-dataset.py:151-159 | whatever frames were asked for in whatever order, the cache holds exactly those with fewer than 32 different asked frames beyond them |
| `ClipBuilders.AskFailsIff` | tools/prepare-spike-teacher-dataset.py:151-159 | after any frames were asked for, asking for f raises the key error exactly when 32 different frames beyond f were |
| `ClipBuilders.RestartFailsIff` | tools/prepare-spike-teacher-dataset.py:151-159 | starting over at the first frame ever asked for fails exactly when more than 32 different frames were asked for |
| `ClipBuilders.TouchAllIsAsk` | tools/prepare-spike-teacher-dataset.py:184-189 | a build asks for the frames of its clip up to the first that shows nobody |
| `ClipBuilders.BuildAll` | tools/prepare-spike-teacher-dataset.py:236-256 | one pass over any rising targets of any recording never fails, gives every uncached result, and leaves the cache of the frames it asked for |
| `ClipBuilders.IsolateAll` | tools/prepare-spike-teacher-dataset.py:286-304 | the surface pass on a builder that was used before gets through exactly when no candidate has 32 different frames beyond it among those asked for so far |
| `ClipBuilders.CalibrateThenSurface` | tools/prepare-spike-teacher-dataset.py:708-745 | both passes on one builder, for any recording, rising targets and candidates: the first gives every uncached result, the second fails exactly then |
| `ClipBuilders.LaterTargetsAreServed` | tools/prepare-spike-teacher-dataset.py:151-159 | with at most 33 frames a clip, a later target never meets that case |
| `ClipBuilders.SecondPassFails` | tools/prepare-spike-teacher-dataset.py:236-304 | on any recording the surface pass fails at every candidate beyond which the first pass has built 32 clips |
| `ClipBuilders.SecondPassCanFail` | tools/prepare-spike-teacher-dataset.py:236-304 | a recording of three empty-stage and 37 performance frames whose surface pass fails at its first frame, with clips of three frames and 33 targets |
| `Prediction.PredictBody` | src/vp4u/body_prediction.cpp:91-163 | the joint loop computes the specified prediction and leaves untracked joints alone |
| `Prediction.MotionIsCapped` | src/vp4u/body_prediction.cpp:134-161 | no joint is moved by more than its speed limit times the horizon |
| `Prediction.MotionFollowsMeasurement` | src/vp4u/body_prediction.cpp:125-161 | the motion points along the anchor's measured displacement and is never faster than it was |
| `Prediction.ClearMotionIsContinued` | src/vp4u/body_prediction.cpp:142-158 | from two jitter radii on and below the speed limit the prediction is exactly the anchor's motion continued over the horizon |
| `Prediction.JitterFadesIn` | src/vp4u/body_prediction.cpp:134-151 | nothing moves within the jitter radius, and beyond it the prediction grows from zero |
| `Prediction.PredictionStaysNear` | src/vp4u/body_prediction.cpp:91-163 | with the default horizon every joint stays within 0.5 m of its measurement |
| `Prediction.JointFollowsAnchor` | src/vp4u/body_prediction.cpp:53-87 | a joint that moves is shifted by the very vector that shifts its anchor joint |
| `Prediction.AnchorGroupIsRigid` | src/vp4u/body_prediction.cpp:53-87 | joints with a common anchor move by one vector, so their relative position is kept |
| `Prediction.PredictedIsContinued` | src/vp4u/body_prediction.cpp:91-163 | for every joint of every output: samples 15 to 250 ms apart, with time to predict over and joint and end point known in both, shift it by the displacement of its end point from the previous sample to the latest, continued: not within the jitter radius, faded in up to twice it, at the measured speed or the limit; everything else comes out as measured |
| `HoldLoop.Analysis.Turn` | src/vp4u/vp4uwrap.cpp:1461-1602 | one turn of the loop is one step of the specified machine |
| `HoldLoop.Analysis.Hear` | src/vp4u/vp4uwrap.cpp:1470-1514 | retaining samples: continuous, after a gap, rebuilt, or untimed |
| `HoldLoop.TrackedMeansRecentlyValid` | src/vp4u/vp4uwrap.cpp:1559-1602 | in every run a tracked joint is submitted only while the last worker sample was valid and came within the hold time |
| `HoldLoop.HoldKeepsJoints` | src/vp4u/vp4uwrap.cpp:1559-1594 | in every run, while the last valid sample is within the hold time, every joint keeps the state submitted then as long as the worker is merely silent, and is inferred, never dropped, from the first invalid sample on |
| `HoldLoop.DepartureForgets` | src/vp4u/vp4uwrap.cpp:1563-1602 | in every run the submitted body is empty, and every retained sample forgotten, exactly when no valid sample came within the hold time |
| `HoldLoop.PreviousIsContinuous` | src/vp4u/vp4uwrap.cpp:1488-1509 | in every run two retained samples are more than 1 us and at most 250 ms apart |
| `HoldLoop.RetainedAreNewest` | src/vp4u/vp4uwrap.cpp:1470-1514 | in every run the retained sample is the newest timed one, and the one before it is retained exactly if it is earlier by at most 250 ms |
| `HoldLoop.SubmittedIsContinued` | src/vp4u/vp4uwrap.cpp:1516-1602 | in every run the submitted body is the continuation of the retained samples, with joints merely inferred unless the worker's last sample was valid |
| `HoldLoop.SubmittedStaysNear` | src/vp4u/vp4uwrap.cpp:1516-1528 | in every run the submitted joints are within 0.5 m of the retained measurement |
| `Fusion.FuseViews` | runtime/spike/anygear_spike/fusion.py:219-278 | the joint loop computes the specified fusion and the verdict on the pose |
| `Fusion.BlendIsConvex` | runtime/spike/anygear_spike/fusion.py:236-264 | a fused joint is on the segment between both measurements or carries no confidence, which never exceeds the better view's |
| `Fusion.FusedJoint` | runtime/spike/anygear_spike/fusion.py:219-270 | what comes out for every joint in both modes: the primary view or three quarters of the other; severe disagreement leaves the better supported view, trusted by the difference; else the weighted mean; seven tenths of a single view |
| `Fusion.VerdictIsCount` | runtime/spike/anygear_spike/fusion.py:272-278 | a pose is valid exactly if ten joints count, joints 1, 8, 9 and 10 among them |
| `Fusion.SwapChangesOnlyTies` | runtime/spike/anygear_spike/fusion.py:231-270 | in calibrated mode swapping the cameras changes a joint exactly at a severe disagreement with equal weights, and there the confidence is zero |
| `Fusion.SwapKeepsVerdict` | runtime/spike/anygear_spike/fusion.py:272-278 | tracking states and pose validity never depend on the order of the cameras |

## Left out

- Neural layers, training, losses, SVD fits, KD-tree registration and connected components: library numerics.
- Windows processes, events, mappings, loader and export patching: operating-system calls without visible semantics.
- librealsense, NUI, OpenVR, MediaPipe, Media Foundation and ONNX: nondeterministic inputs or abstract handles here.
- Weak memory: steps are sequentially consistent; the barriers of the source are taken to provide that.
- Float rounding, NaN and infinities: coordinates, times and confidences are reals.
- 64-bit wrap of sequences, generations and ticks, and overflow guards on sizes: integers are unbounded; size_t and int conversions do not truncate.
- Seqlock: payload cells are abstract words of one size, so a 64-bit field is read and written in one step.
- Chain: one client, one client cursor; time-outs of a wait, stopping and get_skeleton; the tick of a wait is not before that of the kept pose.
- Chain: a read that is later not consumed is recorded as such when it is accepted; runs in which the worker decides otherwise are no executions.
- Worker: calibration time-outs, telemetry and the transforms themselves are not modelled; player isolation enters as a yes or no.
- CommandLine.CommandLineRoundTrip: the executable is a file name, so it is not empty and holds no quotation mark; argv[0] follows other rules than the quoting assumes.
- HostJson: comments are outside the modelled grammar; strings are sequences of characters without an encoding.
- ImagePool: the persistent slots of live sources and the pixel contents are not part of this model.
- Kinect: counters, smoothing by NUI and the score of a slot are inputs; ticks do not run backwards.
- SkeletonLock.IdentityIsLocked: tracked bodies carry a non-zero id and ticks are positive, as the sensor provides them.
- Background: the rank is computed as the exact ceiling of a fifth.
- IrBgr: missing source or output buffers; the optional statistics are always returned.
- FrameBridge: descriptors of a frame do not change while it lives, and driver errors appear as a failed conversion; clearing the cache at shutdown.
- FrameBridge.GetDataReturnsOwnImage: clients use a frame only through a reference that stays for the whole call, as the driver demands.
- DeviceStreams: stopping a pipeline before it is deleted, sensor options, timing of stalls and retries, infrared planes and intrinsics are choices of the environment.
- ClipBuilders: player isolation is a function of the frame; the filters that choose targets and candidates are free; resampling of points and the centroid shift are applied outside.
- HoldLoop.HoldKeepsJoints: the tick counter has left zero and does not run backwards.
- Prediction.PredictionStaysNear: for the default horizon of 100 ms that every caller uses.
- Fusion: confidences of the single views and the agreement curve are inputs between 0 and 1; the rigid transforms are already applied.
- Webcam scaling, stage placement, joint maps and preview: straight-line arithmetic that would only add easy members.
- select_evenly, eligible_pairs, shard writing, hashing, recorders, probes, viewer and logging: easy or input/output.
