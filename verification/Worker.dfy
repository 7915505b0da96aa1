/** The worker's pipeline state: calibration, per-camera clip history with dropout
    bridging and staleness, batch-1 camera selection and source-time cadence. */
module Worker {
  import opened Basics
  import opened Temporal

  const CAMERA_COUNT := 2
  const MAXIMUM_INPUT_AGE_NS := 150_000_000

  datatype FusionMode = Primary | Calibrated

  datatype Config = Config(
    clip: nat,               // frames per clip
    holdMs: int,             // isolation.dropout_hold_ms
    minimumInterval: nat,    // ns between inferences
    secondaryEvery: nat,
    calibrationFrames: nat,
    mode: FusionMode,
    primary: nat,            // the primary camera until serials are known
    primarySerial: string,   // may be empty
    cameraSerials: seq<string>)

  predicate ValidConfig(c: Config) {
    0 < c.clip && 0 < c.secondaryEvery && c.primary < CAMERA_COUNT && |c.cameraSerials| == CAMERA_COUNT
  }

  /** The per-camera slots of the worker's parallel arrays. */
  datatype Camera = Camera(
    history: seq<Frame>,
    valid: bool,
    source: Frame,
    candidate: Frame,
    lastFrame: int,          // monotonic arrival time of the last frame
    lastCandidate: int,      // monotonic time of the last accepted candidate
    predictionSequence: nat,
    predictionTime: int,
    predictionValid: bool,
    samples: nat,            // background samples collected
    hasBackground: bool,
    serial: string)          // empty until a frame has named the camera

  const NO_FRAME := Frame(0, 0)

  function InitialCamera(): Camera {
    Camera([], false, NO_FRAME, NO_FRAME, 0, 0, 0, 0, false, 0, false, "")
  }

  // ------------------------------------------------------------- pure helpers

  predicate FrameIsFresh(lastFrame: int, now: int) {
    0 < lastFrame && 0 <= now - lastFrame <= MAXIMUM_INPUT_AGE_NS
  }

  predicate DropoutIsBridgeable(lastCandidate: int, now: int, holdMs: int) {
    0 < lastCandidate && 0 < holdMs && 0 <= now - lastCandidate <= holdMs * 1_000_000
  }

  /** The least source-time distance between inferences: the interval minus a quarter
      of it, or minus 1 ms if that is more, but never less than 1 ns. */
  function MinimumGap(interval: nat): int {
    Max(1, interval - Max(1_000_000, interval / 4))
  }

  predicate SourceSampleIsDue(candidateTime: int, predictionTime: int, interval: nat) {
    0 < candidateTime &&
    (predictionTime <= 0 ||
     (0 < candidateTime - predictionTime && MinimumGap(interval) <= candidateTime - predictionTime))
  }

  predicate NeedsInference(ready: bool, cam: Camera) {
    ready && (!cam.predictionValid || cam.predictionSequence != cam.candidate.sequence)
  }

  /** It is the secondary camera's turn although the primary one is ready, too. */
  predicate SecondaryDue(cam: Camera, mode: FusionMode, outputCount: nat, secondaryEvery: nat)
    requires 0 < secondaryEvery
  {
    mode.Calibrated? && (!cam.predictionValid || outputCount % secondaryEvery == 0)
  }

  /** At most one camera index: the model runs with batch size one.  Nothing is returned only
      if neither camera has a new clip, or just the secondary one has and must wait. */
  function SelectInferenceIndices(ready: seq<bool>, cameras: seq<Camera>, primary: nat,
                                  mode: FusionMode, outputCount: nat, secondaryEvery: nat): (r: seq<nat>)
    requires |ready| == |cameras| == CAMERA_COUNT && primary < CAMERA_COUNT && 0 < secondaryEvery
    ensures |r| <= 1
    ensures forall k | 0 <= k < |r| ::
      && r[k] < CAMERA_COUNT && NeedsInference(ready[r[k]], cameras[r[k]])
      && (mode.Primary? && ready[primary] ==> r[k] == primary)
    ensures r == [] <==>
              && !NeedsInference(ready[primary], cameras[primary])
              && (NeedsInference(ready[1 - primary], cameras[1 - primary]) ==>
                    ready[primary] && !SecondaryDue(cameras[1 - primary], mode, outputCount, secondaryEvery))
    ensures r == [1 - primary] && NeedsInference(ready[primary], cameras[primary]) ==>
              cameras[primary].predictionValid &&
              SecondaryDue(cameras[1 - primary], mode, outputCount, secondaryEvery)
  {
    var secondary := 1 - primary;
    var needPrimary := NeedsInference(ready[primary], cameras[primary]);
    var needSecondary := NeedsInference(ready[secondary], cameras[secondary]);
    if !ready[primary] then if needSecondary then [secondary] else []
    else if mode != Calibrated || !ready[secondary] then if needPrimary then [primary] else []
    else if !cameras[primary].predictionValid && needPrimary then [primary]
    else if (!cameras[secondary].predictionValid || outputCount % secondaryEvery == 0) && needSecondary then
      [secondary]
    else if needPrimary then [primary]
    else []
  }

  /** deque(maxlen = clip).append */
  function Push(history: seq<Frame>, frame: Frame, clip: nat): seq<Frame> {
    if |history| < clip then history + [frame]
    else if clip == 0 then []
    else history[|history| - clip + 1..] + [frame]
  }

  // ------------------------------------------------------- per-camera updates

  predicate ContinuityLost(cam: Camera, frame: Frame) {
    && cam.source.sequence != 0
    && frame.sequence != cam.source.sequence
    && !RealtimeContiguous(cam.source, frame, MAXIMUM_CLIP_FRAME_GAP_NS)
  }

  /** Forget clip, prediction and candidate. */
  function Restart(cam: Camera): Camera {
    cam.(history := [], predictionValid := false, predictionTime := 0, valid := false,
         candidate := NO_FRAME, lastCandidate := 0)
  }

  predicate Bridges(c: Config, cam: Camera, isolationNow: int) {
    cam.valid && 0 < |cam.history| && DropoutIsBridgeable(cam.lastCandidate, isolationNow, c.holdMs)
  }

  /** A frame of a processed camera after player isolation. */
  function Observe(c: Config, cam: Camera, frame: Frame, measured: bool,
                   isolationNow: int, candidateNow: int): Camera
  {
    var kept := (if ContinuityLost(cam, frame) then Restart(cam) else cam).(source := frame);
    if measured then
      kept.(valid := true, candidate := frame, lastCandidate := candidateNow,
            history := Push(kept.history, frame, c.clip))
    else if Bridges(c, kept, isolationNow) then kept
    else kept.(valid := false, history := [], predictionValid := false, predictionTime := 0)
  }

  /** The staleness check that runs every iteration. */
  function DropStale(cam: Camera, now: int): Camera {
    if !FrameIsFresh(cam.lastFrame, now) && cam.valid then Restart(cam) else cam
  }

  predicate IsReady(c: Config, cam: Camera, now: int) {
    FrameIsFresh(cam.lastFrame, now) && cam.valid && |cam.history| == c.clip
  }

  /** Bookkeeping after a clip of this camera was inferred. */
  function Inferred(cam: Camera): Camera {
    cam.(predictionSequence := cam.source.sequence, predictionTime := cam.candidate.time,
         predictionValid := true)
  }

  /** One calibration sample: the frame only feeds the background. */
  function Calibrate(c: Config, cam: Camera, frame: Frame, serial: string): Camera {
    if cam.hasBackground then cam
    else if c.calibrationFrames <= cam.samples + 1 then
      cam.(source := frame, samples := 0, hasBackground := true, serial := serial)
    else cam.(source := frame, samples := cam.samples + 1, serial := serial)
  }

  // ------------------------------------------------------------ camera roles

  /** Which cameras are processed follows from the mode and the primary camera. */
  predicate Processing(c: Config, primary: nat, i: nat) {
    c.mode.Calibrated? || i == primary
  }

  /** resolve_transforms fails: a camera without a calibrated transform. */
  predicate UnknownCamera(c: Config, serials: seq<string>) {
    && c.mode.Calibrated?
    && (exists i | 0 <= i < |c.cameraSerials| :: c.cameraSerials[i] != "")
    && exists j | 0 <= j < |serials| :: serials[j] == "" || serials[j] !in c.cameraSerials
  }

  /** resolve_transforms and resolve_primary_camera; None where they raise. */
  function ResolvePrimary(c: Config, serials: seq<string>): (r: Option<nat>)
    requires |serials| == CAMERA_COUNT && c.primary < CAMERA_COUNT
    ensures r.Some? ==> r.value < CAMERA_COUNT
    ensures r.None? <==>
              || (c.primarySerial != "" && serials[0] != c.primarySerial && serials[1] != c.primarySerial)
              || (c.mode.Calibrated? && (exists i | 0 <= i < |c.cameraSerials| :: c.cameraSerials[i] != "") &&
                    exists j | 0 <= j < CAMERA_COUNT :: serials[j] == "" || serials[j] !in c.cameraSerials)
    ensures r.Some? && c.primarySerial == "" ==> r.value == c.primary
    ensures r.Some? && c.primarySerial != "" ==>
              serials[r.value] == c.primarySerial && (serials[0] == c.primarySerial ==> r.value == 0)
  {
    if UnknownCamera(c, serials) then None
    else if c.primarySerial == "" then Some(c.primary)
    else if serials[0] == c.primarySerial then Some(0)
    else if serials[1] == c.primarySerial then Some(1)
    else None
  }

  /** The roles an iteration works with. */
  datatype Roles = Unresolvable | Roles(primary: nat, resolved: bool)

  function ChooseRoles(c: Config, roles: Roles, cameras: seq<Camera>): (r: Roles)
    requires |cameras| == CAMERA_COUNT && c.primary < CAMERA_COUNT && roles.Roles?
    ensures r.Roles? && roles.primary < CAMERA_COUNT ==> r.primary < CAMERA_COUNT
  {
    if roles.resolved || cameras[0].serial == "" || cameras[1].serial == "" then roles
    else
      match ResolvePrimary(c, [cameras[0].serial, cameras[1].serial])
      case None => Unresolvable
      case Some(p) => Roles(p, true)
  }

  // ---------------------------------------------------------- one iteration

  /** Everything one iteration reads from outside: what read_depth returned, the
      outcome of player isolation, and the clocks. */
  datatype Input = Input(
    frames: seq<Option<Frame>>,
    serials: seq<string>,
    measured: seq<bool>,
    inputNow: int,
    isolationNow: int,
    candidateNow: seq<int>,
    freshnessNow: int,
    now: int)

  /** roles is Unresolvable once the worker has ended with an error. */
  datatype State = State(cameras: seq<Camera>, generation: nat, outputCount: nat, nextInference: int,
                         roles: Roles)

  datatype Outcome =
    | Silent
    | EmptyPose(generation: nat)
    | Pose(generation: nat, camera: nat)
    | Fault

  function Initial(c: Config): State {
    State([InitialCamera(), InitialCamera()], 0, 0, 0, Roles(c.primary, false))
  }

  predicate RolesOk(s: State) {
    s.roles.Roles? && s.roles.primary < CAMERA_COUNT
  }

  /** read_depth only returns frames newer than the camera's source cursor. */
  predicate ValidInput(s: State, x: Input) {
    && |s.cameras| == |x.frames| == |x.serials| == |x.measured| == |x.candidateNow| == CAMERA_COUNT
    && RolesOk(s)
    && forall i | 0 <= i < CAMERA_COUNT && x.frames[i].Some? ::
         s.cameras[i].source.sequence < x.frames[i].value.sequence
  }

  function Arrived(cam: Camera, frame: Option<Frame>, now: int): Camera {
    if frame.Some? then cam.(lastFrame := now) else cam
  }

  function Calibrated1(c: Config, cam: Camera, frame: Option<Frame>, serial: string): Camera {
    if 0 < c.calibrationFrames && frame.Some? then Calibrate(c, cam, frame.value, serial) else cam
  }

  predicate Calibrating(c: Config, cameras: seq<Camera>) {
    0 < c.calibrationFrames && exists i | 0 <= i < |cameras| :: !cameras[i].hasBackground
  }

  /** The first frame after calibration names a camera that has no name yet. */
  function Labelled(cam: Camera, frame: Option<Frame>, serial: string): Camera {
    if frame.Some? && cam.serial == "" then cam.(serial := serial) else cam
  }

  function Processed(c: Config, primary: nat, cam: Camera, x: Input, i: nat): Camera
    requires i < |x.frames| && i < |x.measured| && i < |x.serials| && i < |x.candidateNow|
  {
    if x.frames[i].None? then cam
    else if Processing(c, primary, i) then
      Observe(c, cam.(serial := x.serials[i]), x.frames[i].value, x.measured[i], x.isolationNow, x.candidateNow[i])
    else cam.(source := x.frames[i].value, serial := x.serials[i])
  }

  /** A camera's slots before the calibration decision, ... */
  function Intake(c: Config, s: State, x: Input): (r: seq<Camera>)
    requires ValidInput(s, x)
    ensures |r| == CAMERA_COUNT
  {
    seq(CAMERA_COUNT, i requires 0 <= i < CAMERA_COUNT =>
      Calibrated1(c, Arrived(s.cameras[i], x.frames[i], x.inputNow), x.frames[i], x.serials[i]))
  }

  /** ... with their names, ... */
  function Named(c: Config, s: State, x: Input): (r: seq<Camera>)
    requires ValidInput(s, x)
    ensures |r| == CAMERA_COUNT
  {
    var intake := Intake(c, s, x);
    seq(CAMERA_COUNT, i requires 0 <= i < CAMERA_COUNT => Labelled(intake[i], x.frames[i], x.serials[i]))
  }

  function RolesAfter(c: Config, s: State, x: Input): (r: Roles)
    requires ValidConfig(c) && ValidInput(s, x)
    ensures r.Roles? ==> r.primary < CAMERA_COUNT
    ensures s.roles.resolved ==> r == s.roles
    ensures r.Roles? && !r.resolved ==> r == s.roles
  {
    ChooseRoles(c, s.roles, Named(c, s, x))
  }

  /** ... and after processing and the staleness check. */
  function Settled(c: Config, primary: nat, s: State, x: Input): (r: seq<Camera>)
    requires ValidInput(s, x)
    ensures |r| == CAMERA_COUNT
  {
    var named := Named(c, s, x);
    seq(CAMERA_COUNT, i requires 0 <= i < CAMERA_COUNT =>
      DropStale(Processed(c, primary, named[i], x, i), x.freshnessNow))
  }

  function ReadyFlags(c: Config, cameras: seq<Camera>, now: int): (r: seq<bool>)
    ensures |r| == |cameras|
  {
    seq(|cameras|, i requires 0 <= i < |cameras| => IsReady(c, cameras[i], now))
  }

  /** A clip that has not been inferred, of a camera that is ready, and due by source time. */
  predicate HasDueClip(c: Config, cam: Camera, now: int) {
    && NeedsInference(IsReady(c, cam, now), cam)
    && SourceSampleIsDue(cam.candidate.time, cam.predictionTime, c.minimumInterval)
  }

  /** The camera whose clip is inferred: selected and due. */
  function Chosen(c: Config, cameras: seq<Camera>, primary: nat, now: int, outputCount: nat): (r: seq<nat>)
    requires ValidConfig(c) && |cameras| == CAMERA_COUNT && primary < CAMERA_COUNT
    ensures |r| <= 1
    ensures forall k | 0 <= k < |r| :: r[k] < CAMERA_COUNT && HasDueClip(c, cameras[r[k]], now)
    ensures c.mode.Primary? ==>
              (r == [primary] <==> HasDueClip(c, cameras[primary], now)) &&
              (r == [1 - primary] <==> !IsReady(c, cameras[primary], now) && HasDueClip(c, cameras[1 - primary], now))
    ensures HasDueClip(c, cameras[0], now) && HasDueClip(c, cameras[1], now) ==> r != []
  {
    var picked := SelectInferenceIndices(ReadyFlags(c, cameras, now), cameras,
                                         primary, c.mode, outputCount, c.secondaryEvery);
    if picked != [] && SourceSampleIsDue(cameras[picked[0]].candidate.time,
                                         cameras[picked[0]].predictionTime, c.minimumInterval)
    then picked else []
  }

  function Step(c: Config, s: State, x: Input): (r: (State, Outcome))
    requires ValidConfig(c) && ValidInput(s, x)
    ensures |r.0.cameras| == CAMERA_COUNT
  {
    var intake := Intake(c, s, x);
    var roles := RolesAfter(c, s, x);
    if Calibrating(c, intake) then
      if s.nextInference <= x.now then
        (State(intake, s.generation + 1, s.outputCount + 1, x.now + c.minimumInterval, s.roles),
         EmptyPose(s.generation + 1))
      else (s.(cameras := intake), Silent)
    else if roles.Unresolvable? then (s.(cameras := Named(c, s, x), roles := roles), Fault)
    else Conclude(c, s.(cameras := Settled(c, roles.primary, s, x), roles := roles), x)
  }

  /** The end of an iteration: infer one clip, publish an empty pose, or stay silent. */
  function Conclude(c: Config, s: State, x: Input): (r: (State, Outcome))
    requires ValidConfig(c) && |s.cameras| == CAMERA_COUNT && RolesOk(s)
    ensures |r.0.cameras| == CAMERA_COUNT && r.0.roles == s.roles
  {
    var ready := ReadyFlags(c, s.cameras, x.freshnessNow);
    var next := s.(generation := s.generation + 1);
    if !ready[0] && !ready[1] then
      if x.now < s.nextInference then (next, Silent)
      else
        (next.(outputCount := s.outputCount + 1, nextInference := x.now + c.minimumInterval),
         EmptyPose(s.generation + 1))
    else
      var chosen := Chosen(c, s.cameras, s.roles.primary, x.freshnessNow, s.outputCount);
      if chosen == [] then (next, Silent)
      else
        (next.(cameras := s.cameras[chosen[0] := Inferred(s.cameras[chosen[0]])],
               outputCount := s.outputCount + 1),
         Pose(s.generation + 1, chosen[0]))
  }

  // ------------------------------------------------------ the worker's own loop

  class Loop {
    const config: Config
    var cameras: seq<Camera>
    var generation: nat
    var outputCount: nat
    var nextInference: int
    var roles: Roles

    ghost function Value(): State
      reads this
    {
      State(cameras, generation, outputCount, nextInference, roles)
    }

    constructor (c: Config)
      requires ValidConfig(c)
      ensures config == c && Value() == Initial(c)
    {
      config := c;
      cameras := [InitialCamera(), InitialCamera()];
      generation, outputCount, nextInference, roles := 0, 0, 0, Roles(c.primary, false);
    }

    /** The body of the per-frame loop for a processed camera. */
    method ObserveFrame(index: nat, frame: Frame, serial: string, measured: bool, isolationNow: int,
                        candidateNow: int)
      requires index < |cameras|
      modifies this`cameras
      ensures cameras == old(cameras)[index :=
        Observe(config, old(cameras)[index].(serial := serial), frame, measured, isolationNow, candidateNow)]
    {
      var previous := cameras[index].source;
      var lost := previous.sequence != 0 && frame.sequence != previous.sequence &&
        !RealtimeContiguous(previous, frame, MAXIMUM_CLIP_FRAME_GAP_NS);
      if lost {
        cameras := cameras[index := Restart(cameras[index])];
      }
      cameras := cameras[index := cameras[index].(source := frame, serial := serial)];
      if measured {
        cameras := cameras[index := cameras[index].(valid := true, candidate := frame)];
        cameras := cameras[index := cameras[index].(lastCandidate := candidateNow)];
        cameras := cameras[index :=
          cameras[index].(history := Push(cameras[index].history, frame, config.clip))];
      } else if !(cameras[index].valid && |cameras[index].history| > 0 &&
                  DropoutIsBridgeable(cameras[index].lastCandidate, isolationNow, config.holdMs)) {
        cameras := cameras[index := cameras[index].(valid := false, history := [])];
        cameras := cameras[index := cameras[index].(predictionValid := false, predictionTime := 0)];
      }
    }

    method TakeIn(x: Input)
      requires ValidInput(Value(), x)
      modifies this`cameras
      ensures cameras == Intake(config, old(Value()), x)
    {
      ghost var before := Value();
      for i := 0 to CAMERA_COUNT
        invariant |cameras| == CAMERA_COUNT
        invariant forall k | 0 <= k < i ::
          cameras[k] == Arrived(before.cameras[k], x.frames[k], x.inputNow)
        invariant forall k | i <= k < CAMERA_COUNT :: cameras[k] == before.cameras[k]
      {
        if x.frames[i].Some? {
          cameras := cameras[i := cameras[i].(lastFrame := x.inputNow)];
        }
      }
      if 0 < config.calibrationFrames {
        for i := 0 to CAMERA_COUNT
          invariant |cameras| == CAMERA_COUNT
          invariant forall k | 0 <= k < i ::
            cameras[k] == Calibrated1(config, Arrived(before.cameras[k], x.frames[k], x.inputNow),
                                      x.frames[k], x.serials[k])
          invariant forall k | i <= k < CAMERA_COUNT ::
            cameras[k] == Arrived(before.cameras[k], x.frames[k], x.inputNow)
        {
          if x.frames[i].Some? && !cameras[i].hasBackground {
            cameras := cameras[i := cameras[i].(source := x.frames[i].value, samples := cameras[i].samples + 1,
                                                serial := x.serials[i])];
            if config.calibrationFrames <= cameras[i].samples {
              cameras := cameras[i := cameras[i].(hasBackground := true, samples := 0)];
            }
          }
        }
      }
    }

    /** Naming the cameras, and settling the roles once both are named. */
    method NameCameras(x: Input, ghost before: State)
      requires ValidConfig(config) && ValidInput(before, x)
      requires cameras == Intake(config, before, x) && roles == before.roles
      modifies this`cameras, this`roles
      ensures cameras == Named(config, before, x) && roles == RolesAfter(config, before, x)
    {
      ghost var intake := cameras;
      for i := 0 to CAMERA_COUNT
        invariant |cameras| == CAMERA_COUNT && roles == before.roles
        invariant forall k | 0 <= k < i :: cameras[k] == Labelled(intake[k], x.frames[k], x.serials[k])
        invariant forall k | i <= k < CAMERA_COUNT :: cameras[k] == intake[k]
      {
        if x.frames[i].Some? && cameras[i].serial == "" {
          cameras := cameras[i := cameras[i].(serial := x.serials[i])];
        }
      }
      if !roles.resolved && cameras[0].serial != "" && cameras[1].serial != "" {
        var primary := ResolvePrimary(config, [cameras[0].serial, cameras[1].serial]);
        roles := if primary.None? then Unresolvable else Roles(primary.value, true);
      }
    }

    method Process(x: Input, primary: nat, ghost before: State)
      requires ValidInput(before, x) && cameras == Named(config, before, x)
      modifies this`cameras
      ensures cameras == Settled(config, primary, before, x)
    {
      hide Named, Observe, DropStale, FrameIsFresh;
      ghost var named := cameras;
      for i := 0 to CAMERA_COUNT
        invariant |cameras| == CAMERA_COUNT
        invariant forall k | 0 <= k < i ::
          cameras[k] == if Processing(config, primary, k) then named[k] else Processed(config, primary, named[k], x, k)
        invariant forall k | i <= k < CAMERA_COUNT :: cameras[k] == named[k]
      {
        if x.frames[i].Some? && !Processing(config, primary, i) {
          cameras := cameras[i := cameras[i].(source := x.frames[i].value, serial := x.serials[i])];
        }
      }
      for i := 0 to CAMERA_COUNT
        invariant |cameras| == CAMERA_COUNT
        invariant forall k | 0 <= k < i :: cameras[k] == Processed(config, primary, named[k], x, k)
        invariant forall k | i <= k < CAMERA_COUNT ::
          cameras[k] == if Processing(config, primary, k) then named[k] else Processed(config, primary, named[k], x, k)
      {
        if x.frames[i].Some? && Processing(config, primary, i) {
          ObserveFrame(i, x.frames[i].value, x.serials[i], x.measured[i], x.isolationNow, x.candidateNow[i]);
        }
      }
      DropStaleCameras(x.freshnessNow);
      assert forall k | 0 <= k < CAMERA_COUNT ::
          cameras[k] == DropStale(Processed(config, primary, named[k], x, k), x.freshnessNow);
    }

    method DropStaleCameras(now: int)
      requires |cameras| == CAMERA_COUNT
      modifies this`cameras
      ensures |cameras| == CAMERA_COUNT
      ensures forall k | 0 <= k < CAMERA_COUNT :: cameras[k] == DropStale(old(cameras)[k], now)
    {
      for i := 0 to CAMERA_COUNT
        invariant |cameras| == CAMERA_COUNT
        invariant forall k | 0 <= k < i :: cameras[k] == DropStale(old(cameras)[k], now)
        invariant forall k | i <= k < CAMERA_COUNT :: cameras[k] == old(cameras)[k]
      {
        if !FrameIsFresh(cameras[i].lastFrame, now) && cameras[i].valid {
          cameras := cameras[i := Restart(cameras[i])];
        }
      }
    }

    /** One turn of the worker's main loop; Fault ends the worker. */
    method Iterate(x: Input) returns (outcome: Outcome)
      requires ValidConfig(config) && ValidInput(Value(), x)
      modifies this
      ensures (Value(), outcome) == Step(config, old(Value()), x)
    {
      hide Intake, Named, RolesAfter, Settled, Conclude;
      ghost var before := Value();
      TakeIn(x);
      if 0 < config.calibrationFrames && !(cameras[0].hasBackground && cameras[1].hasBackground) {
        if x.now < nextInference {
          return Silent;
        }
        nextInference := x.now + config.minimumInterval;
        generation := generation + 1;
        outputCount := outputCount + 1;
        return EmptyPose(generation);
      }
      NameCameras(x, before);
      if roles.Unresolvable? {
        return Fault;
      }
      Process(x, roles.primary, before);
      outcome := Finish(x);
    }

    method Finish(x: Input) returns (outcome: Outcome)
      requires ValidConfig(config) && |cameras| == CAMERA_COUNT && RolesOk(Value())
      modifies this
      ensures (Value(), outcome) == Conclude(config, old(Value()), x)
    {
      hide NeedsInference, IsReady;
      var ready := ReadyFlags(config, cameras, x.freshnessNow);
      generation := generation + 1;
      if !(ready[0] || ready[1]) {
        if x.now < nextInference {
          return Silent;
        }
        nextInference := x.now + config.minimumInterval;
        outputCount := outputCount + 1;
        return EmptyPose(generation);
      }
      var selected := SelectInferenceIndices(ready, cameras, roles.primary, config.mode, outputCount,
                                             config.secondaryEvery);
      if selected == [] || !SourceSampleIsDue(cameras[selected[0]].candidate.time,
          cameras[selected[0]].predictionTime, config.minimumInterval) {
        return Silent;
      }
      var index := selected[0];
      cameras := cameras[index := cameras[index].(predictionSequence := cameras[index].source.sequence)];
      cameras := cameras[index := cameras[index].(predictionTime := cameras[index].candidate.time)];
      cameras := cameras[index := cameras[index].(predictionValid := true)];
      outputCount := outputCount + 1;
      assert selected == [index];
      assert cameras == old(cameras)[index := Inferred(old(cameras)[index])];
      return Pose(generation, index);
    }
  }
}
