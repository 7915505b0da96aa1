/** Properties of every run of the worker: the temporal clip, the source cadence and
    the published generations. */
module WorkerRuns {
  import opened Temporal
  import opened Worker
  import opened Subsequence

  /** One inference: the newest frame of the inferred clip, and how many resets the
      camera had gone through by then. */
  datatype Inference = Inference(newest: Frame, resets: nat)

  /** A camera together with its past: the frames that went through processing, the
      resets and the inferences. */
  datatype Past = Past(arrivals: seq<Frame>, resets: nat, inferences: seq<Inference>)

  datatype Trace = Trace(state: State, pasts: seq<Past>, published: seq<nat>)

  function InitialTrace(c: Config): Trace {
    Trace(Initial(c), [Past([], 0, []), Past([], 0, [])], [])
  }

  /** The branches that forget the clip and the prediction. */
  predicate ObserveResets(c: Config, cam: Camera, frame: Frame, measured: bool, isolationNow: int) {
    || ContinuityLost(cam, frame)
    || (!measured && !Bridges(c, cam.(source := frame), isolationNow))
  }

  predicate StaleResets(cam: Camera, now: int) {
    !FrameIsFresh(cam.lastFrame, now) && cam.valid
  }

  /** How processing and the staleness check extend the past of camera i. */
  function PastAfter(c: Config, primary: nat, s: State, x: Input, i: nat, p: Past): Past
    requires ValidInput(s, x) && i < CAMERA_COUNT
  {
    var cam := Named(c, s, x)[i];
    var seen := x.frames[i].Some? && Processing(c, primary, i);
    var observed := seen && ObserveResets(c, cam, x.frames[i].value, x.measured[i], x.isolationNow);
    var stale := StaleResets(Processed(c, primary, cam, x, i), x.freshnessNow);
    Past(if seen then p.arrivals + [x.frames[i].value] else p.arrivals,
         p.resets + (if observed then 1 else 0) + (if stale then 1 else 0),
         p.inferences)
  }

  function AddInference(t: Trace, outcome: Outcome, before: seq<Camera>): seq<Past>
    requires |t.pasts| == |before| == CAMERA_COUNT
  {
    if outcome.Pose? && outcome.camera < CAMERA_COUNT then
      var p := t.pasts[outcome.camera];
      t.pasts[outcome.camera :=
        p.(inferences := p.inferences + [Inference(before[outcome.camera].candidate, p.resets)])]
    else t.pasts
  }

  function TraceStep(c: Config, t: Trace, x: Input): Trace
    requires ValidConfig(c) && ValidInput(t.state, x) && |t.pasts| == CAMERA_COUNT
  {
    var (next, outcome) := Step(c, t.state, x);
    var published :=
      match outcome
      case Silent => t.published
      case EmptyPose(g) => t.published + [g]
      case Pose(g, _) => t.published + [g]
      case Fault => t.published;
    var roles := RolesAfter(c, t.state, x);
    if Calibrating(c, Intake(c, t.state, x)) || roles.Unresolvable? then Trace(next, t.pasts, published)
    else
      var pasts := seq(CAMERA_COUNT, i requires 0 <= i < CAMERA_COUNT =>
        PastAfter(c, roles.primary, t.state, x, i, t.pasts[i]));
      Trace(next, AddInference(t.(pasts := pasts), outcome, Settled(c, roles.primary, t.state, x)), published)
  }

  // --------------------------------------------------------------- invariants

  /** What holds of every camera, whether or not it is processed. */
  ghost predicate SlotInv(c: Config, cam: Camera) {
    && (cam.valid <==> cam.history != [])
    && |cam.history| <= c.clip
    && (cam.history != [] ==> cam.candidate == cam.history[|cam.history| - 1])
    && (forall k | 0 <= k < |cam.history| :: cam.history[k].sequence <= cam.source.sequence)
  }

  ghost predicate Hop(a: Frame, b: Frame) {
    a.sequence < b.sequence && 0 < b.time - a.time <= MAXIMUM_CLIP_FRAME_GAP_NS
  }

  /** The clip is read off the camera's own arrivals, and from its oldest sample to
      the newest arrival no source hop is longer than 125 ms. */
  ghost predicate ClipFits(cam: Camera, arrivals: seq<Frame>, picks: seq<int>) {
    && Picks(picks, arrivals, cam.history)
    && picks != []
    && forall k | picks[0] <= k < |arrivals| - 1 :: Hop(arrivals[k], arrivals[k + 1])
  }

  /** What holds of every camera, processed or not. */
  ghost predicate FitInv(cam: Camera, p: Past) {
    && (forall k | 0 <= k < |p.arrivals| :: 0 < p.arrivals[k].sequence)
    && (cam.history != [] ==> exists picks: seq<int> :: ClipFits(cam, p.arrivals, picks))
  }

  /** A processed camera's cursor is at its last arrival. */
  ghost predicate ClipInv(cam: Camera, p: Past) {
    && FitInv(cam, p)
    && (p.arrivals != [] ==> p.arrivals[|p.arrivals| - 1] == cam.source)
  }

  /** A camera that is not processed yet has nothing; one that is no longer processed keeps its
      clip but grows it no more. */
  ghost predicate RoleInv(c: Config, s: State, i: nat, cam: Camera, p: Past) {
    && FitInv(cam, p)
    && (s.roles.Roles? ==>
          && (!s.roles.resolved ==> s.roles.primary == c.primary)
          && (Processing(c, s.roles.primary, i) ==> ClipInv(cam, p))
          && (!Processing(c, s.roles.primary, i) && !s.roles.resolved ==> p.arrivals == [] && cam.history == []))
  }

  ghost predicate CadenceOk(c: Config, log: seq<Inference>, k: nat)
    requires 0 < k < |log|
  {
    && log[k - 1].newest.sequence < log[k].newest.sequence
    && log[k - 1].resets <= log[k].resets
    && (log[k - 1].resets == log[k].resets ==>
      MinimumGap(c.minimumInterval) <= log[k].newest.time - log[k - 1].newest.time)
  }

  ghost predicate InferenceInv(c: Config, cam: Camera, p: Past) {
    && (forall k | 0 < k < |p.inferences| :: CadenceOk(c, p.inferences, k))
    && (p.inferences == [] ==> cam.predictionTime == 0)
    && 0 <= cam.predictionTime
    && (p.inferences != [] ==>
      var last := p.inferences[|p.inferences| - 1];
      && last.newest.sequence <= cam.source.sequence
      && last.resets <= p.resets
      && (0 < cam.predictionTime ==> cam.predictionTime == last.newest.time)
      && (last.resets < p.resets || 0 < cam.predictionTime)
      && (cam.predictionTime == 0 ==>
        forall k | 0 <= k < |cam.history| :: last.newest.sequence < cam.history[k].sequence)
      && (cam.history != [] ==>
        last.newest.sequence < cam.candidate.sequence || last.newest == cam.candidate))
  }

  /** Until every background is known, nothing has been processed. */
  ghost predicate Untouched(c: Config, t: Trace)
    requires |t.state.cameras| == |t.pasts| == CAMERA_COUNT
  {
    Calibrating(c, t.state.cameras) ==>
      forall i | 0 <= i < CAMERA_COUNT ::
        && t.pasts[i] == Past([], 0, [])
        && t.state.cameras[i].history == [] && !t.state.cameras[i].valid
        && t.state.cameras[i].predictionTime == 0
  }

  ghost predicate PublishedInv(t: Trace) {
    && (forall k | 0 <= k < |t.published| :: 0 < t.published[k] <= t.state.generation)
    && forall j, k | 0 <= j < k < |t.published| :: t.published[j] < t.published[k]
  }

  ghost predicate TraceInv(c: Config, t: Trace) {
    && |t.state.cameras| == |t.pasts| == CAMERA_COUNT
    && Untouched(c, t)
    && PublishedInv(t)
    && forall i | 0 <= i < CAMERA_COUNT ::
      SlotInv(c, t.state.cameras[i]) && InferenceInv(c, t.state.cameras[i], t.pasts[i])
  }

  // --------------------------------------------- one camera through one iteration

  /** The frame is new to the camera, or it is the calibration frame that the same
      iteration goes on to process. */
  ghost predicate FrameIsNew(cam: Camera, p: Past, frame: Frame) {
    cam.source.sequence < frame.sequence ||
    (0 < frame.sequence && cam.source == frame && cam.history == [] && p.arrivals == [] && p.inferences == [])
  }

  lemma ObserveKeepsSlot(c: Config, cam: Camera, frame: Frame, measured: bool,
                         isolationNow: int, candidateNow: int)
    requires ValidConfig(c) && SlotInv(c, cam)
    requires cam.source.sequence <= frame.sequence
    ensures SlotInv(c, Observe(c, cam, frame, measured, isolationNow, candidateNow))
  {
  }

  lemma ObserveKeepsInference(c: Config, cam: Camera, p: Past, frame: Frame, measured: bool,
                              isolationNow: int, candidateNow: int)
    requires ValidConfig(c) && SlotInv(c, cam) && InferenceInv(c, cam, p) && FrameIsNew(cam, p, frame)
    ensures var resets := p.resets + if ObserveResets(c, cam, frame, measured, isolationNow) then 1 else 0;
      InferenceInv(c, Observe(c, cam, frame, measured, isolationNow, candidateNow),
                   p.(resets := resets, arrivals := p.arrivals + [frame]))
  {
    hide CadenceOk;
  }

  /** A camera that is not processed only moves its source. */
  lemma SkipKeeps(c: Config, cam: Camera, p: Past, frame: Frame)
    requires SlotInv(c, cam) && InferenceInv(c, cam, p) && FrameIsNew(cam, p, frame)
    ensures SlotInv(c, cam.(source := frame)) && InferenceInv(c, cam.(source := frame), p)
  {
    hide CadenceOk;
  }

  lemma StaleKeeps(c: Config, cam: Camera, p: Past, now: int)
    requires SlotInv(c, cam) && InferenceInv(c, cam, p)
    ensures SlotInv(c, DropStale(cam, now))
    ensures InferenceInv(c, DropStale(cam, now),
      p.(resets := p.resets + if StaleResets(cam, now) then 1 else 0))
  {
    hide CadenceOk;
  }

  lemma InferKeeps(c: Config, cam: Camera, p: Past)
    requires SlotInv(c, cam) && InferenceInv(c, cam, p) && cam.history != []
    requires SourceSampleIsDue(cam.candidate.time, cam.predictionTime, c.minimumInterval)
    ensures SlotInv(c, Inferred(cam))
    ensures InferenceInv(c, Inferred(cam),
      p.(inferences := p.inferences + [Inference(cam.candidate, p.resets)]))
  {
    var log := p.inferences + [Inference(cam.candidate, p.resets)];
    assert cam.candidate in cam.history;
    forall k | 0 < k < |log|
      ensures CadenceOk(c, log, k)
    {
      if k < |p.inferences| {
        assert CadenceOk(c, p.inferences, k);
      }
    }
  }

  // ----------------------------------------------------------- whole iterations

  lemma IntakeKeeps(c: Config, t: Trace, x: Input)
    requires ValidConfig(c) && TraceInv(c, t) && ValidInput(t.state, x)
    ensures var intake := Intake(c, t.state, x);
      && (forall i | 0 <= i < CAMERA_COUNT ::
            && SlotInv(c, intake[i]) && InferenceInv(c, intake[i], t.pasts[i])
            && (x.frames[i].Some? ==> FrameIsNew(intake[i], t.pasts[i], x.frames[i].value)))
      && (Calibrating(c, intake) ==> Calibrating(c, t.state.cameras))
  {
    hide CadenceOk, Named, Labelled;
    var intake := Intake(c, t.state, x);
    forall i | 0 <= i < CAMERA_COUNT
      ensures t.state.cameras[i].hasBackground ==> intake[i].hasBackground
      ensures SlotInv(c, intake[i]) && InferenceInv(c, intake[i], t.pasts[i])
      ensures x.frames[i].Some? ==> FrameIsNew(intake[i], t.pasts[i], x.frames[i].value)
    {
    }
  }

  /** Naming a camera touches nothing else. */
  lemma NamedKeeps(c: Config, t: Trace, x: Input, i: nat)
    requires ValidConfig(c) && TraceInv(c, t) && ValidInput(t.state, x) && i < CAMERA_COUNT
    ensures var cam := Named(c, t.state, x)[i];
      && SlotInv(c, cam) && InferenceInv(c, cam, t.pasts[i])
      && (x.frames[i].Some? ==> FrameIsNew(cam, t.pasts[i], x.frames[i].value))
      && cam.hasBackground == Intake(c, t.state, x)[i].hasBackground
  {
    IntakeKeeps(c, t, x);
    hide CadenceOk, Intake;
    var cam := Intake(c, t.state, x)[i];
    SerialIsInert(c, cam, t.pasts[i], Named(c, t.state, x)[i].serial);
  }

  lemma SerialIsInert(c: Config, cam: Camera, p: Past, serial: string)
    ensures SlotInv(c, cam) ==> SlotInv(c, cam.(serial := serial))
    ensures InferenceInv(c, cam, p) ==> InferenceInv(c, cam.(serial := serial), p)
    ensures forall frame :: FrameIsNew(cam, p, frame) <==> FrameIsNew(cam.(serial := serial), p, frame)
    ensures forall arrivals, picks ::
      ClipFits(cam, arrivals, picks) <==> ClipFits(cam.(serial := serial), arrivals, picks)
  {
    hide CadenceOk, Hop;
  }

  lemma SettleKeeps(c: Config, primary: nat, t: Trace, x: Input, i: nat)
    requires ValidConfig(c) && TraceInv(c, t) && ValidInput(t.state, x) && i < CAMERA_COUNT
    ensures SlotInv(c, Settled(c, primary, t.state, x)[i])
    ensures InferenceInv(c, Settled(c, primary, t.state, x)[i], PastAfter(c, primary, t.state, x, i, t.pasts[i]))
  {
    hide CadenceOk, Observe, DropStale, SlotInv, InferenceInv, Named, FrameIsNew, ClipFits;
    NamedKeeps(c, t, x, i);
    var cam, p := Named(c, t.state, x)[i], t.pasts[i];
    if x.frames[i].Some? {
      var frame := x.frames[i].value;
      SerialIsInert(c, cam, p, x.serials[i]);
      var named := cam.(serial := x.serials[i]);
      if Processing(c, primary, i) {
        NewIsNotOlder(named, p, frame);
        ObserveKeepsSlot(c, named, frame, x.measured[i], x.isolationNow, x.candidateNow[i]);
        ObserveKeepsInference(c, named, p, frame, x.measured[i], x.isolationNow, x.candidateNow[i]);
        ResetsIgnoreSerial(c, cam, x.serials[i], frame, x.measured[i], x.isolationNow);
        var resets := p.resets + if ObserveResets(c, cam, frame, x.measured[i], x.isolationNow) then 1 else 0;
        StaleKeeps(c, Processed(c, primary, cam, x, i), p.(resets := resets, arrivals := p.arrivals + [frame]),
                   x.freshnessNow);
      } else {
        SkipKeeps(c, named, p, frame);
        StaleKeeps(c, Processed(c, primary, cam, x, i), p, x.freshnessNow);
      }
    } else {
      StaleKeeps(c, cam, p, x.freshnessNow);
    }
  }

  lemma NewIsNotOlder(cam: Camera, p: Past, frame: Frame)
    requires FrameIsNew(cam, p, frame)
    ensures cam.source.sequence <= frame.sequence
  {
  }

  lemma ResetsIgnoreSerial(c: Config, cam: Camera, serial: string, frame: Frame, measured: bool, isolationNow: int)
    ensures ObserveResets(c, cam, frame, measured, isolationNow) ==
            ObserveResets(c, cam.(serial := serial), frame, measured, isolationNow)
  {
  }

  /** The end of an iteration changes at most the one camera whose clip it infers. */
  lemma ConcludeShape(c: Config, s: State, x: Input)
    requires ValidConfig(c) && |s.cameras| == CAMERA_COUNT && RolesOk(s)
    ensures var (next, outcome) := Conclude(c, s, x);
      && next.generation == s.generation + 1 && next.roles == s.roles && !outcome.Fault?
      && (outcome.Pose? ==>
        && outcome.generation == next.generation
        && outcome.camera < CAMERA_COUNT
        && IsReady(c, s.cameras[outcome.camera], x.freshnessNow)
        && SourceSampleIsDue(s.cameras[outcome.camera].candidate.time,
                             s.cameras[outcome.camera].predictionTime, c.minimumInterval)
        && next.cameras == s.cameras[outcome.camera := Inferred(s.cameras[outcome.camera])])
      && (!outcome.Pose? ==> next.cameras == s.cameras)
      && (outcome.EmptyPose? ==> outcome.generation == next.generation)
  {
    hide IsReady, SourceSampleIsDue, Inferred;
  }

  lemma CalibrationKeepsTraceInv(c: Config, t: Trace, x: Input)
    requires ValidConfig(c) && TraceInv(c, t) && ValidInput(t.state, x)
    requires Calibrating(c, Intake(c, t.state, x))
    ensures TraceInv(c, TraceStep(c, t, x))
  {
    IntakeKeeps(c, t, x);
    hide SlotInv, InferenceInv;
    var intake := Intake(c, t.state, x);
    var t' := TraceStep(c, t, x);
    assert t'.state.cameras == intake && t'.pasts == t.pasts;
    assert Untouched(c, t);
    forall i | 0 <= i < CAMERA_COUNT
      ensures intake[i].history == [] && !intake[i].valid && intake[i].predictionTime == 0
    {
    }
  }

  lemma StepKeepsTraceInv(c: Config, t: Trace, x: Input)
    requires ValidConfig(c) && TraceInv(c, t) && ValidInput(t.state, x)
    ensures TraceInv(c, TraceStep(c, t, x))
  {
    if Calibrating(c, Intake(c, t.state, x)) {
      CalibrationKeepsTraceInv(c, t, x);
    } else if RolesAfter(c, t.state, x).Unresolvable? {
      FaultKeepsTraceInv(c, t, x);
    } else {
      ProcessingKeepsTraceInv(c, t, x);
    }
  }

  lemma FaultKeepsTraceInv(c: Config, t: Trace, x: Input)
    requires ValidConfig(c) && TraceInv(c, t) && ValidInput(t.state, x)
    requires !Calibrating(c, Intake(c, t.state, x)) && RolesAfter(c, t.state, x).Unresolvable?
    ensures TraceInv(c, TraceStep(c, t, x))
  {
    hide SlotInv, InferenceInv, Intake, Named, RolesAfter;
    forall i | 0 <= i < CAMERA_COUNT
      ensures SlotInv(c, Named(c, t.state, x)[i]) && InferenceInv(c, Named(c, t.state, x)[i], t.pasts[i])
      ensures Named(c, t.state, x)[i].hasBackground == Intake(c, t.state, x)[i].hasBackground
    {
      NamedKeeps(c, t, x, i);
    }
    assert !Calibrating(c, TraceStep(c, t, x).state.cameras);
  }

  lemma ProcessingKeepsTraceInv(c: Config, t: Trace, x: Input)
    requires ValidConfig(c) && TraceInv(c, t) && ValidInput(t.state, x)
    requires !Calibrating(c, Intake(c, t.state, x)) && RolesAfter(c, t.state, x).Roles?
    ensures TraceInv(c, TraceStep(c, t, x))
  {
    hide SlotInv, InferenceInv, Conclude, Settled, Intake, PastAfter, RolesAfter;
    var t' := TraceStep(c, t, x);
    var roles := RolesAfter(c, t.state, x);
    var settled := Settled(c, roles.primary, t.state, x);
    var middle := t.state.(cameras := settled, roles := roles);
    ConcludeShape(c, middle, x);
    var (next, outcome) := Conclude(c, middle, x);
    assert t'.state == next;
    forall i | 0 <= i < CAMERA_COUNT
      ensures SlotInv(c, t'.state.cameras[i]) && InferenceInv(c, t'.state.cameras[i], t'.pasts[i])
    {
      SettleKeeps(c, roles.primary, t, x, i);
      if outcome.Pose? && outcome.camera == i {
        ReadyMeansHistory(c, settled[i], x.freshnessNow);
        InferKeeps(c, settled[i], PastAfter(c, roles.primary, t.state, x, i, t.pasts[i]));
      }
    }
    forall i | 0 <= i < CAMERA_COUNT
      ensures next.cameras[i].hasBackground == settled[i].hasBackground
    {
    }
    SettledKeepsBackgrounds(c, roles.primary, t, x);
    assert !Calibrating(c, next.cameras);
  }

  lemma ReadyMeansHistory(c: Config, cam: Camera, now: int)
    requires ValidConfig(c)
    ensures IsReady(c, cam, now) ==> cam.history != []
  {
  }

  lemma SettledKeepsBackgrounds(c: Config, primary: nat, t: Trace, x: Input)
    requires ValidInput(t.state, x)
    ensures forall i | 0 <= i < CAMERA_COUNT ::
      Settled(c, primary, t.state, x)[i].hasBackground == Intake(c, t.state, x)[i].hasBackground
  {
  }

  // ------------------------------------------------------------- the clip

  /** A frame that does not break continuity is one short hop from the last one. */
  lemma ArrivalIsHop(cam: Camera, p: Past, frame: Frame)
    requires ClipInv(cam, p) && FrameIsNew(cam, p, frame) && p.arrivals != []
    requires !ContinuityLost(cam, frame)
    ensures Hop(p.arrivals[|p.arrivals| - 1], frame)
  {
    assert 0 < p.arrivals[|p.arrivals| - 1].sequence;
  }

  lemma PushFits(c: Config, cam: Camera, p: Past, frame: Frame, picks: seq<int>)
    requires 0 < |cam.history| <= c.clip && ClipFits(cam, p.arrivals, picks)
    requires p.arrivals != [] && Hop(p.arrivals[|p.arrivals| - 1], frame)
    ensures exists picks': seq<int> ::
      ClipFits(cam.(history := Push(cam.history, frame, c.clip)), p.arrivals + [frame], picks')
  {
    var arrivals := p.arrivals + [frame];
    var grown := cam.(history := Push(cam.history, frame, c.clip));
    var kept := if |cam.history| < c.clip then picks else picks[1..];
    assert ClipFits(grown, arrivals, kept + [|p.arrivals|]);
  }

  lemma ObserveKeepsClip(c: Config, cam: Camera, p: Past, frame: Frame, measured: bool,
                         isolationNow: int, candidateNow: int)
    requires ValidConfig(c) && SlotInv(c, cam) && ClipInv(cam, p) && FrameIsNew(cam, p, frame)
    ensures ClipInv(Observe(c, cam, frame, measured, isolationNow, candidateNow),
                    p.(arrivals := p.arrivals + [frame]))
  {
    hide Hop;
    var arrivals := p.arrivals + [frame];
    var seen := Observe(c, cam, frame, measured, isolationNow, candidateNow);
    if seen.history != [] {
      if ContinuityLost(cam, frame) || cam.history == [] {
        assert ClipFits(seen, arrivals, [|p.arrivals|]);
      } else {
        var picks: seq<int> :| ClipFits(cam, p.arrivals, picks);
        ArrivalIsHop(cam, p, frame);
        if measured {
          PushFits(c, cam, p, frame, picks);
          var picks': seq<int> :|
            ClipFits(cam.(history := Push(cam.history, frame, c.clip)), arrivals, picks');
          assert ClipFits(seen, arrivals, picks');
        } else {
          assert ClipFits(seen, arrivals, picks);
        }
      }
    }
  }

  /** The camera before its frame is processed, as far as the clip is concerned. */
  lemma NamedKeepsClip(c: Config, t: Trace, x: Input, i: nat)
    requires ValidConfig(c) && TraceInv(c, t) && ValidInput(t.state, x) && i < CAMERA_COUNT
    requires FitInv(t.state.cameras[i], t.pasts[i])
    ensures var cam := Named(c, t.state, x)[i];
      && cam.history == t.state.cameras[i].history
      && FitInv(cam, t.pasts[i])
      && (ClipInv(t.state.cameras[i], t.pasts[i]) ==> ClipInv(cam, t.pasts[i]))
  {
    hide Hop, CadenceOk;
    IntakeKeeps(c, t, x);
    var cam, p := Named(c, t.state, x)[i], t.pasts[i];
    if p.arrivals != [] {
      assert !Calibrating(c, t.state.cameras);
      assert cam.source == t.state.cameras[i].source;
    }
    assert cam.history == t.state.cameras[i].history;
    forall picks: seq<int> | ClipFits(t.state.cameras[i], p.arrivals, picks)
      ensures ClipFits(cam, p.arrivals, picks)
    {
    }
  }

  lemma SettleKeepsClip(c: Config, primary: nat, t: Trace, x: Input, i: nat)
    requires ValidConfig(c) && TraceInv(c, t) && ValidInput(t.state, x) && i < CAMERA_COUNT
    requires ClipInv(t.state.cameras[i], t.pasts[i]) && Processing(c, primary, i)
    ensures ClipInv(Settled(c, primary, t.state, x)[i], PastAfter(c, primary, t.state, x, i, t.pasts[i]))
  {
    NamedKeeps(c, t, x, i);
    NamedKeepsClip(c, t, x, i);
    hide Hop, CadenceOk, Named, Observe, DropStale, ClipFits;
    var cam, p := Named(c, t.state, x)[i], t.pasts[i];
    SerialIsInert(c, cam, p, x.serials[i]);
    if x.frames[i].Some? {
      ObserveKeepsClip(c, cam.(serial := x.serials[i]), p, x.frames[i].value, x.measured[i], x.isolationNow,
                       x.candidateNow[i]);
    }
    StaleKeepsClip(Processed(c, primary, cam, x, i), PastAfter(c, primary, t.state, x, i, p), x.freshnessNow);
  }

  lemma StaleKeepsClip(cam: Camera, p: Past, now: int)
    requires FitInv(cam, p)
    ensures FitInv(DropStale(cam, now), p)
    ensures ClipInv(cam, p) ==> ClipInv(DropStale(cam, now), p)
    ensures cam.history == [] ==> DropStale(cam, now).history == []
  {
  }

  /** A camera that is not processed keeps its clip or drops it. */
  lemma SkipKeepsFit(c: Config, primary: nat, t: Trace, x: Input, i: nat)
    requires ValidConfig(c) && TraceInv(c, t) && ValidInput(t.state, x) && i < CAMERA_COUNT
    requires FitInv(t.state.cameras[i], t.pasts[i]) && !Processing(c, primary, i)
    ensures var cam, p := Settled(c, primary, t.state, x)[i], PastAfter(c, primary, t.state, x, i, t.pasts[i]);
      && FitInv(cam, p) && p.arrivals == t.pasts[i].arrivals
      && (t.state.cameras[i].history == [] ==> cam.history == [])
  {
    NamedKeepsClip(c, t, x, i);
    hide Hop, CadenceOk, Named, DropStale;
    var cam, p := Named(c, t.state, x)[i], t.pasts[i];
    var skipped := Processed(c, primary, cam, x, i);
    forall picks: seq<int> | ClipFits(cam, p.arrivals, picks)
      ensures ClipFits(skipped, p.arrivals, picks)
    {
    }
    StaleKeepsClip(skipped, p, x.freshnessNow);
    assert PastAfter(c, primary, t.state, x, i, p).arrivals == p.arrivals;
    var after := PastAfter(c, primary, t.state, x, i, p);
    assert FitInv(DropStale(skipped, x.freshnessNow), after);
  }

  /** The clip invariants look at the clip, the cursor and the arrivals only. */
  lemma ClipLooksAt(cam: Camera, p: Past, cam': Camera, p': Past)
    requires cam'.history == cam.history && cam'.source == cam.source && p'.arrivals == p.arrivals
    ensures FitInv(cam, p) ==> FitInv(cam', p')
    ensures ClipInv(cam, p) ==> ClipInv(cam', p')
  {
    hide Hop;
    forall picks: seq<int> | ClipFits(cam, p.arrivals, picks)
      ensures ClipFits(cam', p.arrivals, picks)
    {
    }
  }

  /** A camera's role after its frame was processed or skipped. */
  lemma SettledKeepsRole(c: Config, t: Trace, x: Input, i: nat)
    requires ValidConfig(c) && TraceInv(c, t) && ValidInput(t.state, x) && i < CAMERA_COUNT
    requires RoleInv(c, t.state, i, t.state.cameras[i], t.pasts[i])
    requires RolesAfter(c, t.state, x).Roles?
    ensures var roles := RolesAfter(c, t.state, x);
      RoleInv(c, t.state.(roles := roles), i, Settled(c, roles.primary, t.state, x)[i],
              PastAfter(c, roles.primary, t.state, x, i, t.pasts[i]))
  {
    var roles := RolesAfter(c, t.state, x);
    if Processing(c, roles.primary, i) {
      hide ClipFits;
      SettleKeepsClip(c, roles.primary, t, x, i);
    } else {
      SkipKeepsFit(c, roles.primary, t, x, i);
    }
    hide Settled, PastAfter, RolesAfter, FitInv;
  }

  /** One turn that gets as far as processing. */
  lemma ProcessingKeepsRole(c: Config, t: Trace, x: Input, i: nat)
    requires ValidConfig(c) && TraceInv(c, t) && ValidInput(t.state, x) && i < CAMERA_COUNT
    requires RoleInv(c, t.state, i, t.state.cameras[i], t.pasts[i])
    requires !Calibrating(c, Intake(c, t.state, x)) && RolesAfter(c, t.state, x).Roles?
    ensures var t' := TraceStep(c, t, x);
      |t'.state.cameras| == |t'.pasts| == CAMERA_COUNT &&
      RoleInv(c, t'.state, i, t'.state.cameras[i], t'.pasts[i])
  {
    SettledKeepsRole(c, t, x, i);
    hide FitInv, ClipInv, SlotInv, InferenceInv, Conclude, Settled, Intake, PastAfter, RolesAfter, IsReady;
    var roles := RolesAfter(c, t.state, x);
    var p := PastAfter(c, roles.primary, t.state, x, i, t.pasts[i]);
    var settled := Settled(c, roles.primary, t.state, x);
    var t' := TraceStep(c, t, x);
    var middle := t.state.(cameras := settled, roles := roles);
    ConcludeShape(c, middle, x);
    assert t'.state == Conclude(c, middle, x).0;
    ClipLooksAt(settled[i], p, t'.state.cameras[i], t'.pasts[i]);
  }

  /** A turn that ends before processing. */
  lemma WaitingKeepsRole(c: Config, t: Trace, x: Input, i: nat)
    requires ValidConfig(c) && TraceInv(c, t) && ValidInput(t.state, x) && i < CAMERA_COUNT
    requires RoleInv(c, t.state, i, t.state.cameras[i], t.pasts[i])
    requires Calibrating(c, Intake(c, t.state, x)) || RolesAfter(c, t.state, x).Unresolvable?
    ensures var t' := TraceStep(c, t, x);
      |t'.state.cameras| == |t'.pasts| == CAMERA_COUNT &&
      RoleInv(c, t'.state, i, t'.state.cameras[i], t'.pasts[i])
  {
    if Calibrating(c, Intake(c, t.state, x)) {
      CalibrationKeepsTraceInv(c, t, x);
      IntakeKeeps(c, t, x);
      hide SlotInv, InferenceInv, Hop;
      assert t.pasts[i].arrivals == [] && TraceStep(c, t, x).state.cameras[i].history == [];
    } else {
      NamedKeepsClip(c, t, x, i);
      hide SlotInv, InferenceInv, Hop, Named, Intake;
      assert TraceStep(c, t, x).pasts == t.pasts;
    }
  }

  lemma StepKeepsRole(c: Config, t: Trace, x: Input, i: nat)
    requires ValidConfig(c) && TraceInv(c, t) && ValidInput(t.state, x) && i < CAMERA_COUNT
    requires RoleInv(c, t.state, i, t.state.cameras[i], t.pasts[i])
    ensures var t' := TraceStep(c, t, x);
      |t'.state.cameras| == |t'.pasts| == CAMERA_COUNT &&
      RoleInv(c, t'.state, i, t'.state.cameras[i], t'.pasts[i])
  {
    if Calibrating(c, Intake(c, t.state, x)) || RolesAfter(c, t.state, x).Unresolvable? {
      WaitingKeepsRole(c, t, x, i);
    } else {
      ProcessingKeepsRole(c, t, x, i);
    }
  }

  // ------------------------------------------------------------- whole runs

  ghost predicate IsRun(c: Config, traces: seq<Trace>, inputs: seq<Input>) {
    && ValidConfig(c) && |traces| == |inputs| + 1 && traces[0] == InitialTrace(c)
    && forall k | 0 <= k < |inputs| ::
      && ValidInput(traces[k].state, inputs[k])
      && |traces[k].pasts| == CAMERA_COUNT
      && traces[k + 1] == TraceStep(c, traces[k], inputs[k])
  }

  lemma {:induction false} RunInv(c: Config, traces: seq<Trace>, inputs: seq<Input>, k: nat)
    requires IsRun(c, traces, inputs) && k < |traces|
    ensures TraceInv(c, traces[k])
  {
    if 0 < k {
      RunInv(c, traces, inputs, k - 1);
      StepKeepsTraceInv(c, traces[k - 1], inputs[k - 1]);
    }
  }

  lemma {:induction false} RunKeepsRole(c: Config, traces: seq<Trace>, inputs: seq<Input>, k: nat, i: nat)
    requires IsRun(c, traces, inputs) && k < |traces| && i < CAMERA_COUNT
    ensures TraceInv(c, traces[k])
    ensures RoleInv(c, traces[k].state, i, traces[k].state.cameras[i], traces[k].pasts[i])
  {
    RunInv(c, traces, inputs, k);
    if 0 < k {
      hide RoleInv, TraceStep;
      RunKeepsRole(c, traces, inputs, k - 1, i);
      StepKeepsRole(c, traces[k - 1], inputs[k - 1], i);
    }
  }

  lemma {:induction false} HopsIncrease(arrivals: seq<Frame>, a: nat, b: nat)
    requires a < b < |arrivals|
    requires forall k | a <= k < |arrivals| - 1 :: Hop(arrivals[k], arrivals[k + 1])
    ensures arrivals[a].sequence < arrivals[b].sequence && arrivals[a].time < arrivals[b].time
    decreases b - a
  {
    assert Hop(arrivals[b - 1], arrivals[b - 1 + 1]);
    if a < b - 1 {
      HopsIncrease(arrivals, a, b - 1);
    }
  }

  /** In every run, for every camera, whichever cameras are processed: the clip is non-empty
      exactly when the camera is valid, never longer than the model's clip, ends at the current
      candidate, strictly increases in sequence and time, and is read off the camera's arrivals
      without a source hop over 125 ms from its oldest sample on. */
  lemma ClipIsCoherent(c: Config, traces: seq<Trace>, inputs: seq<Input>, k: nat, i: nat)
    requires IsRun(c, traces, inputs) && k < |traces| && i < CAMERA_COUNT
    ensures |traces[k].state.cameras| == |traces[k].pasts| == CAMERA_COUNT
    ensures var cam := traces[k].state.cameras[i];
      && (cam.valid <==> cam.history != [])
      && |cam.history| <= c.clip
      && (cam.history != [] ==> cam.history[|cam.history| - 1] == cam.candidate)
      && (cam.history != [] ==>
        exists picks: seq<int> :: ClipFits(cam, traces[k].pasts[i].arrivals, picks))
      && forall a, b | 0 <= a < b < |cam.history| ::
        cam.history[a].sequence < cam.history[b].sequence && cam.history[a].time < cam.history[b].time
  {
    RunKeepsRole(c, traces, inputs, k, i);
    var cam, arrivals := traces[k].state.cameras[i], traces[k].pasts[i].arrivals;
    assert SlotInv(c, cam);
    forall a, b | 0 <= a < b < |cam.history|
      ensures cam.history[a].sequence < cam.history[b].sequence && cam.history[a].time < cam.history[b].time
    {
      var picks: seq<int> :| ClipFits(cam, arrivals, picks);
      assert picks[0] <= picks[a];
      HopsIncrease(arrivals, picks[a], picks[b]);
    }
  }

  lemma {:induction false} CadenceChains(c: Config, log: seq<Inference>, a: nat, b: nat)
    requires a < b < |log| && forall k | 0 < k < |log| :: CadenceOk(c, log, k)
    ensures log[a].newest.sequence < log[b].newest.sequence
    decreases b - a
  {
    assert CadenceOk(c, log, b);
    if a < b - 1 {
      CadenceChains(c, log, a, b - 1);
    }
  }

  /** Three quarters of the interval; a short interval less one millisecond, but at least 1 ns. */
  function LeastDistance(interval: nat): int {
    if 4_000_000 <= interval then interval - interval / 4
    else if 1_000_000 < interval then interval - 1_000_000
    else 1
  }

  /** In every run, whatever set of cameras is processed when, no camera's clip is
      inferred twice: the newest sequence strictly increases over its inferences, and
      two successive ones without a reset in between are at least the cadence gap
      apart in source time. */
  lemma NoClipIsInferredTwice(c: Config, traces: seq<Trace>, inputs: seq<Input>, k: nat, i: nat)
    requires IsRun(c, traces, inputs) && k < |traces| && i < CAMERA_COUNT
    ensures |traces[k].pasts| == CAMERA_COUNT
    ensures var log := traces[k].pasts[i].inferences;
      && (forall a, b | 0 <= a < b < |log| :: log[a].newest.sequence < log[b].newest.sequence)
      && (forall b | 0 < b < |log| && log[b - 1].resets == log[b].resets ::
            LeastDistance(c.minimumInterval) <= log[b].newest.time - log[b - 1].newest.time)
  {
    RunInv(c, traces, inputs, k);
    var log := traces[k].pasts[i].inferences;
    assert InferenceInv(c, traces[k].state.cameras[i], traces[k].pasts[i]);
    forall a, b | 0 <= a < b < |log|
      ensures log[a].newest.sequence < log[b].newest.sequence
    {
      CadenceChains(c, log, a, b);
    }
    forall b | 0 < b < |log| && log[b - 1].resets == log[b].resets
      ensures LeastDistance(c.minimumInterval) <= log[b].newest.time - log[b - 1].newest.time
    {
      assert CadenceOk(c, log, b);
    }
  }

  /** Poses leave the worker with strictly increasing generations. */
  lemma GenerationsIncrease(c: Config, traces: seq<Trace>, inputs: seq<Input>, k: nat)
    requires IsRun(c, traces, inputs) && k < |traces|
    ensures forall a, b | 0 <= a < b < |traces[k].published| ::
      0 < traces[k].published[a] < traces[k].published[b]
  {
    RunInv(c, traces, inputs, k);
  }

  // ------------------------------------------------------------ camera roles

  /** Once resolved, the roles are final. */
  lemma {:induction false} RolesAreFinal(c: Config, traces: seq<Trace>, inputs: seq<Input>, j: nat, k: nat)
    requires IsRun(c, traces, inputs) && j <= k < |traces|
    requires traces[j].state.roles.Roles? && traces[j].state.roles.resolved
    ensures traces[k].state.roles == traces[j].state.roles
  {
    if j < k {
      RolesAreFinal(c, traces, inputs, j, k - 1);
      StepRoles(c, traces[k - 1].state, inputs[k - 1]);
      assert traces[k - 1 + 1] == TraceStep(c, traces[k - 1], inputs[k - 1]);
    }
  }

  lemma StepRoles(c: Config, s: State, x: Input)
    requires ValidConfig(c) && ValidInput(s, x)
    ensures Step(c, s, x).0.roles == if Calibrating(c, Intake(c, s, x)) then s.roles else RolesAfter(c, s, x)
  {
    hide Intake, Named, Settled, RolesAfter;
  }

  /** A camera that is skipped and later processed starts from nothing: until then no frame of it
      was processed.  So skipping never joins a clip across a gap. */
  lemma ResumedCameraStartsEmpty(c: Config, traces: seq<Trace>, inputs: seq<Input>, j: nat, k: nat, i: nat)
    requires IsRun(c, traces, inputs) && j < k < |traces| && i < CAMERA_COUNT
    requires traces[j].state.roles.Roles? && !Processing(c, traces[j].state.roles.primary, i)
    requires traces[k].state.roles.Roles? && Processing(c, traces[k].state.roles.primary, i)
    ensures |traces[j].state.cameras| == |traces[j].pasts| == CAMERA_COUNT
    ensures traces[j].pasts[i].arrivals == [] && traces[j].state.cameras[i].history == []
  {
    RunKeepsRole(c, traces, inputs, j, i);
    if traces[j].state.roles.resolved {
      RolesAreFinal(c, traces, inputs, j, k);
    }
  }

  /** A camera that is no longer processed never is again, and its clip only vanishes. */
  lemma {:induction false} RetiredCameraIsFrozen(c: Config, traces: seq<Trace>, inputs: seq<Input>,
                                                 j: nat, k: nat, i: nat)
    requires IsRun(c, traces, inputs) && j <= k < |traces| && i < CAMERA_COUNT
    requires traces[j].state.roles.Roles? && traces[j].state.roles.resolved
    requires !Processing(c, traces[j].state.roles.primary, i)
    ensures |traces[k].state.cameras| == |traces[k].pasts| == CAMERA_COUNT
    ensures |traces[j].state.cameras| == |traces[j].pasts| == CAMERA_COUNT
    ensures traces[k].pasts[i].arrivals == traces[j].pasts[i].arrivals
    ensures traces[k].state.cameras[i].history in [[], traces[j].state.cameras[i].history]
  {
    hide TraceStep, TraceInv;
    RunShape(c, traces, inputs, j);
    RunShape(c, traces, inputs, k);
    if j < k {
      RetiredCameraIsFrozen(c, traces, inputs, j, k - 1, i);
      RolesAreFinal(c, traces, inputs, j, k - 1);
      RunInv(c, traces, inputs, k - 1);
      FrozenStep(c, traces[k - 1], inputs[k - 1], i);
      assert traces[k - 1 + 1] == TraceStep(c, traces[k - 1], inputs[k - 1]);
    }
  }

  lemma RunShape(c: Config, traces: seq<Trace>, inputs: seq<Input>, k: nat)
    requires IsRun(c, traces, inputs) && k < |traces|
    ensures |traces[k].state.cameras| == |traces[k].pasts| == CAMERA_COUNT
  {
    RunInv(c, traces, inputs, k);
  }

  lemma FrozenStep(c: Config, t: Trace, x: Input, i: nat)
    requires ValidConfig(c) && TraceInv(c, t) && ValidInput(t.state, x) && i < CAMERA_COUNT
    requires t.state.roles.resolved && !Processing(c, t.state.roles.primary, i)
    ensures var t' := TraceStep(c, t, x);
      && |t'.state.cameras| == |t'.pasts| == CAMERA_COUNT
      && t'.pasts[i].arrivals == t.pasts[i].arrivals
      && t'.state.cameras[i].history in [[], t.state.cameras[i].history]
  {
    hide SlotInv, InferenceInv, Conclude;
    var t' := TraceStep(c, t, x);
    if !Calibrating(c, Intake(c, t.state, x)) {
      var roles := RolesAfter(c, t.state, x);
      var middle := t.state.(cameras := Settled(c, roles.primary, t.state, x), roles := roles);
      ConcludeShape(c, middle, x);
      assert t'.state == Conclude(c, middle, x).0;
      SettledHistory(c, roles.primary, t.state, x, i);
      hide Settled, Intake, Named, RolesAfter, IsReady;
    }
  }

  lemma SettledHistory(c: Config, primary: nat, s: State, x: Input, i: nat)
    requires ValidInput(s, x) && i < CAMERA_COUNT && !Processing(c, primary, i)
    ensures Settled(c, primary, s, x)[i].history in [[], s.cameras[i].history]
  {
  }

  /** No due clip is left lying: in primary mode the turn infers the primary camera's new clip as
      soon as it is due; in calibrated mode, when both cameras have one, it infers one of them. */
  lemma DueClipIsInferred(c: Config, s: State, x: Input)
    requires ValidConfig(c) && ValidInput(s, x)
    requires !Calibrating(c, Intake(c, s, x)) && RolesAfter(c, s, x).Roles?
    ensures var p := RolesAfter(c, s, x).primary;
            var cameras, outcome := Settled(c, p, s, x), Step(c, s, x).1;
      && (c.mode.Primary? && HasDueClip(c, cameras[p], x.freshnessNow) ==>
            outcome == Pose(s.generation + 1, p))
      && (HasDueClip(c, cameras[0], x.freshnessNow) && HasDueClip(c, cameras[1], x.freshnessNow) ==>
            outcome.Pose? && outcome.camera < CAMERA_COUNT)
  {
    hide Intake, Settled, RolesAfter, IsReady, SourceSampleIsDue;
  }

  // -------------------------------------------------------------- consumed frames

  /** The turn ends with an error before it processes anything. */
  predicate Faults(c: Config, s: State, x: Input)
    requires ValidConfig(c) && ValidInput(s, x)
  {
    !Calibrating(c, Intake(c, s, x)) && RolesAfter(c, s, x).Unresolvable?
  }

  /** The turn leaves the frame of camera i unconsumed: the camera has its background while
      another one still calibrates, or the turn fails and did not sample the frame. */
  predicate LeavesFrame(c: Config, s: State, x: Input, i: nat)
    requires ValidConfig(c) && ValidInput(s, x) && i < CAMERA_COUNT
  {
    if Calibrating(c, Intake(c, s, x)) then s.cameras[i].hasBackground
    else Faults(c, s, x) && (c.calibrationFrames == 0 || s.cameras[i].hasBackground)
  }

  lemma IntakeSource(c: Config, s: State, x: Input, i: nat)
    requires ValidInput(s, x) && i < CAMERA_COUNT && x.frames[i].Some?
    ensures Intake(c, s, x)[i].source == Named(c, s, x)[i].source ==
            if c.calibrationFrames == 0 || s.cameras[i].hasBackground then s.cameras[i].source
            else x.frames[i].value
  {
  }

  lemma SettledSource(c: Config, primary: nat, s: State, x: Input, i: nat)
    requires ValidInput(s, x) && i < CAMERA_COUNT && x.frames[i].Some?
    ensures Settled(c, primary, s, x)[i].source == x.frames[i].value
  {
    hide Named, FrameIsFresh;
  }

  /** A frame the turn has read is consumed, and the cursor moved to it, unless the turn leaves it.
      In a turn that does not fail, it is left exactly if the camera is done calibrating and the
      other one is not. */
  lemma FrameIsConsumedIff(c: Config, s: State, x: Input, i: nat)
    requires ValidConfig(c) && ValidInput(s, x) && i < CAMERA_COUNT && x.frames[i].Some?
    ensures var next := Step(c, s, x).0.cameras[i].source;
      && next == (if LeavesFrame(c, s, x, i) then s.cameras[i].source else x.frames[i].value)
      && (next.sequence == x.frames[i].value.sequence <==> !LeavesFrame(c, s, x, i))
      && (!Faults(c, s, x) ==>
            (next.sequence == x.frames[i].value.sequence <==>
               !(Calibrating(c, Intake(c, s, x)) && s.cameras[i].hasBackground)))
  {
    assert Calibrating(c, Intake(c, s, x)) ==> 0 < c.calibrationFrames;
    hide Intake, Named, Settled, RolesAfter, Calibrating, Conclude;
    IntakeSource(c, s, x, i);
    var roles := RolesAfter(c, s, x);
    if !Calibrating(c, Intake(c, s, x)) && roles.Roles? {
      SettledSource(c, roles.primary, s, x, i);
      ConcludeShape(c, s.(cameras := Settled(c, roles.primary, s, x), roles := roles), x);
    }
  }
}
