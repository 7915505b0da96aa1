/** Which poses leave the worker when: whose turn it is, how often an empty pose is sent, when the
    roles are settled, and what an inference leaves behind. */
module WorkerTurns {
  import opened Basics
  import opened Temporal
  import opened Worker
  import opened WorkerRuns

  // ----------------------------------------------------------------- whose turn it is

  lemma {:induction false} OutputsAreCounted(c: Config, traces: seq<Trace>, inputs: seq<Input>, k: nat)
    requires IsRun(c, traces, inputs) && k < |traces|
    ensures traces[k].state.outputCount == |traces[k].published|
  {
    if 0 < k {
      OutputsAreCounted(c, traces, inputs, k - 1);
      StepCountsOutput(c, traces[k - 1], inputs[k - 1]);
      assert traces[k - 1 + 1] == TraceStep(c, traces[k - 1], inputs[k - 1]);
    }
  }

  lemma StepCountsOutput(c: Config, t: Trace, x: Input)
    requires ValidConfig(c) && ValidInput(t.state, x) && |t.pasts| == CAMERA_COUNT
    ensures var t' := TraceStep(c, t, x);
      t'.state.outputCount - t.state.outputCount == |t'.published| - |t.published|
  {
    hide Intake, Named, Settled, RolesAfter, Chosen, ReadyFlags, PastAfter;
  }

  /** In calibrated mode, when both cameras have a due clip, the one that has no prediction goes
      first, the primary before the other; after that every secondaryEvery-th pose is the other
      camera's and all the rest are the primary's. */
  lemma CamerasTakeTurns(c: Config, traces: seq<Trace>, inputs: seq<Input>, k: nat)
    requires IsRun(c, traces, inputs) && k < |inputs| && c.mode.Calibrated?
    requires !Calibrating(c, Intake(c, traces[k].state, inputs[k])) && RolesAfter(c, traces[k].state, inputs[k]).Roles?
    ensures var s, x := traces[k].state, inputs[k];
      var p := RolesAfter(c, s, x).primary;
      var cameras := Settled(c, p, s, x);
      HasDueClip(c, cameras[0], x.freshnessNow) && HasDueClip(c, cameras[1], x.freshnessNow) ==>
        Step(c, s, x).1 == Pose(s.generation + 1,
          if cameras[p].predictionValid &&
             (!cameras[1 - p].predictionValid || |traces[k].published| % c.secondaryEvery == 0)
          then 1 - p else p)
  {
    OutputsAreCounted(c, traces, inputs, k);
    hide Intake, Settled, RolesAfter, IsReady, SourceSampleIsDue, TraceStep;
  }

  // --------------------------------------------------------- what an inference leaves

  /** The camera's prediction counts, and has the source time of the inferred frame, from an
      inference to the next reset. */
  ghost predicate PredictionIsCurrent(cam: Camera, p: Past) {
    && (cam.predictionValid <==>
          p.inferences != [] && p.inferences[|p.inferences| - 1].resets == p.resets)
    && cam.predictionTime == (if cam.predictionValid then p.inferences[|p.inferences| - 1].newest.time else 0)
    && (p.inferences != [] ==> p.inferences[|p.inferences| - 1].resets <= p.resets)
  }

  lemma SettledIsCurrent(c: Config, primary: nat, s: State, x: Input, i: nat, p: Past)
    requires ValidConfig(c) && ValidInput(s, x) && i < CAMERA_COUNT && PredictionIsCurrent(s.cameras[i], p)
    ensures PredictionIsCurrent(Settled(c, primary, s, x)[i], PastAfter(c, primary, s, x, i, p))
  {
    NamedPrediction(c, s, x, i);
    hide Named, Push, FrameIsFresh, RealtimeContiguous, DropoutIsBridgeable;
  }

  lemma NamedPrediction(c: Config, s: State, x: Input, i: nat)
    requires ValidInput(s, x) && i < CAMERA_COUNT
    ensures Named(c, s, x)[i].predictionValid == Intake(c, s, x)[i].predictionValid == s.cameras[i].predictionValid
    ensures Named(c, s, x)[i].predictionTime == Intake(c, s, x)[i].predictionTime == s.cameras[i].predictionTime
  {
  }

  lemma InferIsCurrent(cam: Camera, p: Past)
    ensures PredictionIsCurrent(Inferred(cam), p.(inferences := p.inferences + [Inference(cam.candidate, p.resets)]))
  {
  }

  lemma SameIsCurrent(cam: Camera, cam': Camera, p: Past)
    requires PredictionIsCurrent(cam, p)
    requires cam'.predictionValid == cam.predictionValid && cam'.predictionTime == cam.predictionTime
    ensures PredictionIsCurrent(cam', p)
  {
  }

  lemma StepIsCurrent(c: Config, t: Trace, x: Input, i: nat)
    requires ValidConfig(c) && ValidInput(t.state, x) && |t.pasts| == CAMERA_COUNT && i < CAMERA_COUNT
    requires PredictionIsCurrent(t.state.cameras[i], t.pasts[i])
    ensures var t' := TraceStep(c, t, x);
      |t'.state.cameras| == |t'.pasts| == CAMERA_COUNT && PredictionIsCurrent(t'.state.cameras[i], t'.pasts[i])
  {
    hide Intake, Named, Settled, RolesAfter, PastAfter, Chosen, ReadyFlags, PredictionIsCurrent, Inferred;
    NamedPrediction(c, t.state, x, i);
    var roles := RolesAfter(c, t.state, x);
    if Calibrating(c, Intake(c, t.state, x)) {
      SameIsCurrent(t.state.cameras[i], Intake(c, t.state, x)[i], t.pasts[i]);
    } else if roles.Unresolvable? {
      SameIsCurrent(t.state.cameras[i], Named(c, t.state, x)[i], t.pasts[i]);
    } else {
      SettledIsCurrent(c, roles.primary, t.state, x, i, t.pasts[i]);
      var cam := Settled(c, roles.primary, t.state, x)[i];
      InferIsCurrent(cam, PastAfter(c, roles.primary, t.state, x, i, t.pasts[i]));
    }
  }

  /** In every run a camera counts as predicted exactly from an inference of it until its next
      reset, and its prediction has the time of the inferred frame. */
  lemma {:induction false} PredictedUntilReset(c: Config, traces: seq<Trace>, inputs: seq<Input>, k: nat, i: nat)
    requires IsRun(c, traces, inputs) && k < |traces| && i < CAMERA_COUNT
    ensures |traces[k].state.cameras| == |traces[k].pasts| == CAMERA_COUNT
    ensures PredictionIsCurrent(traces[k].state.cameras[i], traces[k].pasts[i])
  {
    hide TraceStep, PredictionIsCurrent, ValidInput, TraceInv;
    RunShape(c, traces, inputs, k);
    if k == 0 {
      NothingPredicted(c, i);
    } else {
      PredictedUntilReset(c, traces, inputs, k - 1, i);
      StepIsCurrent(c, traces[k - 1], inputs[k - 1], i);
      assert traces[k - 1 + 1] == TraceStep(c, traces[k - 1], inputs[k - 1]);
    }
  }

  lemma NothingPredicted(c: Config, i: nat)
    requires i < CAMERA_COUNT
    ensures PredictionIsCurrent(InitialTrace(c).state.cameras[i], InitialTrace(c).pasts[i])
  {
  }

  // --------------------------------------------------------------------- empty poses

  /** The clock at the last empty pose of the first k turns. */
  function LastEmpty(c: Config, traces: seq<Trace>, inputs: seq<Input>, k: nat): Option<int>
    requires IsRun(c, traces, inputs) && k <= |inputs|
  {
    if k == 0 then None
    else if Step(c, traces[k - 1].state, inputs[k - 1]).1.EmptyPose? then Some(inputs[k - 1].now)
    else LastEmpty(c, traces, inputs, k - 1)
  }

  lemma EmptyMovesNext(c: Config, t: Trace, x: Input)
    requires ValidConfig(c) && ValidInput(t.state, x) && |t.pasts| == CAMERA_COUNT
    ensures TraceStep(c, t, x).state.nextInference ==
            if Step(c, t.state, x).1.EmptyPose? then x.now + c.minimumInterval else t.state.nextInference
  {
    hide Intake, Named, Settled, RolesAfter, Chosen, ReadyFlags, PastAfter;
  }

  lemma {:induction false} NextIsAfterLast(c: Config, traces: seq<Trace>, inputs: seq<Input>, k: nat)
    requires IsRun(c, traces, inputs) && k <= |inputs|
    ensures traces[k].state.nextInference ==
            match LastEmpty(c, traces, inputs, k) case None => 0 case Some(last) => last + c.minimumInterval
  {
    hide TraceStep, Step;
    if k == 0 {
      StartsAtZero(c);
    } else {
      NextIsAfterLast(c, traces, inputs, k - 1);
      EmptyMovesNext(c, traces[k - 1], inputs[k - 1]);
      assert traces[k - 1 + 1] == TraceStep(c, traces[k - 1], inputs[k - 1]);
    }
  }

  lemma StartsAtZero(c: Config)
    ensures InitialTrace(c).state.nextInference == 0
  {
  }

  /** In every run a turn that has nothing to infer from, because cameras still calibrate or none is
      ready, sends an empty pose exactly if the interval since the last one is over. */
  lemma EmptyPosesAreSpaced(c: Config, traces: seq<Trace>, inputs: seq<Input>, k: nat)
    requires IsRun(c, traces, inputs) && k < |inputs|
    requires var s, x := traces[k].state, inputs[k];
      || Calibrating(c, Intake(c, s, x))
      || (RolesAfter(c, s, x).Roles? &&
            forall i | 0 <= i < CAMERA_COUNT ::
              !IsReady(c, Settled(c, RolesAfter(c, s, x).primary, s, x)[i], x.freshnessNow))
    ensures Step(c, traces[k].state, inputs[k]).1.EmptyPose? <==>
            match LastEmpty(c, traces, inputs, k)
            case None => 0 <= inputs[k].now
            case Some(last) => last + c.minimumInterval <= inputs[k].now
  {
    NextIsAfterLast(c, traces, inputs, k);
    hide Intake, Named, Settled, RolesAfter, IsReady, TraceStep, Calibrating, LastEmpty;
  }

  // --------------------------------------------------------------------------- roles

  /** The turn in which the second of both cameras is known settles the roles, for good or ill. */
  lemma RolesSettleAtOnce(c: Config, s: State, x: Input)
    requires ValidConfig(c) && ValidInput(s, x) && !s.roles.resolved
    requires forall i | 0 <= i < CAMERA_COUNT ::
      s.cameras[i].serial != "" || (x.frames[i].Some? && x.serials[i] != "")
    requires c.calibrationFrames == 0 || forall i | 0 <= i < CAMERA_COUNT :: s.cameras[i].hasBackground
    ensures var serials := [if s.cameras[0].serial != "" then s.cameras[0].serial else x.serials[0],
                            if s.cameras[1].serial != "" then s.cameras[1].serial else x.serials[1]];
      RolesAfter(c, s, x) == match ResolvePrimary(c, serials) case None => Unresolvable case Some(p) => Roles(p, true)
  {
    hide ResolvePrimary;
  }

  /** A turn ends the worker with an error exactly if, after calibration, the two names it knows
      cannot be resolved. */
  lemma FaultIff(c: Config, s: State, x: Input)
    requires ValidConfig(c) && ValidInput(s, x)
    ensures Step(c, s, x).1.Fault? <==> Faults(c, s, x)
    ensures Step(c, s, x).1.Fault? ==> Step(c, s, x).0.roles.Unresolvable?
    ensures Step(c, s, x).1.Fault? ==> !s.roles.resolved
  {
    hide Intake, Named, Settled, Chosen, ReadyFlags;
  }

  /** A consumed frame names its camera. */
  lemma ConsumedFrameNames(c: Config, s: State, x: Input, i: nat)
    requires ValidConfig(c) && ValidInput(s, x) && i < CAMERA_COUNT && x.frames[i].Some?
    requires !LeavesFrame(c, s, x, i) && !Faults(c, s, x)
    ensures Step(c, s, x).0.cameras[i].serial == x.serials[i]
  {
    hide Intake, Settled, Calibrating, RolesAfter, Conclude, Named;
    if Calibrating(c, Intake(c, s, x)) {
      SampleNames(c, s, x, i);
    } else {
      var roles := RolesAfter(c, s, x);
      ProcessingNames(c, roles.primary, s, x, i);
      ConcludeShape(c, s.(cameras := Settled(c, roles.primary, s, x), roles := roles), x);
    }
  }

  lemma SampleNames(c: Config, s: State, x: Input, i: nat)
    requires ValidInput(s, x) && i < CAMERA_COUNT && x.frames[i].Some?
    ensures 0 < c.calibrationFrames && !s.cameras[i].hasBackground ==> Intake(c, s, x)[i].serial == x.serials[i]
    ensures Calibrating(c, Intake(c, s, x)) ==> 0 < c.calibrationFrames
  {
  }

  lemma ProcessingNames(c: Config, primary: nat, s: State, x: Input, i: nat)
    requires ValidInput(s, x) && i < CAMERA_COUNT && x.frames[i].Some?
    ensures Settled(c, primary, s, x)[i].serial == x.serials[i]
  {
    hide Named, Push;
  }
}
