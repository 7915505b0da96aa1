/** What is in a clip: over every run the samples measured since the camera's last reset, the newest
    of them; and when a clip fills up and is inferred. */
module WorkerClips {
  import opened Basics
  import opened Temporal
  import opened Worker
  import opened WorkerRuns

  /** What the inputs say about one camera: when its last frame arrived, when its last sample was
      accepted, and the frames measured since its last reset. */
  datatype Log = Log(arrived: int, sampled: int, recent: seq<Frame>)

  /** The frames still belong together after one more frame. */
  predicate Joins(previous: Frame, frame: Frame) {
    || previous.sequence == 0 || frame.sequence == previous.sequence
    || (previous.sequence < frame.sequence && 0 < frame.time - previous.time <= 125_000_000)
  }

  /** The frames measured since the last reset, after a processed frame. */
  function Measured(c: Config, log: Log, previous: Frame, frame: Frame, measured: bool, now: int): seq<Frame> {
    var kept := if Joins(previous, frame) then log.recent else [];
    if measured then kept + [frame]
    else if 0 < log.sampled && 0 < c.holdMs && 0 <= now - log.sampled <= c.holdMs * 1_000_000 then kept
    else []
  }

  /** The frame that was taken last, when the frame of this turn is processed. */
  function Previous(c: Config, s: State, x: Input, i: nat): Frame
    requires ValidInput(s, x) && i < CAMERA_COUNT && x.frames[i].Some?
  {
    if c.calibrationFrames == 0 || s.cameras[i].hasBackground then s.cameras[i].source else x.frames[i].value
  }

  function LogAfter(c: Config, s: State, x: Input, i: nat, log: Log): Log
    requires ValidConfig(c) && ValidInput(s, x) && i < CAMERA_COUNT
  {
    var arrived := if x.frames[i].Some? then x.inputNow else log.arrived;
    var roles := RolesAfter(c, s, x);
    if Calibrating(c, Intake(c, s, x)) || roles.Unresolvable? then log.(arrived := arrived)
    else
      var seen := x.frames[i].Some? && (c.mode.Calibrated? || i == roles.primary);
      var recent :=
        if seen then Measured(c, log, Previous(c, s, x, i), x.frames[i].value, x.measured[i], x.isolationNow)
        else log.recent;
      var current := 0 < arrived && 0 <= x.freshnessNow - arrived <= 150_000_000;
      Log(arrived, if seen && x.measured[i] then x.candidateNow[i] else log.sampled,
          if current then recent else [])
  }

  /** The log of camera i after the first k turns. */
  function LogAt(c: Config, traces: seq<Trace>, inputs: seq<Input>, k: nat, i: nat): Log
    requires IsRun(c, traces, inputs) && k < |traces| && i < CAMERA_COUNT
  {
    if k == 0 then Log(0, 0, []) else LogAfter(c, traces[k - 1].state, inputs[k - 1], i, LogAt(c, traces, inputs, k - 1, i))
  }

  function Newest(frames: seq<Frame>, n: nat): seq<Frame> {
    if |frames| <= n then frames else frames[|frames| - n..]
  }

  ghost predicate Agrees(c: Config, cam: Camera, log: Log) {
    && cam.history == Newest(log.recent, c.clip)
    && (cam.valid <==> log.recent != [])
    && cam.lastFrame == log.arrived
    && (log.recent != [] ==> cam.lastCandidate == log.sampled)
    && cam.predictionSequence <= cam.source.sequence
  }

  lemma PushIsNewest(frames: seq<Frame>, frame: Frame, n: nat)
    requires 0 < n
    ensures Push(Newest(frames, n), frame, n) == Newest(frames + [frame], n)
  {
  }

  lemma ObserveAgrees(c: Config, cam: Camera, log: Log, frame: Frame, measured: bool, isolationNow: int, candidateNow: int)
    requires ValidConfig(c) && Agrees(c, cam, log) && cam.source.sequence <= frame.sequence
    ensures Agrees(c, Observe(c, cam, frame, measured, isolationNow, candidateNow),
                   Log(log.arrived, if measured then candidateNow else log.sampled,
                       Measured(c, log, cam.source, frame, measured, isolationNow)))
  {
    hide Push;
    var kept := if Joins(cam.source, frame) then log.recent else [];
    PushIsNewest(kept, frame, c.clip);
  }

  lemma StaleAgrees(c: Config, cam: Camera, log: Log, now: int)
    requires Agrees(c, cam, log)
    ensures Agrees(c, DropStale(cam, now),
                   log.(recent := if 0 < log.arrived && 0 <= now - log.arrived <= 150_000_000 then log.recent else []))
  {
  }

  lemma NamedAgrees(c: Config, s: State, x: Input, i: nat, log: Log)
    requires ValidConfig(c) && ValidInput(s, x) && i < CAMERA_COUNT && Agrees(c, s.cameras[i], log)
    ensures var arrived := if x.frames[i].Some? then x.inputNow else log.arrived;
      && Agrees(c, Intake(c, s, x)[i], log.(arrived := arrived))
      && Agrees(c, Named(c, s, x)[i], log.(arrived := arrived))
    ensures x.frames[i].Some? ==> Named(c, s, x)[i].source == Previous(c, s, x, i)
  {
  }

  lemma SettledAgrees(c: Config, primary: nat, s: State, x: Input, i: nat, log: Log)
    requires ValidConfig(c) && ValidInput(s, x) && i < CAMERA_COUNT && Agrees(c, s.cameras[i], log)
    requires !Calibrating(c, Intake(c, s, x)) && RolesAfter(c, s, x).Roles? && RolesAfter(c, s, x).primary == primary
    ensures Agrees(c, Settled(c, primary, s, x)[i], LogAfter(c, s, x, i, log))
  {
    hide Agrees, Intake, Named, RolesAfter, Observe, DropStale, Measured;
    NamedAgrees(c, s, x, i, log);
    var arrived := if x.frames[i].Some? then x.inputNow else log.arrived;
    var cam, now := Named(c, s, x)[i], log.(arrived := arrived);
    var seen := x.frames[i].Some? && Processing(c, primary, i);
    var middle := Log(arrived, if seen && x.measured[i] then x.candidateNow[i] else log.sampled,
        if seen then Measured(c, log, Previous(c, s, x, i), x.frames[i].value, x.measured[i], x.isolationNow)
        else log.recent);
    if x.frames[i].Some? {
      var frame := x.frames[i].value;
      SerialAgrees(c, cam, now, x.serials[i]);
      if seen {
        MeasuredIgnoresArrival(c, log, now, cam.source, frame, x.measured[i], x.isolationNow);
        ObserveAgrees(c, cam.(serial := x.serials[i]), now, frame, x.measured[i], x.isolationNow, x.candidateNow[i]);
      } else {
        SourceAgrees(c, cam.(serial := x.serials[i]), now, frame);
      }
    }
    StaleAgrees(c, Processed(c, primary, cam, x, i), middle, x.freshnessNow);
  }

  lemma MeasuredIgnoresArrival(c: Config, a: Log, b: Log, previous: Frame, frame: Frame, measured: bool, now: int)
    requires a.recent == b.recent && a.sampled == b.sampled
    ensures Measured(c, a, previous, frame, measured, now) == Measured(c, b, previous, frame, measured, now)
  {
  }

  lemma SerialAgrees(c: Config, cam: Camera, log: Log, serial: string)
    ensures Agrees(c, cam, log) ==> Agrees(c, cam.(serial := serial), log)
  {
  }

  lemma SourceAgrees(c: Config, cam: Camera, log: Log, frame: Frame)
    requires Agrees(c, cam, log) && cam.source.sequence <= frame.sequence
    ensures Agrees(c, cam.(source := frame), log)
  {
  }

  lemma ConcludeAgrees(c: Config, s: State, x: Input, i: nat, log: Log)
    requires ValidConfig(c) && |s.cameras| == CAMERA_COUNT && RolesOk(s) && i < CAMERA_COUNT
    requires Agrees(c, s.cameras[i], log)
    ensures Agrees(c, Conclude(c, s, x).0.cameras[i], log)
  {
    hide Chosen, ReadyFlags;
  }

  lemma StepAgrees(c: Config, s: State, x: Input, i: nat, log: Log)
    requires ValidConfig(c) && ValidInput(s, x) && i < CAMERA_COUNT && Agrees(c, s.cameras[i], log)
    ensures Agrees(c, Step(c, s, x).0.cameras[i], LogAfter(c, s, x, i, log))
  {
    hide Agrees, Intake, Named, RolesAfter, Settled, Conclude, Calibrating;
    NamedAgrees(c, s, x, i, log);
    var roles := RolesAfter(c, s, x);
    if !Calibrating(c, Intake(c, s, x)) && roles.Roles? {
      SettledAgrees(c, roles.primary, s, x, i, log);
      ConcludeAgrees(c, s.(cameras := Settled(c, roles.primary, s, x), roles := roles), x, i, LogAfter(c, s, x, i, log));
    }
  }

  lemma {:induction false} LogHolds(c: Config, traces: seq<Trace>, inputs: seq<Input>, k: nat, i: nat)
    requires IsRun(c, traces, inputs) && k < |traces| && i < CAMERA_COUNT
    ensures |traces[k].state.cameras| == CAMERA_COUNT
    ensures Agrees(c, traces[k].state.cameras[i], LogAt(c, traces, inputs, k, i))
  {
    hide Agrees, LogAfter, TraceInv, Step, TraceStep, ValidInput;
    RunShape(c, traces, inputs, k);
    if k == 0 {
      StartAgrees(c, i);
    } else {
      LogHolds(c, traces, inputs, k - 1, i);
      StepAgrees(c, traces[k - 1].state, inputs[k - 1], i, LogAt(c, traces, inputs, k - 1, i));
      TraceState(c, traces[k - 1], inputs[k - 1]);
      assert traces[k - 1 + 1] == TraceStep(c, traces[k - 1], inputs[k - 1]);
    }
  }

  lemma StartAgrees(c: Config, i: nat)
    requires i < CAMERA_COUNT
    ensures Agrees(c, InitialTrace(c).state.cameras[i], Log(0, 0, []))
  {
  }

  lemma TraceState(c: Config, t: Trace, x: Input)
    requires ValidConfig(c) && ValidInput(t.state, x) && |t.pasts| == CAMERA_COUNT
    ensures TraceStep(c, t, x).state == Step(c, t.state, x).0
  {
    hide Step, Intake, RolesAfter, Settled, PastAfter;
  }

  /** In every run the clip of every camera holds the newest of the frames measured since its last
      reset, as many as the model takes. */
  lemma ClipIsNewestMeasured(c: Config, traces: seq<Trace>, inputs: seq<Input>, k: nat, i: nat)
    requires IsRun(c, traces, inputs) && k < |traces| && i < CAMERA_COUNT
    ensures |traces[k].state.cameras| == CAMERA_COUNT
    ensures var history, recent := traces[k].state.cameras[i].history, LogAt(c, traces, inputs, k, i).recent;
      && |history| == Min(c.clip, |recent|)
      && history == recent[|recent| - |history|..]
  {
    LogHolds(c, traces, inputs, k, i);
  }

  // ------------------------------------------------------------ a clip fills up

  /** In turn u camera i, which is processed, gets a frame that shows somebody, and the turn is over
      before the frame is stale. */
  predicate Shows(c: Config, s: State, x: Input, i: nat)
    requires ValidConfig(c) && ValidInput(s, x) && i < CAMERA_COUNT
  {
    && !Calibrating(c, Intake(c, s, x)) && RolesAfter(c, s, x).Roles?
    && (c.mode.Calibrated? || i == RolesAfter(c, s, x).primary)
    && x.frames[i].Some? && x.measured[i]
    && 0 < x.inputNow && 0 <= x.freshnessNow - x.inputNow <= 150_000_000
  }

  /** Camera i shows somebody in n turns from turn k on, at most 125 ms apart. */
  ghost predicate ShowsFor(c: Config, traces: seq<Trace>, inputs: seq<Input>, k: nat, n: nat, i: nat)
    requires IsRun(c, traces, inputs) && k + n <= |inputs| && i < CAMERA_COUNT
  {
    && (forall u | k <= u < k + n :: Shows(c, traces[u].state, inputs[u], i))
    && forall u | k < u < k + n ::
         0 < inputs[u].frames[i].value.time - inputs[u - 1].frames[i].value.time <= 125_000_000
  }

  function FramesOf(inputs: seq<Input>, k: nat, n: nat, i: nat): (r: seq<Frame>)
    requires k + n <= |inputs|
    requires forall u | k <= u < k + n :: i < |inputs[u].frames| && inputs[u].frames[i].Some?
    ensures |r| == n
  {
    seq(n, j requires 0 <= j < n => inputs[k + j].frames[i].value)
  }

  ghost predicate EndsWith(frames: seq<Frame>, tail: seq<Frame>) {
    |tail| <= |frames| && frames[|frames| - |tail|..] == tail
  }

  lemma ShownFrame(c: Config, s: State, x: Input, i: nat, log: Log)
    requires ValidConfig(c) && ValidInput(s, x) && i < CAMERA_COUNT && Shows(c, s, x, i)
    ensures var next := LogAfter(c, s, x, i, log);
      && next.arrived == x.inputNow
      && next.recent == (if Joins(Previous(c, s, x, i), x.frames[i].value) then log.recent else []) + [x.frames[i].value]
  {
    hide Intake, RolesAfter, Calibrating;
  }

  lemma ShownSource(c: Config, s: State, x: Input, i: nat)
    requires ValidConfig(c) && ValidInput(s, x) && i < CAMERA_COUNT && Shows(c, s, x, i)
    ensures Step(c, s, x).0.cameras[i].source == x.frames[i].value
  {
    FrameIsConsumedIff(c, s, x, i);
    hide Step, Intake, RolesAfter, Calibrating;
  }

  lemma EndsWithMore(frames: seq<Frame>, tail: seq<Frame>, frame: Frame)
    requires EndsWith(frames, tail)
    ensures EndsWith(frames + [frame], tail + [frame])
  {
  }

  lemma EndsWithNothing(frames: seq<Frame>)
    ensures EndsWith(frames, [])
  {
  }

  lemma ShowsAt(c: Config, traces: seq<Trace>, inputs: seq<Input>, k: nat, n: nat, i: nat, u: nat)
    requires IsRun(c, traces, inputs) && k + n <= |inputs| && i < CAMERA_COUNT && ShowsFor(c, traces, inputs, k, n, i)
    requires k <= u < k + n
    ensures Shows(c, traces[u].state, inputs[u], i)
    ensures i < |inputs[u].frames| && inputs[u].frames[i].Some?
  {
    hide TraceStep;
    assert Shows(c, traces[u].state, inputs[u], i);
  }

  lemma ShowsLess(c: Config, traces: seq<Trace>, inputs: seq<Input>, k: nat, n: nat, i: nat)
    requires IsRun(c, traces, inputs) && 0 < n && k + n <= |inputs| && i < CAMERA_COUNT
    requires ShowsFor(c, traces, inputs, k, n, i)
    ensures ShowsFor(c, traces, inputs, k, n - 1, i)
    ensures forall u | k <= u < k + n :: i < |inputs[u].frames| && inputs[u].frames[i].Some?
    ensures FramesOf(inputs, k, n, i) == FramesOf(inputs, k, n - 1, i) + [inputs[k + n - 1].frames[i].value]
  {
    hide TraceStep, Shows;
    forall u | k <= u < k + n
      ensures i < |inputs[u].frames| && inputs[u].frames[i].Some?
    {
      ShowsAt(c, traces, inputs, k, n, i, u);
    }
  }

  lemma LastJoins(c: Config, traces: seq<Trace>, inputs: seq<Input>, k: nat, n: nat, i: nat)
    requires IsRun(c, traces, inputs) && 1 < n && k + n <= |inputs| && i < CAMERA_COUNT
    requires ShowsFor(c, traces, inputs, k, n, i)
    ensures var u := k + n - 1;
      Shows(c, traces[u].state, inputs[u], i) && Joins(Previous(c, traces[u].state, inputs[u], i), inputs[u].frames[i].value)
  {
    hide TraceStep, Joins, Previous, Shows;
    ShowsAt(c, traces, inputs, k, n, i, k + n - 1);
    ShowsAt(c, traces, inputs, k, n, i, k + n - 2);
    ShownJoins(c, traces, inputs, k + n - 1, i);
  }

  /** The frames shown are the last ones of the log. */
  lemma {:induction false} ShownAreRecent(c: Config, traces: seq<Trace>, inputs: seq<Input>, k: nat, n: nat, i: nat)
    requires IsRun(c, traces, inputs) && k + n <= |inputs| && i < CAMERA_COUNT && ShowsFor(c, traces, inputs, k, n, i)
    ensures forall u | k <= u < k + n :: i < |inputs[u].frames| && inputs[u].frames[i].Some?
    ensures EndsWith(LogAt(c, traces, inputs, k + n, i).recent, FramesOf(inputs, k, n, i))
  {
    hide LogAt, LogAfter, TraceStep, ValidInput, ShowsFor, EndsWith, FramesOf, Joins, Previous, Shows;
    if n == 0 {
      assert FramesOf(inputs, k, n, i) == [] by { NoFrames(inputs, k, i); }
      EndsWithNothing(LogAt(c, traces, inputs, k + n, i).recent);
    } else {
      var u := k + n - 1;
      ShowsLess(c, traces, inputs, k, n, i);
      ShowsAt(c, traces, inputs, k, n, i, u);
      ShownAreRecent(c, traces, inputs, k, n - 1, i);
      var s, x, log := traces[u].state, inputs[u], LogAt(c, traces, inputs, u, i);
      LogStep(c, traces, inputs, u, i);
      ShownFrame(c, s, x, i, log);
      var kept := if Joins(Previous(c, s, x, i), x.frames[i].value) then log.recent else [];
      if n == 1 {
        NoFrames(inputs, k, i);
        EndsWithNothing(kept);
      } else {
        LastJoins(c, traces, inputs, k, n, i);
      }
      EndsWithMore(kept, FramesOf(inputs, k, n - 1, i), x.frames[i].value);
    }
  }

  lemma NoFrames(inputs: seq<Input>, k: nat, i: nat)
    requires k <= |inputs|
    ensures FramesOf(inputs, k, 0, i) == []
  {
  }

  lemma ShownJoins(c: Config, traces: seq<Trace>, inputs: seq<Input>, u: nat, i: nat)
    requires IsRun(c, traces, inputs) && 0 < u < |inputs| && i < CAMERA_COUNT
    requires Shows(c, traces[u - 1].state, inputs[u - 1], i) && Shows(c, traces[u].state, inputs[u], i)
    requires 0 < inputs[u].frames[i].value.time - inputs[u - 1].frames[i].value.time <= 125_000_000
    ensures Joins(Previous(c, traces[u].state, inputs[u], i), inputs[u].frames[i].value)
  {
    ShownSource(c, traces[u - 1].state, inputs[u - 1], i);
    assert traces[u - 1 + 1] == TraceStep(c, traces[u - 1], inputs[u - 1]);
    hide Step, Shows;
    assert traces[u].state.cameras[i].source == inputs[u - 1].frames[i].value;
  }

  /** A frame is due for inference by its source time. */
  predicate IsDue(c: Config, cam: Camera, frame: Frame) {
    && 0 < frame.time
    && (cam.predictionTime <= 0 || LeastDistance(c.minimumInterval) <= frame.time - cam.predictionTime)
  }

  lemma GapIsDistance(interval: nat)
    ensures MinimumGap(interval) == LeastDistance(interval)
  {
  }

  lemma ShownIsCandidate(c: Config, primary: nat, s: State, x: Input, i: nat)
    requires ValidConfig(c) && ValidInput(s, x) && i < CAMERA_COUNT && Shows(c, s, x, i)
    requires primary == RolesAfter(c, s, x).primary
    ensures var cam := Settled(c, primary, s, x)[i];
      && cam.candidate == cam.source == x.frames[i].value && cam.valid && cam.lastFrame == x.inputNow
      && cam.predictionSequence == s.cameras[i].predictionSequence
      && cam.predictionTime in {0, s.cameras[i].predictionTime}
  {
    hide RolesAfter, Push;
  }

  /** When a camera has shown somebody for a whole clip, the clip is these frames, and the turn that
      sees the last of them has it ready for inference if that frame is due. */
  lemma ShownClipIsReady(c: Config, traces: seq<Trace>, inputs: seq<Input>, k: nat, i: nat)
    requires IsRun(c, traces, inputs) && k + c.clip <= |inputs| && i < CAMERA_COUNT
    requires ShowsFor(c, traces, inputs, k, c.clip, i)
    ensures var u := k + c.clip - 1;
      && ValidInput(traces[u].state, inputs[u]) && RolesAfter(c, traces[u].state, inputs[u]).Roles?
      && var s, x := traces[u].state, inputs[u];
         var cam := Settled(c, RolesAfter(c, s, x).primary, s, x)[i];
         && cam.history == FramesOf(inputs, k, c.clip, i)
         && IsReady(c, cam, x.freshnessNow)
         && (IsDue(c, s.cameras[i], x.frames[i].value) ==> HasDueClip(c, cam, x.freshnessNow))
  {
    hide LogAfter, Settled, RolesAfter, Intake, TraceStep, Calibrating, LogAt, ShowsFor, EndsWith, FramesOf, IsDue,
         IsReady, HasDueClip, Shows, Agrees;
    var u := k + c.clip - 1;
    var s, x := traces[u].state, inputs[u];
    var log := LogAt(c, traces, inputs, u, i);
    ShowsAt(c, traces, inputs, k, c.clip, i, u);
    ShownRoles(c, s, x, i);
    LogHolds(c, traces, inputs, u, i);
    FrameIsNewer(c, s, x, i, log);
    LogStep(c, traces, inputs, u, i);
    ShownAreRecent(c, traces, inputs, k, c.clip, i);
    var primary := RolesAfter(c, s, x).primary;
    SettledAgrees(c, primary, s, x, i, log);
    FullClip(c, primary, s, x, i, LogAfter(c, s, x, i, log), FramesOf(inputs, k, c.clip, i));
  }

  lemma ShownRoles(c: Config, s: State, x: Input, i: nat)
    requires ValidConfig(c) && ValidInput(s, x) && i < CAMERA_COUNT && Shows(c, s, x, i)
    ensures RolesAfter(c, s, x).Roles? && !Calibrating(c, Intake(c, s, x)) && x.frames[i].Some?
  {
  }

  lemma FrameIsNewer(c: Config, s: State, x: Input, i: nat, log: Log)
    requires ValidConfig(c) && ValidInput(s, x) && i < CAMERA_COUNT && Agrees(c, s.cameras[i], log)
    ensures x.frames[i].Some? ==> s.cameras[i].predictionSequence < x.frames[i].value.sequence
  {
  }

  lemma FullClip(c: Config, primary: nat, s: State, x: Input, i: nat, log: Log, frames: seq<Frame>)
    requires ValidConfig(c) && ValidInput(s, x) && i < CAMERA_COUNT && Shows(c, s, x, i)
    requires primary == RolesAfter(c, s, x).primary && Agrees(c, Settled(c, primary, s, x)[i], log)
    requires |frames| == c.clip && EndsWith(log.recent, frames)
    requires s.cameras[i].predictionSequence < x.frames[i].value.sequence
    ensures var cam := Settled(c, primary, s, x)[i];
      && cam.history == frames && IsReady(c, cam, x.freshnessNow)
      && (IsDue(c, s.cameras[i], x.frames[i].value) ==> HasDueClip(c, cam, x.freshnessNow))
  {
    hide Settled, RolesAfter, Intake, Calibrating;
    ShownIsCandidate(c, primary, s, x, i);
    GapIsDistance(c.minimumInterval);
  }

  lemma LogStep(c: Config, traces: seq<Trace>, inputs: seq<Input>, u: nat, i: nat)
    requires IsRun(c, traces, inputs) && u < |inputs| && i < CAMERA_COUNT
    ensures LogAt(c, traces, inputs, u + 1, i) ==
            LogAfter(c, traces[u].state, inputs[u], i, LogAt(c, traces, inputs, u, i))
  {
  }

  lemma ShownIsProcessed(c: Config, s: State, x: Input, i: nat)
    requires ValidConfig(c) && ValidInput(s, x) && i < CAMERA_COUNT && Shows(c, s, x, i)
    ensures RolesAfter(c, s, x).Roles? && !Calibrating(c, Intake(c, s, x)) && x.frames[i].Some?
    ensures c.mode.Primary? ==> i == RolesAfter(c, s, x).primary
  {
    hide RolesAfter;
  }

  /** ... In primary mode that turn infers it. */
  lemma ShownClipIsInferred(c: Config, traces: seq<Trace>, inputs: seq<Input>, k: nat, i: nat)
    requires IsRun(c, traces, inputs) && k + c.clip <= |inputs| && i < CAMERA_COUNT && c.mode.Primary?
    requires ShowsFor(c, traces, inputs, k, c.clip, i)
    ensures var u := k + c.clip - 1;
      var s, x := traces[u].state, inputs[u];
      && ValidInput(s, x) && x.frames[i].Some?
      && (IsDue(c, s.cameras[i], x.frames[i].value) ==> Step(c, s, x).1 == Pose(s.generation + 1, i))
  {
    hide Settled, RolesAfter, Step, Intake, HasDueClip, IsDue, IsReady, ShowsFor, Shows, TraceStep, FramesOf;
    var u := k + c.clip - 1;
    ShowsAt(c, traces, inputs, k, c.clip, i, u);
    ShownIsProcessed(c, traces[u].state, inputs[u], i);
    ShownClipIsReady(c, traces, inputs, k, i);
    DueClipIsInferred(c, traces[u].state, inputs[u]);
  }

  /** ... In calibrated mode, when both cameras have shown somebody for a whole clip, it infers the
      clip of one of them. */
  lemma ShownClipsAreInferred(c: Config, traces: seq<Trace>, inputs: seq<Input>, k: nat)
    requires IsRun(c, traces, inputs) && k + c.clip <= |inputs|
    requires ShowsFor(c, traces, inputs, k, c.clip, 0) && ShowsFor(c, traces, inputs, k, c.clip, 1)
    ensures var u := k + c.clip - 1;
      var s, x := traces[u].state, inputs[u];
      && ValidInput(s, x) && x.frames[0].Some? && x.frames[1].Some?
      && (IsDue(c, s.cameras[0], x.frames[0].value) && IsDue(c, s.cameras[1], x.frames[1].value) ==>
            Step(c, s, x).1.Pose?)
  {
    hide Settled, RolesAfter, Step, Intake, HasDueClip, IsDue, IsReady, ShowsFor, Shows, TraceStep, FramesOf;
    var u := k + c.clip - 1;
    ShowsAt(c, traces, inputs, k, c.clip, 0, u);
    ShowsAt(c, traces, inputs, k, c.clip, 1, u);
    ShownIsProcessed(c, traces[u].state, inputs[u], 0);
    ShownIsProcessed(c, traces[u].state, inputs[u], 1);
    ShownClipIsReady(c, traces, inputs, k, 0);
    ShownClipIsReady(c, traces, inputs, k, 1);
    DueClipIsInferred(c, traces[u].state, inputs[u]);
  }
}
