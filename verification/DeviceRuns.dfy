/** A camera over whole runs: starts that fail anywhere, polls, errors, stalls, reconnects,
    and readers that look in at any moment. */
module DeviceRuns {
  import opened DeviceStreams

  /** cleaning: between switching active off and the end of the clean-up.  broken: the last
      start ended with an error and a pipeline.  captured: all frames ever published.
      invalidations and capturedAfter date the published frame. */
  datatype State = State(world: World, cleaning: bool, broken: bool, lost: set<nat>,
                         captured: seq<seq<nat>>, invalidations: nat, capturedAfter: nat,
                         readers: seq<Reader>)

  datatype Reader = Reader(cursor: nat, got: seq<Packet>)

  datatype Step =
    | Start(script: Script)
    | Capture(frame: seq<nat>)
    | Deactivate              // a failed poll, a stall, or closing
    | CleanUp                 // the rest of cleanup_device
    | Look(reader: nat)       // get_depth_frame

  ghost predicate Initial(s: State) {
    && s.world == World(Driver(0, {}, multiset{}), NO_HANDLES, false, false, [], 0)
    && !s.cleaning && !s.broken && s.lost == {} && s.captured == []
    && forall r | 0 <= r < |s.readers| :: s.readers[r] == Reader(0, [])
  }

  ghost predicate Next(o: Options, s: State, x: Step, s': State) {
    match x
    case Start(script) =>
      && !s.cleaning && !s.world.active
      && StartedAs(o, script, s.lost, s.world, s'.world, s'.world.active)
      && s' == s.(world := s'.world, broken := script.pipeline.Broken?, lost := LostBy(s.lost, s.world))
    case Capture(frame) =>
      && s.world.active && frame != []
      && s' == s.(world := s.world.(depth := frame, have := true, sequence := s.world.sequence + 1),
                  captured := s.captured + [frame], capturedAfter := s.invalidations)
    case Deactivate =>
      && s.world.active
      && s' == s.(world := s.world.(active := false), cleaning := true,
                  invalidations := s.invalidations + 1)
    case CleanUp =>
      && !s.world.active
      && s' == s.(world := CleanedUp(s.world), cleaning := false, broken := false)
    case Look(r) =>
      && r < |s.readers|
      && var p := Read(s.world, s.readers[r].cursor);
         s' == if p.NoPacket? then s
               else s.(readers := s.readers[r := Reader(p.sequence, s.readers[r].got + [p])])
  }

  /** active means everything is held; inactive and tidied up means nothing is, except the
      pipeline of a start that ended with an error and a pipeline. */
  ghost predicate HandlesOk(o: Options, s: State) {
    && Accounted(s.world, s.lost)
    && (s.world.active ==> !s.cleaning && Full(o, s.world.handles))
    && (!s.world.active && !s.cleaning ==>
          && s.world.handles == NO_HANDLES.(pipeline := s.world.handles.pipeline)
          && (s.world.handles.pipeline.Handle? <==> s.broken))
  }

  /** What can be read was captured last, and after the last invalidation. */
  ghost predicate FrameOk(s: State) {
    && s.world.sequence == |s.captured|
    && (!s.world.active && !s.cleaning ==> !s.world.have)
    && (s.world.active && s.world.have ==>
          s.captured != [] && s.world.depth == s.captured[|s.captured| - 1] &&
          s.capturedAfter == s.invalidations)
  }

  ghost predicate ReaderOk(r: Reader, captured: seq<seq<nat>>) {
    && r.cursor <= |captured|
    && (forall k | 0 <= k < |r.got| ::
         r.got[k].Packet? && 1 <= r.got[k].sequence <= r.cursor &&
         r.got[k].depth == captured[r.got[k].sequence - 1])
    && forall j, k | 0 <= j < k < |r.got| :: r.got[j].sequence < r.got[k].sequence
  }

  ghost predicate Inv(o: Options, s: State) {
    && HandlesOk(o, s) && FrameOk(s)
    && forall r | 0 <= r < |s.readers| :: ReaderOk(s.readers[r], s.captured)
  }

  lemma InitialInv(o: Options, s: State)
    requires Initial(s)
    ensures Inv(o, s)
  {
    forall id: nat
      ensures AccountOf(s.world, s.lost, id)
    {
    }
  }

  lemma HandlesStep(o: Options, s: State, x: Step, s': State)
    requires HandlesOk(o, s) && Next(o, s, x, s')
    ensures HandlesOk(o, s')
  {
    hide Accounted;
    match x
    case Start(_) =>
    case Capture(_) => AccountsIgnoreFlags(s.world, s'.world, s.lost);
    case Deactivate => AccountsIgnoreFlags(s.world, s'.world, s.lost);
    case CleanUp => CleanUpAccounts(s.world, s.lost);
    case Look(_) =>
  }

  lemma FrameStep(o: Options, s: State, x: Step, s': State)
    requires HandlesOk(o, s) && FrameOk(s) && Next(o, s, x, s')
    ensures FrameOk(s')
  {
    hide Accounted;
  }

  lemma ReaderStep(o: Options, s: State, x: Step, s': State, r: nat)
    requires Inv(o, s) && Next(o, s, x, s') && r < |s'.readers|
    ensures r < |s.readers| && ReaderOk(s'.readers[r], s'.captured)
  {
    hide Accounted, HandlesOk;
    assert ReaderOk(s.readers[r], s.captured);
  }

  lemma StepKeepsInv(o: Options, s: State, x: Step, s': State)
    requires Inv(o, s) && Next(o, s, x, s')
    ensures Inv(o, s') && |s'.readers| == |s.readers|
  {
    hide HandlesOk, FrameOk, ReaderOk, StartedAs;
    HandlesStep(o, s, x, s');
    FrameStep(o, s, x, s');
    forall r | 0 <= r < |s'.readers|
      ensures ReaderOk(s'.readers[r], s'.captured)
    {
      ReaderStep(o, s, x, s', r);
    }
  }

  datatype Run = Run(states: seq<State>, steps: seq<Step>)

  ghost predicate IsRun(o: Options, run: Run) {
    && |run.states| == |run.steps| + 1
    && Initial(run.states[0])
    && forall i | 0 <= i < |run.steps| :: Next(o, run.states[i], run.steps[i], run.states[i + 1])
  }

  lemma {:induction false} RunInv(o: Options, run: Run, t: nat)
    requires IsRun(o, run) && t < |run.states|
    ensures Inv(o, run.states[t])
  {
    hide Inv, Next, Initial;
    if t == 0 {
      InitialInv(o, run.states[0]);
    } else {
      RunInv(o, run, t - 1);
      StepKeepsInv(o, run.states[t - 1], run.steps[t - 1], run.states[t]);
    }
  }

  // ------------------------------------------------------------------ main results

  /** Over every run: active streams hold the full set of handles, inactive ones none, but for
      the pipeline that came with an error. */
  lemma ActiveMeansFullInactiveMeansNone(o: Options, run: Run, t: nat)
    requires IsRun(o, run) && t < |run.states|
    ensures var s := run.states[t];
      && (s.world.active ==> Full(o, s.world.handles))
      && (!s.world.active && !s.cleaning ==> (s.world.handles == NO_HANDLES <==> !s.broken))
  {
    RunInv(o, run, t);
  }

  /** After any clean-up every handle ever issued was deleted exactly once, except the lost
      ones, which never are. */
  lemma EveryHandleIsDeletedOnce(o: Options, run: Run, t: nat, id: nat)
    requires IsRun(o, run) && t < |run.steps| && run.steps[t].CleanUp?
    requires id < run.states[t + 1].world.driver.next
    ensures var s := run.states[t + 1];
      s.world.driver.deleted[id] == if id in s.lost then 0 else 1
  {
    hide Inv;
    RunInv(o, run, t + 1);
    AccountAfterCleanUp(o, run.states[t], run.states[t + 1], id);
  }

  lemma AccountAfterCleanUp(o: Options, s: State, s': State, id: nat)
    requires Inv(o, s') && Next(o, s, CleanUp, s') && id < s'.world.driver.next
    ensures s'.world.driver.deleted[id] == if id in s'.lost then 0 else 1
  {
    assert AccountOf(s'.world, s'.lost, id);
    NothingHeld(id);
  }

  /** A handle is lost exactly when a stream is started again although its last start ended
      with an error and a pipeline. */
  lemma LossIffRestartAfterBrokenPipeline(o: Options, run: Run, t: nat)
    requires IsRun(o, run) && t < |run.steps|
    ensures run.states[t].lost <= run.states[t + 1].lost
    ensures run.states[t + 1].lost != run.states[t].lost <==>
            run.steps[t].Start? && run.states[t].broken
  {
    RunInv(o, run, t);
    var s := run.states[t];
    assert Next(o, s, run.steps[t], run.states[t + 1]);
    hide Accounted;
    if run.steps[t].Start? && s.broken {
      HeldIsNotLost(s.world, s.lost);
    }
  }

  lemma HeldIsNotLost(w: World, lost: set<nat>)
    requires Accounted(w, lost) && w.handles.pipeline.Handle?
    ensures w.handles.pipeline.id !in lost
  {
    assert AccountOf(w, lost, w.handles.pipeline.id);
  }

  /** With a driver that never answers with both, nothing is ever lost. */
  lemma {:induction false} NothingIsLost(o: Options, run: Run, t: nat)
    requires IsRun(o, run) && t < |run.states|
    requires forall i | 0 <= i < t && run.steps[i].Start? :: !run.steps[i].script.pipeline.Broken?
    ensures run.states[t].lost == {} && !run.states[t].broken
  {
    if t > 0 {
      NothingIsLost(o, run, t - 1);
      LossIffRestartAfterBrokenPipeline(o, run, t - 1);
      assert Next(o, run.states[t - 1], run.steps[t - 1], run.states[t]);
    }
  }

  /** Nobody reads a packet from before an invalidation, and a packet with number n is the
      n-th frame ever captured, across all reconnects. */
  lemma ReadersSeeOnlyCurrentFrames(o: Options, run: Run, t: nat)
    requires IsRun(o, run) && t < |run.steps| && run.steps[t].Look?
    requires run.steps[t].reader < |run.states[t].readers|
    ensures var s, r := run.states[t], run.steps[t].reader;
            var p := Read(s.world, s.readers[r].cursor);
            p.Packet? ==>
              && s.capturedAfter == s.invalidations
              && s.readers[r].cursor < p.sequence == |s.captured|
              && p.depth == s.captured[p.sequence - 1]
  {
    RunInv(o, run, t);
  }

  /** What one reader got over the whole run: frames of this camera by their capture numbers,
      strictly rising. */
  lemma ReaderNumbersRise(o: Options, run: Run, t: nat, r: nat)
    requires IsRun(o, run) && t < |run.states| && r < |run.states[t].readers|
    ensures ReaderOk(run.states[t].readers[r], run.states[t].captured)
  {
    RunInv(o, run, t);
  }

  // ------------------------------------------------------------- what a reader gets

  datatype Shot = NoShot | Shot(frame: seq<nat>)

  /** The frame captured last, unless the stream was switched off since. */
  function Current(steps: seq<Step>): Shot {
    if steps == [] then NoShot
    else
      match steps[|steps| - 1]
      case Capture(frame) => Shot(frame)
      case Deactivate => NoShot
      case _ => Current(steps[..|steps| - 1])
  }

  function Captures(steps: seq<Step>): nat {
    if steps == [] then 0 else Captures(steps[..|steps| - 1]) + if steps[|steps| - 1].Capture? then 1 else 0
  }

  ghost predicate ShowsCurrent(s: State, steps: seq<Step>) {
    && s.world.sequence == Captures(steps)
    && (s.world.active && s.world.have <==> Current(steps).Shot?)
    && (Current(steps).Shot? ==> s.world.depth == Current(steps).frame && s.world.depth != [])
  }

  lemma CurrentStep(o: Options, s: State, x: Step, s': State, steps: seq<Step>)
    requires HandlesOk(o, s) && FrameOk(s) && Next(o, s, x, s') && ShowsCurrent(s, steps)
    ensures ShowsCurrent(s', steps + [x])
  {
    hide Accounted;
    assert (steps + [x])[..|steps|] == steps;
  }

  lemma {:induction false} RunShowsCurrent(o: Options, run: Run, t: nat)
    requires IsRun(o, run) && t < |run.states|
    ensures ShowsCurrent(run.states[t], run.steps[..t])
  {
    hide Next, ShowsCurrent, HandlesOk, FrameOk;
    if t == 0 {
      NothingIsCurrent(run.states[0]);
      assert run.steps[..0] == [];
    } else {
      RunShowsCurrent(o, run, t - 1);
      RunInv(o, run, t - 1);
      CurrentStep(o, run.states[t - 1], run.steps[t - 1], run.states[t], run.steps[..t - 1]);
      assert run.steps[..t] == run.steps[..t - 1] + [run.steps[t - 1]];
    }
  }

  lemma NothingIsCurrent(s: State)
    requires Initial(s)
    ensures ShowsCurrent(s, [])
  {
  }

  /** In every run a reader that looks in gets the current frame under its capture number exactly if
      there is one and it is beyond the reader's cursor, which then moves there. */
  lemma ReaderGetsCurrent(o: Options, run: Run, t: nat)
    requires IsRun(o, run) && t < |run.steps| && run.steps[t].Look?
    ensures var r, shot, number := run.steps[t].reader, Current(run.steps[..t]), Captures(run.steps[..t]);
      && r < |run.states[t].readers| == |run.states[t + 1].readers|
      && var before, after := run.states[t].readers[r], run.states[t + 1].readers[r];
         after == if shot.Shot? && before.cursor < number
                  then Reader(number, before.got + [Packet(number, shot.frame)]) else before
  {
    RunShowsCurrent(o, run, t);
    assert Next(o, run.states[t], run.steps[t], run.states[t + 1]);
    hide IsRun, Current, Captures;
  }

  /** In every run a start makes the stream active exactly if the driver grants everything: pipeline,
      configuration, device, depth and, if wanted, infrared streams, profile, and for alignment the
      queue, the block and its start. */
  lemma StartSucceedsIff(o: Options, run: Run, t: nat)
    requires IsRun(o, run) && t < |run.steps| && run.steps[t].Start?
    ensures var x := run.steps[t].script;
      run.states[t + 1].world.active <==>
        && x.pipeline.Granted? && x.config.Granted? && x.device && x.depth && x.profile.Granted?
        && (o.infrared ==> x.infrared)
        && (o.align ==> x.queue.Granted? && x.align.Granted? && x.process)
  {
    assert Next(o, run.states[t], run.steps[t], run.states[t + 1]);
    hide Accounted;
  }
}
