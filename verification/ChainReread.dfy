/** Runs of the chain in which a camera that is done calibrating reads one frame any number of times,
    because the other camera still calibrates. */
module ChainReread {
  import opened Basics
  import opened Chain
  import opened ChainSteps
  import L = Seqlock
  import R = SeqlockRuns
  import Q = SeqlockProgress
  import W = Worker
  import V = WorkerRuns
  import T = Temporal

  // ------------------------------------------------------------- steps of one record

  function Lift(i: nat, steps: seq<L.Action>): (r: seq<Action>)
    ensures |r| == |steps|
  {
    seq(|steps|, k requires 0 <= k < |steps| => DepthStep(i, steps[k]))
  }

  lemma QuietStep(c: W.Config, s: State, i: nat, a: L.Action)
    requires W.ValidConfig(c) && Inv(s) && Shape(s) && i < CAMERAS && s.inbox[i].None?
    requires !a.Publish? && L.Enabled(L.Depth, s.depth[i], a)
    requires |L.Apply(L.Depth, s.depth[i], a).readers| == 1
    requires L.Apply(L.Depth, s.depth[i], a).readers[0].delivered == s.depth[i].readers[0].delivered
    ensures Enabled(c, s, DepthStep(i, a))
    ensures Apply(c, s, DepthStep(i, a)) == s.(depth := s.depth[i := L.Apply(L.Depth, s.depth[i], a)])
  {
    hide L.Apply, L.Enabled;
  }

  lemma RecordInv(s: State, i: nat)
    requires Inv(s) && i < CAMERAS
    ensures |s.depth| == CAMERAS && L.Inv(L.Depth, s.depth[i]) && |s.depth[i].readers| == 1
  {
    assert DepthInv(s.captured[i], s.fed[i], s.depth[i], s.inbox[i], s.worker.cameras[i].source.sequence);
  }

  /** Steps of one record that deliver nothing change nothing else. */
  lemma {:induction false} LiftQuiet(c: W.Config, s: State, i: nat, steps: seq<L.Action>, end: L.State)
    requires W.ValidConfig(c) && Inv(s) && Shape(s) && i < CAMERAS && s.inbox[i].None?
    requires Quiet(L.Depth, s.depth[i], steps, end)
    ensures Leads(c, s, Lift(i, steps), s.(depth := s.depth[i := end]))
    decreases |steps|
  {
    hide L.Inv, L.Apply, L.Enabled, Inv, Shape, Apply, Enabled, Leads, W.ValidConfig, Quiet;
    RecordInv(s, i);
    if steps == [] {
      NoSteps(c, s);
      QuietNothing(L.Depth, s.depth[i], end);
      assert s.depth[i := s.depth[i]] == s.depth;
      assert Lift(i, steps) == [];
    } else {
      var d, x := s.depth[i], DepthStep(i, steps[0]);
      QuietHead(L.Depth, d, steps, end);
      QuietStep(c, s, i, steps[0]);
      LeadsOne(c, s, x);
      var s' := Apply(c, s, x);
      LiftQuiet(c, s', i, steps[1..], end);
      assert s'.depth[i := end] == s.depth[i := end];
      assert Lift(i, steps) == [x] + Lift(i, steps[1..]);
      LeadsOn(c, s, [x], s', Lift(i, steps[1..]), s'.(depth := s.depth[i := end]));
    }
  }

  // ------------------------------------------------------------- between two rounds

  /** What the host knows of camera i is not ahead of its captures. */
  ghost predicate Behind(s: State, i: nat)
    requires Shape(s) && i < CAMERAS
  {
    var d := s.depth[i];
    && s.fed[i] <= |s.captured[i]| && d.readers[0].cursor <= |s.captured[i]|
    && (d.published != [] ==> Last(d.published) != [] && Last(d.published)[L.KEY] <= |s.captured[i]|)
  }

  /** Nothing is under way, and the other camera has no background. */
  ghost predicate Ready(s: State, i: nat)
    requires i < CAMERAS
  {
    && Inv(s) && Shape(s) && s.hand[i].None? && s.inbox == [None, None]
    && (forall k | 0 <= k < CAMERAS :: s.depth[k].readers[0].at.Rest?)
    && s.depth[i].writer.Idle? && s.pose.writer.Idle? && s.worker.roles.Roles?
    && !s.worker.cameras[1 - i].hasBackground
    && Behind(s, i)
  }

  lemma ReadyFacts(s: State, i: nat)
    requires i < CAMERAS && Ready(s, i)
    ensures Inv(s) && Shape(s) && |s.inbox| == CAMERAS && s.inbox[i].None? && L.Inv(L.Depth, s.depth[i])
    ensures s.depth[i].readers[0].at.Rest? && s.depth[i].writer.Idle?
    ensures |s.worker.cameras| == |s.depth| == CAMERAS && |s.depth[i].readers| == 1
  {
    hide L.Inv, Inv, Behind;
    RecordInv(s, i);
  }

  /** The register of camera i holds a frame that its cursor has not passed. */
  ghost predicate HasNews(s: State, i: nat)
    requires Shape(s) && i < CAMERAS
  {
    var d := s.depth[i];
    && d.published != [] && Last(d.published) != []
    && d.readers[0].cursor < Last(d.published)[L.KEY]
  }

  function FrameOf(key: nat): Payload {
    seq(L.DEPTH_HEADER + 1, j => if j == L.KEY then key else 1)
  }

  /** Camera i captures a frame, and the host takes it and begins to publish it. */
  lemma BeginFeed(c: W.Config, s: State, i: nat, p: Payload) returns (steps: seq<Action>, t: State)
    requires W.ValidConfig(c) && i < CAMERAS && Inv(s) && Shape(s) && s.hand[i].None? && s.depth[i].writer.Idle?
    requires p == FrameOf(|s.captured[i]| + 1) && s.fed[i] <= |s.captured[i]|
    ensures Leads(c, s, steps, t) && Inv(t) && Shape(t)
    ensures var sequence := s.depth[i].sequence + 1;
      t == s.(captured := s.captured[i := s.captured[i] + [p]], fed := s.fed[i := |s.captured[i]| + 1],
              depth := s.depth[i := s.depth[i].(sequence := sequence, writer := L.BeginTest(p, sequence))])
  {
    hide Inv, Leads;
    var s1 := s.(captured := s.captured[i := s.captured[i] + [p]]);
    var s2 := s1.(hand := s1.hand[i := Some(p)]);
    var sequence := s.depth[i].sequence + 1;
    t := s1.(fed := s1.fed[i := |s.captured[i]| + 1],
             depth := s1.depth[i := s1.depth[i].(sequence := sequence, writer := L.BeginTest(p, sequence))]);
    assert Enabled(c, s, Capture(i, p)) && Apply(c, s, Capture(i, p)) == s1;
    LeadsOne(c, s, Capture(i, p));
    assert Enabled(c, s1, Take(i)) && Apply(c, s1, Take(i)) == s2;
    LeadsOne(c, s1, Take(i));
    assert Enabled(c, s2, Feed(i)) && L.Publishable(L.Depth, p);
    assert s2.hand[i := None] == s1.hand;
    assert Apply(c, s2, Feed(i)) == t;
    hide Apply, Enabled, Shape, L.Publishable, FrameOf;
    LeadsOne(c, s2, Feed(i));
    LeadsOn(c, s, [Capture(i, p)], s1, [Take(i)], s2);
    LeadsOn(c, s, [Capture(i, p)] + [Take(i)], s2, [Feed(i)], t);
    steps := [Capture(i, p)] + [Take(i)] + [Feed(i)];
  }

  /** The host publishes one more captured frame. */
  lemma Supply(c: W.Config, s: State, i: nat) returns (steps: seq<Action>, t: State)
    requires W.ValidConfig(c) && i < CAMERAS && Ready(s, i)
    ensures Leads(c, s, steps, t) && Ready(t, i) && HasNews(t, i)
    ensures t.worker == s.worker && t.depth[i].readers == s.depth[i].readers
  {
    hide Inv, Leads;
    var p := FrameOf(|s.captured[i]| + 1);
    var feed, mid := BeginFeed(c, s, i, p);
    var writes;
    writes, t := Publishes(c, mid, i, p);
    LeadsOn(c, s, feed, mid, writes, t);
    steps := feed + writes;
  }

  lemma Publishes(c: W.Config, s: State, i: nat, p: Payload) returns (steps: seq<Action>, t: State)
    requires W.ValidConfig(c) && Inv(s) && Shape(s) && i < CAMERAS && s.inbox[i].None?
    requires s.depth[i].writer == L.BeginTest(p, s.depth[i].sequence)
    ensures Leads(c, s, steps, t) && Inv(t) && Shape(t)
    ensures |t.depth| == |s.depth| && t == s.(depth := s.depth[i := t.depth[i]])
    ensures var d := t.depth[i];
      d.writer.Idle? && d.published == s.depth[i].published + [p] && d.readers == s.depth[i].readers
  {
    assert DepthInv(s.captured[i], s.fed[i], s.depth[i], s.inbox[i], s.worker.cameras[i].source.sequence);
    hide L.Inv, Inv, Leads, L.Enabled, L.Apply;
    var writes := Q.FinishWrite(L.Depth, s.depth[i], s.depth[i].published, p);
    LiftQuiet(c, s, i, writes, R.After(L.Depth, s.depth[i], writes));
    steps := Lift(i, writes);
    t := s.(depth := s.depth[i := R.After(L.Depth, s.depth[i], writes)]);
    LeadsInv(c, s, steps, t);
  }

  // -------------------------------------------------------- one read and its turn

  function ReadOf(d: L.State, advance: bool): L.Delivery
    requires d.published != []
  {
    L.Delivery(Last(d.published), d.sequence, advance)
  }

  lemma RegisterFits(d: L.State)
    requires L.Inv(L.Depth, d) && d.published != [] && d.writer.Idle?
    ensures |Last(d.published)| <= |d.cells|
  {
  }

  /** The worker copies the register of camera i, undisturbed, ... */
  lemma Copy(c: W.Config, s: State, i: nat) returns (steps: seq<Action>, t: State)
    requires W.ValidConfig(c) && i < CAMERAS && Ready(s, i) && HasNews(s, i)
    ensures |Last(s.depth[i].published)| <= |s.depth[i].cells| && |s.depth[i].readers| == 1
    ensures t == s.(depth := s.depth[i := R.MidCopy(s.depth[i], 0, |Last(s.depth[i].published)|)])
    ensures Leads(c, s, steps, t) && Inv(t) && Shape(t)
  {
    hide L.Inv, Inv, Leads, L.Enabled, L.Apply, Shape, L.Publishable, Ready;
    ReadyFacts(s, i);
    var d := s.depth[i];
    var last := Last(d.published);
    RegisterFits(d);
    var copies := R.CopyAlone(L.Depth, d, 0, |last|);
    t := s.(depth := s.depth[i := R.MidCopy(d, 0, |last|)]);
    forall k | 0 <= k < |copies|
      ensures !copies[k].Publish?
    {
      assert copies[k] in copies;
    }
    LiftQuiet(c, s, i, copies, t.depth[i]);
    steps := Lift(i, copies);
    LeadsInv(c, s, steps, t);
  }

  /** ... and accepts the copy. */
  lemma Read(c: W.Config, s: State, i: nat, advance: bool) returns (steps: seq<Action>, t: State)
    requires W.ValidConfig(c) && i < CAMERAS && Ready(s, i) && HasNews(s, i)
    ensures Leads(c, s, steps, t) && Inv(t) && Shape(t)
    ensures t == s.(inbox := s.inbox[i := Some(Last(s.depth[i].published))],
                    depth := s.depth[i := s.depth[i].(readers := t.depth[i].readers)])
    ensures var r := t.depth[i].readers[0];
      && r.at.Rest? && r.delivered == s.depth[i].readers[0].delivered + [ReadOf(s.depth[i], advance)]
      && r.cursor == (if advance then Last(s.depth[i].published)[L.KEY] else s.depth[i].readers[0].cursor)
  {
    assert Shape(s);
    hide Inv, Leads, L.Inv, Behind, L.Enabled, L.Apply, Ready;
    var copies, mid := Copy(c, s, i);
    var accept := DepthStep(i, L.ReadSecond(0, advance));
    Accept(c, s, i, advance);
    LeadsOne(c, mid, accept);
    t := Apply(c, mid, accept);
    hide Apply, Enabled;
    LeadsOn(c, s, copies, mid, [accept], t);
    steps := copies + [accept];
  }

  lemma Accept(c: W.Config, s: State, i: nat, advance: bool)
    requires W.ValidConfig(c) && i < CAMERAS && Ready(s, i) && HasNews(s, i)
    requires |Last(s.depth[i].published)| <= |s.depth[i].cells|
    ensures var d := s.depth[i];
      var mid := s.(depth := s.depth[i := R.MidCopy(d, 0, |Last(d.published)|)]);
      var accept := DepthStep(i, L.ReadSecond(0, advance));
      && Shape(mid) && Enabled(c, mid, accept)
      && Apply(c, mid, accept) == s.(inbox := s.inbox[i := Some(Last(d.published))],
                                     depth := s.depth[i := R.Accepted(d, 0, advance)])
  {
    hide L.Inv, Inv, L.Enabled, L.Apply, Behind, Ready, Enabled, Apply;
    ReadyFacts(s, i);
    var d := s.depth[i];
    R.AcceptAlone(L.Depth, d, 0, advance);
    var mid := s.(depth := s.depth[i := R.MidCopy(d, 0, |Last(d.published)|)]);
    ReadStep(c, mid, i, L.ReadSecond(0, advance), ReadOf(d, advance));
    assert mid.depth[i := R.Accepted(d, 0, advance)] == s.depth[i := R.Accepted(d, 0, advance)];
  }

  lemma ReadStep(c: W.Config, s: State, i: nat, a: L.Action, read: L.Delivery)
    requires W.ValidConfig(c) && Shape(s) && i < CAMERAS && s.inbox[i].None?
    requires !a.Publish? && !a.Call? && L.Enabled(L.Depth, s.depth[i], a)
    requires var readers := L.Apply(L.Depth, s.depth[i], a).readers;
      |readers| == 1 && readers[0].delivered == s.depth[i].readers[0].delivered + [read]
    ensures Enabled(c, s, DepthStep(i, a))
    ensures Apply(c, s, DepthStep(i, a)) ==
            s.(inbox := s.inbox[i := Some(read.payload)],
               depth := s.depth[i := L.Apply(L.Depth, s.depth[i], a)])
  {
    hide L.Apply, L.Enabled;
  }

  /** What a turn finds that only camera i has a frame for, before its next inference. */
  function TurnInput(s: W.State, i: nat, key: nat): W.Input
    requires i < CAMERAS
  {
    var frame := T.Frame(key, 0);
    W.Input(if i == 0 then [Some(frame), None] else [None, Some(frame)], ["", ""], [false, false],
            0, 0, [0, 0], 0, s.nextInference - 1)
  }

  /** Such a turn calibrates and publishes nothing. */
  lemma TurnCalibrates(c: W.Config, s: W.State, i: nat, key: nat)
    requires W.ValidConfig(c) && 0 < c.calibrationFrames && i < CAMERAS && |s.cameras| == CAMERAS && W.RolesOk(s)
    requires s.cameras[i].source.sequence < key && !s.cameras[1 - i].hasBackground
    ensures var x := TurnInput(s, i, key);
      && W.ValidInput(s, x) && W.Step(c, s, x) == (s.(cameras := W.Intake(c, s, x)), W.Silent)
      && var cam, next := s.cameras[i], W.Intake(c, s, x)[i];
         && W.Intake(c, s, x)[1 - i] == s.cameras[1 - i]
         && next.source.sequence == (if cam.hasBackground then cam.source.sequence else key)
         && Sampled(c, cam, next)
  {
    hide W.Conclude, W.Settled, W.Named, W.RolesAfter;
    var x := TurnInput(s, i, key);
    assert W.Intake(c, s, x)[1 - i] == s.cameras[1 - i];
    assert W.Calibrating(c, W.Intake(c, s, x));
  }

  /** The turn that handles a frame of camera i only. */
  lemma TurnOn(c: W.Config, s: State, i: nat, key: nat) returns (steps: seq<Action>, t: State)
    requires W.ValidConfig(c) && 0 < c.calibrationFrames && i < CAMERAS && Inv(s) && Shape(s)
    requires W.RolesOk(s.worker) && s.pose.writer.Idle? && !s.worker.cameras[1 - i].hasBackground
    requires s.inbox[i].Some? && s.inbox[1 - i].None?
    requires s.inbox[i].value != [] && s.inbox[i].value[L.KEY] == key && s.worker.cameras[i].source.sequence < key
    requires forall k | 0 <= k < CAMERAS :: s.depth[k].readers[0].at.Rest?
    requires s.depth[1 - i].readers[0].cursor == s.worker.cameras[1 - i].source.sequence
    requires s.depth[i].readers[0].cursor ==
             if s.worker.cameras[i].hasBackground then s.worker.cameras[i].source.sequence else key
    ensures Leads(c, s, steps, t) && Inv(t) && Shape(t)
    ensures t == s.(worker := s.worker.(cameras := t.worker.cameras), inbox := [None, None])
    ensures t.worker.cameras[1 - i] == s.worker.cameras[1 - i]
    ensures Sampled(c, s.worker.cameras[i], t.worker.cameras[i])
  {
    hide W.Step, W.Intake, W.ValidInput, W.ValidConfig, Inv, Leads;
    TurnCalibrates(c, s.worker, i, key);
    var x := TurnInput(s.worker, i, key);
    SilentTurn(c, s, x);
    hide Enabled, Apply, Shape, TurnInput;
    var turn := Turn(x, seq(L.POSE_CELLS - 1, _ => 0));
    LeadsOne(c, s, turn);
    t := Apply(c, s, turn);
    steps := [turn];
  }

  lemma SilentTurn(c: W.Config, s: State, x: W.Input)
    requires W.ValidConfig(c) && Shape(s) && s.worker.roles.Roles? && s.pose.writer.Idle?
    requires forall k | 0 <= k < CAMERAS :: s.depth[k].readers[0].at.Rest?
    requires Reads(s, x) && W.ValidInput(s.worker, x)
    requires W.Step(c, s.worker, x).1.Silent?
    requires forall k | 0 <= k < CAMERAS ::
      W.Step(c, s.worker, x).0.cameras[k].source.sequence == s.depth[k].readers[0].cursor
    ensures var turn := Turn(x, seq(L.POSE_CELLS - 1, _ => 0));
      && Enabled(c, s, turn)
      && Apply(c, s, turn) == s.(worker := W.Step(c, s.worker, x).0, inbox := [None, None])
  {
    hide W.Step, W.ValidInput, W.ValidConfig;
  }

  /** The camera after one more calibration frame, which it ignores once it is done. */
  ghost predicate Sampled(c: W.Config, cam: W.Camera, next: W.Camera) {
    && next.hasBackground == (cam.hasBackground || c.calibrationFrames <= cam.samples + 1)
    && (!next.hasBackground ==> next.samples == cam.samples + 1)
  }

  /** The worker reads the register of camera i, and its turn moves the cursor only if the camera
      still calibrates. */
  lemma ReadAndTurn(c: W.Config, s: State, i: nat) returns (steps: seq<Action>, t: State)
    requires W.ValidConfig(c) && 0 < c.calibrationFrames && i < CAMERAS && Ready(s, i) && HasNews(s, i)
    ensures Leads(c, s, steps, t) && Ready(t, i)
    ensures Sampled(c, s.worker.cameras[i], t.worker.cameras[i])
    ensures s.worker.cameras[i].hasBackground ==> HasNews(t, i)
    ensures t.depth[i].readers[0].delivered ==
            s.depth[i].readers[0].delivered + [ReadOf(s.depth[i], !s.worker.cameras[i].hasBackground)]
    ensures t.depth[i].published == s.depth[i].published && t.depth[i].sequence == s.depth[i].sequence
  {
    hide L.Inv, Inv, Leads, W.ValidConfig, Sampled;
    var read, mid := Read(c, s, i, !s.worker.cameras[i].hasBackground);
    Cursors(s, i);
    Cursors(s, 1 - i);
    var turn;
    turn, t := TurnOn(c, mid, i, Last(s.depth[i].published)[L.KEY]);
    LeadsOn(c, s, read, mid, turn, t);
    steps := read + turn;
  }

  lemma Cursors(s: State, i: nat)
    requires Inv(s) && Shape(s) && i < CAMERAS && s.inbox[i].None?
    ensures s.depth[i].readers[0].cursor == s.worker.cameras[i].source.sequence
    ensures s.worker.roles.Roles? ==> W.RolesOk(s.worker)
  {
    assert DepthInv(s.captured[i], s.fed[i], s.depth[i], s.inbox[i], s.worker.cameras[i].source.sequence);
  }

  // ------------------------------------------------------------------ the whole run

  lemma Round(c: W.Config, s: State, i: nat) returns (steps: seq<Action>, t: State)
    requires W.ValidConfig(c) && 0 < c.calibrationFrames && i < CAMERAS && Ready(s, i)
    ensures Leads(c, s, steps, t) && Ready(t, i)
    ensures Sampled(c, s.worker.cameras[i], t.worker.cameras[i])
  {
    hide Inv, Leads, Behind, W.ValidConfig, Sampled;
    var supply, fed := Supply(c, s, i);
    var read;
    read, t := ReadAndTurn(c, fed, i);
    LeadsOn(c, s, supply, fed, read, t);
    steps := supply + read;
  }

  /** Camera i collects its background while the other camera sees nothing. */
  lemma {:induction false} Calibrate(c: W.Config, s: State, i: nat) returns (steps: seq<Action>, t: State)
    requires W.ValidConfig(c) && 0 < c.calibrationFrames && i < CAMERAS && Ready(s, i)
    ensures Leads(c, s, steps, t) && Ready(t, i) && t.worker.cameras[i].hasBackground
    decreases if s.worker.cameras[i].hasBackground then 0
              else 1 + Max(0, c.calibrationFrames - s.worker.cameras[i].samples)
  {
    hide Inv, Leads, Ready, Shape, W.ValidConfig;
    ReadyFacts(s, i);
    if s.worker.cameras[i].hasBackground {
      NoSteps(c, s);
      steps, t := [], s;
    } else {
      var round, after := Round(c, s, i);
      var rest;
      ReadyFacts(after, i);
      rest, t := Calibrate(c, after, i);
      LeadsOn(c, s, round, after, rest, t);
      steps := round + rest;
    }
  }

  /** A camera that is done reads the frame in its record n times. */
  lemma {:induction false} Reread(c: W.Config, s: State, i: nat, n: nat) returns (steps: seq<Action>, t: State)
    requires W.ValidConfig(c) && 0 < c.calibrationFrames && i < CAMERAS && Ready(s, i) && HasNews(s, i)
    requires s.worker.cameras[i].hasBackground
    ensures Leads(c, s, steps, t) && Ready(t, i)
    ensures t.depth[i].readers[0].delivered ==
            s.depth[i].readers[0].delivered + seq(n, _ => ReadOf(s.depth[i], false))
    decreases n
  {
    hide Inv, Leads, Behind, W.ValidConfig;
    if n == 0 {
      NoSteps(c, s);
      steps, t := [], s;
    } else {
      var first, once := ReadAndTurn(c, s, i);
      var rest;
      rest, t := Reread(c, once, i, n - 1);
      LeadsOn(c, s, first, once, rest, t);
      steps := first + rest;
      var read := ReadOf(s.depth[i], false);
      assert [read] + seq(n - 1, _ => read) == seq(n, _ => read);
    }
  }

  /** A run in which camera i is done calibrating and then, while the other camera still calibrates,
      reads one frame of its record n times. */
  lemma DoneCameraRereads(c: W.Config, i: nat, n: nat) returns (run: Run, done: nat, read: L.Delivery)
    requires W.ValidConfig(c) && 0 < c.calibrationFrames && i < CAMERAS
    ensures IsRun(c, run) && done < |run.states|
    ensures var s, t := run.states[done], Last(run.states);
      && Shape(s) && Shape(t)
      && s.worker.cameras[i].hasBackground && !t.worker.cameras[1 - i].hasBackground
      && t.depth[i].readers[0].delivered == s.depth[i].readers[0].delivered + seq(n, _ => read)
      && !read.advanced
  {
    InitialReady(c, i);
    hide Inv, Leads, Initial, Behind, Follows, IsRun, W.ValidConfig;
    var calibrate, ready := Calibrate(c, Initial(c), i);
    var supply, s := Supply(c, ready, i);
    LeadsOn(c, Initial(c), calibrate, ready, supply, s);
    var again, t := Reread(c, s, i, n);
    var states := RunOf(c, Initial(c), calibrate + supply, s);
    var more := RunOf(c, s, again, t);
    done := |calibrate + supply|;
    read := ReadOf(s.depth[i], false);
    run := Joined(c, states, calibrate + supply, more, again);
  }

  lemma InitialReady(c: W.Config, i: nat)
    requires W.ValidConfig(c) && i < CAMERAS
    ensures Ready(Initial(c), i)
  {
    hide Inv, L.Initial, W.ValidConfig;
    InitialInv(c);
    InvShape(Initial(c));
    InitialRecord(L.Depth);
    InitialRecord(L.Pose);
  }
}
