/** Which poses reach the client: over every run exactly those that lay in the host's copy, not too
    old, when the client waited; and every pose the worker publishes can reach it. */
module ChainPoses {
  import opened Basics
  import opened Chain
  import opened ChainSteps
  import L = Seqlock
  import R = SeqlockRuns
  import Q = SeqlockProgress
  import W = Worker
  import T = Temporal
  import opened Subsequence

  // ------------------------------------------------------------- what is handed out

  /** The newest pose the host has read. */
  function Newest(s: State): Payload {
    if s.pose.readers != [] && s.pose.readers[0].delivered != [] then Last(s.pose.readers[0].delivered).payload
    else []
  }

  /** The last of the first t steps in which the host kept a pose, or -1. */
  function LastStore(run: Run, t: nat): (j: int)
    requires t <= |run.steps|
    ensures -1 <= j < t
    ensures 0 <= j ==> run.steps[j].Store? && forall k | j < k < t :: !run.steps[k].Store?
    ensures j == -1 ==> forall k | 0 <= k < t :: !run.steps[k].Store?
  {
    if t == 0 then -1 else if run.steps[t - 1].Store? then t - 1 else LastStore(run, t - 1)
  }

  /** Step t is a wait that finds the kept pose no more than two seconds old. */
  predicate Timely(run: Run, t: nat)
    requires t < |run.steps|
  {
    && run.steps[t].Wait?
    && var j := LastStore(run, t);
       0 <= j && run.steps[j].Store? && run.steps[t].now - run.steps[j].tick <= 2000
  }

  /** The poses that were kept last at the timely waits among the first t steps. */
  function Handed(run: Run, t: nat): seq<Payload>
    requires |run.states| == |run.steps| + 1 && t <= |run.steps|
  {
    if t == 0 then []
    else if Timely(run, t - 1) then Handed(run, t - 1) + [Newest(run.states[LastStore(run, t - 1)])]
    else Handed(run, t - 1)
  }

  /** What a step does to the host's copy and the client. */
  lemma ClientStep(c: W.Config, s: State, x: Action)
    requires Shape(s) && W.ValidConfig(c) && Enabled(c, s, x)
    ensures var s' := Apply(c, s, x);
      match x
      case Store(tick) =>
        && s'.slot == [Newest(s)] && s'.slotTick == tick
        && s'.delivered == s.delivered && s'.clientCursor == s.clientCursor
      case Wait(now) =>
        && s.slot != [] && s.slot[0] != [] && s.clientCursor < s.slot[0][L.KEY] && s.slotTick <= now
        && s'.slot == s.slot && s'.slotTick == s.slotTick && s'.clientCursor == s.slot[0][L.KEY]
        && s'.delivered == (if now - s.slotTick <= 2000 then s.delivered + [s.slot[0]] else s.delivered)
      case _ =>
        && s'.slot == s.slot && s'.slotTick == s.slotTick
        && s'.delivered == s.delivered && s'.clientCursor == s.clientCursor
  {
    hide L.Apply, L.Enabled, W.Step, W.ValidInput, W.ValidConfig, L.Publishable;
  }

  lemma {:induction false} SlotIsLastStore(c: W.Config, run: Run, t: nat)
    requires IsRun(c, run) && t <= |run.steps|
    ensures var s, j := run.states[t], LastStore(run, t);
      if j < 0 then s.slot == []
      else run.steps[j].Store? && s.slot == [Newest(run.states[j])] && s.slotTick == run.steps[j].tick
  {
    hide Apply, Enabled, Shape, W.ValidConfig;
    if 0 < t {
      SlotIsLastStore(c, run, t - 1);
      assert Enabled(c, run.states[t - 1], run.steps[t - 1]) && run.states[t - 1 + 1] ==
        Apply(c, run.states[t - 1], run.steps[t - 1]);
      ClientStep(c, run.states[t - 1], run.steps[t - 1]);
    }
  }

  /** In every run the client has got exactly the poses the host kept at its timely waits. */
  lemma {:induction false} DeliveredIsHanded(c: W.Config, run: Run, t: nat)
    requires IsRun(c, run) && t <= |run.steps|
    ensures run.states[t].delivered == Handed(run, t)
  {
    hide Apply, Enabled, Shape, W.ValidConfig;
    if 0 < t {
      DeliveredIsHanded(c, run, t - 1);
      assert Enabled(c, run.states[t - 1], run.steps[t - 1]) && run.states[t - 1 + 1] ==
        Apply(c, run.states[t - 1], run.steps[t - 1]);
      ClientStep(c, run.states[t - 1], run.steps[t - 1]);
      SlotIsLastStore(c, run, t - 1);
    }
  }

  // ------------------------------------------------------------- when none is missed

  /** A pose was kept and no timely wait has followed. */
  function Pending(run: Run, t: nat): bool
    requires t <= |run.steps|
  {
    0 < t && !Timely(run, t - 1) && (run.steps[t - 1].Store? || Pending(run, t - 1))
  }

  /** A timely wait follows each kept pose before the next one is kept. */
  ghost predicate NoneMissed(run: Run, t: nat)
    requires t <= |run.steps|
  {
    forall k | 0 <= k < t && run.steps[k].Store? :: !Pending(run, k)
  }

  /** The poses the host has kept. */
  function Kept(s: State): seq<Payload>
    requires |s.pose.readers| == 1
  {
    var received := Received(s.pose);
    if s.unstored && received != [] then received[..|received| - 1] else received
  }

  lemma TurnKeepsReceived(c: W.Config, s: State, x: Action)
    requires Inv(s) && Shape(s) && W.ValidConfig(c) && Enabled(c, s, x) && x.Turn?
    ensures Apply(c, s, x).pose.readers == s.pose.readers && Apply(c, s, x).unstored == s.unstored
  {
    hide W.Step, W.ValidInput, W.ValidConfig, Inv, Agrees, Reads, Shape;
  }

  lemma KeptStep(c: W.Config, s: State, x: Action)
    requires Inv(s) && Shape(s) && W.ValidConfig(c) && Enabled(c, s, x)
    ensures |Apply(c, s, x).pose.readers| == 1
    ensures Kept(Apply(c, s, x)) == if x.Store? then Kept(s) + [Newest(s)] else Kept(s)
  {
    hide W.Step, W.ValidInput, W.ValidConfig, L.Apply, L.Enabled, L.Publishable, DepthInv, R.Consumed, L.Inv, Agrees,
         Reads, AtMost, R.Increasing, Begun;
    match x
    case PoseStep(a) =>
      UnstoredAddsNothing(s, a);
      PoseStepKeeps(s.pose, s.worker.generation, a);
    case Store(_) =>
      ReceivedLast(s.pose.readers[0].delivered);
      var received := Received(s.pose);
      assert received == received[..|received| - 1] + [Last(received)];
    case Turn(_, _) => TurnKeepsReceived(c, s, x);
    case _ =>
  }

  lemma UnstoredAddsNothing(s: State, a: L.Action)
    requires Inv(s) && L.Enabled(L.Pose, s.pose, a)
    ensures |s.pose.cells| == L.Capacity(L.Pose) && |L.Apply(L.Pose, s.pose, a).readers| == 1
    ensures s.unstored && !a.Publish? && !a.Call? ==> Mail(s.pose, L.Apply(L.Pose, s.pose, a)).None?
  {
    assert PoseInv(s.pose, s.worker.generation);
    ReaderStep(L.Pose, s.pose, a);
  }

  /** The client, against the poses the host has kept. */
  ghost predicate FetchInv(kept: seq<Payload>, slot: seq<Payload>, cursor: int, delivered: seq<Payload>,
                           pending: bool, noneMissed: bool) {
    && slot == (if kept == [] then [] else [Last(kept)])
    && (if pending then kept != [] else slot != [] && slot[0] != [] ==> slot[0][L.KEY] <= cursor)
    && var due := |kept| - if pending then 1 else 0;
       if noneMissed then 0 <= due && delivered == kept[..due] else |delivered| < due
  }

  lemma FetchStore(kept: seq<Payload>, slot: seq<Payload>, cursor: int, delivered: seq<Payload>,
                   pending: bool, noneMissed: bool, p: Payload)
    requires FetchInv(kept, slot, cursor, delivered, pending, noneMissed)
    ensures FetchInv(kept + [p], [p], cursor, delivered, true, noneMissed && !pending)
  {
  }

  /** A wait only finds a pose that is pending. */
  lemma FetchWait(kept: seq<Payload>, slot: seq<Payload>, cursor: int, delivered: seq<Payload>,
                  pending: bool, noneMissed: bool)
    requires FetchInv(kept, slot, cursor, delivered, pending, noneMissed)
    requires slot != [] && slot[0] != [] && cursor < slot[0][L.KEY]
    ensures pending
    ensures FetchInv(kept, slot, slot[0][L.KEY], delivered + [slot[0]], false, noneMissed)
    ensures FetchInv(kept, slot, slot[0][L.KEY], delivered, true, noneMissed)
  {
    assert kept == kept[..|kept| - 1] + [Last(kept)];
    assert kept[..|kept|] == kept;
  }

  ghost predicate FetchAt(run: Run, t: nat)
    requires |run.states| == |run.steps| + 1 && t <= |run.steps|
  {
    && |run.states[t].pose.readers| == 1
    && var s := run.states[t];
       FetchInv(Kept(s), s.slot, s.clientCursor, s.delivered, Pending(run, t), NoneMissed(run, t))
  }

  lemma FetchStep(c: W.Config, run: Run, t: nat)
    requires IsRun(c, run) && t < |run.steps| && FetchAt(run, t)
    ensures FetchAt(run, t + 1)
  {
    hide Apply, Enabled, Shape, W.ValidConfig, Kept, Inv, FetchInv, NoneMissed, LastStore;
    var s, x := run.states[t], run.steps[t];
    var kept, pending, none := Kept(s), Pending(run, t), NoneMissed(run, t);
    assert Enabled(c, s, x) && run.states[t + 1] == Apply(c, s, x);
    RunInv(c, run, t);
    ClientStep(c, s, x);
    KeptStep(c, s, x);
    SlotIsLastStore(c, run, t);
    MissedStep(run, t);
    if x.Store? {
      FetchStore(kept, s.slot, s.clientCursor, s.delivered, pending, none, Newest(s));
    } else if x.Wait? {
      FetchWait(kept, s.slot, s.clientCursor, s.delivered, pending, none);
    }
  }

  lemma MissedStep(run: Run, t: nat)
    requires t < |run.steps|
    ensures NoneMissed(run, t + 1) <==> NoneMissed(run, t) && (run.steps[t].Store? ==> !Pending(run, t))
  {
  }

  lemma {:induction false} FetchHolds(c: W.Config, run: Run, t: nat)
    requires IsRun(c, run) && t <= |run.steps|
    ensures FetchAt(run, t)
  {
    hide Apply, Enabled, FetchAt, Inv, Shape, W.ValidConfig;
    if t == 0 {
      InitialFetch(c, run);
    } else {
      FetchHolds(c, run, t - 1);
      FetchStep(c, run, t - 1);
    }
  }

  lemma InitialFetch(c: W.Config, run: Run)
    requires IsRun(c, run)
    ensures FetchAt(run, 0)
  {
    hide L.Initial, Apply, Enabled, W.ValidConfig;
    InitialRecord(L.Pose);
  }

  /** In every run the client has got every pose the host has kept, each once and in order, exactly
      if a timely wait followed each before the next was kept. */
  lemma NothingIsMissedIff(c: W.Config, run: Run, t: nat)
    requires IsRun(c, run) && t <= |run.steps|
    ensures |run.states[t].pose.readers| == 1
    ensures run.states[t].delivered == Kept(run.states[t]) <==> NoneMissed(run, t) && !Pending(run, t)
    ensures !run.states[t].unstored ==> Kept(run.states[t]) == Received(run.states[t].pose)
  {
    FetchHolds(c, run, t);
    hide NoneMissed, Apply, Enabled, IsRun, Shape;
    var kept := Kept(run.states[t]);
    assert kept[..|kept|] == kept;
  }

  // ----------------------------------------------------------- from worker to client

  /** Nobody has seen a generation that was not published yet. */
  ghost predicate CursorsBehind(s: State) {
    && |s.pose.readers| == 1
    && s.pose.readers[0].cursor <= s.worker.generation && s.clientCursor <= s.worker.generation
  }

  lemma PoseCursor(pose: L.State, generation: nat, a: L.Action)
    requires PoseInv(pose, generation) && pose.readers[0].cursor <= generation
    requires !a.Publish? && L.Enabled(L.Pose, pose, a)
    ensures |pose.cells| == L.Capacity(L.Pose)
    ensures var next := L.Apply(L.Pose, pose, a);
      |next.readers| == 1 && next.readers[0].cursor <= generation
  {
    PoseStepKeeps(pose, generation, a);
    ReaderStep(L.Pose, pose, a);
    var next := L.Apply(L.Pose, pose, a);
    assert PoseInv(next, generation);
    assert L.ReaderInv(L.Pose, next, next.readers[0]);
    hide L.Apply, L.Enabled, L.Inv;
    var r, r' := pose.readers[0], next.readers[0];
    if r'.cursor != r.cursor {
      var d := Last(r'.delivered);
      assert d == r'.delivered[|r.delivered|] && d in r'.delivered;
      assert L.Faithful(next, d);
      assert d.payload in next.published;
      var k :| 0 <= k < |next.published| && next.published[k] == d.payload;
      assert Begun(next)[k] == d.payload;
    }
  }

  lemma SlotIsOld(s: State)
    requires Inv(s) && Shape(s) && s.slot != [] && s.slot[0] != []
    ensures s.slot[0][L.KEY] <= s.worker.generation
  {
    hide R.Consumed, DepthInv, L.Inv, HandOk;
    ReceivedIsPublished(s.pose, s.worker.generation);
    var received := Received(s.pose);
    var j := |received| - if s.unstored then 2 else 1;
    var picks :| Picks(picks, s.pose.published, received);
    var k := picks[j];
    assert received[j] == s.pose.published[k] == Begun(s.pose)[k];
  }

  lemma TurnCursors(c: W.Config, s: State, x: Action)
    requires Inv(s) && Shape(s) && W.ValidConfig(c) && Enabled(c, s, x) && x.Turn? && CursorsBehind(s)
    ensures CursorsBehind(Apply(c, s, x))
  {
    hide W.Step, W.ValidConfig, Inv, Agrees, Reads, Shape;
    TurnInputIsValid(c, s, x);
    TurnSettlesCursor(c, s.worker, x.input, 0);
  }

  lemma CursorsStep(c: W.Config, s: State, x: Action)
    requires Inv(s) && Shape(s) && W.ValidConfig(c) && Enabled(c, s, x) && CursorsBehind(s)
    ensures CursorsBehind(Apply(c, s, x))
  {
    hide W.Step, W.ValidInput, W.ValidConfig, L.Apply, L.Enabled, L.Publishable, Inv, PoseInv, Agrees, Reads;
    match x
    case PoseStep(a) =>
      PoseInvOf(s);
      PoseCursor(s.pose, s.worker.generation, a);
    case Wait(_) => SlotIsOld(s);
    case Turn(_, _) => TurnCursors(c, s, x);
    case _ =>
  }

  lemma PoseInvOf(s: State)
    requires Inv(s)
    ensures PoseInv(s.pose, s.worker.generation)
  {
  }

  lemma {:induction false} RunCursors(c: W.Config, run: Run, t: nat)
    requires IsRun(c, run) && t < |run.states|
    ensures CursorsBehind(run.states[t])
  {
    hide Apply, Enabled, Inv, Shape, W.ValidConfig, L.Initial;
    if t == 0 {
      InitialRecord(L.Pose);
    } else {
      RunCursors(c, run, t - 1);
      RunInv(c, run, t - 1);
      CursorsStep(c, run.states[t - 1], run.steps[t - 1]);
    }
  }

  function LiftPose(steps: seq<L.Action>): (r: seq<Action>)
    ensures |r| == |steps|
  {
    seq(|steps|, k requires 0 <= k < |steps| => PoseStep(steps[k]))
  }

  lemma QuietPoseStep(c: W.Config, s: State, a: L.Action)
    requires W.ValidConfig(c) && Inv(s) && Shape(s) && !s.unstored
    requires !a.Publish? && L.Enabled(L.Pose, s.pose, a)
    requires |L.Apply(L.Pose, s.pose, a).readers| == 1
    requires L.Apply(L.Pose, s.pose, a).readers[0].delivered == s.pose.readers[0].delivered
    ensures Enabled(c, s, PoseStep(a))
    ensures Apply(c, s, PoseStep(a)) == s.(pose := L.Apply(L.Pose, s.pose, a))
  {
    hide L.Apply, L.Enabled;
  }

  lemma PoseRecordInv(s: State)
    requires Inv(s)
    ensures L.Inv(L.Pose, s.pose) && |s.pose.readers| == 1
  {
  }

  /** Steps of the pose record that deliver nothing change nothing else. */
  lemma {:induction false} LiftQuietPose(c: W.Config, s: State, steps: seq<L.Action>, end: L.State)
    requires W.ValidConfig(c) && Inv(s) && Shape(s) && !s.unstored && Quiet(L.Pose, s.pose, steps, end)
    ensures Leads(c, s, LiftPose(steps), s.(pose := end))
    decreases |steps|
  {
    hide L.Inv, L.Apply, L.Enabled, Inv, Shape, Apply, Enabled, Leads, W.ValidConfig, Quiet;
    PoseRecordInv(s);
    if steps == [] {
      NoSteps(c, s);
      QuietNothing(L.Pose, s.pose, end);
      assert LiftPose(steps) == [];
    } else {
      var x := PoseStep(steps[0]);
      QuietHead(L.Pose, s.pose, steps, end);
      QuietPoseStep(c, s, steps[0]);
      LeadsOne(c, s, x);
      var s' := Apply(c, s, x);
      LiftQuietPose(c, s', steps[1..], end);
      assert LiftPose(steps) == [x] + LiftPose(steps[1..]);
      LeadsOn(c, s, [x], s', LiftPose(steps[1..]), s'.(pose := end));
    }
  }

  /** The pose record holds p, and neither the host nor the client is past it. */
  ghost predicate PoseWaits(s: State, p: Payload) {
    && Inv(s) && Shape(s) && !s.unstored && s.pose.writer.Idle? && s.pose.readers[0].at.Rest?
    && s.pose.published != [] && Last(s.pose.published) == p && p != []
    && s.pose.readers[0].cursor < p[L.KEY] && s.clientCursor < p[L.KEY]
  }

  /** The host reads the pose, ... */
  lemma ReadPose(c: W.Config, s: State, p: Payload) returns (steps: seq<Action>, t: State)
    requires W.ValidConfig(c) && PoseWaits(s, p)
    ensures Leads(c, s, steps, t) && Inv(t) && Shape(t) && t.unstored && Newest(t) == p
    ensures t.clientCursor == s.clientCursor && t.delivered == s.delivered
  {
    hide L.Inv, Inv, Leads, L.Enabled, L.Apply, Shape, L.Publishable;
    PoseRecordInv(s);
    PoseFits(s.pose);
    var copies := R.CopyAlone(L.Pose, s.pose, 0, |p|);
    var mid := s.(pose := R.MidCopy(s.pose, 0, |p|));
    forall k | 0 <= k < |copies|
      ensures !copies[k].Publish?
    {
      assert copies[k] in copies;
    }
    LiftQuietPose(c, s, copies, mid.pose);
    LeadsInv(c, s, LiftPose(copies), mid);
    var accept := PoseStep(L.ReadSecond(0, true));
    R.AcceptAlone(L.Pose, s.pose, 0, true);
    AcceptPose(c, mid, accept.step, L.Delivery(p, s.pose.sequence, true));
    LeadsOne(c, mid, accept);
    t := Apply(c, mid, accept);
    LeadsOn(c, s, LiftPose(copies), mid, [accept], t);
    steps := LiftPose(copies) + [accept];
  }

  lemma PoseFits(d: L.State)
    requires L.Inv(L.Pose, d) && d.published != [] && d.writer.Idle?
    ensures |Last(d.published)| <= |d.cells|
  {
  }

  lemma AcceptPose(c: W.Config, s: State, a: L.Action, read: L.Delivery)
    requires W.ValidConfig(c) && Shape(s) && !a.Publish? && !a.Call? && L.Enabled(L.Pose, s.pose, a)
    requires var readers := L.Apply(L.Pose, s.pose, a).readers;
      |readers| == 1 && readers[0].delivered == s.pose.readers[0].delivered + [read]
    ensures Enabled(c, s, PoseStep(a))
    ensures Apply(c, s, PoseStep(a)) == s.(pose := L.Apply(L.Pose, s.pose, a), unstored := true)
  {
    hide L.Apply, L.Enabled;
  }

  /** ... keeps it, and hands it to a client that waits. */
  lemma HandOut(c: W.Config, s: State, p: Payload) returns (steps: seq<Action>, t: State)
    requires W.ValidConfig(c) && Inv(s) && Shape(s) && s.unstored && Newest(s) == p
    requires p != [] && s.clientCursor < p[L.KEY]
    ensures Leads(c, s, steps, t) && t.delivered == s.delivered + [p]
  {
    hide Inv, Leads;
    LeadsOne(c, s, Store(0));
    var kept := Apply(c, s, Store(0));
    LeadsOne(c, kept, Wait(0));
    t := Apply(c, kept, Wait(0));
    LeadsOn(c, s, [Store(0)], kept, [Wait(0)], t);
    steps := [Store(0)] + [Wait(0)];
  }

  /** The worker's turn publishes a pose. */
  ghost predicate TurnPublishes(c: W.Config, s: State, x: Action)
    requires W.ValidConfig(c)
  {
    && x.Turn? && W.ValidInput(s.worker, x.input)
    && !W.Step(c, s.worker, x.input).1.Silent? && !W.Step(c, s.worker, x.input).1.Fault?
  }

  function PoseOf(c: W.Config, s: State, x: Action): Payload
    requires W.ValidConfig(c) && TurnPublishes(c, s, x)
  {
    [W.Step(c, s.worker, x.input).1.generation] + x.body
  }

  lemma BeginPose(c: W.Config, s: State, x: Action)
    requires W.ValidConfig(c) && Inv(s) && Shape(s) && Enabled(c, s, x) && TurnPublishes(c, s, x) && CursorsBehind(s)
    ensures var t, p := Apply(c, s, x), PoseOf(c, s, x);
      && t.pose == L.StartPublish(L.Pose, s.pose, p) && |p| == L.POSE_CELLS
      && t.pose.writer == L.BeginStore(p, L.BeginValue(s.pose.sequence))
      && t.unstored == s.unstored && t.clientCursor == s.clientCursor && t.delivered == s.delivered
      && s.pose.readers[0].cursor < p[L.KEY] && s.clientCursor < p[L.KEY]
  {
    hide W.Step, W.ValidInput, W.ValidConfig, Inv, Agrees, Reads;
    TurnSettlesCursor(c, s.worker, x.input, 0);
  }

  /** A pose that is published comes to wait in the record. */
  lemma WritePose(c: W.Config, s: State, x: Action) returns (steps: seq<Action>, t: State)
    requires W.ValidConfig(c) && Inv(s) && Shape(s) && Enabled(c, s, x) && TurnPublishes(c, s, x) && CursorsBehind(s)
    requires s.pose.readers[0].at.Rest? && !s.unstored
    ensures Leads(c, s, [x] + steps, t) && PoseWaits(t, PoseOf(c, s, x)) && t.delivered == s.delivered
  {
    var p := PoseOf(c, s, x);
    BeginPose(c, s, x);
    hide W.Step, W.ValidInput, W.ValidConfig, Inv, Enabled, Apply, Leads, L.Inv, TurnPublishes, PoseOf;
    LeadsOne(c, s, x);
    var mid := Apply(c, s, x);
    PoseRecordInv(mid);
    var writes := Q.FinishWrite(L.Pose, mid.pose, mid.pose.published, p);
    t := mid.(pose := R.After(L.Pose, mid.pose, writes));
    LiftQuietPose(c, mid, writes, t.pose);
    LeadsInv(c, mid, LiftPose(writes), t);
    LeadsOn(c, s, [x], mid, LiftPose(writes), t);
    steps := LiftPose(writes);
  }

  /** From every state of every run in which the host is not at work on an earlier pose, the pose a
      turn publishes can reach the client. */
  lemma PublishedPoseReachesClient(c: W.Config, run: Run, x: Action) returns (longer: Run)
    requires IsRun(c, run) && Shape(Last(run.states)) && Enabled(c, Last(run.states), x)
    requires TurnPublishes(c, Last(run.states), x)
    requires Last(run.states).pose.readers[0].at.Rest? && !Last(run.states).unstored
    ensures IsRun(c, longer) && run.states <= longer.states && run.steps + [x] <= longer.steps
    ensures Last(longer.states).delivered == Last(run.states).delivered + [PoseOf(c, Last(run.states), x)]
  {
    var s := Last(run.states);
    RunInv(c, run, |run.states| - 1);
    RunCursors(c, run, |run.states| - 1);
    assert Follows(c, run.states, run.steps);
    hide W.ValidConfig, Inv, Enabled, Apply, Leads, TurnPublishes, Shape, PoseOf, IsRun, Follows;
    var writes, written := WritePose(c, s, x);
    var fetches, fetched := ReadPose(c, written, PoseOf(c, s, x));
    var hands, t := HandOut(c, fetched, PoseOf(c, s, x));
    LeadsOn(c, s, [x] + writes, written, fetches, fetched);
    LeadsOn(c, s, [x] + writes + fetches, fetched, hands, t);
    var steps := [x] + writes + fetches + hands;
    var more := RunOf(c, s, steps, t);
    longer := Joined(c, run.states, run.steps, more, steps);
  }

  /** A first turn without frames. */
  function EmptyTurn(): Action {
    Turn(W.Input([None, None], ["", ""], [false, false], 0, 0, [0, 0], 0, 0), seq(L.POSE_CELLS - 1, _ => 0))
  }

  lemma FirstTurnPublishes(c: W.Config)
    requires W.ValidConfig(c)
    ensures var s, x := W.Initial(c), EmptyTurn().input;
      W.ValidInput(s, x) && W.Step(c, s, x).1 == W.EmptyPose(1)
    ensures forall i | 0 <= i < CAMERAS :: W.Step(c, W.Initial(c), EmptyTurn().input).0.cameras[i].source.sequence == 0
  {
  }

  lemma StartIsQuiet(c: W.Config)
    requires W.ValidConfig(c)
    ensures var s := Initial(c);
      && Shape(s) && s.pose.readers[0].at.Rest? && !s.unstored && s.pose.writer.Idle? && s.delivered == []
      && (forall i | 0 <= i < CAMERAS :: s.depth[i].readers[0].at.Rest? && s.depth[i].readers[0].cursor == 0)
  {
    hide W.ValidConfig, Inv, L.Initial;
    InitialInv(c);
    InvShape(Initial(c));
    InitialRecord(L.Depth);
    InitialRecord(L.Pose);
  }

  lemma FirstTurnIsEnabled(c: W.Config)
    requires W.ValidConfig(c)
    ensures Shape(Initial(c)) && Enabled(c, Initial(c), EmptyTurn()) && TurnPublishes(c, Initial(c), EmptyTurn())
    ensures PoseOf(c, Initial(c), EmptyTurn()) == [1] + EmptyTurn().body
  {
    FirstTurnPublishes(c);
    hide W.Step, W.ValidInput, W.ValidConfig, Inv, L.Initial, W.Initial;
    StartIsQuiet(c);
    var s, x := Initial(c), EmptyTurn();
    assert s.worker == W.Initial(c) && s.worker.roles.Roles? by { WorkerStarts(c); }
    assert Agrees(c, s, x.input);
  }

  lemma WorkerStarts(c: W.Config)
    ensures W.Initial(c).roles.Roles?
  {
  }

  /** In every configuration some pose of the worker reaches the client. */
  lemma SomePoseReachesClient(c: W.Config) returns (run: Run, p: Payload)
    requires W.ValidConfig(c)
    ensures IsRun(c, run)
    ensures Last(run.states).delivered == [p] && p in Last(run.states).pose.published && p != [] && p[L.KEY] == 1
  {
    hide W.ValidConfig, Shape, Enabled, Apply, TurnPublishes, PoseOf, L.Initial, W.Initial;
    StartIsQuiet(c);
    FirstTurnIsEnabled(c);
    var start := Run([Initial(c)], []);
    assert Last(start.states) == Initial(c);
    run := PublishedPoseReachesClient(c, start, EmptyTurn());
    p := [1] + EmptyTurn().body;
    Delivers(c, run, p);
  }

  lemma Delivers(c: W.Config, run: Run, p: Payload)
    requires IsRun(c, run) && Last(run.states).delivered == [p]
    ensures p in Last(run.states).pose.published
  {
    DeliveredPosesWerePublished(c, run, |run.states| - 1);
    var s := Last(run.states);
    var picks :| Picks(picks, s.pose.published, s.delivered);
    assert s.delivered[0] == p == s.pose.published[picks[0]];
  }
}
