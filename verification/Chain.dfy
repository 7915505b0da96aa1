/** The whole way of a measurement: camera capture, host, depth record, worker, pose record,
    host again, and the client that waits for skeletons.  Every hop keeps only the latest
    value, so each may skip; the chain shows that none repeats, reorders or invents. */
module Chain {
  import opened Basics
  import L = Seqlock
  import R = SeqlockRuns
  import W = Worker
  import V = WorkerRuns
  import opened Subsequence

  type Payload = seq<L.Word>

  const CAMERAS := W.CAMERA_COUNT

  /** An older pose is not handed out. */
  const POSE_AGE_MS := 2000

  /** captured: all complete frames of each camera, oldest first; the camera register holds
      the last one.  fed: the host's input cursors.  hand: the frame get_depth_frame gave the host
      and that is not published yet.  inbox: what read_depth returned in the
      worker's current iteration.  slot: the host's copy of the latest pose, and the tick of that
      copy; unstored is set
      while a pose the host has read is not copied there yet. */
  datatype State = State(
    captured: seq<seq<Payload>>,
    fed: seq<nat>,
    hand: seq<Option<Payload>>,
    depth: seq<L.State>,
    inbox: seq<Option<Payload>>,
    worker: W.State,
    pose: L.State,
    slot: seq<Payload>,
    slotTick: nat,
    unstored: bool,
    clientCursor: int,
    delivered: seq<Payload>)

  function Initial(c: W.Config): State {
    State([[], []], [0, 0], [None, None], [L.Initial(L.Depth, 1), L.Initial(L.Depth, 1)], [None, None],
          W.Initial(c), L.Initial(L.Pose, 1), [], 0, false, 0, [])
  }

  datatype Action =
    | Capture(camera: nat, frame: Payload)     // capture_frame: ++sequence
    | Take(camera: nat)                        // the locked section of get_depth_frame
    | Feed(camera: nat)                        // entering publish_depth, or its refusal
    | DepthStep(camera: nat, step: L.Action)   // any other step of a depth record
    | Turn(input: W.Input, body: Payload)      // the worker's iteration after its reads
    | PoseStep(step: L.Action)                 // any other step of the pose record
    | Store(tick: nat)                         // the host keeps the pose it has read
    | Wait(now: nat)                           // wait_for_skeleton finds a pose beyond the client's

  predicate Shape(s: State) {
    && |s.captured| == |s.fed| == |s.hand| == |s.depth| == |s.inbox| == |s.worker.cameras| == CAMERAS
    && (forall i | 0 <= i < CAMERAS :: |s.depth[i].readers| == 1)
    && (forall i | 0 <= i < CAMERAS :: |s.depth[i].cells| == L.Capacity(L.Depth))
    && |s.pose.readers| == 1 && |s.pose.cells| == L.Capacity(L.Pose)
  }

  function Last<T>(xs: seq<T>): T
    requires xs != []
  {
    xs[|xs| - 1]
  }

  /** The frames of this iteration are the ones read_depth returned. */
  predicate Reads(s: State, x: W.Input)
    requires Shape(s)
  {
    && |x.frames| == |x.serials| == |x.measured| == |x.candidateNow| == CAMERAS
    && forall i | 0 <= i < CAMERAS ::
         match s.inbox[i]
         case None => x.frames[i].None?
         case Some(p) => x.frames[i].Some? && p != [] && x.frames[i].value.sequence == p[L.KEY]
  }

  /** Whether read_depth's caller moves its cursor is decided later, by this iteration; a step
      that recorded the other decision is not an execution. */
  predicate Agrees(c: W.Config, s: State, x: W.Input)
    requires Shape(s) && W.ValidConfig(c) && W.ValidInput(s.worker, x)
  {
    forall i | 0 <= i < CAMERAS ::
      W.Step(c, s.worker, x).0.cameras[i].source.sequence == s.depth[i].readers[0].cursor
  }

  predicate Enabled(c: W.Config, s: State, x: Action)
    requires Shape(s) && W.ValidConfig(c)
  {
    match x
    case Capture(i, p) => i < CAMERAS && p != [] && p[L.KEY] == |s.captured[i]| + 1
    case Take(i) =>
      i < CAMERAS && s.captured[i] != [] && s.depth[i].writer.Idle? && s.hand[i].None? &&
      Last(s.captured[i]) != [] && s.fed[i] < Last(s.captured[i])[L.KEY]
    case Feed(i) => i < CAMERAS && s.hand[i].Some? && s.hand[i].value != [] && s.depth[i].writer.Idle?
    case DepthStep(i, a) =>
      i < CAMERAS && !a.Publish? && L.Enabled(L.Depth, s.depth[i], a) &&
      (a.Call? ==> s.inbox[i].None?)
    case Turn(x, body) =>
      && (forall i | 0 <= i < CAMERAS :: s.depth[i].readers[0].at.Rest?)
      && s.pose.writer.Idle? && |body| == L.POSE_CELLS - 1 && s.worker.roles.Roles?
      && Reads(s, x) && (W.ValidInput(s.worker, x) ==> Agrees(c, s, x))
    case PoseStep(a) =>
      !a.Publish? && L.Enabled(L.Pose, s.pose, a) && (a.Call? ==> !s.unstored)
    case Store(_) => s.unstored && s.pose.readers[0].delivered != []
    case Wait(now) =>
      s.slot != [] && s.slot[0] != [] && s.clientCursor < s.slot[0][L.KEY] && s.slotTick <= now
  }

  /** The deliveries added by a step. */
  function Mail(before: L.State, after: L.State): Option<Payload>
    requires |before.readers| == |after.readers| == 1
  {
    if |before.readers[0].delivered| < |after.readers[0].delivered|
    then Some(Last(after.readers[0].delivered).payload) else None
  }

  function Published(s: L.State, outcome: W.Outcome, body: Payload): L.State {
    if outcome.Silent? || outcome.Fault? then s else L.StartPublish(L.Pose, s, [outcome.generation] + body)
  }

  function Apply(c: W.Config, s: State, x: Action): State
    requires Shape(s) && W.ValidConfig(c) && Enabled(c, s, x)
  {
    match x
    case Capture(i, p) => s.(captured := s.captured[i := s.captured[i] + [p]])
    case Take(i) => s.(hand := s.hand[i := Some(Last(s.captured[i]))])
    case Feed(i) =>
      var p := s.hand[i].value;
      var idle := s.(hand := s.hand[i := None]);
      if L.Publishable(L.Depth, p) && 0 <= p[L.KEY] then
        idle.(depth := s.depth[i := L.Apply(L.Depth, s.depth[i], L.Publish(p))],
              fed := s.fed[i := p[L.KEY]])
      else idle
    case DepthStep(i, a) =>
      var next := L.Apply(L.Depth, s.depth[i], a);
      var mail := if |next.readers| == 1 then Mail(s.depth[i], next) else None;
      s.(depth := s.depth[i := next],
         inbox := if mail.Some? then s.inbox[i := mail] else s.inbox)
    case Turn(input, body) =>
      if W.ValidInput(s.worker, input) then
        var (worker, outcome) := W.Step(c, s.worker, input);
        s.(worker := worker, inbox := [None, None], pose := Published(s.pose, outcome, body))
      else s
    case PoseStep(a) =>
      var next := L.Apply(L.Pose, s.pose, a);
      var mail := if |next.readers| == 1 then Mail(s.pose, next) else None;
      s.(pose := next, unstored := s.unstored || mail.Some?)
    case Store(tick) =>
      s.(slot := [Last(s.pose.readers[0].delivered).payload], slotTick := tick, unstored := false)
    case Wait(now) =>
      s.(clientCursor := s.slot[0][L.KEY],
         delivered := if now - s.slotTick <= POSE_AGE_MS then s.delivered + [s.slot[0]] else s.delivered)
  }

  // ------------------------------------------------------- facts about one record

  /** Every payload a publish has begun for: the completed ones and the one under way. */
  function Begun(s: L.State): seq<Payload> {
    s.published +
    match s.writer
    case BeginTest(p, _) => [p]
    case BeginStore(p, _) => [p]
    case Copying(p, _) => [p]
    case EndStore(p, _) => [p]
    case EndTest(_, _) => []
    case Idle => []
  }

  lemma BegunStep(c: L.Channel, s: L.State, a: L.Action)
    requires L.Inv(c, s) && L.Enabled(c, s, a)
    ensures |s.cells| == L.Capacity(c)
    ensures Begun(L.Apply(c, s, a)) == Begun(s) + if a.Publish? then [a.payload] else []
  {
  }

  /** What one step may do to reader 0. */
  lemma ReaderStep(c: L.Channel, s: L.State, a: L.Action)
    requires L.Inv(c, s) && L.Enabled(c, s, a) && |s.readers| == 1 && |s.cells| == L.Capacity(c)
    ensures |L.Apply(c, s, a).readers| == 1
    ensures var r, next := s.readers[0], L.Apply(c, s, a).readers[0];
      || (next.delivered == r.delivered && next.cursor == r.cursor &&
          (r.at.Rest? && !a.Call? ==> next.at.Rest?))
      || (a.ReadSecond? && !r.at.Rest? && next.at.Rest? &&
          |next.delivered| == |r.delivered| + 1 &&
          next.delivered[..|r.delivered|] == r.delivered &&
          var d := next.delivered[|r.delivered|];
          d.advanced == a.advance && d.payload != [] && r.cursor < d.payload[L.KEY] &&
          next.cursor == if a.advance then d.payload[L.KEY] else r.cursor)
  {
    if a.ReadSecond? {
      var r := s.readers[0];
      assert L.ReaderInv(c, s, r);
      L.CopyStaysInside(c, r.at.got, r.cursor);
    }
  }

  // --------------------------------------------------------------- subsequences

  lemma SubsequenceOfMore<T>(taken: seq<T>, source: seq<T>, more: seq<T>)
    requires IsSubsequence(taken, source)
    ensures IsSubsequence(taken, source + more)
  {
    var picks :| Picks(picks, source, taken);
    assert Picks(picks, source + more, taken);
  }

  lemma PrefixIsSubsequence<T>(taken: seq<T>, source: seq<T>)
    requires taken <= source
    ensures IsSubsequence(taken, source)
  {
    assert Picks(seq(|taken|, i => i), source, taken);
  }

  ghost predicate AtMost(ps: seq<Payload>, cursor: int) {
    forall i | 0 <= i < |ps| :: 0 < |ps[i]| && ps[i][L.KEY] <= cursor
  }

  /** A reader that only takes what lies beyond its cursor takes a subsequence. */
  lemma TakeNext(taken: seq<Payload>, source: seq<Payload>, j: nat, cursor: int)
    requires IsSubsequence(taken, source) && R.Increasing(source) && AtMost(taken, cursor)
    requires j < |source| && cursor < source[j][L.KEY]
    ensures IsSubsequence(taken + [source[j]], source)
    ensures AtMost(taken + [source[j]], source[j][L.KEY])
  {
    var picks :| Picks(picks, source, taken);
    forall i | 0 <= i < |picks|
      ensures picks[i] < j
    {
      assert taken[i] == source[picks[i]] && taken[i][L.KEY] <= cursor;
    }
    assert Picks(picks + [j], source, taken + [source[j]]);
  }

  // --------------------------------------------------------------- the invariant

  /** A camera's frames carry their capture number. */
  ghost predicate Numbered(captured: seq<Payload>) {
    forall k | 0 <= k < |captured| :: captured[k] != [] && captured[k][L.KEY] == k + 1
  }

  /** The worker's cursor of one camera, against the record and the frame in hand. */
  ghost predicate CursorOk(depth: L.State, inbox: Option<Payload>, cursor: int)
    requires |depth.readers| == 1
  {
    match inbox
    case None => depth.readers[0].cursor == cursor
    case Some(p) =>
      && depth.readers[0].at.Rest? && p != [] && cursor < p[L.KEY]
      && depth.readers[0].delivered != [] && Last(depth.readers[0].delivered).payload == p
      && depth.readers[0].cursor == if Last(depth.readers[0].delivered).advanced then p[L.KEY] else cursor
  }

  /** The frame in the host's hand is one of those captured, and beyond its cursor. */
  ghost predicate HandOk(captured: seq<Payload>, fed: nat, hand: Option<Payload>) {
    hand.Some? ==> hand.value != [] && fed < hand.value[L.KEY] && hand.value in captured
  }

  ghost predicate DepthInv(captured: seq<Payload>, fed: nat, depth: L.State,
                           inbox: Option<Payload>, cursor: int) {
    && L.Inv(L.Depth, depth) && |depth.readers| == 1
    && Numbered(captured)
    && IsSubsequence(Begun(depth), captured) && AtMost(Begun(depth), fed)
    && CursorOk(depth, inbox, cursor)
  }

  ghost predicate PoseInv(pose: L.State, generation: nat) {
    && L.Inv(L.Pose, pose) && |pose.readers| == 1
    && R.Increasing(Begun(pose)) && AtMost(Begun(pose), generation)
    && forall d | d in pose.readers[0].delivered :: d.advanced
  }

  /** The poses the host has read. */
  function Received(pose: L.State): seq<Payload>
    requires |pose.readers| == 1
  {
    R.Consumed(pose.readers[0].delivered)
  }

  ghost predicate ClientInv(received: seq<Payload>, slot: seq<Payload>, unstored: bool,
                            clientCursor: int, delivered: seq<Payload>) {
    && (unstored ==> received != [])
    && (slot == [] <==> |received| == if unstored then 1 else 0)
    && (slot != [] ==>
          var j := |received| - if unstored then 2 else 1;
          0 <= j && slot == [received[j]])
    && IsSubsequence(delivered, received) && AtMost(delivered, clientCursor)
  }

  ghost predicate Inv(s: State) {
    && |s.captured| == |s.fed| == |s.hand| == |s.depth| == |s.inbox| == |s.worker.cameras| == CAMERAS
    && (forall i | 0 <= i < CAMERAS ::
         DepthInv(s.captured[i], s.fed[i], s.depth[i], s.inbox[i], s.worker.cameras[i].source.sequence))
    && (forall i | 0 <= i < CAMERAS :: HandOk(s.captured[i], s.fed[i], s.hand[i]))
    && (s.worker.roles.Roles? ==> s.worker.roles.primary < CAMERAS)
    && PoseInv(s.pose, s.worker.generation)
    && (s.unstored ==> s.pose.readers[0].at.Rest?)
    && ClientInv(Received(s.pose), s.slot, s.unstored, s.clientCursor, s.delivered)
  }

  lemma InvShape(s: State)
    requires Inv(s)
    ensures Shape(s)
  {
    forall i | 0 <= i < CAMERAS
      ensures |s.depth[i].readers| == 1 && |s.depth[i].cells| == L.Capacity(L.Depth)
    {
      assert DepthInv(s.captured[i], s.fed[i], s.depth[i], s.inbox[i],
                      s.worker.cameras[i].source.sequence);
    }
  }

  lemma InitialDepth()
    ensures DepthInv([], 0, L.Initial(L.Depth, 1), None, 0)
  {
    L.InitialInv(L.Depth, 1);
    PrefixIsSubsequence<Payload>([], []);
    assert Begun(L.Initial(L.Depth, 1)) == [];
  }

  lemma InitialPose()
    ensures PoseInv(L.Initial(L.Pose, 1), 0)
    ensures ClientInv(Received(L.Initial(L.Pose, 1)), [], false, 0, [])
  {
    L.InitialInv(L.Pose, 1);
    PrefixIsSubsequence<Payload>([], []);
    assert Begun(L.Initial(L.Pose, 1)) == [];
  }

  lemma InitialInv(c: W.Config)
    requires W.ValidConfig(c)
    ensures Inv(Initial(c))
  {
    InitialDepth();
    InitialPose();
    hide DepthInv, PoseInv, ClientInv, Received, L.Initial;
  }

  lemma NumberedIsIncreasing(captured: seq<Payload>)
    requires Numbered(captured)
    ensures R.Increasing(captured)
  {
  }

  lemma CaptureKeeps(captured: seq<Payload>, frame: Payload, fed: nat, depth: L.State,
                     inbox: Option<Payload>, cursor: int)
    requires DepthInv(captured, fed, depth, inbox, cursor)
    requires frame != [] && frame[L.KEY] == |captured| + 1
    ensures DepthInv(captured + [frame], fed, depth, inbox, cursor)
  {
    SubsequenceOfMore(Begun(depth), captured, [frame]);
  }

  lemma FeedKeeps(captured: seq<Payload>, fed: nat, depth: L.State,
                  inbox: Option<Payload>, cursor: int, p: Payload)
    requires DepthInv(captured, fed, depth, inbox, cursor) && HandOk(captured, fed, Some(p))
    requires depth.writer.Idle? && L.Publishable(L.Depth, p)
    ensures |depth.cells| == L.Capacity(L.Depth) && p != [] && 0 <= p[L.KEY]
    ensures DepthInv(captured, p[L.KEY], L.Apply(L.Depth, depth, L.Publish(p)), inbox, cursor)
  {
    var a := L.Publish(p);
    BegunStep(L.Depth, depth, a);
    ReaderStep(L.Depth, depth, a);
    L.StepKeepsInv(L.Depth, depth, a);
    NumberedIsIncreasing(captured);
    var j: nat :| j < |captured| && captured[j] == p;
    TakeNext(Begun(depth), captured, j, fed);
  }

  lemma DepthStepKeeps(captured: seq<Payload>, fed: nat, depth: L.State,
                       inbox: Option<Payload>, cursor: int, a: L.Action)
    requires DepthInv(captured, fed, depth, inbox, cursor)
    requires !a.Publish? && L.Enabled(L.Depth, depth, a) && (a.Call? ==> inbox.None?)
    ensures |depth.cells| == L.Capacity(L.Depth)
    ensures var next := L.Apply(L.Depth, depth, a);
            |next.readers| == 1 &&
            var mail := Mail(depth, next);
            DepthInv(captured, fed, next, if mail.Some? then mail else inbox, cursor)
  {
    hide L.Apply, L.Enabled, L.Inv, Begun, IsSubsequence;
    BegunStep(L.Depth, depth, a);
    ReaderStep(L.Depth, depth, a);
    L.StepKeepsInv(L.Depth, depth, a);
    assert Begun(depth) + [] == Begun(depth);
  }

  lemma ConsumedAll(ds: seq<L.Delivery>, d: L.Delivery)
    requires d.advanced
    ensures R.Consumed(ds + [d]) == R.Consumed(ds) + [d.payload]
  {
    assert (ds + [d])[..|ds + [d]| - 1] == ds;
  }

  lemma PoseStepKeeps(pose: L.State, generation: nat, a: L.Action)
    requires PoseInv(pose, generation) && !a.Publish? && L.Enabled(L.Pose, pose, a)
    ensures |pose.cells| == L.Capacity(L.Pose)
    ensures var next := L.Apply(L.Pose, pose, a);
            && PoseInv(next, generation)
            && Received(next) == Received(pose) +
                 if Mail(pose, next).Some? then [Mail(pose, next).value] else []
  {
    BegunStep(L.Pose, pose, a);
    ReaderStep(L.Pose, pose, a);
    L.StepKeepsInv(L.Pose, pose, a);
    hide L.Apply, L.Inv, Begun, R.Increasing, R.Consumed;
    var ds, next := pose.readers[0].delivered, L.Apply(L.Pose, pose, a).readers[0].delivered;
    if next != ds {
      assert next == ds + [Last(next)];
      ConsumedAll(ds, Last(next));
    }
  }

  // ------------------------------------------------------------ the worker's turn

  /** The record's promise is the worker's assumption: every frame a turn works on is newer
      than the cursor of its camera. */
  lemma TurnInputIsValid(c: W.Config, s: State, x: Action)
    requires Inv(s) && Shape(s) && W.ValidConfig(c) && Enabled(c, s, x) && x.Turn?
    ensures W.ValidInput(s.worker, x.input)
  {
    forall i | 0 <= i < CAMERAS && x.input.frames[i].Some?
      ensures s.worker.cameras[i].source.sequence < x.input.frames[i].value.sequence
    {
      assert CursorOk(s.depth[i], s.inbox[i], s.worker.cameras[i].source.sequence);
    }
  }

  /** A turn moves a camera's cursor to the frame in hand unless it leaves that frame, so exactly
      one of the two ways in which the read can be recorded agrees with it. */
  lemma TurnSettlesCursor(c: W.Config, s: W.State, x: W.Input, i: nat)
    requires W.ValidConfig(c) && W.ValidInput(s, x) && i < CAMERAS
    ensures var next := W.Step(c, s, x).0.cameras[i].source.sequence;
      || next == s.cameras[i].source.sequence
      || (x.frames[i].Some? && next == x.frames[i].value.sequence)
    ensures x.frames[i].Some? ==>
              (W.Step(c, s, x).0.cameras[i].source.sequence == x.frames[i].value.sequence <==>
                 !V.LeavesFrame(c, s, x, i))
    ensures W.Step(c, s, x).0.generation >= s.generation
    ensures !W.Step(c, s, x).1.Silent? && !W.Step(c, s, x).1.Fault? ==>
              W.Step(c, s, x).1.generation == W.Step(c, s, x).0.generation == s.generation + 1
    ensures W.Step(c, s, x).0.roles.Roles? ==> W.Step(c, s, x).0.roles.primary < CAMERAS
  {
    hide W.Intake, W.Named, W.Settled, W.RolesAfter, W.Chosen, W.ReadyFlags, W.Calibrating, V.LeavesFrame;
    if x.frames[i].Some? {
      V.FrameIsConsumedIff(c, s, x, i);
    }
    NamedCursor(c, s, x, i);
    if W.RolesAfter(c, s, x).Roles? {
      SettledCursor(c, W.RolesAfter(c, s, x).primary, s, x, i);
    }
  }

  ghost predicate CursorMoves(s: W.State, x: W.Input, i: nat, next: nat)
    requires W.ValidInput(s, x) && i < CAMERAS
  {
    next == s.cameras[i].source.sequence || (x.frames[i].Some? && next == x.frames[i].value.sequence)
  }

  lemma NamedCursor(c: W.Config, s: W.State, x: W.Input, i: nat)
    requires W.ValidInput(s, x) && i < CAMERAS
    ensures CursorMoves(s, x, i, W.Intake(c, s, x)[i].source.sequence)
    ensures CursorMoves(s, x, i, W.Named(c, s, x)[i].source.sequence)
  {
  }

  lemma SettledCursor(c: W.Config, primary: nat, s: W.State, x: W.Input, i: nat)
    requires W.ValidInput(s, x) && i < CAMERAS
    ensures CursorMoves(s, x, i, W.Settled(c, primary, s, x)[i].source.sequence)
  {
    hide W.Named;
    NamedCursor(c, s, x, i);
  }

  lemma PublishKeeps(pose: L.State, generation: nat, outcome: W.Outcome, body: Payload, after: nat)
    requires PoseInv(pose, generation) && pose.writer.Idle? && |body| == L.POSE_CELLS - 1
    requires generation <= after
    requires !outcome.Silent? && !outcome.Fault? ==> outcome.generation == after == generation + 1
    ensures PoseInv(Published(pose, outcome, body), after)
    ensures Published(pose, outcome, body).readers == pose.readers
  {
    if !outcome.Silent? && !outcome.Fault? {
      var p := [outcome.generation] + body;
      BegunStep(L.Pose, pose, L.Publish(p));
      L.StepKeepsInv(L.Pose, pose, L.Publish(p));
      var begun := Begun(pose);
      assert Begun(Published(pose, outcome, body)) == begun + [p];
      assert p[L.KEY] == after;
      assert AtMost(begun + [p], after);
      assert R.Increasing(begun + [p]);
    }
  }

  lemma TurnKeepsInv(c: W.Config, s: State, x: Action)
    requires Inv(s) && Shape(s) && W.ValidConfig(c) && Enabled(c, s, x) && x.Turn?
    ensures Inv(Apply(c, s, x))
  {
    hide W.Step, W.ValidInput, IsSubsequence, AtMost, Numbered, L.Inv, Begun, PoseInv, ClientInv,
         W.ValidConfig;
    TurnInputIsValid(c, s, x);
    var next := Apply(c, s, x);
    TurnSettlesCursor(c, s.worker, x.input, 0);
    PublishKeeps(s.pose, s.worker.generation, W.Step(c, s.worker, x.input).1, x.body,
                 next.worker.generation);
    forall i | 0 <= i < CAMERAS
      ensures DepthInv(next.captured[i], next.fed[i], next.depth[i], next.inbox[i],
                       next.worker.cameras[i].source.sequence)
    {
      assert DepthInv(s.captured[i], s.fed[i], s.depth[i], s.inbox[i],
                      s.worker.cameras[i].source.sequence);
    }
  }

  // ------------------------------------------------------------ the other steps

  lemma {:induction false} ReceivedLast(ds: seq<L.Delivery>)
    requires forall d | d in ds :: d.advanced
    ensures |R.Consumed(ds)| == |ds|
    ensures ds != [] ==> Last(R.Consumed(ds)) == Last(ds).payload
  {
    if ds != [] {
      var init := ds[..|ds| - 1];
      ReceivedLast(init);
      ConsumedAll(init, Last(ds));
      assert ds == init + [Last(ds)];
    }
  }

  lemma ReceivedIsPublished(pose: L.State, generation: nat)
    requires PoseInv(pose, generation)
    ensures IsSubsequence(Received(pose), pose.published) && R.Increasing(Received(pose))
  {
    assert L.ReaderInv(L.Pose, pose, pose.readers[0]);
    R.ConsumedFits(pose, pose.readers[0].delivered);
  }

  lemma AtMostLater(ps: seq<Payload>, cursor: int, later: int)
    requires AtMost(ps, cursor) && cursor <= later
    ensures AtMost(ps, later)
  {
  }

  lemma ReceiveKeepsClient(received: seq<Payload>, p: Payload, slot: seq<Payload>,
                           clientCursor: int, delivered: seq<Payload>)
    requires ClientInv(received, slot, false, clientCursor, delivered)
    ensures ClientInv(received + [p], slot, true, clientCursor, delivered)
  {
    SubsequenceOfMore(delivered, received, [p]);
  }

  lemma WaitKeepsClient(received: seq<Payload>, slot: seq<Payload>, unstored: bool,
                        clientCursor: int, delivered: seq<Payload>)
    requires ClientInv(received, slot, unstored, clientCursor, delivered)
    requires R.Increasing(received)
    requires slot != [] && slot[0] != [] && clientCursor < slot[0][L.KEY]
    ensures ClientInv(received, slot, unstored, slot[0][L.KEY], delivered)
    ensures ClientInv(received, slot, unstored, slot[0][L.KEY], delivered + [slot[0]])
  {
    TakeNext(delivered, received, |received| - if unstored then 2 else 1, clientCursor);
    AtMostLater(delivered, clientCursor, slot[0][L.KEY]);
  }

  lemma DepthStepsKeepInv(c: W.Config, s: State, x: Action)
    requires Inv(s) && Shape(s) && W.ValidConfig(c) && Enabled(c, s, x)
    requires x.Capture? || x.Take? || x.Feed? || x.DepthStep?
    ensures Inv(Apply(c, s, x))
  {
    hide IsSubsequence, AtMost, Numbered, L.Inv, Begun, PoseInv, ClientInv, L.Apply, L.Enabled,
         L.Publishable, Received, W.ValidConfig, CursorOk;
    var i, next := x.camera, Apply(c, s, x);
    var cursor := s.worker.cameras[i].source.sequence;
    assert DepthInv(s.captured[i], s.fed[i], s.depth[i], s.inbox[i], cursor);
    match x
    case Capture(_, p) => CaptureKeeps(s.captured[i], p, s.fed[i], s.depth[i], s.inbox[i], cursor);
    case Take(_) =>
    case Feed(_) =>
      if L.Publishable(L.Depth, s.hand[i].value) {
        FeedKeeps(s.captured[i], s.fed[i], s.depth[i], s.inbox[i], cursor, s.hand[i].value);
      }
    case DepthStep(_, a) =>
      DepthStepKeeps(s.captured[i], s.fed[i], s.depth[i], s.inbox[i], cursor, a);
  }

  lemma PoseStepsKeepInv(c: W.Config, s: State, x: Action)
    requires Inv(s) && Shape(s) && W.ValidConfig(c) && Enabled(c, s, x)
    requires x.PoseStep? || x.Store? || x.Wait?
    ensures Inv(Apply(c, s, x))
  {
    hide DepthInv, L.Inv, Begun, R.Consumed, L.Apply, L.Enabled, R.Increasing, W.ValidConfig,
         IsSubsequence, AtMost;
    ReceivedIsPublished(s.pose, s.worker.generation);
    match x
    case PoseStep(a) =>
      ReaderStep(L.Pose, s.pose, a);
      PoseStepKeeps(s.pose, s.worker.generation, a);
      var mail := Mail(s.pose, L.Apply(L.Pose, s.pose, a));
      if mail.Some? {
        ReceiveKeepsClient(Received(s.pose), mail.value, s.slot, s.clientCursor, s.delivered);
      } else {
        assert Received(s.pose) + [] == Received(s.pose);
      }
    case Store(_) => ReceivedLast(s.pose.readers[0].delivered);
    case Wait(_) =>
      WaitKeepsClient(Received(s.pose), s.slot, s.unstored, s.clientCursor, s.delivered);
  }

  lemma StepKeepsInv(c: W.Config, s: State, x: Action)
    requires Inv(s) && Shape(s) && W.ValidConfig(c) && Enabled(c, s, x)
    ensures Inv(Apply(c, s, x))
  {
    hide Inv, Apply, Enabled, W.ValidConfig;
    match x
    case Turn(_, _) => TurnKeepsInv(c, s, x);
    case Capture(_, _) => DepthStepsKeepInv(c, s, x);
    case Take(_) => DepthStepsKeepInv(c, s, x);
    case Feed(_) => DepthStepsKeepInv(c, s, x);
    case DepthStep(_, _) => DepthStepsKeepInv(c, s, x);
    case PoseStep(_) => PoseStepsKeepInv(c, s, x);
    case Store(_) => PoseStepsKeepInv(c, s, x);
    case Wait(_) => PoseStepsKeepInv(c, s, x);
  }

  // --------------------------------------------------------------------- the chain

  datatype Run = Run(states: seq<State>, steps: seq<Action>)

  ghost predicate IsRun(c: W.Config, run: Run) {
    && W.ValidConfig(c)
    && |run.states| == |run.steps| + 1
    && run.states[0] == Initial(c)
    && forall i | 0 <= i < |run.steps| ::
         && Shape(run.states[i]) && Enabled(c, run.states[i], run.steps[i])
         && run.states[i + 1] == Apply(c, run.states[i], run.steps[i])
  }

  lemma {:induction false} RunInv(c: W.Config, run: Run, t: nat)
    requires IsRun(c, run) && t < |run.states|
    ensures Inv(run.states[t]) && Shape(run.states[t])
  {
    hide Apply, Enabled, Inv, Shape;
    if t == 0 {
      InitialInv(c);
    } else {
      RunInv(c, run, t - 1);
      StepKeepsInv(c, run.states[t - 1], run.steps[t - 1]);
    }
    InvShape(run.states[t]);
  }

  lemma SubsequenceIncreases(taken: seq<Payload>, source: seq<Payload>)
    requires IsSubsequence(taken, source) && R.Increasing(source)
    ensures R.Increasing(taken)
  {
    var picks :| Picks(picks, source, taken);
  }

  lemma DepthConsumed(depth: L.State)
    requires L.Inv(L.Depth, depth) && |depth.readers| == 1
    ensures IsSubsequence(R.Consumed(depth.readers[0].delivered), depth.published)
    ensures R.Increasing(R.Consumed(depth.readers[0].delivered))
  {
    assert L.ReaderInv(L.Depth, depth, depth.readers[0]);
    R.ConsumedFits(depth, depth.readers[0].delivered);
  }

  /** The depth frames the worker consumes are captured frames of that camera: each at most
      once and in capture order, whatever was skipped on the way. */
  lemma ConsumedFramesWereCaptured(c: W.Config, run: Run, t: nat, i: nat)
    requires IsRun(c, run) && t < |run.states| && i < CAMERAS
    ensures Shape(run.states[t])
    ensures var s := run.states[t];
            var consumed := R.Consumed(s.depth[i].readers[0].delivered);
            IsSubsequence(consumed, s.captured[i]) && R.Increasing(consumed)
  {
    hide L.Inv, R.Consumed;
    RunInv(c, run, t);
    var s := run.states[t];
    var depth := s.depth[i];
    assert DepthInv(s.captured[i], s.fed[i], depth, s.inbox[i],
                    s.worker.cameras[i].source.sequence);
    DepthConsumed(depth);
    var consumed := R.Consumed(depth.readers[0].delivered);
    PrefixIsSubsequence(depth.published, Begun(depth));
    Compose(consumed, depth.published, Begun(depth));
    Compose(consumed, Begun(depth), s.captured[i]);
  }

  /** The poses a client gets were published by the worker: each at most once, in order, with
      strictly increasing generations. */
  lemma DeliveredPosesWerePublished(c: W.Config, run: Run, t: nat)
    requires IsRun(c, run) && t < |run.states|
    ensures var s := run.states[t];
      IsSubsequence(s.delivered, s.pose.published) && R.Increasing(s.delivered)
  {
    hide L.Inv, R.Consumed;
    RunInv(c, run, t);
    var s := run.states[t];
    ReceivedIsPublished(s.pose, s.worker.generation);
    SubsequenceIncreases(s.delivered, Received(s.pose));
    Compose(s.delivered, Received(s.pose), s.pose.published);
  }

  /** Every publish of the worker carries the generation of its turn, so the generations in
      the pose record only rise. */
  lemma PublishedGenerationsIncrease(c: W.Config, run: Run, t: nat)
    requires IsRun(c, run) && t < |run.states|
    ensures var s := run.states[t];
      R.Increasing(s.pose.published) && AtMost(s.pose.published, s.worker.generation)
  {
    hide L.Inv, R.Consumed;
    RunInv(c, run, t);
    var s := run.states[t];
    assert s.pose.published <= Begun(s.pose);
  }

  /** No turn of the worker ever meets a frame its cursor has passed. */
  lemma TurnsAreValid(c: W.Config, run: Run, t: nat)
    requires IsRun(c, run) && t < |run.steps| && run.steps[t].Turn?
    ensures W.ValidInput(run.states[t].worker, run.steps[t].input)
  {
    RunInv(c, run, t);
    TurnInputIsValid(c, run.states[t], run.steps[t]);
  }

  // ------------------------------------------------------- consumed and left frames

  /** The turn of step t handles the n-th read of camera i. */
  ghost predicate Handles(run: Run, t: int, i: nat, n: nat)
    requires |run.states| == |run.steps| + 1 && i < CAMERAS
  {
    && 0 <= t < |run.steps| && run.steps[t].Turn? && Shape(run.states[t])
    && run.states[t].inbox[i].Some? && |run.states[t].depth[i].readers[0].delivered| == n + 1
  }

  /** Reads are only ever added. */
  lemma {:induction false} ReadsGrow(c: W.Config, run: Run, t: nat, u: nat, i: nat)
    requires IsRun(c, run) && t <= u < |run.states| && i < CAMERAS
    ensures Shape(run.states[t]) && Shape(run.states[u])
    ensures run.states[t].depth[i].readers[0].delivered <= run.states[u].depth[i].readers[0].delivered
    decreases u - t
  {
    hide Inv, Apply, Enabled;
    RunInv(c, run, t);
    RunInv(c, run, u);
    if t < u {
      ReadsGrow(c, run, t, u - 1, i);
      ReadsStep(c, run, u - 1, i);
    }
  }

  /** How a step treats the reads of one record: it may add one to an empty inbox, and only a turn
      empties the inbox. */
  ghost predicate ReadsMove(before: L.State, inbox: Option<Payload>, after: L.State, inbox': Option<Payload>,
                            turn: bool)
    requires |before.readers| == |after.readers| == 1
  {
    var ds, ds' := before.readers[0].delivered, after.readers[0].delivered;
    || (ds' == ds && (inbox' == inbox || (turn && inbox'.None?)))
    || (|ds'| == |ds| + 1 && ds <= ds' && inbox.None? && inbox'.Some?)
  }

  lemma ReadsMoveIn(captured: seq<Payload>, fed: nat, depth: L.State, inbox: Option<Payload>, cursor: int,
                    a: L.Action)
    requires DepthInv(captured, fed, depth, inbox, cursor) && L.Enabled(L.Depth, depth, a)
    ensures |depth.cells| == L.Capacity(L.Depth)
    ensures var next := L.Apply(L.Depth, depth, a);
      && |next.readers| == 1
      && ReadsMove(depth, inbox, next, if Mail(depth, next).Some? then Mail(depth, next) else inbox, false)
  {
    ReaderStep(L.Depth, depth, a);
    hide L.Apply, L.Enabled, L.Inv, Begun, IsSubsequence;
  }

  ghost predicate ReadsMoveAt(s: State, s': State, i: nat, turn: bool)
    requires Shape(s) && Shape(s') && i < CAMERAS
  {
    ReadsMove(s.depth[i], s.inbox[i], s'.depth[i], s'.inbox[i], turn)
  }

  lemma DepthReads(c: W.Config, s: State, x: Action, i: nat)
    requires Inv(s) && Shape(s) && W.ValidConfig(c) && Enabled(c, s, x) && i < CAMERAS && x.DepthStep?
    requires Shape(Apply(c, s, x))
    ensures ReadsMoveAt(s, Apply(c, s, x), i, false)
  {
    assert DepthInv(s.captured[i], s.fed[i], s.depth[i], s.inbox[i], s.worker.cameras[i].source.sequence);
    hide DepthInv, L.Enabled, L.Apply, Inv, ReadsMove;
    if x.camera == i {
      ReadsMoveIn(s.captured[i], s.fed[i], s.depth[i], s.inbox[i], s.worker.cameras[i].source.sequence, x.step);
    } else {
      NothingMoves(s.depth[i], s.inbox[i]);
    }
  }

  lemma FeedReads(c: W.Config, s: State, x: Action, i: nat)
    requires Shape(s) && W.ValidConfig(c) && Enabled(c, s, x) && i < CAMERAS && x.Feed?
    requires Shape(Apply(c, s, x))
    ensures ReadsMoveAt(s, Apply(c, s, x), i, false)
  {
    hide L.Apply, L.Publishable, ReadsMove;
    NothingMoves(s.depth[i], s.inbox[i]);
    if x.camera == i && L.Publishable(L.Depth, s.hand[i].value) {
      FeedMoves(s.depth[i], s.inbox[i], s.hand[i].value);
    }
  }

  lemma OtherReads(c: W.Config, s: State, x: Action, i: nat)
    requires Shape(s) && W.ValidConfig(c) && Enabled(c, s, x) && i < CAMERAS && !x.Feed? && !x.DepthStep?
    requires Shape(Apply(c, s, x))
    ensures ReadsMoveAt(s, Apply(c, s, x), i, x.Turn?)
  {
    hide L.Apply, L.Enabled, W.Step, W.ValidInput, Agrees, Reads, Published;
  }

  lemma ReadsStep(c: W.Config, run: Run, t: nat, i: nat)
    requires IsRun(c, run) && t < |run.steps| && i < CAMERAS
    ensures Shape(run.states[t]) && Shape(run.states[t + 1])
    ensures ReadsMoveAt(run.states[t], run.states[t + 1], i, run.steps[t].Turn?)
  {
    hide Inv, Apply, Enabled, Shape, ReadsMoveAt;
    RunInv(c, run, t);
    RunInv(c, run, t + 1);
    var s, x := run.states[t], run.steps[t];
    assert Enabled(c, s, x) && run.states[t + 1] == Apply(c, s, x);
    match x
    case DepthStep(_, _) => DepthReads(c, s, x, i);
    case Feed(_) => FeedReads(c, s, x, i);
    case _ => OtherReads(c, s, x, i);
  }

  lemma NothingMoves(depth: L.State, inbox: Option<Payload>)
    requires |depth.readers| == 1
    ensures ReadsMove(depth, inbox, depth, inbox, false)
  {
  }

  lemma FeedMoves(depth: L.State, inbox: Option<Payload>, p: Payload)
    requires |depth.readers| == 1 && L.Enabled(L.Depth, depth, L.Publish(p)) && |depth.cells| == L.Capacity(L.Depth)
    ensures |L.Apply(L.Depth, depth, L.Publish(p)).readers| == 1
    ensures ReadsMove(depth, inbox, L.Apply(L.Depth, depth, L.Publish(p)), inbox, false)
  {
  }

  /** Every read is handled by a turn, or is still in the inbox. */
  lemma {:induction false} EveryReadIsHandled(c: W.Config, run: Run, u: nat, i: nat, n: nat)
    requires IsRun(c, run) && u < |run.states| && i < CAMERAS
    ensures Shape(run.states[u])
    ensures n < |run.states[u].depth[i].readers[0].delivered| ==>
              || (n == |run.states[u].depth[i].readers[0].delivered| - 1 && run.states[u].inbox[i].Some?)
              || exists t :: t < u && Handles(run, t, i, n)
  {
    hide Inv, Apply, Enabled, W.ValidConfig;
    RunInv(c, run, u);
    if 0 < u {
      EveryReadIsHandled(c, run, u - 1, i, n);
      ReadsStep(c, run, u - 1, i);
      assert Handles(run, u - 1, i, n) || !Handles(run, u - 1, i, n);
    }
  }

  /** In every run a frame the worker has read is consumed exactly if the turn that handles it does
      not leave it; in a turn that does not fail, exactly if the camera is not one that is done
      calibrating while the other still is. */
  lemma ReadIsConsumedIff(c: W.Config, run: Run, t: nat, u: nat, i: nat, n: nat)
    requires IsRun(c, run) && i < CAMERAS && Handles(run, t, i, n) && t <= u < |run.states|
    ensures Shape(run.states[u]) && n < |run.states[u].depth[i].readers[0].delivered|
    ensures W.ValidInput(run.states[t].worker, run.steps[t].input)
    ensures var s, x, advanced := run.states[t].worker, run.steps[t].input,
                                  run.states[u].depth[i].readers[0].delivered[n].advanced;
      && (advanced <==> !V.LeavesFrame(c, s, x, i))
      && (!V.Faults(c, s, x) ==>
            (advanced <==> !(W.Calibrating(c, W.Intake(c, s, x)) && s.cameras[i].hasBackground)))
  {
    RunInv(c, run, t);
    ReadsGrow(c, run, t, u, i);
    TurnsAreValid(c, run, t);
    var s, x := run.states[t], run.steps[t].input;
    assert DepthInv(s.captured[i], s.fed[i], s.depth[i], s.inbox[i], s.worker.cameras[i].source.sequence);
    assert Enabled(c, s, run.steps[t]);
    V.FrameIsConsumedIff(c, s.worker, x, i);
    hide L.Inv, L.Enabled, W.Step, IsSubsequence, V.LeavesFrame, V.Faults, W.Calibrating, W.Intake, Apply, Inv;
  }
}
