/** analysis_loop with the SPiKE backend: retained samples, prediction, hold and departure. */
module HoldLoop {
  import opened Length
  import opened PointCloud
  import opened Prediction

  /** What hardware_wait_for_skeleton brought, if anything.  timed: the source time is known. */
  datatype Sample = NoSample | Sample(valid: bool, timed: bool, timeMs: real, body: Body)

  /** One turn's reads from outside: the sample, the callback clock and the tick counter. */
  datatype Input = Input(sample: Sample, callbackMs: real, now: nat)

  datatype Config = Config(holdMs: nat, predictionMs: real)

  datatype State = State(
    body: Body,
    lastDetected: nat,
    lastWorkerValid: bool,
    previous: Body,
    latest: Body,
    previousMs: real,
    latestMs: real,
    havePrevious: bool,
    haveLatest: bool)

  const TIME_STEP := 0.001
  const MAXIMUM_GAP := 250.0

  function EmptyBody(): (b: Body)
    ensures ValidBody(b)
  {
    Body(0, seq(JOINTS, _ => Joint(Point(0.0, 0.0, 0.0), 0)))
  }

  function Initial(): State {
    State(EmptyBody(), 0, false, EmptyBody(), EmptyBody(), 0.0, 0.0, false, false)
  }

  predicate ValidState(s: State) {
    ValidBody(s.body) && ValidBody(s.previous) && ValidBody(s.latest)
  }

  const FULLY_TRACKED := 2

  /** A valid sample is mapped to a fully tracked body. */
  predicate ValidInput(x: Input) {
    x.sample.Sample? ==>
      ValidBody(x.sample.body) && (x.sample.valid ==> x.sample.body.state == FULLY_TRACKED)
  }

  predicate Detected(x: Input) {
    x.sample.Sample? && x.sample.valid
  }

  /** Keeping the two newest samples of one continuous stretch. */
  function Retain(s: State, timeMs: real, body: Body): State {
    if !s.haveLatest || s.latestMs + TIME_STEP < timeMs then
      var continuous := s.haveLatest && timeMs - s.latestMs <= MAXIMUM_GAP;
      var kept := if continuous then s.(previous := s.latest, previousMs := s.latestMs, havePrevious := true)
                  else s.(havePrevious := false);
      kept.(latest := body, latestMs := timeMs, haveLatest := true)
    else if timeMs < s.latestMs - TIME_STEP then
      s.(latest := body, latestMs := timeMs, haveLatest := true, havePrevious := false)
    else s
  }

  function TakeIn(s: State, x: Input): State {
    var heard := if x.sample.Sample? then s.(lastWorkerValid := x.sample.valid) else s;
    if !Detected(x) then heard
    else if x.sample.timed then Retain(heard, x.sample.timeMs, x.sample.body)
    else heard.(body := x.sample.body)
  }

  /** The body of this turn: the latest sample, extrapolated if there is one before it. */
  function Resample(len: LengthFunction, c: Config, s: State, callbackMs: real): (r: State)
    requires ValidState(s)
    ensures ValidState(r)
  {
    if !s.haveLatest then s
    else if !s.havePrevious then s.(body := s.latest)
    else s.(body := Predicted(len, s.previous, s.latest,
      Clock(s.previousMs, s.latestMs, callbackMs, c.predictionMs, DEFAULT_HORIZON_MS)))
  }

  predicate WithinHold(c: Config, s: State, now: nat) {
    s.body.state != 0 && s.lastDetected != 0 && s.lastDetected <= now && now - s.lastDetected <= c.holdMs
  }

  function Demote(j: Joint): Joint {
    if j.state != 0 then j.(state := 1) else j
  }

  function Inferred(b: Body): (r: Body)
    ensures |r.joints| == |b.joints|
  {
    Body(1, seq(|b.joints|, j requires 0 <= j < |b.joints| => Demote(b.joints[j])))
  }

  function Settle(c: Config, s: State, x: Input): (r: State)
    requires ValidState(s)
    ensures ValidState(r)
  {
    if Detected(x) then s.(lastDetected := x.now)
    else if x.sample.NoSample? && s.lastWorkerValid && WithinHold(c, s, x.now) then s
    else if WithinHold(c, s, x.now) then s.(body := Inferred(s.body))
    else s.(body := EmptyBody(), haveLatest := false, havePrevious := false, lastWorkerValid := false)
  }

  function Step(len: LengthFunction, c: Config, s: State, x: Input): (r: State)
    requires ValidState(s) && ValidInput(x)
    ensures ValidState(r)
  {
    Settle(c, Resample(len, c, TakeIn(s, x), x.callbackMs), x)
  }

  // ------------------------------------------------------------ the loop's own form

  class Analysis {
    const config: Config
    var body: Body
    var lastDetected: nat
    var lastWorkerValid: bool
    var previous: Body
    var latest: Body
    var previousMs: real
    var latestMs: real
    var havePrevious: bool
    var haveLatest: bool

    ghost function Value(): State
      reads this
    {
      State(body, lastDetected, lastWorkerValid, previous, latest, previousMs, latestMs,
            havePrevious, haveLatest)
    }

    constructor (c: Config)
      ensures config == c && Value() == Initial()
    {
      config := c;
      body, previous, latest := EmptyBody(), EmptyBody(), EmptyBody();
      lastDetected, lastWorkerValid := 0, false;
      previousMs, latestMs, havePrevious, haveLatest := 0.0, 0.0, false, false;
    }

    method Hear(sample: Sample)
      modifies this
      ensures Value() == TakeIn(old(Value()), Input(sample, 0.0, 0))
    {
      if sample.NoSample? {
        return;
      }
      lastWorkerValid := sample.valid;
      if !sample.valid {
        return;
      }
      if !sample.timed {
        body := sample.body;
        return;
      }
      var advanced := !haveLatest || sample.timeMs > latestMs + TIME_STEP;
      if advanced {
        if haveLatest && sample.timeMs - latestMs <= MAXIMUM_GAP {
          previous := latest;
          previousMs := latestMs;
          havePrevious := true;
        } else {
          havePrevious := false;
        }
        latest, latestMs, haveLatest := sample.body, sample.timeMs, true;
      } else if sample.timeMs < latestMs - TIME_STEP {
        latest, latestMs, haveLatest := sample.body, sample.timeMs, true;
        havePrevious := false;
      }
    }

    /** One turn; the submitted body is the body field afterwards. */
    method Turn(len: LengthFunction, x: Input)
      requires ValidState(Value()) && ValidInput(x)
      modifies this
      ensures Value() == Step(len, config, old(Value()), x)
    {
      hide Predicted;
      Hear(x.sample);
      if haveLatest {
        body := latest;
        if havePrevious {
          body := PredictBody(len, previous, latest,
            Clock(previousMs, latestMs, x.callbackMs, config.predictionMs, DEFAULT_HORIZON_MS));
        }
      }
      if x.sample.Sample? && x.sample.valid {
        lastDetected := x.now;
        return;
      }
      var grace := body.state != 0 && lastDetected != 0 && lastDetected <= x.now &&
        x.now - lastDetected <= config.holdMs;
      if x.sample.NoSample? && lastWorkerValid && grace {
      } else if grace {
        MarkInferred();
      } else {
        body := EmptyBody();
        haveLatest, havePrevious, lastWorkerValid := false, false, false;
      }
    }

    method MarkInferred()
      modifies this`body
      ensures body == Inferred(old(body))
    {
      body := body.(state := 1);
      for j := 0 to |body.joints|
        invariant body.state == 1 && |body.joints| == |old(body).joints|
        invariant forall i | 0 <= i < j :: body.joints[i] == Demote(old(body).joints[i])
        invariant forall i | j <= i < |body.joints| :: body.joints[i] == old(body).joints[i]
      {
        if body.joints[j].state != 0 {
          body := body.(joints := body.joints[j := body.joints[j].(state := 1)]);
        }
      }
    }
  }

  // -------------------------------------------------------------------- whole runs

  /** states[i] turns into states[i + 1] on inputs[i]. */
  datatype Run = Run(states: seq<State>, inputs: seq<Input>)

  ghost predicate IsRun(len: LengthFunction, c: Config, run: Run) {
    && |run.states| == |run.inputs| + 1
    && run.states[0] == Initial()
    && forall i | 0 <= i < |run.inputs| ::
         && ValidState(run.states[i]) && ValidInput(run.inputs[i])
         && run.states[i + 1] == Step(len, c, run.states[i], run.inputs[i])
  }

  /** The last sample the worker delivered before turn n, and when. */
  datatype News = Nothing | News(valid: bool, now: nat)

  function LastNews(inputs: seq<Input>): News {
    if inputs == [] then Nothing
    else
      var x := inputs[|inputs| - 1];
      if x.sample.Sample? then News(x.sample.valid, x.now) else LastNews(inputs[..|inputs| - 1])
  }

  ghost predicate Inv(s: State, news: News) {
    && (s.lastWorkerValid ==> news.News? && news.valid && news.now == s.lastDetected)
    && (s.havePrevious ==>
          s.haveLatest && TIME_STEP < s.latestMs - s.previousMs <= MAXIMUM_GAP)
  }

  lemma StepKeepsInv(len: LengthFunction, c: Config, s: State, x: Input, news: News)
    requires ValidState(s) && ValidInput(x) && Inv(s, news)
    ensures Inv(Step(len, c, s, x), if x.sample.Sample? then News(x.sample.valid, x.now) else news)
  {
    hide Predicted;
  }

  lemma {:induction false} RunInv(len: LengthFunction, c: Config, run: Run, t: nat)
    requires IsRun(len, c, run) && t < |run.states|
    ensures ValidState(run.states[t]) && Inv(run.states[t], LastNews(run.inputs[..t]))
  {
    hide Step, Inv;
    if t == 0 {
      StartInv();
    } else {
      RunInv(len, c, run, t - 1);
      StepKeepsInv(len, c, run.states[t - 1], run.inputs[t - 1], LastNews(run.inputs[..t - 1]));
      assert run.inputs[..t][..t - 1] == run.inputs[..t - 1];
    }
  }

  lemma StartInv()
    ensures Inv(Initial(), Nothing) && ValidState(Initial())
  {
  }

  /** Whether a joint state is the tracked one (anything but 0 and 1). */
  predicate IsTracked(j: Joint) {
    j.state != 0 && j.state != 1
  }

  /** A tracked joint is only ever submitted while the last sample the worker delivered was
      valid and came within the hold time. */
  lemma TrackedMeansRecentlyValid(len: LengthFunction, c: Config, run: Run, t: nat, joint: nat)
    requires IsRun(len, c, run) && t < |run.inputs| && joint < JOINTS
    requires ValidState(run.states[t + 1]) && IsTracked(run.states[t + 1].body.joints[joint])
    ensures var news := LastNews(run.inputs[..t + 1]);
      news.News? && news.valid && news.now <= run.inputs[t].now &&
      run.inputs[t].now - news.now <= c.holdMs
  {
    hide Predicted, Retain;
    RunInv(len, c, run, t);
    var s, x := run.states[t], run.inputs[t];
    assert run.inputs[..t + 1][..t] == run.inputs[..t];
    assert run.states[t + 1] == Step(len, c, s, x);
    RetainKeepsHistory(s.(lastWorkerValid := true), x);
  }

  lemma RetainKeepsHistory(s: State, x: Input)
    ensures x.sample.Sample? ==> Retain(s, x.sample.timeMs, x.sample.body).lastDetected == s.lastDetected
  {
  }

  // ------------------------------------------------------------ hold and departure

  /** The tick counter never goes back, and has left zero. */
  ghost predicate TicksRise(inputs: seq<Input>) {
    && (forall i | 0 <= i < |inputs| :: 0 < inputs[i].now)
    && forall i, j | 0 <= i <= j < |inputs| :: inputs[i].now <= inputs[j].now
  }

  /** The last turn that received a valid sample, or -1. */
  function LastDetected(inputs: seq<Input>): (v: int)
    ensures -1 <= v < |inputs|
    ensures 0 <= v ==> Detected(inputs[v])
  {
    if inputs == [] then -1
    else if Detected(inputs[|inputs| - 1]) then |inputs| - 1
    else LastDetected(inputs[..|inputs| - 1])
  }

  ghost predicate SameStates(a: Body, b: Body) {
    |a.joints| == |b.joints| && forall j | 0 <= j < |a.joints| :: a.joints[j].state == b.joints[j].state
  }

  ghost predicate DemotedStates(a: Body, b: Body) {
    |a.joints| == |b.joints| &&
    forall j | 0 <= j < |a.joints| :: a.joints[j].state == if b.joints[j].state != 0 then 1 else 0
  }

  /** The loop while it holds the body it had after the last valid sample: as it was while that
      sample is the last one, and inferred once an invalid one has followed. */
  ghost predicate Holding(s: State, base: Body, newsValid: bool) {
    && s.body.state != 0
    && (if newsValid then SameStates(s.body, base) else DemotedStates(s.body, base))
    && (s.haveLatest ==> s.latest.state != 0 && SameStates(s.latest, base))
    && s.lastWorkerValid == newsValid
  }

  ghost predicate Departed(s: State) {
    s.body == EmptyBody() && !s.haveLatest && !s.havePrevious && !s.lastWorkerValid
  }

  ghost predicate LatestOk(s: State) {
    s.haveLatest ==> s.latest.state == FULLY_TRACKED
  }

  lemma DetectionStartsHold(len: LengthFunction, c: Config, s: State, x: Input)
    requires ValidState(s) && ValidInput(x) && LatestOk(s) && Detected(x)
    ensures var next := Step(len, c, s, x);
      Holding(next, next.body, true) && LatestOk(next) && next.lastDetected == x.now
  {
    hide Predicted;
  }

  lemma HoldStep(len: LengthFunction, c: Config, s: State, x: Input, base: Body, newsValid: bool)
    requires ValidState(s) && ValidInput(x) && LatestOk(s) && !Detected(x) && ValidBody(base)
    requires Holding(s, base, newsValid) && s.lastDetected != 0 && s.lastDetected <= x.now
    requires x.now - s.lastDetected <= c.holdMs
    ensures var next := Step(len, c, s, x);
      && Holding(next, base, newsValid && x.sample.NoSample?) && LatestOk(next)
      && next.lastDetected == s.lastDetected
  {
    hide Predicted;
  }

  lemma DepartureStep(len: LengthFunction, c: Config, s: State, x: Input)
    requires ValidState(s) && ValidInput(x) && LatestOk(s) && !Detected(x)
    requires Departed(s) || (s.lastDetected <= x.now && c.holdMs < x.now - s.lastDetected)
    ensures Departed(Step(len, c, s, x)) && LatestOk(Step(len, c, s, x))
    ensures Step(len, c, s, x).lastDetected == s.lastDetected
  {
    hide Predicted;
  }

  /** Whether the last valid sample, at turn v, is recent enough at turn t. */
  predicate IsHeld(c: Config, inputs: seq<Input>, v: int, t: int) {
    0 <= v <= t < |inputs| && inputs[t].now - inputs[v].now <= c.holdMs
  }

  predicate NewsIsValid(inputs: seq<Input>) {
    LastNews(inputs).News? && LastNews(inputs).valid
  }

  /** Where the loop stands after the first t turns. */
  ghost predicate Stands(c: Config, run: Run, t: nat)
    requires t <= |run.inputs| < |run.states|
  {
    var s, v := run.states[t], LastDetected(run.inputs[..t]);
    && ValidState(s) && LatestOk(s)
    && s.lastDetected == (if 0 <= v then run.inputs[v].now else 0)
    && if IsHeld(c, run.inputs, v, t - 1)
       then ValidBody(run.states[v + 1].body) && Holding(s, run.states[v + 1].body, NewsIsValid(run.inputs[..t]))
       else Departed(s)
  }

  lemma {:induction false} RunStands(len: LengthFunction, c: Config, run: Run, t: nat)
    requires IsRun(len, c, run) && TicksRise(run.inputs) && t < |run.states|
    ensures Stands(c, run, t)
  {
    if 0 < t {
      RunStands(len, c, run, t - 1);
      var s, x, v := run.states[t - 1], run.inputs[t - 1], LastDetected(run.inputs[..t - 1]);
      assert run.inputs[..t][..t - 1] == run.inputs[..t - 1];
      assert run.states[t - 1 + 1] == Step(len, c, s, x);
      hide Step, Holding, Departed, LatestOk;
      if Detected(x) {
        DetectionStartsHold(len, c, s, x);
      } else if IsHeld(c, run.inputs, v, t - 1) {
        assert run.inputs[t - 2].now <= run.inputs[t - 1].now;
        assert run.inputs[v].now <= run.inputs[t - 1].now;
        HoldStep(len, c, s, x, run.states[v + 1].body, NewsIsValid(run.inputs[..t - 1]));
      } else {
        if 0 <= v {
          assert run.inputs[v].now <= run.inputs[t - 1].now;
        } else {
          assert Departed(s);
        }
        DepartureStep(len, c, s, x);
      }
    } else {
      hide Step;
    }
  }

  /** In every run, while the last valid sample (of turn v) is within the hold time no joint of
      the body submitted then vanishes: the joints keep their states while the worker is merely
      silent, and are inferred from the first invalid sample on. */
  lemma HoldKeepsJoints(len: LengthFunction, c: Config, run: Run, t: nat, joint: nat)
    requires IsRun(len, c, run) && TicksRise(run.inputs) && t < |run.inputs| && joint < JOINTS
    requires IsHeld(c, run.inputs, LastDetected(run.inputs[..t + 1]), t)
    ensures var v := LastDetected(run.inputs[..t + 1]);
      && ValidState(run.states[t + 1]) && ValidState(run.states[v + 1])
      && var submitted, earlier := run.states[t + 1].body.joints[joint].state,
                                 run.states[v + 1].body.joints[joint].state;
         submitted == if NewsIsValid(run.inputs[..t + 1]) then earlier else if earlier != 0 then 1 else 0
  {
    hide Step, Inv;
    RunStands(len, c, run, t + 1);
    RunInv(len, c, run, LastDetected(run.inputs[..t + 1]) + 1);
  }

  /** In every run the submitted body is the empty one, and nothing is retained, exactly when no
      valid sample came within the hold time. */
  lemma DepartureForgets(len: LengthFunction, c: Config, run: Run, t: nat)
    requires IsRun(len, c, run) && TicksRise(run.inputs) && t < |run.inputs|
    ensures run.states[t + 1].body == EmptyBody() <==>
            !IsHeld(c, run.inputs, LastDetected(run.inputs[..t + 1]), t)
    ensures run.states[t + 1].body == EmptyBody() ==> Departed(run.states[t + 1])
  {
    RunStands(len, c, run, t + 1);
  }

  /** Velocities are only ever taken from two samples of one continuous stretch. */
  lemma PreviousIsContinuous(len: LengthFunction, c: Config, run: Run, t: nat)
    requires IsRun(len, c, run) && t < |run.states|
    ensures var s := run.states[t];
      s.havePrevious ==> s.haveLatest && TIME_STEP < s.latestMs - s.previousMs <= MAXIMUM_GAP
  {
    RunInv(len, c, run, t);
  }

  /** Whatever is submitted lies within half a metre of the retained measurement. */
  lemma SubmittedStaysNear(len: LengthFunction, c: Config, run: Run, t: nat, joint: nat)
    requires IsLength(len) && IsRun(len, c, run) && t < |run.inputs| && joint < JOINTS
    requires run.states[t + 1].haveLatest
    ensures ValidState(run.states[t + 1])
    ensures len(Minus(run.states[t + 1].body.joints[joint].position,
                      run.states[t + 1].latest.joints[joint].position)) <= 0.5
  {
    hide IsLength, Predicted;
    RunInv(len, c, run, t + 1);
    var s, x := run.states[t], run.inputs[t];
    assert ValidState(s) && run.states[t + 1] == Step(len, c, s, x);
    var taken := TakeIn(s, x);
    LengthOfZero(len);
    if taken.havePrevious {
      PredictionStaysNear(len, taken.previous, taken.latest,
        Clock(taken.previousMs, taken.latestMs, x.callbackMs, c.predictionMs, DEFAULT_HORIZON_MS), joint);
    }
  }

  // ------------------------------------------------------------ what is submitted

  /** A valid sample with a source time. */
  predicate IsTimed(x: Input) {
    x.sample.Sample? && x.sample.valid && x.sample.timed
  }

  /** The sample of turn v is the one retained before turn t: every later one had its source time,
      within a microsecond. */
  ghost predicate IsNewest(run: Run, t: nat, v: nat)
    requires t < |run.states| && |run.states| == |run.inputs| + 1
  {
    && v < t && IsTimed(run.inputs[v])
    && run.states[t].latest == run.inputs[v].sample.body && run.states[t].latestMs == run.inputs[v].sample.timeMs
    && forall u | v < u < t && IsTimed(run.inputs[u]) :: -0.001 <= run.inputs[u].sample.timeMs - run.states[t].latestMs <= 0.001
  }

  /** The one before it is retained too exactly if it is earlier, by at most 250 ms. */
  ghost predicate BeforeNewest(run: Run, t: nat, v: nat)
    requires t < |run.states| && |run.states| == |run.inputs| + 1 && v < t
  {
    var s, earlier := run.states[t], run.states[v];
    && (s.havePrevious <==> earlier.haveLatest && 0.001 < s.latestMs - earlier.latestMs <= 250.0)
    && (s.havePrevious ==> s.previous == earlier.latest && s.previousMs == earlier.latestMs)
  }

  ghost predicate Retains(run: Run, t: nat)
    requires t < |run.states| && |run.states| == |run.inputs| + 1
  {
    run.states[t].haveLatest ==> exists v: nat :: v < t && IsNewest(run, t, v) && BeforeNewest(run, t, v)
  }

  /** How a turn treats the retained samples: they are forgotten, replaced by a timed sample of
      another time, or kept. */
  lemma RetainedStep(len: LengthFunction, c: Config, s: State, x: Input)
    requires ValidState(s) && ValidInput(x)
    ensures var next := Step(len, c, s, x);
      && (IsTimed(x) ==> next.haveLatest)
      && (next.haveLatest ==>
            if IsTimed(x) && (!s.haveLatest || x.sample.timeMs - s.latestMs < -0.001 || 0.001 < x.sample.timeMs - s.latestMs)
            then
              && next.latest == x.sample.body && next.latestMs == x.sample.timeMs
              && (next.havePrevious <==> s.haveLatest && 0.001 < x.sample.timeMs - s.latestMs <= 250.0)
              && (next.havePrevious ==> next.previous == s.latest && next.previousMs == s.latestMs)
            else
              && s.haveLatest && next.latest == s.latest && next.latestMs == s.latestMs
              && next.havePrevious == s.havePrevious && next.previous == s.previous && next.previousMs == s.previousMs)
  {
    hide Predicted;
  }

  /** In every run the retained samples are the newest timed ones, and a timed sample is retained. */
  lemma {:induction false} RetainedAreNewest(len: LengthFunction, c: Config, run: Run, t: nat)
    requires IsRun(len, c, run) && t < |run.states|
    ensures Retains(run, t)
    ensures 0 < t && IsTimed(run.inputs[t - 1]) ==> run.states[t].haveLatest
  {
    hide Step;
    if 0 < t {
      RetainedAreNewest(len, c, run, t - 1);
      var s, x := run.states[t - 1], run.inputs[t - 1];
      assert run.states[t - 1 + 1] == Step(len, c, s, x);
      RetainedStep(len, c, s, x);
      if run.states[t].haveLatest {
        if IsTimed(x) && (!s.haveLatest || x.sample.timeMs - s.latestMs < -0.001 || 0.001 < x.sample.timeMs - s.latestMs) {
          assert IsNewest(run, t, t - 1) && BeforeNewest(run, t, t - 1);
        } else {
          var v: nat :| v < t - 1 && IsNewest(run, t - 1, v) && BeforeNewest(run, t - 1, v);
          assert IsNewest(run, t, v) && BeforeNewest(run, t, v);
        }
      }
    }
  }

  /** The retained samples, continued to the callback over at most 100 ms. */
  function Continued(len: LengthFunction, c: Config, s: State, callbackMs: real): (b: Body)
    requires ValidState(s)
    ensures ValidBody(b)
  {
    if s.havePrevious then
      Predicted(len, s.previous, s.latest, Clock(s.previousMs, s.latestMs, callbackMs, c.predictionMs, 100.0))
    else s.latest
  }

  /** In every run the submitted body is the continuation of the retained samples, its joints merely
      inferred unless the worker's last sample was valid; a valid sample without a time is submitted
      as it is when none is retained. */
  lemma SubmittedIsContinued(len: LengthFunction, c: Config, run: Run, t: nat)
    requires IsRun(len, c, run) && t < |run.inputs|
    ensures ValidState(run.states[t + 1])
    ensures var s, x := run.states[t + 1], run.inputs[t];
      && (s.haveLatest ==>
            var b := Continued(len, c, s, x.callbackMs);
            if s.lastWorkerValid then s.body == b
            else
              && s.body.state == 1
              && forall j | 0 <= j < JOINTS ::
                   && s.body.joints[j].position == b.joints[j].position
                   && s.body.joints[j].state == if b.joints[j].state != 0 then 1 else 0)
      && (!s.haveLatest && x.sample.Sample? && x.sample.valid ==> s.body == x.sample.body)
      && (x.sample.Sample? && x.sample.valid ==> s.lastWorkerValid)
  {
    hide Predicted;
    RunInv(len, c, run, t);
    RunInv(len, c, run, t + 1);
    assert run.states[t + 1] == Step(len, c, run.states[t], run.inputs[t]);
  }
}
