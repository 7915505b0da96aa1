/** Sequences of steps of the chain, and the runs they make. */
module ChainSteps {
  import opened Chain
  import L = Seqlock
  import R = SeqlockRuns
  import W = Worker

  /** The steps xs are possible one after another and lead from s to t. */
  ghost predicate Leads(c: W.Config, s: State, xs: seq<Action>, t: State)
    requires W.ValidConfig(c)
    decreases |xs|
  {
    if xs == [] then s == t
    else Shape(s) && Enabled(c, s, xs[0]) && Leads(c, Apply(c, s, xs[0]), xs[1..], t)
  }

  lemma {:induction false} LeadsOn(c: W.Config, s: State, xs: seq<Action>, t: State, ys: seq<Action>, u: State)
    requires W.ValidConfig(c) && Leads(c, s, xs, t) && Leads(c, t, ys, u)
    ensures Leads(c, s, xs + ys, u)
    decreases |xs|
  {
    hide Apply, Enabled, Shape, W.ValidConfig;
    if xs == [] {
      assert xs + ys == ys;
    } else {
      assert (xs + ys)[1..] == xs[1..] + ys;
      LeadsOn(c, Apply(c, s, xs[0]), xs[1..], t, ys, u);
    }
  }

  lemma LeadsOne(c: W.Config, s: State, x: Action)
    requires W.ValidConfig(c) && Inv(s) && Shape(s) && Enabled(c, s, x)
    ensures Leads(c, s, [x], Apply(c, s, x))
    ensures Inv(Apply(c, s, x)) && Shape(Apply(c, s, x))
  {
    hide Apply, Enabled, Inv, Shape;
    StepKeepsInv(c, s, x);
    InvShape(Apply(c, s, x));
    assert Leads(c, Apply(c, s, x), [], Apply(c, s, x));
    assert [x][1..] == [];
  }

  ghost predicate StepOf(c: W.Config, states: seq<State>, xs: seq<Action>, i: int)
    requires W.ValidConfig(c) && |states| == |xs| + 1 && 0 <= i < |xs|
  {
    Shape(states[i]) && Enabled(c, states[i], xs[i]) && states[i + 1] == Apply(c, states[i], xs[i])
  }

  /** The steps xs lead through the states. */
  ghost predicate Follows(c: W.Config, states: seq<State>, xs: seq<Action>)
    requires W.ValidConfig(c)
  {
    && |states| == |xs| + 1
    && forall i | 0 <= i < |xs| :: StepOf(c, states, xs, i)
  }

  lemma {:induction false} RunOf(c: W.Config, s: State, xs: seq<Action>, t: State) returns (states: seq<State>)
    requires W.ValidConfig(c) && Leads(c, s, xs, t)
    ensures Follows(c, states, xs) && states[0] == s && states[|xs|] == t
    decreases |xs|
  {
    if xs == [] {
      states := [s];
    } else {
      hide Apply, Enabled, Shape;
      var rest := RunOf(c, Apply(c, s, xs[0]), xs[1..], t);
      states := [s] + rest;
      forall k | 0 <= k < |xs|
        ensures StepOf(c, states, xs, k)
      {
        if 0 < k {
          assert StepOf(c, rest, xs[1..], k - 1);
        }
      }
    }
  }

  lemma LeadsInv(c: W.Config, s: State, xs: seq<Action>, t: State)
    requires W.ValidConfig(c) && Inv(s) && Leads(c, s, xs, t)
    ensures Inv(t) && Shape(t)
    decreases |xs|
  {
    hide Apply, Enabled, Inv, Shape;
    InvShape(s);
    if xs != [] {
      StepKeepsInv(c, s, xs[0]);
      LeadsInv(c, Apply(c, s, xs[0]), xs[1..], t);
    }
  }

  lemma NoSteps(c: W.Config, s: State)
    requires W.ValidConfig(c)
    ensures Leads(c, s, [], s)
  {
  }

  lemma InitialRecord(channel: L.Channel)
    ensures var d := L.Initial(channel, 1);
      d.readers == [L.Reader(0, L.Rest, [])] && d.writer.Idle? && d.published == []
  {
  }
  lemma Joined(c: W.Config, states: seq<State>, xs: seq<Action>, more: seq<State>, ys: seq<Action>)
    returns (run: Run)
    requires W.ValidConfig(c) && Follows(c, states, xs) && Follows(c, more, ys)
    requires states[0] == Initial(c) && more[0] == Last(states)
    ensures IsRun(c, run) && |run.states| == |xs| + |ys| + 1
    ensures run.states[|xs|] == more[0] && Last(run.states) == Last(more)
    ensures states <= run.states && run.steps == xs + ys
  {
    run := Run(states + more[1..], xs + ys);
    JoinedStates(states, more);
    hide Enabled, Apply, Shape, Initial;
    forall k | 0 <= k < |run.steps|
      ensures Shape(run.states[k]) && Enabled(c, run.states[k], run.steps[k])
      ensures run.states[k + 1] == Apply(c, run.states[k], run.steps[k])
    {
      if k < |xs| {
        assert StepOf(c, states, xs, k);
      } else {
        assert StepOf(c, more, ys, k - |xs|);
      }
    }
  }

  lemma JoinedStates(states: seq<State>, more: seq<State>)
    requires states != [] && more != [] && more[0] == Last(states)
    ensures var all := states + more[1..];
      && (forall k | 0 <= k < |states| :: all[k] == states[k])
      && (forall k | |states| - 1 <= k < |all| :: all[k] == more[k - (|states| - 1)])
  {
  }

  // ------------------------------------------------------------- steps of one record

  lemma {:induction false} DeliveredGrows(ch: L.Channel, d: L.State, steps: seq<L.Action>)
    requires L.Inv(ch, d) && |d.readers| == 1 && R.Legal(ch, d, steps)
    ensures |R.After(ch, d, steps).readers| == 1
    ensures d.readers[0].delivered <= R.After(ch, d, steps).readers[0].delivered
    decreases |steps|
  {
    if steps != [] {
      hide L.Inv, L.Apply, L.Enabled;
      L.StepKeepsInv(ch, d, steps[0]);
      ReaderStep(ch, d, steps[0]);
      DeliveredGrows(ch, L.Apply(ch, d, steps[0]), steps[1..]);
    }
  }

  lemma Unroll(ch: L.Channel, d: L.State, steps: seq<L.Action>)
    requires L.Inv(ch, d) && |d.readers| == 1 && R.Legal(ch, d, steps) && steps != []
    ensures L.Enabled(ch, d, steps[0]) && |d.cells| == L.Capacity(ch)
    ensures var next := L.Apply(ch, d, steps[0]);
      && L.Inv(ch, next) && |next.readers| == 1
      && d.readers[0].delivered <= next.readers[0].delivered
      && R.Legal(ch, next, steps[1..])
      && R.After(ch, d, steps) == R.After(ch, next, steps[1..])
  {
    hide L.Inv, L.Apply, L.Enabled;
    L.StepKeepsInv(ch, d, steps[0]);
    ReaderStep(ch, d, steps[0]);
  }

  ghost predicate Quiet(ch: L.Channel, d: L.State, steps: seq<L.Action>, end: L.State)
    requires |d.readers| == 1
  {
    && R.Legal(ch, d, steps) && R.After(ch, d, steps) == end
    && (forall k | 0 <= k < |steps| :: !steps[k].Publish?)
    && |end.readers| == 1 && end.readers[0].delivered == d.readers[0].delivered
  }

  lemma QuietHead(ch: L.Channel, d: L.State, steps: seq<L.Action>, end: L.State)
    requires L.Inv(ch, d) && |d.readers| == 1 && Quiet(ch, d, steps, end) && steps != []
    ensures !steps[0].Publish? && L.Enabled(ch, d, steps[0]) && |d.cells| == L.Capacity(ch)
    ensures var next := L.Apply(ch, d, steps[0]);
      |next.readers| == 1 && next.readers[0].delivered == d.readers[0].delivered && Quiet(ch, next, steps[1..], end)
  {
    hide L.Inv, L.Apply, L.Enabled, R.Legal, R.After;
    Unroll(ch, d, steps);
    DeliveredGrows(ch, L.Apply(ch, d, steps[0]), steps[1..]);
  }

  lemma QuietNothing(ch: L.Channel, d: L.State, end: L.State)
    requires |d.readers| == 1 && Quiet(ch, d, [], end)
    ensures end == d
  {
  }
}
