/** What the sequence lock promises over whole executions: linearizability of every
    accepted snapshot, in-order delivery without repeats, and progress of a reader
    that is not disturbed. */
module SeqlockRuns {
  import opened Seqlock
  import opened Subsequence

  /** A finite execution: states[i] takes step steps[i] to states[i + 1]. */
  datatype Run = Run(states: seq<State>, steps: seq<Action>)

  ghost predicate IsRun(c: Channel, run: Run, readers: nat) {
    && |run.states| == |run.steps| + 1
    && run.states[0] == Initial(c, readers)
    && forall i | 0 <= i < |run.steps| ::
         && Enabled(c, run.states[i], run.steps[i])
         && |run.states[i].cells| == Capacity(c)
         && run.states[i + 1] == Apply(c, run.states[i], run.steps[i])
  }

  lemma {:induction false} RunInv(c: Channel, run: Run, readers: nat, i: nat)
    requires IsRun(c, run, readers) && i < |run.states|
    ensures Inv(c, run.states[i]) && |run.states[i].readers| == readers
  {
    if i == 0 {
      InitialInv(c, readers);
    } else {
      RunInv(c, run, readers, i - 1);
      StepKeepsInv(c, run.states[i - 1], run.steps[i - 1]);
    }
  }

  /** The sequence cell and the list of completed publishes only ever grow. */
  lemma {:induction false} RunGrows(c: Channel, run: Run, readers: nat, i: nat, j: nat)
    requires IsRun(c, run, readers) && i <= j < |run.states|
    ensures run.states[i].sequence <= run.states[j].sequence
    ensures run.states[i].published <= run.states[j].published
    decreases j - i
  {
    if i < j {
      RunInv(c, run, readers, j - 1);
      StepKeepsInv(c, run.states[j - 1], run.steps[j - 1]);
      RunGrows(c, run, readers, i, j - 1);
    }
  }

  /** begin_write and end_write always meet the parity they were written for: their
      repair increments are dead code as long as there is one writer. */
  lemma WriterNeverRepairs(c: Channel, run: Run, readers: nat, i: nat)
    requires IsRun(c, run, readers) && i < |run.steps|
    ensures run.steps[i].Publish? ==> run.states[i].sequence % 2 == 0
    ensures var w := run.states[i].writer;
      (w.BeginTest? ==> w.value % 2 == 1) && (w.EndTest? ==> w.value % 2 == 0)
      && (w.BeginStore? || w.EndStore? ==> w.value == run.states[i].sequence + 1)
  {
    RunInv(c, run, readers, i);
  }

  lemma FetchStep(c: Channel, s: State, a: Action, r: nat)
    requires Enabled(c, s, a) && |s.cells| == Capacity(c) && r < |s.readers|
    requires |Apply(c, s, a).readers| == |s.readers|
    requires Apply(c, s, a).readers[r].at.Fetch?
    ensures var first := Apply(c, s, a).readers[r].at.first;
      if a == ReadFirst(r) then s.sequence == first
      else s.readers[r].at.Fetch? && s.readers[r].at.first == first
  {
  }

  lemma StartsAtRest(c: Channel, readers: nat, r: nat)
    requires r < readers
    ensures |Initial(c, readers).readers| == readers
    ensures Initial(c, readers).readers[r].at.Rest?
  {
  }

  /** A copy in progress goes back to one first sequence load of the same attempt. */
  lemma {:induction false} FetchBegan(c: Channel, run: Run, readers: nat, r: nat, t: nat)
    returns (began: nat)
    requires IsRun(c, run, readers) && t < |run.states| && r < readers
    requires |run.states[t].readers| == readers && run.states[t].readers[r].at.Fetch?
    ensures began < t && run.steps[began] == ReadFirst(r)
    ensures run.states[began].sequence == run.states[t].readers[r].at.first
  {
    hide Inv, Enabled, Apply, Initial;
    StartsAtRest(c, readers, r);
    RunInv(c, run, readers, t - 1);
    FetchStep(c, run.states[t - 1], run.steps[t - 1], r);
    if run.steps[t - 1] == ReadFirst(r) {
      began := t - 1;
    } else {
      began := FetchBegan(c, run, readers, r, t - 1);
    }
  }

  /** Linearizability.  Whenever a reader accepts a snapshot, the snapshot is the
      register's value at every instant from the first to the second sequence load
      of that attempt. */
  lemma AcceptedSnapshotIsAtomic(c: Channel, run: Run, readers: nat, r: nat, t: nat)
    returns (began: nat)
    requires IsRun(c, run, readers) && t < |run.steps| && r < readers
    requires run.steps[t].ReadSecond? && run.steps[t].reader == r
    requires |run.states[t].readers| == |run.states[t + 1].readers| == readers
    requires |run.states[t].readers[r].delivered| < |run.states[t + 1].readers[r].delivered|
    ensures began < t && run.steps[began] == ReadFirst(r)
    ensures var ds := run.states[t + 1].readers[r].delivered;
      && ds[..|ds| - 1] == run.states[t].readers[r].delivered
      && forall u | began <= u <= t :: Register(run.states[u]) == [ds[|ds| - 1].payload]
  {
    RunInv(c, run, readers, t);
    var s := run.states[t];
    var reader := s.readers[r];
    assert ReaderInv(c, s, reader);
    began := FetchBegan(c, run, readers, r, t);
    AcceptedIsRegister(c, s, reader);
    var payload := Snapshot(c, reader.at.got, reader.cursor);
    forall u | began <= u <= t
      ensures Register(run.states[u]) == [payload]
    {
      RunInv(c, run, readers, u);
      RunGrows(c, run, readers, began, u);
      RunGrows(c, run, readers, u, t);
      assert run.states[u].sequence == s.sequence;
      assert |run.states[u].published| == |s.published|;
    }
  }

  // -------------------------------------------------------- order of deliveries

  /** The deliveries that moved the reader's cursor. */
  function Advancing(ds: seq<Delivery>): (r: seq<Delivery>)
    ensures forall d | d in r :: d in ds && d.advanced
  {
    if ds == [] then []
    else
      var last := ds[|ds| - 1];
      Advancing(ds[..|ds| - 1]) + if last.advanced then [last] else []
  }

  /** The payloads of those deliveries: what the reader consumed. */
  function Consumed(ds: seq<Delivery>): seq<seq<Word>> {
    var a := Advancing(ds);
    seq(|a|, i requires 0 <= i < |a| => a[i].payload)
  }

  ghost predicate Increasing(ps: seq<seq<Word>>) {
    && (forall i | 0 <= i < |ps| :: 0 < |ps[i]|)
    && forall i, j | 0 <= i < j < |ps| :: ps[i][KEY] < ps[j][KEY]
  }

  ghost predicate StrictlyOrdered(ds: seq<Delivery>) {
    && (forall i | 0 <= i < |ds| :: 0 < |ds[i].payload|)
    && forall i, j | 0 <= i < j < |ds| :: Before(ds[i], ds[j])
  }

  ghost predicate Before(d: Delivery, e: Delivery)
    requires 0 < |d.payload| && 0 < |e.payload|
  {
    d.first < e.first && d.payload[KEY] < e.payload[KEY]
  }

  lemma {:induction false} AdvancingIsOrdered(ds: seq<Delivery>)
    requires Ordered(ds)
    ensures StrictlyOrdered(Advancing(ds))
  {
    if ds != [] {
      var init, last := ds[..|ds| - 1], ds[|ds| - 1];
      assert forall d | d in init :: d in ds;
      AdvancingIsOrdered(init);
      var a := Advancing(init);
      forall i | 0 <= i < |a|
        ensures 0 < |a[i].payload| && 0 < |last.payload|
        ensures last.advanced ==> Before(a[i], last)
      {
        var k :| 0 <= k < |init| && init[k] == a[i];
        assert ds[k] == a[i];
      }
      assert Advancing(ds) == a + if last.advanced then [last] else [];
    }
  }

  lemma ConsumedFits(s: State, ds: seq<Delivery>)
    requires Ordered(ds) && forall d | d in ds :: Faithful(s, d)
    ensures IsSubsequence(Consumed(ds), s.published)
    ensures Increasing(Consumed(ds))
  {
    AdvancingIsOrdered(ds);
    var a := Advancing(ds);
    var picks := seq(|a|, i requires 0 <= i < |a| => a[i].first / 2 - 1);
    forall i | 0 <= i < |a|
      ensures 0 <= picks[i] < |s.published| && a[i].payload == s.published[picks[i]]
      ensures a[i].first % 2 == 0
    {
      assert a[i] in a;
      assert Faithful(s, a[i]);
    }
    forall i, j | 0 <= i < j < |picks|
      ensures picks[i] < picks[j]
    {
      assert Before(a[i], a[j]);
    }
    assert Picks(picks, s.published, Consumed(ds));
  }

  /** In every execution, what a reader consumed is a subsequence of what was
      published: in order, no publish twice, keys strictly increasing. */
  lemma ConsumedIsSubsequence(c: Channel, run: Run, readers: nat, t: nat, r: nat)
    requires IsRun(c, run, readers) && t < |run.states| && r < readers
    requires |run.states[t].readers| == readers
    ensures var s := run.states[t];
      IsSubsequence(Consumed(s.readers[r].delivered), s.published)
      && Increasing(Consumed(s.readers[r].delivered))
  {
    RunInv(c, run, readers, t);
    var s := run.states[t];
    assert ReaderInv(c, s, s.readers[r]);
    ConsumedFits(s, s.readers[r].delivered);
  }

  /** wait_for_pose advances its cursor with every pose it returns, so on the pose
      channel everything delivered is consumed. */
  lemma {:induction false} PoseDeliveriesAreConsumed(run: Run, readers: nat, t: nat, r: nat)
    requires IsRun(Pose, run, readers) && t < |run.states| && r < readers
    ensures |run.states[t].readers| == readers
    ensures forall d | d in run.states[t].readers[r].delivered :: d.advanced
  {
    RunInv(Pose, run, readers, t);
    if t > 0 {
      PoseDeliveriesAreConsumed(run, readers, t - 1, r);
      RunInv(Pose, run, readers, t - 1);
    }
  }

  // ------------------------------------------------------------------ progress

  ghost predicate Legal(c: Channel, s: State, steps: seq<Action>)
    decreases |steps|
  {
    |s.cells| == Capacity(c) &&
    (steps != [] ==> Enabled(c, s, steps[0]) && Legal(c, Apply(c, s, steps[0]), steps[1..]))
  }

  ghost function After(c: Channel, s: State, steps: seq<Action>): State
    requires Legal(c, s, steps)
    decreases |steps|
  {
    if steps == [] then s else After(c, Apply(c, s, steps[0]), steps[1..])
  }

  lemma {:induction false} Extend(c: Channel, s: State, steps: seq<Action>, a: Action)
    requires Legal(c, s, steps) && Enabled(c, After(c, s, steps), a)
    requires Inv(c, s)
    ensures Legal(c, s, steps + [a])
    ensures |After(c, s, steps).cells| == Capacity(c)
    ensures After(c, s, steps + [a]) == Apply(c, After(c, s, steps), a)
    decreases |steps|
  {
    if steps == [] {
      assert steps + [a] == [a];
      StepKeepsInv(c, s, a);
      assert [a][1..] == [];
    } else {
      StepKeepsInv(c, s, steps[0]);
      assert (steps + [a])[0] == steps[0];
      assert (steps + [a])[1..] == steps[1..] + [a];
      Extend(c, Apply(c, s, steps[0]), steps[1..], a);
    }
  }

  ghost function CopiedPrefix(s: State, n: nat): map<nat, Word>
    requires n <= |s.cells|
  {
    map i: nat | i < n :: s.cells[i]
  }

  predicate ReaderAction(a: Action) {
    !a.Publish? && !a.WriterSequence? && !a.WriterCell?
  }

  /** The reader's state part way through an undisturbed copy. */
  ghost function MidCopy(s: State, k: nat, n: nat): State
    requires k < |s.readers| && n <= |s.cells|
  {
    s.(readers := s.readers[k :=
      s.readers[k].(at := Fetch(0, s.sequence, CopiedPrefix(s, n)))])
  }

  lemma {:induction false} CopyAlone(c: Channel, s: State, k: nat, n: nat) returns (steps: seq<Action>)
    requires Inv(c, s) && k < |s.readers| && s.readers[k].at.Rest?
    requires s.writer.Idle? && s.published != []
    requires var last := s.published[|s.published| - 1];
      n <= |last| && s.readers[k].cursor < last[KEY]
    ensures n <= |s.cells|
    ensures Legal(c, s, steps) && After(c, s, steps) == MidCopy(s, k, n)
    ensures forall a | a in steps :: ReaderAction(a)
  {
    var last := s.published[|s.published| - 1];
    assert Publishable(c, last);
    var r := s.readers[k];
    if n == 0 {
      steps := [];
      assert After(c, s, steps) == s;
      Extend(c, s, steps, Call(k));
      steps := steps + [Call(k)];
      Extend(c, s, steps, ReadFirst(k));
      steps := steps + [ReadFirst(k)];
      assert CopiedPrefix(s, 0) == map[];
      assert After(c, s, steps).readers == MidCopy(s, k, 0).readers;
    } else {
      hide Enabled, Apply, Inv;
      steps := CopyAlone(c, s, k, n - 1);
      CopyOneMore(c, s, k, n);
      Extend(c, s, steps, ReadCell(k, n - 1));
      steps := steps + [ReadCell(k, n - 1)];
    }
  }

  lemma CopyOneMore(c: Channel, s: State, k: nat, n: nat)
    requires Inv(c, s) && k < |s.readers| && s.writer.Idle? && s.published != []
    requires var last := s.published[|s.published| - 1];
      0 < n <= |last| && s.readers[k].cursor < last[KEY]
    ensures n <= |s.cells|
    ensures Enabled(c, MidCopy(s, k, n - 1), ReadCell(k, n - 1))
    ensures |s.cells| == Capacity(c)
    ensures Apply(c, MidCopy(s, k, n - 1), ReadCell(k, n - 1)) == MidCopy(s, k, n)
  {
    var last := s.published[|s.published| - 1];
    assert Publishable(c, last);
    var got := CopiedPrefix(s, n - 1);
    CopyWants(c, s, got, s.readers[k].cursor, n);
    assert got[n - 1 := s.cells[n - 1]] == CopiedPrefix(s, n);
  }

  /** The copied prefix does not yet satisfy the reader. */
  lemma CopyWants(c: Channel, s: State, got: map<nat, Word>, cursor: nat, n: nat)
    requires Inv(c, s) && s.writer.Idle? && s.published != []
    requires var last := s.published[|s.published| - 1];
      0 < n <= |last| <= |s.cells| && cursor < last[KEY] && got == CopiedPrefix(s, n - 1)
    ensures n - 1 < Wanted(c, got, cursor)
  {
    var last := s.published[|s.published| - 1];
    assert Publishable(c, last);
    CopyStaysInside(c, got, cursor);
    if HeaderRead(c, got) {
      assert got[KEY] == last[KEY];
      if c.Depth? {
        assert got[WIDTH] == last[WIDTH] && got[HEIGHT] == last[HEIGHT];
      }
      assert Wanted(c, got, cursor) == |last|;
    } else {
      var i: nat :| i < HeaderCells(c) && i !in got;
      assert n - 1 < HeaderCells(c);
    }
  }

  /** The reader's state after it has accepted the register's value. */
  function Accepted(s: State, k: nat, advance: bool): State
    requires k < |s.readers| && s.published != [] && 0 < |s.published[|s.published| - 1]|
  {
    var last := s.published[|s.published| - 1];
    s.(readers := s.readers[k :=
      Reader(if advance && 0 <= last[KEY] then last[KEY] else s.readers[k].cursor, Rest,
             s.readers[k].delivered + [Delivery(last, s.sequence, advance)])])
  }

  /** The second sequence load after an undisturbed copy. */
  lemma AcceptAlone(c: Channel, s: State, k: nat, advance: bool)
    requires Inv(c, s) && k < |s.readers| && s.writer.Idle? && s.published != [] && (c.Pose? ==> advance)
    requires var last := s.published[|s.published| - 1];
      0 < |last| <= |s.cells| && s.readers[k].cursor < last[KEY]
    ensures |s.cells| == Capacity(c)
    ensures var last := s.published[|s.published| - 1];
      && Enabled(c, MidCopy(s, k, |last|), ReadSecond(k, advance))
      && Apply(c, MidCopy(s, k, |last|), ReadSecond(k, advance)) == Accepted(s, k, advance)
  {
    var last := s.published[|s.published| - 1];
    var r := s.readers[k];
    assert Publishable(c, last);
    var got := CopiedPrefix(s, |last|);
    CopyStaysInside(c, got, r.cursor);
    assert got[KEY] == last[KEY];
    if c.Depth? {
      assert got[WIDTH] == last[WIDTH] && got[HEIGHT] == last[HEIGHT];
    }
    assert Wanted(c, got, r.cursor) == |last|;
    assert Snapshot(c, got, r.cursor) == last;
  }

  /** Progress.  A reader whose call is not disturbed by the writer, and whose cursor
      is behind the register's key, accepts the register's value in its first
      attempt. */
  lemma UndisturbedReadSucceeds(c: Channel, s: State, k: nat, advance: bool)
    returns (steps: seq<Action>)
    requires Inv(c, s) && k < |s.readers| && s.readers[k].at.Rest?
    requires s.writer.Idle? && Register(s) != [] && (c.Pose? ==> advance)
    requires 0 < |Register(s)[0]| && s.readers[k].cursor < Register(s)[0][KEY]
    ensures Legal(c, s, steps)
    ensures forall a | a in steps :: ReaderAction(a)
    ensures After(c, s, steps) == s.(readers := s.readers[k :=
      Reader(if advance then Register(s)[0][KEY] else s.readers[k].cursor, Rest,
             s.readers[k].delivered + [Delivery(Register(s)[0], s.sequence, advance)])])
  {
    var last := s.published[|s.published| - 1];
    steps := CopyAlone(c, s, k, |last|);
    AcceptAlone(c, s, k, advance);
    hide Enabled, Apply, Inv;
    Extend(c, s, steps, ReadSecond(k, advance));
    steps := steps + [ReadSecond(k, advance)];
  }

  /** read_depth itself does not prevent repeats; its caller does.  As long as the
      caller keeps its cursor, an undisturbed second call returns the same frame
      again.  (ConsumedIsSubsequence is the other half: a frame the cursor has passed
      is never returned again.) */
  lemma KeptCursorRereads(s: State, k: nat) returns (steps: seq<Action>)
    requires Inv(Depth, s) && k < |s.readers| && s.readers[k].at.Rest?
    requires s.writer.Idle? && Register(s) != []
    requires 0 < |Register(s)[0]| && s.readers[k].cursor < Register(s)[0][KEY]
    ensures Legal(Depth, s, steps)
    ensures |After(Depth, s, steps).readers| == |s.readers|
    ensures var d := Delivery(Register(s)[0], s.sequence, false);
      After(Depth, s, steps).readers[k].delivered == s.readers[k].delivered + [d, d]
  {
    var first := UndisturbedReadSucceeds(Depth, s, k, false);
    AfterInv(Depth, s, first);
    var mid := After(Depth, s, first);
    var second := UndisturbedReadSucceeds(Depth, mid, k, false);
    AfterConcat(Depth, s, first, second);
    steps := first + second;
  }

  lemma {:induction false} AfterInv(c: Channel, s: State, steps: seq<Action>)
    requires Inv(c, s) && Legal(c, s, steps)
    ensures Inv(c, After(c, s, steps))
    decreases |steps|
  {
    if steps != [] {
      StepKeepsInv(c, s, steps[0]);
      AfterInv(c, Apply(c, s, steps[0]), steps[1..]);
    }
  }

  lemma {:induction false} AfterConcat(c: Channel, s: State, xs: seq<Action>, ys: seq<Action>)
    requires Legal(c, s, xs) && Legal(c, After(c, s, xs), ys)
    ensures Legal(c, s, xs + ys)
    ensures After(c, s, xs + ys) == After(c, After(c, s, xs), ys)
    decreases |xs|
  {
    if xs == [] {
      assert xs + ys == ys;
    } else {
      assert (xs + ys)[1..] == xs[1..] + ys;
      AfterConcat(c, Apply(c, s, xs[0]), xs[1..], ys);
    }
  }
}
