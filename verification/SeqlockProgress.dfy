/** The writer's half of progress: on both records every publish that has begun comes to its end,
    whatever the readers do meanwhile, and what was published is then read. */
module SeqlockProgress {
  import opened Seqlock
  import opened SeqlockRuns

  predicate IsWriter(a: Action) {
    a.WriterSequence? || a.WriterCell?
  }

  function WriterSteps(steps: seq<Action>): nat {
    if steps == [] then 0 else (if IsWriter(steps[0]) then 1 else 0) + WriterSteps(steps[1..])
  }

  /** How many accesses the writer still has to make. */
  function Left(w: Writer): int {
    match w
    case Idle => 0
    case BeginTest(p, _) => |p| + 3
    case BeginStore(p, _) => |p| + 3
    case Copying(p, done) => |p| - |done| + 2
    case EndTest(_, _) => 1
    case EndStore(_, _) => 1
  }

  /** The write of p, begun when before had been published, is under way or complete. */
  ghost predicate Writes(s: State, before: seq<seq<Word>>, p: seq<Word>) {
    match s.writer
    case Idle => s.published == before + [p]
    case BeginTest(q, _) => q == p && s.published == before
    case BeginStore(q, _) => q == p && s.published == before
    case Copying(q, _) => q == p && s.published == before
    case EndTest(_, _) => s.published == before + [p]
    case EndStore(q, _) => q == p && s.published == before
  }

  lemma {:induction false} BelowSize(done: set<nat>, n: nat)
    requires forall i | i in done :: i < n
    ensures |done| <= n
    ensures |done| == n ==> forall i: nat | i < n :: i in done
  {
    if n == 0 {
      assert done == {};
    } else {
      var rest := done - {n - 1};
      BelowSize(rest, n - 1);
      if n - 1 !in done {
        assert rest == done;
      }
    }
  }

  /** A writer with a publish under way always has a next access. */
  lemma WriterIsNeverStuck(c: Channel, s: State) returns (a: Action)
    requires Inv(c, s) && !s.writer.Idle?
    ensures IsWriter(a) && Enabled(c, s, a)
  {
    hide ReaderInv, Publishable;
    a := WriterSequence;
    if s.writer.Copying? && exists i: nat :: i < |s.writer.payload| && i !in s.writer.copied {
      var i: nat :| i < |s.writer.payload| && i !in s.writer.copied;
      a := WriterCell(i);
    }
  }

  lemma CopiedSize(c: Channel, s: State, a: Action)
    requires Inv(c, s) && Enabled(c, s, a) && s.writer.Copying? && IsWriter(a)
    ensures |s.writer.copied| <= |s.writer.payload|
    ensures a.WriterSequence? ==> |s.writer.copied| == |s.writer.payload|
  {
    hide ReaderInv, Publishable;
    BelowSize(s.writer.copied, |s.writer.payload|);
    if a.WriterSequence? {
      assert s.writer.copied >= Firsts(|s.writer.payload|);
      FirstsSize(|s.writer.payload|);
      assert s.writer.copied == Firsts(|s.writer.payload|);
    }
  }

  function Firsts(n: nat): (r: set<nat>)
    ensures forall j: nat :: j in r <==> j < n
  {
    if n == 0 then {} else Firsts(n - 1) + {n - 1}
  }

  lemma {:induction false} FirstsSize(n: nat)
    ensures |Firsts(n)| == n
  {
    if 0 < n {
      FirstsSize(n - 1);
    }
  }

  /** Each access of the writer is one of the remaining ones, and leaves the readers alone. */
  lemma WriterStepCounts(c: Channel, s: State, a: Action, before: seq<seq<Word>>, p: seq<Word>)
    requires Inv(c, s) && Enabled(c, s, a) && IsWriter(a) && Writes(s, before, p)
    ensures |s.cells| == Capacity(c)
    ensures Left(Apply(c, s, a).writer) == Left(s.writer) - 1 && Writes(Apply(c, s, a), before, p)
    ensures Apply(c, s, a).readers == s.readers
  {
    if s.writer.Copying? {
      CopiedSize(c, s, a);
    }
    hide ReaderInv, Publishable, Stable;
  }

  lemma LeftIsZero(c: Channel, s: State)
    requires Inv(c, s)
    ensures 0 <= Left(s.writer)
    ensures Left(s.writer) == 0 <==> s.writer.Idle?
  {
    hide ReaderInv, Publishable, Stable;
    if s.writer.Copying? {
      BelowSize(s.writer.copied, |s.writer.payload|);
    }
  }

  lemma OtherStepCounts(c: Channel, s: State, a: Action, before: seq<seq<Word>>, p: seq<Word>)
    requires Enabled(c, s, a) && |s.cells| == Capacity(c) && !IsWriter(a) && !a.Publish? && Writes(s, before, p)
    ensures Apply(c, s, a).writer == s.writer && Writes(Apply(c, s, a), before, p)
  {
  }

  /** Any mixture of writer and reader steps without a new publish. */
  lemma {:induction false} StepsCount(c: Channel, s: State, steps: seq<Action>,
                                      before: seq<seq<Word>>, p: seq<Word>)
    requires Inv(c, s) && Writes(s, before, p)
    requires Legal(c, s, steps) && forall k | 0 <= k < |steps| :: !steps[k].Publish?
    ensures var t := After(c, s, steps);
      Inv(c, t) && Writes(t, before, p) && Left(t.writer) == Left(s.writer) - WriterSteps(steps)
    decreases |steps|
  {
    hide Inv, Enabled, Apply, Left, Writes;
    if steps != [] {
      var a := steps[0];
      StepKeepsInv(c, s, a);
      if IsWriter(a) {
        WriterStepCounts(c, s, a, before, p);
      } else {
        OtherStepCounts(c, s, a, before, p);
      }
      StepsCount(c, Apply(c, s, a), steps[1..], before, p);
    }
  }

  lemma PublishBegins(c: Channel, s: State, p: seq<Word>)
    requires Inv(c, s) && s.writer.Idle? && Publishable(c, p)
    ensures Enabled(c, s, Publish(p)) && |s.cells| == Capacity(c)
    ensures var t := Apply(c, s, Publish(p));
      && Writes(t, s.published, p) && Left(t.writer) == |p| + 3
      && Inv(c, t) && t.readers == s.readers
  {
    StepKeepsInv(c, s, Publish(p));
    hide Publishable, Inv;
  }

  /** Every publish completes.  Whatever reader steps are interleaved, the writer of a publishable
      payload always has a next access until it has made |p| + 3 of them; then it is idle, and p is
      the one publish added and the register's value. */
  lemma PublishCompletes(c: Channel, s: State, p: seq<Word>, steps: seq<Action>)
    requires Inv(c, s) && s.writer.Idle? && Publishable(c, p)
    requires Legal(c, s, [Publish(p)] + steps) && forall k | 0 <= k < |steps| :: !steps[k].Publish?
    ensures WriterSteps(steps) <= |p| + 3
    ensures var t := After(c, s, [Publish(p)] + steps);
      && Inv(c, t)
      && (if WriterSteps(steps) == |p| + 3 then
            t.writer.Idle? && t.published == s.published + [p] && Register(t) == [p]
          else
            !t.writer.Idle? && exists a :: IsWriter(a) && Enabled(c, t, a))
  {
    hide Inv, Enabled, Apply, Publishable;
    PublishBegins(c, s, p);
    var first := Apply(c, s, Publish(p));
    assert ([Publish(p)] + steps)[1..] == steps;
    StepsCount(c, first, steps, s.published, p);
    var t := After(c, first, steps);
    LeftIsZero(c, t);
    if !t.writer.Idle? {
      var a := WriterIsNeverStuck(c, t);
    }
  }

  /** The writer alone, from any point of a publish to its end. */
  lemma {:induction false} FinishWrite(c: Channel, s: State, before: seq<seq<Word>>, p: seq<Word>)
    returns (steps: seq<Action>)
    requires Inv(c, s) && Writes(s, before, p)
    ensures Legal(c, s, steps) && forall k | 0 <= k < |steps| :: IsWriter(steps[k])
    ensures var t := After(c, s, steps);
      Inv(c, t) && t.writer.Idle? && t.published == before + [p] && t.readers == s.readers
    decreases Left(s.writer)
  {
    hide Inv, Enabled, Apply, Left;
    LeftIsZero(c, s);
    if s.writer.Idle? {
      steps := [];
      LegalNothing(c, s);
    } else {
      var a := WriterIsNeverStuck(c, s);
      StepKeepsInv(c, s, a);
      WriterStepCounts(c, s, a, before, p);
      LeftIsZero(c, Apply(c, s, a));
      var rest := FinishWrite(c, Apply(c, s, a), before, p);
      steps := [a] + rest;
      assert steps[1..] == rest;
    }
  }

  lemma LegalNothing(c: Channel, s: State)
    requires Inv(c, s)
    ensures Legal(c, s, []) && After(c, s, []) == s
  {
  }

  /** What is published is then read.  Once the writer has made all its accesses, among whatever
      reader steps, a reader at rest whose cursor p has not passed gets p in one undisturbed call. */
  lemma PublishedIsRead(c: Channel, s: State, p: seq<Word>, steps: seq<Action>, k: nat, advance: bool)
    returns (calls: seq<Action>)
    requires Inv(c, s) && s.writer.Idle? && Publishable(c, p)
    requires Legal(c, s, [Publish(p)] + steps) && forall j | 0 <= j < |steps| :: !steps[j].Publish?
    requires WriterSteps(steps) == |p| + 3
    requires var t := After(c, s, [Publish(p)] + steps);
      && k < |t.readers| && t.readers[k].at.Rest? && (c.Pose? ==> advance)
      && p != [] && t.readers[k].cursor < p[KEY]
    ensures forall a | a in calls :: ReaderAction(a)
    ensures Legal(c, s, [Publish(p)] + steps + calls)
    ensures var t := After(c, s, [Publish(p)] + steps);
      var u := After(c, s, [Publish(p)] + steps + calls);
      && |u.readers| == |t.readers|
      && u.readers[k].delivered == t.readers[k].delivered + [Delivery(p, t.sequence, advance)]
      && u.readers[k].cursor == if advance then p[KEY] else t.readers[k].cursor
  {
    hide Inv, Publishable, Enabled, Apply;
    PublishCompletes(c, s, p, steps);
    var t := After(c, s, [Publish(p)] + steps);
    calls := UndisturbedReadSucceeds(c, t, k, advance);
    AfterConcat(c, s, [Publish(p)] + steps, calls);
  }

  // ------------------------------------------------------------------- how a call ends

  /** The first sequence loads of reader k, ... */
  function Loads(steps: seq<Action>, k: nat): nat {
    if steps == [] then 0 else (if steps[0] == ReadFirst(k) then 1 else 0) + Loads(steps[1..], k)
  }

  /** ... how often it waits for more, ... */
  function Waits(steps: seq<Action>, k: nat): nat {
    if steps == [] then 0 else (if steps[0] == Wake(k, false) then 1 else 0) + Waits(steps[1..], k)
  }

  /** ... and whether it gives up: on metadata that rules the frame out, or at its deadline. */
  predicate GivesUp(steps: seq<Action>, k: nat) {
    Reject(k) in steps || Wake(k, true) in steps
  }

  /** A call of reader k, which had accepted before snapshots when it began. */
  ghost predicate CallAt(c: Channel, r: Reader, before: nat, loads: nat, waits: nat, over: bool) {
    var limit := if c.Depth? then 5 else 4;
    && (c.Depth? ==> waits == 0 && loads <= 5)
    && match r.at
       case Probe(a) => loads == limit * waits + a && a < limit && |r.delivered| == before && !over
       case Fetch(a, _, _) => loads == limit * waits + a + 1 && a < limit && |r.delivered| == before && !over
       case Waiting => c.Pose? && loads == 4 * (waits + 1) && |r.delivered| == before && !over
       case Rest =>
         || (|r.delivered| == before + 1 && !over)
         || (|r.delivered| == before && (over || (c.Depth? && loads == 5)))
  }

  lemma CallStep(c: Channel, s: State, a: Action, k: nat, before: nat, loads: nat, waits: nat, over: bool)
    requires Enabled(c, s, a) && |s.cells| == Capacity(c) && k < |s.readers| && a != Call(k)
    requires CallAt(c, s.readers[k], before, loads, waits, over)
    ensures |Apply(c, s, a).readers| == |s.readers|
    ensures CallAt(c, Apply(c, s, a).readers[k], before, loads + (if a == ReadFirst(k) then 1 else 0),
                   waits + (if a == Wake(k, false) then 1 else 0), over || a == Reject(k) || a == Wake(k, true))
  {
    if a.ReadSecond? {
      CopyStaysInside(c, s.readers[a.reader].at.got, s.readers[a.reader].cursor);
    }
    hide Snapshot, Plausible, Complete, Wanted, HeaderRead;
  }

  lemma {:induction false} CallGoesOn(c: Channel, s: State, steps: seq<Action>, k: nat,
                                      before: nat, loads: nat, waits: nat, over: bool)
    requires k < |s.readers| && Legal(c, s, steps) && Call(k) !in steps
    requires CallAt(c, s.readers[k], before, loads, waits, over)
    ensures |After(c, s, steps).readers| == |s.readers|
    ensures CallAt(c, After(c, s, steps).readers[k], before, loads + Loads(steps, k), waits + Waits(steps, k),
                   over || GivesUp(steps, k))
    decreases |steps|
  {
    hide CallAt, Enabled, Apply;
    if steps != [] {
      var a := steps[0];
      CallStep(c, s, a, k, before, loads, waits, over);
      CallGoesOn(c, Apply(c, s, a), steps[1..], k, before, loads + (if a == ReadFirst(k) then 1 else 0),
                 waits + (if a == Wake(k, false) then 1 else 0), over || a == Reject(k) || a == Wake(k, true));
      assert GivesUp(steps, k) <==> a == Reject(k) || a == Wake(k, true) || GivesUp(steps[1..], k);
    }
  }

  /** However the writer moves meanwhile, read_depth makes at most five attempts, and it is over
      exactly if it has accepted a frame, met metadata that rules the frame out, or failed five
      times. */
  lemma DepthCallEnds(s: State, steps: seq<Action>, k: nat)
    requires k < |s.readers| && s.readers[k].at == Probe(0) && Legal(Depth, s, steps) && Call(k) !in steps
    ensures |After(Depth, s, steps).readers| == |s.readers|
    ensures var r, before := After(Depth, s, steps).readers[k], s.readers[k];
      && Loads(steps, k) <= 5
      && (r.at.Rest? <==>
            || |before.delivered| < |r.delivered| || GivesUp(steps, k)
            || (Loads(steps, k) == 5 && !r.at.Fetch?))
      && !(|before.delivered| < |r.delivered| && GivesUp(steps, k))
  {
    CallGoesOn(Depth, s, steps, k, |s.readers[k].delivered|, 0, 0, false);
    hide Enabled, Apply;
  }

  /** wait_for_pose makes four attempts before each wait, and is over exactly if it has accepted a
      pose or woken past its deadline. */
  lemma PoseCallEnds(s: State, steps: seq<Action>, k: nat)
    requires k < |s.readers| && s.readers[k].at == Probe(0) && Legal(Pose, s, steps) && Call(k) !in steps
    ensures |After(Pose, s, steps).readers| == |s.readers|
    ensures var r, before := After(Pose, s, steps).readers[k], s.readers[k];
      && (r.at.Rest? <==> |before.delivered| < |r.delivered| || GivesUp(steps, k))
      && (r.at.Waiting? ==> Loads(steps, k) == 4 * (Waits(steps, k) + 1))
      && (r.at.Probe? ==> 4 * Waits(steps, k) <= Loads(steps, k) < 4 * (Waits(steps, k) + 1))
  {
    CallGoesOn(Pose, s, steps, k, |s.readers[k].delivered|, 0, 0, false);
    hide Enabled, Apply;
  }

  /** An attempt goes on exactly if no write is under way, and on the depth record there was one. */
  lemma LoadGoesOn(c: Channel, s: State, k: nat)
    requires Enabled(c, s, ReadFirst(k)) && |s.cells| == Capacity(c) && |Apply(c, s, ReadFirst(k)).readers| == |s.readers|
    ensures Apply(c, s, ReadFirst(k)).readers[k].at.Fetch? <==>
            s.sequence % 2 == 0 && (c.Depth? ==> 0 < s.sequence)
  {
  }

  /** A complete copy is accepted exactly if the sequence has not moved and the record is beyond the
      cursor. */
  lemma CopyIsAccepted(c: Channel, s: State, k: nat, advance: bool)
    requires Inv(c, s) && Enabled(c, s, ReadSecond(k, advance))
    ensures |s.cells| == Capacity(c) && |Apply(c, s, ReadSecond(k, advance)).readers| == |s.readers|
    ensures var r, next := s.readers[k], Apply(c, s, ReadSecond(k, advance)).readers[k];
      |r.delivered| < |next.delivered| <==> r.at.first == s.sequence && r.cursor < r.at.got[KEY]
  {
    var r := s.readers[k];
    assert ReaderInv(c, s, r);
    CopyStaysInside(c, r.at.got, r.cursor);
  }

  /** What a frame must look like to be published: a header of 48 cells with a size up to 848 by 480
      and positive focal lengths, and one sample per pixel. */
  lemma DepthFramesArePublished(p: seq<Word>)
    requires 48 <= |p|
    ensures Publishable(Depth, p) <==>
            && 0 < p[3] <= 848 && 0 < p[4] <= 480 && 0 < p[7] && 0 < p[8] && |p| == 48 + p[3] * p[4]
  {
    if 0 < p[3] <= 848 && 0 < p[4] <= 480 {
      assert p[3] * p[4] <= 848 * p[4] <= 848 * 480;
    }
  }

  lemma PosesArePublished(p: seq<Word>)
    ensures Publishable(Pose, p) <==> |p| == 209
  {
  }
}
