/** The bridge's converted-frame cache: get-data and release calls of any number of threads,
    over frames whose addresses the driver may use again. */
module FrameBridge {
  import opened IrBgr

  /** A driver frame; a virtual one is an infrared frame shown as BGR8. */
  datatype Frame = Frame(infrared: bool, source: seq<Byte>, width: int, height: int, stride: int)

  datatype Buffer = Buffer(id: nat, bytes: seq<Byte>)

  datatype Live = Live(frame: Frame, references: nat)

  /** Where a thread is: asked is the frame the call was made for. */
  datatype Phase =
    | Idle
    | Missed(address: nat, asked: Frame)
    | Converted(address: nat, asked: Frame, buffer: Buffer)
    | Erased(address: nat)

  datatype State = State(live: map<nat, Live>, cache: map<nat, Buffer>, threads: seq<Phase>,
                         nextId: nat)

  predicate DescribeVirtual(f: Frame) {
    f.infrared && 0 < f.width && 0 < f.height && f.width <= f.stride
  }

  /** What the size and stride hooks report. */
  function DataSize(f: Frame): int {
    if DescribeVirtual(f) then f.width * f.height * 3 else |f.source|
  }

  function Stride(f: Frame): int {
    if DescribeVirtual(f) then f.width * 3 else f.stride
  }

  predicate Convertible(f: Frame, options: Options) {
    Accepts(|f.source|, f.width, f.height, f.stride, options)
  }

  ghost function ImageOf(f: Frame, options: Options): (r: seq<Byte>)
    requires DescribeVirtual(f) && Convertible(f, options)
    ensures |r| == DataSize(f)
  {
    RowFits(0, f.height, f.width);
    Image(Rows(f.source, f.width, f.height, f.stride, f.height), options)
  }

  /** map::emplace: an entry that is already there stays. */
  function Emplaced(cache: map<nat, Buffer>, a: nat, b: Buffer): map<nat, Buffer> {
    if a in cache then cache else cache[a := b]
  }

  datatype Data = Null | Raw(bytes: seq<Byte>) | Converted24(buffer: Buffer)

  /** The hooks as one caller sees them. */
  class Bridge {
    var buffers: map<nat, Buffer>
    var nextId: nat

    constructor ()
      ensures buffers == map[]
    {
      buffers, nextId := map[], 0;
    }

    method GetFrameData(a: nat, f: Frame, options: Options) returns (r: Data)
      modifies this
      ensures !DescribeVirtual(f) ==> r == Raw(f.source) && buffers == old(buffers)
      ensures DescribeVirtual(f) && a in old(buffers) ==>
                r == Converted24(old(buffers)[a]) && buffers == old(buffers)
      ensures DescribeVirtual(f) && a !in old(buffers) && !Convertible(f, options) ==>
                r.Null? && buffers == old(buffers)
      ensures DescribeVirtual(f) && a !in old(buffers) && Convertible(f, options) ==>
                r == Converted24(Buffer(old(nextId), ImageOf(f, options))) &&
                buffers == old(buffers)[a := r.buffer]
    {
      if !DescribeVirtual(f) {
        return Raw(f.source);
      }
      if a in buffers {
        return Converted24(buffers[a]);
      }
      if |f.source| == 0 {
        return Null;
      }
      var ok, output, tone := IrY8ToBgr24(f.source, f.width, f.height, f.stride, options);
      if !ok {
        return Null;
      }
      var converted := Buffer(nextId, output[..]);
      nextId := nextId + 1;
      buffers := Emplaced(buffers, a, converted);
      return Converted24(buffers[a]);
    }

    method ReleaseFrame(a: nat)
      modifies this
      ensures buffers == old(buffers) - {a}
      ensures nextId == old(nextId)
    {
      buffers := buffers - {a};
    }
  }

  // ------------------------------------------------------------------- the steps

  datatype Action =
    | Deliver(address: nat, frame: Frame)
    | AddReference(address: nat)
    | Find(thread: nat, address: nat)
    | Convert(thread: nat)
    | Fail(thread: nat)
    | Emplace(thread: nat)
    | Erase(thread: nat, address: nat)
    | Release(thread: nat)

  function Releasing(threads: seq<Phase>, a: nat): nat {
    if threads == [] then 0
    else Releasing(threads[..|threads| - 1], a) + if threads[|threads| - 1] == Erased(a) then 1 else 0
  }

  /** References to a that nobody has begun to give up. */
  function Spare(s: State, a: nat): int {
    (if a in s.live then s.live[a].references else 0) - Releasing(s.threads, a)
  }

  predicate Getting(p: Phase, a: nat) {
    (p.Missed? || p.Converted?) && p.address == a
  }

  /** A client uses a frame only through a reference that stays for the whole call. */
  predicate Enabled(s: State, x: Action) {
    match x
    case Deliver(a, _) => a !in s.live
    case AddReference(a) => 0 < Spare(s, a)
    case Find(t, a) =>
      t < |s.threads| && s.threads[t].Idle? && 0 < Spare(s, a) &&
      a in s.live && DescribeVirtual(s.live[a].frame)
    case Convert(t) => t < |s.threads| && s.threads[t].Missed?
    case Fail(t) => t < |s.threads| && s.threads[t].Missed?
    case Emplace(t) => t < |s.threads| && s.threads[t].Converted?
    case Erase(t, a) =>
      t < |s.threads| && s.threads[t].Idle? && 0 < Spare(s, a) &&
      ((exists u | 0 <= u < |s.threads| :: Getting(s.threads[u], a)) ==> 1 < Spare(s, a))
    case Release(t) => t < |s.threads| && s.threads[t].Erased?
  }

  ghost function Apply(s: State, x: Action, options: Options): State
    requires Enabled(s, x)
  {
    match x
    case Deliver(a, f) => s.(live := s.live[a := Live(f, 1)])
    case AddReference(a) =>
      if a in s.live then s.(live := s.live[a := Live(s.live[a].frame, s.live[a].references + 1)])
      else s
    case Find(t, a) =>
      if a in s.cache then s else s.(threads := s.threads[t := Missed(a, s.live[a].frame)])
    case Convert(t) =>
      var p := s.threads[t];
      if p.address in s.live && DescribeVirtual(s.live[p.address].frame) &&
         Convertible(s.live[p.address].frame, options)
      then
        var b := Buffer(s.nextId, ImageOf(s.live[p.address].frame, options));
        s.(threads := s.threads[t := Converted(p.address, p.asked, b)], nextId := s.nextId + 1)
      else s.(threads := s.threads[t := Idle])
    case Fail(t) => s.(threads := s.threads[t := Idle])
    case Emplace(t) =>
      var p := s.threads[t];
      s.(threads := s.threads[t := Idle],
         cache := Emplaced(s.cache, p.address, p.buffer))
    case Erase(t, a) => s.(threads := s.threads[t := Erased(a)], cache := s.cache - {a})
    case Release(t) =>
      var a := s.threads[t].address;
      var rest := s.(threads := s.threads[t := Idle]);
      if a in s.live && 1 < s.live[a].references
      then rest.(live := s.live[a := Live(s.live[a].frame, s.live[a].references - 1)])
      else rest.(live := s.live - {a})
  }

  // --------------------------------------------------------------- the invariant

  ghost predicate Holds(buffer: Buffer, f: Frame, options: Options) {
    DescribeVirtual(f) && Convertible(f, options) && buffer.bytes == ImageOf(f, options)
  }

  /** Every cached key is a live frame with a reference nobody is giving up, and its entry is
      the conversion of that frame. */
  ghost predicate EntryOk(s: State, a: nat, options: Options) {
    a in s.cache ==> 0 < Spare(s, a) && a in s.live && Holds(s.cache[a], s.live[a].frame, options)
  }

  /** The frame a call was made for is still the one at its address. */
  ghost predicate CallOk(s: State, t: nat, options: Options)
    requires t < |s.threads|
  {
    var p := s.threads[t];
    && ((p.Missed? || p.Converted?) ==>
          0 < Spare(s, p.address) && p.address in s.live &&
          DescribeVirtual(p.asked) && s.live[p.address].frame == p.asked)
    && (p.Converted? ==> Holds(p.buffer, p.asked, options))
  }

  ghost predicate Inv(s: State, options: Options) {
    && (forall a: nat :: 0 <= Spare(s, a))
    && (forall a: nat :: EntryOk(s, a, options))
    && (forall t: nat | t < |s.threads| :: CallOk(s, t, options))
    && (forall a: nat | a in s.live :: 0 < s.live[a].references)
  }

  lemma {:induction false} ReleasingUpdate(threads: seq<Phase>, t: nat, p: Phase, a: nat)
    requires t < |threads|
    ensures Releasing(threads[t := p], a) ==
            Releasing(threads, a) - (if threads[t] == Erased(a) then 1 else 0)
            + (if p == Erased(a) then 1 else 0)
  {
    var init := threads[..|threads| - 1];
    if t == |threads| - 1 {
      assert threads[t := p][..|threads| - 1] == init;
    } else {
      assert threads[t := p][..|threads| - 1] == init[t := p];
      ReleasingUpdate(init, t, p, a);
    }
  }

  ghost predicate Fresh(s: State) {
    s.live == map[] && s.cache == map[] && forall t | 0 <= t < |s.threads| :: s.threads[t].Idle?
  }

  lemma {:induction false} NobodyReleases(threads: seq<Phase>, a: nat)
    requires forall t | 0 <= t < |threads| :: threads[t].Idle?
    ensures Releasing(threads, a) == 0
  {
    if threads != [] {
      NobodyReleases(threads[..|threads| - 1], a);
    }
  }

  lemma FreshInv(s: State, options: Options)
    requires Fresh(s)
    ensures Inv(s, options)
  {
    forall a: nat
      ensures Spare(s, a) == 0
    {
      NobodyReleases(s.threads, a);
    }
  }

  /** How a step changes the spare references. */
  lemma SpareStep(s: State, x: Action, options: Options, b: nat)
    requires Inv(s, options) && Enabled(s, x)
    ensures var delta := match x
                         case Deliver(a, _) => if a == b then 1 else 0
                         case AddReference(a) => if a == b then 1 else 0
                         case Erase(_, a) => if a == b then -1 else 0
                         case _ => 0;
              Spare(Apply(s, x, options), b) == Spare(s, b) + delta
  {
    var next := Apply(s, x, options);
    hide Holds, ImageOf;
    match x
    case Deliver(a, _) =>
    case AddReference(a) =>
      assert 0 <= Releasing(s.threads, a);
    case Find(t, a) => ReleasingUpdate(s.threads, t, Missed(a, s.live[a].frame), b);
    case Convert(t) =>
      assert CallOk(s, t, options);
      ReleasingUpdate(s.threads, t, next.threads[t], b);
      assert next.threads == s.threads[t := next.threads[t]];
    case Fail(t) => ReleasingUpdate(s.threads, t, Idle, b);
    case Emplace(t) => ReleasingUpdate(s.threads, t, Idle, b);
    case Erase(t, a) => ReleasingUpdate(s.threads, t, Erased(a), b);
    case Release(t) =>
      var a := s.threads[t].address;
      ReleasingUpdate(s.threads, t, Idle, b);
      ReleasingUpdate(s.threads, t, Idle, a);
      assert 0 <= Spare(s, a);
      assert a in s.live;
      assert 0 < s.live[a].references;
  }

  /** A frame with a spare reference survives every step. */
  lemma SpareSurvives(s: State, x: Action, options: Options, a: nat)
    requires Inv(s, options) && Enabled(s, x)
    requires a in s.live && 0 < Spare(s, a)
    ensures a in Apply(s, x, options).live
    ensures Apply(s, x, options).live[a].frame == s.live[a].frame
  {
    hide Holds, ImageOf;
    if x.Release? && s.threads[x.thread].address == a {
      ReleasingUpdate(s.threads, x.thread, Idle, a);
    }
  }

  lemma EntryStep(s: State, x: Action, options: Options, a: nat)
    requires Inv(s, options) && Enabled(s, x)
    ensures EntryOk(Apply(s, x, options), a, options)
  {
    hide Holds, ImageOf, Releasing, Spare;
    assert EntryOk(s, a, options);
    SpareStep(s, x, options, a);
    if x.Emplace? {
      assert CallOk(s, x.thread, options);
    }
    if 0 < Spare(s, a) && a in s.live {
      SpareSurvives(s, x, options, a);
    }
  }

  lemma CallStep(s: State, x: Action, options: Options, t: nat)
    requires Inv(s, options) && Enabled(s, x) && t < |s.threads|
    ensures |Apply(s, x, options).threads| == |s.threads|
    ensures CallOk(Apply(s, x, options), t, options)
  {
    hide ImageOf, Releasing, Spare;
    assert CallOk(s, t, options);
    var p, next := s.threads[t], Apply(s, x, options);
    if next.threads[t].Missed? || next.threads[t].Converted? {
      var a := next.threads[t].address;
      SpareStep(s, x, options, a);
      SpareSurvives(s, x, options, a);
      if next.threads[t] == p {
        assert Getting(s.threads[t], a);
      }
    }
  }

  lemma StepKeepsInv(s: State, x: Action, options: Options)
    requires Inv(s, options) && Enabled(s, x)
    ensures Inv(Apply(s, x, options), options)
  {
    var next := Apply(s, x, options);
    forall a: nat
      ensures 0 <= Spare(next, a)
    {
      SpareStep(s, x, options, a);
    }
    forall a: nat
      ensures EntryOk(next, a, options)
    {
      EntryStep(s, x, options, a);
    }
    forall t: nat | t < |next.threads|
      ensures CallOk(next, t, options)
    {
      CallStep(s, x, options, t);
    }
  }

  // -------------------------------------------------------------- what a call returns

  datatype Answer = NoAnswer | Returned(address: nat, buffer: Buffer)

  /** A get-data call returns from the cache at once, or after publishing its conversion. */
  function AnswerOf(s: State, x: Action): Answer
    requires Enabled(s, x)
  {
    match x
    case Find(_, a) => if a in s.cache then Returned(a, s.cache[a]) else NoAnswer
    case Emplace(t) =>
      var p := s.threads[t];
      Returned(p.address, if p.address in s.cache then s.cache[p.address] else p.buffer)
    case _ => NoAnswer
  }

  /** Carries out the steps one after another. */
  ghost predicate Legal(s: State, xs: seq<Action>, options: Options)
    decreases |xs|
  {
    xs == [] || (Enabled(s, xs[0]) && Legal(Apply(s, xs[0], options), xs[1..], options))
  }

  ghost function After(s: State, xs: seq<Action>, options: Options): State
    requires Legal(s, xs, options)
    decreases |xs|
  {
    if xs == [] then s else After(Apply(s, xs[0], options), xs[1..], options)
  }

  lemma {:induction false} RunKeepsInv(s: State, xs: seq<Action>, options: Options)
    requires Inv(s, options) && Legal(s, xs, options)
    ensures Inv(After(s, xs, options), options)
    decreases |xs|
  {
    if xs != [] {
      hide Inv, Apply;
      StepKeepsInv(s, xs[0], options);
      RunKeepsInv(Apply(s, xs[0], options), xs[1..], options);
    }
  }

  /** In every run every answer is the conversion of the pixels of the very frame the caller
      asked about, still live at that address, and as long as the size hook says. */
  lemma GetDataReturnsOwnImage(start: State, xs: seq<Action>, x: Action, options: Options)
    requires Fresh(start) && Legal(start, xs, options)
    requires Enabled(After(start, xs, options), x)
    requires AnswerOf(After(start, xs, options), x).Returned?
    ensures var s := After(start, xs, options);
            var a := AnswerOf(s, x);
      && a.address in s.live && Holds(a.buffer, s.live[a.address].frame, options)
      && (x.Emplace? ==> s.live[a.address].frame == s.threads[x.thread].asked)
      && |a.buffer.bytes| == DataSize(s.live[a.address].frame)
      && |a.buffer.bytes| == Stride(s.live[a.address].frame) * s.live[a.address].frame.height
  {
    hide ImageOf, Spare, Accepts;
    FreshInv(start, options);
    RunKeepsInv(start, xs, options);
    var s := After(start, xs, options);
    var a := AnswerOf(s, x);
    assert EntryOk(s, a.address, options);
    if x.Emplace? {
      assert CallOk(s, x.thread, options);
    }
    var f := s.live[a.address].frame;
    assert f.width * f.height * 3 == f.width * 3 * f.height;
  }

  /** Until a release of the frame begins, its cached buffer is neither replaced nor dropped. */
  lemma {:induction false} EntryIsStable(s: State, xs: seq<Action>, options: Options, a: nat)
    requires Legal(s, xs, options) && a in s.cache
    requires forall i | 0 <= i < |xs| :: !(xs[i].Erase? && xs[i].address == a)
    ensures a in After(s, xs, options).cache
    ensures After(s, xs, options).cache[a] == s.cache[a]
    decreases |xs|
  {
    if xs != [] {
      var next := Apply(s, xs[0], options);
      assert a in next.cache && next.cache[a] == s.cache[a];
      EntryIsStable(next, xs[1..], options, a);
    }
  }

  /** Racing conversions agree: two answers for one frame with no release begun in between
      are one buffer. */
  lemma AnswersShareOneBuffer(s: State, x: Action, xs: seq<Action>, y: Action, options: Options)
    requires Enabled(s, x) && AnswerOf(s, x).Returned?
    requires Legal(Apply(s, x, options), xs, options)
    requires var t := After(Apply(s, x, options), xs, options);
      Enabled(t, y) && AnswerOf(t, y).Returned? && AnswerOf(t, y).address == AnswerOf(s, x).address
    requires forall i | 0 <= i < |xs| ::
               !(xs[i].Erase? && xs[i].address == AnswerOf(s, x).address)
    ensures AnswerOf(After(Apply(s, x, options), xs, options), y) == AnswerOf(s, x)
  {
    var a, next := AnswerOf(s, x), Apply(s, x, options);
    assert a.address in next.cache && next.cache[a.address] == a.buffer;
    EntryIsStable(next, xs, options, a.address);
  }

  // -------------------------------------------------- how long a buffer is kept

  /** Beginning to give up one of several references drops the cached buffer although the frame
      lives on with a reference nobody is giving up. */
  lemma SharedEntryIsDropped(s: State, t: nat, a: nat, options: Options)
    requires Inv(s, options) && a in s.cache && 1 < Spare(s, a) && Enabled(s, Erase(t, a))
    ensures var next := Apply(s, Erase(t, a), options);
      a !in next.cache && 0 < Spare(next, a) && a in next.live && next.live[a] == s.live[a]
  {
    assert EntryOk(s, a, options);
    SpareStep(s, Erase(t, a), options, a);
  }

  /** Every buffer has its own id: those in the cache and those about to be published. */
  ghost predicate IdsOk(s: State) {
    && (forall a | a in s.cache :: s.cache[a].id < s.nextId)
    && (forall t: nat | t < |s.threads| && s.threads[t].Converted? :: s.threads[t].buffer.id < s.nextId)
    && (forall a, b | a in s.cache && b in s.cache && a != b :: s.cache[a].id != s.cache[b].id)
    && (forall a, t: nat | a in s.cache && t < |s.threads| && s.threads[t].Converted? ::
          s.cache[a].id != s.threads[t].buffer.id)
    && (forall t: nat, u: nat | t < u < |s.threads| && s.threads[t].Converted? && s.threads[u].Converted? ::
          s.threads[t].buffer.id != s.threads[u].buffer.id)
  }

  lemma StepKeepsIds(s: State, x: Action, options: Options)
    requires IdsOk(s) && Enabled(s, x)
    ensures IdsOk(Apply(s, x, options))
  {
    hide ImageOf, Spare, Accepts, DescribeVirtual;
  }

  lemma {:induction false} RunKeepsIds(s: State, xs: seq<Action>, options: Options)
    requires IdsOk(s) && Legal(s, xs, options)
    ensures IdsOk(After(s, xs, options))
    decreases |xs|
  {
    if xs != [] {
      hide IdsOk, Apply;
      StepKeepsIds(s, xs[0], options);
      RunKeepsIds(Apply(s, xs[0], options), xs[1..], options);
    }
  }

  /** A buffer that is neither cached nor about to be published. */
  ghost predicate Gone(s: State, id: nat) {
    && id < s.nextId
    && (forall a | a in s.cache :: s.cache[a].id != id)
    && forall t: nat | t < |s.threads| && s.threads[t].Converted? :: s.threads[t].buffer.id != id
  }

  lemma {:induction false} GoneForever(s: State, xs: seq<Action>, options: Options, id: nat)
    requires Gone(s, id) && Legal(s, xs, options)
    ensures Gone(After(s, xs, options), id)
    decreases |xs|
  {
    if xs != [] {
      GoneStep(s, xs[0], options, id);
      hide Gone, Apply;
      GoneForever(Apply(s, xs[0], options), xs[1..], options, id);
    }
  }

  lemma GoneStep(s: State, x: Action, options: Options, id: nat)
    requires Gone(s, id) && Enabled(s, x)
    ensures Gone(Apply(s, x, options), id)
  {
    hide ImageOf, Spare, Accepts, DescribeVirtual;
  }

  lemma ErasedIsGone(s: State, t: nat, a: nat, options: Options)
    requires IdsOk(s) && a in s.cache && Enabled(s, Erase(t, a))
    ensures Gone(Apply(s, Erase(t, a), options), s.cache[a].id)
  {
    hide Spare;
  }

  predicate Erases(x: Action, a: nat) {
    x.Erase? && x.address == a
  }

  ghost predicate Survives(s: State, after: State, a: nat)
    requires a in s.cache
  {
    a in after.cache && after.cache[a] == s.cache[a]
  }

  lemma {:induction false} SurvivesRunIff(s: State, xs: seq<Action>, options: Options, a: nat)
    requires IdsOk(s) && Legal(s, xs, options) && a in s.cache
    ensures Survives(s, After(s, xs, options), a) <==> forall i | 0 <= i < |xs| :: !Erases(xs[i], a)
    decreases |xs|
  {
    if xs != [] {
      var next := Apply(s, xs[0], options);
      if Erases(xs[0], a) {
        ErasedIsGone(s, xs[0].thread, a, options);
        GoneForever(next, xs[1..], options, s.cache[a].id);
      } else {
        StepKeepsIds(s, xs[0], options);
        assert a in next.cache && next.cache[a] == s.cache[a];
        hide Apply, IdsOk;
        SurvivesRunIff(next, xs[1..], options, a);
      }
    }
  }

  /** From every reachable state on, a cached buffer survives a run exactly when no release of its
      frame begins in it, however many references to the frame remain. */
  lemma EntrySurvivesIffNoReleaseBegins(start: State, ys: seq<Action>, xs: seq<Action>, options: Options, a: nat)
    requires Fresh(start) && Legal(start, ys, options)
    requires Legal(After(start, ys, options), xs, options) && a in After(start, ys, options).cache
    ensures var s := After(start, ys, options);
      Survives(s, After(s, xs, options), a) <==> forall i | 0 <= i < |xs| :: !Erases(xs[i], a)
  {
    RunKeepsIds(start, ys, options);
    SurvivesRunIff(After(start, ys, options), xs, options, a);
  }

  // ---------------------------------------------------------------- every call answers

  /** An infrared frame that can be shown: a size, rows that fit the stride and the data, and
      percentiles in order. */
  predicate CanBeShown(f: Frame, options: Options) {
    && f.infrared && 0 < f.width <= f.stride && 0 < f.height && f.height * f.stride <= |f.source|
    && options.lowPercentile < options.highPercentile <= 100
  }

  lemma ShownIsConverted(f: Frame, options: Options)
    ensures CanBeShown(f, options) <==> DescribeVirtual(f) && Convertible(f, options)
    ensures CanBeShown(f, options) ==> DataSize(f) == 3 * (f.width * f.height) && Stride(f) == 3 * f.width
  {
  }

  /** A call for a live frame that can be shown, undisturbed, answers with its image: from the cache
      if there is one, and otherwise after converting it, which fills the cache. */
  lemma CallAnswers(s: State, t: nat, a: nat, options: Options) returns (steps: seq<Action>, last: Action)
    requires Inv(s, options) && t < |s.threads| && s.threads[t].Idle? && 0 < Spare(s, a) && a in s.live
    requires CanBeShown(s.live[a].frame, options)
    ensures Legal(s, steps, options) && Enabled(After(s, steps, options), last)
    ensures DescribeVirtual(s.live[a].frame) && Convertible(s.live[a].frame, options)
    ensures var answer := AnswerOf(After(s, steps, options), last);
      && answer.Returned? && answer.address == a && answer.buffer.bytes == ImageOf(s.live[a].frame, options)
      && (a in s.cache ==> steps == [] && answer.buffer == s.cache[a])
      && var after := Apply(After(s, steps, options), last, options);
         a in after.cache && after.cache[a] == answer.buffer
  {
    var f := s.live[a].frame;
    ShownIsConverted(f, options);
    var find := Find(t, a);
    if a in s.cache {
      assert EntryOk(s, a, options);
      steps, last := [], find;
    } else {
      var convert := Convert(t);
      last := Emplace(t);
      hide Spare, DescribeVirtual, Convertible, ImageOf, Inv;
      var s1 := Apply(s, find, options);
      assert s1.threads[t] == Missed(a, f);
      var s2 := Apply(s1, convert, options);
      assert s2.threads[t] == Converted(a, f, Buffer(s1.nextId, ImageOf(f, options)));
      steps := [find, convert];
      assert steps[1..] == [convert] && steps[1..][1..] == [];
      assert Legal(s2, [], options);
      assert Legal(s1, [convert], options);
      assert After(s2, [], options) == s2 && After(s1, [convert], options) == s2;
    }
  }

  /** A frame that cannot be shown is never in the cache, and no call for it answers. */
  lemma NoAnswerForOthers(s: State, t: nat, a: nat, options: Options)
    requires Inv(s, options) && a in s.live && !CanBeShown(s.live[a].frame, options)
    ensures a !in s.cache
    ensures t < |s.threads| && s.threads[t].Missed? && s.threads[t].address == a ==>
              Apply(s, Convert(t), options).threads[t].Idle?
    ensures t < |s.threads| && s.threads[t].Converted? ==> s.threads[t].address != a
  {
    ShownIsConverted(s.live[a].frame, options);
    assert EntryOk(s, a, options);
    if t < |s.threads| {
      assert CallOk(s, t, options);
    }
    hide Spare, ImageOf, DescribeVirtual, Convertible;
  }
}
