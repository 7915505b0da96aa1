/** The shared-memory records that the host and the SPiKE worker exchange, and the
    odd/even sequence protocol that guards them.

    A record is written by one process and read by any number of readers.  Every
    shared access (one sequence load or store, one payload cell) is a separate step,
    and steps of different parties interleave arbitrarily; memory is sequentially
    consistent.  The sequence cell is an unbounded natural number. */
module Seqlock {

  /** One cell of a record's payload: a field, an array element or a byte. */
  type Word = int

  /** Depth: host writes, worker reads.  Pose: worker writes, host reads. */
  datatype Channel = Depth | Pose

  const MAXIMUM_WIDTH := 848
  const MAXIMUM_HEIGHT := 480
  const MAXIMUM_SAMPLES := MAXIMUM_WIDTH * MAXIMUM_HEIGHT

  // Cells of the depth header: frame sequence, host time, scale, width, height,
  // principal point, focal lengths, distortion model, five distortion
  // coefficients, device index and the 32 bytes of the serial number.
  const KEY := 0
  const WIDTH := 3
  const HEIGHT := 4
  const FOCAL_X := 7
  const FOCAL_Y := 8
  const DEPTH_HEADER := 48
  // Pose metadata (6 cells) followed by the joint, confidence, state, centroid and
  // source-sequence arrays: 45 + 15 + 15 + 90 + 30 + 6 + 2 cells.
  const POSE_CELLS := 209

  function HeaderCells(c: Channel): nat {
    if c.Depth? then DEPTH_HEADER else POSE_CELLS
  }

  function Capacity(c: Channel): nat {
    if c.Depth? then DEPTH_HEADER + MAXIMUM_SAMPLES else POSE_CELLS
  }

  /** What a publisher accepts before it touches the record. */
  predicate Publishable(c: Channel, p: seq<Word>) {
    match c
    case Depth =>
      && DEPTH_HEADER <= |p|
      && 0 < p[WIDTH] <= MAXIMUM_WIDTH
      && 0 < p[HEIGHT] <= MAXIMUM_HEIGHT
      && 0 < p[FOCAL_X] && 0 < p[FOCAL_Y]
      && |p| == DEPTH_HEADER + p[WIDTH] * p[HEIGHT]
      && |p| <= Capacity(Depth)
    case Pose => |p| == POSE_CELLS
  }

  // ------------------------------------------------------- the sequence cell

  /** The value begin_write leaves behind. */
  function BeginValue(v: nat): nat {
    if (v + 1) % 2 == 0 then v + 2 else v + 1
  }

  /** The value end_write leaves behind. */
  function EndValue(v: nat): nat {
    if (v + 1) % 2 != 0 then v + 2 else v + 1
  }

  class SequenceCell {
    var value: nat

    constructor ()
      ensures value == 0
    {
      value := 0;
    }

    method Increment() returns (result: nat)
      modifies this
      ensures value == result == old(value) + 1
    {
      value := value + 1;
      result := value;
    }

    /** The host's begin_write: increment, and once more when the result is even. */
    method BeginWrite() returns (result: nat)
      modifies this
      ensures value == result == BeginValue(old(value))
      ensures value % 2 == 1 && old(value) < value <= old(value) + 2
    {
      result := Increment();
      if result % 2 == 0 {
        result := Increment();
      }
    }

    /** The host's end_write. */
    method EndWrite()
      modifies this
      ensures value == EndValue(old(value))
      ensures value % 2 == 0 && old(value) < value <= old(value) + 2
    {
      var result := Increment();
      if result % 2 != 0 {
        var _ := Increment();
      }
    }

    /** The worker's _begin_write: one load, one store. */
    method WorkerBeginWrite()
      modifies this
      ensures value == BeginValue(old(value))
    {
      var result := value + 1;
      if result % 2 == 0 {
        result := result + 1;
      }
      value := result;
    }

    /** The worker's _end_write. */
    method WorkerEndWrite()
      modifies this
      ensures value == EndValue(old(value))
    {
      var result := value + 1;
      if result % 2 != 0 {
        result := result + 1;
      }
      value := result;
    }
  }

  // ----------------------------------------------------------------- the state

  /** Where the writer is inside one publish.  The host increments the cell with an
      interlocked instruction and tests the value it got back; the worker loads the
      cell, computes the new value and stores it. */
  datatype Writer =
    | Idle
    | BeginTest(payload: seq<Word>, value: nat)
    | BeginStore(payload: seq<Word>, value: nat)
    | Copying(payload: seq<Word>, copied: set<nat>)
    | EndTest(payload: seq<Word>, value: nat)
    | EndStore(payload: seq<Word>, value: nat)

  /** Where a reader is inside one call.  got holds the cells copied so far. */
  datatype Progress =
    | Rest
    | Probe(attempt: nat)
    | Fetch(attempt: nat, first: nat, got: map<nat, Word>)
    | Waiting

  /** A snapshot a reader accepted.  advanced records whether the caller moved its
      cursor past it. */
  datatype Delivery = Delivery(payload: seq<Word>, first: nat, advanced: bool)

  datatype Reader = Reader(cursor: nat, at: Progress, delivered: seq<Delivery>)

  /** published lists the payloads of all completed publishes, oldest first. */
  datatype State = State(
    sequence: nat,
    cells: seq<Word>,
    writer: Writer,
    readers: seq<Reader>,
    published: seq<seq<Word>>)

  /** A freshly zeroed mapping. */
  function Initial(c: Channel, readers: nat): State {
    State(0, seq(Capacity(c), _ => 0), Idle,
          seq(readers, _ => Reader(0, Rest, [])), [])
  }

  /** The register the protocol implements: the payload of the last completed
      publish, if there is one. */
  function Register(s: State): seq<seq<Word>> {
    if s.published == [] then [] else [s.published[|s.published| - 1]]
  }

  datatype Action =
    | Publish(payload: seq<Word>)      // enter publish_depth / publish_pose
    | WriterSequence                   // the writer's next access to the sequence cell
    | WriterCell(index: nat)           // the writer stores one payload cell
    | Call(reader: nat)                // enter read_depth / wait_for_pose
    | ReadFirst(reader: nat)           // the first sequence load of an attempt
    | ReadCell(reader: nat, index: nat)
    | Reject(reader: nat)              // read_depth returns None on its metadata test
    | ReadSecond(reader: nat, advance: bool)
    | Wake(reader: nat, expired: bool) // wait_for_pose after four attempts

  predicate HeaderRead(c: Channel, got: map<nat, Word>) {
    forall i: nat | i < HeaderCells(c) :: i in got
  }

  /** The metadata test of read_depth.  It runs on cells that may be torn. */
  predicate Plausible(c: Channel, got: map<nat, Word>, cursor: nat)
    requires HeaderRead(c, got)
  {
    match c
    case Depth =>
      && cursor < got[KEY]
      && 0 < got[WIDTH] <= MAXIMUM_WIDTH
      && 0 < got[HEIGHT] <= MAXIMUM_HEIGHT
      && got[WIDTH] * got[HEIGHT] <= MAXIMUM_SAMPLES
    case Pose => true
  }

  /** How many cells the current attempt copies, as far as it knows. */
  function Wanted(c: Channel, got: map<nat, Word>, cursor: nat): (n: int) {
    if c.Depth? && HeaderRead(c, got) && Plausible(c, got, cursor) then
      DEPTH_HEADER + got[WIDTH] * got[HEIGHT]
    else
      HeaderCells(c)
  }

  /** The snapshot is complete and may be compared with the second sequence load. */
  predicate Complete(c: Channel, got: map<nat, Word>, cursor: nat) {
    && HeaderRead(c, got)
    && Plausible(c, got, cursor)
    && forall i: nat | i < Wanted(c, got, cursor) :: i in got
  }

  function Snapshot(c: Channel, got: map<nat, Word>, cursor: nat): seq<Word>
    requires Complete(c, got, cursor)
    requires 0 <= Wanted(c, got, cursor)
  {
    seq(Wanted(c, got, cursor), i requires 0 <= i < Wanted(c, got, cursor) => got[i])
  }

  function Attempts(c: Channel): nat {
    if c.Depth? then 5 else 4
  }

  /** A failed attempt: try again, or leave the attempt loop. */
  function Retry(c: Channel, attempt: nat): Progress {
    if attempt + 1 < Attempts(c) then Probe(attempt + 1)
    else if c.Depth? then Rest
    else Waiting
  }

  predicate Refuses(c: Channel, sequence: nat) {
    sequence % 2 != 0 || (c.Depth? && sequence == 0)
  }

  predicate ReaderEnabled(c: Channel, s: State, a: Action)
    requires !a.Publish? && !a.WriterSequence? && !a.WriterCell?
  {
    a.reader < |s.readers| &&
    var r := s.readers[a.reader];
    match a
    case Call(_) => r.at.Rest?
    case ReadFirst(_) => r.at.Probe?
    case ReadCell(_, i) => r.at.Fetch? && i !in r.at.got && i < Wanted(c, r.at.got, r.cursor)
    case Reject(_) =>
      c.Depth? && r.at.Fetch? && HeaderRead(c, r.at.got) && !Plausible(c, r.at.got, r.cursor)
    case ReadSecond(_, advance) =>
      && r.at.Fetch? && Complete(c, r.at.got, r.cursor)
      && (c.Pose? ==> advance)
    case Wake(_, _) => r.at.Waiting?
  }

  predicate Enabled(c: Channel, s: State, a: Action) {
    match a
    case Publish(p) => s.writer.Idle? && Publishable(c, p)
    case WriterSequence =>
      && !s.writer.Idle?
      && (s.writer.Copying? ==> forall i: nat | i < |s.writer.payload| :: i in s.writer.copied)
    case WriterCell(i) =>
      && s.writer.Copying? && i < |s.writer.payload| && i < |s.cells|
      && i !in s.writer.copied
    case _ => ReaderEnabled(c, s, a)
  }

  /** Entering a publish performs the first access to the sequence cell. */
  function StartPublish(c: Channel, s: State, p: seq<Word>): State {
    if c.Depth? then
      s.(sequence := s.sequence + 1, writer := BeginTest(p, s.sequence + 1))
    else
      s.(writer := BeginStore(p, BeginValue(s.sequence)))
  }

  function AdvanceWriter(c: Channel, s: State): State
    requires !s.writer.Idle?
  {
    match s.writer
    case BeginTest(p, v) =>
      if v % 2 == 0 then s.(sequence := s.sequence + 1, writer := Copying(p, {}))
      else s.(writer := Copying(p, {}))
    case BeginStore(p, v) => s.(sequence := v, writer := Copying(p, {}))
    case Copying(p, _) =>
      if c.Depth? then
        Settle(s.(sequence := s.sequence + 1, writer := EndTest(p, s.sequence + 1)), p)
      else s.(writer := EndStore(p, EndValue(s.sequence)))
    case EndTest(p, v) =>
      if v % 2 != 0 then Settle(s.(sequence := s.sequence + 1, writer := Idle), p)
      else s.(writer := Idle)
    case EndStore(p, v) => Settle(s.(sequence := v, writer := Idle), p)
  }

  /** The publish takes effect when the sequence becomes even. */
  function Settle(s: State, p: seq<Word>): State {
    if s.sequence % 2 == 0 then s.(published := s.published + [p]) else s
  }

  /** The second sequence load and the decision that follows it. */
  function Decide(c: Channel, s: State, r: Reader, advance: bool): Reader
    requires r.at.Fetch? && Complete(c, r.at.got, r.cursor)
  {
    var n := Wanted(c, r.at.got, r.cursor);
    if r.at.first == s.sequence && s.sequence % 2 == 0 && r.cursor < r.at.got[KEY] && 0 <= n then
      var payload := Snapshot(c, r.at.got, r.cursor);
      Reader(if advance then r.at.got[KEY] else r.cursor, Rest,
             r.delivered + [Delivery(payload, r.at.first, advance)])
    else
      r.(at := Retry(c, r.at.attempt))
  }

  function MoveReader(c: Channel, s: State, a: Action): Reader
    requires !a.Publish? && !a.WriterSequence? && !a.WriterCell?
    requires ReaderEnabled(c, s, a)
    requires |s.cells| == Capacity(c)
  {
    var r := s.readers[a.reader];
    match a
    case Call(_) => r.(at := Probe(0))
    case ReadFirst(_) =>
      if Refuses(c, s.sequence) then r.(at := Retry(c, r.at.attempt))
      else r.(at := Fetch(r.at.attempt, s.sequence, map[]))
    case ReadCell(_, i) =>
      CopyStaysInside(c, r.at.got, r.cursor);
      r.(at := r.at.(got := r.at.got[i := s.cells[i]]))
    case Reject(_) => r.(at := Rest)
    case ReadSecond(_, advance) => Decide(c, s, r, advance)
    case Wake(_, expired) => r.(at := if expired then Rest else Probe(0))
  }

  /** One step of the whole channel. */
  function Apply(c: Channel, s: State, a: Action): State
    requires Enabled(c, s, a)
    requires |s.cells| == Capacity(c)
  {
    match a
    case Publish(p) => StartPublish(c, s, p)
    case WriterSequence => AdvanceWriter(c, s)
    case WriterCell(i) =>
      s.(cells := s.cells[i := s.writer.payload[i]],
         writer := s.writer.(copied := s.writer.copied + {i}))
    case _ => s.(readers := s.readers[a.reader := MoveReader(c, s, a)])
  }

  // ----------------------------------------------------------- the invariant

  /** The record's cells hold the register's value. */
  ghost predicate Stable(s: State) {
    if s.published == [] then forall i | 0 <= i < |s.cells| :: s.cells[i] == 0
    else
      var last := s.published[|s.published| - 1];
      && |last| <= |s.cells|
      && forall i | 0 <= i < |last| :: s.cells[i] == last[i]
  }

  ghost predicate WriterInv(c: Channel, s: State) {
    && |s.cells| == Capacity(c)
    && (forall k | 0 <= k < |s.published| :: Publishable(c, s.published[k]))
    && (s.sequence % 2 == 0 ==> Stable(s) && s.sequence == 2 * |s.published|)
    && (s.sequence % 2 == 1 ==> s.sequence == 2 * |s.published| + 1)
    && match s.writer
       case Idle => s.sequence % 2 == 0
       case BeginTest(p, v) =>
         c.Depth? && Publishable(c, p) && v == s.sequence && s.sequence % 2 == 1
       case BeginStore(p, v) =>
         c.Pose? && Publishable(c, p) && v == s.sequence + 1 && s.sequence % 2 == 0
       case Copying(p, done) =>
         && Publishable(c, p) && s.sequence % 2 == 1 && |p| <= |s.cells|
         && forall i | i in done :: i < |p| && s.cells[i] == p[i]
       case EndTest(p, v) =>
         c.Depth? && v == s.sequence && s.sequence % 2 == 0
       case EndStore(p, v) =>
         && c.Pose? && Publishable(c, p) && v == s.sequence + 1 && s.sequence % 2 == 1
         && |p| <= |s.cells| && forall i | 0 <= i < |p| :: s.cells[i] == p[i]
  }

  /** An accepted snapshot is the payload of one completed publish. */
  ghost predicate Faithful(s: State, d: Delivery) {
    && d.first % 2 == 0 && 2 <= d.first <= s.sequence
    && d.first / 2 <= |s.published|
    && d.payload == s.published[d.first / 2 - 1]
    && 0 < |d.payload| && 0 < d.payload[KEY]
  }

  /** Deliveries follow publication order, and never repeat a publish that the
      reader's cursor has passed. */
  ghost predicate Ordered(ds: seq<Delivery>) {
    && (forall d | d in ds :: 0 < |d.payload|)
    && forall i, j | 0 <= i < j < |ds| ::
      && ds[i].first <= ds[j].first
      && (ds[i].advanced ==>
        ds[i].first < ds[j].first && ds[i].payload[KEY] < ds[j].payload[KEY])
  }

  ghost predicate ReaderInv(c: Channel, s: State, r: Reader) {
    && (forall d | d in r.delivered :: Faithful(s, d))
    && (forall d | d in r.delivered && d.advanced :: d.payload[KEY] <= r.cursor)
    && Ordered(r.delivered)
    && (r.at.Fetch? ==>
      && r.at.first % 2 == 0 && r.at.first <= s.sequence
      && (forall d | d in r.delivered :: d.first <= r.at.first)
      && (r.at.first == s.sequence ==>
        forall i: nat | i in r.at.got :: i < |s.cells| && r.at.got[i] == s.cells[i]))
  }

  ghost predicate Inv(c: Channel, s: State) {
    && WriterInv(c, s)
    && forall k | 0 <= k < |s.readers| :: ReaderInv(c, s, s.readers[k])
  }

  lemma InitialInv(c: Channel, readers: nat)
    ensures Inv(c, Initial(c, readers))
  {
  }

  /** Whatever the metadata cells contain, the copy loop of read_depth never leaves
      the record. */
  lemma CopyStaysInside(c: Channel, got: map<nat, Word>, cursor: nat)
    ensures HeaderCells(c) <= Wanted(c, got, cursor) <= Capacity(c)
  {
    if c.Depth? && HeaderRead(c, got) && Plausible(c, got, cursor) {
      assert 0 <= got[WIDTH] * got[HEIGHT];
    }
  }

  lemma WriterStepKeepsInv(c: Channel, s: State, a: Action)
    requires Inv(c, s) && Enabled(c, s, a)
    requires a.Publish? || a.WriterSequence? || a.WriterCell?
    ensures WriterInv(c, Apply(c, s, a))
    ensures s.sequence <= Apply(c, s, a).sequence
    ensures s.published <= Apply(c, s, a).published
    ensures Apply(c, s, a).sequence == s.sequence ==>
      Apply(c, s, a).published == s.published && (s.sequence % 2 == 0 ==> Apply(c, s, a).cells == s.cells)
    ensures Apply(c, s, a).writer != s.writer
  {
  }

  lemma ReaderSurvivesWriter(c: Channel, s: State, a: Action, k: nat)
    requires Inv(c, s) && Enabled(c, s, a) && k < |s.readers|
    requires a.Publish? || a.WriterSequence? || a.WriterCell?
    ensures ReaderInv(c, Apply(c, s, a), s.readers[k])
  {
    WriterStepKeepsInv(c, s, a);
    var s' := Apply(c, s, a);
    var r := s.readers[k];
    forall d | d in r.delivered
      ensures Faithful(s', d)
    {
      assert Faithful(s, d);
    }
  }

  /** The heart of the protocol: when both sequence loads agree on an even value, the
      copied cells are exactly the register's value. */
  lemma AcceptedIsRegister(c: Channel, s: State, r: Reader)
    requires WriterInv(c, s) && ReaderInv(c, s, r)
    requires r.at.Fetch? && Complete(c, r.at.got, r.cursor)
    requires r.at.first == s.sequence && s.sequence % 2 == 0 && r.cursor < r.at.got[KEY]
    ensures 0 <= Wanted(c, r.at.got, r.cursor)
    ensures Register(s) == [Snapshot(c, r.at.got, r.cursor)]
    ensures 2 <= s.sequence && s.sequence / 2 == |s.published|
  {
    CopyStaysInside(c, r.at.got, r.cursor);
    assert r.at.got[KEY] == s.cells[KEY];
    var last := s.published[|s.published| - 1];
    assert Publishable(c, last);
    assert last[KEY] == s.cells[KEY];
    if c.Depth? {
      assert r.at.got[WIDTH] == s.cells[WIDTH] == last[WIDTH];
      assert r.at.got[HEIGHT] == s.cells[HEIGHT] == last[HEIGHT];
    }
    assert |last| == Wanted(c, r.at.got, r.cursor);
    assert Snapshot(c, r.at.got, r.cursor) == last;
  }

  lemma DeliveryKeepsOrder(c: Channel, s: State, r: Reader, d: Delivery)
    requires ReaderInv(c, s, r) && Faithful(s, d) && r.cursor < d.payload[KEY]
    requires r.at.Fetch? && d.first == r.at.first
    ensures Ordered(r.delivered + [d])
  {
    var ds := r.delivered + [d];
    forall i, j | 0 <= i < j < |ds|
      ensures ds[i].first <= ds[j].first
      ensures ds[i].advanced ==>
        ds[i].first < ds[j].first && ds[i].payload[KEY] < ds[j].payload[KEY]
    {
      assert ds[i] == r.delivered[i] && r.delivered[i] in r.delivered;
      if j < |r.delivered| {
        assert ds[j] == r.delivered[j];
      } else {
        assert Faithful(s, ds[i]);
      }
    }
  }

  lemma ReaderStepKeepsInv(c: Channel, s: State, a: Action)
    requires Inv(c, s) && Enabled(c, s, a)
    requires !a.Publish? && !a.WriterSequence? && !a.WriterCell?
    ensures ReaderInv(c, s, MoveReader(c, s, a))
  {
    var r := s.readers[a.reader];
    assert ReaderInv(c, s, r);
    match a
    case ReadSecond(_, advance) =>
      CopyStaysInside(c, r.at.got, r.cursor);
      if r.at.first == s.sequence && s.sequence % 2 == 0 && r.cursor < r.at.got[KEY] {
        AcceptedIsRegister(c, s, r);
        var payload := Snapshot(c, r.at.got, r.cursor);
        var d := Delivery(payload, r.at.first, advance);
        assert payload[KEY] == r.at.got[KEY];
        assert Faithful(s, d);
        DeliveryKeepsOrder(c, s, r, d);
      }
    case ReadCell(_, _) => CopyStaysInside(c, r.at.got, r.cursor);
    case _ =>
  }

  /** The facts about the writer and one reader do not depend on the list of readers. */
  lemma OtherReadersDoNotMatter(c: Channel, s: State, readers: seq<Reader>, r: Reader)
    ensures WriterInv(c, s) ==> WriterInv(c, s.(readers := readers))
    ensures ReaderInv(c, s, r) ==> ReaderInv(c, s.(readers := readers), r)
  {
    var s' := s.(readers := readers);
    assert forall d | d in r.delivered :: Faithful(s, d) ==> Faithful(s', d);
  }

  lemma WriterLeavesReaders(c: Channel, s: State, a: Action)
    requires Enabled(c, s, a) && |s.cells| == Capacity(c)
    requires a.Publish? || a.WriterSequence? || a.WriterCell?
    ensures Apply(c, s, a).readers == s.readers
  {
  }

  lemma StepKeepsInv(c: Channel, s: State, a: Action)
    requires Inv(c, s) && Enabled(c, s, a)
    ensures Inv(c, Apply(c, s, a))
    ensures s.sequence <= Apply(c, s, a).sequence
    ensures s.published <= Apply(c, s, a).published
    ensures |Apply(c, s, a).readers| == |s.readers|
  {
    if a.Publish? || a.WriterSequence? || a.WriterCell? {
      assert |s.cells| == Capacity(c);
      hide Enabled, Apply, WriterInv, ReaderInv;
      WriterStepKeepsInv(c, s, a);
      WriterLeavesReaders(c, s, a);
      forall k | 0 <= k < |s.readers|
        ensures ReaderInv(c, Apply(c, s, a), s.readers[k])
      {
        ReaderSurvivesWriter(c, s, a, k);
      }
    } else {
      ReaderStepKeepsInv(c, s, a);
      assert |s.cells| == Capacity(c) && a.reader < |s.readers|;
      hide WriterInv, ReaderInv, MoveReader, Enabled;
      var readers := s.readers[a.reader := MoveReader(c, s, a)];
      assert Apply(c, s, a) == s.(readers := readers);
      forall k | 0 <= k < |readers|
        ensures ReaderInv(c, s.(readers := readers), readers[k])
        ensures WriterInv(c, s.(readers := readers))
      {
        OtherReadersDoNotMatter(c, s, readers, readers[k]);
      }
    }
  }
}
