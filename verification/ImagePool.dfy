/** The bounded, reference-counted image pool: producers make image descriptors, the
    callback consumer adds and releases references, on any number of threads.  Each
    locked section, atomic operation, malloc and free is one step. */
module ImagePool {
  import opened Basics

  type Id = nat

  const POOL_KEEP := 8

  /** capacity is the pixel area malloc reserved; frameBytes is desc.BytesPerFrame. */
  datatype Block = Block(capacity: nat, frameBytes: nat, references: int)

  datatype Thread =
    | Idle
    | Lookup(bytes: nat)                 // make_image_desc, before the pool lock
    | Count(bytes: nat)                  // no reusable block: load the counter
    | Reserve(bytes: nat, expected: int) // the compare-exchange loop
    | Reserved(bytes: nat)               // counted, malloc next
    | Undo                               // malloc failed
    | Filling(block: Id, bytes: nat)     // owns a block, not yet handed out
    | Releasing(block: Id)               // dropped the last reference
    | Freeing(block: Id)                 // free list full
    | Freed                              // freed, counter not yet lowered

  /** Who may touch a block: the free list, the clients that hold so many references
      to it, or one thread inside the pool's code. */
  datatype Owner = FreeList | Clients(references: nat) | Within(thread: nat)

  /** counted is g_imgAllocated; owner is bookkeeping the code does not have. */
  datatype State = State(
    pool: seq<Id>,
    counted: int,
    heap: map<Id, Block>,
    owner: map<Id, Owner>,
    threads: seq<Thread>)

  function Initial(threads: nat): State {
    State([], 0, map[], map[], seq(threads, _ => Idle))
  }

  predicate HasUnit(t: Thread) {
    t.Reserved? || t.Undo? || t.Filling? || t.Releasing? || t.Freeing? || t.Freed?
  }

  predicate HasBlock(t: Thread) {
    t.Filling? || t.Releasing? || t.Freeing?
  }

  /** The threads that account for one allocation between two owners. */
  function InFlight(threads: seq<Thread>): set<nat> {
    set t: nat | t < |threads| && HasUnit(threads[t])
  }

  /** The blocks clients hold. */
  function Outstanding(owner: map<Id, Owner>): set<Id> {
    set b | b in owner && owner[b].Clients?
  }

  // -------------------------------------------------------- the free-list scan

  /** The first free block of exactly the requested size, from position i on. */
  function FirstMatch(pool: seq<Id>, heap: map<Id, Block>, bytes: nat, i: nat): (r: Option<nat>)
    requires i <= |pool| && forall k | 0 <= k < |pool| :: pool[k] in heap
    ensures r.Some? ==> i <= r.value < |pool| && heap[pool[r.value]].frameBytes == bytes
    ensures r.Some? ==> forall k | i <= k < r.value :: heap[pool[k]].frameBytes != bytes
    ensures r.None? ==> forall k | i <= k < |pool| :: heap[pool[k]].frameBytes != bytes
    decreases |pool| - i
  {
    if i == |pool| then None
    else if heap[pool[i]].frameBytes == bytes then Some(i)
    else FirstMatch(pool, heap, bytes, i + 1)
  }

  function RemoveAt<T>(s: seq<T>, i: nat): seq<T>
    requires i < |s|
  {
    s[..i] + s[i + 1..]
  }

  class PoolList {
    var blocks: seq<Id>

    constructor ()
      ensures blocks == []
    {
      blocks := [];
    }

    /** The locked section of make_image_desc. */
    method TakeMatching(heap: map<Id, Block>, bytes: nat) returns (taken: Option<Id>)
      requires forall k | 0 <= k < |blocks| :: blocks[k] in heap
      modifies this
      ensures var found := FirstMatch(old(blocks), heap, bytes, 0);
        match found
        case None => taken == None && blocks == old(blocks)
        case Some(i) => taken == Some(old(blocks)[i]) && blocks == RemoveAt(old(blocks), i)
    {
      taken := None;
      var i := 0;
      while i < |blocks|
        invariant i <= |blocks| && blocks == old(blocks) && taken == None
        invariant FirstMatch(blocks, heap, bytes, 0) == FirstMatch(blocks, heap, bytes, i)
      {
        if heap[blocks[i]].frameBytes == bytes {
          taken := Some(blocks[i]);
          blocks := blocks[..i] + blocks[i + 1..];
          return;
        }
        i := i + 1;
      }
    }

    /** The locked section of the release path. */
    method Keep(block: Id) returns (pooled: bool)
      modifies this
      ensures pooled <==> |old(blocks)| < POOL_KEEP
      ensures blocks == if pooled then old(blocks) + [block] else old(blocks)
    {
      pooled := false;
      if |blocks| < POOL_KEEP {
        blocks := blocks + [block];
        pooled := true;
      }
    }
  }

  // ------------------------------------------------------------------- the steps

  datatype Action =
    | Make(thread: nat, bytes: nat)
    | Advance(thread: nat, spurious: bool) // the thread's next internal step
    | Malloc(thread: nat, result: Option<Id>)
    | AddRef(block: Id)
    | Release(thread: nat, block: Id)

  predicate ClientHolds(s: State, b: Id) {
    b in s.heap && b in s.owner && s.owner[b].Clients? && 0 < s.owner[b].references
  }

  predicate Enabled(s: State, a: Action) {
    match a
    case Make(t, _) => t < |s.threads| && s.threads[t].Idle?
    case Advance(t, _) =>
      && t < |s.threads| && !s.threads[t].Idle? && !s.threads[t].Reserved?
      && (s.threads[t].Lookup? ==> forall k | 0 <= k < |s.pool| :: s.pool[k] in s.heap)
      && (HasBlock(s.threads[t]) ==> s.threads[t].block in s.heap)
    case Malloc(t, result) =>
      && t < |s.threads| && s.threads[t].Reserved?
      && (result.Some? ==> result.value !in s.heap)
    case AddRef(b) => ClientHolds(s, b) // only an owner may add or drop a reference
    case Release(t, b) => t < |s.threads| && s.threads[t].Idle? && ClientHolds(s, b)
  }

  function SetThread(s: State, t: nat, thread: Thread): State
    requires t < |s.threads|
  {
    s.(threads := s.threads[t := thread])
  }

  function SetBlock(s: State, b: Id, block: Block, owner: Owner): State {
    s.(heap := s.heap[b := block], owner := s.owner[b := owner])
  }

  function AdvanceThread(cap: int, s: State, t: nat, spurious: bool): State
    requires Enabled(s, Advance(t, spurious))
  {
    match s.threads[t]
    case Lookup(bytes) =>
      (match FirstMatch(s.pool, s.heap, bytes, 0)
       case None => SetThread(s, t, Count(bytes))
       case Some(i) => Take(s, t, bytes, i))
    case Count(bytes) => SetThread(s, t, Reserve(bytes, s.counted))
    case Reserve(bytes, expected) =>
      if cap <= expected then SetThread(s, t, Idle)
      else if s.counted == expected && !spurious then
        SetThread(s, t, Reserved(bytes)).(counted := s.counted + 1)
      else SetThread(s, t, Reserve(bytes, s.counted))
    case Undo => SetThread(s, t, Idle).(counted := s.counted - 1)
    case Filling(b, bytes) =>
      SetBlock(SetThread(s, t, Idle), b, Block(s.heap[b].capacity, bytes, 1), Clients(1))
    case Releasing(b) =>
      if |s.pool| < POOL_KEEP then
        SetThread(s, t, Idle).(pool := s.pool + [b], owner := s.owner[b := FreeList])
      else SetThread(s, t, Freeing(b))
    case Freeing(b) => SetThread(s, t, Freed).(heap := s.heap - {b}, owner := s.owner - {b})
    case Freed => SetThread(s, t, Idle).(counted := s.counted - 1)
    case _ => s
  }

  /** A free block of the right size moves to the thread. */
  function Take(s: State, t: nat, bytes: nat, i: nat): State
    requires t < |s.threads| && i < |s.pool|
  {
    SetThread(s, t, Filling(s.pool[i], bytes))
      .(pool := RemoveAt(s.pool, i), owner := s.owner[s.pool[i] := Within(t)])
  }

  function ReleaseBlock(s: State, t: nat, b: Id): State
    requires Enabled(s, Release(t, b))
  {
    var previous := s.heap[b].references;
    var block := s.heap[b].(references := previous - 1);
    if previous == 1 then SetBlock(SetThread(s, t, Releasing(b)), b, block, Within(t))
    else SetBlock(s, b, block, Clients(s.owner[b].references - 1))
  }

  /** cap is image_pool_max. */
  function Apply(cap: int, s: State, a: Action): State
    requires Enabled(s, a)
  {
    match a
    case Make(t, bytes) => SetThread(s, t, Lookup(bytes))
    case Advance(t, spurious) => AdvanceThread(cap, s, t, spurious)
    case Malloc(t, None) => SetThread(s, t, Undo)
    case Malloc(t, Some(b)) =>
      SetBlock(SetThread(s, t, Filling(b, s.threads[t].bytes)), b,
               Block(s.threads[t].bytes, 0, 0), Within(t))
    case AddRef(b) =>
      SetBlock(s, b, s.heap[b].(references := s.heap[b].references + 1),
               Clients(s.owner[b].references + 1))
    case Release(t, b) => ReleaseBlock(s, t, b)
  }

  // --------------------------------------------------------------- invariants

  predicate Distinct(pool: seq<Id>) {
    forall i, j | 0 <= i < j < |pool| :: pool[i] != pool[j]
  }

  /** The free list, the threads and the bookkeeping agree on who owns what. */
  ghost predicate OwnershipInv(s: State) {
    && s.owner.Keys == s.heap.Keys
    && Distinct(s.pool)
    && (forall k | 0 <= k < |s.pool| :: s.pool[k] in s.owner && s.owner[s.pool[k]] == FreeList)
    && (forall b | b in s.owner :: s.owner[b] == FreeList ==> b in s.pool)
    && (forall t | 0 <= t < |s.threads| && HasBlock(s.threads[t]) ::
          s.threads[t].block in s.owner && s.owner[s.threads[t].block] == Within(t))
    && (forall b | b in s.owner && s.owner[b].Within? ::
          var t := s.owner[b].thread;
          t < |s.threads| && HasBlock(s.threads[t]) && s.threads[t].block == b)
  }

  /** Reference counts are exact, and the pixels written always fit the block. */
  ghost predicate BlockInv(s: State) {
    && (forall b | b in s.owner && b in s.heap :: s.owner[b].Clients? ==>
          0 < s.owner[b].references == s.heap[b].references)
    && (forall b | b in s.owner && b in s.heap :: !s.owner[b].Within? ==>
          s.heap[b].frameBytes == s.heap[b].capacity)
    && (forall t | 0 <= t < |s.threads| && HasBlock(s.threads[t]) && s.threads[t].block in s.heap ::
          var block := s.heap[s.threads[t].block];
          if s.threads[t].Filling? then block.capacity == s.threads[t].bytes
          else block.frameBytes == block.capacity)
  }

  /** Conservation and the cap. */
  ghost predicate CountInv(cap: int, s: State) {
    && |s.pool| <= POOL_KEEP
    && s.counted == |s.pool| + |Outstanding(s.owner)| + |InFlight(s.threads)|
    && (s.counted <= cap || s.counted == 0)
  }

  ghost predicate Inv(cap: int, s: State) {
    OwnershipInv(s) && BlockInv(s) && CountInv(cap, s)
  }

  lemma InitialInv(cap: int, threads: nat)
    ensures Inv(cap, Initial(threads))
  {
    assert InFlight(Initial(threads).threads) == {};
    assert Outstanding(map[]) == {};
  }

  lemma SetThreadCount(threads: seq<Thread>, t: nat, thread: Thread)
    requires t < |threads|
    ensures |InFlight(threads[t := thread])| ==
      |InFlight(threads)| + (if HasUnit(thread) then 1 else 0) - (if HasUnit(threads[t]) then 1 else 0)
  {
    var before, after := InFlight(threads), InFlight(threads[t := thread]);
    assert before - {t} == after - {t};
    assert t in before <==> HasUnit(threads[t]);
    assert t in after <==> HasUnit(thread);
    assert |before| == |before - {t}| + if t in before then 1 else 0;
    assert |after| == |after - {t}| + if t in after then 1 else 0;
  }

  lemma OutstandingAfter(owner: map<Id, Owner>, b: Id, o: Owner)
    ensures Outstanding(owner[b := o]) - {b} == Outstanding(owner) - {b}
    ensures b in Outstanding(owner[b := o]) <==> o.Clients?
    ensures b in Outstanding(owner) <==> b in owner && owner[b].Clients?
  {
  }

  lemma SetOwnerCount(owner: map<Id, Owner>, b: Id, o: Owner)
    ensures |Outstanding(owner[b := o])| == |Outstanding(owner)| + (if o.Clients? then 1 else 0)
      - (if b in owner && owner[b].Clients? then 1 else 0)
  {
    hide Outstanding;
    OutstandingAfter(owner, b, o);
    Without(Outstanding(owner), b);
    Without(Outstanding(owner[b := o]), b);
  }

  lemma DropOwnerCount(owner: map<Id, Owner>, b: Id)
    requires b in owner && !owner[b].Clients?
    ensures Outstanding(owner - {b}) == Outstanding(owner)
  {
  }

  lemma Without(s: set<Id>, b: Id)
    ensures |s| == |s - {b}| + if b in s then 1 else 0
  {
    if b !in s {
      assert s - {b} == s;
    }
  }

  lemma RemoveKeeps(pool: seq<Id>, i: nat)
    requires Distinct(pool) && i < |pool|
    ensures Distinct(RemoveAt(pool, i)) && |RemoveAt(pool, i)| == |pool| - 1
    ensures forall b :: b in RemoveAt(pool, i) <==> b in pool && b != pool[i]
  {
    var rest := RemoveAt(pool, i);
    forall b
      ensures b in rest <==> b in pool && b != pool[i]
    {
      if b in pool && b != pool[i] {
        var k :| 0 <= k < |pool| && pool[k] == b;
        assert rest[if k < i then k else k - 1] == b;
      }
      if b in rest {
        var k :| 0 <= k < |rest| && rest[k] == b;
        assert b == pool[if k < i then k else k + 1];
      }
    }
  }

  lemma TakeKeepsBlocks(s: State, t: nat, bytes: nat, i: nat)
    requires OwnershipInv(s) && BlockInv(s) && t < |s.threads| && s.threads[t].Lookup?
    requires i < |s.pool| && s.heap[s.pool[i]].frameBytes == bytes
    ensures BlockInv(Take(s, t, bytes, i))
  {
    hide Distinct, RemoveAt;
    assert s.owner[s.pool[i]] == FreeList;
  }

  lemma RestIsFree(s: State, b: Id, rest: seq<Id>)
    requires OwnershipInv(s) && forall c :: c in rest <==> c in s.pool && c != b
    ensures forall k | 0 <= k < |rest| ::
      rest[k] in s.owner && s.owner[rest[k]] == FreeList && rest[k] != b
  {
    hide Distinct;
    forall k | 0 <= k < |rest|
      ensures rest[k] in s.owner && s.owner[rest[k]] == FreeList && rest[k] != b
    {
      assert rest[k] in rest;
    }
  }

  lemma TakeKeepsOwners(s: State, t: nat, bytes: nat, i: nat)
    requires OwnershipInv(s) && t < |s.threads| && s.threads[t].Lookup? && i < |s.pool|
    ensures OwnershipInv(Take(s, t, bytes, i))
  {
    hide Distinct, RemoveAt;
    var b, rest := s.pool[i], RemoveAt(s.pool, i);
    RemoveKeeps(s.pool, i);
    assert b in s.owner && s.owner[b] == FreeList;
    RestIsFree(s, b, rest);
  }

  lemma TakeKeepsOwnership(s: State, t: nat, bytes: nat, i: nat)
    requires OwnershipInv(s) && BlockInv(s) && t < |s.threads| && s.threads[t].Lookup?
    requires i < |s.pool| && s.heap[s.pool[i]].frameBytes == bytes
    ensures OwnershipInv(Take(s, t, bytes, i)) && BlockInv(Take(s, t, bytes, i))
  {
    hide Take;
    TakeKeepsBlocks(s, t, bytes, i);
    TakeKeepsOwners(s, t, bytes, i);
  }

  /** Steps of a thread that has no block before or after. */
  lemma BlocklessKeepsOwnership(s: State, t: nat, thread: Thread, counted: int)
    requires OwnershipInv(s) && BlockInv(s) && t < |s.threads|
    requires !HasBlock(s.threads[t]) && !HasBlock(thread)
    ensures OwnershipInv(SetThread(s, t, thread).(counted := counted))
    ensures BlockInv(SetThread(s, t, thread).(counted := counted))
  {
  }

  function Allocated(s: State, t: nat, b: Id, bytes: nat): State
    requires t < |s.threads|
  {
    SetBlock(SetThread(s, t, Filling(b, bytes)), b, Block(bytes, 0, 0), Within(t))
  }

  lemma MallocKeepsOwners(s: State, t: nat, b: Id, bytes: nat)
    requires OwnershipInv(s) && t < |s.threads| && s.threads[t] == Reserved(bytes) && b !in s.heap
    ensures OwnershipInv(Allocated(s, t, b, bytes))
  {
    hide Distinct;
  }

  lemma MallocKeepsOwnership(s: State, t: nat, b: Id, bytes: nat)
    requires OwnershipInv(s) && BlockInv(s) && t < |s.threads|
    requires s.threads[t] == Reserved(bytes) && b !in s.heap
    ensures OwnershipInv(Allocated(s, t, b, bytes)) && BlockInv(Allocated(s, t, b, bytes))
  {
    hide Distinct;
    MallocKeepsOwners(s, t, b, bytes);
    assert BlockInv(Allocated(s, t, b, bytes));
  }

  function HandedOver(s: State, t: nat, b: Id, bytes: nat): State
    requires t < |s.threads| && b in s.heap
  {
    SetBlock(SetThread(s, t, Idle), b, Block(s.heap[b].capacity, bytes, 1), Clients(1))
  }

  lemma HandOverKeepsOwners(s: State, t: nat, b: Id, bytes: nat)
    requires OwnershipInv(s) && t < |s.threads| && s.threads[t] == Filling(b, bytes)
    ensures b in s.heap && OwnershipInv(HandedOver(s, t, b, bytes))
  {
    hide Distinct;
    assert HasBlock(s.threads[t]);
  }

  lemma HandOverKeepsBlocks(s: State, t: nat, b: Id, bytes: nat)
    requires OwnershipInv(s) && BlockInv(s) && t < |s.threads| && s.threads[t] == Filling(b, bytes)
    ensures b in s.heap && BlockInv(HandedOver(s, t, b, bytes))
  {
    hide Distinct;
    assert HasBlock(s.threads[t]);
  }

  lemma HandOverKeepsOwnership(s: State, t: nat, b: Id, bytes: nat)
    requires OwnershipInv(s) && BlockInv(s) && t < |s.threads| && s.threads[t] == Filling(b, bytes)
    ensures b in s.heap
    ensures OwnershipInv(HandedOver(s, t, b, bytes)) && BlockInv(HandedOver(s, t, b, bytes))
  {
    hide OwnershipInv, BlockInv, HandedOver;
    HandOverKeepsOwners(s, t, b, bytes);
    HandOverKeepsBlocks(s, t, b, bytes);
  }

  lemma AppendKeeps(pool: seq<Id>, b: Id)
    requires Distinct(pool) && b !in pool
    ensures Distinct(pool + [b])
    ensures forall c :: c in pool + [b] <==> c in pool || c == b
  {
  }

  function Kept(s: State, t: nat, b: Id): State
    requires t < |s.threads|
  {
    SetThread(s, t, Idle).(pool := s.pool + [b], owner := s.owner[b := FreeList])
  }

  lemma KeepKeepsBlocks(s: State, t: nat, b: Id)
    requires OwnershipInv(s) && BlockInv(s) && t < |s.threads| && s.threads[t] == Releasing(b)
    ensures BlockInv(Kept(s, t, b))
  {
    hide Distinct;
    assert HasBlock(s.threads[t]);
  }

  lemma KeepKeepsOwners(s: State, t: nat, b: Id)
    requires OwnershipInv(s) && t < |s.threads| && s.threads[t] == Releasing(b)
    ensures OwnershipInv(Kept(s, t, b))
  {
    hide Distinct;
    assert HasBlock(s.threads[t]);
    AppendKeeps(s.pool, b);
    forall k | 0 <= k < |s.pool + [b]|
      ensures Kept(s, t, b).pool[k] in Kept(s, t, b).owner
      ensures Kept(s, t, b).owner[Kept(s, t, b).pool[k]] == FreeList
    {
    }
  }

  lemma KeepKeepsOwnership(s: State, t: nat, b: Id)
    requires OwnershipInv(s) && BlockInv(s) && t < |s.threads| && s.threads[t] == Releasing(b)
    ensures OwnershipInv(Kept(s, t, b)) && BlockInv(Kept(s, t, b))
  {
    hide Kept, OwnershipInv, BlockInv;
    KeepKeepsBlocks(s, t, b);
    KeepKeepsOwners(s, t, b);
  }

  lemma GiveUpKeepsOwnership(s: State, t: nat, b: Id)
    requires OwnershipInv(s) && BlockInv(s) && t < |s.threads| && s.threads[t] == Releasing(b)
    ensures OwnershipInv(SetThread(s, t, Freeing(b))) && BlockInv(SetThread(s, t, Freeing(b)))
  {
    hide Distinct;
    assert HasBlock(s.threads[t]);
  }

  function Dropped(s: State, t: nat, b: Id): State
    requires t < |s.threads|
  {
    SetThread(s, t, Freed).(heap := s.heap - {b}, owner := s.owner - {b})
  }

  lemma FreeKeepsOwners(s: State, t: nat, b: Id)
    requires OwnershipInv(s) && t < |s.threads| && s.threads[t] == Freeing(b)
    ensures OwnershipInv(Dropped(s, t, b))
  {
    hide Distinct;
    assert HasBlock(s.threads[t]);
  }

  lemma FreeKeepsBlocks(s: State, t: nat, b: Id)
    requires OwnershipInv(s) && BlockInv(s) && t < |s.threads| && s.threads[t] == Freeing(b)
    ensures BlockInv(Dropped(s, t, b))
  {
    hide Distinct;
  }

  lemma FreeKeepsOwnership(s: State, t: nat, b: Id)
    requires OwnershipInv(s) && BlockInv(s) && t < |s.threads| && s.threads[t] == Freeing(b)
    ensures OwnershipInv(Dropped(s, t, b)) && BlockInv(Dropped(s, t, b))
  {
    hide OwnershipInv, BlockInv, Dropped;
    FreeKeepsOwners(s, t, b);
    FreeKeepsBlocks(s, t, b);
  }

  lemma RecountKeepsOwnership(s: State, b: Id, count: nat)
    requires OwnershipInv(s) && BlockInv(s) && ClientHolds(s, b) && 0 < count
    ensures var s' := SetBlock(s, b, s.heap[b].(references := count), Clients(count));
      OwnershipInv(s') && BlockInv(s')
  {
  }

  function LastRelease(s: State, t: nat, b: Id): State
    requires t < |s.threads| && b in s.heap
  {
    SetBlock(SetThread(s, t, Releasing(b)), b, s.heap[b].(references := 0), Within(t))
  }

  lemma LastReleaseKeepsBlocks(s: State, t: nat, b: Id)
    requires OwnershipInv(s) && BlockInv(s) && ClientHolds(s, b) && t < |s.threads| && s.threads[t].Idle?
    ensures BlockInv(LastRelease(s, t, b))
  {
    hide Distinct;
  }

  lemma LastReleaseKeepsOwnership(s: State, t: nat, b: Id)
    requires OwnershipInv(s) && BlockInv(s) && ClientHolds(s, b) && t < |s.threads| && s.threads[t].Idle?
    ensures OwnershipInv(LastRelease(s, t, b)) && BlockInv(LastRelease(s, t, b))
  {
    LastReleaseKeepsBlocks(s, t, b);
    hide BlockInv, Distinct;
  }

  lemma CountIsExact(s: State, b: Id)
    requires BlockInv(s) && ClientHolds(s, b)
    ensures s.heap[b].references == s.owner[b].references
  {
  }

  lemma StepKeepsOwnership(cap: int, s: State, a: Action)
    requires OwnershipInv(s) && BlockInv(s) && Enabled(s, a)
    ensures OwnershipInv(Apply(cap, s, a)) && BlockInv(Apply(cap, s, a))
  {
    hide OwnershipInv, BlockInv;
    match a
    case Make(t, bytes) => BlocklessKeepsOwnership(s, t, Lookup(bytes), s.counted);
    case Malloc(t, None) => BlocklessKeepsOwnership(s, t, Undo, s.counted);
    case Malloc(t, Some(b)) => MallocKeepsOwnership(s, t, b, s.threads[t].bytes);
    case AddRef(b) =>
      CountIsExact(s, b);
      RecountKeepsOwnership(s, b, s.heap[b].references + 1);
    case Release(t, b) =>
      CountIsExact(s, b);
      if s.heap[b].references == 1 {
        LastReleaseKeepsOwnership(s, t, b);
      } else {
        RecountKeepsOwnership(s, b, s.heap[b].references - 1);
      }
    case Advance(t, spurious) => AdvanceKeepsOwnership(cap, s, t, spurious);
  }

  lemma AdvanceKeepsOwnership(cap: int, s: State, t: nat, spurious: bool)
    requires OwnershipInv(s) && BlockInv(s) && Enabled(s, Advance(t, spurious))
    ensures OwnershipInv(AdvanceThread(cap, s, t, spurious))
    ensures BlockInv(AdvanceThread(cap, s, t, spurious))
  {
    hide OwnershipInv, BlockInv;
    var s' := AdvanceThread(cap, s, t, spurious);
    match s.threads[t]
    case Lookup(bytes) =>
      var found := FirstMatch(s.pool, s.heap, bytes, 0);
      if found.Some? {
        TakeKeepsOwnership(s, t, bytes, found.value);
      } else {
        BlocklessKeepsOwnership(s, t, Count(bytes), s.counted);
      }
    case Filling(b, bytes) => HandOverKeepsOwnership(s, t, b, bytes);
    case Releasing(b) =>
      if |s.pool| < POOL_KEEP {
        KeepKeepsOwnership(s, t, b);
      } else {
        GiveUpKeepsOwnership(s, t, b);
      }
    case Freeing(b) => FreeKeepsOwnership(s, t, b);
    case Count(bytes) => BlocklessKeepsOwnership(s, t, Reserve(bytes, s.counted), s.counted);
    case Reserve(_, _) => BlocklessKeepsOwnership(s, t, s'.threads[t], s'.counted);
    case Undo => BlocklessKeepsOwnership(s, t, Idle, s.counted - 1);
    case Freed => BlocklessKeepsOwnership(s, t, Idle, s.counted - 1);
  }

  lemma StepKeepsCount(cap: int, s: State, a: Action)
    requires Inv(cap, s) && Enabled(s, a)
    ensures CountInv(cap, Apply(cap, s, a))
  {
    var s' := Apply(cap, s, a);
    hide InFlight, Outstanding;
    match a
    case AddRef(b) => SetOwnerCount(s.owner, b, s'.owner[b]);
    case Release(t, b) =>
      SetOwnerCount(s.owner, b, s'.owner[b]);
      SetThreadCount(s.threads, t, Releasing(b));
    case Make(t, bytes) => SetThreadCount(s.threads, t, Lookup(bytes));
    case Malloc(t, result) =>
      SetThreadCount(s.threads, t, s'.threads[t]);
      if result.Some? {
        SetOwnerCount(s.owner, result.value, Within(t));
      }
    case Advance(t, spurious) => AdvanceKeepsCount(cap, s, t, spurious);
  }

  lemma BlockOwner(s: State, t: nat)
    requires OwnershipInv(s) && t < |s.threads|
    ensures HasBlock(s.threads[t]) ==>
      s.threads[t].block in s.owner && s.owner[s.threads[t].block] == Within(t)
    ensures forall k | 0 <= k < |s.pool| :: s.pool[k] in s.owner && s.owner[s.pool[k]] == FreeList
  {
  }

  lemma LookupKeepsCount(cap: int, s: State, t: nat, spurious: bool)
    requires Inv(cap, s) && Enabled(s, Advance(t, spurious)) && s.threads[t].Lookup?
    ensures CountInv(cap, AdvanceThread(cap, s, t, spurious))
  {
    BlockOwner(s, t);
    hide InFlight, Outstanding, OwnershipInv, BlockInv, FirstMatch;
    SetThreadCount(s.threads, t, AdvanceThread(cap, s, t, spurious).threads[t]);
    var found := FirstMatch(s.pool, s.heap, s.threads[t].bytes, 0);
    if found.Some? {
      SetOwnerCount(s.owner, s.pool[found.value], Within(t));
    }
  }

  lemma BlockKeepsCount(cap: int, s: State, t: nat, spurious: bool)
    requires Inv(cap, s) && Enabled(s, Advance(t, spurious)) && HasBlock(s.threads[t])
    ensures CountInv(cap, AdvanceThread(cap, s, t, spurious))
  {
    hide InFlight, Outstanding, OwnershipInv, BlockInv, FirstMatch, Take;
    BlockOwner(s, t);
    SetThreadCount(s.threads, t, AdvanceThread(cap, s, t, spurious).threads[t]);
    match s.threads[t]
    case Filling(b, _) => SetOwnerCount(s.owner, b, Clients(1));
    case Releasing(b) => SetOwnerCount(s.owner, b, FreeList);
    case Freeing(b) => DropOwnerCount(s.owner, b);
  }

  lemma AdvanceKeepsCount(cap: int, s: State, t: nat, spurious: bool)
    requires Inv(cap, s) && Enabled(s, Advance(t, spurious))
    ensures CountInv(cap, AdvanceThread(cap, s, t, spurious))
  {
    hide InFlight, Outstanding, OwnershipInv, BlockInv, FirstMatch, Take;
    if s.threads[t].Lookup? {
      LookupKeepsCount(cap, s, t, spurious);
    } else if HasBlock(s.threads[t]) {
      BlockKeepsCount(cap, s, t, spurious);
    } else {
      SetThreadCount(s.threads, t, AdvanceThread(cap, s, t, spurious).threads[t]);
    }
  }

  lemma StepKeepsInv(cap: int, s: State, a: Action)
    requires Inv(cap, s) && Enabled(s, a)
    ensures Inv(cap, Apply(cap, s, a))
  {
    StepKeepsOwnership(cap, s, a);
    StepKeepsCount(cap, s, a);
  }

  // ----------------------------------------------------------------- whole runs

  ghost predicate IsRun(cap: int, states: seq<State>, steps: seq<Action>) {
    && |states| == |steps| + 1
    && states[0] == Initial(|states[0].threads|)
    && forall k | 0 <= k < |steps| ::
      Enabled(states[k], steps[k]) && states[k + 1] == Apply(cap, states[k], steps[k])
  }

  /** What the pool promises in every reachable state, under every interleaving of any
      number of producers and releasing clients. */
  lemma {:induction false} PoolIsConserved(cap: int, states: seq<State>, steps: seq<Action>, k: nat)
    requires IsRun(cap, states, steps) && k < |states|
    ensures Inv(cap, states[k])
    ensures var s := states[k];
      && s.counted == |s.pool| + |Outstanding(s.owner)| + |InFlight(s.threads)|
      && 0 <= s.counted && (0 <= cap ==> s.counted <= cap)
      && |s.pool| <= POOL_KEEP && Distinct(s.pool)
      && (forall b | b in s.pool :: b !in Outstanding(s.owner))
      && (forall b | b in Outstanding(s.owner) ::
            b in s.heap && b in s.owner && s.heap[b].references == s.owner[b].references)
      && (forall t | 0 <= t < |s.threads| && s.threads[t].Filling? ::
            && s.threads[t].block in s.heap
            && s.threads[t].bytes == s.heap[s.threads[t].block].capacity)
  {
    if k == 0 {
      InitialInv(cap, |states[0].threads|);
    } else {
      PoolIsConserved(cap, states, steps, k - 1);
      StepKeepsInv(cap, states[k - 1], steps[k - 1]);
    }
  }

  // ------------------------------------------------------------------- what comes out

  /** The steps are possible one after another and lead from s to t. */
  ghost predicate Leads(cap: int, s: State, steps: seq<Action>, t: State)
    decreases |steps|
  {
    if steps == [] then t == s else Enabled(s, steps[0]) && Leads(cap, Apply(cap, s, steps[0]), steps[1..], t)
  }

  lemma Chain2(cap: int, s: State, a: Action, b: Action)
    requires Enabled(s, a) && Enabled(Apply(cap, s, a), b)
    ensures Leads(cap, s, [a, b], Apply(cap, Apply(cap, s, a), b))
  {
    hide Apply, Enabled;
    assert [a, b][1..] == [b] && [b][1..] == [];
    var mid := Apply(cap, s, a);
    assert Leads(cap, Apply(cap, mid, b), [], Apply(cap, mid, b));
  }

  lemma {:induction false} LeadsOn(cap: int, s: State, xs: seq<Action>, t: State, ys: seq<Action>, u: State)
    requires Leads(cap, s, xs, t) && Leads(cap, t, ys, u)
    ensures Leads(cap, s, xs + ys, u)
    decreases |xs|
  {
    hide Apply, Enabled;
    if xs == [] {
      assert xs + ys == ys;
    } else {
      assert (xs + ys)[1..] == xs[1..] + ys;
      LeadsOn(cap, Apply(cap, s, xs[0]), xs[1..], t, ys, u);
    }
  }

  lemma LeadsOne(cap: int, s: State, a: Action)
    requires Enabled(s, a)
    ensures Leads(cap, s, [a], Apply(cap, s, a))
  {
    hide Apply, Enabled;
    assert [a][1..] == [];
    assert Leads(cap, Apply(cap, s, a), [], Apply(cap, s, a));
  }

  /** No free block has the size. */
  predicate NoneFits(s: State, bytes: nat) {
    forall k | 0 <= k < |s.pool| :: s.pool[k] in s.heap ==> s.heap[s.pool[k]].frameBytes != bytes
  }

  ghost predicate Idles(cap: int, s: State, t: nat) {
    Inv(cap, s) && t < |s.threads| && s.threads[t] == Idle
  }

  lemma PoolIsInHeap(cap: int, s: State)
    requires Inv(cap, s)
    ensures forall k | 0 <= k < |s.pool| :: s.pool[k] in s.heap
  {
  }

  /** Making an image, if a free block has the size: the first such block leaves the free list and
      comes back to the caller with one reference; nothing is allocated. */
  lemma MakeReuses(cap: int, s: State, t: nat, bytes: nat, i: nat) returns (steps: seq<Action>, after: State)
    requires Idles(cap, s, t) && i < |s.pool| && s.pool[i] in s.heap && s.heap[s.pool[i]].frameBytes == bytes
    requires forall k | 0 <= k < i :: s.pool[k] in s.heap ==> s.heap[s.pool[k]].frameBytes != bytes
    ensures Leads(cap, s, steps, after)
    ensures var b := s.pool[i];
      && after.pool == s.pool[..i] + s.pool[i + 1..] && after.counted == s.counted && after.threads == s.threads
      && after.owner == s.owner[b := Clients(1)]
      && after.heap == s.heap[b := Block(s.heap[b].capacity, bytes, 1)]
  {
    hide Inv, FirstMatch, Leads;
    PoolIsInHeap(cap, s);
    var b := s.pool[i];
    var make, look, hand := Make(t, bytes), Advance(t, false), Advance(t, false);
    var s1 := Apply(cap, s, make);
    FirstMatchIs(s1, bytes, i);
    var s2 := Apply(cap, s1, look);
    assert s2.threads[t] == Filling(b, bytes);
    Chain2(cap, s, make, look);
    LeadsOne(cap, s2, hand);
    after := Apply(cap, s2, hand);
    steps := [make, look] + [hand];
    LeadsOn(cap, s, [make, look], s2, [hand], after);
    assert after.threads == s.threads;
  }

  lemma FirstMatchIs(s: State, bytes: nat, i: nat)
    requires forall k | 0 <= k < |s.pool| :: s.pool[k] in s.heap
    requires i < |s.pool| && s.heap[s.pool[i]].frameBytes == bytes
    requires forall k | 0 <= k < i :: s.heap[s.pool[k]].frameBytes != bytes
    ensures FirstMatch(s.pool, s.heap, bytes, 0) == Some(i)
  {
  }

  /** A thread that found nothing goes on to the counter. */
  lemma MakeLooks(cap: int, s: State, t: nat, bytes: nat) returns (steps: seq<Action>, mid: State)
    requires Idles(cap, s, t) && NoneFits(s, bytes)
    ensures Leads(cap, s, steps, mid) && mid == SetThread(s, t, Reserve(bytes, s.counted))
  {
    hide Inv, Leads;
    PoolIsInHeap(cap, s);
    var make, look := Make(t, bytes), Advance(t, false);
    var s1 := Apply(cap, s, make);
    assert FirstMatch(s1.pool, s1.heap, bytes, 0).None?;
    var s2 := Apply(cap, s1, look);
    Chain2(cap, s, make, look);
    LeadsOne(cap, s2, look);
    mid := Apply(cap, s2, look);
    LeadsOn(cap, s, [make, look], s2, [look], mid);
    steps := [make, look] + [look];
    assert mid.threads == SetThread(s, t, Reserve(bytes, s.counted)).threads;
  }

  /** ... If fewer than cap blocks are counted and malloc answers with a new block, the caller gets
      that block with one reference, and it is counted. */
  lemma MakeAllocates(cap: int, s: State, t: nat, bytes: nat, id: Id) returns (steps: seq<Action>, after: State)
    requires Idles(cap, s, t) && NoneFits(s, bytes) && s.counted < cap && id !in s.heap
    ensures Leads(cap, s, steps, after)
    ensures after.pool == s.pool && after.counted == s.counted + 1 && after.threads == s.threads
    ensures after.owner == s.owner[id := Clients(1)] && after.heap == s.heap[id := Block(bytes, bytes, 1)]
  {
    hide Inv, FirstMatch, Leads;
    var looks, mid := MakeLooks(cap, s, t, bytes);
    var reserve, allocate := Advance(t, false), Malloc(t, Some(id));
    var s1 := Apply(cap, mid, reserve);
    assert s1.threads[t] == Reserved(bytes);
    Chain2(cap, mid, reserve, allocate);
    var s2 := Apply(cap, s1, allocate);
    assert s2.threads[t] == Filling(id, bytes);
    LeadsOne(cap, s2, reserve);
    after := Apply(cap, s2, reserve);
    LeadsOn(cap, s, looks, mid, [reserve, allocate], s2);
    LeadsOn(cap, s, looks + [reserve, allocate], s2, [reserve], after);
    steps := looks + [reserve, allocate] + [reserve];
    assert after.threads == s.threads;
  }

  /** ... If the cap is reached, or malloc fails, the caller gets nothing and nothing has changed. */
  lemma MakeFails(cap: int, s: State, t: nat, bytes: nat) returns (steps: seq<Action>)
    requires Idles(cap, s, t) && NoneFits(s, bytes)
    ensures Leads(cap, s, steps, s)
  {
    hide Inv, FirstMatch, Leads;
    var looks, mid := MakeLooks(cap, s, t, bytes);
    var go := Advance(t, false);
    if cap <= s.counted {
      LeadsOne(cap, mid, go);
      LeadsOn(cap, s, looks, mid, [go], Apply(cap, mid, go));
      steps := looks + [go];
      assert Apply(cap, mid, go).threads == s.threads;
    } else {
      var fail := Malloc(t, None);
      var s1 := Apply(cap, mid, go);
      Chain2(cap, mid, go, fail);
      var s2 := Apply(cap, s1, fail);
      LeadsOne(cap, s2, go);
      LeadsOn(cap, s, looks, mid, [go, fail], s2);
      LeadsOn(cap, s, looks + [go, fail], s2, [go], Apply(cap, s2, go));
      steps := looks + [go, fail] + [go];
      assert Apply(cap, s2, go).threads == s.threads;
    }
  }

  /** A retry of the counter only follows a counter that others have moved, or a spurious failure,
      and starts from its new value: otherwise one attempt decides. */
  lemma ReserveDecides(cap: int, s: State, t: nat, bytes: nat, expected: int)
    requires t < |s.threads| && s.threads[t] == Reserve(bytes, expected)
    ensures var thread := Apply(cap, s, Advance(t, false)).threads[t];
      && (thread.Idle? <==> cap <= expected)
      && (thread.Reserve? <==> expected < cap && s.counted != expected)
      && (thread.Reserve? ==> thread == Reserve(bytes, s.counted))
      && (thread.Reserved? <==> expected < cap && s.counted == expected)
    ensures expected < cap ==> Apply(cap, s, Advance(t, true)).threads[t] == Reserve(bytes, s.counted)
  {
  }

  /** Dropping the last reference: the block goes to the end of the free list while that holds fewer
      than eight, and is freed and no longer counted otherwise. */
  lemma LastReleaseRecycles(cap: int, s: State, t: nat, b: Id) returns (steps: seq<Action>, after: State)
    requires Idles(cap, s, t) && ClientHolds(s, b) && s.heap[b].references == 1
    ensures Leads(cap, s, steps, after) && after.threads == s.threads
    ensures if |s.pool| < 8 then
              && after.pool == s.pool + [b] && after.owner == s.owner[b := FreeList] && after.counted == s.counted
              && after.heap == s.heap[b := s.heap[b].(references := 0)]
            else
              && after.pool == s.pool && b !in after.heap && b !in after.owner
              && after.counted == s.counted - 1
  {
    hide Inv, FirstMatch, Leads;
    var release, go := Release(t, b), Advance(t, false);
    var s1 := Apply(cap, s, release);
    assert s1.threads[t] == Releasing(b);
    Chain2(cap, s, release, go);
    after := Apply(cap, s1, go);
    steps := [release, go];
    if |s.pool| < 8 {
      assert after.threads == s.threads;
    } else {
      var s2 := after;
      assert s2.threads[t] == Freeing(b);
      Chain2(cap, s2, go, go);
      after := Apply(cap, Apply(cap, s2, go), go);
      LeadsOn(cap, s, [release, go], s2, [go, go], after);
      steps := [release, go] + [go, go];
      assert after.threads == s.threads;
    }
  }
}
