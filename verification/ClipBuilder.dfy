/** ClipBuilder: training clips out of a recording, with a small cache of isolated frames that
    evicts its smallest key. */
module ClipBuilders {
  import opened Temporal

  type Cloud = seq<int>

  const CACHE_LIMIT := 32

  datatype Stamp = Stamp(performance: bool, frame: Frame)

  /** The stamps of a recording and what player isolation makes of each frame. */
  datatype Recording = Recording(stamps: seq<Stamp>, isolate: nat -> Cloud)

  datatype Built = NoClip | KeyError | Clip(frames: seq<Cloud>)

  // ------------------------------------------------------------------- the cache

  /** The keys of a non-empty cache have a least one. */
  lemma LeastExists(keys: set<nat>)
    requires keys != {}
    ensures exists k :: IsLeast(keys, k)
  {
    var k :| k in keys;
    if !IsLeast(keys, k) {
      var below := set j | j in keys && j < k;
      LeastBelow(keys, k, below);
    }
  }

  lemma {:induction false} LeastBelow(keys: set<nat>, k: nat, below: set<nat>)
    requires k in keys && below == (set j | j in keys && j < k)
    ensures exists l :: IsLeast(keys, l)
    decreases |below|
  {
    if below == {} {
      forall j | j in keys
        ensures k <= j
      {
        assert j !in below;
      }
      assert IsLeast(keys, k);
    } else {
      var j :| j in below;
      var lower := set i | i in keys && i < j;
      assert lower < below;
      SmallerSet(lower, below);
      LeastBelow(keys, j, lower);
    }
  }

  lemma SmallerSet(a: set<nat>, b: set<nat>)
    requires a < b
    ensures |a| < |b|
  {
    assert b == a + (b - a);
  }

  predicate IsLeast(keys: set<nat>, k: nat) {
    k in keys && forall j | j in keys :: k <= j
  }

  function Least(keys: set<nat>): (k: nat)
    requires keys != {}
    ensures IsLeast(keys, k)
  {
    LeastExists(keys);
    var k: nat :| IsLeast(keys, k);
    k
  }

  /** The cache after frame i was asked for. */
  function Touch(r: Recording, cache: map<nat, Cloud>, i: nat): map<nat, Cloud> {
    if i in cache then cache else
      var grown := cache[i := r.isolate(i)];
      if CACHE_LIMIT < |grown| then grown - {Least(grown.Keys)} else grown
  }

  /** Asking for frame i would evict it at once. */
  predicate Loses(cache: map<nat, Cloud>, i: nat) {
    i !in cache && |cache| == CACHE_LIMIT && forall k | k in cache :: i < k
  }

  ghost predicate CacheOk(r: Recording, cache: map<nat, Cloud>) {
    |cache| <= CACHE_LIMIT && forall k | k in cache :: cache[k] == r.isolate(k)
  }

  lemma TouchKeeps(r: Recording, cache: map<nat, Cloud>, i: nat)
    requires CacheOk(r, cache)
    ensures CacheOk(r, Touch(r, cache, i))
    ensures i in Touch(r, cache, i) <==> !Loses(cache, i)
    ensures forall k | k in Touch(r, cache, i) :: k == i || k in cache
  {
    if i !in cache {
      var grown := cache[i := r.isolate(i)];
      assert grown.Keys == cache.Keys + {i};
      assert |grown| == |cache| + 1;
      if CACHE_LIMIT < |grown| {
        var least := Least(grown.Keys);
        var rest := grown - {least};
        assert rest.Keys == grown.Keys - {least};
        assert |rest| == |grown| - 1;
        assert least == i <==> forall k | k in cache :: i < k;
      }
    }
  }

  // ------------------------------------------------------------------- one clip

  predicate Eligible(r: Recording, frames: nat, target: nat) {
    && frames <= target + 1 && target < |r.stamps|
    && (forall i | target + 1 - frames <= i <= target :: 0 <= i && r.stamps[i].performance)
    && forall i | target + 1 - frames <= i < target :: FollowedClosely(r.stamps, i)
  }

  predicate FollowedClosely(stamps: seq<Stamp>, i: int) {
    0 <= i < |stamps| - 1 && RecordedContiguous(stamps[i].frame, stamps[i + 1].frame)
  }

  /** The isolated frames from i to target, up to and including the first empty one. */
  function Uncached(r: Recording, i: nat, target: nat): (b: Built)
    requires i <= target + 1
    ensures !b.KeyError?
    decreases target + 1 - i
  {
    if i == target + 1 then Clip([])
    else if r.isolate(i) == [] then NoClip
    else match Uncached(r, i + 1, target)
      case Clip(rest) => Clip([r.isolate(i)] + rest)
      case other => other
  }

  /** What build returns without a cache. */
  function Reference(r: Recording, frames: nat, target: nat): Built {
    if Eligible(r, frames, target) then Uncached(r, target + 1 - frames, target) else NoClip
  }

  /** The cache after frames i to target, or up to the first empty one, were asked for. */
  function TouchAll(r: Recording, cache: map<nat, Cloud>, i: nat, target: nat): map<nat, Cloud>
    requires i <= target + 1
    decreases target + 1 - i
  {
    if i == target + 1 then cache
    else if Loses(cache, i) || r.isolate(i) == [] then Touch(r, cache, i)
    else TouchAll(r, Touch(r, cache, i), i + 1, target)
  }

  class ClipBuilder {
    const recording: Recording
    const frames: nat
    var cache: map<nat, Cloud>

    constructor (recording: Recording, frames: nat)
      ensures this.recording == recording && this.frames == frames && cache == map[]
    {
      this.recording, this.frames, cache := recording, frames, map[];
    }

    /** ok is false where the source raises KeyError. */
    method Isolated(i: nat) returns (ok: bool, points: Cloud)
      requires CacheOk(recording, cache)
      modifies this
      ensures cache == Touch(recording, old(cache), i) && CacheOk(recording, cache)
      ensures ok == (i in cache) == !Loses(old(cache), i)
      ensures ok ==> points == recording.isolate(i)
    {
      TouchKeeps(recording, cache, i);
      if i !in cache {
        cache := cache[i := recording.isolate(i)];
        if |cache| > CACHE_LIMIT {
          cache := cache - {Least(cache.Keys)};
        }
      }
      if i !in cache {
        return false, [];
      }
      return true, cache[i];
    }

    /** The only way to fail is a full cache that starts beyond the first frame; every other
        call returns what an uncached computation would. */
    method Build(target: nat) returns (built: Built)
      requires CacheOk(recording, cache) && 0 < frames
      modifies this
      ensures CacheOk(recording, cache)
      ensures built.KeyError? <==>
                Eligible(recording, frames, target) && Loses(old(cache), target + 1 - frames)
      ensures !built.KeyError? ==> built == Reference(recording, frames, target)
      ensures cache == if Eligible(recording, frames, target)
                       then TouchAll(recording, old(cache), target + 1 - frames, target)
                       else old(cache)
    {
      if target + 1 < frames || |recording.stamps| <= target {
        return NoClip;
      }
      var first := target + 1 - frames;
      if exists i | first <= i <= target :: !recording.stamps[i].performance {
        return NoClip;
      }
      if exists i | first <= i < target :: !FollowedClosely(recording.stamps, i) {
        return NoClip;
      }
      built := Collect(first, target);
    }

    method Collect(first: nat, target: nat) returns (built: Built)
      requires CacheOk(recording, cache) && first <= target
      modifies this
      ensures CacheOk(recording, cache)
      ensures built.KeyError? <==> Loses(old(cache), first)
      ensures !built.KeyError? ==> built == Uncached(recording, first, target)
      ensures cache == TouchAll(recording, old(cache), first, target)
    {
      hide Touch, Loses, CacheOk;
      var clouds: seq<Cloud> := [];
      ghost var before := cache;
      var i := first;
      while i <= target
        invariant first <= i <= target + 1
        invariant CacheOk(recording, cache)
        invariant first < i ==> i - 1 in cache && !Loses(before, first)
        invariant i == first ==> cache == before
        invariant TouchAll(recording, before, first, target) == TouchAll(recording, cache, i, target)
        invariant Uncached(recording, first, target) == Prepend(clouds, Uncached(recording, i, target))
      {
        if first < i {
          NeverLosesNext(cache, i);
        }
        var ok, points := Isolated(i);
        if !ok {
          return KeyError;
        }
        if points == [] {
          return NoClip;
        }
        PrependOne(clouds, points, Uncached(recording, i + 1, target));
        clouds := clouds + [points];
        i := i + 1;
      }
      assert clouds + [] == clouds;
      return Clip(clouds);
    }
  }

  lemma NeverLosesNext(cache: map<nat, Cloud>, i: nat)
    requires 0 < i && i - 1 in cache
    ensures !Loses(cache, i)
  {
  }

  function Prepend(clouds: seq<Cloud>, rest: Built): Built {
    if rest.Clip? then Clip(clouds + rest.frames) else rest
  }

  lemma PrependOne(clouds: seq<Cloud>, points: Cloud, rest: Built)
    ensures Prepend(clouds + [points], rest) ==
            Prepend(clouds, if rest.Clip? then Clip([points] + rest.frames) else rest)
  {
    if rest.Clip? {
      assert clouds + [points] + rest.frames == clouds + ([points] + rest.frames);
    }
  }

  // --------------------------------------------------------------- what a clip is

  /** Neighbouring frames of one stretch: no earlier frame, or the next number within 75 ms. */
  predicate Adjoins(a: Frame, b: Frame) {
    a.sequence == 0 || (b.sequence == a.sequence + 1 && 0 < b.time - a.time <= 75_000_000)
  }

  predicate AdjoinsNext(stamps: seq<Stamp>, i: int) {
    0 <= i < |stamps| - 1 && Adjoins(stamps[i].frame, stamps[i + 1].frame)
  }

  /** There is a whole clip up to the target: frames of the performance that adjoin and show
      somebody. */
  ghost predicate IsWholeClip(r: Recording, frames: nat, target: nat) {
    && frames <= target + 1 && target < |r.stamps|
    && (forall i | target - frames < i <= target :: 0 <= i && r.stamps[i].performance && r.isolate(i) != [])
    && forall i | target - frames < i < target :: AdjoinsNext(r.stamps, i)
  }

  lemma {:induction false} UncachedIsAll(r: Recording, i: nat, target: nat)
    requires i <= target + 1
    ensures (forall k: nat | i <= k <= target :: r.isolate(k) != []) <==> Uncached(r, i, target).Clip?
    ensures Uncached(r, i, target).Clip? ==>
              Uncached(r, i, target).frames == seq(target + 1 - i, k requires 0 <= k => r.isolate(i + k))
    decreases target + 1 - i
  {
    if i <= target {
      UncachedIsAll(r, i + 1, target);
      if Uncached(r, i, target).Clip? {
        assert [r.isolate(i)] + Uncached(r, i + 1, target).frames ==
               seq(target + 1 - i, k requires 0 <= k => r.isolate(i + k));
      }
    }
  }

  /** A clip comes out exactly where there is a whole one, and it is the isolated frames in order. */
  lemma ClipIffWhole(r: Recording, frames: nat, target: nat)
    requires 0 < frames
    ensures Reference(r, frames, target).Clip? <==> IsWholeClip(r, frames, target)
    ensures Reference(r, frames, target).Clip? ==>
              && frames <= target + 1
              && Reference(r, frames, target).frames ==
                 seq(frames, k requires 0 <= k => r.isolate(target + 1 - frames + k))
  {
    if frames <= target + 1 {
      UncachedIsAll(r, target + 1 - frames, target);
      AdjoinsIsFollowed(r);
      hide Uncached, FollowedClosely, AdjoinsNext;
      assert IsWholeClip(r, frames, target) ==> Eligible(r, frames, target);
    }
  }

  lemma AdjoinsIsFollowed(r: Recording)
    ensures forall i :: FollowedClosely(r.stamps, i) <==> AdjoinsNext(r.stamps, i)
  {
  }

  // -------------------------------------------------------------- whole passes

  ghost predicate Rising(targets: seq<nat>) {
    forall i, j | 0 <= i < j < |targets| :: targets[i] < targets[j]
  }

  /** The pair loader's check: frames of one device are known and strictly increase. */
  method LoadFrames(frames: seq<int>, known: nat) returns (ok: bool)
    ensures ok <==> (forall i | 0 <= i < |frames| :: 0 <= frames[i] < known) &&
                    forall i, j | 0 <= i < j < |frames| :: frames[i] < frames[j]
  {
    var last := -1;
    for k := 0 to |frames|
      invariant -1 <= last && (k == 0 ==> last == -1) && (0 < k ==> last == frames[k - 1])
      invariant forall i | 0 <= i < k :: 0 <= frames[i] < known
      invariant forall i, j | 0 <= i < j < k :: frames[i] < frames[j]
    {
      if frames[k] <= last || known <= frames[k] {
        return false;
      }
      last := frames[k];
    }
    return true;
  }

  ghost predicate UpTo(cache: map<nat, Cloud>, target: int) {
    forall k | k in cache :: k <= target
  }

  lemma {:induction false} TouchAllStaysBelow(r: Recording, cache: map<nat, Cloud>, i: nat, target: nat)
    requires CacheOk(r, cache) && i <= target + 1 && UpTo(cache, target)
    ensures UpTo(TouchAll(r, cache, i, target), target)
    decreases target + 1 - i
  {
    if i <= target {
      TouchKeeps(r, cache, i);
      if !Loses(cache, i) && r.isolate(i) != [] {
        TouchAllStaysBelow(r, Touch(r, cache, i), i + 1, target);
      }
    }
  }

  lemma {:induction false} FitsInRange(keys: set<nat>, low: nat, high: nat)
    requires low <= high && forall k | k in keys :: low < k <= high
    ensures |keys| <= high - low
    decreases high - low
  {
    if low == high {
      assert keys == {};
    } else {
      FitsInRange(keys - {high}, low, high - 1);
      if high in keys {
        assert |keys - {high}| == |keys| - 1;
      } else {
        assert keys - {high} == keys;
      }
    }
  }

  /** A later target never finds the cache full of frames beyond its first one. */
  lemma LaterTargetsAreServed(cache: map<nat, Cloud>, frames: nat, previous: int, target: nat)
    requires 0 < frames <= CACHE_LIMIT + 1 && frames <= target + 1
    requires UpTo(cache, previous) && previous < target
    ensures !Loses(cache, target + 1 - frames)
  {
    var first := target + 1 - frames;
    if Loses(cache, first) {
      FitsInRange(cache.Keys, first, if frames == 1 then first else target - 1);
    }
  }

  // ------------------------------------------------- what the cache holds, ever

  /** The cache after frames were asked for one after another. */
  function Ask(r: Recording, cache: map<nat, Cloud>, asks: seq<nat>): map<nat, Cloud> {
    if asks == [] then cache else Touch(r, Ask(r, cache, asks[..|asks| - 1]), asks[|asks| - 1])
  }

  lemma {:induction false} AskConcat(r: Recording, cache: map<nat, Cloud>, a: seq<nat>, b: seq<nat>)
    ensures Ask(r, cache, a + b) == Ask(r, Ask(r, cache, a), b)
  {
    if b == [] {
      assert a + b == a;
    } else {
      assert (a + b)[..|a + b| - 1] == a + b[..|b| - 1];
      AskConcat(r, cache, a, b[..|b| - 1]);
    }
  }

  /** The different frames that were asked for, and those of them beyond f. */
  function Different(asks: seq<nat>): set<nat> {
    set t | t in asks
  }

  function Beyond(asks: seq<nat>, f: nat): set<nat> {
    set t | t in asks && f < t
  }

  /** Only asked frames are cached, and the others among them lie before a full cache. */
  ghost predicate HoldsLargest(cache: map<nat, Cloud>, asks: seq<nat>) {
    && |cache| <= CACHE_LIMIT
    && (forall k | k in cache :: k in asks)
    && forall f | f in asks && f !in cache :: |cache| == CACHE_LIMIT && forall k | k in cache :: f < k
  }

  lemma TouchHoldsLargest(r: Recording, cache: map<nat, Cloud>, asks: seq<nat>, i: nat)
    requires HoldsLargest(cache, asks)
    ensures HoldsLargest(Touch(r, cache, i), asks + [i])
  {
    if i !in cache {
      var grown := cache[i := r.isolate(i)];
      assert grown.Keys == cache.Keys + {i};
      assert |grown| == |cache| + 1;
      if CACHE_LIMIT < |grown| {
        var rest := grown - {Least(grown.Keys)};
        assert rest.Keys == grown.Keys - {Least(grown.Keys)};
        assert |rest| == |grown| - 1;
      }
    }
  }

  lemma {:induction false} AskHoldsLargest(r: Recording, asks: seq<nat>)
    ensures HoldsLargest(Ask(r, map[], asks), asks)
  {
    if asks != [] {
      var init := asks[..|asks| - 1];
      AskHoldsLargest(r, init);
      TouchHoldsLargest(r, Ask(r, map[], init), init, asks[|asks| - 1]);
      assert asks == init + [asks[|asks| - 1]];
    }
  }

  lemma SubsetSize(a: set<nat>, b: set<nat>)
    requires a <= b
    ensures |a| <= |b|
  {
    assert b == a + (b - a);
  }

  /** If a cached frame lies at or before f, all asked frames beyond f are cached with it. */
  lemma FewBeyond(cache: map<nat, Cloud>, asks: seq<nat>, f: nat, k: nat)
    requires HoldsLargest(cache, asks) && k in cache && k <= f
    ensures |Beyond(asks, f)| < CACHE_LIMIT
  {
    SubsetSize(Beyond(asks, f), cache.Keys - {k});
    assert |cache.Keys - {k}| == |cache.Keys| - 1;
  }

  lemma LosesIff(cache: map<nat, Cloud>, asks: seq<nat>, f: nat)
    requires HoldsLargest(cache, asks)
    ensures Loses(cache, f) <==> CACHE_LIMIT <= |Beyond(asks, f)|
    ensures f in cache <==> f in asks && |Beyond(asks, f)| < CACHE_LIMIT
  {
    if exists k :: k in cache && k <= f {
      var k :| k in cache && k <= f;
      FewBeyond(cache, asks, f, k);
    } else if |cache| == CACHE_LIMIT {
      SubsetSize(cache.Keys, Beyond(asks, f));
    } else {
      SubsetSize(Beyond(asks, f), cache.Keys);
    }
  }

  /** Whatever frames were asked for, in whatever order, the cache holds exactly those with fewer
      than CACHE_LIMIT different asked frames beyond them. */
  lemma CacheIsLargestAsked(r: Recording, asks: seq<nat>, f: nat)
    ensures f in Ask(r, map[], asks) <==> f in asks && |Beyond(asks, f)| < 32
  {
    AskHoldsLargest(r, asks);
    LosesIff(Ask(r, map[], asks), asks, f);
  }

  /** And asking for f raises KeyError exactly when CACHE_LIMIT different frames beyond f were
      asked for before. */
  lemma AskFailsIff(r: Recording, asks: seq<nat>, f: nat)
    ensures Loses(Ask(r, map[], asks), f) <==> 32 <= |Beyond(asks, f)|
  {
    AskHoldsLargest(r, asks);
    LosesIff(Ask(r, map[], asks), asks, f);
  }

  /** Starting over at the first frame ever asked for fails exactly when more than CACHE_LIMIT
      different frames were. */
  lemma RestartFailsIff(r: Recording, asks: seq<nat>, first: nat)
    requires first in asks && forall t | t in asks :: first <= t
    ensures Loses(Ask(r, map[], asks), first) <==> 32 < |Different(asks)|
  {
    AskFailsIff(r, asks, first);
    var all := Different(asks);
    assert Beyond(asks, first) == all - {first};
    assert |all - {first}| == |all| - 1;
  }

  // --------------------------------------------------------------- whole passes

  /** The frames a build asks for: up to and including the first that shows nobody. */
  function Shown(r: Recording, i: nat, target: nat): seq<nat>
    requires i <= target + 1
    decreases target + 1 - i
  {
    if i == target + 1 then []
    else if r.isolate(i) == [] then [i]
    else [i] + Shown(r, i + 1, target)
  }

  function AskedByBuild(r: Recording, frames: nat, target: nat): seq<nat> {
    if Eligible(r, frames, target) then Shown(r, target + 1 - frames, target) else []
  }

  function AskedByPass(r: Recording, frames: nat, targets: seq<nat>): seq<nat> {
    if targets == [] then []
    else AskedByPass(r, frames, targets[..|targets| - 1]) + AskedByBuild(r, frames, targets[|targets| - 1])
  }

  /** A build that does not fail at its first frame asks for just these frames. */
  lemma {:induction false} TouchAllIsAsk(r: Recording, cache: map<nat, Cloud>, i: nat, target: nat)
    requires CacheOk(r, cache) && i <= target + 1 && (i <= target ==> !Loses(cache, i))
    ensures TouchAll(r, cache, i, target) == Ask(r, cache, Shown(r, i, target))
    decreases target + 1 - i
  {
    if i <= target {
      TouchAllStep(r, cache, i, target);
      hide Touch, TouchAll, Loses, CacheOk, Ask;
      var next := Touch(r, cache, i);
      TouchKeeps(r, cache, i);
      if r.isolate(i) == [] {
        AskFirst(r, cache, i, []);
        assert [i] + [] == [i];
      } else {
        NeverLosesNext(next, i + 1);
        TouchAllIsAsk(r, next, i + 1, target);
        AskFirst(r, cache, i, Shown(r, i + 1, target));
      }
    }
  }

  lemma TouchAllStep(r: Recording, cache: map<nat, Cloud>, i: nat, target: nat)
    requires i <= target && !Loses(cache, i)
    ensures TouchAll(r, cache, i, target) ==
            if r.isolate(i) == [] then Touch(r, cache, i)
            else TouchAll(r, Touch(r, cache, i), i + 1, target)
  {
    hide Touch, Loses;
  }

  lemma AskFirst(r: Recording, cache: map<nat, Cloud>, i: nat, rest: seq<nat>)
    ensures Ask(r, cache, [i] + rest) == Ask(r, Touch(r, cache, i), rest)
    ensures Ask(r, cache, []) == cache
  {
    hide Touch;
    AskConcat(r, cache, [i], rest);
    assert [i][..0] == [];
  }

  /** One pass in rising order over a fresh builder: every clip is what the uncached computation
      gives, no call fails, and the cache is the one of the frames asked for. */
  method BuildAll(builder: ClipBuilder, targets: seq<nat>) returns (clips: seq<Built>)
    requires builder.cache == map[] && Rising(targets)
    requires 0 < builder.frames <= 33
    modifies builder
    ensures |clips| == |targets|
    ensures forall k | 0 <= k < |targets| ::
      clips[k] == Reference(builder.recording, builder.frames, targets[k]) && !clips[k].KeyError?
    ensures |builder.cache| <= 32 && CacheOk(builder.recording, builder.cache)
    ensures builder.cache ==
            Ask(builder.recording, map[], AskedByPass(builder.recording, builder.frames, targets))
  {
    hide Reference, CacheOk, UpTo, AskedByBuild, Touch;
    clips := [];
    BoundsOfEmpty(builder.recording);
    ghost var previous: int := -1;
    for k := 0 to |targets|
      invariant |clips| == k && previous == if k == 0 then -1 else targets[k - 1]
      invariant CacheOk(builder.recording, builder.cache) && UpTo(builder.cache, previous)
      invariant builder.cache ==
        Ask(builder.recording, map[], AskedByPass(builder.recording, builder.frames, targets[..k]))
      invariant forall j | 0 <= j < k ::
        clips[j] == Reference(builder.recording, builder.frames, targets[j]) && !clips[j].KeyError?
    {
      assert targets[..k + 1][..k] == targets[..k];
      AskConcat(builder.recording, map[], AskedByPass(builder.recording, builder.frames, targets[..k]),
                AskedByBuild(builder.recording, builder.frames, targets[k]));
      var built := BuildNext(builder, previous, targets[k]);
      previous := targets[k];
      clips := clips + [built];
    }
    assert targets[..|targets|] == targets;
    SizeBound(builder.recording, builder.cache);
  }

  lemma BoundsOfEmpty(r: Recording)
    ensures CacheOk(r, map[]) && UpTo(map[], -1)
  {
  }

  lemma SizeBound(r: Recording, cache: map<nat, Cloud>)
    requires CacheOk(r, cache)
    ensures |cache| <= CACHE_LIMIT
  {
  }

  method BuildNext(builder: ClipBuilder, ghost previous: int, target: nat) returns (built: Built)
    requires CacheOk(builder.recording, builder.cache) && UpTo(builder.cache, previous)
    requires previous < target && 0 < builder.frames <= CACHE_LIMIT + 1
    modifies builder
    ensures CacheOk(builder.recording, builder.cache) && UpTo(builder.cache, target)
    ensures built == Reference(builder.recording, builder.frames, target) && !built.KeyError?
    ensures builder.cache == Ask(builder.recording, old(builder.cache),
                                 AskedByBuild(builder.recording, builder.frames, target))
  {
    hide TouchAll, Touch, Loses, Uncached, CacheOk, Shown;
    assert UpTo(builder.cache, target);
    if builder.frames <= target + 1 {
      LaterTargetsAreServed(builder.cache, builder.frames, previous, target);
      TouchAllStaysBelow(builder.recording, builder.cache, target + 1 - builder.frames, target);
      TouchAllIsAsk(builder.recording, builder.cache, target + 1 - builder.frames, target);
    }
    built := builder.Build(target);
  }

  /** The frame at position k can be served after asks and the frames before it. */
  ghost predicate Served(asks: seq<nat>, candidates: seq<nat>, k: nat)
    requires k < |candidates|
  {
    |Beyond(asks + candidates[..k], candidates[k])| < 32
  }

  function Isolations(r: Recording, candidates: seq<nat>): seq<Cloud> {
    seq(|candidates|, k requires 0 <= k < |candidates| => r.isolate(candidates[k]))
  }

  /** The surface pass over a builder that has already served asks: it gets through exactly when
      no candidate has CACHE_LIMIT different frames beyond it among those asked for so far. */
  method IsolateAll(builder: ClipBuilder, ghost asks: seq<nat>, candidates: seq<nat>)
    returns (ok: bool, clouds: seq<Cloud>)
    requires CacheOk(builder.recording, builder.cache) && builder.cache == Ask(builder.recording, map[], asks)
    modifies builder
    ensures ok <==> forall k | 0 <= k < |candidates| :: Served(asks, candidates, k)
    ensures ok ==> clouds == Isolations(builder.recording, candidates)
  {
    hide CacheOk, Touch, Loses, Beyond;
    clouds := [];
    assert asks + candidates[..0] == asks;
    for k := 0 to |candidates|
      invariant |clouds| == k
      invariant CacheOk(builder.recording, builder.cache)
      invariant builder.cache == Ask(builder.recording, map[], asks + candidates[..k])
      invariant forall j | 0 <= j < k ::
        Served(asks, candidates, j) && clouds[j] == builder.recording.isolate(candidates[j])
    {
      AskFailsIff(builder.recording, asks + candidates[..k], candidates[k]);
      var asked := asks + candidates[..k + 1];
      assert asked[..|asked| - 1] == asks + candidates[..k];
      var found, points := builder.Isolated(candidates[k]);
      if !found {
        assert !Served(asks, candidates, k);
        return false, clouds;
      }
      clouds := clouds + [points];
    }
    ok := true;
    assert clouds == Isolations(builder.recording, candidates);
  }

  /** Calibration and surface pass on one builder, whatever the recording and the rising targets. */
  method CalibrateThenSurface(builder: ClipBuilder, targets: seq<nat>, candidates: seq<nat>)
    returns (ok: bool, clips: seq<Built>, clouds: seq<Cloud>)
    requires builder.cache == map[] && Rising(targets)
    requires 0 < builder.frames <= 33
    modifies builder
    ensures |clips| == |targets|
    ensures forall k | 0 <= k < |targets| ::
      clips[k] == Reference(builder.recording, builder.frames, targets[k])
    ensures var asks := AskedByPass(builder.recording, builder.frames, targets);
      && (ok <==> forall k | 0 <= k < |candidates| :: Served(asks, candidates, k))
      && (ok ==> clouds == Isolations(builder.recording, candidates))
  {
    clips := BuildAll(builder, targets);
    ok, clouds := IsolateAll(builder, AskedByPass(builder.recording, builder.frames, targets), candidates);
  }

  // -------------------------------------------------------- a second pass that fails

  /** The targets beyond f whose clips the first pass builds. */
  function BuiltBeyond(r: Recording, frames: nat, targets: seq<nat>, f: nat): set<nat> {
    set t | t in targets && f < t && Reference(r, frames, t).Clip?
  }

  lemma {:induction false} ClipAsksForTarget(r: Recording, i: nat, target: nat)
    requires i <= target && Uncached(r, i, target).Clip?
    ensures target in Shown(r, i, target)
    decreases target - i
  {
    if i < target {
      ClipAsksForTarget(r, i + 1, target);
    }
  }

  lemma {:induction false} PassAsksForTarget(r: Recording, frames: nat, targets: seq<nat>, target: nat)
    requires 0 < frames && target in targets && Reference(r, frames, target).Clip?
    ensures target in AskedByPass(r, frames, targets)
  {
    var init, last := targets[..|targets| - 1], targets[|targets| - 1];
    if target == last {
      ClipAsksForTarget(r, target + 1 - frames, target);
    } else {
      assert targets == init + [last];
      PassAsksForTarget(r, frames, init, target);
    }
  }

  /** A surface pass fails at every candidate beyond which the first pass has built CACHE_LIMIT
      clips. */
  lemma SecondPassFails(r: Recording, frames: nat, targets: seq<nat>, candidates: seq<nat>, k: nat)
    requires 0 < frames && k < |candidates|
    requires 32 <= |BuiltBeyond(r, frames, targets, candidates[k])|
    ensures !Served(AskedByPass(r, frames, targets), candidates, k)
  {
    var asks, f := AskedByPass(r, frames, targets) + candidates[..k], candidates[k];
    forall t | t in BuiltBeyond(r, frames, targets, f)
      ensures t in Beyond(asks, f)
    {
      PassAsksForTarget(r, frames, targets, t);
    }
    SubsetSize(BuiltBeyond(r, frames, targets, f), Beyond(asks, f));
  }

  lemma {:induction false} RisingAreDifferent(targets: seq<nat>)
    requires Rising(targets)
    ensures |Different(targets)| == |targets|
  {
    if targets == [] {
      assert Different(targets) == {};
    } else {
      var init, last := targets[..|targets| - 1], targets[|targets| - 1];
      RisingAreDifferent(init);
      assert targets == init + [last];
      assert Different(targets) == Different(init) + {last};
    }
  }

  /** Three frames of the empty stage and 37 of a performance, 33 ms apart, that show somebody. */
  function ShortRecording(): Recording {
    Recording(seq(40, k requires 0 <= k => Stamp(3 <= k, Frame(k + 1, 33_000_000 * (k + 1)))), _ => [1])
  }

  /** Such a recording is enough: with clips of three frames and 33 targets the second pass fails
      at the first target. */
  lemma SecondPassCanFail() returns (targets: seq<nat>)
    ensures Rising(targets) && |targets| == 33
    ensures !Served(AskedByPass(ShortRecording(), 3, targets), targets, 0)
  {
    targets := seq(33, k requires 0 <= k => k + 5);
    var built := BuiltBeyond(ShortRecording(), 3, targets, targets[0]);
    forall t | t in Different(targets) - {targets[0]}
      ensures t in built
    {
      ShortClip(t);
    }
    RisingAreDifferent(targets);
    SubsetSize(Different(targets) - {targets[0]}, built);
    assert targets[0] in Different(targets);
    assert |Different(targets) - {targets[0]}| == |Different(targets)| - 1;
    SecondPassFails(ShortRecording(), 3, targets, targets, 0);
  }

  lemma ShortClip(target: nat)
    requires 5 <= target < 40
    ensures Reference(ShortRecording(), 3, target).Clip?
  {
    var r := ShortRecording();
    assert Eligible(r, 3, target);
    assert Uncached(r, target + 1, target).Clip?;
    assert Uncached(r, target, target).Clip?;
    assert Uncached(r, target - 1, target).Clip?;
  }
}
