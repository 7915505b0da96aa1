/** select_skeleton: staying with one performer although the sensor's slots move about. */
module SkeletonLock {
  import opened Basics

  /** One slot of a skeleton frame; score is its tracked joints, quality and hip distance. */
  datatype Slot = Slot(tracked: bool, id: nat, score: int)

  datatype Lock = Lock(activeId: nat, activeTick: nat, filterReady: bool)

  predicate IsActive(slots: seq<Slot>, id: nat, i: nat) {
    i < |slots| && slots[i].tracked && slots[i].id == id
  }

  /** The unsigned difference now - tick is below the lock time. */
  predicate StillLocked(l: Lock, now: nat, lockMs: nat) {
    l.activeId != 0 && l.activeTick != 0 && l.activeTick <= now && now - l.activeTick < lockMs
  }

  /** i is the first of the best tracked slots. */
  ghost predicate IsBest(slots: seq<Slot>, i: nat) {
    && i < |slots| && slots[i].tracked
    && (forall k | 0 <= k < |slots| && slots[k].tracked :: slots[k].score <= slots[i].score)
    && forall k | 0 <= k < i && slots[k].tracked :: slots[k].score < slots[i].score
  }

  ghost predicate Selects(before: Lock, slots: seq<Slot>, now: nat, lockMs: nat, filterId: nat,
                          after: Lock, chosen: Option<nat>)
  {
    if before.activeId != 0 && exists i :: IsActive(slots, before.activeId, i) then
      && chosen.Some? && IsActive(slots, before.activeId, chosen.value)
      && (forall i | 0 <= i < chosen.value :: !IsActive(slots, before.activeId, i))
      && after == before.(activeTick := now)
    else if StillLocked(before, now, lockMs) then chosen.None? && after == before
    else if exists i | 0 <= i < |slots| :: slots[i].tracked then
      && chosen.Some? && IsBest(slots, chosen.value)
      && var id := slots[chosen.value].id;
         after == Lock(id, now, before.filterReady && filterId == id)
    else chosen.None? && after == Lock(0, before.activeTick, false)
  }

  class Selector {
    const lockMs: nat
    var activeId: nat
    var activeTick: nat
    var filterReady: bool

    ghost function Value(): Lock
      reads this
    {
      Lock(activeId, activeTick, filterReady)
    }

    constructor (lockMs: nat)
      ensures this.lockMs == lockMs && Value() == Lock(0, 0, false)
    {
      this.lockMs := lockMs;
      activeId, activeTick, filterReady := 0, 0, false;
    }

    method Select(slots: seq<Slot>, now: nat, filterId: nat) returns (chosen: Option<nat>)
      modifies this
      ensures Selects(old(Value()), slots, now, lockMs, filterId, Value(), chosen)
    {
      if activeId != 0 {
        for i := 0 to |slots|
          invariant Value() == old(Value())
          invariant forall k | 0 <= k < i :: !IsActive(slots, activeId, k)
        {
          if slots[i].tracked && slots[i].id == activeId {
            assert IsActive(slots, activeId, i);
            activeTick := now;
            return Some(i);
          }
        }
        if activeTick != 0 && activeTick <= now && now - activeTick < lockMs {
          return None;
        }
      }
      var best := Best(slots);
      if best.None? {
        activeId, filterReady := 0, false;
        return None;
      }
      activeId, activeTick := slots[best.value].id, now;
      if filterId != activeId {
        filterReady := false;
      }
      return best;
    }
  }

  method Best(slots: seq<Slot>) returns (best: Option<nat>)
    ensures best.Some? ==> IsBest(slots, best.value)
    ensures best.None? ==> forall i | 0 <= i < |slots| :: !slots[i].tracked
  {
    best := None;
    for i := 0 to |slots|
      invariant best.None? ==> forall k | 0 <= k < i :: !slots[k].tracked
      invariant best.Some? ==>
        && best.value < i && slots[best.value].tracked
        && (forall k | 0 <= k < i && slots[k].tracked :: slots[k].score <= slots[best.value].score)
        && forall k | 0 <= k < best.value && slots[k].tracked :: slots[k].score < slots[best.value].score
    {
      if slots[i].tracked && (best.None? || slots[i].score > slots[best.value].score) {
        best := Some(i);
      }
    }
  }

  // -------------------------------------------------------------------- whole runs

  datatype Frame = Frame(slots: seq<Slot>, now: nat, filterId: nat, chosen: Option<nat>)

  /** Ticks never go back; tracked bodies carry a non-zero id; the filter may be made ready or
      not in between. */
  ghost predicate IsRun(lockMs: nat, locks: seq<Lock>, frames: seq<Frame>) {
    && |locks| == |frames| + 1
    && locks[0].activeId == 0
    && (forall k | 0 <= k < |frames| :: 0 < frames[k].now && KnownIds(frames[k].slots))
    && (forall j, k | 0 <= j <= k < |frames| :: frames[j].now <= frames[k].now)
    && forall k | 0 <= k < |frames| :: Steps(lockMs, locks[k], frames[k], locks[k + 1])
  }

  ghost predicate KnownIds(slots: seq<Slot>) {
    forall i | 0 <= i < |slots| && slots[i].tracked :: slots[i].id != 0
  }

  ghost predicate Steps(lockMs: nat, l: Lock, f: Frame, l': Lock) {
    exists ready: bool ::
      Selects(l.(filterReady := ready), f.slots, f.now, lockMs, f.filterId, l', f.chosen)
  }

  predicate Chooses(f: Frame, id: nat) {
    f.chosen.Some? && f.chosen.value < |f.slots| && f.slots[f.chosen.value].id == id
  }

  /** The lock after frame k chose id and no later frame before t chose anything. */
  ghost predicate Remembers(lockMs: nat, l: Lock, id: nat, tick: nat, latest: nat) {
    || (l.activeId == id && l.activeTick == tick && id != 0 && 0 < tick)
    || (l.activeId == 0 && tick + lockMs <= latest)
  }

  lemma {:induction false} QuietFramesRemember(lockMs: nat, locks: seq<Lock>, frames: seq<Frame>,
                                               k: nat, t: nat, id: nat)
    requires IsRun(lockMs, locks, frames) && k < t <= |frames| && Chooses(frames[k], id)
    requires forall i | k < i < t :: frames[i].chosen.None?
    ensures Remembers(lockMs, locks[t], id, frames[k].now, frames[t - 1].now)
  {
    if t == k + 1 {
      assert Steps(lockMs, locks[k], frames[k], locks[k + 1]);
    } else {
      QuietFramesRemember(lockMs, locks, frames, k, t - 1, id);
      assert Steps(lockMs, locks[t - 1], frames[t - 1], locks[t - 1 + 1]);
      assert frames[t - 2].now <= frames[t - 1].now && frames[k].now <= frames[t - 1].now;
    }
  }

  /** The performer never changes within the lock time: between two frames that choose
      different ids, with none chosen in between, at least the lock time has passed. */
  lemma IdentityIsLocked(lockMs: nat, locks: seq<Lock>, frames: seq<Frame>, k: nat, t: nat, a: nat, b: nat)
    requires IsRun(lockMs, locks, frames) && k < t < |frames|
    requires Chooses(frames[k], a) && Chooses(frames[t], b) && a != b
    requires forall i | k < i < t :: frames[i].chosen.None?
    ensures frames[k].now + lockMs <= frames[t].now
  {
    QuietFramesRemember(lockMs, locks, frames, k, t, a);
    assert Steps(lockMs, locks[t], frames[t], locks[t + 1]);
    assert frames[t - 1].now <= frames[t].now && frames[k].now <= frames[t].now;
  }

  /** The body chosen last is chosen again in whatever slot it turns up, however good the other
      slots look, as long as it was not missed for the whole lock time. */
  lemma ChosenBodyIsKept(lockMs: nat, locks: seq<Lock>, frames: seq<Frame>, k: nat, t: nat, a: nat, slot: nat)
    requires IsRun(lockMs, locks, frames) && k < t < |frames|
    requires Chooses(frames[k], a) && IsActive(frames[t].slots, a, slot)
    requires forall i | k < i < t :: frames[i].chosen.None?
    requires frames[t - 1].now < frames[k].now + lockMs
    ensures Chooses(frames[t], a)
  {
    QuietFramesRemember(lockMs, locks, frames, k, t, a);
    assert Steps(lockMs, locks[t], frames[t], locks[t + 1]);
  }

  // ------------------------------------------------------------------ who is chosen

  /** The slots that track somebody. */
  predicate Tracks(f: Frame, i: int) {
    0 <= i < |f.slots| && f.slots[i].tracked
  }

  /** The frame takes the first of the slots with the highest score. */
  ghost predicate TakesBest(f: Frame) {
    && f.chosen.Some? && Tracks(f, f.chosen.value)
    && forall k | Tracks(f, k) ::
         && f.slots[k].score <= f.slots[f.chosen.value].score
         && (k < f.chosen.value ==> f.slots[k].score < f.slots[f.chosen.value].score)
  }

  lemma BestIsTaken(lockMs: nat, l: Lock, f: Frame, l': Lock)
    requires Steps(lockMs, l, f, l')
    requires l.activeId == 0 || l.activeTick == 0 || l.activeTick + lockMs <= f.now
    requires forall i | Tracks(f, i) :: f.slots[i].id != l.activeId
    ensures (exists i :: Tracks(f, i)) ==> TakesBest(f) && l'.activeId == f.slots[f.chosen.value].id
    ensures !(exists i :: Tracks(f, i)) ==> f.chosen.None? && l'.activeId == 0 && !l'.filterReady
  {
    assert forall i: nat :: !IsActive(f.slots, l.activeId, i);
    if i :| Tracks(f, i) {
      assert f.slots[i].tracked;
    }
  }

  /** While the performer is missed for less than the lock time, nobody else is chosen; from then on
      a frame without the performer takes its best slot, if it tracks anybody. */
  lemma PerformerIsReplaced(lockMs: nat, locks: seq<Lock>, frames: seq<Frame>, k: nat, t: nat, a: nat)
    requires IsRun(lockMs, locks, frames) && k < t < |frames| && Chooses(frames[k], a)
    requires forall i | k < i < t :: frames[i].chosen.None?
    requires forall i | Tracks(frames[t], i) :: frames[t].slots[i].id != a
    ensures frames[t].now < frames[k].now + lockMs ==> frames[t].chosen.None?
    ensures frames[k].now + lockMs <= frames[t].now ==>
              if exists i :: Tracks(frames[t], i) then TakesBest(frames[t]) else frames[t].chosen.None?
  {
    QuietFramesRemember(lockMs, locks, frames, k, t, a);
    assert Steps(lockMs, locks[t], frames[t], locks[t + 1]);
    assert frames[k].now <= frames[t].now && frames[t - 1].now <= frames[t].now;
    var l := locks[t];
    if l.activeId == 0 {
      assert KnownIds(frames[t].slots);
    } else {
      assert l.activeId == a && l.activeTick == frames[k].now;
    }
    if frames[k].now + lockMs <= frames[t].now {
      BestIsTaken(lockMs, l, frames[t], locks[t + 1]);
    } else {
      assert forall i: nat :: !IsActive(frames[t].slots, a, i);
    }
  }

  /** The first performer is the best slot of the first frame that tracks anybody. */
  lemma {:induction false} FirstPerformerIsBest(lockMs: nat, locks: seq<Lock>, frames: seq<Frame>, t: nat)
    requires IsRun(lockMs, locks, frames) && t < |frames|
    requires forall i | 0 <= i < t :: frames[i].chosen.None?
    ensures if exists i :: Tracks(frames[t], i) then TakesBest(frames[t]) else frames[t].chosen.None?
    ensures frames[t].chosen.None? ==> locks[t + 1].activeId == 0
  {
    if 0 < t {
      FirstPerformerIsBest(lockMs, locks, frames, t - 1);
      assert frames[t - 1].chosen.None?;
    }
    assert Steps(lockMs, locks[t], frames[t], locks[t + 1]);
    assert KnownIds(frames[t].slots);
    BestIsTaken(lockMs, locks[t], frames[t], locks[t + 1]);
  }

  /** After a change of performer the joint filter goes on only if it already was that body's. */
  lemma FilterFollowsPerformer(before: Lock, slots: seq<Slot>, now: nat, lockMs: nat, filterId: nat,
                               after: Lock, chosen: Option<nat>)
    requires Selects(before, slots, now, lockMs, filterId, after, chosen)
    requires after.activeId != before.activeId && after.activeId != 0
    ensures after.filterReady <==> before.filterReady && filterId == after.activeId
  {
  }
}
