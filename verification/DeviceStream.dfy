/** The life of one camera: starting with clean-up on every failure, invalidation, reconnects,
    and the sequence numbers readers follow across them. */
module DeviceStreams {

  // ----------------------------------------------------------- the driver's handles

  datatype Handle = Null | Handle(id: nat)

  /** How the driver answers a request for a handle.  Broken: an error and yet a handle. */
  datatype Answer = Granted | Refused | Broken

  /** live: handles not deleted yet; deleted: how often each was deleted. */
  datatype Driver = Driver(next: nat, live: set<nat>, deleted: multiset<nat>)

  datatype Handles = Handles(pipeline: Handle, config: Handle, profile: Handle, queue: Handle,
                             align: Handle)

  const NO_HANDLES := Handles(Null, Null, Null, Null, Null)

  function Is(h: Handle, id: nat): nat {
    if h == Handle(id) then 1 else 0
  }

  /** How often a stream holds a handle. */
  function Times(h: Handles, id: nat): nat {
    Is(h.align, id) + Is(h.queue, id) + Is(h.profile, id) + Is(h.config, id) + Is(h.pipeline, id)
  }

  class Api {
    var driver: Driver

    constructor ()
      ensures driver == Driver(0, {}, multiset{})
    {
      driver := Driver(0, {}, multiset{});
    }

    method Create(answer: Answer) returns (h: Handle)
      modifies this
      ensures h == (if answer.Refused? then Null else Handle(old(driver).next))
      ensures driver == if answer.Refused? then old(driver) else Issued(old(driver))
    {
      if answer.Refused? {
        return Null;
      }
      h := Handle(driver.next);
      driver := Driver(driver.next + 1, driver.live + {driver.next}, driver.deleted);
    }

    method Delete(h: Handle)
      requires h.Handle?
      modifies this
      ensures driver == Deleted(old(driver), h)
    {
      driver := Driver(driver.next, driver.live - {h.id}, driver.deleted + multiset{h.id});
    }
  }

  function Issued(d: Driver): Driver {
    Driver(d.next + 1, d.live + {d.next}, d.deleted)
  }

  function Deleted(d: Driver, h: Handle): Driver {
    if h.Null? then d else Driver(d.next, d.live - {h.id}, d.deleted + multiset{h.id})
  }

  // ---------------------------------------------------------------- one stream

  datatype Options = Options(infrared: bool, align: bool)

  /** What the driver does at each step of a start. */
  datatype Script = Script(pipeline: Answer, config: Answer, device: bool, depth: bool, infrared: bool,
                           profile: Answer, queue: Answer, align: Answer, process: bool)

  /** have: depth and intrinsics are published. */
  datatype World = World(driver: Driver, handles: Handles, active: bool, have: bool,
                         depth: seq<nat>, sequence: nat)

  datatype Packet = NoPacket | Packet(sequence: nat, depth: seq<nat>)

  predicate Succeeds(o: Options, x: Script) {
    && x.pipeline.Granted? && x.config.Granted? && x.device && x.depth
    && (o.infrared ==> x.infrared)
    && x.profile.Granted?
    && (o.align ==> x.queue.Granted? && x.align.Granted? && x.process)
  }

  /** Everything a running stream needs. */
  predicate Full(o: Options, h: Handles) {
    && h.pipeline.Handle? && h.config.Handle? && h.profile.Handle?
    && (h.queue.Handle? <==> o.align) && (h.align.Handle? <==> o.align)
  }

  function CleanedUp(w: World): World {
    var h := w.handles;
    World(Deleted(Deleted(Deleted(Deleted(Deleted(w.driver, h.align), h.queue), h.profile),
                          h.config), h.pipeline),
          NO_HANDLES, false, false, [], w.sequence)
  }

  /** The bookkeeping of one handle: once issued it is either live or was deleted exactly
      once, and the live ones are those held, each once, and those lost. */
  ghost predicate AccountOf(w: World, lost: set<nat>, id: nat) {
    var held := Times(w.handles, id) + if id in lost then 1 else 0;
    && w.driver.deleted[id] == (if id < w.driver.next && id !in w.driver.live then 1 else 0)
    && (id in w.driver.live <==> held == 1)
    && held <= 1
    && (id in w.driver.live ==> id < w.driver.next)
  }

  ghost predicate Accounted(w: World, lost: set<nat>) {
    forall id: nat :: AccountOf(w, lost, id)
  }

  lemma DeletedOne(d: Driver, h: Handle, id: nat)
    ensures Deleted(d, h).deleted[id] == d.deleted[id] + Is(h, id)
    ensures id in Deleted(d, h).live <==> id in d.live && Is(h, id) == 0
    ensures Deleted(d, h).next == d.next
  {
  }

  lemma CleanUpAccounts(w: World, lost: set<nat>)
    requires Accounted(w, lost)
    ensures Accounted(CleanedUp(w), lost)
  {
    forall id: nat
      ensures AccountOf(CleanedUp(w), lost, id)
    {
      hide Deleted, Is, Accounted;
      var h, d0 := w.handles, w.driver;
      CleanUpInstance(w, lost, id);
      var d1 := Deleted(d0, h.align);
      var d2 := Deleted(d1, h.queue);
      var d3 := Deleted(d2, h.profile);
      var d4 := Deleted(d3, h.config);
      DeletedOne(d0, h.align, id);
      DeletedOne(d1, h.queue, id);
      DeletedOne(d2, h.profile, id);
      DeletedOne(d3, h.config, id);
      DeletedOne(d4, h.pipeline, id);
      NothingHeld(id);
    }
  }

  lemma CleanUpInstance(w: World, lost: set<nat>, id: nat)
    requires Accounted(w, lost)
    ensures AccountOf(w, lost, id)
  {
  }

  lemma NothingHeld(id: nat)
    ensures Times(NO_HANDLES, id) == 0
  {
  }

  /** more holds what h holds and one handle besides. */
  ghost predicate HoldsMore(more: Handles, h: Handles, added: nat) {
    forall id: nat :: Times(more, id) == Times(h, id) + if id == added then 1 else 0
  }

  /** A new handle joins the held ones. */
  lemma RequestAccounts(w: World, lost: set<nat>, h: Handles)
    requires Accounted(w, lost)
    requires HoldsMore(h, w.handles, w.driver.next)
    ensures Accounted(w.(driver := Issued(w.driver), handles := h), lost)
  {
    hide Times;
    forall id: nat
      ensures AccountOf(w.(driver := Issued(w.driver), handles := h), lost, id)
    {
      assert AccountOf(w, lost, id) && AccountOf(w, lost, w.driver.next);
      assert Times(h, id) == Times(w.handles, id) + if id == w.driver.next then 1 else 0;
    }
  }

  /** Overwriting the only held handle loses it. */
  lemma LossAccounts(w: World, lost: set<nat>)
    requires Accounted(w, lost)
    requires w.handles == NO_HANDLES.(pipeline := w.handles.pipeline)
    ensures Accounted(w.(handles := NO_HANDLES), LostBy(lost, w))
  {
    forall id: nat
      ensures AccountOf(w.(handles := NO_HANDLES), LostBy(lost, w), id)
    {
      assert AccountOf(w, lost, id);
    }
  }

  lemma AccountsIgnoreFlags(w: World, v: World, lost: set<nat>)
    requires Accounted(w, lost) && v.driver == w.driver && v.handles == w.handles
    ensures Accounted(v, lost)
  {
    forall id: nat
      ensures AccountOf(v, lost, id)
    {
      assert AccountOf(w, lost, id);
    }
  }

  /** What a start promises once it holds a pipeline that came without an error. */
  ghost predicate Concluded(o: Options, x: Script, lost: set<nat>, before: World, after: World, ok: bool) {
    && ok == after.active == Succeeds(o, x)
    && Accounted(after, lost)
    && after.sequence == before.sequence
    && if ok then Full(o, after.handles) && after.have == before.have && after.depth == before.depth
       else !after.have && after.handles == NO_HANDLES
  }

  /** What a start promises.  A pipeline held from before is overwritten and lost. */
  ghost predicate StartedAs(o: Options, x: Script, lost: set<nat>, before: World, after: World, ok: bool) {
    if x.pipeline.Granted? then Concluded(o, x, LostBy(lost, before), before, after, ok)
    else
      && !ok && !after.active && Accounted(after, LostBy(lost, before))
      && after.sequence == before.sequence && after.have == before.have && after.depth == before.depth
      && after.handles == NO_HANDLES.(pipeline := after.handles.pipeline)
      && (after.handles.pipeline.Handle? <==> x.pipeline.Broken?)
  }

  function LostBy(lost: set<nat>, before: World): set<nat> {
    if before.handles.pipeline.Handle? then lost + {before.handles.pipeline.id} else lost
  }

  class DeviceStream {
    const api: Api
    var pipeline: Handle
    var config: Handle
    var profile: Handle
    var queue: Handle
    var align: Handle
    var active: bool
    var have: bool
    var depth: seq<nat>
    var sequence: nat

    ghost function Value(): World
      reads this, api
    {
      World(api.driver, Handles(pipeline, config, profile, queue, align), active, have, depth, sequence)
    }

    constructor (api: Api)
      ensures this.api == api
      ensures Value() == World(api.driver, NO_HANDLES, false, false, [], 0)
    {
      this.api := api;
      pipeline, config, profile, queue, align := Null, Null, Null, Null, Null;
      active, have, depth, sequence := false, false, [], 0;
    }

    method Invalidate()
      modifies this`active, this`have, this`depth
      ensures !active && !have && depth == []
    {
      active := false;
      depth := [];
      have := false;
    }

    method Delete(h: Handle)
      modifies api
      ensures api.driver == Deleted(old(api.driver), h)
    {
      if h.Handle? {
        api.Delete(h);
      }
    }

    method CleanUp()
      modifies this, api
      ensures Value() == CleanedUp(old(Value()))
    {
      hide Deleted;
      Invalidate();
      Delete(align);
      Delete(queue);
      Delete(profile);
      Delete(config);
      Delete(pipeline);
      profile, align, queue, config, pipeline := Null, Null, Null, Null, Null;
    }

    method CleanUpAfter(ghost lost: set<nat>)
      requires Accounted(Value(), lost)
      modifies this, api
      ensures Accounted(Value(), lost) && sequence == old(sequence)
      ensures Value().handles == NO_HANDLES && !active && !have
    {
      CleanUpAccounts(Value(), lost);
      CleanUp();
    }

    /** start_device.  Every failure cleans up, except the very first: an error together with
        a pipeline leaves that pipeline in place. */
    method Start(o: Options, x: Script, ghost lost: set<nat>) returns (ok: bool)
      requires !active && Accounted(Value(), lost)
      requires Value().handles == NO_HANDLES.(pipeline := pipeline)
      modifies this, api
      ensures StartedAs(o, x, lost, old(Value()), Value(), ok)
    {
      hide Accounted;
      ghost var gone := LostBy(lost, Value());
      LossAccounts(Value(), lost);
      ghost var empty := Value().(handles := NO_HANDLES);
      RequestAccounts(empty, gone, NO_HANDLES.(pipeline := Handle(empty.driver.next)));
      pipeline := api.Create(x.pipeline);
      if !x.pipeline.Granted? {
        return false;
      }
      ok := StartStreams(o, x, gone);
    }

    method StartStreams(o: Options, x: Script, ghost lost: set<nat>) returns (ok: bool)
      requires !active && Accounted(Value(), lost) && pipeline.Handle? && x.pipeline.Granted?
      requires Value().handles == NO_HANDLES.(pipeline := pipeline)
      modifies this, api
      ensures Concluded(o, x, lost, old(Value()), Value(), ok)
    {
      hide Accounted;
      RequestAccounts(Value(), lost, Value().handles.(config := Handle(api.driver.next)));
      config := api.Create(x.config);
      if !x.config.Granted? || !x.device || !x.depth || (o.infrared && !x.infrared) {
        CleanUpAfter(lost);
        return false;
      }
      RequestAccounts(Value(), lost, Value().handles.(profile := Handle(api.driver.next)));
      profile := api.Create(x.profile);
      if !x.profile.Granted? {
        CleanUpAfter(lost);
        return false;
      }
      ok := true;
      if o.align {
        ok := StartAlignment(x, lost);
      }
      if ok {
        AccountsIgnoreFlags(Value(), Value().(active := true), lost);
        active := true;
      }
    }

    method StartAlignment(x: Script, ghost lost: set<nat>) returns (ok: bool)
      requires Accounted(Value(), lost) && !active && queue.Null? && align.Null?
      modifies this, api
      ensures ok == (x.queue.Granted? && x.align.Granted? && x.process)
      ensures Accounted(Value(), lost) && sequence == old(sequence) && !active
      ensures if ok then
                queue.Handle? && align.Handle? && have == old(have) && depth == old(depth) &&
                pipeline == old(pipeline) && config == old(config) && profile == old(profile)
              else !have && Value().handles == NO_HANDLES
    {
      hide Accounted;
      RequestAccounts(Value(), lost, Value().handles.(queue := Handle(api.driver.next)));
      queue := api.Create(x.queue);
      if !x.queue.Granted? {
        CleanUpAfter(lost);
        return false;
      }
      RequestAccounts(Value(), lost, Value().handles.(align := Handle(api.driver.next)));
      align := api.Create(x.align);
      if !x.align.Granted? || !x.process {
        CleanUpAfter(lost);
        return false;
      }
      return true;
    }

    /** capture_frame: one complete frame set, or nothing. */
    method Capture(complete: bool, frame: seq<nat>) returns (published: bool)
      requires active && frame != []
      modifies this`depth, this`sequence, this`have
      ensures published == complete
      ensures if complete then depth == frame && have && sequence == old(sequence) + 1
              else depth == old(depth) && have == old(have) && sequence == old(sequence)
    {
      if !complete {
        return false;
      }
      depth := frame;
      sequence := sequence + 1;
      have := true;
      return true;
    }

    method GetDepthFrame(after: nat) returns (p: Packet)
      ensures p == Read(Value(), after)
    {
      if !active || !have || depth == [] || sequence <= after {
        return NoPacket;
      }
      return Packet(sequence, depth);
    }
  }

  function Read(w: World, after: nat): Packet {
    if w.active && w.have && w.depth != [] && after < w.sequence
    then Packet(w.sequence, w.depth) else NoPacket
  }
}
