/**
 The leader's device table next to its registry, one call at a time: the status shown for a device mirrors its
 reservation, heartbeats replace a node's devices, and silent nodes are dropped.
 (internal/cluster/leader.go)
 */
module Leader {
  import opened Wrappers
  import D = DeviceLock
  import opened Registry

  /** A device record; `id` is empty until the board is identified. Times are in seconds. */
  datatype Device = Device(node: string, status: string, id: string, isVirtual: bool, firstSeen: Option<int>)

  const UNIDENTIFIED_TIMEOUT: int := 3600

  datatype Node = Node(lastSeen: int, port: int)

  type Devices = map<Path, Device>

  /** What a client sees and what the registry knows. */
  datatype View = View(devices: Devices, locks: Locks)

  function Stamped(devices: Devices, path: Path, status: string): Devices {
    if path in devices then devices[path := devices[path].(status := status)] else devices
  }

  /** A registry call and, when it succeeds, the status its hook stamps. */
  function Hooked(v: View, path: Path, call: D.Call, status: string): View {
    View(if Succeeds(v.locks, path, call) then Stamped(v.devices, path, status) else v.devices,
         Called(v.locks, path, call))
  }

  function Cleaned(v: View, cutoff: int): View {
    View(map p | p in v.devices ::
           if Stale(v.locks, p, cutoff) then v.devices[p].(status := "available") else v.devices[p],
         Expired(v.locks, cutoff))
  }

  /** In fields: exactly the overdue reservations are freed, and exactly their devices become available. */
  ghost predicate OverdueCleaned(before: View, now: View, cutoff: int) {
    && now.locks.Keys == before.locks.Keys && now.devices.Keys == before.devices.Keys
    && (forall p :: p in now.locks ==>
          now.locks[p] == if D.Overdue(before.locks[p], cutoff) then D.Lock(D.Available, "", before.locks[p].since)
                          else before.locks[p])
    && (forall p :: p in now.devices ==>
          now.devices[p] == if p in before.locks && D.Overdue(before.locks[p], cutoff) then
                              before.devices[p].(status := "available")
                            else before.devices[p])
  }

  lemma CleanedIsOverdue(v: View, cutoff: int)
    ensures OverdueCleaned(v, Cleaned(v, cutoff), cutoff)
  {
    forall p | p in v.locks {
      ExpiryIsOverdue(v.locks[p], cutoff);
    }
  }

  predicate Orphaned(v: View, path: Path, active: set<Path>) {
    path in v.devices && v.devices[path].status == "busy" && path !in active
  }

  function Reclaimed(v: View, active: set<Path>): View {
    View(map p | p in v.devices ::
           if Orphaned(v, p, active) then v.devices[p].(status := "available") else v.devices[p],
         map p | p in v.locks :: if Orphaned(v, p, active) then D.Apply(v.locks[p], D.Force).0 else v.locks[p])
  }

  /** A device comes up: a known one is reset, lock and all; an unknown one is registered. */
  function Added(v: View, path: Path, dev: Device): View {
    if path in v.devices then View(v.devices[path := dev.(status := "available")], Called(v.locks, path, D.Force))
    else
      View(v.devices[path := dev.(status := "available")],
           if path in v.locks then v.locks else v.locks[path := D.FREE])
  }

  /** A board never identified and known for more than an hour. */
  predicate Unidentified(dev: Device, now: int) {
    dev.id == "" && !dev.isVirtual && dev.firstSeen.Some? && now - dev.firstSeen.value > UNIDENTIFIED_TIMEOUT
  }

  function Identified(v: View, now: int): View {
    View(map p | p in v.devices && !Unidentified(v.devices[p], now) :: v.devices[p],
         map p | p in v.locks && !(p in v.devices && Unidentified(v.devices[p], now)) :: v.locks[p])
  }

  /** Every live registered device is shown busy exactly when its lock is held. */
  ghost predicate Mirror(v: View) {
    forall p :: p in v.devices && p in v.locks ==> (v.devices[p].status == "busy" <==> D.Holder(v.locks[p]).Some?)
  }

  datatype Request =
    | Reserve(path: Path, owner: string, now: int)
    | Release(path: Path, owner: string)
    | CleanupStale(cutoff: int)
    | Reconnect(path: Path, dev: Device)
    | CleanupOrphans(active: set<Path>)
    | CleanupUnidentified(now: int)

  function Handled(v: View, r: Request): View {
    match r
    case Reserve(p, owner, now) => Hooked(v, p, D.Call.Reserve(owner, now), "busy")
    case Release(p, owner) => Hooked(v, p, D.Call.Release(owner), "available")
    case CleanupStale(cutoff) => Cleaned(v, cutoff)
    case Reconnect(p, dev) => if p in v.devices then Added(v, p, dev) else v
    case CleanupOrphans(active) => Reclaimed(v, active)
    case CleanupUnidentified(now) => Identified(v, now)
  }

  function HandledAll(v: View, requests: seq<Request>): View {
    if requests == [] then v else Handled(HandledAll(v, requests[..|requests| - 1]), requests[|requests| - 1])
  }

  lemma MirrorCalled(v: View, path: Path, call: D.Call, status: string)
    requires Mirror(v) && ((call.Reserve? && status == "busy") || (call.Release? && status == "available"))
    ensures Mirror(Hooked(v, path, call, status))
  {
    if path in v.devices && path in v.locks {
      var after := Hooked(v, path, call, status);
      assert Succeeds(v.locks, path, call) ==> after.devices[path].status == status;
    }
  }

  lemma MirrorCleaned(v: View, cutoff: int)
    requires Mirror(v)
    ensures Mirror(Cleaned(v, cutoff))
  {
  }

  lemma MirrorReclaimed(v: View, active: set<Path>)
    requires Mirror(v)
    ensures Mirror(Reclaimed(v, active))
  {
  }

  lemma MirrorIdentified(v: View, now: int)
    requires Mirror(v)
    ensures Mirror(Identified(v, now))
  {
  }

  /** The status mirrors the lock after every run of such requests. */
  lemma {:induction false} MirrorKept(v: View, requests: seq<Request>)
    requires Mirror(v)
    ensures Mirror(HandledAll(v, requests))
  {
    if requests != [] {
      var before := HandledAll(v, requests[..|requests| - 1]);
      MirrorKept(v, requests[..|requests| - 1]);
      match requests[|requests| - 1]
      case Reserve(p, owner, now) => MirrorCalled(before, p, D.Call.Reserve(owner, now), "busy");
      case Release(p, owner) => MirrorCalled(before, p, D.Call.Release(owner), "available");
      case CleanupStale(cutoff) => MirrorCleaned(before, cutoff);
      case Reconnect(p, dev) => AddedMirror(before, p, dev);
      case CleanupOrphans(active) => MirrorReclaimed(before, active);
      case CleanupUnidentified(now) => MirrorIdentified(before, now);
    }
  }

  /** A device that comes up again keeps the mirror exactly when it is still in memory or nobody holds its lock. */
  lemma AddedMirror(v: View, path: Path, dev: Device)
    requires Mirror(v)
    ensures Mirror(Added(v, path, dev)) <==> path in v.devices || path !in v.locks || D.Holder(v.locks[path]).None?
  {
    var after := Added(v, path, dev);
    if path in v.devices || path !in v.locks || D.Holder(v.locks[path]).None? {
      assert Mirror(after);
    } else {
      assert after.devices[path].status == "available" && path in after.locks;
    }
  }

  /** A job whose reservation succeeded is the one the lock names, and only its release frees the device again. */
  lemma ReleaseByOwnerOnly(v: View, path: Path, owner: string, other: string, now: int)
    requires path in v.devices && path in v.locks && owner != other
    requires Succeeds(v.locks, path, D.Call.Reserve(owner, now))
    ensures var reserved := Handled(v, Reserve(path, owner, now));
            && reserved.devices[path].status == "busy" && reserved.locks[path].owner == owner
            && Handled(reserved, Release(path, other)) == reserved
            && Handled(reserved, Release(path, owner)).devices[path].status == "available"
            && Succeeds(Handled(reserved, Release(path, owner)).locks, path, D.Call.Reserve(other, now))
  {
  }

  // Loops over the table.

  predicate Among(freed: seq<(Path, string)>, p: Path) {
    exists k :: 0 <= k < |freed| && freed[k].0 == p
  }

  ghost predicate FreedUpTo(before: Devices, now: Devices, freed: seq<(Path, string)>) {
    && now.Keys == before.Keys
    && forall p :: p in now ==> now[p] == if Among(freed, p) then before[p].(status := "available") else before[p]
  }

  lemma FreedOneMore(before: Devices, now: Devices, freed: seq<(Path, string)>, i: nat)
    requires i < |freed| && FreedUpTo(before, now, freed[..i])
    ensures FreedUpTo(before, Stamped(now, freed[i].0, "available"), freed[..i + 1])
  {
    forall p
      ensures Among(freed[..i + 1], p) <==> Among(freed[..i], p) || freed[i].0 == p
    {
      if Among(freed[..i], p) {
        var k :| 0 <= k < i && freed[..i][k].0 == p;
        assert freed[..i + 1][k].0 == p;
      }
      if Among(freed[..i + 1], p) && freed[i].0 != p {
        var k :| 0 <= k < i + 1 && freed[..i + 1][k].0 == p;
        assert freed[..i][k].0 == p;
      }
      assert freed[..i + 1][i] == freed[i];
    }
  }

  lemma FreedAll(before: View, now: Devices, freed: seq<(Path, string)>, cutoff: int)
    requires Reports(freed, before.locks, {}, cutoff) && FreedUpTo(before.devices, now, freed)
    ensures now == Cleaned(before, cutoff).devices
  {
    forall p | p in now
      ensures Among(freed, p) <==> Stale(before.locks, p, cutoff)
    {
      if Stale(before.locks, p, cutoff) {
        assert (p, before.locks[p].owner) in freed;
      }
      if k :| 0 <= k < |freed| && freed[k].0 == p {
        assert freed[k] in freed;
      }
    }
  }

  ghost predicate Reclaiming(before: View, now: View, active: set<Path>, todo: set<Path>) {
    var after := Reclaimed(before, active);
    && now.devices.Keys == before.devices.Keys && now.locks.Keys == before.locks.Keys
    && (forall p :: p in now.devices ==> now.devices[p] == if p in todo then before.devices[p] else after.devices[p])
    && (forall p :: p in now.locks ==> now.locks[p] == if p in todo then before.locks[p] else after.locks[p])
  }

  function ReclaimedAt(now: View, path: Path, active: set<Path>): View {
    if Orphaned(now, path, active) then
      View(Stamped(now.devices, path, "available"), Called(now.locks, path, D.Force))
    else now
  }

  lemma ReclaimOne(before: View, now: View, active: set<Path>, todo: set<Path>, path: Path)
    requires path in todo && path in now.devices && Reclaiming(before, now, active, todo)
    ensures Reclaiming(before, ReclaimedAt(now, path, active), active, todo - {path})
  {
  }

  lemma ReclaimingStarts(before: View, active: set<Path>)
    ensures Reclaiming(before, before, active, before.devices.Keys)
  {
  }

  lemma ReclaimingDone(before: View, now: View, active: set<Path>)
    requires Reclaiming(before, now, active, {})
    ensures now == Reclaimed(before, active)
  {
  }

  // Heartbeats.

  datatype Reported = Reported(path: Path, dev: Device)

  predicate Listed(list: seq<Reported>, path: Path) {
    exists i :: 0 <= i < |list| && list[i].path == path
  }

  /** The last entry of the list for the path. */
  function LastFor(list: seq<Reported>, path: Path): Device
    requires Listed(list, path)
  {
    if list[|list| - 1].path == path then list[|list| - 1].dev else LastFor(list[..|list| - 1], path)
  }

  /** The table after a heartbeat that lists a node's devices. */
  ghost predicate Aggregated(before: Devices, after: Devices, node: string, list: seq<Reported>) {
    && (forall p :: p in after && after[p].node == node <==> Listed(list, p))
    && (forall p :: Listed(list, p) ==> p in after && after[p] == LastFor(list, p).(node := node))
    && (forall p :: !Listed(list, p) && p in after ==> p in before && after[p] == before[p])
    && (forall p :: !Listed(list, p) && p in before && before[p].node != node ==> p in after)
  }

  /** The first k devices of the list are in the table and registered; nothing else has changed. */
  ghost predicate Adopted(before: View, now: View, node: string, list: seq<Reported>, k: nat)
    requires k <= |list|
  {
    && (forall p :: p in now.devices <==> p in before.devices || Listed(list[..k], p))
    && (forall p :: p in now.devices ==>
          now.devices[p]
          == if Listed(list[..k], p) then LastFor(list[..k], p).(node := node) else before.devices[p])
    && RegisteredAlso(before.locks, now.locks, list[..k])
  }

  /** The listed paths are registered as well, free if they were not registered before. */
  ghost predicate RegisteredAlso(before: Locks, after: Locks, list: seq<Reported>) {
    && (forall p :: p in after <==> p in before || Listed(list, p))
    && (forall p :: p in after ==> after[p] == if p in before then before[p] else D.FREE)
  }

  lemma ListedOneMore(list: seq<Reported>, k: nat, p: Path)
    requires k < |list|
    ensures Listed(list[..k + 1], p) <==> Listed(list[..k], p) || list[k].path == p
    ensures Listed(list[..k + 1], p) ==>
              LastFor(list[..k + 1], p) == if list[k].path == p then list[k].dev else LastFor(list[..k], p)
  {
    assert list[..k + 1][|list[..k + 1]| - 1] == list[k] && list[..k + 1][..k] == list[..k];
    if Listed(list[..k], p) {
      var i :| 0 <= i < k && list[..k][i].path == p;
      assert list[..k + 1][i].path == p;
    }
    if list[k].path == p {
      assert list[..k + 1][k].path == p;
    }
    if Listed(list[..k + 1], p) && list[k].path != p {
      var i :| 0 <= i < k + 1 && list[..k + 1][i].path == p;
      assert list[..k][i].path == p;
    }
  }

  function AdoptedWith(now: View, node: string, entry: Reported): View {
    View(now.devices[entry.path := entry.dev.(node := node)],
         if entry.path in now.locks then now.locks else now.locks[entry.path := D.FREE])
  }

  lemma RegisteredOneMore(before: Locks, now: Locks, list: seq<Reported>, k: nat)
    requires k < |list| && RegisteredAlso(before, now, list[..k])
    ensures RegisteredAlso(before, if list[k].path in now then now else now[list[k].path := D.FREE], list[..k + 1])
  {
    forall p
      ensures Listed(list[..k + 1], p) <==> Listed(list[..k], p) || list[k].path == p
    {
      ListedOneMore(list, k, p);
    }
  }

  lemma AdoptedOneMore(before: View, now: View, node: string, list: seq<Reported>, k: nat)
    requires k < |list| && Adopted(before, now, node, list, k)
    ensures Adopted(before, AdoptedWith(now, node, list[k]), node, list, k + 1)
  {
    var after := AdoptedWith(now, node, list[k]);
    RegisteredOneMore(before.locks, now.locks, list, k);
    forall p
      ensures p in after.devices <==> p in before.devices || Listed(list[..k + 1], p)
      ensures p in after.devices ==>
                after.devices[p]
                == if Listed(list[..k + 1], p) then LastFor(list[..k + 1], p).(node := node) else before.devices[p]
    {
      ListedOneMore(list, k, p);
    }
  }

  lemma AggregatedOnce(before: View, adopted: View, after: Devices, node: string, list: seq<Reported>)
    requires Adopted(before, adopted, node, list, |list|)
    requires forall p :: p in after <==> p in adopted.devices && (adopted.devices[p].node != node || Listed(list, p))
    requires forall p :: p in after ==> after[p] == adopted.devices[p]
    ensures Aggregated(before.devices, after, node, list) && RegisteredAlso(before.locks, adopted.locks, list)
  {
    assert list[..|list|] == list;
  }

  /** A heartbeat determines the table. */
  lemma AggregatedIsFunction(before: Devices, a: Devices, b: Devices, node: string, list: seq<Reported>)
    requires Aggregated(before, a, node, list) && Aggregated(before, b, node, list)
    ensures a == b
  {
    forall p
      ensures p in a <==> p in b
      ensures p in a && p in b ==> a[p] == b[p]
    {
      if !Listed(list, p) {
        assert p in a ==> a[p].node != node && p in before;
        assert p in b ==> b[p].node != node && p in before;
      }
    }
  }

  /** The same heartbeat again changes nothing. */
  lemma AggregatedAgain(before: Devices, once: Devices, twice: Devices, node: string, list: seq<Reported>)
    requires Aggregated(before, once, node, list) && Aggregated(once, twice, node, list)
    ensures twice == once
  {
    AggregatedIsFunction(once, once, twice, node, list);
  }

  ghost predicate Identifying(before: View, now: View, time: int, todo: set<Path>) {
    var after := Identified(before, time);
    && (forall p :: p in now.devices <==> if p in todo then p in before.devices else p in after.devices)
    && (forall p :: p in now.devices ==> now.devices[p] == before.devices[p])
    && (forall p :: p in now.locks <==> if p in todo then p in before.locks else p in after.locks)
    && (forall p :: p in now.locks ==> now.locks[p] == before.locks[p])
  }

  function IdentifiedAt(now: View, path: Path, time: int): View {
    if path in now.devices && Unidentified(now.devices[path], time) then
      View(now.devices - {path}, now.locks - {path})
    else now
  }

  lemma IdentifyOne(before: View, now: View, time: int, todo: set<Path>, path: Path)
    requires path in todo && path in now.devices && Identifying(before, now, time, todo)
    ensures Identifying(before, IdentifiedAt(now, path, time), time, todo - {path})
  {
  }

  lemma IdentifyingStarts(before: View, time: int)
    ensures Identifying(before, before, time, before.devices.Keys)
  {
  }

  lemma IdentifyingDone(before: View, now: View, time: int)
    requires Identifying(before, now, time, {})
    ensures now == Identified(before, time)
  {
  }

  predicate TimedOut(nodes: map<string, Node>, self: string, timeout: int, now: int, id: string) {
    id in nodes && id != self && now - nodes[id].lastSeen > timeout
  }

  class Leader {
    const id: string
    const nodeTimeout: int
    const registry: Registry
    var devices: Devices
    var nodes: map<string, Node>

    constructor (id: string, nodeTimeout: int)
      ensures this.id == id && this.nodeTimeout == nodeTimeout && registry.Valid()
      ensures devices == map[] && nodes == map[] && Current() == View(map[], map[])
    {
      this.id, this.nodeTimeout := id, nodeTimeout;
      registry := new Registry();
      devices, nodes := map[], map[];
    }

    ghost function Current(): View
      reads this, registry, registry.devices.Values
    {
      View(devices, registry.Contents())
    }

    method SetDeviceStatus(path: Path, status: string)
      modifies this`devices
      ensures devices == Stamped(old(devices), path, status)
    {
      if path in devices {
        devices := devices[path := devices[path].(status := status)];
      }
    }

    method ReserveDevice(path: Path, owner: string, now: int) returns (ok: bool)
      requires registry.Valid()
      modifies this`devices, registry.devices.Values
      ensures registry.Valid() && ok == Succeeds(old(registry.Contents()), path, D.Call.Reserve(owner, now))
      ensures Current() == Handled(old(Current()), Reserve(path, owner, now))
    {
      ok := registry.Reserve(path, owner, now);
      if ok {
        SetDeviceStatus(path, "busy");
      }
    }

    method ReleaseDevice(path: Path, owner: string) returns (ok: bool)
      requires registry.Valid()
      modifies this`devices, registry.devices.Values
      ensures registry.Valid() && ok == Succeeds(old(registry.Contents()), path, D.Call.Release(owner))
      ensures Current() == Handled(old(Current()), Release(path, owner))
    {
      ok := registry.Release(path, owner);
      if ok {
        SetDeviceStatus(path, "available");
      }
    }

    /** The registry frees what is stale; then the hook runs for each freed path. */
    method CleanupStaleReservations(cutoff: int)
      requires registry.Valid()
      modifies this`devices, registry.devices.Values
      ensures registry.Valid() && Current() == Handled(old(Current()), CleanupStale(cutoff))
      ensures OverdueCleaned(old(Current()), Current(), cutoff)
    {
      ghost var before := Current();
      var freed := registry.CleanupStaleReservations(cutoff);
      FireReleaseHooks(freed);
      assert Current() == Cleaned(before, cutoff) by {
        FreedAll(before, devices, freed, cutoff);
      }
      CleanedIsOverdue(before, cutoff);
    }

    method FireReleaseHooks(freed: seq<(Path, string)>)
      modifies this`devices
      ensures FreedUpTo(old(devices), devices, freed)
    {
      for i := 0 to |freed|
        invariant FreedUpTo(old(devices), devices, freed[..i])
      {
        FreedOneMore(old(devices), devices, freed, i);
        SetDeviceStatus(freed[i].0, "available");
      }
      assert freed[..|freed|] == freed;
    }

    method DeviceAdded(path: Path, dev: Device)
      requires registry.Valid()
      modifies this`devices, registry, registry.devices.Values
      ensures registry.Valid() && Current() == Added(old(Current()), path, dev)
    {
      if path in devices {
        devices := devices[path := dev.(status := "available")];
        var previous := registry.ForceRelease(path);
      } else {
        devices := devices[path := dev.(status := "available")];
        registry.Register(path);
      }
    }

    method CleanupOrphanedDevices(active: set<Path>)
      requires registry.Valid()
      modifies this`devices, registry.devices.Values
      ensures registry.Valid() && Current() == Handled(old(Current()), CleanupOrphans(active))
      ensures forall p :: p in old(devices) ==>
                && p in devices
                && (devices[p] != old(devices)[p] <==> old(devices)[p].status == "busy" && p !in active)
                && (devices[p] != old(devices)[p] ==> devices[p] == old(devices)[p].(status := "available"))
    {
      ghost var before := Current();
      var todo := devices.Keys;
      ReclaimingStarts(before, active);
      while todo != {}
        invariant registry.Valid() && registry.devices == old(registry.devices)
        invariant todo <= devices.Keys && Reclaiming(before, Current(), active, todo)
        decreases todo
      {
        var path :| path in todo;
        ReclaimOne(before, Current(), active, todo, path);
        todo := todo - {path};
        ReclaimDevice(path, active);
      }
      ReclaimingDone(before, Current(), active);
    }

    method ReclaimDevice(path: Path, active: set<Path>)
      requires registry.Valid() && path in devices
      modifies this`devices, registry.devices.Values
      ensures Current() == ReclaimedAt(old(Current()), path, active)
    {
      if devices[path].status == "busy" && path !in active {
        devices := devices[path := devices[path].(status := "available")];
        var previous := registry.ForceRelease(path);
      }
    }

    method CleanupUnidentifiedDevices(now: int)
      requires registry.Valid()
      modifies this`devices, registry
      ensures registry.Valid() && Current() == Handled(old(Current()), Request.CleanupUnidentified(now))
      ensures forall p :: p in devices <==>
                p in old(devices) &&
                var d := old(devices)[p];
                !(d.id == "" && !d.isVirtual && d.firstSeen.Some? && now - d.firstSeen.value > 3600)
      ensures forall p :: p in old(devices) && p in old(registry.Contents()) ==>
                (p in registry.Contents() <==> p in devices)
    {
      ghost var before := Current();
      var todo := devices.Keys;
      IdentifyingStarts(before, now);
      while todo != {}
        invariant registry.Valid() && registry.devices.Values <= old(registry.devices.Values)
        invariant todo <= devices.Keys && Identifying(before, Current(), now, todo)
        decreases todo
      {
        var path :| path in todo;
        IdentifyOne(before, Current(), now, todo, path);
        todo := todo - {path};
        CleanupUnidentified(path, now);
      }
      IdentifyingDone(before, Current(), now);
    }

    method CleanupUnidentified(path: Path, now: int)
      requires registry.Valid() && path in devices
      modifies this`devices, registry
      ensures registry.Valid() && registry.devices.Values <= old(registry.devices.Values)
      ensures Current() == IdentifiedAt(old(Current()), path, now) && devices.Keys >= old(devices).Keys - {path}
    {
      var dev := devices[path];
      if dev.id != "" {
        return;
      }
      if dev.isVirtual {
        return;
      }
      if dev.firstSeen.Some? && now - dev.firstSeen.value > UNIDENTIFIED_TIMEOUT {
        devices := devices - {path};
        registry.Unregister(path);
      }
    }

    method UpdateHeartbeat(node: string, now: int, port: int, list: Option<seq<Reported>>)
      requires registry.Valid()
      modifies this, registry
      ensures registry.Valid()
      ensures nodes == if node in old(nodes) then
                         old(nodes)[node := Node(now, if port > 0 then port else old(nodes)[node].port)]
                       else old(nodes)
      ensures list.None? ==> Current() == old(Current())
      ensures list.Some? ==>
                Aggregated(old(devices), devices, node, list.value)
                && RegisteredAlso(old(registry.Contents()), registry.Contents(), list.value)
    {
      if node in nodes {
        nodes := nodes[node := Node(now, if port > 0 then port else nodes[node].port)];
      }
      if list.Some? {
        Aggregate(node, list.value);
      }
    }

    method Aggregate(node: string, list: seq<Reported>)
      requires registry.Valid()
      modifies this`devices, registry
      ensures registry.Valid()
      ensures Aggregated(old(devices), devices, node, list)
              && RegisteredAlso(old(registry.Contents()), registry.Contents(), list)
    {
      ghost var before := Current();
      var currentPaths := Adopt(node, list);
      ghost var adopted := Current();
      KeepOnly(node, currentPaths);
      AggregatedOnce(before, adopted, devices, node, list);
    }

    method Adopt(node: string, list: seq<Reported>) returns (currentPaths: set<Path>)
      requires registry.Valid()
      modifies this`devices, registry
      ensures registry.Valid() && fresh(registry.devices.Values - old(registry.devices.Values))
      ensures Adopted(old(Current()), Current(), node, list, |list|)
      ensures forall p :: p in currentPaths <==> Listed(list, p)
    {
      ghost var before := Current();
      currentPaths := {};
      for i := 0 to |list|
        invariant registry.Valid() && fresh(registry.devices.Values - old(registry.devices.Values))
        invariant Adopted(before, Current(), node, list, i)
        invariant forall p :: p in currentPaths <==> Listed(list[..i], p)
      {
        var path := list[i].path;
        AdoptedOneMore(before, Current(), node, list, i);
        forall p {
          ListedOneMore(list, i, p);
        }
        AdoptDevice(node, list[i]);
        currentPaths := currentPaths + {path};
      }
      assert list[..|list|] == list;
    }

    method AdoptDevice(node: string, entry: Reported)
      requires registry.Valid()
      modifies this`devices, registry
      ensures registry.Valid() && fresh(registry.devices.Values - old(registry.devices.Values))
      ensures Current() == AdoptedWith(old(Current()), node, entry)
    {
      devices := devices[entry.path := entry.dev.(node := node)];
      registry.Register(entry.path);
    }

    method KeepOnly(node: string, currentPaths: set<Path>)
      modifies this`devices
      ensures devices == map p | p in old(devices) && (old(devices)[p].node != node || p in currentPaths)
                           :: old(devices)[p]
    {
      var todo := devices.Keys;
      while todo != {}
        invariant todo <= devices.Keys
        invariant forall p :: p in devices <==>
                    p in old(devices)
                    && (p in todo || old(devices)[p].node != node || p in currentPaths)
        invariant forall p :: p in devices ==> devices[p] == old(devices)[p]
        decreases todo
      {
        var path :| path in todo;
        todo := todo - {path};
        if devices[path].node == node && path !in currentPaths {
          devices := devices - {path};
        }
      }
    }

    /** Exactly the timed-out nodes other than the leader go, and with them exactly their devices. */
    method CleanupStaleNodes(now: int)
      modifies this
      ensures nodes == map n | n in old(nodes) && !TimedOut(old(nodes), id, nodeTimeout, now, n) :: old(nodes)[n]
      ensures devices == map p | p in old(devices) && !TimedOut(old(nodes), id, nodeTimeout, now, old(devices)[p].node)
                           :: old(devices)[p]
      ensures forall n :: n in nodes <==>
                n in old(nodes) && (n == id || now - old(nodes)[n].lastSeen <= nodeTimeout)
    {
      var stale := {};
      var todo := nodes.Keys;
      while todo != {}
        invariant todo <= nodes.Keys && nodes == old(nodes) && devices == old(devices)
        invariant stale == set n | n in nodes && n !in todo && TimedOut(nodes, id, nodeTimeout, now, n)
        decreases todo
      {
        var n :| n in todo;
        todo := todo - {n};
        if n != id && now - nodes[n].lastSeen > nodeTimeout {
          stale := stale + {n};
        }
      }
      nodes := nodes - stale;
      var paths := {};
      var left := devices.Keys;
      while left != {}
        invariant left <= devices.Keys && devices == old(devices)
        invariant paths == set p | p in devices && p !in left && devices[p].node in stale
        decreases left
      {
        var path :| path in left;
        left := left - {path};
        if devices[path].node in stale {
          paths := paths + {path};
        }
      }
      devices := devices - paths;
    }
  }
}
