/** The registry of device locks (`DeviceRegistry` of internal/cluster/device_lock.go), one call at a time. */
module Registry {
  import D = DeviceLock

  type Path = string

  type Locks = map<Path, D.Lock>

  function Called(locks: Locks, path: Path, call: D.Call): Locks {
    if path in locks then locks[path := D.Apply(locks[path], call).0] else locks
  }

  predicate Succeeds(locks: Locks, path: Path, call: D.Call) {
    path in locks && D.Apply(locks[path], call).1
  }

  /** Every lock whose reservation is older than the cutoff is freed. */
  function Expired(locks: Locks, cutoff: int): Locks {
    map p | p in locks :: D.Apply(locks[p], D.Call.Expire(cutoff)).0
  }

  predicate Stale(locks: Locks, path: Path, cutoff: int) {
    Succeeds(locks, path, D.Call.Expire(cutoff))
  }

  /** The freed reservations, each reported once: the stale ones among the paths already visited. */
  ghost predicate Reports(freed: seq<(Path, string)>, locks: Locks, todo: set<Path>, cutoff: int) {
    && (forall i, j :: 0 <= i < j < |freed| ==> freed[i].0 != freed[j].0)
    && (forall f :: f in freed <==> f.0 !in todo && Stale(locks, f.0, cutoff) && f.1 == locks[f.0].owner)
  }

  /** The locks freed except at the paths still to do. */
  ghost predicate ExpiredBut(before: Locks, now: Locks, todo: set<Path>, cutoff: int) {
    && now.Keys == before.Keys
    && forall p :: p in now ==> now[p] == if p in todo then before[p] else D.Apply(before[p], D.Call.Expire(cutoff)).0
  }

  /** In fields of the locks: exactly the overdue reservations are freed, each reported once with its owner. */
  ghost predicate OverdueFreed(before: Locks, now: Locks, freed: seq<(Path, string)>, cutoff: int) {
    && now.Keys == before.Keys
    && (forall p :: p in now ==>
          now[p] == if D.Overdue(before[p], cutoff) then D.Lock(D.Available, "", before[p].since) else before[p])
    && (forall i, j :: 0 <= i < j < |freed| ==> freed[i].0 != freed[j].0)
    && (forall f :: f in freed <==> f.0 in before && D.Overdue(before[f.0], cutoff) && f.1 == before[f.0].owner)
  }

  lemma ExpiryIsOverdue(l: D.Lock, cutoff: int)
    ensures D.Apply(l, D.Call.Expire(cutoff))
         == if D.Overdue(l, cutoff) then (D.Lock(D.Available, "", l.since), true) else (l, false)
  {
  }

  lemma ExpiredOneMore(before: Locks, now: Locks, todo: set<Path>, path: Path, cutoff: int)
    requires ExpiredBut(before, now, todo, cutoff) && path in todo && path in now
    ensures ExpiredBut(before, Called(now, path, D.Call.Expire(cutoff)), todo - {path}, cutoff)
  {
  }

  lemma ExpiredDone(before: Locks, now: Locks, cutoff: int)
    requires ExpiredBut(before, now, {}, cutoff)
    ensures now == Expired(before, cutoff)
  {
  }

  lemma SweepStarts(locks: Locks, cutoff: int)
    ensures ExpiredBut(locks, locks, locks.Keys, cutoff) && Reports([], locks, locks.Keys, cutoff)
  {
  }

  lemma ReportsMore(freed: seq<(Path, string)>, locks: Locks, todo: set<Path>, path: Path, cutoff: int)
    requires Reports(freed, locks, todo, cutoff) && path in todo && path in locks
    ensures Reports(if Stale(locks, path, cutoff) then freed + [(path, locks[path].owner)] else freed,
                    locks, todo - {path}, cutoff)
  {
    if Stale(locks, path, cutoff) {
      var more := freed + [(path, locks[path].owner)];
      forall i, j | 0 <= i < j < |more|
        ensures more[i].0 != more[j].0
      {
        assert more[i] in freed;
      }
    }
  }

  class Registry {
    var devices: map<Path, D.Device>

    constructor ()
      ensures Valid() && Contents() == map[]
    {
      devices := map[];
    }

    ghost predicate Valid()
      reads this
    {
      forall p, q :: p in devices && q in devices && p != q ==> devices[p] != devices[q]
    }

    function Contents(): Locks
      reads this, devices.Values
    {
      map p | p in devices :: devices[p].Value()
    }

    /** Registering a known path changes nothing, so it leaves a reservation alone. */
    method Register(path: Path)
      requires Valid()
      modifies this
      ensures Valid() && fresh(devices.Values - old(devices.Values))
      ensures forall p :: p in old(devices) ==> p in devices && devices[p] == old(devices[p])
      ensures Contents() == if path in old(Contents()) then old(Contents()) else old(Contents())[path := D.FREE]
    {
      if path !in devices {
        var lock := new D.Device();
        devices := devices[path := lock];
      }
    }

    method Unregister(path: Path)
      requires Valid()
      modifies this
      ensures Valid() && devices == old(devices) - {path}
      ensures Contents() == old(Contents()) - {path}
    {
      devices := devices - {path};
    }

    method Reserve(path: Path, owner: string, now: int) returns (ok: bool)
      requires Valid()
      modifies devices.Values
      ensures ok == Succeeds(old(Contents()), path, D.Call.Reserve(owner, now))
      ensures Contents() == Called(old(Contents()), path, D.Call.Reserve(owner, now))
    {
      if path !in devices {
        return false;
      }
      ok := devices[path].Reserve(owner, now);
    }

    method Release(path: Path, owner: string) returns (ok: bool)
      requires Valid()
      modifies devices.Values
      ensures ok == Succeeds(old(Contents()), path, D.Call.Release(owner))
      ensures Contents() == Called(old(Contents()), path, D.Call.Release(owner))
    {
      if path !in devices {
        return false;
      }
      ok := devices[path].Release(owner);
    }

    method ForceRelease(path: Path) returns (previous: string)
      requires Valid()
      modifies devices.Values
      ensures previous == if path in old(Contents()) then old(Contents())[path].owner else ""
      ensures Contents() == Called(old(Contents()), path, D.Force)
    {
      if path !in devices {
        return "";
      }
      previous := devices[path].ForceRelease();
    }

    method AvailableDevices() returns (available: set<Path>)
      ensures available == set p | p in Contents() && Contents()[p].state == D.Available
    {
      available := {};
      var todo := devices.Keys;
      while todo != {}
        invariant todo <= devices.Keys
        invariant available == set p | p in devices && p !in todo && devices[p].state == D.Available
        decreases todo
      {
        var path :| path in todo;
        todo := todo - {path};
        if devices[path].state == D.Available {
          available := available + {path};
        }
      }
    }

    /** Frees every stale reservation and reports each freed path once, with the owner that lost it. */
    method CleanupStaleReservations(cutoff: int) returns (freed: seq<(Path, string)>)
      requires Valid()
      modifies devices.Values
      ensures Contents() == Expired(old(Contents()), cutoff)
      ensures Reports(freed, old(Contents()), {}, cutoff)
      ensures OverdueFreed(old(Contents()), Contents(), freed, cutoff)
    {
      freed := [];
      var todo := devices.Keys;
      ghost var before := Contents();
      SweepStarts(before, cutoff);
      while todo != {}
        invariant todo <= devices.Keys
        invariant ExpiredBut(before, Contents(), todo, cutoff)
        invariant Reports(freed, before, todo, cutoff)
        decreases todo
      {
        var path :| path in todo;
        ReportsMore(freed, before, todo, path, cutoff);
        ExpiredOneMore(before, Contents(), todo, path, cutoff);
        todo := todo - {path};
        var owner, ok := Expire(path, cutoff);
        if ok {
          freed := freed + [(path, owner)];
        }
      }
      ExpiredDone(before, Contents(), cutoff);
      forall p | p in before {
        ExpiryIsOverdue(before[p], cutoff);
      }
    }

    method Expire(path: Path, cutoff: int) returns (owner: string, ok: bool)
      requires Valid() && path in devices
      modifies devices.Values
      ensures owner == old(Contents())[path].owner && ok == Stale(old(Contents()), path, cutoff)
      ensures Contents() == Called(old(Contents()), path, D.Call.Expire(cutoff))
    {
      owner := devices[path].owner;
      ok := devices[path].Expire(cutoff);
    }
  }
}
