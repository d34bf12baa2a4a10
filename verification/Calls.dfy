/**
 Every call of the interleaved model, run without interruption, against what it does in one go; and the result
 handler's turn, which releases the device of the job it settles.
 */
module Calls {
  import opened Wrappers
  import opened Locking
  import opened Cluster
  import opened Solo
  import opened Descent
  import opened Agreement
  import DeviceLock
  import Registry
  import Table = Leader

  function Stated(node: string, status: string): Table.Device { Table.Device(node, status, "", false, None) }

  /** A power-managed board stays in the table, asleep; any other device that is gone is dropped. */
  function WithoutDevice(devices: Table.Devices, path: Path, powerManaged: bool): Table.Devices {
    if powerManaged then Table.Stamped(devices, path, "sleeping") else devices - {path}
  }

  function StampedAll(devices: Table.Devices, paths: seq<Path>, status: string): Table.Devices
    decreases |paths|
  {
    if paths == [] then devices else StampedAll(Table.Stamped(devices, paths[0], status), paths[1..], status)
  }

  /** A heartbeat's list as the leader's table takes it. */
  function ReportedList(devices: seq<(Path, string)>): seq<Table.Reported> {
    seq(|devices|, i requires 0 <= i < |devices| => Table.Reported(devices[i].0, Stated("", devices[i].1)))
  }

  /** The first k devices of the list are put into the table and registered. */
  function AdoptedTo(v: Table.View, node: string, list: seq<Table.Reported>, k: nat): Table.View
    requires k <= |list|
  {
    if k == 0 then v else Table.AdoptedWith(AdoptedTo(v, node, list, k - 1), node, list[k - 1])
  }

  ghost function HeartbeatDone(v: Table.View, node: string, list: seq<Table.Reported>): Table.View {
    var a := AdoptedTo(v, node, list, |list|);
    Table.View(map p | p in a.devices && (a.devices[p].node != node || Table.Listed(list, p)) :: a.devices[p], a.locks)
  }

  /** What a call does in one go. */
  ghost function InOneGo(v: Table.View, op: Op): Table.View {
    match op
    case Reserve(p, owner, now) => Table.Handled(v, Table.Reserve(p, owner, now))
    case Release(p, owner) => Table.Handled(v, Table.Release(p, owner))
    case CleanupStale(cutoff) => Table.Handled(v, Table.CleanupStale(cutoff))
    case DeviceAdded(p, _) => Table.Added(v, p, Stated(SELF, "available"))
    case DeviceRemoved(p, powerManaged) => v.(devices := WithoutDevice(v.devices, p, powerManaged))
    case Heartbeat(node, devices) => HeartbeatDone(v, node, ReportedList(devices))
    case CleanupOrphans(_, active) => Table.Handled(v, Table.CleanupOrphans(active))
    case CleanupUnidentified(victims) => Struck(v, victims)
    case SetStatus(p, status) => v.(devices := Table.Stamped(v.devices, p, status))
    case SleepSweep(down) => v.(devices := StampedAll(v.devices, down, "sleeping"))
    case Cancel(job) => Table.Handled(v, Table.Release(job.path, job.id))
    case Dispatch(job) => v.(devices := Table.Stamped(v.devices, job.path, "busy"))
    case _ => v
  }

  lemma NoneAdopted(v: Table.View, node: string, list: seq<Table.Reported>)
    ensures Table.Adopted(v, v, node, list, 0)
  {
    assert list[..0] == [];
  }

  lemma AdoptedNext(v: Table.View, now: Table.View, node: string, list: seq<Table.Reported>, k: nat)
    requires k < |list| && Table.Adopted(v, now, node, list, k)
    ensures Table.Adopted(v, Table.AdoptedWith(now, node, list[k]), node, list, k + 1)
  {
    Table.AdoptedOneMore(v, now, node, list, k);
  }

  /** The heartbeat is the one the leader's table describes. */
  lemma {:induction false} AdoptedToIsAdopted(v: Table.View, node: string, list: seq<Table.Reported>, k: nat)
    requires k <= |list|
    ensures Table.Adopted(v, AdoptedTo(v, node, list, k), node, list, k)
  {
    if k == 0 {
      NoneAdopted(v, node, list);
    } else {
      AdoptedToIsAdopted(v, node, list, k - 1);
      AdoptedNext(v, AdoptedTo(v, node, list, k - 1), node, list, k - 1);
    }
  }

  lemma HeartbeatIsAggregated(v: Table.View, node: string, list: seq<Table.Reported>)
    ensures var after := HeartbeatDone(v, node, list);
            Table.Aggregated(v.devices, after.devices, node, list) && Table.RegisteredAlso(v.locks, after.locks, list)
  {
    AdoptedToIsAdopted(v, node, list, |list|);
    Table.AggregatedOnce(v, AdoptedTo(v, node, list, |list|), HeartbeatDone(v, node, list).devices, node, list);
  }

  // Calls that leave devices and locks alone.

  lemma QueueAlone(s: Shared, t: Thread, job: Job, rest: seq<Action>)
    requires t.script == JobUnderQueue(job) + rest && t.phase == Fresh
    ensures Becomes(s, t, s, t.(script := rest))
  {
    var section, last := Section(Writing, JobMutex(job.id), []), [Unlock(Queue)] + rest;
    var inner := t.(script := section + last, held := Holding(Queue, Writing, t.held));
    Enters(s, t, Writing, Queue, section, rest);
    ShortSectionAlone(s, inner, Writing, JobMutex(job.id), last);
    Chain(s, t, s, inner, s, inner.(script := last));
    GivesBack(s, inner.(script := last), Queue, rest);
    Chain(s, t, s, inner.(script := last), s, t.(script := rest));
  }

  lemma CompleteAlone(s: Shared, t: Thread, job: Job, rest: seq<Action>)
    requires t.script == Script(Complete(job)) + rest && t.phase == Fresh
    ensures Becomes(s, t, s, t.(script := rest))
  {
    var next := t.(script := Section(Writing, JobMutex(job.id), []) + rest);
    Regrouped(Section(Reading, Queue, []), Section(Writing, JobMutex(job.id), []), rest);
    ShortSectionAlone(s, t, Reading, Queue, next.script);
    ShortSectionAlone(s, next, Writing, JobMutex(job.id), rest);
    Chain(s, t, s, next, s, t.(script := rest));
  }

  lemma InspectAlone(s: Shared, t: Thread, path: Path, rest: seq<Action>)
    requires t.script == Script(Inspect(path)) + rest && t.phase == Fresh
    ensures Becomes(s, t, s, t.(script := rest))
  {
    var look := if path in s.registry then Section(Reading, Device(s.registry[path]), []) else [];
    var inner := t.(script := [Look(path)] + rest, held := Holding(Registry, Reading, t.held));
    var next := inner.(script := [Unlock(Registry)] + (look + rest));
    Regrouped([RLock(Registry)], [Look(path)], rest);
    TakesRLock(s, t, Registry, inner.script);
    Expands(s, inner, Look(path), rest);
    Regrouped([Unlock(Registry)], look, rest);
    Chain(s, t, s, inner, s, next);
    GivesBack(s, next, Registry, look + rest);
    Chain(s, t, s, next, s, t.(script := look + rest));
    if path in s.registry {
      ShortSectionAlone(s, t.(script := look + rest), Reading, Device(s.registry[path]), rest);
      Chain(s, t, s, t.(script := look + rest), s, t.(script := rest));
    } else {
      NothingBefore(rest);
    }
  }

  /** In whatever order the locks are listed. */
  lemma {:induction false} ListEnd(s: Shared, t: Thread, seen: set<Path>, rest: seq<Action>)
    requires t.script == [List(seen)] + ([Unlock(Registry)] + rest) && t.phase == Fresh && t.held.Holding?
    ensures Ends(s, t, t.(script := rest, held := t.held.below), ViewOf(s))
    decreases s.registry.Keys - seen, 1
  {
    var last, done := [Unlock(Registry)] + rest, t.(script := rest, held := t.held.below);
    if s.registry.Keys <= seen {
      assert Expand(s, List(seen), "") == [];
      Expands(s, t, List(seen), last);
      NothingBefore(last);
      GivesBack(s, t.(script := last), Registry, rest);
      Chain(s, t, s, t.(script := last), s, done);
      StraightToEnd(s, t, s, done);
    } else {
      forall pick | CanStep(s, t, pick)
        ensures Ends(Take(s, t, pick).0, Take(s, t, pick).1, done, ViewOf(s))
      {
        ListEndAfter(s, t, seen, pick, rest);
      }
      var pick := NotSeen(s.registry.Keys, seen);
      BeforeEnd(s, t, pick, done, ViewOf(s));
    }
  }

  lemma {:induction false} ListEndAfter(s: Shared, t: Thread, seen: set<Path>, pick: Path, rest: seq<Action>)
    requires t.script == [List(seen)] + ([Unlock(Registry)] + rest) && t.phase == Fresh && t.held.Holding?
    requires pick in s.registry.Keys - seen
    ensures Ends(Take(s, t, pick).0, Take(s, t, pick).1, t.(script := rest, held := t.held.below), ViewOf(s))
    decreases s.registry.Keys - seen, 0
  {
    var section, last := Section(Reading, Device(s.registry[pick]), []), [Unlock(Registry)] + rest;
    var next := t.(script := [List(seen + {pick})] + last);
    assert t.script[1..] == last && Take(s, t, pick) == (s, t.(script := (section + [List(seen + {pick})]) + last));
    Regrouped(section, [List(seen + {pick})], last);
    ShortSectionAlone(s, Take(s, t, pick).1, Reading, Device(s.registry[pick]), next.script);
    ListEnd(s, next, seen + {pick}, rest);
    OnTheWay(s, Take(s, t, pick).1, s, next, t.(script := rest, held := t.held.below), ViewOf(s));
  }

  lemma StatesEnds(s: Shared, t: Thread, rest: seq<Action>)
    requires t.script == Script(States) + rest && t.phase == Fresh
    ensures Ends(s, t, t.(script := rest), ViewOf(s))
  {
    var inner := t.(script := [List({})] + ([Unlock(Registry)] + rest), held := Holding(Registry, Reading, t.held));
    Enters(s, t, Reading, Registry, [List({})], rest);
    ListEnd(s, inner, {}, rest);
    OnTheWay(s, t, s, inner, t.(script := rest), ViewOf(s));
  }

  // Calls that stamp.

  lemma StatusAlone(s: Shared, t: Thread, path: Path, status: string, rest: seq<Action>) returns (s': Shared)
    requires t.script == Section(Writing, Leader, [Stamp(path, status)]) + rest && t.phase == Fresh
    ensures Becomes(s, t, s', t.(script := rest)) && s'.jobs == s.jobs
    ensures ViewOf(s') == ViewOf(s).(devices := Table.Stamped(DevicesOf(s), path, status))
  {
    s' := Effect(s, Stamp(path, status), "");
    StepSection(s, t, Leader, Stamp(path, status), rest);
    StampedDevices(s, path, status);
  }

  lemma {:induction false} StatusesAlone(s: Shared, t: Thread, paths: seq<Path>, status: string, rest: seq<Action>)
    returns (s': Shared)
    requires t.script == StampAll(paths, status) + rest && t.phase == Fresh
    ensures Becomes(s, t, s', t.(script := rest))
    ensures ViewOf(s') == ViewOf(s).(devices := StampedAll(DevicesOf(s), paths, status))
    decreases |paths|
  {
    if paths == [] {
      s' := s;
      NothingBefore(rest);
      NoStep(s, t);
    } else {
      var others := StampAll(paths[1..], status);
      var next := t.(script := others + rest);
      Regrouped(Section(Writing, Leader, [Stamp(paths[0], status)]), others, rest);
      var after := StatusAlone(s, t, paths[0], status, next.script);
      s' := StatusesAlone(after, next, paths[1..], status, rest);
      Chain(s, t, after, next, s', t.(script := rest));
    }
  }

  lemma SleepSweepAlone(s: Shared, t: Thread, down: seq<Path>, rest: seq<Action>) returns (s': Shared)
    requires t.script == Script(SleepSweep(down)) + rest && t.phase == Fresh
    ensures Becomes(s, t, s', t.(script := rest)) && ViewOf(s') == InOneGo(ViewOf(s), SleepSweep(down))
  {
    var next := t.(script := StampAll(down, "sleeping") + rest);
    Regrouped(Section(Writing, Sleeper, []), StampAll(down, "sleeping"), rest);
    ShortSectionAlone(s, t, Writing, Sleeper, next.script);
    s' := StatusesAlone(s, next, down, "sleeping", rest);
    Chain(s, t, s, next, s', t.(script := rest));
  }

  /** A single step that turns into nothing more. */
  lemma PlainStep(s: Shared, t: Thread, a: Action, rest: seq<Action>)
    requires t.script == [a] + rest && (a.Stamp? || a.Drop? || a.Put? || a.KeepOnly?)
    ensures Becomes(s, t, Effect(s, a, ""), t.(script := rest))
  {
    Expands(s, t, a, rest);
    NothingBefore(rest);
  }

  /** A section whose body is run from entering to leaving it. */
  lemma WholeSection(s: Shared, t: Thread, m: Mutex, body: seq<Action>, s': Shared, rest: seq<Action>)
    requires t.script == Section(Writing, m, body) + rest && t.phase == Fresh
    requires var last := [Unlock(m)] + rest;
             var inner := t.(script := body + last, held := Holding(m, Writing, t.held));
             Becomes(s, inner, s', inner.(script := last))
    ensures Becomes(s, t, s', t.(script := rest))
  {
    var last := [Unlock(m)] + rest;
    var inner := t.(script := body + last, held := Holding(m, Writing, t.held));
    Enters(s, t, Writing, m, body, rest);
    Chain(s, t, s, inner, s', inner.(script := last));
    GivesBack(s', inner.(script := last), m, rest);
    Chain(s, t, s', inner.(script := last), s', t.(script := rest));
  }

  function Removing(path: Path, powerManaged: bool): Action {
    if powerManaged then Stamp(path, "sleeping") else Drop(path)
  }

  lemma RemovedView(s: Shared, path: Path, powerManaged: bool)
    ensures var after := Effect(s, Removing(path, powerManaged), "");
            DevicesOf(after) == WithoutDevice(DevicesOf(s), path, powerManaged) && LocksOf(after) == LocksOf(s)
  {
    if powerManaged {
      StampedDevices(s, path, "sleeping");
    }
  }

  lemma RemovedInside(s: Shared, t: Thread, path: Path, powerManaged: bool, rest: seq<Action>) returns (s': Shared)
    requires t.phase == Fresh && t.script == ([Removing(path, powerManaged)] + Mirror(powerManaged)) + rest
    ensures Becomes(s, t, s', t.(script := rest))
    ensures DevicesOf(s') == WithoutDevice(DevicesOf(s), path, powerManaged) && LocksOf(s') == LocksOf(s)
  {
    var a, next := Removing(path, powerManaged), t.(script := Mirror(powerManaged) + rest);
    s' := Effect(s, a, "");
    RemovedView(s, path, powerManaged);
    assert Becomes(s, t, s', next) by {
      Regrouped([a], Mirror(powerManaged), rest);
      PlainStep(s, t, a, next.script);
    }
    MirrorAlone(s', next, powerManaged, rest);
    Chain(s, t, s', next, s', t.(script := rest));
  }

  lemma RemovedAlone(s: Shared, t: Thread, path: Path, powerManaged: bool, rest: seq<Action>) returns (s': Shared)
    requires t.script == RemovedScript(path, powerManaged) + rest && t.phase == Fresh
    ensures Becomes(s, t, s', t.(script := rest))
    ensures DevicesOf(s') == WithoutDevice(DevicesOf(s), path, powerManaged) && LocksOf(s') == LocksOf(s)
  {
    var body, last := [Removing(path, powerManaged)] + Mirror(powerManaged), [Unlock(Leader)] + rest;
    var inner := t.(script := body + last, held := Holding(Leader, Writing, t.held));
    s' := RemovedInside(s, inner, path, powerManaged, last);
    WholeSection(s, t, Leader, body, s', rest);
  }

  // Heartbeats.

  lemma PutDevices(s: Shared, path: Path, node: string, status: string)
    ensures var after := Effect(s, Put(path, node, status), "");
            LocksOf(after) == LocksOf(s) && (OwnLocks(s) ==> OwnLocks(after))
            && DevicesOf(after) == DevicesOf(s)[path := Stated(node, status)]
  {
  }

  lemma AdoptOneAlone(s: Shared, t: Thread, path: Path, node: string, status: string, rest: seq<Action>)
    returns (s': Shared)
    requires OwnLocks(s) && t.phase == Fresh
    requires t.script == [Put(path, node, status)] + (Section(Writing, Registry, [Register(path)]) + rest)
    ensures Becomes(s, t, s', t.(script := rest)) && OwnLocks(s')
    ensures ViewOf(s') == Table.AdoptedWith(ViewOf(s), node, Table.Reported(path, Stated("", status)))
  {
    var after := Effect(s, Put(path, node, status), "");
    var next := t.(script := Section(Writing, Registry, [Register(path)]) + rest);
    PlainStep(s, t, Put(path, node, status), next.script);
    PutDevices(s, path, node, status);
    StepSection(after, next, Registry, Register(path), rest);
    RegisteredLocks(after, path);
    EffectKeepsLocks(after, Register(path), "");
    s' := Effect(after, Register(path), "");
    Chain(s, t, after, next, s', t.(script := rest));
  }

  lemma {:induction false} AdoptAlone(v: Table.View, s: Shared, t: Thread, node: string, devices: seq<(Path, string)>,
                                      k: nat, rest: seq<Action>) returns (s': Shared)
    requires OwnLocks(s) && t.phase == Fresh && k <= |devices| && t.script == Adopt(node, devices[k..]) + rest
    requires ViewOf(s) == AdoptedTo(v, node, ReportedList(devices), k)
    ensures Becomes(s, t, s', t.(script := rest))
    ensures ViewOf(s') == AdoptedTo(v, node, ReportedList(devices), |devices|)
    decreases |devices| - k
  {
    if k == |devices| {
      s' := s;
      assert devices[k..] == [];
      NothingBefore(rest);
      NoStep(s, t);
    } else {
      var p, others := devices[k].0, Adopt(node, devices[k + 1..]);
      var section, next := Section(Writing, Registry, [Register(p)]), t.(script := others + rest);
      assert devices[k..][0] == devices[k] && devices[k..][1..] == devices[k + 1..];
      Regrouped([Put(p, node, devices[k].1)], section + others, rest);
      Regrouped(section, others, rest);
      var after := AdoptOneAlone(s, t, p, node, devices[k].1, next.script);
      s' := AdoptAlone(v, after, next, node, devices, k + 1, rest);
      Chain(s, t, after, next, s', t.(script := rest));
    }
  }

  lemma ListedPaths(devices: seq<(Path, string)>, p: Path)
    ensures p in (set d | d in devices :: d.0) <==> Table.Listed(ReportedList(devices), p)
  {
    if Table.Listed(ReportedList(devices), p) {
      var i :| 0 <= i < |ReportedList(devices)| && ReportedList(devices)[i].path == p;
      assert devices[i] in devices;
    }
    if d :| d in devices && d.0 == p {
      var i :| 0 <= i < |devices| && devices[i] == d;
      assert ReportedList(devices)[i].path == p;
    }
  }

  lemma KeepOnlyDevices(s: Shared, v: Table.View, node: string, devices: seq<(Path, string)>)
    requires ViewOf(s) == AdoptedTo(v, node, ReportedList(devices), |devices|)
    ensures var after := Effect(s, KeepOnly(node, set d | d in devices :: d.0), "");
            ViewOf(after) == HeartbeatDone(v, node, ReportedList(devices))
  {
    forall p {
      ListedPaths(devices, p);
    }
  }

  lemma HeartbeatInside(s: Shared, t: Thread, node: string, devices: seq<(Path, string)>, rest: seq<Action>)
    returns (s': Shared)
    requires OwnLocks(s) && t.phase == Fresh
    requires t.script == (Adopt(node, devices) + [KeepOnly(node, set d | d in devices :: d.0)]) + rest
    ensures Becomes(s, t, s', t.(script := rest))
    ensures ViewOf(s') == HeartbeatDone(ViewOf(s), node, ReportedList(devices))
  {
    var keep := KeepOnly(node, set d | d in devices :: d.0);
    var next := t.(script := [keep] + rest);
    Regrouped(Adopt(node, devices), [keep], rest);
    assert devices[0..] == devices;
    var adopted := AdoptAlone(ViewOf(s), s, t, node, devices, 0, next.script);
    PlainStep(adopted, next, keep, rest);
    KeepOnlyDevices(adopted, ViewOf(s), node, devices);
    s' := Effect(adopted, keep, "");
    Chain(s, t, adopted, next, s', t.(script := rest));
  }

  lemma HeartbeatAlone(s: Shared, t: Thread, node: string, devices: seq<(Path, string)>, rest: seq<Action>)
    returns (s': Shared)
    requires OwnLocks(s) && t.script == HeartbeatScript(node, devices) + rest && t.phase == Fresh
    ensures Becomes(s, t, s', t.(script := rest))
    ensures ViewOf(s') == HeartbeatDone(ViewOf(s), node, ReportedList(devices))
  {
    var body, last := Adopt(node, devices) + [KeepOnly(node, set d | d in devices :: d.0)], [Unlock(Leader)] + rest;
    s' := HeartbeatInside(s, t.(script := body + last, held := Holding(Leader, Writing, t.held)), node, devices, last);
    WholeSection(s, t, Leader, body, s', rest);
  }

  // Unidentified boards.

  /** The victims among the keys struck are gone, together with their locks. */
  ghost predicate Striking(before: Table.View, s: Shared, seen: set<Path>, victims: set<Path>) {
    && seen <= before.devices.Keys
    && DevicesOf(s) == before.devices - (seen * victims) && LocksOf(s) == before.locks - (seen * victims)
  }

  ghost function Struck(v: Table.View, victims: set<Path>): Table.View {
    Table.View(v.devices - victims, v.locks - (victims * v.devices.Keys))
  }

  lemma NoneStruck(s: Shared, victims: set<Path>)
    ensures Striking(ViewOf(s), s, {}, victims)
  {
    assert {} * victims == {} && DevicesOf(s) - {} == DevicesOf(s) && LocksOf(s) - {} == LocksOf(s);
  }

  lemma UnregisteredView(s: Shared, path: Path)
    ensures var after := Effect(s, Unregister(path), "");
            LocksOf(after) == LocksOf(s) - {path} && DevicesOf(after) == DevicesOf(s) && after.devices == s.devices
  {
  }

  /** One device of the table. */
  lemma StrikeAlone(before: Table.View, s: Shared, t: Thread, seen: set<Path>, victims: set<Path>, pick: Path,
                    rest: seq<Action>) returns (s': Shared)
    requires Striking(before, s, seen, victims) && pick in s.devices && pick !in seen
    requires t.script == [Unidentified(seen, victims)] + rest && t.phase == Fresh
    ensures Becomes(Take(s, t, pick).0, Take(s, t, pick).1,
                    s', t.(script := [Unidentified(seen + {pick}, victims)] + rest))
    ensures Striking(before, s', seen + {pick}, victims) && s'.devices.Keys <= s.devices.Keys
  {
    var a, more := Unidentified(seen, victims), [Unidentified(seen + {pick}, victims)];
    var after, next := Effect(s, a, pick), t.(script := Expand(s, a, pick) + rest);
    assert t.script[1..] == rest && Take(s, t, pick) == (after, next);
    assert pick in DevicesOf(s);
    if pick in victims {
      Regrouped(Section(Writing, Registry, [Unregister(pick)]), more, rest);
      StepSection(after, next, Registry, Unregister(pick), more + rest);
      UnregisteredView(after, pick);
      s' := Effect(after, Unregister(pick), "");
      assert DevicesOf(after) == DevicesOf(s) - {pick} && LocksOf(after) == LocksOf(s);
      assert (seen + {pick}) * victims == seen * victims + {pick};
    } else {
      s' := s;
      NothingBefore(more);
      NoStep(s, next);
      assert (seen + {pick}) * victims == seen * victims;
    }
  }

  lemma StruckAll(before: Table.View, s: Shared, seen: set<Path>, victims: set<Path>)
    requires Striking(before, s, seen, victims) && s.devices.Keys <= seen
    ensures ViewOf(s) == Struck(before, victims)
  {
    forall p | p in before.devices
      ensures p in seen
    {
      assert p in DevicesOf(s) ==> p in s.devices;
    }
    assert seen == before.devices.Keys;
  }

  lemma {:induction false} StrikingEnd(before: Table.View, s: Shared, t: Thread, seen: set<Path>, victims: set<Path>,
                                       rest: seq<Action>)
    requires Striking(before, s, seen, victims)
    requires t.script == [Unidentified(seen, victims)] + ([Unlock(Leader)] + rest)
    requires t.phase == Fresh && t.held.Holding?
    ensures Ends(s, t, t.(script := rest, held := t.held.below),
                 Struck(before, victims))
    decreases s.devices.Keys - seen, 1
  {
    var last, done := [Unlock(Leader)] + rest, t.(script := rest, held := t.held.below);
    var v := Struck(before, victims);
    if s.devices.Keys <= seen {
      NoneLeft(s, t, seen, victims, last);
      GivesBack(s, t.(script := last), Leader, rest);
      Chain(s, t, s, t.(script := last), s, done);
      StruckAll(before, s, seen, victims);
      StraightToEnd(s, t, s, done);
    } else {
      forall pick | CanStep(s, t, pick)
        ensures Ends(Take(s, t, pick).0, Take(s, t, pick).1, done, v)
      {
        StrikingEndAfter(before, s, t, seen, victims, pick, rest);
      }
      var pick := NotSeen(s.devices.Keys, seen);
      BeforeEnd(s, t, pick, done, v);
    }
  }

  lemma NoneLeft(s: Shared, t: Thread, seen: set<Path>, victims: set<Path>, rest: seq<Action>)
    requires t.script == [Unidentified(seen, victims)] + rest && s.devices.Keys <= seen
    ensures Becomes(s, t, s, t.(script := rest))
  {
    var a := Unidentified(seen, victims);
    assert Expand(s, a, "") == [] && Effect(s, a, "") == s by {
      assert "" in s.devices ==> "" in seen;
    }
    Expands(s, t, a, rest);
    NothingBefore(rest);
  }

  lemma {:induction false} StrikingEndAfter(before: Table.View, s: Shared, t: Thread, seen: set<Path>,
                                            victims: set<Path>, pick: Path, rest: seq<Action>)
    requires Striking(before, s, seen, victims) && pick in s.devices.Keys - seen
    requires t.script == [Unidentified(seen, victims)] + ([Unlock(Leader)] + rest)
    requires t.phase == Fresh && t.held.Holding?
    ensures Ends(Take(s, t, pick).0, Take(s, t, pick).1, t.(script := rest, held := t.held.below),
                 Struck(before, victims))
    decreases s.devices.Keys - seen, 0
  {
    var last, done := [Unlock(Leader)] + rest, t.(script := rest, held := t.held.below);
    var next := t.(script := [Unidentified(seen + {pick}, victims)] + last);
    var after := StrikeAlone(before, s, t, seen, victims, pick, last);
    StrikingEnd(before, after, next, seen + {pick}, victims, rest);
    OnTheWay(Take(s, t, pick).0, Take(s, t, pick).1, after, next, done,
             Struck(before, victims));
  }

  lemma UnidentifiedEnds(s: Shared, t: Thread, victims: set<Path>, rest: seq<Action>)
    requires t.script == Script(CleanupUnidentified(victims)) + rest && t.phase == Fresh
    ensures Ends(s, t, t.(script := rest), Struck(ViewOf(s), victims))
  {
    var last := [Unlock(Leader)] + rest;
    var inner := t.(script := [Unidentified({}, victims)] + last, held := Holding(Leader, Writing, t.held));
    Enters(s, t, Writing, Leader, [Unidentified({}, victims)], rest);
    NoneStruck(s, victims);
    StrikingEnd(ViewOf(s), s, inner, {}, victims, rest);
    OnTheWay(s, t, s, inner, t.(script := rest), Struck(ViewOf(s), victims));
  }

  // Jobs.

  lemma ReleaseCalled(s: Shared, t: Thread, path: Path, owner: string, rest: seq<Action>) returns (s': Shared)
    requires OwnLocks(s) && t.script == [Call(Release(path, owner))] + rest && t.phase == Fresh
    ensures Becomes(s, t, s', t.(script := rest))
    ensures ViewOf(s') == Table.Handled(ViewOf(s), Table.Release(path, owner))
  {
    var next := t.(script := Script(Release(path, owner)) + rest);
    Expands(s, t, Call(Release(path, owner)), rest);
    s' := CallAlone(s, next, path, DeviceLock.Call.Release(owner), rest);
    Chain(s, t, s, next, s', t.(script := rest));
  }

  lemma CancelAlone(s: Shared, t: Thread, job: Job, rest: seq<Action>) returns (s': Shared)
    requires OwnLocks(s) && t.script == CancelScript(job) + rest && t.phase == Fresh
    ensures Becomes(s, t, s', t.(script := rest))
    ensures ViewOf(s') == Table.Handled(ViewOf(s), Table.Release(job.path, job.id))
  {
    var release := [Call(Release(job.path, job.id))];
    var read, queue := Section(Reading, JobMutex(job.id), []), JobUnderQueue(job);
    var t1, t2, t3 := t.(script := read + (queue + (release + rest))), t.(script := queue + (release + rest)),
                      t.(script := release + rest);
    Regrouped(Section(Reading, Queue, []), read + (queue + release), rest);
    Regrouped(read, queue + release, rest);
    Regrouped(queue, release, rest);
    ShortSectionAlone(s, t, Reading, Queue, t1.script);
    ShortSectionAlone(s, t1, Reading, JobMutex(job.id), t2.script);
    Chain(s, t, s, t1, s, t2);
    QueueAlone(s, t2, job, t3.script);
    Chain(s, t, s, t2, s, t3);
    s' := ReleaseCalled(s, t3, job.path, job.id, rest);
    Chain(s, t, s, t3, s', t.(script := rest));
  }

  /** The job goes into the channel when there is room, after the device is stamped busy. */
  lemma DispatchEnds(s: Shared, t: Thread, job: Job, rest: seq<Action>)
    requires t.script == DispatchScript(job) + rest && t.phase == Fresh && |s.jobs| < CAPACITY
    ensures Ends(s, t, t.(script := rest), InOneGo(ViewOf(s), Dispatch(job)))
  {
    var queue, look := JobUnderQueue(job), Section(Reading, Leader, []);
    var stamp, submit := Section(Writing, Leader, [Stamp(job.path, "busy")]), [Submit(job)];
    var t1, t2, t3 := t.(script := look + (stamp + (submit + rest))), t.(script := stamp + (submit + rest)),
                      t.(script := submit + rest);
    Regrouped(queue, look + (stamp + submit), rest);
    Regrouped(look, stamp + submit, rest);
    Regrouped(stamp, submit, rest);
    QueueAlone(s, t, job, t1.script);
    ShortSectionAlone(s, t1, Reading, Leader, t2.script);
    Chain(s, t, s, t1, s, t2);
    var stamped := StatusAlone(s, t2, job.path, "busy", t3.script);
    Chain(s, t, s, t2, stamped, t3);
    SubmitEnds(stamped, t3, job, rest);
    OnTheWay(s, t, stamped, t3, t.(script := rest), ViewOf(stamped));
  }

  lemma SubmitEnds(s: Shared, t: Thread, job: Job, rest: seq<Action>)
    requires t.script == [Submit(job)] + rest && t.phase == Fresh && |s.jobs| < CAPACITY
    ensures Ends(s, t, t.(script := rest), ViewOf(s))
  {
    var done, after := t.(script := rest), Effect(s, Submit(job), "");
    assert t.script[1..] == rest && ViewOf(after) == ViewOf(s);
    NothingBefore(rest);
    AtEnd(after, done);
    forall pick
      ensures Take(s, t, pick) == (after, done)
    {
    }
    BeforeEnd(s, t, "", done, ViewOf(s));
  }

  // All calls.

  lemma OpEnds(s: Shared, t: Thread, op: Op, rest: seq<Action>)
    requires OwnLocks(s) && t.script == Script(op) + rest && t.phase == Fresh
    requires op.Dispatch? ==> |s.jobs| < CAPACITY
    ensures Ends(s, t, t.(script := rest), InOneGo(ViewOf(s), op))
  {
    if op.CleanupStale? {
      CleanupStaleEnds(s, t, op.cutoff, rest);
    } else if op.CleanupOrphans? {
      CleanupOrphansEnds(s, t, op.jobs, op.active, rest);
    } else if op.CleanupUnidentified? {
      UnidentifiedEnds(s, t, op.victims, rest);
    } else if op.States? {
      StatesEnds(s, t, rest);
    } else if op.Dispatch? {
      DispatchEnds(s, t, op.job, rest);
    } else {
      var s' := OpAlone(s, t, op, rest);
      StraightToEnd(s, t, s', t.(script := rest));
    }
  }

  predicate Straight(op: Op) {
    !op.CleanupStale? && !op.CleanupOrphans? && !op.CleanupUnidentified? && !op.States? && !op.Dispatch?
  }

  lemma OpAlone(s: Shared, t: Thread, op: Op, rest: seq<Action>) returns (s': Shared)
    requires OwnLocks(s) && t.script == Script(op) + rest && t.phase == Fresh && Straight(op)
    ensures Becomes(s, t, s', t.(script := rest)) && ViewOf(s') == InOneGo(ViewOf(s), op)
  {
    if op.Reserve? || op.Release? || op.DeviceAdded? || op.DeviceRemoved? || op.Heartbeat? {
      s' := RegistryOpAlone(s, t, op, rest);
    } else {
      s' := s;
      match op
      case SetStatus(p, status) => s' := StatusAlone(s, t, p, status, rest);
      case SleepSweep(down) => s' := SleepSweepAlone(s, t, down, rest);
      case Cancel(job) => s' := CancelAlone(s, t, job, rest);
      case Inspect(p) => InspectAlone(s, t, p, rest);
      case SetHooks => ShortSectionAlone(s, t, Writing, Registry, rest);
      case Enqueue(job) => ShortSectionAlone(s, t, Writing, Queue, rest);
      case Complete(job) => CompleteAlone(s, t, job, rest);
    }
  }

  lemma RegistryOpAlone(s: Shared, t: Thread, op: Op, rest: seq<Action>) returns (s': Shared)
    requires OwnLocks(s) && t.script == Script(op) + rest && t.phase == Fresh
    requires op.Reserve? || op.Release? || op.DeviceAdded? || op.DeviceRemoved? || op.Heartbeat?
    ensures Becomes(s, t, s', t.(script := rest)) && ViewOf(s') == InOneGo(ViewOf(s), op)
  {
    match op
    case Reserve(p, owner, now) => s' := CallAlone(s, t, p, DeviceLock.Call.Reserve(owner, now), rest);
    case Release(p, owner) => s' := CallAlone(s, t, p, DeviceLock.Call.Release(owner), rest);
    case DeviceAdded(p, powerManaged) => s' := AddedAlone(s, t, p, powerManaged, rest);
    case DeviceRemoved(p, powerManaged) => s' := RemovedAlone(s, t, p, powerManaged, rest);
    case Heartbeat(node, devices) => s' := HeartbeatAlone(s, t, node, devices, rest);
  }

  // The cluster around the thread.

  /** Only thread i takes steps, as long as it has something to do. */
  ghost predicate Undisturbed(states: seq<Cluster>, i: nat, picks: seq<Path>) {
    && |states| == |picks| + 1 && (forall k :: 0 <= k < |states| ==> i < |states[k].threads|)
    && forall k :: 0 <= k < |picks| ==>
         && states[k].threads[i].script != []
         && Enabled(states[k], i, picks[k]) && states[k + 1] == Next(states[k], i, picks[k])
  }

  lemma {:induction false} UndisturbedSteps(states: seq<Cluster>, i: nat, picks: seq<Path>)
    requires Undisturbed(states, i, picks)
    ensures var s, s' := states[0], states[|picks|];
            && Steps(s.shared, s.threads[i], picks) == Some((s'.shared, s'.threads[i]))
            && s'.threads == s.threads[i := s'.threads[i]]
    decreases |picks|
  {
    if picks != [] {
      assert states[1] == Next(states[0], i, picks[0]);
      UndisturbedSteps(states[1..], i, picks[1..]);
    }
  }

  /** No other thread holds a mutex or is about to. */
  ghost predicate Alone(s: Cluster, i: nat) {
    forall j :: 0 <= j < |s.threads| && j != i ==> s.threads[j].held == Free && s.threads[j].phase != Announced
  }

  lemma {:induction false} AloneRuns(s: Cluster, i: nat, picks: seq<Path>) returns (states: seq<Cluster>)
    requires i < |s.threads| && Alone(s, i) && Steps(s.shared, s.threads[i], picks).Some?
    ensures Undisturbed(states, i, picks) && states[0] == s
    decreases |picks|
  {
    if picks == [] {
      states := [s];
    } else {
      assert Enabled(s, i, picks[0]);
      var later := AloneRuns(Next(s, i, picks[0]), i, picks[1..]);
      states := [s] + later;
    }
  }

  /**
   Every run in which no other thread interferes with a call, and which ends with the call done, leaves the devices
   and locks as the one-call-at-a-time model does, in whatever order its map iterations go.
   */
  lemma CallsAgree(states: seq<Cluster>, i: nat, picks: seq<Path>, op: Op, rest: seq<Action>)
    requires Undisturbed(states, i, picks) && OwnLocks(states[0].shared)
    requires op.Dispatch? ==> |states[0].shared.jobs| < CAPACITY
    requires states[0].threads[i].script == [Call(op)] + rest && states[0].threads[i].phase == Fresh
    requires states[|picks|].threads[i] == states[0].threads[i].(script := rest)
    ensures ViewOf(states[|picks|].shared) == InOneGo(ViewOf(states[0].shared), op)
    ensures states[|picks|].threads == states[0].threads[i := states[0].threads[i].(script := rest)]
  {
    CallEnds(states[0].shared, states[0].threads[i], op, rest);
    UndisturbedSteps(states, i, picks);
  }

  /** There is such a run whenever no other thread holds a mutex. */
  lemma CallsEnd(s: Cluster, i: nat, op: Op, rest: seq<Action>) returns (states: seq<Cluster>, picks: seq<Path>)
    requires i < |s.threads| && Alone(s, i) && OwnLocks(s.shared) && (op.Dispatch? ==> |s.shared.jobs| < CAPACITY)
    requires s.threads[i].script == [Call(op)] + rest && s.threads[i].phase == Fresh
    ensures Undisturbed(states, i, picks) && states[0] == s
    ensures states[|picks|].threads == s.threads[i := s.threads[i].(script := rest)]
  {
    var t := s.threads[i];
    CallEnds(s.shared, t, op, rest);
    picks :| Steps(s.shared, t, picks).Some? && Steps(s.shared, t, picks).value.1 == t.(script := rest);
    states := AloneRuns(s, i, picks);
    UndisturbedSteps(states, i, picks);
  }

  lemma CallEnds(s: Shared, t: Thread, op: Op, rest: seq<Action>)
    requires OwnLocks(s) && t.script == [Call(op)] + rest && t.phase == Fresh
    requires op.Dispatch? ==> |s.jobs| < CAPACITY
    ensures Ends(s, t, t.(script := rest), InOneGo(ViewOf(s), op))
  {
    var next := t.(script := Script(op) + rest);
    Expands(s, t, Call(op), rest);
    OpEnds(s, next, op, rest);
    OnTheWay(s, t, s, next, t.(script := rest), InOneGo(ViewOf(s), op));
  }

  // The result handler.

  /** The handler's turn, from the moment it has taken the job's result. */
  lemma SettleEnds(s: Shared, t: Thread, job: Job)
    requires OwnLocks(s) && t.script == Settle(job) && t.phase == Fresh
    ensures Ends(s, t, t.(script := []), Table.Handled(ViewOf(s), Table.Release(job.path, job.id)))
  {
    var complete, section := [Call(Complete(job))], Section(Writing, Sleeper, []);
    var t1, t2 := t.(script := complete + (section + section)), t.(script := section + section);
    var t3 := t.(script := section);
    var s' := ReleaseCalled(s, t, job.path, job.id, t1.script);
    CompleteCalled(s', t1, job, t2.script);
    Chain(s, t, s', t1, s', t2);
    ShortSectionAlone(s', t2, Writing, Sleeper, section);
    Chain(s, t, s', t2, s', t3);
    assert section + [] == section;
    ShortSectionAlone(s', t3, Writing, Sleeper, []);
    Chain(s, t, s', t3, s', t.(script := []));
    StraightToEnd(s, t, s', t.(script := []));
  }

  lemma CompleteCalled(s: Shared, t: Thread, job: Job, rest: seq<Action>)
    requires t.script == [Call(Complete(job))] + rest && t.phase == Fresh
    ensures Becomes(s, t, s, t.(script := rest))
  {
    var next := t.(script := Script(Complete(job)) + rest);
    Expands(s, t, Call(Complete(job)), rest);
    CompleteAlone(s, next, job, rest);
    Chain(s, t, s, next, s, t.(script := rest));
  }

  /**
   A turn of the result handler that nobody interferes with, from one empty script to the next, does to devices and
   locks what a release in the job's name does, and settles the job.
   */
  lemma HandlerReleases(before: Cluster, states: seq<Cluster>, i: nat, picks: seq<Path>)
    requires i < |before.threads| && before.threads[i].role == Handler && before.threads[i].phase == Fresh
    requires before.threads[i].script == [] && before.shared.results != [] && OwnLocks(before.shared)
    requires Undisturbed(states, i, picks) && states[0] == Next(before, i, "")
    requires states[|picks|].threads[i] == before.threads[i]
    ensures var job := before.shared.results[0];
            && states[0].shared.settled == before.shared.settled + [job]
            && ViewOf(states[|picks|].shared) == Table.Handled(ViewOf(before.shared), Table.Release(job.path, job.id))
  {
    var s, t := states[0].shared, states[0].threads[i];
    assert ViewOf(s) == ViewOf(before.shared) && OwnLocks(s);
    SettleEnds(s, t, before.shared.results[0]);
    UndisturbedSteps(states, i, picks);
    assert t.(script := []) == before.threads[i];
  }
}
