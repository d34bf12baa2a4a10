/**
 The small steps of a call, taken without interruption, do what the call does in one go: the interleaved model
 and the one-call-at-a-time model of the leader agree.
 */
module Agreement {
  import opened Wrappers
  import opened Locking
  import opened Cluster
  import opened Permissions
  import opened Solo
  import opened Descent
  import DeviceLock
  import Registry
  import Table = Leader

  // The two models.

  function DevicesOf(s: Shared): Table.Devices {
    map p | p in s.devices :: Table.Device(s.devices[p].node, s.devices[p].status, "", false, None)
  }

  function LocksOf(s: Shared): Registry.Locks {
    map p | p in s.registry :: LockAt(s.locks, s.registry[p])
  }

  /** The interleaved model's data as the other model sees them. */
  function ViewOf(s: Shared): Table.View {
    Table.View(DevicesOf(s), LocksOf(s))
  }

  // Lock objects.

  /** No two paths share a lock object, and every lock object used so far has been made. */
  ghost predicate OwnLocks(s: Shared) {
    && (forall p, q :: p in s.registry && q in s.registry && p != q ==> s.registry[p] != s.registry[q])
    && (forall p :: p in s.registry ==> s.registry[p] < s.nextLock)
    && (forall id :: id in s.locks ==> id < s.nextLock)
  }

  /** No thread is about to update a lock that has not been made. */
  ghost predicate UpdatesMade(s: Cluster) {
    forall i :: 0 <= i < |s.threads| ==>
      AllPermitted(Rules(s.threads[i].role, false, Some(s.shared.nextLock)), s.threads[i].script)
  }

  lemma EffectKeepsLocks(s: Shared, a: Action, pick: Path)
    requires OwnLocks(s)
    ensures OwnLocks(Effect(s, a, pick)) && s.nextLock <= Effect(s, a, pick).nextLock
  {
  }

  lemma WriteKeepsLocks(s: Shared, a: Action, read: DeviceLock.Lock)
    requires OwnLocks(s) && IsUpdate(a) && Target(a) < s.nextLock
    ensures OwnLocks(Written(s, a, read)) && s.nextLock == Written(s, a, read).nextLock
  {
  }

  lemma TakeKeepsLocks(s: Shared, t: Thread, pick: Path)
    requires OwnLocks(s) && AllPermitted(Rules(t.role, false, Some(s.nextLock)), t.script)
    ensures OwnLocks(Take(s, t, pick).0) && s.nextLock <= Take(s, t, pick).0.nextLock
    ensures AllPermitted(Rules(t.role, false, Some(s.nextLock)), Take(s, t, pick).1.script)
    ensures Take(s, t, pick).1.role == t.role
  {
    TakePermitted(Rules(t.role, false, Some(s.nextLock)), s, t, pick);
    if t.script != [] {
      var a := t.script[0];
      assert a in t.script;
      if !IsUpdate(a) {
        EffectKeepsLocks(s, a, pick);
      } else if t.phase.Loaded? {
        WriteKeepsLocks(s, a, t.phase.lock);
      }
    }
  }

  lemma MoreMade(role: Role, low: nat, high: nat, script: seq<Action>)
    requires low <= high && AllPermitted(Rules(role, false, Some(low)), script)
    ensures AllPermitted(Rules(role, false, Some(high)), script)
  {
  }

  lemma StepKeepsLocks(s: Cluster, i: nat, pick: Path)
    requires i < |s.threads| && OwnLocks(s.shared) && UpdatesMade(s)
    ensures OwnLocks(Next(s, i, pick).shared) && UpdatesMade(Next(s, i, pick))
  {
    var after := Next(s, i, pick);
    TakeKeepsLocks(s.shared, s.threads[i], pick);
    forall j | 0 <= j < |s.threads|
      ensures AllPermitted(Rules(after.threads[j].role, false, Some(after.shared.nextLock)), after.threads[j].script)
    {
      MoreMade(after.threads[j].role, s.shared.nextLock, after.shared.nextLock, after.threads[j].script);
    }
  }

  lemma CallsMade(s: Cluster)
    requires Initial(s)
    ensures UpdatesMade(s)
  {
    forall i | 0 <= i < |s.threads|
      ensures AllPermitted(Rules(s.threads[i].role, false, Some(s.shared.nextLock)), s.threads[i].script)
    {
      assert forall a :: a in s.threads[i].script ==> a.Call?;
    }
  }

  /** In every reachable state no two paths share a lock object, and no thread touches one that is not made yet. */
  lemma {:induction false} RunOwnsLocks(states: seq<Cluster>, k: nat)
    requires Run(states) && k < |states|
    ensures OwnLocks(states[k].shared) && UpdatesMade(states[k])
  {
    if k == 0 {
      CallsMade(states[0]);
    } else {
      RunOwnsLocks(states, k - 1);
      assert Follows(states[k - 1], states[k]);
      var i: nat, pick: Path :| Enabled(states[k - 1], i, pick) && states[k] == Next(states[k - 1], i, pick);
      StepKeepsLocks(states[k - 1], i, pick);
    }
  }

  // Updates and stamps in both models.

  lemma WrittenLocks(s: Shared, path: Path, a: Action)
    requires OwnLocks(s) && path in s.registry && IsUpdate(a) && Target(a) == s.registry[path]
    ensures var after := Written(s, a, LockAt(s.locks, Target(a)));
            LocksOf(after) == Registry.Called(LocksOf(s), path, CallOf(a)) && DevicesOf(after) == DevicesOf(s)
            && OwnLocks(after) && after.registry == s.registry && after.devices == s.devices
  {
  }

  lemma AppliedLocks(s: Shared, path: Path, call: DeviceLock.Call)
    requires OwnLocks(s)
    ensures var after := Applied(s, path, call);
            LocksOf(after) == Registry.Called(LocksOf(s), path, call) && DevicesOf(after) == DevicesOf(s)
            && OwnLocks(after) && after.registry == s.registry && after.devices == s.devices
  {
    if path in s.registry {
      WrittenLocks(s, path, Update(s.registry[path], path, call));
    }
  }

  lemma StampedDevices(s: Shared, path: Path, status: string)
    ensures var after := Effect(s, Stamp(path, status), "");
            DevicesOf(after) == Table.Stamped(DevicesOf(s), path, status) && LocksOf(after) == LocksOf(s)
  {
  }

  // All ways to the end.

  /** Some way leads to `done`, and every way there ends in data that look like this. */
  ghost predicate Ends(s: Shared, t: Thread, done: Thread, v: Table.View) {
    && (exists picks: seq<Path> :: Steps(s, t, picks).Some? && Steps(s, t, picks).value.1 == done)
    && forall picks: seq<Path> ::
         Steps(s, t, picks).Some? && Steps(s, t, picks).value.1 == done ==> ViewOf(Steps(s, t, picks).value.0) == v
  }

  lemma AtEnd(s: Shared, done: Thread)
    requires done.phase == Fresh
    ensures Ends(s, done, done, ViewOf(s))
  {
    assert Steps(s, done, []) == Some((s, done));
    forall picks: seq<Path> | Steps(s, done, picks).Some? && Steps(s, done, picks).value.1 == done
      ensures ViewOf(Steps(s, done, picks).value.0) == ViewOf(s)
    {
      NoReturn(s, done, picks);
    }
  }

  /** A thread that is not there yet gets there from wherever its next step may lead, and only so. */
  lemma BeforeEnd(s: Shared, t: Thread, pick: Path, done: Thread, v: Table.View)
    requires done.phase == Fresh && CanStep(s, t, pick)
    requires forall p :: CanStep(s, t, p) ==> Ends(Take(s, t, p).0, Take(s, t, p).1, done, v)
    ensures Ends(s, t, done, v)
  {
    var (s', t') := Take(s, t, pick);
    var way: seq<Path> :| Steps(s', t', way).Some? && Steps(s', t', way).value.1 == done;
    StepsAfter(s, t, pick, way);
    assert Steps(s, t, [pick] + way).value.1 == done;
    if t == done {
      NoReturn(s, t, [pick] + way);
    }
    forall picks: seq<Path> | Steps(s, t, picks).Some? && Steps(s, t, picks).value.1 == done
      ensures ViewOf(Steps(s, t, picks).value.0) == v
    {
      assert picks != [] && CanStep(s, t, picks[0]);
      assert Ends(Take(s, t, picks[0]).0, Take(s, t, picks[0]).1, done, v);
    }
  }

  lemma {:induction false} LeadsToEnd(s: Shared, t: Thread, s': Shared, t': Thread, n: nat, done: Thread, v: Table.View)
    requires done.phase == Fresh && Leads(s, t, s', t', n) && Ends(s', t', done, v)
    ensures Ends(s, t, done, v)
    decreases n
  {
    if n > 0 {
      LeadsToEnd(Take(s, t, "").0, Take(s, t, "").1, s', t', n - 1, done, v);
      forall p
        ensures CanStep(s, t, p) && Take(s, t, p) == Take(s, t, "")
      {
        SteadyStep(s, t, p);
      }
      BeforeEnd(s, t, "", done, v);
    }
  }

  lemma OnTheWay(s: Shared, t: Thread, s': Shared, t': Thread, done: Thread, v: Table.View)
    requires done.phase == Fresh && Becomes(s, t, s', t') && Ends(s', t', done, v)
    ensures Ends(s, t, done, v)
  {
    var n: nat :| Leads(s, t, s', t', n);
    LeadsToEnd(s, t, s', t', n, done, v);
  }

  lemma StraightToEnd(s: Shared, t: Thread, s': Shared, done: Thread)
    requires done.phase == Fresh && Becomes(s, t, s', done)
    ensures Ends(s, t, done, ViewOf(s'))
  {
    AtEnd(s', done);
    OnTheWay(s, t, s', done, done, ViewOf(s'));
  }

  // Reservations and releases.

  function Request(path: Path, call: DeviceLock.Call): Op
    requires Hooked(call)
  {
    if call.Reserve? then Reserve(path, call.owner, call.now) else Release(path, call.owner)
  }

  lemma CallAlone(s: Shared, t: Thread, path: Path, call: DeviceLock.Call, rest: seq<Action>) returns (s': Shared)
    requires OwnLocks(s) && Hooked(call) && t.script == Script(Request(path, call)) + rest && t.phase == Fresh
    ensures Becomes(s, t, s', t.(script := rest))
    ensures ViewOf(s') == Table.Hooked(ViewOf(s), path, call, Status(call))
  {
    var hook := if Succeeds(s, path, call) then Hook(call, path) else [];
    var done := t.(script := hook + rest);
    s' := Applied(s, path, call);
    AppliesAlone(s, t, path, call, rest);
    AppliedLocks(s, path, call);
    if Succeeds(s, path, call) {
      HookRunsAlone(s', done, call, path, rest);
      StampedDevices(s', path, Status(call));
      Chain(s, t, s', done, Effect(s', Stamp(path, Status(call)), ""), t.(script := rest));
      s' := Effect(s', Stamp(path, Status(call)), "");
    } else {
      NothingBefore(rest);
    }
  }

  // A device comes up.

  lemma RegisteredLocks(s: Shared, path: Path)
    requires OwnLocks(s)
    ensures var after := Effect(s, Register(path), "");
            DevicesOf(after) == DevicesOf(s)
            && LocksOf(after) == if path in s.registry then LocksOf(s) else LocksOf(s)[path := DeviceLock.FREE]
  {
  }

  lemma RecordWritten(s: Shared, path: Path)
    ensures var after := Effect(s, Added(path), "");
            LocksOf(after) == LocksOf(s) && (OwnLocks(s) ==> OwnLocks(after))
            && DevicesOf(after) == DevicesOf(s)[path := Table.Device(SELF, "available", "", false, None)]
  {
  }

  /** A lock is freed, whoever owns it; there is no hook. */
  lemma ForcesAlone(s: Shared, t: Thread, path: Path, rest: seq<Action>) returns (s': Shared)
    requires OwnLocks(s) && t.script == [RLock(Registry)] + [Find(path, DeviceLock.Force)] + rest && t.phase == Fresh
    ensures Becomes(s, t, s', t.(script := rest)) && OwnLocks(s')
    ensures LocksOf(s') == Registry.Called(LocksOf(s), path, DeviceLock.Force)
    ensures DevicesOf(s') == DevicesOf(s) && s'.devices == s.devices
  {
    AppliesAlone(s, t, path, DeviceLock.Force, rest);
    AppliedLocks(s, path, DeviceLock.Force);
    NothingBefore(rest);
    s' := Applied(s, path, DeviceLock.Force);
  }

  /** What follows the record: the lock of a known device is freed, and an unknown path is registered. */
  lemma LockRenewed(s: Shared, t: Thread, known: bool, path: Path, rest: seq<Action>) returns (s': Shared)
    requires OwnLocks(s) && t.phase == Fresh
    requires t.script == (if known then [RLock(Registry)] + [Find(path, DeviceLock.Force)]
                          else Section(Writing, Registry, [Register(path)])) + rest
    ensures Becomes(s, t, s', t.(script := rest)) && DevicesOf(s') == DevicesOf(s)
    ensures LocksOf(s') == if known then Registry.Called(LocksOf(s), path, DeviceLock.Force)
                           else if path in s.registry then LocksOf(s)
                           else LocksOf(s)[path := DeviceLock.FREE]
  {
    if known {
      s' := ForcesAlone(s, t, path, rest);
    } else {
      StepSection(s, t, Registry, Register(path), rest);
      RegisteredLocks(s, path);
      s' := Effect(s, Register(path), "");
    }
  }

  lemma AddsAlone(s: Shared, t: Thread, path: Path, rest: seq<Action>) returns (s': Shared)
    requires OwnLocks(s) && t.script == [Added(path)] + rest && t.phase == Fresh
    ensures Becomes(s, t, s', t.(script := rest))
    ensures ViewOf(s') == Table.Added(ViewOf(s), path, Table.Device(SELF, "available", "", false, None))
  {
    var after, next := Effect(s, Added(path), ""), t.(script := Expand(s, Added(path), "") + rest);
    Expands(s, t, Added(path), rest);
    RecordWritten(s, path);
    s' := LockRenewed(after, next, path in s.devices, path, rest);
    Chain(s, t, after, next, s', t.(script := rest));
  }

  lemma MirrorAlone(s: Shared, t: Thread, powerManaged: bool, rest: seq<Action>)
    requires t.script == Mirror(powerManaged) + rest && t.phase == Fresh
    ensures Becomes(s, t, s, t.(script := rest))
  {
    if powerManaged {
      ShortSectionAlone(s, t, Writing, Sleeper, rest);
    } else {
      NothingBefore(rest);
      NoStep(s, t);
    }
  }

  /** What happens under the leader's mutex. */
  lemma AddedInside(s: Shared, t: Thread, path: Path, powerManaged: bool, rest: seq<Action>) returns (s': Shared)
    requires OwnLocks(s) && t.phase == Fresh && t.script == [Added(path)] + (Mirror(powerManaged) + rest)
    ensures Becomes(s, t, s', t.(script := rest))
    ensures ViewOf(s') == Table.Added(ViewOf(s), path, Table.Device(SELF, "available", "", false, None))
  {
    var next := t.(script := Mirror(powerManaged) + rest);
    s' := AddsAlone(s, t, path, next.script);
    MirrorAlone(s', next, powerManaged, rest);
    Chain(s, t, s', next, s', t.(script := rest));
  }

  lemma AddedAlone(s: Shared, t: Thread, path: Path, powerManaged: bool, rest: seq<Action>) returns (s': Shared)
    requires OwnLocks(s) && t.script == Script(DeviceAdded(path, powerManaged)) + rest && t.phase == Fresh
    ensures Becomes(s, t, s', t.(script := rest))
    ensures ViewOf(s') == Table.Added(ViewOf(s), path, Table.Device(SELF, "available", "", false, None))
  {
    var mirror, last := Mirror(powerManaged), [Unlock(Leader)] + rest;
    var inner := t.(script := [Added(path)] + (mirror + last), held := Holding(Leader, Writing, t.held));
    Enters(s, t, Writing, Leader, [Added(path)] + mirror, rest);
    Regrouped([Added(path)], mirror, last);
    s' := AddedInside(s, inner, path, powerManaged, last);
    Chain(s, t, s, inner, s', inner.(script := last));
    GivesBack(s', inner.(script := last), Leader, rest);
    Chain(s, t, s', inner.(script := last), s', t.(script := rest));
  }

  // Orphaned devices.

  lemma {:induction false} ReadsJobs(s: Shared, t: Thread, jobs: seq<Job>, rest: seq<Action>)
    requires t.script == ReadJobs(jobs) + rest && t.phase == Fresh
    ensures Becomes(s, t, s, t.(script := rest))
    decreases |jobs|
  {
    if jobs == [] {
      NothingBefore(rest);
      NoStep(s, t);
    } else {
      var next := t.(script := ReadJobs(jobs[1..]) + rest);
      Regrouped(Section(Reading, JobMutex(jobs[0].id), []), ReadJobs(jobs[1..]), rest);
      ShortSectionAlone(s, t, Reading, JobMutex(jobs[0].id), next.script);
      ReadsJobs(s, next, jobs[1..], rest);
      Chain(s, t, s, next, s, t.(script := rest));
    }
  }

  lemma OrphanStamped(s: Shared, seen: set<Path>, active: set<Path>, pick: Path)
    requires pick in s.devices && pick !in seen && Table.Orphaned(ViewOf(s), pick, active)
    ensures var after := Effect(s, Orphans(seen, active), pick);
            DevicesOf(after) == Table.Stamped(DevicesOf(s), pick, "available") && LocksOf(after) == LocksOf(s)
            && after.devices.Keys == s.devices.Keys && (OwnLocks(s) ==> OwnLocks(after))
  {
  }

  /** One device of the table: an orphaned one is made available, and its lock freed. */
  lemma OrphanAlone(s: Shared, t: Thread, seen: set<Path>, active: set<Path>, pick: Path, rest: seq<Action>)
    returns (s': Shared)
    requires OwnLocks(s) && pick in s.devices && pick !in seen
    requires t.script == [Orphans(seen, active)] + rest && t.phase == Fresh
    ensures Becomes(Take(s, t, pick).0, Take(s, t, pick).1, s', t.(script := [Orphans(seen + {pick}, active)] + rest))
    ensures ViewOf(s') == Table.ReclaimedAt(ViewOf(s), pick, active)
    ensures s'.devices.Keys == s.devices.Keys && OwnLocks(s')
  {
    var a, more := Orphans(seen, active), [Orphans(seen + {pick}, active)] + rest;
    var after, next := Effect(s, a, pick), t.(script := Expand(s, a, pick) + rest);
    assert t.script[1..] == rest && Take(s, t, pick) == (after, next);
    if Table.Orphaned(ViewOf(s), pick, active) {
      Regrouped([RLock(Registry)] + [Find(pick, DeviceLock.Force)], [Orphans(seen + {pick}, active)], rest);
      OrphanStamped(s, seen, active, pick);
      s' := ForcesAlone(after, next, pick, more);
    } else {
      s' := s;
      NothingBefore([Orphans(seen + {pick}, active)]);
      NoStep(s, next);
    }
  }

  lemma NothingLeft(s: Shared, t: Thread, seen: set<Path>, active: set<Path>, rest: seq<Action>)
    requires t.script == [Orphans(seen, active)] + rest && s.devices.Keys <= seen
    ensures Becomes(s, t, s, t.(script := rest))
  {
    var a := Orphans(seen, active);
    assert Expand(s, a, "") == [] && Effect(s, a, "") == s by {
      assert "" in s.devices ==> "" in seen;
    }
    Expands(s, t, a, rest);
    NothingBefore(rest);
  }

  /** With every key struck, the leader's mutex is given back. */
  lemma OrphansDone(s: Shared, t: Thread, seen: set<Path>, active: set<Path>, rest: seq<Action>)
    requires t.script == [Orphans(seen, active)] + ([Unlock(Leader)] + rest) && t.phase == Fresh && t.held.Holding?
    requires s.devices.Keys <= seen
    ensures Becomes(s, t, s, t.(script := rest, held := t.held.below))
  {
    var next := t.(script := [Unlock(Leader)] + rest);
    NothingLeft(s, t, seen, active, next.script);
    GivesBack(s, next, Leader, rest);
    Chain(s, t, s, next, s, t.(script := rest, held := t.held.below));
  }

  /** The table as far as it has been gone through. */
  ghost predicate Reclaiming(before: Table.View, s: Shared, active: set<Path>, seen: set<Path>) {
    OwnLocks(s) && Table.Reclaiming(before, ViewOf(s), active, s.devices.Keys - seen)
  }

  lemma ReclaimingOn(before: Table.View, s: Shared, s': Shared, active: set<Path>, seen: set<Path>, pick: Path)
    requires Reclaiming(before, s, active, seen) && pick in s.devices.Keys - seen
    requires ViewOf(s') == Table.ReclaimedAt(ViewOf(s), pick, active)
    requires s'.devices.Keys == s.devices.Keys && OwnLocks(s')
    ensures Reclaiming(before, s', active, seen + {pick})
  {
    var todo := s.devices.Keys - seen;
    assert ViewOf(s).devices.Keys == s.devices.Keys;
    Table.ReclaimOne(before, ViewOf(s), active, todo, pick);
    assert s'.devices.Keys - (seen + {pick}) == todo - {pick};
  }

  /** In whatever order the rest of the table is gone through, exactly the orphaned devices are reclaimed. */
  lemma {:induction false} OrphansEnd(before: Table.View, s: Shared, t: Thread, seen: set<Path>, active: set<Path>,
                                      rest: seq<Action>)
    requires Reclaiming(before, s, active, seen) && t.phase == Fresh && t.held.Holding?
    requires t.script == [Orphans(seen, active)] + ([Unlock(Leader)] + rest)
    ensures Ends(s, t, t.(script := rest, held := t.held.below), Table.Reclaimed(before, active))
    decreases s.devices.Keys - seen, 1
  {
    var done := t.(script := rest, held := t.held.below);
    if s.devices.Keys <= seen {
      assert s.devices.Keys - seen == {};
      OrphansDone(s, t, seen, active, rest);
      Table.ReclaimingDone(before, ViewOf(s), active);
      StraightToEnd(s, t, s, done);
    } else {
      forall pick | CanStep(s, t, pick)
        ensures Ends(Take(s, t, pick).0, Take(s, t, pick).1, done, Table.Reclaimed(before, active))
      {
        OrphansEndAfter(before, s, t, seen, active, pick, rest);
      }
      var pick := NotSeen(s.devices.Keys, seen);
      BeforeEnd(s, t, pick, done, Table.Reclaimed(before, active));
    }
  }

  lemma {:induction false} OrphansEndAfter(before: Table.View, s: Shared, t: Thread, seen: set<Path>,
                                           active: set<Path>, pick: Path, rest: seq<Action>)
    requires Reclaiming(before, s, active, seen) && pick in s.devices.Keys - seen
    requires t.script == [Orphans(seen, active)] + ([Unlock(Leader)] + rest) && t.phase == Fresh && t.held.Holding?
    ensures Ends(Take(s, t, pick).0, Take(s, t, pick).1, t.(script := rest, held := t.held.below),
                 Table.Reclaimed(before, active))
    decreases s.devices.Keys - seen, 0
  {
    var last, done := [Unlock(Leader)] + rest, t.(script := rest, held := t.held.below);
    var next := t.(script := [Orphans(seen + {pick}, active)] + last);
    var after := OrphanAlone(s, t, seen, active, pick, last);
    ReclaimingOn(before, s, after, active, seen, pick);
    OrphansEnd(before, after, next, seen + {pick}, active, rest);
    OnTheWay(Take(s, t, pick).0, Take(s, t, pick).1, after, next, done, Table.Reclaimed(before, active));
  }

  lemma NotSeen(keys: set<Path>, seen: set<Path>) returns (pick: Path)
    requires !(keys <= seen)
    ensures pick in keys && pick !in seen
  {
    assert exists p :: p in keys && p !in seen;
    pick :| pick in keys && pick !in seen;
  }

  lemma OrphansSection(s: Shared, t: Thread, active: set<Path>, rest: seq<Action>)
    requires OwnLocks(s) && t.script == Section(Writing, Leader, [Orphans({}, active)]) + rest && t.phase == Fresh
    ensures Ends(s, t, t.(script := rest), Table.Reclaimed(ViewOf(s), active))
  {
    var last := [Unlock(Leader)] + rest;
    var inner := t.(script := [Orphans({}, active)] + last, held := Holding(Leader, Writing, t.held));
    Enters(s, t, Writing, Leader, [Orphans({}, active)], rest);
    Table.ReclaimingStarts(ViewOf(s), active);
    assert s.devices.Keys - {} == ViewOf(s).devices.Keys;
    OrphansEnd(ViewOf(s), s, inner, {}, active, rest);
    OnTheWay(s, t, s, inner, t.(script := rest), Table.Reclaimed(ViewOf(s), active));
  }

  lemma CleanupOrphansEnds(s: Shared, t: Thread, jobs: seq<Job>, active: set<Path>, rest: seq<Action>)
    requires OwnLocks(s) && t.script == OrphansScript(jobs, active) + rest && t.phase == Fresh
    ensures Ends(s, t, t.(script := rest), Table.Reclaimed(ViewOf(s), active))
  {
    var sweep := Section(Writing, Leader, [Orphans({}, active)]);
    var next, last := t.(script := ReadJobs(jobs) + (sweep + rest)), t.(script := sweep + rest);
    Regrouped(Section(Reading, Queue, []), ReadJobs(jobs) + sweep, rest);
    Regrouped(ReadJobs(jobs), sweep, rest);
    ShortSectionAlone(s, t, Reading, Queue, next.script);
    ReadsJobs(s, next, jobs, sweep + rest);
    Chain(s, t, s, next, s, last);
    OrphansSection(s, last, active, rest);
    OnTheWay(s, t, s, last, t.(script := rest), Table.Reclaimed(ViewOf(s), active));
  }

  // Stale reservations.

  /** The paths of the reported reservations. */
  function Paths(freed: seq<(Path, string)>): seq<Path> {
    seq(|freed|, i requires 0 <= i < |freed| => freed[i].0)
  }

  function Freed(freed: seq<(Path, string)>, locks: Registry.Locks, path: Path, cutoff: int): seq<(Path, string)>
    requires path in locks
  {
    if Registry.Stale(locks, path, cutoff) then freed + [(path, locks[path].owner)] else freed
  }

  lemma OneMorePath(freed: seq<(Path, string)>, entry: (Path, string))
    ensures Paths(freed + [entry]) == Paths(freed) + [entry.0]
  {
  }

  /** One lock of the registry, freed if its reservation is stale. */
  lemma ExpiryAlone(s: Shared, t: Thread, cutoff: int, seen: set<Path>, freed: seq<(Path, string)>, pick: Path,
                    rest: seq<Action>) returns (s': Shared)
    requires OwnLocks(s) && pick in s.registry && pick !in seen
    requires t.script == [Sweep(cutoff, seen, Paths(freed))] + rest && t.phase == Fresh
    ensures var more := Freed(freed, LocksOf(s), pick, cutoff);
            Becomes(Take(s, t, pick).0, Take(s, t, pick).1,
                    s', t.(script := [Sweep(cutoff, seen + {pick}, Paths(more))] + rest))
    ensures LocksOf(s') == Registry.Called(LocksOf(s), pick, DeviceLock.Call.Expire(cutoff))
    ensures DevicesOf(s') == DevicesOf(s) && s'.registry == s.registry && OwnLocks(s')
  {
    var id := s.registry[pick];
    var a := Expire(id, pick, cutoff, seen + {pick}, Paths(freed));
    var next := t.(script := [Lock(Device(id))] + [a] + rest);
    assert t.script[1..] == rest && Take(s, t, pick) == (s, next);
    Updates(s, next, a, rest);
    WrittenLocks(s, pick, a);
    OneMorePath(freed, (pick, LocksOf(s)[pick].owner));
    s' := Written(s, a, LockAt(s.locks, id));
  }

  lemma FreedAlike(freed: seq<(Path, string)>, before: Registry.Locks, now: Registry.Locks, path: Path, cutoff: int)
    requires path in before && path in now && before[path] == now[path]
    ensures Freed(freed, before, path, cutoff) == Freed(freed, now, path, cutoff)
  {
  }

  /** The locks as far as the sweep has come: `freed` are the stale ones among the keys struck. */
  ghost predicate Sweeping(before: Table.View, s: Shared, cutoff: int, seen: set<Path>, freed: seq<(Path, string)>) {
    && OwnLocks(s) && before.locks.Keys == s.registry.Keys && DevicesOf(s) == before.devices
    && Registry.ExpiredBut(before.locks, LocksOf(s), s.registry.Keys - seen, cutoff)
    && Registry.Reports(freed, before.locks, s.registry.Keys - seen, cutoff)
  }

  lemma SweepingOn(before: Table.View, s: Shared, s': Shared, cutoff: int, seen: set<Path>,
                   freed: seq<(Path, string)>, pick: Path)
    requires Sweeping(before, s, cutoff, seen, freed) && pick in s.registry.Keys - seen
    requires LocksOf(s') == Registry.Called(LocksOf(s), pick, DeviceLock.Call.Expire(cutoff))
    requires DevicesOf(s') == DevicesOf(s) && s'.registry == s.registry && OwnLocks(s')
    ensures Sweeping(before, s', cutoff, seen + {pick}, Freed(freed, before.locks, pick, cutoff))
    ensures Freed(freed, before.locks, pick, cutoff) == Freed(freed, LocksOf(s), pick, cutoff)
  {
    var todo := s.registry.Keys - seen;
    FreedAlike(freed, before.locks, LocksOf(s), pick, cutoff);
    Registry.ExpiredOneMore(before.locks, LocksOf(s), todo, pick, cutoff);
    Registry.ReportsMore(freed, before.locks, todo, pick, cutoff);
    assert s'.registry.Keys - (seen + {pick}) == todo - {pick};
  }

  /** In whatever order the rest of the registry is gone through, exactly the stale locks are freed and stamped. */
  lemma {:induction false} SweepEnd(before: Table.View, s: Shared, t: Thread, cutoff: int, seen: set<Path>,
                                    freed: seq<(Path, string)>, rest: seq<Action>)
    requires Sweeping(before, s, cutoff, seen, freed)
    requires t.script == [Sweep(cutoff, seen, Paths(freed))] + rest && t.phase == Fresh && t.held.Holding?
    ensures Ends(s, t, t.(script := rest, held := t.held.below), Table.Cleaned(before, cutoff))
    decreases s.registry.Keys - seen, 1
  {
    var done := t.(script := rest, held := t.held.below);
    if s.registry.Keys <= seen {
      var s' := SweepDone(before, s, t, cutoff, seen, freed, rest);
      StraightToEnd(s, t, s', done);
    } else {
      forall pick | CanStep(s, t, pick)
        ensures Ends(Take(s, t, pick).0, Take(s, t, pick).1, done, Table.Cleaned(before, cutoff))
      {
        SweepEndAfter(before, s, t, cutoff, seen, freed, pick, rest);
      }
      var pick := NotSeen(s.registry.Keys, seen);
      BeforeEnd(s, t, pick, done, Table.Cleaned(before, cutoff));
    }
  }

  lemma {:induction false} SweepEndAfter(before: Table.View, s: Shared, t: Thread, cutoff: int, seen: set<Path>,
                                         freed: seq<(Path, string)>, pick: Path, rest: seq<Action>)
    requires Sweeping(before, s, cutoff, seen, freed) && pick in s.registry.Keys - seen
    requires t.script == [Sweep(cutoff, seen, Paths(freed))] + rest && t.phase == Fresh && t.held.Holding?
    ensures Ends(Take(s, t, pick).0, Take(s, t, pick).1, t.(script := rest, held := t.held.below),
                 Table.Cleaned(before, cutoff))
    decreases s.registry.Keys - seen, 0
  {
    var more, done := Freed(freed, before.locks, pick, cutoff), t.(script := rest, held := t.held.below);
    var next := t.(script := [Sweep(cutoff, seen + {pick}, Paths(more))] + rest);
    var after := ExpiryAlone(s, t, cutoff, seen, freed, pick, rest);
    SweepingOn(before, s, after, cutoff, seen, freed, pick);
    SweepEnd(before, after, next, cutoff, seen + {pick}, more, rest);
    OnTheWay(Take(s, t, pick).0, Take(s, t, pick).1, after, next, done, Table.Cleaned(before, cutoff));
  }

  /** With every key struck, the registry's mutex is given back and the hooks of the freed paths run. */
  lemma SweepDone(before: Table.View, s: Shared, t: Thread, cutoff: int, seen: set<Path>, freed: seq<(Path, string)>,
                  rest: seq<Action>) returns (s': Shared)
    requires Sweeping(before, s, cutoff, seen, freed) && s.registry.Keys <= seen
    requires t.script == [Sweep(cutoff, seen, Paths(freed))] + rest && t.phase == Fresh && t.held.Holding?
    ensures Becomes(s, t, s', t.(script := rest, held := t.held.below)) && ViewOf(s') == Table.Cleaned(before, cutoff)
  {
    var next := t.(script := StampAll(Paths(freed), "available") + rest, held := t.held.below);
    assert s.registry.Keys - seen == {} && freed[0..] == freed && freed[..0] == [];
    SweepEnds(s, t, cutoff, seen, Paths(freed), rest);
    Registry.ExpiredDone(before.locks, LocksOf(s), cutoff);
    s' := StampsAlone(before.devices, s, next, freed, 0, rest);
    Table.FreedAll(before, DevicesOf(s'), freed, cutoff);
    Chain(s, t, s, next, s', t.(script := rest, held := t.held.below));
  }

  lemma SweepEnds(s: Shared, t: Thread, cutoff: int, seen: set<Path>, freed: seq<Path>, rest: seq<Action>)
    requires t.script == [Sweep(cutoff, seen, freed)] + rest && t.phase == Fresh
    requires t.held.Holding? && s.registry.Keys <= seen
    ensures Becomes(s, t, s, t.(script := StampAll(freed, "available") + rest, held := t.held.below))
  {
    var stamps := StampAll(freed, "available");
    var next := t.(script := [Unlock(Registry)] + (stamps + rest));
    Expands(s, t, Sweep(cutoff, seen, freed), rest);
    Regrouped([Unlock(Registry)], stamps, rest);
    GivesBack(s, next, Registry, stamps + rest);
    Chain(s, t, s, next, s, t.(script := stamps + rest, held := t.held.below));
  }

  lemma PathsApart(freed: seq<(Path, string)>, i: nat)
    requires i < |freed|
    ensures Paths(freed[i..]) == [freed[i].0] + Paths(freed[i + 1..])
  {
  }

  lemma StampsApart(path: Path, paths: seq<Path>, status: string)
    ensures StampAll([path] + paths, status) == Section(Writing, Leader, [Stamp(path, status)])
            + StampAll(paths, status)
  {
    assert ([path] + paths)[1..] == paths;
  }

  /** The hooks of the freed paths, one after the other. */
  lemma {:induction false} StampsAlone(before: Table.Devices, s: Shared, t: Thread, freed: seq<(Path, string)>, i: nat,
                                       rest: seq<Action>) returns (s': Shared)
    requires i <= |freed| && t.script == StampAll(Paths(freed[i..]), "available") + rest && t.phase == Fresh
    requires Table.FreedUpTo(before, DevicesOf(s), freed[..i])
    ensures Becomes(s, t, s', t.(script := rest))
    ensures Table.FreedUpTo(before, DevicesOf(s'), freed) && LocksOf(s') == LocksOf(s)
    decreases |freed| - i
  {
    if i == |freed| {
      s' := s;
      assert freed[..i] == freed && Paths(freed[i..]) == [];
      NothingBefore(rest);
      NoStep(s, t);
    } else {
      var path, others := freed[i].0, StampAll(Paths(freed[i + 1..]), "available");
      var after, next := Effect(s, Stamp(path, "available"), ""), t.(script := others + rest);
      PathsApart(freed, i);
      StampsApart(path, Paths(freed[i + 1..]), "available");
      Regrouped(Section(Writing, Leader, [Stamp(path, "available")]), others, rest);
      StepSection(s, t, Leader, Stamp(path, "available"), next.script);
      StampedDevices(s, path, "available");
      Table.FreedOneMore(before, DevicesOf(s), freed, i);
      s' := StampsAlone(before, after, next, freed, i + 1, rest);
      Chain(s, t, after, next, s', t.(script := rest));
    }
  }

  lemma CleanupStaleEnds(s: Shared, t: Thread, cutoff: int, rest: seq<Action>)
    requires OwnLocks(s) && t.script == Script(CleanupStale(cutoff)) + rest && t.phase == Fresh
    ensures Ends(s, t, t.(script := rest), Table.Cleaned(ViewOf(s), cutoff))
  {
    var inner := t.(script := [Sweep(cutoff, {}, [])] + rest, held := Holding(Registry, Writing, t.held));
    Regrouped([Lock(Registry)], [Sweep(cutoff, {}, [])], rest);
    TakesLock(s, t, Registry, inner.script);
    Registry.SweepStarts(LocksOf(s), cutoff);
    assert Paths([]) == [] && s.registry.Keys - {} == LocksOf(s).Keys;
    SweepEnd(ViewOf(s), s, inner, cutoff, {}, [], rest);
    OnTheWay(s, t, s, inner, t.(script := rest), Table.Cleaned(ViewOf(s), cutoff));
  }
}
