/** Every script takes mutexes in rank order and gives all of them back, whatever its steps turn into. */
module Balance {
  import opened Wrappers
  import opened Locking
  import opened Cluster
  import DeviceLock

  lemma LookupRuns(held: Held, a: Action)
    requires CanTake(held, Registry) && Fits(Holding(Registry, Reading, held), a) && (a.Find? || a.Look?)
    ensures Runs(held, [RLock(Registry)] + [a]) == Some(held)
  {
    RunsOne(Holding(Registry, Reading, held), a);
    RunsThen(held, RLock(Registry), [a]);
  }

  lemma JobUnderQueueRuns(job: Job)
    ensures Runs(Free, JobUnderQueue(job)) == Some(Free)
  {
    ShortSection(Holding(Queue, Writing, Free), Writing, JobMutex(job.id));
    SectionRuns(Free, Writing, Queue, Section(Writing, JobMutex(job.id), []));
  }

  lemma MirrorRuns(powerManaged: bool)
    ensures var inner := Holding(Leader, Writing, Free); Runs(inner, Mirror(powerManaged)) == Some(inner)
  {
    ShortSection(Holding(Leader, Writing, Free), Writing, Sleeper);
  }

  lemma {:induction false} AdoptRuns(node: string, devices: seq<(Path, string)>)
    ensures var inner := Holding(Leader, Writing, Free); Runs(inner, Adopt(node, devices)) == Some(inner)
  {
    var inner := Holding(Leader, Writing, Free);
    if devices != [] {
      var p := devices[0].0;
      OneStepSection(inner, Writing, Registry, Register(p));
      AdoptRuns(node, devices[1..]);
      TwoParts(inner, Section(Writing, Registry, [Register(p)]), Adopt(node, devices[1..]));
      RunsThen(inner, Put(p, node, devices[0].1),
               Section(Writing, Registry, [Register(p)]) + Adopt(node, devices[1..]));
    }
  }

  lemma {:induction false} StampAllRuns(paths: seq<Path>, status: string)
    ensures Runs(Free, StampAll(paths, status)) == Some(Free)
  {
    if paths != [] {
      OneStepSection(Free, Writing, Leader, Stamp(paths[0], status));
      StampAllRuns(paths[1..], status);
      TwoParts(Free, Section(Writing, Leader, [Stamp(paths[0], status)]), StampAll(paths[1..], status));
    }
  }

  lemma {:induction false} ReadJobsRun(jobs: seq<Job>)
    ensures Runs(Free, ReadJobs(jobs)) == Some(Free)
  {
    if jobs != [] {
      ShortSection(Free, Reading, JobMutex(jobs[0].id));
      ReadJobsRun(jobs[1..]);
      TwoParts(Free, Section(Reading, JobMutex(jobs[0].id), []), ReadJobs(jobs[1..]));
    }
  }

  // The scripts, one lemma each.

  lemma CleanupStaleRuns(cutoff: int)
    ensures Runs(Free, Script(CleanupStale(cutoff))) == Some(Free)
  {
    RunsOne(Holding(Registry, Writing, Free), Sweep(cutoff, {}, []));
    RunsThen(Free, Lock(Registry), [Sweep(cutoff, {}, [])]);
  }

  lemma AddedRuns(path: Path, powerManaged: bool)
    ensures Runs(Free, Script(DeviceAdded(path, powerManaged))) == Some(Free)
  {
    MirrorRuns(powerManaged);
    RunsThen(Holding(Leader, Writing, Free), Added(path), Mirror(powerManaged));
    SectionRuns(Free, Writing, Leader, [Added(path)] + Mirror(powerManaged));
  }

  lemma RemovedRuns(path: Path, powerManaged: bool)
    ensures Runs(Free, RemovedScript(path, powerManaged)) == Some(Free)
  {
    var a := if powerManaged then Stamp(path, "sleeping") else Drop(path);
    MirrorRuns(powerManaged);
    RunsThen(Holding(Leader, Writing, Free), a, Mirror(powerManaged));
    SectionRuns(Free, Writing, Leader, [a] + Mirror(powerManaged));
  }

  lemma HeartbeatRuns(node: string, devices: seq<(Path, string)>)
    ensures Runs(Free, HeartbeatScript(node, devices)) == Some(Free)
  {
    var inner, last := Holding(Leader, Writing, Free), KeepOnly(node, set d | d in devices :: d.0);
    AdoptRuns(node, devices);
    RunsOne(inner, last);
    TwoParts(inner, Adopt(node, devices), [last]);
    SectionRuns(Free, Writing, Leader, Adopt(node, devices) + [last]);
  }

  lemma OrphansRuns(jobs: seq<Job>, active: set<Path>)
    ensures Runs(Free, OrphansScript(jobs, active)) == Some(Free)
  {
    var sweep := Section(Writing, Leader, [Orphans({}, active)]);
    ShortSection(Free, Reading, Queue);
    ReadJobsRun(jobs);
    OneStepSection(Free, Writing, Leader, Orphans({}, active));
    TwoParts(Free, ReadJobs(jobs), sweep);
    TwoParts(Free, Section(Reading, Queue, []), ReadJobs(jobs) + sweep);
  }

  lemma SleepSweepRuns(down: seq<Path>)
    ensures Runs(Free, Script(SleepSweep(down))) == Some(Free)
  {
    ShortSection(Free, Writing, Sleeper);
    StampAllRuns(down, "sleeping");
    TwoParts(Free, Section(Writing, Sleeper, []), StampAll(down, "sleeping"));
  }

  lemma CancelRuns(job: Job)
    ensures Runs(Free, CancelScript(job)) == Some(Free)
  {
    var release := [Call(Release(job.path, job.id))];
    ShortSection(Free, Reading, Queue);
    ShortSection(Free, Reading, JobMutex(job.id));
    JobUnderQueueRuns(job);
    RunsOne(Free, Call(Release(job.path, job.id)));
    TwoParts(Free, JobUnderQueue(job), release);
    TwoParts(Free, Section(Reading, JobMutex(job.id), []), JobUnderQueue(job) + release);
    TwoParts(Free, Section(Reading, Queue, []),
             Section(Reading, JobMutex(job.id), []) + (JobUnderQueue(job) + release));
  }

  lemma CompleteRuns(job: Job)
    ensures Runs(Free, Script(Complete(job))) == Some(Free)
  {
    ShortSection(Free, Reading, Queue);
    ShortSection(Free, Writing, JobMutex(job.id));
    TwoParts(Free, Section(Reading, Queue, []), Section(Writing, JobMutex(job.id), []));
  }

  lemma DispatchRuns(job: Job)
    ensures Runs(Free, DispatchScript(job)) == Some(Free)
  {
    var stamp := Section(Writing, Leader, [Stamp(job.path, "busy")]);
    JobUnderQueueRuns(job);
    ShortSection(Free, Reading, Leader);
    OneStepSection(Free, Writing, Leader, Stamp(job.path, "busy"));
    RunsOne(Free, Submit(job));
    TwoParts(Free, stamp, [Submit(job)]);
    TwoParts(Free, Section(Reading, Leader, []), stamp + [Submit(job)]);
    TwoParts(Free, JobUnderQueue(job), Section(Reading, Leader, []) + (stamp + [Submit(job)]));
  }

  lemma ShortScriptRuns(op: Op)
    requires op.States? || op.SetHooks? || op.CleanupUnidentified? || op.SetStatus? || op.Enqueue?
    ensures Runs(Free, Script(op)) == Some(Free)
  {
    match op
    case States => OneStepSection(Free, Reading, Registry, List({}));
    case SetHooks => ShortSection(Free, Writing, Registry);
    case CleanupUnidentified(victims) => OneStepSection(Free, Writing, Leader, Unidentified({}, victims));
    case SetStatus(p, status) => OneStepSection(Free, Writing, Leader, Stamp(p, status));
    case Enqueue(job) => ShortSection(Free, Writing, Queue);
  }

  lemma ScriptRuns(op: Op)
    ensures Runs(Free, Script(op)) == Some(Free)
  {
    match op
    case Reserve(p, owner, now) => LookupRuns(Free, Find(p, DeviceLock.Call.Reserve(owner, now)));
    case Release(p, owner) => LookupRuns(Free, Find(p, DeviceLock.Call.Release(owner)));
    case Inspect(p) => LookupRuns(Free, Look(p));
    case CleanupStale(cutoff) => CleanupStaleRuns(cutoff);
    case DeviceAdded(p, powerManaged) => AddedRuns(p, powerManaged);
    case DeviceRemoved(p, powerManaged) => RemovedRuns(p, powerManaged);
    case Heartbeat(node, devices) => HeartbeatRuns(node, devices);
    case CleanupOrphans(jobs, active) => OrphansRuns(jobs, active);
    case SleepSweep(down) => SleepSweepRuns(down);
    case Cancel(job) => CancelRuns(job);
    case Complete(job) => CompleteRuns(job);
    case Dispatch(job) => DispatchRuns(job);
    case _ => ShortScriptRuns(op);
  }

  lemma WorkRuns(job: Job)
    ensures Runs(Free, Work(job)) == Some(Free)
  {
    var section := Section(Writing, JobMutex(job.id), []);
    ShortSection(Free, Writing, JobMutex(job.id));
    ShortSection(Free, Reading, Leader);
    RunsOne(Free, Send(job));
    TwoParts(Free, section, [Send(job)]);
    TwoParts(Free, Section(Reading, Leader, []), section + [Send(job)]);
    TwoParts(Free, section, Section(Reading, Leader, []) + (section + [Send(job)]));
  }

  lemma SettleRuns(job: Job)
    ensures Runs(Free, Settle(job)) == Some(Free)
  {
    var section := Section(Writing, Sleeper, []);
    ShortSection(Free, Writing, Sleeper);
    TwoParts(Free, section, section);
    RunsThen(Free, Call(Complete(job)), section + section);
    RunsThen(Free, Call(Release(job.path, job.id)), [Call(Complete(job))] + (section + section));
  }

  lemma HookRuns(call: DeviceLock.Call, path: Path)
    ensures Runs(Free, Hook(call, path)) == Some(Free)
  {
    if Hooked(call) {
      var stamp := Stamp(path, if call.Reserve? then "busy" else "available");
      ShortSection(Free, Reading, Registry);
      OneStepSection(Free, Writing, Leader, stamp);
      TwoParts(Free, Section(Reading, Registry, []), Section(Writing, Leader, [stamp]));
    }
  }

  // Steps on the registry's map, with the registry's mutex held.

  lemma FindRuns(held: Held, s: Shared, path: Path, call: DeviceLock.Call)
    requires Fits(held, Find(path, call))
    ensures Runs(held, Expand(s, Find(path, call), "")) == Some(held.below)
  {
    if path in s.registry {
      var id := s.registry[path];
      RunsOne(Holding(Device(id), Writing, held.below), Update(id, path, call));
      RunsThen(held.below, Lock(Device(id)), [Update(id, path, call)]);
      RunsThen(held, Unlock(Registry), [Lock(Device(id))] + [Update(id, path, call)]);
    } else {
      RunsThen(held, Unlock(Registry), []);
    }
  }

  lemma LookRuns(held: Held, s: Shared, path: Path)
    requires Fits(held, Look(path))
    ensures Runs(held, Expand(s, Look(path), "")) == Some(held.below)
  {
    if path in s.registry {
      ShortSection(held.below, Reading, Device(s.registry[path]));
      RunsThen(held, Unlock(Registry), Section(Reading, Device(s.registry[path]), []));
    } else {
      RunsThen(held, Unlock(Registry), []);
    }
  }

  lemma SweepRuns(held: Held, s: Shared, cutoff: int, seen: set<Path>, freed: seq<Path>, pick: Path)
    requires Fits(held, Sweep(cutoff, seen, freed))
    ensures Runs(held, Expand(s, Sweep(cutoff, seen, freed), pick)) == Some(Free)
  {
    if pick in s.registry && pick !in seen {
      var id := s.registry[pick];
      var next := Expire(id, pick, cutoff, seen + {pick}, freed);
      RunsOne(Holding(Device(id), Writing, held), next);
      RunsThen(held, Lock(Device(id)), [next]);
    } else {
      StampAllRuns(freed, "available");
      RunsThen(held, Unlock(Registry), StampAll(freed, "available"));
    }
  }

  lemma ListRuns(held: Held, s: Shared, seen: set<Path>, pick: Path)
    requires Fits(held, List(seen))
    ensures Runs(held, Expand(s, List(seen), pick)) == Some(held)
  {
    if pick in s.registry && pick !in seen {
      ShortSection(held, Reading, Device(s.registry[pick]));
      RunsOne(held, List(seen + {pick}));
      TwoParts(held, Section(Reading, Device(s.registry[pick]), []), [List(seen + {pick})]);
    }
  }

  // Steps on the leader's device table, with the leader's mutex held.

  lemma AddedStepRuns(held: Held, s: Shared, path: Path)
    requires Fits(held, Added(path))
    ensures Runs(held, Expand(s, Added(path), "")) == Some(held)
  {
    if path in s.devices {
      LookupRuns(held, Find(path, DeviceLock.Force));
    } else {
      OneStepSection(held, Writing, Registry, Register(path));
    }
  }

  lemma OrphansStepRuns(held: Held, s: Shared, seen: set<Path>, active: set<Path>, pick: Path)
    requires Fits(held, Orphans(seen, active))
    ensures Runs(held, Expand(s, Orphans(seen, active), pick)) == Some(held)
  {
    if pick in s.devices && pick !in seen {
      var next := [Orphans(seen + {pick}, active)];
      RunsOne(held, next[0]);
      if s.devices[pick].status == "busy" && pick !in active {
        LookupRuns(held, Find(pick, DeviceLock.Force));
        TwoParts(held, [RLock(Registry)] + [Find(pick, DeviceLock.Force)], next);
      } else {
        TwoParts(held, [], next);
      }
    }
  }

  lemma UnidentifiedStepRuns(held: Held, s: Shared, seen: set<Path>, victims: set<Path>, pick: Path)
    requires Fits(held, Unidentified(seen, victims))
    ensures Runs(held, Expand(s, Unidentified(seen, victims), pick)) == Some(held)
  {
    if pick in s.devices && pick !in seen {
      var next := [Unidentified(seen + {pick}, victims)];
      RunsOne(held, next[0]);
      OneStepSection(held, Writing, Registry, Unregister(pick));
      TwoParts(held, if pick in victims then Section(Writing, Registry, [Unregister(pick)]) else [], next);
    }
  }

  lemma ExpandRuns(held: Held, s: Shared, a: Action, pick: Path)
    requires Fits(held, a) && !a.RLock? && !a.Lock? && !a.Unlock? && !IsUpdate(a)
    ensures Runs(held, Expand(s, a, pick)) == Some(After(held, a))
  {
    match a
    case Call(op) => ScriptRuns(op);
    case Find(p, call) => FindRuns(held, s, p, call);
    case Look(p) => LookRuns(held, s, p);
    case Sweep(cutoff, seen, freed) => SweepRuns(held, s, cutoff, seen, freed, pick);
    case List(seen) => ListRuns(held, s, seen, pick);
    case Added(p) => AddedStepRuns(held, s, p);
    case Orphans(seen, active) => OrphansStepRuns(held, s, seen, active, pick);
    case Unidentified(seen, victims) => UnidentifiedStepRuns(held, s, seen, victims, pick);
    case _ =>
  }

  lemma AfterWriteRuns(held: Held, a: Action, ok: bool)
    requires IsUpdate(a) && Fits(held, a)
    ensures Runs(held, AfterWrite(a, ok)) == Some(After(held, a))
  {
    if a.Update? {
      var hook := if ok then Hook(a.call, a.path) else [];
      RunsThen(held, Unlock(Device(a.id)), hook);
      if Hooked(a.call) {
        HookRuns(a.call, a.path);
      }
    } else {
      var next := Sweep(a.cutoff, a.seen, if ok then a.freed + [a.path] else a.freed);
      RunsOne(held.below, next);
      RunsThen(held, Unlock(Device(a.id)), [next]);
    }
  }
}
