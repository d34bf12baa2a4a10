/**
 What the steps of a script may be, whatever they turn into: results are sent by workers and jobs submitted by
 callers only; where asked for, every reservation has a name and every lock update is of a lock already made.
 */
module Permissions {
  import opened Wrappers
  import opened Locking
  import opened Cluster
  import DeviceLock

  datatype Rules = Rules(role: Role, named: bool, locks: Option<nat>)

  predicate Anonymous(call: DeviceLock.Call) { call.Reserve? && call.owner == "" }

  predicate Permitted(rules: Rules, a: Action) {
    && (a.Send? ==> rules.role == Worker)
    && (a.Submit? || (a.Call? && a.op.Dispatch?) ==> rules.role == Caller)
    && (rules.named ==> !(a.Call? && a.op.Reserve? && a.op.owner == ""))
    && (rules.named ==> !(a.Find? && Anonymous(a.call)) && !(a.Update? && Anonymous(a.call)))
    && (rules.locks.Some? && IsUpdate(a) ==> Target(a) < rules.locks.value)
  }

  ghost predicate AllPermitted(rules: Rules, script: seq<Action>) {
    forall a :: a in script ==> Permitted(rules, a)
  }

  /** A step that any rules permit. */
  predicate Plain(a: Action) {
    && !a.Send? && !a.Submit? && !IsUpdate(a) && !(a.Find? && Anonymous(a.call))
    && (a.Call? ==> a.op.Release? || a.op.Complete?)
  }

  ghost predicate AllPlain(script: seq<Action>) {
    forall a :: a in script ==> Plain(a)
  }

  lemma PlainIsPermitted(rules: Rules, script: seq<Action>)
    requires AllPlain(script)
    ensures AllPermitted(rules, script)
  {
  }

  lemma ConcatPermitted(rules: Rules, a: seq<Action>, b: seq<Action>)
    requires AllPermitted(rules, a) && AllPermitted(rules, b)
    ensures AllPermitted(rules, a + b)
  {
  }

  lemma PlainConcat(a: seq<Action>, b: seq<Action>)
    requires AllPlain(a) && AllPlain(b)
    ensures AllPlain(a + b)
  {
  }

  lemma PlainSection(mode: Mode, m: Mutex, body: seq<Action>)
    requires AllPlain(body)
    ensures AllPlain(Section(mode, m, body))
  {
  }

  lemma {:induction false} AdoptPlain(node: string, devices: seq<(Path, string)>)
    ensures AllPlain(Adopt(node, devices))
  {
    if devices != [] {
      AdoptPlain(node, devices[1..]);
      PlainSection(Writing, Registry, [Register(devices[0].0)]);
      PlainConcat(Section(Writing, Registry, [Register(devices[0].0)]), Adopt(node, devices[1..]));
    }
  }

  lemma {:induction false} StampAllPlain(paths: seq<Path>, status: string)
    ensures AllPlain(StampAll(paths, status))
  {
    if paths != [] {
      StampAllPlain(paths[1..], status);
      PlainSection(Writing, Leader, [Stamp(paths[0], status)]);
    }
  }

  lemma {:induction false} ReadJobsPlain(jobs: seq<Job>)
    ensures AllPlain(ReadJobs(jobs))
  {
    if jobs != [] {
      ReadJobsPlain(jobs[1..]);
      PlainSection(Reading, JobMutex(jobs[0].id), []);
    }
  }

  lemma JobUnderQueuePlain(job: Job)
    ensures AllPlain(JobUnderQueue(job))
  {
    PlainSection(Writing, JobMutex(job.id), []);
    PlainSection(Writing, Queue, Section(Writing, JobMutex(job.id), []));
  }

  lemma MirrorPlain(powerManaged: bool)
    ensures AllPlain(Mirror(powerManaged))
  {
    PlainSection(Writing, Sleeper, []);
  }

  lemma AddedPlain(path: Path, powerManaged: bool)
    ensures AllPlain(Script(DeviceAdded(path, powerManaged)))
  {
    MirrorPlain(powerManaged);
    PlainConcat([Added(path)], Mirror(powerManaged));
    PlainSection(Writing, Leader, [Added(path)] + Mirror(powerManaged));
  }

  lemma RemovedPlain(path: Path, powerManaged: bool)
    ensures AllPlain(RemovedScript(path, powerManaged))
  {
    var a := if powerManaged then Stamp(path, "sleeping") else Drop(path);
    MirrorPlain(powerManaged);
    PlainConcat([a], Mirror(powerManaged));
    PlainSection(Writing, Leader, [a] + Mirror(powerManaged));
  }

  lemma HeartbeatPlain(node: string, devices: seq<(Path, string)>)
    ensures AllPlain(HeartbeatScript(node, devices))
  {
    var last := [KeepOnly(node, set d | d in devices :: d.0)];
    AdoptPlain(node, devices);
    PlainConcat(Adopt(node, devices), last);
    PlainSection(Writing, Leader, Adopt(node, devices) + last);
  }

  lemma OrphansPlain(jobs: seq<Job>, active: set<Path>)
    ensures AllPlain(OrphansScript(jobs, active))
  {
    var sweep := Section(Writing, Leader, [Orphans({}, active)]);
    ReadJobsPlain(jobs);
    PlainSection(Writing, Leader, [Orphans({}, active)]);
    PlainConcat(ReadJobs(jobs), sweep);
    PlainSection(Reading, Queue, []);
    PlainConcat(Section(Reading, Queue, []), ReadJobs(jobs) + sweep);
  }

  lemma SleepSweepPlain(down: seq<Path>)
    ensures AllPlain(Script(SleepSweep(down)))
  {
    StampAllPlain(down, "sleeping");
    PlainSection(Writing, Sleeper, []);
    PlainConcat(Section(Writing, Sleeper, []), StampAll(down, "sleeping"));
  }

  lemma CancelPlain(job: Job)
    ensures AllPlain(CancelScript(job))
  {
    var release := [Call(Release(job.path, job.id))];
    JobUnderQueuePlain(job);
    PlainConcat(JobUnderQueue(job), release);
    PlainSection(Reading, JobMutex(job.id), []);
    PlainConcat(Section(Reading, JobMutex(job.id), []), JobUnderQueue(job) + release);
    PlainSection(Reading, Queue, []);
    PlainConcat(Section(Reading, Queue, []), Section(Reading, JobMutex(job.id), []) + (JobUnderQueue(job) + release));
  }

  lemma CompletePlain(job: Job)
    ensures AllPlain(Script(Complete(job)))
  {
    PlainSection(Reading, Queue, []);
    PlainSection(Writing, JobMutex(job.id), []);
  }

  lemma ShortScriptPlain(op: Op)
    requires op.States? || op.SetHooks? || op.CleanupUnidentified? || op.SetStatus? || op.Enqueue?
    ensures AllPlain(Script(op))
  {
    match op
    case States => PlainSection(Reading, Registry, [List({})]);
    case SetHooks => PlainSection(Writing, Registry, []);
    case CleanupUnidentified(victims) => PlainSection(Writing, Leader, [Unidentified({}, victims)]);
    case SetStatus(p, status) => PlainSection(Writing, Leader, [Stamp(p, status)]);
    case Enqueue(job) => PlainSection(Writing, Queue, []);
  }

  /** Every call but a dispatch and a reservation in an empty name. */
  lemma ScriptPlain(op: Op)
    requires !op.Dispatch? && !(op.Reserve? && op.owner == "")
    ensures AllPlain(Script(op))
  {
    match op
    case Reserve(p, owner, now) =>
    case Release(p, owner) =>
    case Inspect(p) =>
    case CleanupStale(cutoff) =>
    case DeviceAdded(p, powerManaged) => AddedPlain(p, powerManaged);
    case DeviceRemoved(p, powerManaged) => RemovedPlain(p, powerManaged);
    case Heartbeat(node, devices) => HeartbeatPlain(node, devices);
    case CleanupOrphans(jobs, active) => OrphansPlain(jobs, active);
    case SleepSweep(down) => SleepSweepPlain(down);
    case Cancel(job) => CancelPlain(job);
    case Complete(job) => CompletePlain(job);
    case _ => ShortScriptPlain(op);
  }

  lemma DispatchPermitted(rules: Rules, job: Job)
    requires rules.role == Caller
    ensures AllPermitted(rules, DispatchScript(job))
  {
    var stamp := Section(Writing, Leader, [Stamp(job.path, "busy")]);
    JobUnderQueuePlain(job);
    PlainSection(Writing, Leader, [Stamp(job.path, "busy")]);
    PlainSection(Reading, Leader, []);
    PlainIsPermitted(rules, JobUnderQueue(job));
    PlainIsPermitted(rules, stamp);
    PlainIsPermitted(rules, Section(Reading, Leader, []));
    ConcatPermitted(rules, stamp, [Submit(job)]);
    ConcatPermitted(rules, Section(Reading, Leader, []), stamp + [Submit(job)]);
    ConcatPermitted(rules, JobUnderQueue(job), Section(Reading, Leader, []) + (stamp + [Submit(job)]));
  }

  lemma ScriptPermitted(rules: Rules, op: Op)
    requires Permitted(rules, Call(op))
    ensures AllPermitted(rules, Script(op))
  {
    if op.Dispatch? {
      DispatchPermitted(rules, op.job);
    } else if !(op.Reserve? && op.owner == "") {
      ScriptPlain(op);
      PlainIsPermitted(rules, Script(op));
    }
  }

  lemma WorkPermitted(rules: Rules, job: Job)
    requires rules.role == Worker
    ensures AllPermitted(rules, Work(job))
  {
    var section, look := Section(Writing, JobMutex(job.id), []), Section(Reading, Leader, []);
    PlainSection(Writing, JobMutex(job.id), []);
    PlainSection(Reading, Leader, []);
    PlainIsPermitted(rules, section);
    PlainIsPermitted(rules, look);
    ConcatPermitted(rules, section, [Send(job)]);
    ConcatPermitted(rules, look, section + [Send(job)]);
    ConcatPermitted(rules, section, look + (section + [Send(job)]));
  }

  lemma SettlePlain(job: Job)
    ensures AllPlain(Settle(job))
  {
    var section := Section(Writing, Sleeper, []);
    PlainSection(Writing, Sleeper, []);
    PlainConcat(section, section);
    PlainConcat([Call(Complete(job))], section + section);
    PlainConcat([Call(Release(job.path, job.id))], [Call(Complete(job))] + (section + section));
  }

  /** The locks of the registry are made already. */
  ghost predicate Made(rules: Rules, s: Shared) {
    rules.locks.Some? ==> forall p :: p in s.registry ==> s.registry[p] < rules.locks.value
  }

  lemma RegistryStepPermitted(rules: Rules, s: Shared, a: Action, pick: Path)
    requires Permitted(rules, a) && Made(rules, s) && (a.Find? || a.Look? || a.Sweep? || a.List?)
    ensures AllPermitted(rules, Expand(s, a, pick))
  {
    match a
    case Find(p, call) =>
    case Look(p) =>
      if p in s.registry {
        PlainSection(Reading, Device(s.registry[p]), []);
      }
      PlainIsPermitted(rules, Expand(s, a, pick));
    case Sweep(cutoff, seen, freed) =>
      StampAllPlain(freed, "available");
    case List(seen) =>
      if pick in s.registry {
        PlainSection(Reading, Device(s.registry[pick]), []);
      }
      PlainIsPermitted(rules, Expand(s, a, pick));
  }

  lemma LeaderStepPlain(s: Shared, a: Action, pick: Path)
    requires a.Added? || a.Orphans? || a.Unidentified?
    ensures AllPlain(Expand(s, a, pick))
  {
    match a
    case Added(p) => PlainSection(Writing, Registry, [Register(p)]);
    case Orphans(seen, active) =>
    case Unidentified(seen, victims) => PlainSection(Writing, Registry, [Unregister(pick)]);
  }

  lemma ExpandPermitted(rules: Rules, s: Shared, a: Action, pick: Path)
    requires Permitted(rules, a) && Made(rules, s)
    ensures AllPermitted(rules, Expand(s, a, pick))
  {
    if a.Call? {
      ScriptPermitted(rules, a.op);
    } else if a.Find? || a.Look? || a.Sweep? || a.List? {
      RegistryStepPermitted(rules, s, a, pick);
    } else if a.Added? || a.Orphans? || a.Unidentified? {
      LeaderStepPlain(s, a, pick);
      PlainIsPermitted(rules, Expand(s, a, pick));
    }
  }

  lemma AfterWritePlain(a: Action, ok: bool)
    requires IsUpdate(a)
    ensures AllPlain(AfterWrite(a, ok))
  {
    if a.Update? && ok && Hooked(a.call) {
      var stamp := [Stamp(a.path, if a.call.Reserve? then "busy" else "available")];
      PlainSection(Reading, Registry, []);
      PlainSection(Writing, Leader, stamp);
      PlainConcat(Section(Reading, Registry, []), Section(Writing, Leader, stamp));
    }
  }

  lemma TakePermitted(rules: Rules, s: Shared, t: Thread, pick: Path)
    requires rules.role == t.role && AllPermitted(rules, t.script) && Made(rules, s)
    ensures AllPermitted(rules, Take(s, t, pick).1.script)
  {
    if t.script == [] {
      if t.role.Worker? && s.jobs != [] {
        WorkPermitted(rules, s.jobs[0]);
      } else if t.role.Handler? && s.results != [] {
        SettlePlain(s.results[0]);
        PlainIsPermitted(rules, Settle(s.results[0]));
      }
    } else {
      var a, rest := t.script[0], t.script[1..];
      assert t.script == [a] + rest && a in t.script;
      if IsUpdate(a) && t.phase.Loaded? {
        var ok := DeviceLock.Apply(t.phase.lock, CallOf(a)).1;
        AfterWritePlain(a, ok);
        PlainIsPermitted(rules, AfterWrite(a, ok));
        ConcatPermitted(rules, AfterWrite(a, ok), rest);
      } else if !a.RLock? && !a.Lock? && !a.Unlock? && !IsUpdate(a) {
        ExpandPermitted(rules, s, a, pick);
        ConcatPermitted(rules, Expand(s, a, pick), rest);
      }
    }
  }
}
