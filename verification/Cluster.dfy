/**
 The leader's threads around the device registry, in small steps: every mutex operation, every read and every
 write of a shared device lock is a step of its own, and threads interleave freely.
 (internal/cluster/device_lock.go, leader.go, leader_jobs.go, executor.go)
 */
module Cluster {
  import opened Locking
  import opened History
  import DeviceLock

  /** Capacity of the executor's channels. */
  const CAPACITY: nat := 100

  const SELF: string := "leader"

  datatype Record = Record(node: string, status: string)

  /** The data the threads share; the trace and the lists of submitted and settled jobs only record what happened. */
  datatype Shared = Shared(
    registry: map<Path, nat>,
    nextLock: nat,
    locks: map<nat, DeviceLock.Lock>,
    devices: map<Path, Record>,
    jobs: seq<Job>,
    results: seq<Job>,
    trace: seq<Entry>,
    submitted: seq<Job>,
    settled: seq<Job>
  )

  datatype Role = Caller | Worker | Handler

  /** A writer that waits for readers to leave, or a lock read and not yet written. */
  datatype Phase = Fresh | Announced | Loaded(lock: DeviceLock.Lock)

  datatype Thread = Thread(role: Role, script: seq<Action>, held: Held, phase: Phase)

  datatype Cluster = Cluster(shared: Shared, threads: seq<Thread>)

  /** A lock object nothing has been done to is free. */
  function LockAt(locks: map<nat, DeviceLock.Lock>, id: nat): DeviceLock.Lock {
    if id in locks then locks[id] else DeviceLock.FREE
  }

  // What the calls and the steps of a thread expand to.

  function Script(op: Op): seq<Action> {
    match op
    case Reserve(p, owner, now) => [RLock(Registry)] + [Find(p, DeviceLock.Call.Reserve(owner, now))]
    case Release(p, owner) => [RLock(Registry)] + [Find(p, DeviceLock.Call.Release(owner))]
    case CleanupStale(cutoff) => [Lock(Registry)] + [Sweep(cutoff, {}, [])]
    case Inspect(p) => [RLock(Registry)] + [Look(p)]
    case States => Section(Reading, Registry, [List({})])
    case SetHooks => Section(Writing, Registry, [])
    case DeviceAdded(p, powerManaged) => Section(Writing, Leader, [Added(p)] + Mirror(powerManaged))
    case DeviceRemoved(p, powerManaged) => RemovedScript(p, powerManaged)
    case Heartbeat(node, devices) => HeartbeatScript(node, devices)
    case CleanupOrphans(jobs, active) => OrphansScript(jobs, active)
    case CleanupUnidentified(victims) => Section(Writing, Leader, [Unidentified({}, victims)])
    case SetStatus(p, status) => Section(Writing, Leader, [Stamp(p, status)])
    case SleepSweep(down) => Section(Writing, Sleeper, []) + StampAll(down, "sleeping")
    case Enqueue(job) => Section(Writing, Queue, [])
    case Cancel(job) => CancelScript(job)
    case Complete(job) => Section(Reading, Queue, []) + Section(Writing, JobMutex(job.id), [])
    case Dispatch(job) => DispatchScript(job)
  }

  function RemovedScript(path: Path, powerManaged: bool): seq<Action> {
    Section(Writing, Leader, [if powerManaged then Stamp(path, "sleeping") else Drop(path)] + Mirror(powerManaged))
  }

  function HeartbeatScript(node: string, devices: seq<(Path, string)>): seq<Action> {
    Section(Writing, Leader, Adopt(node, devices) + [KeepOnly(node, set d | d in devices :: d.0)])
  }

  /** The jobs are listed and each is read; then the leader's table is gone through. */
  function OrphansScript(jobs: seq<Job>, active: set<Path>): seq<Action> {
    Section(Reading, Queue, []) + (ReadJobs(jobs) + Section(Writing, Leader, [Orphans({}, active)]))
  }

  function CancelScript(job: Job): seq<Action> {
    Section(Reading, Queue, []) +
    (Section(Reading, JobMutex(job.id), []) + (JobUnderQueue(job) + [Call(Release(job.path, job.id))]))
  }

  function DispatchScript(job: Job): seq<Action> {
    JobUnderQueue(job) +
    (Section(Reading, Leader, []) + (Section(Writing, Leader, [Stamp(job.path, "busy")]) + [Submit(job)]))
  }

  function ReadJobs(jobs: seq<Job>): seq<Action> {
    if jobs == [] then [] else Section(Reading, JobMutex(jobs[0].id), []) + ReadJobs(jobs[1..])
  }

  function Mirror(powerManaged: bool): seq<Action> {
    if powerManaged then Section(Writing, Sleeper, []) else []
  }

  function JobUnderQueue(job: Job): seq<Action> {
    Section(Writing, Queue, Section(Writing, JobMutex(job.id), []))
  }

  function Adopt(node: string, devices: seq<(Path, string)>): seq<Action> {
    if devices == [] then []
    else
      [Put(devices[0].0, node, devices[0].1)] +
      (Section(Writing, Registry, [Register(devices[0].0)]) + Adopt(node, devices[1..]))
  }

  function StampAll(paths: seq<Path>, status: string): seq<Action> {
    if paths == [] then [] else Section(Writing, Leader, [Stamp(paths[0], status)]) + StampAll(paths[1..], status)
  }

  /** A worker runs a job, looking the device up in the leader's table first, and sends its result. */
  function Work(job: Job): seq<Action> {
    Section(Writing, JobMutex(job.id), []) +
    (Section(Reading, Leader, []) + (Section(Writing, JobMutex(job.id), []) + [Send(job)]))
  }

  /** The result handler releases the device in the job's name and completes the job. */
  function Settle(job: Job): seq<Action> {
    [Call(Release(job.path, job.id))] +
    ([Call(Complete(job))] + (Section(Writing, Sleeper, []) + Section(Writing, Sleeper, [])))
  }

  /** The status hook, called with the registry's mutex free again. */
  function Hook(call: DeviceLock.Call, path: Path): seq<Action> {
    if call.Reserve? then Section(Reading, Registry, []) + Section(Writing, Leader, [Stamp(path, "busy")])
    else if call.Release? then Section(Reading, Registry, []) + Section(Writing, Leader, [Stamp(path, "available")])
    else []
  }

  /**
   What a step that is neither a mutex operation nor a lock update turns into; `pick` is the next key of a map
   iteration.
   */
  function Expand(s: Shared, a: Action, pick: Path): seq<Action> {
    match a
    case Call(op) => Script(op)
    case Find(p, call) =>
      [Unlock(Registry)] +
      (if p in s.registry then [Lock(Device(s.registry[p]))] + [Update(s.registry[p], p, call)] else [])
    case Look(p) =>
      [Unlock(Registry)] + (if p in s.registry then Section(Reading, Device(s.registry[p]), []) else [])
    case Sweep(cutoff, seen, freed) =>
      if pick in s.registry && pick !in seen then
        [Lock(Device(s.registry[pick]))] + [Expire(s.registry[pick], pick, cutoff, seen + {pick}, freed)]
      else
        [Unlock(Registry)] + StampAll(freed, "available")
    case List(seen) =>
      if pick in s.registry && pick !in seen then
        Section(Reading, Device(s.registry[pick]), []) + [List(seen + {pick})]
      else []
    case Added(p) =>
      if p in s.devices then [RLock(Registry)] + [Find(p, DeviceLock.Force)]
      else Section(Writing, Registry, [Register(p)])
    case Orphans(seen, active) =>
      if pick in s.devices && pick !in seen then
        (if s.devices[pick].status == "busy" && pick !in active then
           [RLock(Registry)] + [Find(pick, DeviceLock.Force)]
         else [])
        + [Orphans(seen + {pick}, active)]
      else []
    case Unidentified(seen, victims) =>
      if pick in s.devices && pick !in seen then
        (if pick in victims then Section(Writing, Registry, [Unregister(pick)]) else [])
        + [Unidentified(seen + {pick}, victims)]
      else []
    case _ => []
  }

  /** What such a step does to the shared data. */
  function Effect(s: Shared, a: Action, pick: Path): Shared {
    match a
    case Register(p) =>
      if p in s.registry then s
      else s.(registry := s.registry[p := s.nextLock], nextLock := s.nextLock + 1)
    case Unregister(p) => s.(registry := s.registry - {p})
    case Added(p) => s.(devices := s.devices[p := Record(SELF, "available")])
    case Stamp(p, status) =>
      if p in s.devices then s.(devices := s.devices[p := s.devices[p].(status := status)]) else s
    case Put(p, node, status) => s.(devices := s.devices[p := Record(node, status)])
    case Drop(p) => s.(devices := s.devices - {p})
    case KeepOnly(node, paths) =>
      s.(devices := map p | p in s.devices && (s.devices[p].node != node || p in paths) :: s.devices[p])
    case Orphans(seen, active) =>
      if pick in s.devices && pick !in seen && s.devices[pick].status == "busy" && pick !in active then
        s.(devices := s.devices[pick := s.devices[pick].(status := "available")])
      else s
    case Unidentified(seen, victims) =>
      if pick in s.devices && pick !in seen && pick in victims then s.(devices := s.devices - {pick}) else s
    case Submit(job) => s.(jobs := s.jobs + [job], submitted := s.submitted + [job])
    case Send(job) => s.(results := s.results + [job])
    case _ => s
  }

  // Updates of device locks.

  predicate IsUpdate(a: Action) { a.Update? || a.Expire? }

  function Target(a: Action): nat
    requires IsUpdate(a)
  {
    a.id
  }

  function CallOf(a: Action): DeviceLock.Call
    requires IsUpdate(a)
  {
    if a.Update? then a.call else DeviceLock.Call.Expire(a.cutoff)
  }

  /** The write of an update, computed from the value that was read. */
  function Written(s: Shared, a: Action, read: DeviceLock.Lock): Shared
    requires IsUpdate(a)
  {
    var event := DeviceLock.EventOf(read, CallOf(a));
    s.(locks := s.locks[Target(a) := DeviceLock.Apply(read, CallOf(a)).0],
       trace := s.trace + if event.Some? then [Entry(Target(a), event.value)] else [])
  }

  function AfterWrite(a: Action, ok: bool): seq<Action>
    requires IsUpdate(a)
  {
    [Unlock(Device(Target(a)))] +
    if a.Update? then (if ok then Hook(a.call, a.path) else [])
    else [Sweep(a.cutoff, a.seen, if ok then a.freed + [a.path] else a.freed)]
  }

  // Steps.

  /** The thread has the mutex for itself, or is the writer that gets it next. */
  predicate Claims(t: Thread, m: Mutex) {
    InMode(t.held, m, Writing) || (t.phase.Announced? && t.script != [] && t.script[0] == Lock(m))
  }

  predicate InMode(held: Held, m: Mutex, mode: Mode) {
    held.Holding? && ((held.mutex == m && held.mode == mode) || InMode(held.below, m, mode))
  }

  predicate Reads(t: Thread, m: Mutex) { InMode(t.held, m, Reading) }

  predicate Unclaimed(ts: seq<Thread>, i: nat, m: Mutex) {
    forall j :: 0 <= j < |ts| && j != i ==> !Claims(ts[j], m)
  }

  predicate Unread(ts: seq<Thread>, i: nat, m: Mutex) {
    forall j :: 0 <= j < |ts| && j != i ==> !Reads(ts[j], m)
  }

  predicate Iterates(a: Action) { a.Sweep? || a.List? || a.Orphans? || a.Unidentified? }

  function Seen(a: Action): set<Path>
    requires Iterates(a)
  {
    a.seen
  }

  function Keys(s: Shared, a: Action): set<Path> {
    if a.Sweep? || a.List? then s.registry.Keys else s.devices.Keys
  }

  /** Thread i can take a step, in which a map iteration goes on with the key `pick`. */
  predicate Enabled(s: Cluster, i: nat, pick: Path) {
    i < |s.threads| &&
    var t := s.threads[i];
    if t.script == [] then (t.role.Worker? && s.shared.jobs != []) || (t.role.Handler? && s.shared.results != [])
    else
      var a := t.script[0];
      match a
      case RLock(m) => Unclaimed(s.threads, i, m)
      case Lock(m) => if t.phase.Announced? then Unread(s.threads, i, m) else Unclaimed(s.threads, i, m)
      case Submit(_) => |s.shared.jobs| < CAPACITY
      case Send(_) => |s.shared.results| < CAPACITY
      case _ => Iterates(a) && !(Keys(s.shared, a) <= Seen(a)) ==> pick in Keys(s.shared, a) - Seen(a)
  }

  function Below(held: Held): Held { if held.Holding? then held.below else Free }

  /** The step of one thread: the shared data and the thread afterwards. */
  function Take(s: Shared, t: Thread, pick: Path): (Shared, Thread) {
    if t.script == [] then
      if t.role.Worker? && s.jobs != [] then (s.(jobs := s.jobs[1..]), t.(script := Work(s.jobs[0])))
      else if t.role.Handler? && s.results != [] then
        (s.(results := s.results[1..], settled := s.settled + [s.results[0]]), t.(script := Settle(s.results[0])))
      else (s, t)
    else
      var a, rest := t.script[0], t.script[1..];
      match a
      case RLock(m) => (s, t.(script := rest, held := Holding(m, Reading, t.held)))
      case Lock(m) =>
        if t.phase.Announced? then (s, t.(script := rest, held := Holding(m, Writing, t.held), phase := Fresh))
        else (s, t.(phase := Announced))
      case Unlock(_) => (s, t.(script := rest, held := Below(t.held)))
      case _ =>
        if !IsUpdate(a) then (Effect(s, a, pick), t.(script := Expand(s, a, pick) + rest))
        else if !t.phase.Loaded? then (s, t.(phase := Loaded(LockAt(s.locks, Target(a)))))
        else
          (Written(s, a, t.phase.lock),
           t.(script := AfterWrite(a, DeviceLock.Apply(t.phase.lock, CallOf(a)).1) + rest, phase := Fresh))
  }

  function Next(s: Cluster, i: nat, pick: Path): Cluster
    requires i < |s.threads|
  {
    var after := Take(s.shared, s.threads[i], pick);
    Cluster(after.0, s.threads[i := after.1])
  }

  /** Threads that make calls, at least one worker and a result handler; nothing reserved, registered or queued. */
  ghost predicate Initial(s: Cluster) {
    && s.shared == Shared(map[], 0, map[], s.shared.devices, [], [], [], [], [])
    && (forall i :: 0 <= i < |s.threads| ==>
          var t := s.threads[i];
          t.held == Free && t.phase == Fresh && (t.role != Caller ==> t.script == [])
          && forall k :: 0 <= k < |t.script| ==> t.script[k].Call?)
    && (exists i :: 0 <= i < |s.threads| && s.threads[i].role == Worker)
    && (exists i :: 0 <= i < |s.threads| && s.threads[i].role == Handler)
  }

  ghost predicate Follows(s: Cluster, after: Cluster) {
    exists i: nat, pick: Path :: Enabled(s, i, pick) && after == Next(s, i, pick)
  }

  /** A run: each state follows from the one before by a step of some thread. */
  ghost predicate Run(states: seq<Cluster>) {
    && states != [] && Initial(states[0])
    && forall k :: 0 < k < |states| ==> Follows(states[k - 1], states[k])
  }
}
