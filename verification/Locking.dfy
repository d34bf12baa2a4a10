/**
 Mutexes, threads and the scripts they run. A script is what is left of a thread's calls, in small steps; a
 static check says which mutexes a script takes and gives back, and in which order.
 */
module Locking {
  import opened Wrappers
  import DeviceLock

  type Path = string

  datatype Job = Job(id: string, path: Path)

  /** The mutexes of the leader, its registry, a device lock, the job queue, a job and the sleep manager. */
  datatype Mutex = Leader | Registry | Device(id: nat) | Queue | JobMutex(job: string) | Sleeper

  datatype Mode = Reading | Writing

  /** The mutexes a thread holds, the last one taken on top. */
  datatype Held = Free | Holding(mutex: Mutex, mode: Mode, below: Held)

  /** The order in which nested mutexes are taken. */
  function Rank(m: Mutex): nat {
    match m
    case Leader => 0
    case Registry => 1
    case Device(_) => 2
    case Queue => 3
    case JobMutex(_) => 4
    case Sleeper => 5
  }

  /** Calls on the registry, events the leader handles, and the steps of a job. */
  datatype Op =
    | Reserve(path: Path, owner: string, now: int)
    | Release(path: Path, owner: string)
    | CleanupStale(cutoff: int)
    | Inspect(path: Path)
    | States
    | SetHooks
    | DeviceAdded(path: Path, powerManaged: bool)
    | DeviceRemoved(path: Path, powerManaged: bool)
    | Heartbeat(node: string, devices: seq<(Path, string)>)
    | CleanupOrphans(jobs: seq<Job>, active: set<Path>)
    | CleanupUnidentified(victims: set<Path>)
    | SetStatus(path: Path, status: string)
    | SleepSweep(down: seq<Path>)
    | Enqueue(job: Job)
    | Cancel(job: Job)
    | Complete(job: Job)
    | Dispatch(job: Job)

  datatype Action =
    | RLock(mutex: Mutex)
    | Lock(mutex: Mutex)
    | Unlock(mutex: Mutex)
    | Call(op: Op)
    | Find(path: Path, call: DeviceLock.Call)
    | Look(path: Path)
    | Update(id: nat, path: Path, call: DeviceLock.Call)
    | Expire(id: nat, path: Path, cutoff: int, seen: set<Path>, freed: seq<Path>)
    | Sweep(cutoff: int, seen: set<Path>, freed: seq<Path>)
    | List(seen: set<Path>)
    | Register(path: Path)
    | Unregister(path: Path)
    | Added(path: Path)
    | Stamp(path: Path, status: string)
    | Put(path: Path, node: string, status: string)
    | Drop(path: Path)
    | KeepOnly(node: string, paths: set<Path>)
    | Orphans(seen: set<Path>, active: set<Path>)
    | Unidentified(seen: set<Path>, victims: set<Path>)
    | Submit(job: Job)
    | Send(job: Job)

  /** Whether a mutex may be taken on top of those held. */
  predicate CanTake(held: Held, m: Mutex) {
    held.Free? || Rank(held.mutex) < Rank(m)
  }

  predicate Top(held: Held, m: Mutex, mode: Mode) {
    held.Holding? && held.mutex == m && held.mode == mode
  }

  /** The calls after which a status hook runs, which takes the leader's mutex. */
  predicate Hooked(call: DeviceLock.Call) {
    call.Reserve? || call.Release?
  }

  /** What must be held for a step. */
  predicate Fits(held: Held, a: Action) {
    match a
    case RLock(m) => CanTake(held, m)
    case Lock(m) => CanTake(held, m)
    case Unlock(m) => held.Holding? && held.mutex == m
    case Call(_) => held.Free?
    case Find(_, call) => Top(held, Registry, Reading)
      && (if Hooked(call) then held.below.Free? else call.Force? && CanTake(held.below, Registry))
    case Look(_) => Top(held, Registry, Reading) && CanTake(held.below, Registry)
    case Update(id, _, call) => Top(held, Device(id), Writing)
      && (if Hooked(call) then held.below.Free? else call.Force?)
    case Expire(id, _, _, _, _) => Top(held, Device(id), Writing) && Top(held.below, Registry, Writing)
      && held.below.below.Free?
    case Sweep(_, _, _) => Top(held, Registry, Writing) && held.below.Free?
    case List(_) => Top(held, Registry, Reading)
    case Register(_) => Top(held, Registry, Writing)
    case Unregister(_) => Top(held, Registry, Writing)
    case Added(_) => Top(held, Leader, Writing)
    case Stamp(_, _) => Top(held, Leader, Writing)
    case Put(_, _, _) => Top(held, Leader, Writing)
    case Drop(_) => Top(held, Leader, Writing)
    case KeepOnly(_, _) => Top(held, Leader, Writing)
    case Orphans(_, _) => Top(held, Leader, Writing)
    case Unidentified(_, _) => Top(held, Leader, Writing)
    case Submit(_) => held.Free?
    case Send(_) => held.Free?
  }

  /** What is held once a step and everything it gives rise to is done. */
  function After(held: Held, a: Action): Held
    requires Fits(held, a)
  {
    match a
    case RLock(m) => Holding(m, Reading, held)
    case Lock(m) => Holding(m, Writing, held)
    case Unlock(_) => held.below
    case Find(_, _) => held.below
    case Look(_) => held.below
    case Update(_, _, _) => held.below
    case Expire(_, _, _, _, _) => Free
    case Sweep(_, _, _) => Free
    case _ => held
  }

  function Runs(held: Held, script: seq<Action>): Option<Held>
    decreases |script|
  {
    if script == [] then Some(held)
    else if !Fits(held, script[0]) then None
    else Runs(After(held, script[0]), script[1..])
  }

  lemma {:induction false} RunsConcat(held: Held, a: seq<Action>, b: seq<Action>)
    requires Runs(held, a).Some?
    ensures Runs(held, a + b) == Runs(Runs(held, a).value, b)
    decreases |a|
  {
    if a == [] {
      assert a + b == b;
    } else {
      RunsConcat(After(held, a[0]), a[1..], b);
      assert (a + b)[1..] == a[1..] + b;
    }
  }

  lemma RunsOne(held: Held, a: Action)
    requires Fits(held, a)
    ensures Runs(held, [a]) == Some(After(held, a))
  {
    assert [a][1..] == [];
  }

  lemma RunsThen(held: Held, a: Action, rest: seq<Action>)
    requires Fits(held, a)
    ensures Runs(held, [a] + rest) == Runs(After(held, a), rest)
  {
    assert ([a] + rest)[1..] == rest;
  }

  /** A critical section. */
  function Section(mode: Mode, m: Mutex, body: seq<Action>): seq<Action> {
    [if mode == Reading then RLock(m) else Lock(m)] + (body + [Unlock(m)])
  }

  lemma SectionRuns(held: Held, mode: Mode, m: Mutex, body: seq<Action>)
    requires CanTake(held, m) && Runs(Holding(m, mode, held), body) == Some(Holding(m, mode, held))
    ensures Runs(held, Section(mode, m, body)) == Some(held)
  {
    var inner := Holding(m, mode, held);
    RunsOne(inner, Unlock(m));
    RunsConcat(inner, body, [Unlock(m)]);
    RunsThen(held, if mode == Reading then RLock(m) else Lock(m), body + [Unlock(m)]);
  }

  lemma ShortSection(held: Held, mode: Mode, m: Mutex)
    requires CanTake(held, m)
    ensures Runs(held, Section(mode, m, [])) == Some(held)
  {
    SectionRuns(held, mode, m, []);
  }

  lemma OneStepSection(held: Held, mode: Mode, m: Mutex, a: Action)
    requires CanTake(held, m) && Fits(Holding(m, mode, held), a)
             && After(Holding(m, mode, held), a) == Holding(m, mode, held)
    ensures Runs(held, Section(mode, m, [a])) == Some(held)
  {
    RunsOne(Holding(m, mode, held), a);
    SectionRuns(held, mode, m, [a]);
  }

  lemma TwoParts(held: Held, a: seq<Action>, b: seq<Action>)
    requires Runs(held, a) == Some(held) && Runs(held, b) == Some(held)
    ensures Runs(held, a + b) == Some(held)
  {
    RunsConcat(held, a, b);
  }
}
