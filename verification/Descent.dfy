/**
 No thread comes back to a script it has left: what a step gives rise to is simpler than the step, or goes on with
 a map iteration from which a key has been struck.
 */
module Descent {
  import opened Wrappers
  import opened Locking
  import opened Cluster
  import opened Permissions
  import opened Solo
  import DeviceLock

  function Height(a: Action): nat {
    match a
    case Call(op) => if op.Release? || op.Complete? then 4 else 5
    case Added(_) => 3
    case Orphans(_, _) => 3
    case Unidentified(_, _) => 3
    case Find(_, _) => 2
    case Look(_) => 2
    case List(_) => 2
    case Sweep(_, _, _) => 2
    case Expire(_, _, _, _, _) => 2
    case Update(_, _, _) => 1
    case _ => 0
  }

  /** The keys a sweep has struck; an update of a sweep counts its own key. */
  predicate Sweeps(a: Action) { a.Sweep? || a.Expire? }

  /** The same iteration, further on. */
  predicate Later(b: Action, a: Action) {
    || (Sweeps(a) && Sweeps(b) && (a.seen < b.seen || (a.Expire? && b.Sweep? && a.seen == b.seen)))
    || (a.List? && b.List? && a.seen < b.seen)
    || (a.Orphans? && b.Orphans? && a.seen < b.seen)
    || (a.Unidentified? && b.Unidentified? && a.seen < b.seen)
  }

  predicate Below(b: Action, a: Action) { Height(b) < Height(a) || Later(b, a) }

  lemma BelowIsStrict(a: Action)
    ensures !Below(a, a)
  {
  }

  lemma LaterOn(a: Action, b: Action, c: Action)
    requires Later(a, b) && Later(b, c)
    ensures Later(a, c)
  {
  }

  lemma LaterIsLevel(b: Action, a: Action)
    requires Later(b, a)
    ensures Height(b) == Height(a)
  {
  }

  lemma BelowBelow(a: Action, b: Action, c: Action)
    requires Below(a, b) && Below(b, c)
    ensures Below(a, c)
  {
    if Later(a, b) {
      LaterIsLevel(a, b);
      if Later(b, c) {
        LaterOn(a, b, c);
      }
    } else if Later(b, c) {
      LaterIsLevel(b, c);
    }
  }

  ghost predicate AllBelow(script: seq<Action>, a: Action) {
    forall b :: b in script ==> Below(b, a)
  }

  lemma ConcatBelow(x: seq<Action>, y: seq<Action>, a: Action)
    requires AllBelow(x, a) && AllBelow(y, a)
    ensures AllBelow(x + y, a)
  {
  }

  lemma SectionBelow(mode: Mode, m: Mutex, body: seq<Action>, a: Action)
    requires AllBelow(body, a) && Height(a) > 0
    ensures AllBelow(Section(mode, m, body), a)
  {
  }

  lemma PlainBelow(script: seq<Action>, a: Action)
    requires AllPlain(script) && Height(a) == 5
    ensures AllBelow(script, a)
  {
  }

  lemma DispatchBelow(job: Job, a: Action)
    requires Height(a) == 5
    ensures AllBelow(DispatchScript(job), a)
  {
    var stamp := Section(Writing, Leader, [Stamp(job.path, "busy")]);
    JobUnderQueuePlain(job);
    PlainBelow(JobUnderQueue(job), a);
    SectionBelow(Writing, Leader, [Stamp(job.path, "busy")], a);
    SectionBelow(Reading, Leader, [], a);
    ConcatBelow(stamp, [Submit(job)], a);
    ConcatBelow(Section(Reading, Leader, []), stamp + [Submit(job)], a);
    ConcatBelow(JobUnderQueue(job), Section(Reading, Leader, []) + (stamp + [Submit(job)]), a);
  }

  lemma ScriptBelow(op: Op)
    ensures AllBelow(Script(op), Call(op))
  {
    if op.Complete? {
      SectionBelow(Reading, Queue, [], Call(op));
      SectionBelow(Writing, JobMutex(op.job.id), [], Call(op));
    } else if op.Dispatch? {
      DispatchBelow(op.job, Call(op));
    } else if !op.Reserve? && !op.Release? {
      ScriptPlain(op);
      PlainBelow(Script(op), Call(op));
    }
  }

  lemma {:induction false} StampAllBelow(paths: seq<Path>, status: string, a: Action)
    requires Height(a) > 0
    ensures AllBelow(StampAll(paths, status), a)
  {
    if paths != [] {
      StampAllBelow(paths[1..], status, a);
      SectionBelow(Writing, Leader, [Stamp(paths[0], status)], a);
    }
  }

  lemma RegistryStepBelow(s: Shared, a: Action, pick: Path)
    requires a.Find? || a.Look? || a.Sweep? || a.List?
    ensures AllBelow(Expand(s, a, pick), a)
  {
    match a
    case Find(p, call) =>
    case Look(p) =>
      if p in s.registry {
        SectionBelow(Reading, Device(s.registry[p]), [], a);
      }
    case Sweep(cutoff, seen, freed) => StampAllBelow(freed, "available", a);
    case List(seen) =>
      if pick in s.registry {
        SectionBelow(Reading, Device(s.registry[pick]), [], a);
      }
  }

  lemma LeaderStepBelow(s: Shared, a: Action, pick: Path)
    requires a.Added? || a.Orphans? || a.Unidentified?
    ensures AllBelow(Expand(s, a, pick), a)
  {
    match a
    case Added(p) => SectionBelow(Writing, Registry, [Register(p)], a);
    case Orphans(seen, active) =>
    case Unidentified(seen, victims) => SectionBelow(Writing, Registry, [Unregister(pick)], a);
  }

  lemma ExpandBelow(s: Shared, a: Action, pick: Path)
    ensures AllBelow(Expand(s, a, pick), a)
  {
    if a.Call? {
      ScriptBelow(a.op);
    } else if a.Find? || a.Look? || a.Sweep? || a.List? {
      RegistryStepBelow(s, a, pick);
    } else if a.Added? || a.Orphans? || a.Unidentified? {
      LeaderStepBelow(s, a, pick);
    }
  }

  lemma AfterWriteBelow(a: Action, ok: bool)
    requires IsUpdate(a)
    ensures AllBelow(AfterWrite(a, ok), a)
  {
    if a.Update? && ok && Hooked(a.call) {
      var stamp := [Stamp(a.path, if a.call.Reserve? then "busy" else "available")];
      SectionBelow(Reading, Registry, [], a);
      SectionBelow(Writing, Leader, stamp, a);
      ConcatBelow(Section(Reading, Registry, []), Section(Writing, Leader, stamp), a);
    }
  }

  /** A step leaves the script and waits or has read a lock, or replaces its head by simpler steps. */
  lemma TakeDescends(s: Shared, t: Thread, pick: Path) returns (simpler: seq<Action>)
    requires t.script != []
    ensures var t' := Take(s, t, pick).1;
            || (t'.script == t.script && t'.phase != Fresh && t.phase != t'.phase)
            || (t'.script == simpler + t.script[1..] && AllBelow(simpler, t.script[0]))
  {
    var a := t.script[0];
    simpler := [];
    if IsUpdate(a) {
      if t.phase.Loaded? {
        var ok := DeviceLock.Apply(t.phase.lock, CallOf(a)).1;
        simpler := AfterWrite(a, ok);
        AfterWriteBelow(a, ok);
      }
    } else if !a.RLock? && !a.Lock? && !a.Unlock? {
      simpler := Expand(s, a, pick);
      ExpandBelow(s, a, pick);
    }
  }

  // A script that has been left.

  /** All of the script before its last part, which is what follows the first k steps of `left`, is below the k-th. */
  ghost predicate Past(script: seq<Action>, left: seq<Action>, k: nat)
    requires 0 < k <= |left|
  {
    exists simpler: seq<Action> :: script == simpler + left[k..] && AllBelow(simpler, left[k - 1])
  }

  ghost predicate Left(script: seq<Action>, left: seq<Action>) {
    exists k :: 0 < k <= |left| && Past(script, left, k)
  }

  lemma LeftIsOther(script: seq<Action>, left: seq<Action>)
    requires Left(script, left)
    ensures script != left
  {
    var k :| 0 < k <= |left| && Past(script, left, k);
    var simpler :| script == simpler + left[k..] && AllBelow(simpler, left[k - 1]);
    if script == left {
      assert |simpler| == k && simpler[k - 1] == script[k - 1];
      BelowIsStrict(left[k - 1]);
      assert false;
    }
  }

  lemma HeadReplaced(script: seq<Action>, simpler: seq<Action>, left: seq<Action>)
    requires left != [] && script == simpler + left[1..] && AllBelow(simpler, left[0])
    ensures Left(script, left)
  {
    assert Past(script, left, 1);
  }

  lemma PastReplaced(script: seq<Action>, simpler: seq<Action>, left: seq<Action>, k: nat)
    requires 0 < k <= |left| && script != [] && Past(script, left, k) && AllBelow(simpler, script[0])
    ensures Left(simpler + script[1..], left)
  {
    var before :| script == before + left[k..] && AllBelow(before, left[k - 1]);
    if before == [] {
      assert script == left[k..] && script[1..] == left[k + 1..];
      assert Past(simpler + script[1..], left, k + 1);
    } else {
      forall b | b in simpler + before[1..]
        ensures Below(b, left[k - 1])
      {
        if b in simpler {
          BelowBelow(b, script[0], left[k - 1]);
        }
      }
      assert simpler + script[1..] == (simpler + before[1..]) + left[k..];
      assert Past(simpler + script[1..], left, k);
    }
  }

  /** The script has been left, or its first step is half done. */
  ghost predicate Gone(t: Thread, left: seq<Action>) {
    Left(t.script, left) || (t.script == left && t.phase != Fresh)
  }

  lemma StepGoesOn(s: Shared, t: Thread, pick: Path, left: seq<Action>)
    requires t.script != [] && (t.script == left || Left(t.script, left))
    ensures Gone(Take(s, t, pick).1, left)
  {
    var simpler := TakeDescends(s, t, pick);
    var t' := Take(s, t, pick).1;
    if t'.script == simpler + t.script[1..] && AllBelow(simpler, t.script[0]) {
      if t.script == left {
        HeadReplaced(t'.script, simpler, left);
      } else {
        var k :| 0 < k <= |left| && Past(t.script, left, k);
        PastReplaced(t.script, simpler, left, k);
      }
    }
  }

  lemma {:induction false} StaysGone(s: Shared, t: Thread, picks: seq<Path>, left: seq<Action>)
    requires Gone(t, left) && Steps(s, t, picks).Some?
    ensures Gone(Steps(s, t, picks).value.1, left)
    decreases |picks|
  {
    if picks != [] {
      StepGoesOn(s, t, picks[0], left);
      StaysGone(Take(s, t, picks[0]).0, Take(s, t, picks[0]).1, picks[1..], left);
    }
  }

  /** A thread that is about to take a fresh step never comes back to where it is. */
  lemma NoReturn(s: Shared, t: Thread, picks: seq<Path>)
    requires t.phase == Fresh && Steps(s, t, picks).Some? && Steps(s, t, picks).value.1 == t
    ensures picks == []
  {
    if picks != [] {
      StepGoesOn(s, t, picks[0], t.script);
      StaysGone(Take(s, t, picks[0]).0, Take(s, t, picks[0]).1, picks[1..], t.script);
      if Left(t.script, t.script) {
        LeftIsOther(t.script, t.script);
      }
      assert false;
    }
  }
}
