/** A thread that runs without interruption: what its small steps add up to. */
module Solo {
  import opened Wrappers
  import opened Locking
  import opened Cluster
  import DeviceLock

  predicate CanStep(s: Shared, t: Thread, pick: Path) {
    t.script != [] &&
    var a := t.script[0];
    && (a.Submit? ==> |s.jobs| < CAPACITY) && (a.Send? ==> |s.results| < CAPACITY)
    && (Iterates(a) && !(Keys(s, a) <= Seen(a)) ==> pick in Keys(s, a) - Seen(a))
  }

  /** What the steps of the thread come to, the map iterations among them going on with the given keys. */
  function Steps(s: Shared, t: Thread, picks: seq<Path>): Option<(Shared, Thread)>
    decreases |picks|
  {
    if picks == [] then Some((s, t))
    else if !CanStep(s, t, picks[0]) then None
    else
      var (s', t') := Take(s, t, picks[0]);
      Steps(s', t', picks[1..])
  }

  lemma StepsAfter(s: Shared, t: Thread, pick: Path, picks: seq<Path>)
    requires CanStep(s, t, pick)
    ensures Steps(s, t, [pick] + picks) == Steps(Take(s, t, pick).0, Take(s, t, pick).1, picks)
  {
    assert ([pick] + picks)[1..] == picks;
  }

  /** The next step does not depend on a key. */
  predicate Steady(s: Shared, t: Thread) {
    t.script != [] &&
    var a := t.script[0];
    !a.Submit? && !a.Send? && (Iterates(a) ==> Keys(s, a) <= Seen(a))
  }

  lemma SteadyStep(s: Shared, t: Thread, pick: Path)
    requires Steady(s, t)
    ensures CanStep(s, t, pick) && Take(s, t, pick) == Take(s, t, "")
  {
  }

  /** Whatever the keys, n steps lead there. */
  ghost predicate Leads(s: Shared, t: Thread, s': Shared, t': Thread, n: nat)
    decreases n
  {
    if n == 0 then s == s' && t == t'
    else Steady(s, t) && Leads(Take(s, t, "").0, Take(s, t, "").1, s', t', n - 1)
  }

  ghost predicate Becomes(s: Shared, t: Thread, s': Shared, t': Thread) {
    exists n: nat :: Leads(s, t, s', t', n)
  }

  lemma {:induction false} LeadsOn(s: Shared, t: Thread, s': Shared, t': Thread, s'': Shared, t'': Thread, m: nat,
                                   n: nat)
    requires Leads(s, t, s', t', m) && Leads(s', t', s'', t'', n)
    ensures Leads(s, t, s'', t'', m + n)
    decreases m
  {
    if m > 0 {
      LeadsOn(Take(s, t, "").0, Take(s, t, "").1, s', t', s'', t'', m - 1, n);
    }
  }

  lemma NoStep(s: Shared, t: Thread)
    ensures Becomes(s, t, s, t)
  {
    assert Leads(s, t, s, t, 0);
  }

  lemma OneStep(s: Shared, t: Thread)
    requires Steady(s, t)
    ensures Becomes(s, t, Take(s, t, "").0, Take(s, t, "").1)
  {
    assert Leads(Take(s, t, "").0, Take(s, t, "").1, Take(s, t, "").0, Take(s, t, "").1, 0);
    assert Leads(s, t, Take(s, t, "").0, Take(s, t, "").1, 1);
  }

  lemma Chain(s: Shared, t: Thread, s': Shared, t': Thread, s'': Shared, t'': Thread)
    requires Becomes(s, t, s', t') && Becomes(s', t', s'', t'')
    ensures Becomes(s, t, s'', t'')
  {
    var m: nat :| Leads(s, t, s', t', m);
    var n: nat :| Leads(s', t', s'', t'', n);
    LeadsOn(s, t, s', t', s'', t'', m, n);
  }

  lemma NothingBefore(a: seq<Action>)
    ensures [] + a == a
  {
  }

  // One step each.

  lemma StartsWriting(s: Shared, t: Thread, m: Mutex, rest: seq<Action>)
    requires t.script == [Lock(m)] + rest && t.phase == Fresh
    ensures Becomes(s, t, s, t.(phase := Announced))
  {
    OneStep(s, t);
  }

  lemma GetsWriting(s: Shared, t: Thread, m: Mutex, rest: seq<Action>)
    requires t.script == [Lock(m)] + rest && t.phase == Announced
    ensures Becomes(s, t, s, t.(script := rest, held := Holding(m, Writing, t.held), phase := Fresh))
  {
    OneStep(s, t);
    assert t.script[1..] == rest;
  }

  lemma TakesRLock(s: Shared, t: Thread, m: Mutex, rest: seq<Action>)
    requires t.script == [RLock(m)] + rest
    ensures Becomes(s, t, s, t.(script := rest, held := Holding(m, Reading, t.held)))
  {
    OneStep(s, t);
    assert t.script[1..] == rest;
  }

  lemma GivesBack(s: Shared, t: Thread, m: Mutex, rest: seq<Action>)
    requires t.script == [Unlock(m)] + rest && t.held.Holding?
    ensures Becomes(s, t, s, t.(script := rest, held := t.held.below))
  {
    OneStep(s, t);
    assert t.script[1..] == rest;
  }

  lemma Expands(s: Shared, t: Thread, a: Action, rest: seq<Action>)
    requires t.script == [a] + rest && Steady(s, t)
    requires !a.RLock? && !a.Lock? && !a.Unlock? && !IsUpdate(a)
    ensures Becomes(s, t, Effect(s, a, ""), t.(script := Expand(s, a, "") + rest))
  {
    OneStep(s, t);
    assert t.script[1..] == rest;
  }

  lemma LoadsLock(s: Shared, t: Thread, a: Action, rest: seq<Action>)
    requires t.script == [a] + rest && IsUpdate(a) && t.phase == Fresh
    ensures Becomes(s, t, s, t.(phase := Loaded(LockAt(s.locks, Target(a)))))
  {
    OneStep(s, t);
  }

  lemma StoresLock(s: Shared, t: Thread, a: Action, read: DeviceLock.Lock, rest: seq<Action>)
    requires t.script == [a] + rest && IsUpdate(a) && t.phase == Loaded(read)
    ensures Becomes(s, t, Written(s, a, read),
                    t.(script := AfterWrite(a, DeviceLock.Apply(read, CallOf(a)).1) + rest, phase := Fresh))
  {
    OneStep(s, t);
    assert t.script[1..] == rest;
  }

  // Sections.

  lemma TakesLock(s: Shared, t: Thread, m: Mutex, rest: seq<Action>)
    requires t.script == [Lock(m)] + rest && t.phase == Fresh
    ensures Becomes(s, t, s, t.(script := rest, held := Holding(m, Writing, t.held)))
  {
    StartsWriting(s, t, m, rest);
    GetsWriting(s, t.(phase := Announced), m, rest);
    Chain(s, t, s, t.(phase := Announced), s, t.(script := rest, held := Holding(m, Writing, t.held)));
  }

  lemma Enters(s: Shared, t: Thread, mode: Mode, m: Mutex, body: seq<Action>, rest: seq<Action>)
    requires t.script == Section(mode, m, body) + rest && t.phase == Fresh
    ensures Becomes(s, t, s, t.(script := body + ([Unlock(m)] + rest), held := Holding(m, mode, t.held)))
  {
    var inner := body + ([Unlock(m)] + rest);
    Regrouped([if mode == Reading then RLock(m) else Lock(m)], body + [Unlock(m)], rest);
    Regrouped(body, [Unlock(m)], rest);
    if mode == Reading {
      TakesRLock(s, t, m, inner);
    } else {
      TakesLock(s, t, m, inner);
    }
  }

  lemma ShortSectionAlone(s: Shared, t: Thread, mode: Mode, m: Mutex, rest: seq<Action>)
    requires t.script == Section(mode, m, []) + rest && t.phase == Fresh
    ensures Becomes(s, t, s, t.(script := rest))
  {
    var inner := t.(script := [Unlock(m)] + rest, held := Holding(m, mode, t.held));
    Enters(s, t, mode, m, [], rest);
    NothingBefore([Unlock(m)] + rest);
    GivesBack(s, inner, m, rest);
    Chain(s, t, s, inner, s, t.(script := rest));
  }

  /** A section of one step that turns into nothing more. */
  lemma StepSection(s: Shared, t: Thread, m: Mutex, a: Action, rest: seq<Action>)
    requires t.script == Section(Writing, m, [a]) + rest && t.phase == Fresh
    requires a.Stamp? || a.Register? || a.Unregister?
    ensures Becomes(s, t, Effect(s, a, ""), t.(script := rest))
  {
    var tail, after := [Unlock(m)] + rest, Effect(s, a, "");
    Enters(s, t, Writing, m, [a], rest);
    var inner := t.(script := [a] + tail, held := Holding(m, Writing, t.held));
    Expands(s, inner, a, tail);
    NothingBefore(tail);
    Chain(s, t, s, inner, after, inner.(script := tail));
    GivesBack(after, inner.(script := tail), m, rest);
    Chain(s, t, after, inner.(script := tail), after, t.(script := rest));
  }

  // The pieces of a registry call.

  function Status(call: DeviceLock.Call): string { if call.Reserve? then "busy" else "available" }

  /** A status hook, run to its end. */
  lemma HookRunsAlone(s: Shared, t: Thread, call: DeviceLock.Call, path: Path, rest: seq<Action>)
    requires t.script == Hook(call, path) + rest && t.phase == Fresh && Hooked(call)
    ensures Becomes(s, t, Effect(s, Stamp(path, Status(call)), ""), t.(script := rest))
  {
    var stamp := Stamp(path, Status(call));
    var next := t.(script := Section(Writing, Leader, [stamp]) + rest);
    Regrouped(Section(Reading, Registry, []), Section(Writing, Leader, [stamp]), rest);
    ShortSectionAlone(s, t, Reading, Registry, next.script);
    StepSection(s, next, Leader, stamp, rest);
    Chain(s, t, s, next, Effect(s, stamp, ""), t.(script := rest));
  }

  function Found(s: Shared, path: Path, call: DeviceLock.Call): seq<Action> {
    if path in s.registry then [Lock(Device(s.registry[path]))] + [Update(s.registry[path], path, call)] else []
  }

  /** The path is looked up under the registry's mutex. */
  lemma Finds(s: Shared, t: Thread, path: Path, call: DeviceLock.Call, rest: seq<Action>)
    requires t.script == [RLock(Registry)] + [Find(path, call)] + rest && t.phase == Fresh
    ensures Becomes(s, t, s, t.(script := Found(s, path, call) + rest))
  {
    Regrouped([RLock(Registry)], [Find(path, call)], rest);
    TakesRLock(s, t, Registry, [Find(path, call)] + rest);
    var inner := t.(script := [Find(path, call)] + rest, held := Holding(Registry, Reading, t.held));
    FindsInside(s, inner, path, call, rest);
    Chain(s, t, s, inner, s, t.(script := Found(s, path, call) + rest));
  }

  lemma FindsInside(s: Shared, t: Thread, path: Path, call: DeviceLock.Call, rest: seq<Action>)
    requires t.script == [Find(path, call)] + rest && t.held.Holding?
    ensures Becomes(s, t, s, t.(script := Found(s, path, call) + rest, held := t.held.below))
  {
    Expands(s, t, Find(path, call), rest);
    Regrouped([Unlock(Registry)], Found(s, path, call), rest);
    var next := t.(script := [Unlock(Registry)] + (Found(s, path, call) + rest));
    GivesBack(s, next, Registry, Found(s, path, call) + rest);
    Chain(s, t, s, next, s, t.(script := Found(s, path, call) + rest, held := t.held.below));
  }

  /** What an update gives rise to once its lock's mutex is free again. */
  function Following(a: Action, ok: bool): seq<Action>
    requires IsUpdate(a)
  {
    if a.Update? then (if ok then Hook(a.call, a.path) else [])
    else [Sweep(a.cutoff, a.seen, if ok then a.freed + [a.path] else a.freed)]
  }

  /** The lock is read, and written with what the call makes of the value read. */
  lemma UpdatesInside(s: Shared, t: Thread, a: Action, rest: seq<Action>)
    requires IsUpdate(a) && t.script == [a] + rest && t.phase == Fresh
    ensures var read := LockAt(s.locks, Target(a));
            var after := [Unlock(Device(Target(a)))] + (Following(a, DeviceLock.Apply(read, CallOf(a)).1) + rest);
            Becomes(s, t, Written(s, a, read), t.(script := after))
  {
    var read := LockAt(s.locks, Target(a));
    var ok := DeviceLock.Apply(read, CallOf(a)).1;
    LoadsLock(s, t, a, rest);
    StoresLock(s, t.(phase := Loaded(read)), a, read, rest);
    Regrouped([Unlock(Device(Target(a)))], Following(a, ok), rest);
    Chain(s, t, s, t.(phase := Loaded(read)), Written(s, a, read),
          t.(script := [Unlock(Device(Target(a)))] + (Following(a, ok) + rest)));
  }

  /** The mutex of the lock is taken, the lock read and written, and the mutex given back. */
  lemma Updates(s: Shared, t: Thread, a: Action, rest: seq<Action>)
    requires IsUpdate(a) && t.script == [Lock(Device(Target(a)))] + [a] + rest && t.phase == Fresh
    ensures var read := LockAt(s.locks, Target(a));
            Becomes(s, t, Written(s, a, read),
                    t.(script := Following(a, DeviceLock.Apply(read, CallOf(a)).1) + rest))
  {
    var m, read := Device(Target(a)), LockAt(s.locks, Target(a));
    var after := Following(a, DeviceLock.Apply(read, CallOf(a)).1) + rest;
    Regrouped([Lock(m)], [a], rest);
    TakesLock(s, t, m, [a] + rest);
    var inner := t.(script := [a] + rest, held := Holding(m, Writing, t.held));
    UpdatesInside(s, inner, a, rest);
    var s', t' := Written(s, a, read), inner.(script := [Unlock(m)] + after);
    Chain(s, t, s, inner, s', t');
    GivesBack(s', t', m, after);
    Chain(s, t, s', t', s', t.(script := after));
  }

  /** The shared data once a call has been applied to the lock of a path, without the hook. */
  function Applied(s: Shared, path: Path, call: DeviceLock.Call): Shared {
    if path in s.registry then Written(s, Update(s.registry[path], path, call), LockAt(s.locks, s.registry[path]))
    else s
  }

  predicate Succeeds(s: Shared, path: Path, call: DeviceLock.Call) {
    path in s.registry && DeviceLock.Apply(LockAt(s.locks, s.registry[path]), call).1
  }

  /** A call on the lock of a path, up to its hook. */
  lemma AppliesAlone(s: Shared, t: Thread, path: Path, call: DeviceLock.Call, rest: seq<Action>)
    requires t.script == [RLock(Registry)] + [Find(path, call)] + rest && t.phase == Fresh
    ensures var hook := if Succeeds(s, path, call) then Hook(call, path) else [];
            Becomes(s, t, Applied(s, path, call), t.(script := hook + rest))
  {
    var hook := if Succeeds(s, path, call) then Hook(call, path) else [];
    Finds(s, t, path, call, rest);
    var found := t.(script := Found(s, path, call) + rest);
    if path in s.registry {
      Updates(s, found, Update(s.registry[path], path, call), rest);
    } else {
      NoStep(s, found);
    }
    Chain(s, t, s, found, Applied(s, path, call), t.(script := hook + rest));
  }
}
