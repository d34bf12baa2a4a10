/**
 Safety and progress over every interleaving of the threads: writers exclude one another, reservations follow
 the ownership rules, and some thread can always go on until all work is done.
 */
module Interleaving {
  import opened Wrappers
  import opened Locking
  import opened History
  import opened Cluster
  import opened Balance
  import opened Permissions
  import DeviceLock

  predicate Ordered(held: Held) {
    held.Holding? ==> CanTake(held.below, held.mutex) && Ordered(held.below)
  }

  predicate PhaseFits(t: Thread, locks: map<nat, DeviceLock.Lock>) {
    match t.phase
    case Fresh => true
    case Announced => t.script != [] && t.script[0].Lock?
    case Loaded(v) => t.script != [] && IsUpdate(t.script[0]) && v == LockAt(locks, Target(t.script[0]))
  }

  predicate Balanced(t: Thread) {
    Runs(t.held, t.script) == Some(Free) && Ordered(t.held)
  }

  /** A thread's script keeps to its role. */
  ghost predicate InRole(t: Thread) {
    AllPermitted(Rules(t.role, false, None), t.script)
  }

  ghost predicate Excludes(a: Thread, b: Thread) {
    forall m: Mutex :: Claims(a, m) ==> !Claims(b, m) && (InMode(a.held, m, Writing) ==> !Reads(b, m))
  }

  ghost predicate Exclusive(ts: seq<Thread>) {
    forall i, j :: 0 <= i < |ts| && 0 <= j < |ts| && i != j ==> Excludes(ts[i], ts[j])
  }

  ghost predicate Accounted(s: Shared) {
    && (forall id: nat :: DeviceLock.OwnerClear(LockAt(s.locks, id)))
    && Legal(s.trace)
    && forall id: nat :: HoldingOf(s.trace, id) == DeviceLock.HoldOf(LockAt(s.locks, id))
  }

  ghost predicate Invariant(s: Cluster) {
    && (forall i :: 0 <= i < |s.threads| ==>
         Balanced(s.threads[i]) && PhaseFits(s.threads[i], s.shared.locks)
         && InRole(s.threads[i]))
    && Exclusive(s.threads)
    && Accounted(s.shared)
    && (exists i :: 0 <= i < |s.threads| && s.threads[i].role == Worker)
    && (exists i :: 0 <= i < |s.threads| && s.threads[i].role == Handler)
  }

  // One step.

  lemma TakeBalanced(s: Shared, t: Thread, pick: Path)
    requires Balanced(t) && PhaseFits(t, s.locks)
    ensures Balanced(Take(s, t, pick).1)
  {
    if t.script == [] {
      if t.role.Worker? && s.jobs != [] {
        WorkRuns(s.jobs[0]);
      } else if t.role.Handler? && s.results != [] {
        SettleRuns(s.results[0]);
      }
    } else {
      var a, rest := t.script[0], t.script[1..];
      if IsUpdate(a) && t.phase.Loaded? {
        var ok := DeviceLock.Apply(t.phase.lock, CallOf(a)).1;
        AfterWriteRuns(t.held, a, ok);
        RunsConcat(t.held, AfterWrite(a, ok), rest);
      } else if !a.RLock? && !a.Lock? && !a.Unlock? && !IsUpdate(a) {
        ExpandRuns(t.held, s, a, pick);
        RunsConcat(t.held, Expand(s, a, pick), rest);
      }
    }
  }

  lemma TakePhase(s: Shared, t: Thread, pick: Path)
    requires Balanced(t) && PhaseFits(t, s.locks)
    ensures PhaseFits(Take(s, t, pick).1, Take(s, t, pick).0.locks)
  {
  }

  lemma EffectKeepsLocks(s: Shared, a: Action, pick: Path)
    ensures Effect(s, a, pick).locks == s.locks && Effect(s, a, pick).trace == s.trace
  {
  }

  lemma OnlyUpdatesUpdate(s: Shared, t: Thread, pick: Path)
    requires t.script == [] || !IsUpdate(t.script[0])
    ensures Take(s, t, pick).0.locks == s.locks && Take(s, t, pick).0.trace == s.trace
  {
    if t.script != [] {
      EffectKeepsLocks(s, t.script[0], pick);
    }
  }

  /** A step changes a device lock only under its mutex, and then as one of the calls does. */
  lemma TakeUpdates(s: Shared, t: Thread, pick: Path)
    requires Balanced(t) && PhaseFits(t, s.locks)
    ensures var after := Take(s, t, pick).0;
            || (after.locks == s.locks && after.trace == s.trace)
            || (t.script != [] && IsUpdate(t.script[0]) && InMode(t.held, Device(Target(t.script[0])), Writing)
                && after == Written(s, t.script[0], LockAt(s.locks, Target(t.script[0]))))
  {
    if t.script == [] || !IsUpdate(t.script[0]) {
      OnlyUpdatesUpdate(s, t, pick);
    } else {
      assert Fits(t.held, t.script[0]);
    }
  }

  lemma TakeGrowsTrace(s: Shared, t: Thread, pick: Path)
    ensures s.trace <= Take(s, t, pick).0.trace
  {
  }

  lemma WrittenAccounted(s: Shared, a: Action)
    requires Accounted(s) && IsUpdate(a)
    ensures Accounted(Written(s, a, LockAt(s.locks, Target(a))))
  {
    var id, l := Target(a), LockAt(s.locks, Target(a));
    var after := Written(s, a, l);
    DeviceLock.CallIsAllowed(l, CallOf(a));
    assert HoldingOf(s.trace, id) == DeviceLock.HoldOf(l);
    if DeviceLock.EventOf(l, CallOf(a)).Some? {
      OneMoreEntry(s.trace, Entry(id, DeviceLock.EventOf(l, CallOf(a)).value));
    } else {
      assert after.trace == s.trace;
    }
    forall other: nat
      ensures DeviceLock.OwnerClear(LockAt(after.locks, other))
              && HoldingOf(after.trace, other) == DeviceLock.HoldOf(LockAt(after.locks, other))
    {
      assert other != id ==>
               LockAt(after.locks, other) == LockAt(s.locks, other)
               && HoldingOf(s.trace, other) == DeviceLock.HoldOf(LockAt(s.locks, other));
    }
  }

  /** What a thread newly claims or reads by its step is free of the others' claims. */
  lemma TakeExcludes(s: Cluster, i: nat, pick: Path, j: nat)
    requires Invariant(s) && Enabled(s, i, pick) && j < |s.threads| && j != i
    ensures var t := Take(s.shared, s.threads[i], pick).1; Excludes(t, s.threads[j]) && Excludes(s.threads[j], t)
  {
    var before, other := s.threads[i], s.threads[j];
    var after := Take(s.shared, before, pick).1;
    assert Excludes(before, other) && Excludes(other, before);
    forall m: Mutex
      ensures Claims(after, m) ==> !Claims(other, m) && (InMode(after.held, m, Writing) ==> !Reads(other, m))
      ensures Claims(other, m) ==> !Claims(after, m) && (InMode(other.held, m, Writing) ==> !Reads(after, m))
    {
      assert Claims(after, m) && !Claims(before, m) ==> before.script != [] && before.script[0] == Lock(m);
      assert Reads(after, m) && !Reads(before, m) ==> before.script != [] && before.script[0] == RLock(m);
    }
  }

  lemma {:induction false} OneWriter(s: Cluster, i: nat, j: nat, m: Mutex)
    requires Exclusive(s.threads) && i < |s.threads| && j < |s.threads| && i != j
    requires InMode(s.threads[i].held, m, Writing)
    ensures !InMode(s.threads[j].held, m, Writing)
  {
    assert Excludes(s.threads[i], s.threads[j]) && Claims(s.threads[i], m);
  }

  /** The value another thread has read stays the value of the lock. */
  lemma OthersPhase(s: Cluster, i: nat, pick: Path, j: nat)
    requires Invariant(s) && Enabled(s, i, pick) && j < |s.threads| && j != i
    ensures PhaseFits(s.threads[j], Take(s.shared, s.threads[i], pick).0.locks)
  {
    var t, other := s.threads[i], s.threads[j];
    TakeUpdates(s.shared, t, pick);
    if other.phase.Loaded? && t.script != [] && IsUpdate(t.script[0])
      && Target(other.script[0]) == Target(t.script[0]) {
      var m := Device(Target(t.script[0]));
      if InMode(t.held, m, Writing) {
        OneWriter(s, i, j, m);
        assert false;
      }
    }
  }

  lemma StepKeepsInvariant(s: Cluster, i: nat, pick: Path)
    requires Invariant(s) && Enabled(s, i, pick)
    ensures Invariant(Next(s, i, pick))
  {
    var after := Next(s, i, pick);
    TakeBalanced(s.shared, s.threads[i], pick);
    TakePhase(s.shared, s.threads[i], pick);
    TakePermitted(Rules(s.threads[i].role, false, None), s.shared, s.threads[i], pick);
    TakeUpdates(s.shared, s.threads[i], pick);
    if after.shared.locks != s.shared.locks || after.shared.trace != s.shared.trace {
      WrittenAccounted(s.shared, s.threads[i].script[0]);
    }
    forall j | 0 <= j < |s.threads| && j != i
      ensures PhaseFits(after.threads[j], after.shared.locks) && Excludes(after.threads[i], after.threads[j])
              && Excludes(after.threads[j], after.threads[i])
    {
      OthersPhase(s, i, pick, j);
      TakeExcludes(s, i, pick, j);
    }
    RolesStay(s, i, pick);
  }

  lemma TakeKeepsRole(s: Shared, t: Thread, pick: Path)
    ensures Take(s, t, pick).1.role == t.role
  {
  }

  lemma RolesStay(s: Cluster, i: nat, pick: Path)
    requires Invariant(s) && i < |s.threads|
    ensures var ts := Next(s, i, pick).threads;
            (exists k :: 0 <= k < |ts| && ts[k].role == Worker) && (exists k :: 0 <= k < |ts| && ts[k].role == Handler)
  {
    var ts := Next(s, i, pick).threads;
    TakeKeepsRole(s.shared, s.threads[i], pick);
    var w :| 0 <= w < |s.threads| && s.threads[w].role == Worker;
    var h :| 0 <= h < |s.threads| && s.threads[h].role == Handler;
    assert ts[w].role == Worker && ts[h].role == Handler;
  }

  /** No reservation is made in an empty name, and none will be. */
  ghost predicate AllNamed(s: Cluster) {
    && (forall i :: 0 <= i < |s.threads| ==> AllPermitted(Rules(s.threads[i].role, true, None), s.threads[i].script))
    && NoneAnonymous(s.shared.trace)
  }

  ghost predicate NoneAnonymous(trace: seq<Entry>) {
    forall e :: e in trace && e.event.Taken? ==> e.event.name != ""
  }

  lemma UpdateKeepsNames(s: Shared, t: Thread, pick: Path)
    requires Balanced(t) && PhaseFits(t, s.locks) && NoneAnonymous(s.trace)
    requires AllPermitted(Rules(t.role, true, None), t.script)
    ensures NoneAnonymous(Take(s, t, pick).0.trace)
  {
    TakeUpdates(s, t, pick);
    if Take(s, t, pick).0.trace != s.trace {
      assert t.script[0] in t.script;
    }
  }

  lemma StepKeepsNames(s: Cluster, i: nat, pick: Path)
    requires Invariant(s) && AllNamed(s) && Enabled(s, i, pick)
    ensures AllNamed(Next(s, i, pick))
  {
    var t := s.threads[i];
    TakePermitted(Rules(t.role, true, None), s.shared, t, pick);
    TakeKeepsRole(s.shared, t, pick);
    UpdateKeepsNames(s.shared, t, pick);
  }

  // Progress.

  ghost predicate Finished(s: Cluster) {
    && s.shared.jobs == [] && s.shared.results == []
    && forall i :: 0 <= i < |s.threads| ==> s.threads[i].script == []
  }

  predicate Waits(t: Thread) { t.script != [] && (t.script[0].RLock? || t.script[0].Lock?) }

  lemma {:induction false} TopRanksHighest(held: Held, m: Mutex, mode: Mode)
    requires Ordered(held) && InMode(held, m, mode)
    ensures Rank(m) <= Rank(held.mutex)
  {
    if !(held.mutex == m && held.mode == mode) {
      TopRanksHighest(held.below, m, mode);
    }
  }

  /** A thread about to do anything but take a mutex, send or submit can do it. */
  lemma GoesOn(s: Cluster, i: nat) returns (pick: Path)
    requires i < |s.threads| && s.threads[i].script != [] && !Waits(s.threads[i])
    requires !s.threads[i].script[0].Send? && !s.threads[i].script[0].Submit?
    ensures Enabled(s, i, pick)
  {
    var a := s.threads[i].script[0];
    pick := "";
    if Iterates(a) && !(Keys(s.shared, a) <= Seen(a)) {
      assert exists p :: p in Keys(s.shared, a) && p !in Seen(a);
      pick :| pick in Keys(s.shared, a) && pick !in Seen(a);
    }
  }

  /** While a thread holds a mutex some thread can go on: this one, or one that it waits for, higher up the order. */
  lemma {:induction false} HolderUnblocks(s: Cluster, i: nat, m: Mutex, mode: Mode) returns (k: nat, pick: Path)
    requires Invariant(s) && i < |s.threads| && InMode(s.threads[i].held, m, mode)
    ensures Enabled(s, k, pick)
    decreases 6 - Rank(m), 0
  {
    TopRanksHighest(s.threads[i].held, m, mode);
    if Waits(s.threads[i]) {
      k, pick := WaiterUnblocks(s, i);
    } else {
      k := i;
      pick := GoesOn(s, i);
    }
  }

  /** A thread that waits for a mutex waits for one that can go on. */
  lemma {:induction false} WaiterUnblocks(s: Cluster, i: nat) returns (k: nat, pick: Path)
    requires Invariant(s) && i < |s.threads| && Waits(s.threads[i])
    ensures Enabled(s, k, pick)
    decreases 6 - Rank(s.threads[i].script[0].mutex), 1
  {
    var t := s.threads[i];
    var m := t.script[0].mutex;
    k, pick := i, "";
    if !Enabled(s, i, pick) {
      if t.phase.Announced? {
        var j :| 0 <= j < |s.threads| && j != i && Reads(s.threads[j], m);
        k, pick := HolderUnblocks(s, j, m, Reading);
      } else {
        var j :| 0 <= j < |s.threads| && j != i && Claims(s.threads[j], m);
        if InMode(s.threads[j].held, m, Writing) {
          k, pick := HolderUnblocks(s, j, m, Writing);
        } else if Unread(s.threads, j, m) {
          k := j;
        } else {
          var r :| 0 <= r < |s.threads| && r != j && Reads(s.threads[r], m);
          k, pick := HolderUnblocks(s, r, m, Reading);
        }
      }
    }
  }

  /** With no thread waiting for a mutex: the handler drains results, so workers go on, so callers can submit. */
  lemma ChannelsUnblock(s: Cluster) returns (k: nat, pick: Path)
    requires Invariant(s) && !Finished(s) && forall i :: 0 <= i < |s.threads| ==> !Waits(s.threads[i])
    ensures Enabled(s, k, pick)
  {
    var h :| 0 <= h < |s.threads| && s.threads[h].role == Handler;
    var w :| 0 <= w < |s.threads| && s.threads[w].role == Worker;
    pick := "";
    if s.threads[h].script != [] {
      assert s.threads[h].script[0] in s.threads[h].script;
      k := h;
      pick := GoesOn(s, h);
    } else if s.shared.results != [] {
      k := h;
    } else if s.threads[w].script != [] {
      assert s.threads[w].script[0] in s.threads[w].script;
      k := w;
      if !s.threads[w].script[0].Send? {
        pick := GoesOn(s, w);
      }
    } else if s.shared.jobs != [] {
      k := w;
    } else {
      k :| 0 <= k < |s.threads| && s.threads[k].script != [];
      if !s.threads[k].script[0].Send? && !s.threads[k].script[0].Submit? {
        pick := GoesOn(s, k);
      }
    }
  }

  lemma SomeoneGoesOn(s: Cluster)
    requires Invariant(s) && !Finished(s)
    ensures exists k: nat, pick: Path :: Enabled(s, k, pick)
  {
    if i :| 0 <= i < |s.threads| && Waits(s.threads[i]) {
      var k, pick := WaiterUnblocks(s, i);
    } else {
      var k, pick := ChannelsUnblock(s);
    }
  }
}
