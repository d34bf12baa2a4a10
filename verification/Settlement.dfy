/**
 What becomes of a settled job's device: the result handler releases it in the job's name, whatever the other
 threads do meanwhile (internal/cluster/leader_jobs.go).
 */
module Settlement {
  import opened Wrappers
  import opened Locking
  import opened History
  import opened Cluster
  import opened Interleaving
  import opened Reservations
  import DeviceLock

  /** A step on the way to the release of the lock in the job's name. */
  predicate Releases(a: Action, job: Job, id: nat) {
    || a == Call(Cancel(job)) || a == Call(Release(job.path, job.id))
    || a == Find(job.path, DeviceLock.Call.Release(job.id))
    || a == Update(id, job.path, DeviceLock.Call.Release(job.id))
  }

  ghost predicate WillRelease(script: seq<Action>, job: Job, id: nat) {
    exists a :: a in script && Releases(a, job, id)
  }

  ghost predicate ReleaseDue(s: Cluster, job: Job, id: nat) {
    exists i :: 0 <= i < |s.threads| && WillRelease(s.threads[i].script, job, id)
  }

  predicate NotHeld(s: Shared, job: Job, id: nat) {
    DeviceLock.Holder(LockAt(s.locks, id)) != Some(job.id)
  }

  ghost predicate FreeOrDue(s: Cluster, job: Job, id: nat) {
    NotHeld(s.shared, job, id) || ReleaseDue(s, job, id)
  }

  /** The handler's turn begins with the release. */
  lemma SettleReleases(job: Job, id: nat)
    ensures WillRelease(Settle(job), job, id)
  {
    var release := Call(Release(job.path, job.id));
    assert Settle(job)[0] == release && release in Settle(job);
  }

  lemma CancelReleases(job: Job, id: nat)
    ensures WillRelease(CancelScript(job), job, id)
  {
    var release := [Call(Release(job.path, job.id))];
    var read, queue := Section(Reading, JobMutex(job.id), []), JobUnderQueue(job);
    assert release[0] in release;
    StillInRest(queue, release, job, id);
    StillInRest(read, queue + release, job, id);
    StillInRest(Section(Reading, Queue, []), read + (queue + release), job, id);
  }

  lemma StillInRest(x: seq<Action>, rest: seq<Action>, job: Job, id: nat)
    requires WillRelease(rest, job, id)
    ensures WillRelease(x + rest, job, id)
  {
    var a :| a in rest && Releases(a, job, id);
    assert a in x + rest;
  }

  lemma InFront(x: seq<Action>, rest: seq<Action>, job: Job, id: nat)
    requires WillRelease(x, job, id)
    ensures WillRelease(x + rest, job, id)
  {
    var a :| a in x && Releases(a, job, id);
    assert a in x + rest;
  }

  /** What a step on the way turns into is on the way. */
  lemma ExpandReleases(s: Shared, a: Action, pick: Path, job: Job, id: nat)
    requires Releases(a, job, id) && !a.Update?
    requires job.path in s.registry && s.registry[job.path] == id
    ensures WillRelease(Expand(s, a, pick), job, id)
  {
    var call := DeviceLock.Call.Release(job.id);
    if a == Call(Cancel(job)) {
      CancelReleases(job, id);
    } else if a.Call? {
      assert Expand(s, a, pick) == [RLock(Registry)] + [Find(job.path, call)];
      assert Find(job.path, call) in Expand(s, a, pick);
    } else {
      assert Expand(s, a, pick) == [Unlock(Registry)] + ([Lock(Device(id))] + [Update(id, job.path, call)]);
      assert Update(id, job.path, call) in Expand(s, a, pick);
    }
  }

  /** A thread that is on its way to the release goes on, or has just released the lock. */
  lemma TakeReleases(s: Shared, t: Thread, pick: Path, job: Job, id: nat)
    requires WillRelease(t.script, job, id) && PhaseFits(t, s.locks)
    requires job.path in s.registry && s.registry[job.path] == id
    ensures var (s', t') := Take(s, t, pick); WillRelease(t'.script, job, id) || NotHeld(s', job, id)
  {
    var a, rest := t.script[0], t.script[1..];
    assert t.script == [a] + rest;
    if !Releases(a, job, id) {
      HeadIsNot(a, rest, job, id);
      RestGoesOn(s, t, pick, job, id);
    } else if !a.Update? {
      ExpandReleases(s, a, pick, job, id);
      InFront(Expand(s, a, pick), rest, job, id);
    }
  }

  lemma HeadIsNot(a: Action, rest: seq<Action>, job: Job, id: nat)
    requires WillRelease([a] + rest, job, id) && !Releases(a, job, id)
    ensures WillRelease(rest, job, id)
  {
    var b :| b in [a] + rest && Releases(b, job, id);
    assert b in rest;
  }

  lemma RestGoesOn(s: Shared, t: Thread, pick: Path, job: Job, id: nat)
    requires t.script != [] && WillRelease(t.script[1..], job, id)
    ensures WillRelease(Take(s, t, pick).1.script, job, id)
  {
    var a, rest := t.script[0], t.script[1..];
    assert t.script == [a] + rest;
    StillInRest([a], rest, job, id);
    if IsUpdate(a) {
      if t.phase.Loaded? {
        StillInRest(AfterWrite(a, DeviceLock.Apply(t.phase.lock, CallOf(a)).1), rest, job, id);
      }
    } else if !a.RLock? && !a.Lock? && !a.Unlock? {
      StillInRest(Expand(s, a, pick), rest, job, id);
    }
  }

  /** A lock comes to be held in a name only by a reservation in that name. */
  lemma OnlyTakenIsHeld(s: Shared, t: Thread, pick: Path, job: Job, id: nat)
    requires Balanced(t) && PhaseFits(t, s.locks) && Accounted(s) && NotHeld(s, job, id)
    ensures var after := Take(s, t, pick).0;
            NotHeld(after, job, id) ||
            exists at :: after.trace == s.trace + [Entry(id, DeviceLock.Taken(job.id, at))]
  {
    TakeUpdates(s, t, pick);
    var after := Take(s, t, pick).0;
    if after.locks != s.locks && Target(t.script[0]) == id {
      var l, call := LockAt(s.locks, id), CallOf(t.script[0]);
      DeviceLock.CallIsAllowed(l, call);
    }
  }

  lemma StepReleases(s: Cluster, after: Cluster, job: Job, id: nat)
    requires Invariant(s) && Follows(s, after) && FreeOrDue(s, job, id)
    requires job.path in s.shared.registry && s.shared.registry[job.path] == id
    requires forall n :: |s.shared.trace| <= n < |after.shared.trace| ==> !Takes(after.shared.trace[n], job, id)
    ensures FreeOrDue(after, job, id)
  {
    var i: nat, pick: Path :| Enabled(s, i, pick) && after == Next(s, i, pick);
    var t := s.threads[i];
    if NotHeld(s.shared, job, id) {
      OnlyTakenIsHeld(s.shared, t, pick, job, id);
      if !NotHeld(after.shared, job, id) {
        assert Takes(after.shared.trace[|s.shared.trace|], job, id);
        assert false;
      }
    } else {
      var k :| 0 <= k < |s.threads| && WillRelease(s.threads[k].script, job, id);
      if k == i {
        TakeReleases(s.shared, t, pick, job, id);
      }
      assert NotHeld(after.shared, job, id) || WillRelease(after.threads[k].script, job, id);
    }
  }

  predicate Takes(e: Entry, job: Job, id: nat) {
    e.id == id && e.event.Taken? && e.event.name == job.id
  }

  /** When a job is settled its release is due. */
  lemma SettledIsDue(s: Cluster, after: Cluster, n: nat, id: nat)
    requires Follows(s, after) && |s.shared.settled| <= n < |after.shared.settled|
    ensures ReleaseDue(after, after.shared.settled[n], id)
  {
    var i: nat, pick: Path :| Enabled(s, i, pick) && after == Next(s, i, pick);
    SettlesOne(s.shared, s.threads[i], pick);
    SettleReleases(s.shared.results[0], id);
    assert WillRelease(after.threads[i].script, after.shared.settled[n], id);
  }

  lemma SettlesOne(s: Shared, t: Thread, pick: Path)
    ensures var (s', t') := Take(s, t, pick);
            || s'.settled == s.settled
            || (s.results != [] && s'.settled == s.settled + [s.results[0]] && t'.script == Settle(s.results[0]))
  {
    if t.script != [] {
      EffectSettlesNothing(s, t.script[0], pick);
    }
  }

  lemma EffectSettlesNothing(s: Shared, a: Action, pick: Path)
    ensures Effect(s, a, pick).settled == s.settled
  {
  }

  /** From `first` on the path has the same lock, and nobody reserves it in the job's name. */
  ghost predicate LeftAlone(states: seq<Cluster>, first: nat, job: Job, id: nat)
    requires first < |states|
  {
    && (forall k :: first <= k < |states| ==>
          job.path in states[k].shared.registry && states[k].shared.registry[job.path] == id)
    && forall n :: |states[first].shared.trace| <= n < |Last(states).shared.trace| ==>
         !Takes(Last(states).shared.trace[n], job, id)
  }

  lemma {:induction false} ReleasedOrDue(states: seq<Cluster>, first: nat, k: nat, n: nat, id: nat)
    requires Run(states) && first <= k < |states| && |states[first].shared.settled| <= n < |states[k].shared.settled|
    requires LeftAlone(states, first, states[k].shared.settled[n], id)
    ensures FreeOrDue(states[k], states[k].shared.settled[n], id)
    decreases k
  {
    var job, before := states[k].shared.settled[n], states[k - 1];
    assert Follows(before, states[k]);
    if n < |before.shared.settled| {
      assert before.shared.settled[n] == job by {
        StepKeepsSettled(before, states[k]);
      }
      assert FreeOrDue(before, job, id) by {
        ReleasedOrDue(states, first, k - 1, n, id);
      }
      StaysReleasedOrDue(states, first, k, job, id);
    } else {
      SettledIsDue(before, states[k], n, id);
    }
  }

  lemma StaysReleasedOrDue(states: seq<Cluster>, first: nat, k: nat, job: Job, id: nat)
    requires Run(states) && first < k < |states| && LeftAlone(states, first, job, id)
    requires FreeOrDue(states[k - 1], job, id)
    ensures FreeOrDue(states[k], job, id)
  {
    var s, after := states[k - 1], states[k];
    assert Invariant(s) by {
      RunInvariant(states, k - 1);
    }
    assert forall n :: |s.shared.trace| <= n < |after.shared.trace| ==> !Takes(after.shared.trace[n], job, id) by {
      NothingTaken(states, first, k, job, id);
    }
    assert FreeOrDue(after, job, id) by {
      StepReleases(s, after, job, id);
    }
  }

  lemma StepKeepsSettled(s: Cluster, after: Cluster)
    requires Follows(s, after)
    ensures s.shared.settled <= after.shared.settled
  {
    var i: nat, pick: Path :| Enabled(s, i, pick) && after == Next(s, i, pick);
    SettlesOne(s.shared, s.threads[i], pick);
  }

  lemma EntriesApart(trace: seq<Entry>, whole: seq<Entry>, low: nat, high: nat, job: Job, id: nat)
    requires low <= high && trace <= whole
    requires forall n :: low <= n < |whole| ==> !Takes(whole[n], job, id)
    ensures forall n :: high <= n < |trace| ==> !Takes(trace[n], job, id)
  {
  }

  lemma NothingTaken(states: seq<Cluster>, first: nat, k: nat, job: Job, id: nat)
    requires Run(states) && first < k < |states| && LeftAlone(states, first, job, id)
    ensures forall n :: |states[k - 1].shared.trace| <= n < |states[k].shared.trace| ==>
              !Takes(states[k].shared.trace[n], job, id)
  {
    assert states[first].shared.trace <= states[k - 1].shared.trace by {
      TraceGrows(states, first, k - 1);
    }
    assert states[k].shared.trace <= Last(states).shared.trace by {
      TraceGrows(states, k, |states| - 1);
    }
    var low, high := states[first].shared.trace, states[k - 1].shared.trace;
    EntriesApart(states[k].shared.trace, Last(states).shared.trace, |low|, |high|, job, id);
  }

  /** The same for a job that some thread is about to cancel, or to release. */
  lemma {:induction false} CancelledJobFreesDevice(states: seq<Cluster>, first: nat, k: nat, job: Job, id: nat)
    requires Run(states) && first <= k < |states| && LeftAlone(states, first, job, id)
    requires ReleaseDue(states[first], job, id)
    ensures FreeOrDue(states[k], job, id)
    ensures Finished(states[k]) ==> NotHeld(states[k].shared, job, id)
    decreases k
  {
    if k > first {
      CancelledJobFreesDevice(states, first, k - 1, job, id);
      StaysReleasedOrDue(states, first, k, job, id);
    }
  }

  /**
   In every finished run the lock of a settled job's device is not held in the job's name, if from some point before
   the settlement on the path stays registered and nobody reserves it in that name again.
   */
  lemma SettledJobFreesDevice(states: seq<Cluster>, first: nat, n: nat, id: nat)
    requires Run(states) && Finished(Last(states)) && first < |states|
    requires |states[first].shared.settled| <= n < |Last(states).shared.settled|
    requires LeftAlone(states, first, Last(states).shared.settled[n], id)
    ensures NotHeld(Last(states).shared, Last(states).shared.settled[n], id)
  {
    ReleasedOrDue(states, first, |states| - 1, n, id);
  }
}
