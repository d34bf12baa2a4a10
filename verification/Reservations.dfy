/** What holds of every run of the leader's threads: no deadlock, and at most one owner for each device lock. */
module Reservations {
  import opened Wrappers
  import opened Locking
  import opened History
  import opened Cluster
  import opened Interleaving
  import opened Permissions
  import DeviceLock

  function Last(states: seq<Cluster>): Cluster
    requires states != []
  {
    states[|states| - 1]
  }

  lemma {:induction false} CallsRun(script: seq<Action>)
    requires forall k :: 0 <= k < |script| ==> script[k].Call?
    ensures Runs(Free, script) == Some(Free)
    decreases |script|
  {
    if script != [] {
      CallsRun(script[1..]);
    }
  }

  lemma InitialInvariant(s: Cluster)
    requires Initial(s)
    ensures Invariant(s)
  {
    forall i | 0 <= i < |s.threads|
      ensures Balanced(s.threads[i]) && InRole(s.threads[i])
    {
      CallsRun(s.threads[i].script);
      assert forall a :: a in s.threads[i].script ==> a.Call?;
    }
  }

  lemma {:induction false} RunInvariant(states: seq<Cluster>, k: nat)
    requires Run(states) && k < |states|
    ensures Invariant(states[k])
  {
    if k == 0 {
      InitialInvariant(states[0]);
    } else {
      RunInvariant(states, k - 1);
      assert Follows(states[k - 1], states[k]);
      var i: nat, pick: Path :| Enabled(states[k - 1], i, pick) && states[k] == Next(states[k - 1], i, pick);
      StepKeepsInvariant(states[k - 1], i, pick);
    }
  }

  /** No run gets stuck: until every script is done and both channels are empty, some thread can take a step. */
  lemma NoDeadlock(states: seq<Cluster>)
    requires Run(states)
    ensures Finished(Last(states)) || exists i: nat, pick: Path :: Enabled(Last(states), i, pick)
  {
    RunInvariant(states, |states| - 1);
    if !Finished(Last(states)) {
      SomeoneGoesOn(Last(states));
    }
  }

  /** A thread about to take the leader's mutex, as the status hooks do, holds no other mutex. */
  lemma HooksRunUnlocked(states: seq<Cluster>, i: nat)
    requires Run(states) && i < |Last(states).threads|
    requires var t := Last(states).threads[i]; t.script != [] && t.script[0] == Lock(Leader)
    ensures Last(states).threads[i].held == Free
  {
    RunInvariant(states, |states| - 1);
    assert Balanced(Last(states).threads[i]);
  }

  /** While a thread is inside a writer's section, no other thread is inside a section of the same mutex. */
  lemma {:induction false} WritersExclude(states: seq<Cluster>, i: nat, j: nat, m: Mutex, mode: Mode)
    requires Run(states) && i < |Last(states).threads| && j < |Last(states).threads| && i != j
    requires InMode(Last(states).threads[i].held, m, Writing)
    ensures !InMode(Last(states).threads[j].held, m, mode)
  {
    RunInvariant(states, |states| - 1);
    assert Excludes(Last(states).threads[i], Last(states).threads[j]);
  }

  /** The reservations of a run, in the order in which the locks changed hands, obey the ownership rules. */
  lemma ReservationsAreLegal(states: seq<Cluster>, id: nat)
    requires Run(states)
    ensures var s := Last(states).shared;
            && Legal(s.trace)
            && HoldingOf(s.trace, id) == DeviceLock.HoldOf(LockAt(s.locks, id))
            && DeviceLock.OwnerClear(LockAt(s.locks, id))
  {
    RunInvariant(states, |states| - 1);
  }

  lemma StepGrowsTrace(s: Cluster, after: Cluster)
    requires Follows(s, after)
    ensures s.shared.trace <= after.shared.trace
  {
    var i: nat, pick: Path :| Enabled(s, i, pick) && after == Next(s, i, pick);
    TakeGrowsTrace(s.shared, s.threads[i], pick);
  }

  lemma {:induction false} TraceGrows(states: seq<Cluster>, j: nat, k: nat)
    requires Run(states) && j <= k < |states|
    ensures states[j].shared.trace <= states[k].shared.trace
    decreases k
  {
    if j < k {
      TraceGrows(states, j, k - 1);
      StepGrowsTrace(states[k - 1], states[k]);
    }
  }

  /** The call that an entry of the history tells of. */
  predicate Tells(e: DeviceLock.Event, call: DeviceLock.Call) {
    match e
    case Taken(name, at) => call == DeviceLock.Call.Reserve(name, at)
    case GivenBack(name) => call == DeviceLock.Call.Release(name)
    case Forced => call == DeviceLock.Force
    case Lapsed(_, cutoff) => call == DeviceLock.Call.Expire(cutoff)
  }

  lemma TakeTells(s: Shared, t: Thread, pick: Path, n: nat)
    requires |s.trace| <= n < |Take(s, t, pick).0.trace|
    ensures var e := Take(s, t, pick).0.trace[n];
            && t.script != [] && IsUpdate(t.script[0]) && Target(t.script[0]) == e.id
            && Tells(e.event, CallOf(t.script[0]))
  {
  }

  /**
   Every entry of a lock's history was made by a step of a thread that called that lock, and tells which call it was:
   a reservation in that name and at that time, a release in that name, a forced release, a cleanup with that cutoff.
   */
  lemma {:induction false} EntriesTellCalls(states: seq<Cluster>, n: nat) returns (k: nat, i: nat)
    requires Run(states) && n < |Last(states).shared.trace|
    ensures k + 1 < |states| && i < |states[k].threads| && |states[k].shared.trace| <= n
    ensures var script := states[k].threads[i].script;
            && script != [] && IsUpdate(script[0]) && Target(script[0]) == Last(states).shared.trace[n].id
            && Tells(Last(states).shared.trace[n].event, CallOf(script[0]))
    decreases |states|
  {
    assert |states| > 1;
    var before := states[..|states| - 1];
    k := |states| - 2;
    assert Follows(states[k], states[k + 1]);
    if n < |states[k].shared.trace| {
      StepGrowsTrace(states[k], states[k + 1]);
      k, i := EntriesTellCalls(before, n);
    } else {
      var j: nat, pick: Path :| Enabled(states[k], j, pick) && states[k + 1] == Next(states[k], j, pick);
      TakeTells(states[k].shared, states[k].threads[j], pick, n);
      i := j;
    }
  }

  /**
   A device lock held in some name at one point of a run and not held in that name later was given up in between
   by that name's own release, by a forced release, or because that very reservation had expired. So the late
   release of a cancelled or failed job does not free the reservation of the job that came after it.
   */
  lemma LateReleaseIsHarmless(states: seq<Cluster>, j: nat, id: nat, owner: string)
    requires Run(states) && j < |states|
    requires DeviceLock.Holder(LockAt(states[j].shared.locks, id)) == Some(owner)
    requires DeviceLock.Holder(LockAt(Last(states).shared.locks, id)) != Some(owner)
    ensures exists k ::
              |states[j].shared.trace| <= k < |Last(states).shared.trace|
              && Frees(Last(states).shared.trace[k], id, owner)
  {
    var before, trace := states[j].shared.trace, Last(states).shared.trace;
    RunInvariant(states, j);
    RunInvariant(states, |states| - 1);
    TraceGrows(states, j, |states| - 1);
    assert trace[..|before|] == before;
    assert HolderOf(before, id) == Some(owner) && HolderOf(trace, id) != Some(owner);
    if forall k :: |before| <= k < |trace| ==> !Frees(trace[k], id, owner) {
      HolderKeepsLock(trace, |before|, id, owner);
      assert false;
    }
  }

  /** Two reservations of the same lock object never overlap. */
  lemma ReservationsDoNotOverlap(states: seq<Cluster>, i: nat, j: nat, id: nat, first: string, second: string,
                                 at: int, later: int)
    requires Run(states) && i < j < |Last(states).shared.trace|
    requires Last(states).shared.trace[i] == Entry(id, DeviceLock.Taken(first, at))
    requires Last(states).shared.trace[j] == Entry(id, DeviceLock.Taken(second, later))
    ensures exists k :: i < k < j && Frees(Last(states).shared.trace[k], id, first)
  {
    RunInvariant(states, |states| - 1);
    OneOwnerAtATime(Last(states).shared.trace, i, j, id, first, second, at, later);
  }

  /** `Reserve` leaves the state and the owner of a free lock in agreement exactly when its name is not empty. */
  lemma ReserveKeepsAgreement(l: DeviceLock.Lock, owner: string, now: int)
    requires l.state == DeviceLock.Available && l.owner == ""
    ensures var after := DeviceLock.Apply(l, DeviceLock.Call.Reserve(owner, now)).0;
            (after.state == DeviceLock.Available <==> after.owner == "") <==> owner != ""
  {
  }

  /** No thread starts with a call that reserves in an empty name. */
  ghost predicate NamesGiven(s: Cluster) {
    forall i, k :: 0 <= i < |s.threads| && 0 <= k < |s.threads[i].script| ==>
      var a := s.threads[i].script[k];
      a.Call? && a.op.Reserve? ==> a.op.owner != ""
  }

  lemma {:induction false} RunNamed(states: seq<Cluster>, k: nat)
    requires Run(states) && k < |states| && NamesGiven(states[0])
    ensures AllNamed(states[k])
  {
    if k == 0 {
      InitialInvariant(states[0]);
      forall i, a | 0 <= i < |states[0].threads| && a in states[0].threads[i].script
        ensures Permitted(Rules(states[0].threads[i].role, true, None), a)
      {
        var n :| 0 <= n < |states[0].threads[i].script| && states[0].threads[i].script[n] == a;
      }
    } else {
      RunNamed(states, k - 1);
      RunInvariant(states, k - 1);
      assert Follows(states[k - 1], states[k]);
      var i: nat, pick: Path :| Enabled(states[k - 1], i, pick) && states[k] == Next(states[k - 1], i, pick);
      StepKeepsNames(states[k - 1], i, pick);
    }
  }

  /**
   In every run a reservation lapses only because it was made, in that name and on that lock, before the cutoff, and
   has not been given up since.
   */
  lemma LapsesAreStale(states: seq<Cluster>, k: nat, id: nat, name: string, cutoff: int) returns (j: nat, at: int)
    requires Run(states) && k < |Last(states).shared.trace|
    requires Last(states).shared.trace[k] == Entry(id, DeviceLock.Lapsed(name, cutoff))
    ensures j < k && Last(states).shared.trace[j] == Entry(id, DeviceLock.Taken(name, at)) && at < cutoff
    ensures forall i :: j < i < k ==> !Frees(Last(states).shared.trace[i], id, name)
  {
    RunInvariant(states, |states| - 1);
    j, at := LapsesAreOverdue(Last(states).shared.trace, k, id, name, cutoff);
  }

  /** In every run that reserves in non-empty names only, a lock is available exactly when its owner is empty. */
  lemma AvailableIffUnowned(states: seq<Cluster>, id: nat)
    requires Run(states) && NamesGiven(states[0])
    ensures var l := LockAt(Last(states).shared.locks, id);
            l.state == DeviceLock.Available <==> l.owner == ""
  {
    RunInvariant(states, |states| - 1);
    RunNamed(states, |states| - 1);
    var s := Last(states).shared;
    assert HoldingOf(s.trace, id) == DeviceLock.HoldOf(LockAt(s.locks, id));
    if HolderOf(s.trace, id) == Some("") {
      var j := HeldSince(s.trace, id);
      assert false;
    }
  }
}
