/** No job is lost or handled twice on its way through the executor's channels (internal/cluster/executor.go). */
module JobFlow {
  import opened Locking
  import opened Cluster
  import opened Interleaving
  import opened Wrappers
  import opened Permissions
  import opened Reservations
  import DeviceLock

  /** How often what is left of a script takes the steps that are counted. */
  function Count(script: seq<Action>, counted: Action -> bool): nat
    decreases |script|
  {
    if script == [] then 0 else (if counted(script[0]) then 1 else 0) + Count(script[1..], counted)
  }

  function InProgress(ts: seq<Thread>, counted: Action -> bool): nat
    decreases |ts|
  {
    if ts == [] then 0 else Count(ts[0].script, counted) + InProgress(ts[1..], counted)
  }

  /** The step that sends the job as a result. */
  function Sending(job: Job): Action -> bool {
    (a: Action) => a == Send(job)
  }

  /** The steps that submit the job, or will. */
  function Submitting(job: Job): Action -> bool {
    (a: Action) => a == Submit(job) || a == Call(Dispatch(job))
  }

  /** Jobs behind the submission: waiting, finished or settled. */
  function Passed(s: Shared, job: Job): int {
    var behind: int := multiset(s.jobs)[job] + multiset(s.results)[job] + multiset(s.settled)[job];
    behind - multiset(s.submitted)[job] as int
  }

  ghost predicate Conserved(s: Cluster, job: Job) {
    Passed(s.shared, job) + InProgress(s.threads, Sending(job)) == 0
  }

  lemma {:induction false} CountConcat(a: seq<Action>, b: seq<Action>, counted: Action -> bool)
    ensures Count(a + b, counted) == Count(a, counted) + Count(b, counted)
    decreases |a|
  {
    if a == [] {
      assert a + b == b;
    } else {
      assert (a + b)[1..] == a[1..] + b;
      CountConcat(a[1..], b, counted);
    }
  }

  lemma {:induction false} NoneCounted(script: seq<Action>, counted: Action -> bool)
    requires forall a :: a in script ==> !counted(a)
    ensures Count(script, counted) == 0
    decreases |script|
  {
    if script != [] {
      assert script[0] in script;
      NoneCounted(script[1..], counted);
    }
  }

  lemma OneCounted(a: Action, counted: Action -> bool)
    ensures Count([a], counted) == if counted(a) then 1 else 0
  {
    assert [a][1..] == [];
  }

  lemma {:induction false} OneThreadCounts(ts: seq<Thread>, i: nat, t: Thread, counted: Action -> bool)
    requires i < |ts|
    ensures InProgress(ts[i := t], counted)
         == InProgress(ts, counted) - Count(ts[i].script, counted) + Count(t.script, counted)
    decreases |ts|
  {
    if i == 0 {
      assert ts[i := t][1..] == ts[1..];
    } else {
      assert ts[i := t][1..] == ts[1..][i - 1 := t];
      OneThreadCounts(ts[1..], i - 1, t, counted);
    }
  }

  lemma PlainCountsNothing(script: seq<Action>, job: Job)
    requires AllPlain(script)
    ensures Count(script, Sending(job)) == 0 && Count(script, Submitting(job)) == 0
  {
    NoneCounted(script, Sending(job));
    NoneCounted(script, Submitting(job));
  }

  lemma PlainBefore(plain: seq<Action>, rest: seq<Action>, job: Job)
    requires AllPlain(plain)
    ensures Count(plain + rest, Sending(job)) == Count(rest, Sending(job))
    ensures Count(plain + rest, Submitting(job)) == Count(rest, Submitting(job))
  {
    PlainCountsNothing(plain, job);
    CountConcat(plain, rest, Sending(job));
    CountConcat(plain, rest, Submitting(job));
  }

  lemma WorkCounts(job: Job, other: Job)
    ensures Count(Work(job), Sending(other)) == if job == other then 1 else 0
    ensures Count(Work(job), Submitting(other)) == 0
  {
    var section, look := Section(Writing, JobMutex(job.id), []), Section(Reading, Leader, []);
    PlainSection(Writing, JobMutex(job.id), []);
    PlainSection(Reading, Leader, []);
    PlainBefore(section, look + (section + [Send(job)]), other);
    PlainBefore(look, section + [Send(job)], other);
    PlainBefore(section, [Send(job)], other);
    OneCounted(Send(job), Sending(other));
    OneCounted(Send(job), Submitting(other));
  }

  lemma SettleCountsNothing(job: Job, other: Job)
    ensures Count(Settle(job), Sending(other)) == 0 && Count(Settle(job), Submitting(other)) == 0
  {
    SettlePlain(job);
    PlainCountsNothing(Settle(job), other);
  }

  /** A dispatch submits its job, once. */
  lemma DispatchCounts(job: Job, other: Job)
    ensures Count(DispatchScript(job), Submitting(other)) == if job == other then 1 else 0
  {
    var look, stamp := Section(Reading, Leader, []), Section(Writing, Leader, [Stamp(job.path, "busy")]);
    JobUnderQueuePlain(job);
    PlainSection(Writing, Leader, [Stamp(job.path, "busy")]);
    PlainSection(Reading, Leader, []);
    PlainBefore(JobUnderQueue(job), look + (stamp + [Submit(job)]), other);
    PlainBefore(look, stamp + [Submit(job)], other);
    PlainBefore(stamp, [Submit(job)], other);
    OneCounted(Submit(job), Submitting(other));
  }

  lemma CallCounts(op: Op, job: Job)
    ensures Count(Script(op), Submitting(job)) == if op == Dispatch(job) then 1 else 0
  {
    if op.Dispatch? {
      DispatchCounts(op.job, job);
    } else if op.Reserve? {
      NoneCounted(Script(op), Submitting(job));
    } else {
      ScriptPlain(op);
      PlainCountsNothing(Script(op), job);
    }
  }

  /** What a step that submits nothing turns into submits nothing either. */
  lemma StepCounts(s: Shared, a: Action, pick: Path, job: Job)
    requires !a.Call? && !a.RLock? && !a.Lock? && !a.Unlock? && !IsUpdate(a)
    ensures Count(Expand(s, a, pick), Submitting(job)) == 0
  {
    if a.Find? {
      NoneCounted(Expand(s, a, pick), Submitting(job));
    } else if !a.Submit? && !a.Send? {
      ExpandPermitted(Rules(Handler, false, None), s, a, pick);
      NoneCounted(Expand(s, a, pick), Submitting(job));
    }
  }

  /** What a step that sends nothing turns into sends nothing either. */
  lemma ReplacementSends(s: Shared, a: Action, pick: Path, job: Job)
    requires !a.RLock? && !a.Lock? && !a.Unlock? && !IsUpdate(a)
    ensures Count(Expand(s, a, pick), Sending(job)) == 0
  {
    if !a.Send? {
      ExpandPermitted(Rules(Caller, false, None), s, a, pick);
      NoneCounted(Expand(s, a, pick), Sending(job));
    }
  }

  lemma ReplacementSubmits(s: Shared, a: Action, pick: Path, job: Job)
    requires !a.RLock? && !a.Lock? && !a.Unlock? && !IsUpdate(a)
    ensures Count(Expand(s, a, pick), Submitting(job)) == if a == Call(Dispatch(job)) then 1 else 0
  {
    if a.Call? {
      CallCounts(a.op, job);
    } else {
      StepCounts(s, a, pick, job);
    }
  }

  lemma FirstAndRest(js: seq<Job>)
    requires js != []
    ensures multiset(js) == multiset{js[0]} + multiset(js[1..])
  {
    assert js == [js[0]] + js[1..];
  }

  lemma EffectPasses(s: Shared, a: Action, pick: Path, job: Job)
    ensures Passed(Effect(s, a, pick), job) == Passed(s, job) + if a == Send(job) then 1 else 0
  {
  }

  lemma EffectSubmits(s: Shared, a: Action, pick: Path, job: Job)
    ensures multiset(Effect(s, a, pick).submitted)[job]
         == multiset(s.submitted)[job] + if a == Submit(job) then 1 else 0
  {
  }

  /** The jobs behind the submission and those being sent; the jobs submitted and those to be submitted. */
  function Flow(s: Shared, t: Thread, job: Job): (int, int) {
    (Passed(s, job) + Count(t.script, Sending(job)), multiset(s.submitted)[job] + Count(t.script, Submitting(job)))
  }

  lemma JobTaken(s: Shared, job: Job)
    requires s.jobs != []
    ensures Passed(s.(jobs := s.jobs[1..]), job) == Passed(s, job) - if s.jobs[0] == job then 1 else 0
  {
    FirstAndRest(s.jobs);
  }

  lemma ResultTaken(s: Shared, job: Job)
    requires s.results != []
    ensures Passed(s.(results := s.results[1..], settled := s.settled + [s.results[0]]), job) == Passed(s, job)
  {
    FirstAndRest(s.results);
  }

  lemma IdleTakeConserves(s: Shared, t: Thread, pick: Path, job: Job)
    requires t.script == []
    ensures Flow(Take(s, t, pick).0, Take(s, t, pick).1, job) == Flow(s, t, job)
  {
    if t.role.Worker? && s.jobs != [] {
      WorkerTakes(s, t, pick, job);
    } else if t.role.Handler? && s.results != [] {
      HandlerTakes(s, t, pick, job);
    }
  }

  lemma WorkerTakes(s: Shared, t: Thread, pick: Path, job: Job)
    requires t.script == [] && t.role.Worker? && s.jobs != []
    ensures Flow(Take(s, t, pick).0, Take(s, t, pick).1, job) == Flow(s, t, job)
  {
    assert Take(s, t, pick) == (s.(jobs := s.jobs[1..]), t.(script := Work(s.jobs[0])));
    WorkCounts(s.jobs[0], job);
    JobTaken(s, job);
  }

  lemma HandlerTakes(s: Shared, t: Thread, pick: Path, job: Job)
    requires t.script == [] && t.role.Handler? && s.results != []
    ensures Flow(Take(s, t, pick).0, Take(s, t, pick).1, job) == Flow(s, t, job)
  {
    var after := s.(results := s.results[1..], settled := s.settled + [s.results[0]]);
    assert Take(s, t, pick) == (after, t.(script := Settle(s.results[0])));
    SettleCountsNothing(s.results[0], job);
    ResultTaken(s, job);
  }

  lemma HeadApart(a: Action, rest: seq<Action>, job: Job)
    ensures Count([a] + rest, Sending(job)) == (if a == Send(job) then 1 else 0) + Count(rest, Sending(job))
    ensures Count([a] + rest, Submitting(job))
         == (if a == Submit(job) || a == Call(Dispatch(job)) then 1 else 0) + Count(rest, Submitting(job))
  {
    assert ([a] + rest)[1..] == rest;
  }

  lemma WriteKeepsJobs(s: Shared, a: Action, read: DeviceLock.Lock, job: Job)
    requires IsUpdate(a)
    ensures var after := Written(s, a, read);
            Passed(after, job) == Passed(s, job) && after.submitted == s.submitted
  {
  }

  lemma UpdateConserves(s: Shared, t: Thread, pick: Path, job: Job)
    requires t.script != [] && IsUpdate(t.script[0]) && t.phase.Loaded?
    ensures Flow(Take(s, t, pick).0, Take(s, t, pick).1, job) == Flow(s, t, job)
  {
    var a, rest := t.script[0], t.script[1..];
    var s', more := Written(s, a, t.phase.lock), AfterWrite(a, DeviceLock.Apply(t.phase.lock, CallOf(a)).1);
    TakeWrites(s, t, pick);
    assert Passed(s', job) == Passed(s, job) && s'.submitted == s.submitted by {
      WriteKeepsJobs(s, a, t.phase.lock, job);
    }
    UpdateCounts(a, DeviceLock.Apply(t.phase.lock, CallOf(a)).1, rest, job);
  }

  lemma TakeWrites(s: Shared, t: Thread, pick: Path)
    requires t.script != [] && IsUpdate(t.script[0]) && t.phase.Loaded?
    ensures var a, rest := t.script[0], t.script[1..];
            && Take(s, t, pick).0 == Written(s, a, t.phase.lock) && t.script == [a] + rest
            && Take(s, t, pick).1.script == AfterWrite(a, DeviceLock.Apply(t.phase.lock, CallOf(a)).1) + rest
  {
  }

  lemma UpdateCounts(a: Action, ok: bool, rest: seq<Action>, job: Job)
    requires IsUpdate(a)
    ensures Count(AfterWrite(a, ok) + rest, Sending(job)) == Count([a] + rest, Sending(job))
    ensures Count(AfterWrite(a, ok) + rest, Submitting(job)) == Count([a] + rest, Submitting(job))
  {
    AfterWritePlain(a, ok);
    PlainBefore(AfterWrite(a, ok), rest, job);
    HeadApart(a, rest, job);
  }

  lemma ExpandConserves(s: Shared, t: Thread, pick: Path, job: Job)
    requires t.script != [] && !IsUpdate(t.script[0])
    requires var a := t.script[0]; !a.RLock? && !a.Lock? && !a.Unlock?
    ensures Flow(Take(s, t, pick).0, Take(s, t, pick).1, job) == Flow(s, t, job)
  {
    var a, rest := t.script[0], t.script[1..];
    var s', more := Effect(s, a, pick), Expand(s, a, pick) + rest;
    TakeExpands(s, t, pick);
    assert Passed(s', job) + Count(more, Sending(job)) == Passed(s, job) + Count([a] + rest, Sending(job)) by {
      EffectPasses(s, a, pick, job);
      ExpandCounts(s, a, pick, rest, job);
      HeadApart(a, rest, job);
    }
    assert multiset(s'.submitted)[job] + Count(more, Submitting(job))
        == multiset(s.submitted)[job] + Count([a] + rest, Submitting(job)) by {
      EffectSubmits(s, a, pick, job);
      ExpandCounts(s, a, pick, rest, job);
      HeadApart(a, rest, job);
    }
  }

  lemma TakeExpands(s: Shared, t: Thread, pick: Path)
    requires t.script != [] && !IsUpdate(t.script[0])
    requires var a := t.script[0]; !a.RLock? && !a.Lock? && !a.Unlock?
    ensures var a, rest := t.script[0], t.script[1..];
            Take(s, t, pick) == (Effect(s, a, pick), t.(script := Expand(s, a, pick) + rest)) && t.script == [a] + rest
  {
  }

  lemma ExpandCounts(s: Shared, a: Action, pick: Path, rest: seq<Action>, job: Job)
    requires !a.RLock? && !a.Lock? && !a.Unlock? && !IsUpdate(a)
    ensures var more := Expand(s, a, pick) + rest;
            && Count(more, Sending(job)) == Count(rest, Sending(job))
            && Count(more, Submitting(job))
               == (if a == Call(Dispatch(job)) then 1 else 0) + Count(rest, Submitting(job))
  {
    ReplacementSends(s, a, pick, job);
    ReplacementSubmits(s, a, pick, job);
    CountConcat(Expand(s, a, pick), rest, Sending(job));
    CountConcat(Expand(s, a, pick), rest, Submitting(job));
  }

  lemma TakeConserves(s: Shared, t: Thread, pick: Path, job: Job)
    ensures Flow(Take(s, t, pick).0, Take(s, t, pick).1, job) == Flow(s, t, job)
  {
    if t.script == [] {
      IdleTakeConserves(s, t, pick, job);
    } else if IsUpdate(t.script[0]) {
      if t.phase.Loaded? {
        UpdateConserves(s, t, pick, job);
      }
    } else {
      var a := t.script[0];
      if !a.RLock? && !a.Lock? && !a.Unlock? {
        ExpandConserves(s, t, pick, job);
      } else {
        assert t.script == [a] + t.script[1..];
        HeadApart(a, t.script[1..], job);
      }
    }
  }

  lemma {:induction false} CallsSendNothing(ts: seq<Thread>, job: Job)
    requires forall i, k :: 0 <= i < |ts| && 0 <= k < |ts[i].script| ==> ts[i].script[k].Call?
    ensures InProgress(ts, Sending(job)) == 0
    decreases |ts|
  {
    if ts != [] {
      NoneCounted(ts[0].script, Sending(job));
      CallsSendNothing(ts[1..], job);
    }
  }

  /**
   In every interleaving each submitted job is counted once: waiting for a worker, being worked on, waiting for the
   result handler, or settled. And the jobs submitted are those of the dispatches that have got that far.
   */
  lemma {:induction false} JobsAreConserved(states: seq<Cluster>, k: nat, job: Job)
    requires Run(states) && k < |states|
    ensures Conserved(states[k], job)
    ensures multiset(states[k].shared.submitted)[job] + InProgress(states[k].threads, Submitting(job))
         == InProgress(states[0].threads, Submitting(job))
  {
    if k == 0 {
      var s := states[0];
      forall i | 0 <= i < |s.threads|
        ensures forall n :: 0 <= n < |s.threads[i].script| ==> s.threads[i].script[n].Call?
      {
      }
      CallsSendNothing(s.threads, job);
    } else {
      JobsAreConserved(states, k - 1, job);
      assert Follows(states[k - 1], states[k]);
      var i: nat, pick: Path :| Enabled(states[k - 1], i, pick) && states[k] == Next(states[k - 1], i, pick);
      StepConserves(states[k - 1], i, pick, job);
    }
  }

  lemma StepConserves(s: Cluster, i: nat, pick: Path, job: Job)
    requires i < |s.threads|
    ensures var after := Next(s, i, pick);
            && Passed(after.shared, job) + InProgress(after.threads, Sending(job))
               == Passed(s.shared, job) + InProgress(s.threads, Sending(job))
            && multiset(after.shared.submitted)[job] + InProgress(after.threads, Submitting(job))
               == multiset(s.shared.submitted)[job] + InProgress(s.threads, Submitting(job))
  {
    TakeConserves(s.shared, s.threads[i], pick, job);
    OneThreadCounts(s.threads, i, Take(s.shared, s.threads[i], pick).1, Sending(job));
    OneThreadCounts(s.threads, i, Take(s.shared, s.threads[i], pick).1, Submitting(job));
  }

  lemma {:induction false} NothingInProgress(ts: seq<Thread>, counted: Action -> bool)
    requires forall i :: 0 <= i < |ts| ==> ts[i].script == []
    ensures InProgress(ts, counted) == 0
    decreases |ts|
  {
    if ts != [] {
      NothingInProgress(ts[1..], counted);
    }
  }

  /**
   When all work is done, exactly the submitted jobs have been settled, and these are the jobs of the dispatch calls
   the threads started with, each as often as it was dispatched.
   */
  lemma EveryJobIsSettled(states: seq<Cluster>)
    requires Run(states) && Finished(Last(states))
    ensures multiset(Last(states).shared.settled) == multiset(Last(states).shared.submitted)
    ensures forall job: Job ::
              multiset(Last(states).shared.settled)[job] == InProgress(states[0].threads, Submitting(job))
  {
    var s := Last(states);
    forall job: Job
      ensures multiset(s.shared.settled)[job] == multiset(s.shared.submitted)[job]
      ensures multiset(s.shared.settled)[job] == InProgress(states[0].threads, Submitting(job))
    {
      JobsAreConserved(states, |states| - 1, job);
      NothingInProgress(s.threads, Sending(job));
      NothingInProgress(s.threads, Submitting(job));
    }
  }

  // The channels.

  /** The jobs that wait for a worker are the last ones submitted, and neither channel holds more than it can. */
  ghost predicate Queued(s: Shared) {
    && |s.jobs| <= |s.submitted| && s.submitted[|s.submitted| - |s.jobs|..] == s.jobs
    && |s.jobs| <= CAPACITY && |s.results| <= CAPACITY
  }

  /** The jobs settled so far and those waiting for the handler. */
  function Done(s: Shared): seq<Job> { s.settled + s.results }

  lemma EffectKeepsOrder(s: Shared, a: Action, pick: Path)
    requires Queued(s)
    requires (a.Submit? ==> |s.jobs| < CAPACITY) && (a.Send? ==> |s.results| < CAPACITY)
    ensures Queued(Effect(s, a, pick)) && Done(s) <= Done(Effect(s, a, pick))
  {
    var after := Effect(s, a, pick);
    if a.Send? {
      assert Done(after) == Done(s) + [a.job];
    } else {
      assert Done(after) == Done(s);
    }
  }

  lemma IdleKeepsOrder(s: Shared, t: Thread, pick: Path)
    requires Queued(s) && t.script == []
    ensures Queued(Take(s, t, pick).0) && Done(Take(s, t, pick).0) == Done(s)
  {
    if t.role.Handler? && s.results != [] {
      assert s.results == [s.results[0]] + s.results[1..];
    }
  }

  lemma StepKeepsOrder(s: Cluster, i: nat, pick: Path)
    requires Enabled(s, i, pick) && Queued(s.shared)
    ensures Queued(Next(s, i, pick).shared) && Done(s.shared) <= Done(Next(s, i, pick).shared)
  {
    var t := s.threads[i];
    if t.script == [] {
      IdleKeepsOrder(s.shared, t, pick);
    } else {
      EffectKeepsOrder(s.shared, t.script[0], pick);
    }
  }

  /**
   In every interleaving both channels are first in, first out and stay within their capacity: the jobs that wait are
   the last ones submitted, in that order, and results are settled in the order they were sent.
   */
  lemma {:induction false} ChannelsKeepOrder(states: seq<Cluster>, j: nat, k: nat)
    requires Run(states) && j <= k < |states|
    ensures Queued(states[k].shared) && Done(states[j].shared) <= Done(states[k].shared)
    decreases k
  {
    if k > 0 {
      ChannelsKeepOrder(states, if j < k then j else k - 1, k - 1);
      assert Follows(states[k - 1], states[k]);
      var i: nat, pick: Path :| Enabled(states[k - 1], i, pick) && states[k] == Next(states[k - 1], i, pick);
      StepKeepsOrder(states[k - 1], i, pick);
    }
  }
}
