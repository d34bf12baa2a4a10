/** Histories of reservations: the order in which the locks of a registry were taken and freed. */
module History {
  import opened Wrappers
  import opened DeviceLock

  datatype Entry = Entry(id: nat, event: Event)

  function Held(holders: map<nat, Hold>, id: nat): Option<Hold> {
    if id in holders then Some(holders[id]) else None
  }

  function Updated(holders: map<nat, Hold>, id: nat, hold: Option<Hold>): map<nat, Hold> {
    match hold
    case None => holders - {id}
    case Some(h) => holders[id := h]
  }

  /** Who holds which lock, and since when, after a history; nothing when some entry breaks the ownership rules. */
  function Replay(trace: seq<Entry>): Option<map<nat, Hold>> {
    if trace == [] then Some(map[])
    else
      var last := trace[|trace| - 1];
      match Replay(trace[..|trace| - 1])
      case None => None
      case Some(holders) =>
        if !Allowed(Held(holders, last.id), last.event) then None
        else Some(Updated(holders, last.id, HoldAfter(Held(holders, last.id), last.event)))
  }

  predicate Frees(e: Entry, id: nat, name: string) {
    e.id == id && (e.event == GivenBack(name) || e.event == Forced || (e.event.Lapsed? && e.event.name == name))
  }

  predicate Legal(trace: seq<Entry>) { Replay(trace).Some? }

  function HoldingOf(trace: seq<Entry>, id: nat): Option<Hold>
    requires Legal(trace)
  {
    Held(Replay(trace).value, id)
  }

  function HolderOf(trace: seq<Entry>, id: nat): Option<string>
    requires Legal(trace)
  {
    match HoldingOf(trace, id)
    case None => None
    case Some(hold) => Some(hold.name)
  }

  lemma {:induction false} PrefixLegal(trace: seq<Entry>, k: nat)
    requires k <= |trace| && Legal(trace)
    ensures Legal(trace[..k])
    decreases |trace|
  {
    if k == |trace| {
      assert trace[..k] == trace;
    } else {
      PrefixLegal(trace[..|trace| - 1], k);
      assert trace[..|trace| - 1][..k] == trace[..k];
    }
  }

  lemma OneMoreEntry(trace: seq<Entry>, e: Entry)
    requires Legal(trace) && Allowed(HoldingOf(trace, e.id), e.event)
    ensures Legal(trace + [e])
    ensures forall id ::
              HoldingOf(trace + [e], id)
              == if id == e.id then HoldAfter(HoldingOf(trace, id), e.event) else HoldingOf(trace, id)
  {
    assert (trace + [e])[..|trace|] == trace;
  }

  /**
   A holder loses a lock only through a release in its own name, a forced release, or the expiry of its own
   reservation: the late release of a job that held the lock before cannot free it.
   */
  lemma {:induction false} HolderKeepsLock(trace: seq<Entry>, k: nat, id: nat, name: string)
    requires k <= |trace| && Legal(trace) && Legal(trace[..k])
    requires HolderOf(trace[..k], id) == Some(name)
    requires forall i :: k <= i < |trace| ==> !Frees(trace[i], id, name)
    ensures HolderOf(trace, id) == Some(name)
    decreases |trace|
  {
    if k == |trace| {
      assert trace[..k] == trace;
    } else {
      var before := trace[..|trace| - 1];
      PrefixLegal(trace, |trace| - 1);
      assert before[..k] == trace[..k];
      HolderKeepsLock(before, k, id, name);
      assert !Frees(trace[|trace| - 1], id, name);
    }
  }

  /** Between two reservations of a lock its first holder has lost it. */
  lemma OneOwnerAtATime(trace: seq<Entry>, i: nat, j: nat, id: nat, first: string, second: string,
                        at: int, later: int)
    requires i < j < |trace| && Legal(trace)
    requires trace[i] == Entry(id, Taken(first, at)) && trace[j] == Entry(id, Taken(second, later))
    ensures exists k :: i < k < j && Frees(trace[k], id, first)
  {
    PrefixLegal(trace, i + 1);
    PrefixLegal(trace, j);
    PrefixLegal(trace, j + 1);
    assert trace[..i + 1][|trace[..i + 1]| - 1] == trace[i];
    assert HolderOf(trace[..i + 1], id) == Some(first);
    assert trace[..j][..i + 1] == trace[..i + 1];
    assert trace[..j + 1][..j] == trace[..j] && trace[..j + 1][j] == trace[j];
    assert HolderOf(trace[..j], id) == None;
    if forall k :: i < k < j ==> !Frees(trace[k], id, first) {
      HolderKeepsLock(trace[..j], i + 1, id, first);
      assert false;
    }
  }

  /** Who holds a lock has taken it at the time the lock remembers, and nothing has freed it since. */
  lemma {:induction false} HeldSince(trace: seq<Entry>, id: nat) returns (j: nat)
    requires Legal(trace) && HoldingOf(trace, id).Some?
    ensures var hold := HoldingOf(trace, id).value;
            j < |trace| && trace[j] == Entry(id, Taken(hold.name, hold.since))
            && forall i :: j < i < |trace| ==> !Frees(trace[i], id, hold.name)
    decreases |trace|
  {
    var last, before := trace[|trace| - 1], trace[..|trace| - 1];
    if last.id == id && last.event.Taken? {
      j := |trace| - 1;
    } else {
      j := HeldSince(before, id);
      assert HoldingOf(before, id) == HoldingOf(trace, id);
      forall i | j < i < |trace|
        ensures !Frees(trace[i], id, HoldingOf(trace, id).value.name)
      {
        assert i < |before| ==> trace[i] == before[i];
      }
    }
  }

  /** A hold lapses only if it was taken before the cutoff, and by the same name. */
  lemma LapsesAreOverdue(trace: seq<Entry>, k: nat, id: nat, name: string, cutoff: int) returns (j: nat, at: int)
    requires Legal(trace) && k < |trace| && trace[k] == Entry(id, Lapsed(name, cutoff))
    ensures j < k && trace[j] == Entry(id, Taken(name, at)) && at < cutoff
    ensures forall i :: j < i < k ==> !Frees(trace[i], id, name)
  {
    PrefixLegal(trace, k);
    PrefixLegal(trace, k + 1);
    var before := trace[..k];
    assert trace[..k + 1][..k] == before && trace[..k + 1][k] == trace[k];
    j := HeldSince(before, id);
    at := HoldingOf(before, id).value.since;
    assert trace[j] == before[j];
    forall i | j < i < k
      ensures !Frees(trace[i], id, name)
    {
      assert trace[i] == before[i];
    }
  }
}
