/** The reservation of one device (`DeviceLock` of internal/cluster/device_lock.go). */
module DeviceLock {
  import opened Wrappers

  datatype State = Available | Reserved | Busy | Error

  datatype Lock = Lock(state: State, owner: string, since: int)

  /** What a registry operation does to a lock while it holds the lock's mutex. */
  datatype Call = Reserve(owner: string, now: int) | Release(owner: string) | Acquire(owner: string) | Force
    | Expire(cutoff: int)

  const FREE := Lock(Available, "", 0)

  /** The lock afterwards, and whether the call succeeded. */
  function Apply(l: Lock, call: Call): (Lock, bool) {
    match call
    case Reserve(owner, now) => if l.state == Available then (Lock(Reserved, owner, now), true) else (l, false)
    case Release(owner) => if l.owner == owner then (Lock(Available, "", l.since), true) else (l, false)
    case Acquire(owner) =>
      if l.state == Busy && l.owner == owner then (l, true)
      else if l.state == Reserved && l.owner == owner then (l.(state := Busy), true)
      else (l, false)
    case Force => (Lock(Available, "", l.since), true)
    case Expire(cutoff) =>
      if l.state in {Reserved, Busy} && l.since < cutoff then (Lock(Available, "", l.since), true) else (l, false)
  }

  class Device {
    var state: State
    var owner: string
    var reservedAt: int

    constructor ()
      ensures Value() == FREE
    {
      state, owner, reservedAt := Available, "", 0;
    }

    function Value(): Lock
      reads this
    {
      Lock(state, owner, reservedAt)
    }

    method Reserve(requester: string, now: int) returns (ok: bool)
      modifies this
      ensures (Value(), ok) == Apply(old(Value()), Call.Reserve(requester, now))
      ensures ok <==> old(state) == Available
      ensures Value() == if ok then Lock(Reserved, requester, now) else old(Value())
    {
      if state != Available {
        return false;
      }
      state := Reserved;
      owner := requester;
      reservedAt := now;
      return true;
    }

    method Release(requester: string) returns (ok: bool)
      modifies this
      ensures (Value(), ok) == Apply(old(Value()), Call.Release(requester))
      ensures ok <==> old(owner) == requester
      ensures Value() == if ok then Lock(Available, "", old(reservedAt)) else old(Value())
    {
      if owner != requester {
        return false;
      }
      state := Available;
      owner := "";
      return true;
    }

    method Acquire(requester: string) returns (ok: bool)
      modifies this
      ensures (Value(), ok) == Apply(old(Value()), Call.Acquire(requester))
      ensures ok <==> old(state) in {Reserved, Busy} && old(owner) == requester
      ensures Value() == if ok then Lock(Busy, requester, old(reservedAt)) else old(Value())
    {
      if state == Error {
        return false;
      }
      if state == Busy && owner == requester {
        return true;
      }
      if state != Reserved || owner != requester {
        return false;
      }
      state := Busy;
      return true;
    }

    method ForceRelease() returns (previous: string)
      modifies this
      ensures Value() == Apply(old(Value()), Force).0 && previous == old(owner)
      ensures Value() == Lock(Available, "", old(reservedAt))
    {
      previous := owner;
      state := Available;
      owner := "";
    }

    /** One turn of the loop of `CleanupStaleReservations`. */
    method Expire(cutoff: int) returns (ok: bool)
      modifies this
      ensures (Value(), ok) == Apply(old(Value()), Call.Expire(cutoff))
      ensures ok <==> Overdue(old(Value()), cutoff)
      ensures Value() == if ok then Lock(Available, "", old(reservedAt)) else old(Value())
    {
      ok := false;
      if state == Reserved || state == Busy {
        if reservedAt < cutoff {
          state := Available;
          owner := "";
          ok := true;
        }
      }
    }
  }

  // The ownership rules, without states.

  datatype Event = Taken(name: string, at: int) | GivenBack(name: string) | Forced | Lapsed(name: string, cutoff: int)

  /** Who holds a lock, and since when. */
  datatype Hold = Hold(name: string, since: int)

  function HoldOf(l: Lock): Option<Hold> {
    if l.state == Available then None else Some(Hold(l.owner, l.since))
  }

  function Holder(l: Lock): Option<string> {
    if l.state == Available then None else Some(l.owner)
  }

  /** What a call on a lock does to its ownership, if anything. */
  function EventOf(l: Lock, call: Call): Option<Event> {
    if !Apply(l, call).1 then None
    else match call
      case Reserve(owner, now) => Some(Taken(owner, now))
      case Release(owner) => Some(GivenBack(owner))
      case Acquire(_) => None
      case Force => Some(Forced)
      case Expire(cutoff) => Some(Lapsed(l.owner, cutoff))
  }

  /** Who may do what: only a free device is reserved, only its holder releases it, and only an old hold lapses. */
  predicate Allowed(hold: Option<Hold>, e: Event) {
    match e
    case Taken(_, _) => hold == None
    case GivenBack(name) => if hold.Some? then hold.value.name == name else name == ""
    case Forced => true
    case Lapsed(name, cutoff) => hold.Some? && hold.value.name == name && hold.value.since < cutoff
  }

  function HoldAfter(hold: Option<Hold>, e: Event): Option<Hold> {
    match e
    case Taken(name, at) => Some(Hold(name, at))
    case _ => None
  }

  predicate OwnerClear(l: Lock) {
    l.state == Available ==> l.owner == ""
  }

  /** The calls keep the ownership rules. */
  lemma CallIsAllowed(l: Lock, call: Call)
    requires OwnerClear(l)
    ensures OwnerClear(Apply(l, call).0)
    ensures match EventOf(l, call)
            case None => HoldOf(Apply(l, call).0) == HoldOf(l)
            case Some(e) => Allowed(HoldOf(l), e) && HoldAfter(HoldOf(l), e) == HoldOf(Apply(l, call).0)
  {
  }

  /** A reservation that is older than the cutoff. */
  predicate Overdue(l: Lock, cutoff: int) {
    (l.state == Reserved || l.state == Busy) && l.since < cutoff
  }
}
