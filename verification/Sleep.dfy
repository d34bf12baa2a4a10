/**
 The sleep manager (internal/devicesleep/manager.go): which boards are recorded as sleeping, against the power
 of the hub ports they hang on, driven through a controller whose calls may fail.
 */
module Sleep {
  import opened Wrappers

  type Path = string

  datatype Port = Port(location: string, number: int)

  /** A board that was never touched has no last use. */
  datatype Board = Board(port: Port, sleeping: bool, busy: bool, lastUsed: Option<int>)

  type Boards = map<Path, Board>

  /** The manager's records and the ports that are powered. */
  datatype State = State(boards: Boards, on: set<Port>)

  datatype Result = Done | Unknown | InUse | NoHub | SwitchFailed | OffFailed | OnFailed

  datatype PowerCall = PowerCall(port: Port, on: bool)

  /** The hubs and their ports. A call on a healthy controller fails only for a hub or a port it does not have. */
  class Controller {
    var hubs: map<string, int>
    var on: set<Port>
    var calls: seq<PowerCall>
    var healthy: bool

    constructor (healthy: bool)
      ensures hubs == map[] && on == {} && calls == [] && this.healthy == healthy
    {
      hubs, on, calls := map[], {}, [];
      this.healthy := healthy;
    }

    method AddHub(location: string, ports: int)
      modifies this`hubs
      ensures hubs == old(hubs)[location := ports]
    {
      hubs := hubs[location := ports];
    }

    predicate Has(port: Port)
      reads this
    {
      port.location in hubs && 1 <= port.number <= hubs[port.location]
    }

    method FindHub(location: string) returns (found: bool)
      ensures found ==> location in hubs
      ensures healthy && location in hubs ==> found
    {
      var fault: bool := *;
      found := location in hubs && (healthy || !fault);
    }

    method SetPower(port: Port, power: bool) returns (ok: bool)
      modifies this`on, this`calls
      ensures ok ==>
                Has(port) && on == (if power then old(on) + {port} else old(on) - {port})
                && calls == old(calls) + [PowerCall(port, power)]
      ensures !ok ==> on == old(on) && calls == old(calls)
      ensures healthy && Has(port) ==> ok
    {
      var fault: bool := *;
      if port.location !in hubs || (fault && !healthy) {
        return false;
      }
      if port.number < 1 || port.number > hubs[port.location] {
        return false;
      }
      on := if power then on + {port} else on - {port};
      calls := calls + [PowerCall(port, power)];
      return true;
    }
  }

  // What the calls do, by their outcome.

  datatype Event =
    | Nothing
    | Woken(path: Path)
    | Slept(path: Path)
    | CutOff(path: Path)
    | Cycled(path: Path)
    | Touched(path: Path, now: int)
    | Marked(path: Path, busy: bool)
    | MarkedAwake(path: Path)
    | Swept(paths: seq<Path>)

  function Power(s: State, path: Path, power: bool): set<Port>
    requires path in s.boards
  {
    if power then s.on + {s.boards[path].port} else s.on - {s.boards[path].port}
  }

  function SleptAt(s: State, path: Path): State {
    if path in s.boards then State(s.boards[path := s.boards[path].(sleeping := true)], Power(s, path, false)) else s
  }

  function SleepAll(s: State, paths: seq<Path>): State {
    if paths == [] then s else SleptAt(SleepAll(s, paths[..|paths| - 1]), paths[|paths| - 1])
  }

  function After(s: State, e: Event): State {
    match e
    case Nothing => s
    case Woken(p) =>
      if p in s.boards then State(s.boards[p := s.boards[p].(sleeping := false)], Power(s, p, true)) else s
    case Slept(p) => SleptAt(s, p)
    case CutOff(p) => if p in s.boards then State(s.boards, Power(s, p, false)) else s
    case Cycled(p) =>
      if p in s.boards then State(s.boards[p := s.boards[p].(sleeping := false)], Power(s, p, true)) else s
    case Touched(p, now) =>
      if p in s.boards then s.(boards := s.boards[p := s.boards[p].(sleeping := false, lastUsed := Some(now))]) else s
    case Marked(p, busy) => if p in s.boards then s.(boards := s.boards[p := s.boards[p].(busy := busy)]) else s
    case MarkedAwake(p) => if p in s.boards then s.(boards := s.boards[p := s.boards[p].(sleeping := false)]) else s
    case Swept(paths) => SleepAll(s, paths)
  }

  function AfterAll(s: State, events: seq<Event>): State {
    if events == [] then s else After(AfterAll(s, events[..|events| - 1]), events[|events| - 1])
  }

  /** No two boards hang on the same port. */
  ghost predicate Wired(boards: Boards) {
    forall p, q :: p in boards && q in boards && p != q ==> boards[p].port != boards[q].port
  }

  /** A board recorded as sleeping has its port off. */
  ghost predicate SleepingIsOff(s: State) {
    forall p :: p in s.boards && s.boards[p].sleeping ==> s.boards[p].port !in s.on
  }

  ghost predicate SamePorts(a: Boards, b: Boards) {
    a.Keys == b.Keys && forall p :: p in a ==> a[p].port == b[p].port
  }

  lemma {:induction false} SweepKeeps(s: State, paths: seq<Path>)
    requires Wired(s.boards) && SleepingIsOff(s)
    ensures SleepingIsOff(SleepAll(s, paths)) && SamePorts(s.boards, SleepAll(s, paths).boards)
  {
    if paths != [] {
      SweepKeeps(s, paths[..|paths| - 1]);
    }
  }

  lemma EventKeeps(s: State, e: Event)
    requires Wired(s.boards) && SleepingIsOff(s)
    ensures SleepingIsOff(After(s, e)) && SamePorts(s.boards, After(s, e).boards)
  {
    if e.Swept? {
      SweepKeeps(s, e.paths);
    }
  }

  /** With each board on its own port, every run of calls, failed ones included, keeps sleeping boards off. */
  lemma {:induction false} SleepingStaysOff(s: State, events: seq<Event>)
    requires Wired(s.boards) && SleepingIsOff(s)
    ensures SleepingIsOff(AfterAll(s, events)) && SamePorts(s.boards, AfterAll(s, events).boards)
  {
    if events != [] {
      SleepingStaysOff(s, events[..|events| - 1]);
      EventKeeps(AfterAll(s, events[..|events| - 1]), events[|events| - 1]);
    }
  }

  /** Waking a board keeps that exactly when no other sleeping board shares its port. */
  lemma WakingNeedsItsOwnPort(s: State, path: Path)
    requires SleepingIsOff(s) && path in s.boards
    ensures SleepingIsOff(After(s, Woken(path))) <==>
            forall q :: q in s.boards && q != path && s.boards[q].sleeping ==> s.boards[q].port != s.boards[path].port
  {
    var after := After(s, Woken(path));
    if SleepingIsOff(after) {
      forall q | q in s.boards && q != path && s.boards[q].sleeping
        ensures s.boards[q].port != s.boards[path].port
      {
        assert after.boards[q] == s.boards[q];
      }
    }
  }

  function Moved(s: State, path: Path, port: Port): State {
    var board := if path in s.boards then s.boards[path].(port := port) else Board(port, false, false, None);
    s.(boards := s.boards[path := board])
  }

  /** Registering a board anew keeps that exactly when the board is awake or its new port is off. */
  lemma MovingNeedsAPortThatIsOff(s: State, path: Path, port: Port)
    requires SleepingIsOff(s)
    ensures SleepingIsOff(Moved(s, path, port)) <==> (path in s.boards && s.boards[path].sleeping ==> port !in s.on)
  {
    var after := Moved(s, path, port);
    assert forall q :: q in s.boards && q != path ==> after.boards[q] == s.boards[q];
    assert path in after.boards && after.boards[path].port == port;
  }

  /** Recording a board as sleeping without switching keeps that exactly when its port is off already. */
  lemma MarkingNeedsAPortThatIsOff(s: State, path: Path)
    requires SleepingIsOff(s) && path in s.boards
    ensures SleepingIsOff(s.(boards := s.boards[path := s.boards[path].(sleeping := true)]))
            <==> s.boards[path].port !in s.on
  {
    var after := s.(boards := s.boards[path := s.boards[path].(sleeping := true)]);
    assert after.boards[path].sleeping;
    assert forall q :: q in s.boards && q != path ==> after.boards[q] == s.boards[q];
  }

  // The sweep.

  predicate Idle(b: Board, now: int, timeout: int) {
    !b.sleeping && !b.busy && b.lastUsed.Some? && now - b.lastUsed.value >= timeout
  }

  ghost predicate Distinct(paths: seq<Path>) {
    forall i, j :: 0 <= i < j < |paths| ==> paths[i] != paths[j]
  }

  ghost function CallsFor(boards: Boards, down: seq<Path>): (calls: seq<PowerCall>)
    requires forall p :: p in down ==> p in boards
    ensures |calls| == |down|
  {
    seq(|down|, i requires 0 <= i < |down| => assert down[i] in down; PowerCall(boards[down[i]].port, false))
  }

  /** Sleeping several boards records exactly those as sleeping and changes nothing else about any board. */
  lemma {:induction false} SleepAllRecords(s: State, paths: seq<Path>)
    requires forall p :: p in paths ==> p in s.boards
    ensures SleepAll(s, paths).boards
         == map p | p in s.boards :: if p in paths then s.boards[p].(sleeping := true) else s.boards[p]
    ensures SleepAll(s, paths).on == s.on - set p | p in paths :: s.boards[p].port
  {
    if paths != [] {
      var before, last := paths[..|paths| - 1], paths[|paths| - 1];
      assert paths == before + [last];
      SleepAllRecords(s, before);
      assert s.boards[last].port == SleepAll(s, before).boards[last].port;
      assert (set p | p in paths :: s.boards[p].port)
             == (set p | p in before :: s.boards[p].port) + {s.boards[last].port};
    }
  }

  /** One more idle board, still as it was, is put to sleep. */
  lemma SleepOneMore(s: State, idle: seq<Path>, i: nat, down: seq<Path>)
    requires i < |idle| && Distinct(idle) && Distinct(down) && (forall p :: p in idle ==> p in s.boards)
    requires forall p :: p in down ==> p in idle[..i]
    ensures var path := idle[i];
            && idle[..i + 1] == idle[..i] + [path]
            && path !in down && path in SleepAll(s, down).boards && SleepAll(s, down).boards[path] == s.boards[path]
            && Distinct(down + [path])
            && SleepAll(s, down + [path]) == SleptAt(SleepAll(s, down), path)
            && CallsFor(s.boards, down + [path]) == CallsFor(s.boards, down) + [PowerCall(s.boards[path].port, false)]
  {
    SleepAllRecords(s, down);
    assert (down + [idle[i]])[..|down|] == down;
    assert idle[i] !in idle[..i];
  }

  /** The first i idle boards have been visited, and those in `down` switched off. */
  ghost predicate Sweeping(s: State, calls: seq<PowerCall>, idle: seq<Path>, i: nat, down: seq<Path>, now: State,
                           made: seq<PowerCall>)
    requires i <= |idle|
  {
    && Distinct(down) && (forall p :: p in down ==> p in idle[..i] && p in s.boards)
    && now == SleepAll(s, down) && made == calls + CallsFor(s.boards, down)
  }

  lemma SweepOne(s: State, calls: seq<PowerCall>, idle: seq<Path>, i: nat, down: seq<Path>, now: State,
                 made: seq<PowerCall>)
    requires i < |idle| && Distinct(idle) && (forall p :: p in idle ==> p in s.boards)
    requires Sweeping(s, calls, idle, i, down, now, made)
    ensures idle[i] in now.boards && now.boards[idle[i]] == s.boards[idle[i]] && idle[..i + 1] == idle[..i] + [idle[i]]
    ensures Sweeping(s, calls, idle, i + 1, down, now, made)
    ensures Sweeping(s, calls, idle, i + 1, down + [idle[i]], SleptAt(now, idle[i]),
                     made + [PowerCall(s.boards[idle[i]].port, false)])
  {
    SleepOneMore(s, idle, i, down);
  }

  /** What a sweep put to sleep is not idle any more: sweeping again at the same instant leaves it alone. */
  lemma SweptIsNotIdle(s: State, down: seq<Path>, now: int, timeout: int, path: Path)
    requires (forall p :: p in down ==> p in s.boards) && path in down
    ensures path in After(s, Swept(down)).boards && !Idle(After(s, Swept(down)).boards[path], now, timeout)
  {
    SleepAllRecords(s, down);
  }

  class Manager {
    const ctrl: Controller
    const idleTimeout: int
    var boards: Boards

    constructor (ctrl: Controller, idleTimeout: int)
      ensures this.ctrl == ctrl && this.idleTimeout == idleTimeout && boards == map[]
    {
      this.ctrl, this.idleTimeout, boards := ctrl, idleTimeout, map[];
    }

    ghost function Current(): State
      reads this, ctrl
    {
      State(boards, ctrl.on)
    }

    method Register(path: Path, port: Port)
      modifies this`boards
      ensures Current() == Moved(old(Current()), path, port)
    {
      if path !in boards {
        boards := boards[path := Board(port, false, false, None)];
      }
      boards := boards[path := boards[path].(port := port)];
    }

    method Unregister(path: Path)
      modifies this`boards
      ensures boards == old(boards) - {path}
    {
      boards := boards - {path};
    }

    method SetBusy(path: Path, busy: bool)
      modifies this`boards
      ensures Current() == After(old(Current()), Marked(path, busy))
      ensures path in old(boards) ==> boards == old(boards)[path := old(boards)[path].(busy := busy)]
    {
      if path in boards {
        boards := boards[path := boards[path].(busy := busy)];
      }
    }

    method Touch(path: Path, now: int)
      modifies this`boards
      ensures Current() == After(old(Current()), Touched(path, now))
      ensures path in old(boards) ==>
                boards == old(boards)[path := old(boards)[path].(sleeping := false, lastUsed := Some(now))]
    {
      if path in boards {
        boards := boards[path := boards[path].(lastUsed := Some(now), sleeping := false)];
      }
    }

    method SetSleeping(path: Path, sleeping: bool)
      modifies this`boards
      ensures boards == if path in old(boards) then old(boards)[path := old(boards)[path].(sleeping := sleeping)]
              else old(boards)
      ensures !sleeping ==> Current() == After(old(Current()), MarkedAwake(path))
    {
      if path in boards {
        boards := boards[path := boards[path].(sleeping := sleeping)];
      }
    }

    method Wake(path: Path) returns (r: Result)
      modifies this`boards, ctrl`on, ctrl`calls
      ensures Current() == After(old(Current()), if r.Done? then Woken(path) else Nothing)
      ensures ctrl.calls == old(ctrl.calls) +
                if path in old(boards) && r.Done? then [PowerCall(old(boards)[path].port, true)] else []
      ensures r.Unknown? <==> path !in old(boards)
      ensures boards == if r.Done? then old(boards)[path := old(boards)[path].(sleeping := false)] else old(boards)
      ensures ctrl.on == if r.Done? then old(ctrl.on) + {old(boards)[path].port} else old(ctrl.on)
      ensures ctrl.healthy && path in old(boards) && ctrl.Has(old(boards)[path].port) ==> r.Done?
    {
      if path !in boards {
        return Unknown;
      }
      var d := boards[path];
      var found := ctrl.FindHub(d.port.location);
      if !found {
        return NoHub;
      }
      var ok := ctrl.SetPower(d.port, true);
      if !ok {
        return SwitchFailed;
      }
      boards := boards[path := d.(sleeping := false)];
      return Done;
    }

    /** Nothing is switched for a board that is recorded as sleeping. */
    method Sleep(path: Path) returns (r: Result)
      modifies this`boards, ctrl`on, ctrl`calls
      ensures var switched := path in old(boards) && !old(boards)[path].sleeping && r.Done?;
              && Current() == After(old(Current()), if switched then Slept(path) else Nothing)
              && ctrl.calls == old(ctrl.calls) + (if switched then [PowerCall(old(boards)[path].port, false)] else [])
              && boards == (if switched then old(boards)[path := old(boards)[path].(sleeping := true)] else old(boards))
              && ctrl.on == if switched then old(ctrl.on) - {old(boards)[path].port} else old(ctrl.on)
      ensures r.Unknown? <==> path !in old(boards)
      ensures path in old(boards) && (old(boards)[path].sleeping || (ctrl.healthy && ctrl.Has(old(boards)[path].port)))
              ==> r.Done?
    {
      if path !in boards {
        return Unknown;
      }
      var d := boards[path];
      if d.sleeping {
        return Done;
      }
      var found := ctrl.FindHub(d.port.location);
      if !found {
        return NoHub;
      }
      var ok := ctrl.SetPower(d.port, false);
      if !ok {
        return SwitchFailed;
      }
      boards := boards[path := d.(sleeping := true)];
      return Done;
    }

    /** Off and on again; a busy board is left alone. If switching on fails the port stays off. */
    method PowerCycle(path: Path) returns (r: Result)
      modifies this`boards, ctrl`on, ctrl`calls
      ensures Current() == After(old(Current()),
                                 if r.Done? then Cycled(path) else if r.OnFailed? then CutOff(path) else Nothing)
      ensures r.Unknown? <==> path !in old(boards)
      ensures r.InUse? <==> path in old(boards) && old(boards)[path].busy
      ensures boards == if r.Done? then old(boards)[path := old(boards)[path].(sleeping := false)] else old(boards)
      ensures !r.Done? ==>
                ctrl.calls == old(ctrl.calls) +
                  if path in old(boards) && r.OnFailed? then [PowerCall(old(boards)[path].port, false)] else []
      ensures path in old(boards) && r.Done? ==>
                var port := old(boards)[path].port;
                ctrl.calls == old(ctrl.calls) + [PowerCall(port, false), PowerCall(port, true)]
      ensures ctrl.healthy && path in old(boards) && !old(boards)[path].busy && ctrl.Has(old(boards)[path].port)
              ==> r.Done?
    {
      if path !in boards {
        return Unknown;
      }
      var d := boards[path];
      if d.busy {
        return InUse;
      }
      var found := ctrl.FindHub(d.port.location);
      if !found {
        return NoHub;
      }
      var ok := ctrl.SetPower(d.port, false);
      if !ok {
        return OffFailed;
      }
      ok := ctrl.SetPower(d.port, true);
      if !ok {
        return OnFailed;
      }
      boards := boards[path := d.(sleeping := false)];
      assert old(ctrl.on) - {d.port} + {d.port} == old(ctrl.on) + {d.port};
      return Done;
    }

    /**
     Puts the idle boards to sleep and returns exactly those it switched off, each switched once; a board whose
     switch fails is not returned and not changed.
     */
    method Sweep(now: int) returns (down: seq<Path>)
      modifies this`boards, ctrl`on, ctrl`calls
      ensures Distinct(down)
      ensures forall p :: p in down ==>
                p in old(boards) &&
                var b := old(boards)[p];
                !b.sleeping && !b.busy && b.lastUsed.Some? && now - b.lastUsed.value >= idleTimeout
      ensures Current() == After(old(Current()), Swept(down))
      ensures ctrl.calls == old(ctrl.calls) + CallsFor(old(boards), down)
      ensures ctrl.healthy ==>
                forall p :: p in old(boards) && ctrl.Has(old(boards)[p].port) ==>
                  var b := old(boards)[p];
                  !b.sleeping && !b.busy && b.lastUsed.Some? && now - b.lastUsed.value >= idleTimeout ==> p in down
    {
      var idle := IdleBoards(now);
      ghost var before := Current();
      down := [];
      assert CallsFor(boards, []) == [];
      for i := 0 to |idle|
        invariant Sweeping(before, old(ctrl.calls), idle, i, down, Current(), ctrl.calls)
        invariant ctrl.healthy ==> forall p :: p in idle[..i] && ctrl.Has(before.boards[p].port) ==> p in down
      {
        var path := idle[i];
        SweepOne(before, old(ctrl.calls), idle, i, down, Current(), ctrl.calls);
        var r := Sleep(path);
        if r.Done? {
          down := down + [path];
        }
      }
    }

    method IdleBoards(now: int) returns (idle: seq<Path>)
      ensures Distinct(idle)
      ensures forall p :: p in idle <==> p in boards && Idle(boards[p], now, idleTimeout)
    {
      idle := [];
      var todo := boards.Keys;
      while todo != {}
        invariant Distinct(idle)
        invariant forall p :: p in idle <==> p in boards && p !in todo && Idle(boards[p], now, idleTimeout)
        decreases todo
      {
        var path :| path in todo;
        todo := todo - {path};
        var d := boards[path];
        if d.sleeping || d.busy {
          continue;
        }
        if d.lastUsed.None? {
          continue;
        }
        if now - d.lastUsed.value >= idleTimeout {
          idle := idle + [path];
        }
      }
    }
  }
}
